/** The external text-generation capability, seen only at its boundary: what a
    `fetch` to the generateContent endpoint can come back with, and the shape of
    the JSON body the extension navigates. Every field the extension reads with
    a property access may be missing, so each is optional. */
module Gemini {
  import opened Wrappers

  datatype Part = Part(text: Option<string>)
  datatype Content = Content(parts: Option<seq<Part>>)
  datatype Candidate = Candidate(content: Option<Content>)
  datatype ApiResponse = ApiResponse(candidates: Option<seq<Candidate>>)

  /** The outcome of one `fetch`: the request never got an answer (`fetch`
      rejected), or an HTTP status with a body that `response.json()` either
      decoded (`Some`) or failed to decode (`None`). */
  datatype FetchOutcome =
    | Unreachable(message: string)
    | Answered(status: int, body: Option<ApiResponse>)

  /** `response.ok`: a 2xx status. */
  predicate IsOk(status: int) {
    200 <= status <= 299
  }

  /** `data.candidates[0].content.parts[0].text`, or `None` where any step of the
      path is missing (the access that would throw a TypeError). */
  function FirstText(data: ApiResponse): (r: Option<string>)
    ensures r.Some? <==>
      && data.candidates.Some? && |data.candidates.value| > 0
      && data.candidates.value[0].content.Some?
      && data.candidates.value[0].content.value.parts.Some?
      && |data.candidates.value[0].content.value.parts.value| > 0
      && data.candidates.value[0].content.value.parts.value[0].text.Some?
  {
    match data.candidates
    case None => None
    case Some(cs) =>
      if |cs| == 0 then None
      else match cs[0].content
        case None => None
        case Some(c) =>
          match c.parts
          case None => None
          case Some(ps) => if |ps| == 0 then None else ps[0].text
  }
}
