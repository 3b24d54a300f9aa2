/** Turning the capability's free-form answer into a typed result.

    Correction mode (`parseGeminiResponse`) locates a JSON object in the answer —
    a fenced ```json block if there is one, else the span from the first `{` to
    the last `}` — and hands it to `JSON.parse`, which is a parameter here
    (`parse`, returning `None` where the real parser throws or yields a
    non-object). Every failure ends in one fixed fallback result.

    Transform mode (`parsePromptResponse`) cuts the answer into sections keyed by
    `**header:**` lines, with the semantics of the regular expressions the agent
    uses: `\s*\n` after the header is greedy, the section body is lazy and stops
    at the first `\n**` or at the end of the text. */
module Extraction {
  import opened Wrappers
  import opened JsText
  import opened Gemini
  import opened Storage

  // ---------------------------------------------------------------------------
  // Correction mode

  datatype Issue = Issue(kind: string, severity: string, original: string, corrected: string, explanation: string)

  /** A correction result, and also the view of the object `JSON.parse` returns:
      `hasIssues` is that field's truthiness, a falsy or missing `correctedText`
      reads as `""`, and `issues` is `None` where the field is missing. */
  datatype CheckResult = CheckResult(hasIssues: bool, correctedText: string, issues: Option<seq<Issue>>, overallComment: string)

  const FenceOpen: string := "```json\n"
  const FenceClose: string := "\n```"
  const ParseFailureComment: string := "チェック結果の解析に失敗しました"

  /** The result returned whenever no object could be extracted. */
  function Fallback(selectedText: string): CheckResult {
    CheckResult(false, selectedText, Some([]), ParseFailureComment)
  }

  /** A fenced block opens at `p` and its closing fence starts at `k`. */
  predicate FencedAt(t: string, p: int, k: int) {
    OccursAt(t, FenceOpen, p) && p + |FenceOpen| <= k && OccursAt(t, FenceClose, k)
  }

  /** The capture of `/```json\n([\s\S]*?)\n```/` as a slice `(start, end)` of `t`:
      the leftmost opening fence, and the first closing fence after it. */
  function FenceSpan(t: string): (r: Option<(nat, nat)>)
    ensures r.Some? ==> |FenceOpen| <= r.value.0 <= r.value.1 <= |t|
    ensures r.Some? ==> FencedAt(t, r.value.0 - |FenceOpen|, r.value.1)
    ensures r.Some? ==> forall q | 0 <= q < r.value.0 - |FenceOpen| :: !OccursAt(t, FenceOpen, q)
    ensures r.Some? ==> forall k | r.value.0 <= k < r.value.1 :: !OccursAt(t, FenceClose, k)
    ensures r.None? <==> forall p, k :: !FencedAt(t, p, k)
  {
    match IndexOf(t, FenceOpen, 0)
    case None => None
    case Some(p) =>
      match IndexOf(t, FenceClose, p + |FenceOpen|)
      case None =>
        assert forall p', k :: !FencedAt(t, p', k) by {
          forall p', k ensures !FencedAt(t, p', k) {
            if p' < p {
              assert !OccursAt(t, FenceOpen, p');
            } else {
              assert !OccursAt(t, FenceClose, k) || k < p' + |FenceOpen|;
            }
          }
        }
        None
      case Some(k) =>
        assert FencedAt(t, p, k);
        Some((p + |FenceOpen|, k))
  }

  /** The capture of `/({[\s\S]*})/` as a slice: from the first `{` to the last `}`,
      provided that `}` comes after it. */
  function BraceSpan(t: string): (r: Option<(nat, nat)>)
    ensures r.Some? ==> r.value.0 + 2 <= r.value.1 <= |t|
    ensures r.Some? ==> t[r.value.0] == '{' && t[r.value.1 - 1] == '}'
    ensures r.Some? ==> forall q | 0 <= q < r.value.0 :: t[q] != '{'
    ensures r.Some? ==> forall q | r.value.1 <= q < |t| :: t[q] != '}'
    ensures r.None? <==> forall i, j | 0 <= i < j < |t| :: !(t[i] == '{' && t[j] == '}')
  {
    match IndexOf(t, "{", 0)
    case None =>
      assert forall i | 0 <= i < |t| :: t[i] != '{' by {
        forall i | 0 <= i < |t| ensures t[i] != '{' {
          assert !OccursAt(t, "{", i);
          assert t[i..i + 1] == [t[i]];
        }
      }
      None
    case Some(i) =>
      assert t[i] == '{' by { assert t[i..i + 1] == "{"; }
      assert forall q | 0 <= q < i :: t[q] != '{' by {
        forall q | 0 <= q < i ensures t[q] != '{' {
          assert !OccursAt(t, "{", q);
          assert t[q..q + 1] == [t[q]];
        }
      }
      match LastIndexOfChar(t, '}')
      case None => None
      case Some(j) => if i < j then Some((i, j + 1)) else None
  }

  /** The JSON text `parseGeminiResponse` hands to `JSON.parse`: the fenced block
      when there is one, otherwise the brace span. */
  function LocateJson(t: string): (r: Option<string>)
    ensures FenceSpan(t).Some? ==> r == Some(t[FenceSpan(t).value.0..FenceSpan(t).value.1])
    ensures FenceSpan(t).None? && BraceSpan(t).Some? ==> r == Some(t[BraceSpan(t).value.0..BraceSpan(t).value.1])
    ensures r.None? <==> FenceSpan(t).None? && BraceSpan(t).None?
  {
    match FenceSpan(t)
    case Some((a, b)) => Some(t[a..b])
    case None =>
      match BraceSpan(t)
      case Some((a, b)) => Some(t[a..b])
      case None => None
  }

  /** `parseGeminiResponse`: never fails. The result is the parsed object with a
      missing corrected text filled in from the selection, or the fallback. */
  function ParseCheckResponse(data: ApiResponse, selectedText: string, parse: string -> Option<CheckResult>): (r: CheckResult)
    ensures r.correctedText == "" ==> selectedText == ""
    ensures FirstText(data).None? ==> r == Fallback(selectedText)
    ensures FirstText(data).Some? && LocateJson(FirstText(data).value).None? ==> r == Fallback(selectedText)
    ensures FirstText(data).Some? && LocateJson(FirstText(data).value).Some? ==>
      var obj := parse(LocateJson(FirstText(data).value).value);
      && (obj.None? ==> r == Fallback(selectedText))
      && (obj.Some? ==> r == obj.value.(correctedText := if obj.value.correctedText == "" then selectedText else obj.value.correctedText))
  {
    match FirstText(data)
    case None => Fallback(selectedText)
    case Some(text) =>
      match LocateJson(text)
      case None => Fallback(selectedText)
      case Some(json) =>
        match parse(json)
        case None => Fallback(selectedText)
        case Some(obj) =>
          if obj.correctedText == "" then obj.(correctedText := selectedText) else obj
  }

  /** The answer as a candidate list holding one part with the given text. */
  function AnswerWith(text: string): ApiResponse {
    ApiResponse(Some([Candidate(Some(Content(Some([Part(Some(text))]))))]))
  }

  /** A fenced block is found and its body extracted exactly, whatever braces the
      text around it holds, as long as no backtick precedes it or occurs inside it. */
  lemma FencedBlockLocated(pre: string, body: string, post: string)
    requires '`' !in pre && '`' !in body
    ensures LocateJson(pre + FenceOpen + body + FenceClose + post) == Some(body)
  {
    var t := pre + FenceOpen + body + FenceClose + post;
    var a := |pre| + |FenceOpen|;
    var b := a + |body|;
    assert t[|pre|..a] == FenceOpen;
    assert t[a..b] == body;
    assert t[b..b + |FenceClose|] == FenceClose;
    forall q | 0 <= q < |pre| ensures !OccursAt(t, FenceOpen, q) {
      assert t[q] == pre[q];
      MismatchRefutes(t, FenceOpen, q, 0);
    }
    IndexOfIs(t, FenceOpen, 0, |pre|);
    forall k | a <= k < b ensures !OccursAt(t, FenceClose, k) {
      if k + 1 < b {
        assert t[k + 1] == body[k + 1 - a];
      } else {
        assert t[k + 1] == FenceClose[0];
      }
      MismatchRefutes(t, FenceClose, k, 1);
    }
    IndexOfIs(t, FenceClose, a, b);
  }

  /** Without any fence, the object written between brace-free surroundings is
      found exactly. */
  lemma BareObjectLocated(pre: string, body: string, post: string)
    requires |body| >= 2 && body[0] == '{' && body[|body| - 1] == '}'
    requires '{' !in pre && '}' !in post
    requires '`' !in pre + body + post
    ensures LocateJson(pre + body + post) == Some(body)
  {
    var t := pre + body + post;
    forall q | 0 <= q ensures !OccursAt(t, FenceOpen, q) {
      if q < |t| {
        assert t[q] in pre + body + post;
      }
      MismatchRefutes(t, FenceOpen, q, 0);
    }
    var i := |pre|;
    var j := |pre| + |body| - 1;
    assert t[i] == '{' && t[j] == '}';
    assert t[i..i + 1] == "{";
    forall q | 0 <= q < i ensures !OccursAt(t, "{", q) {
      assert t[q] == pre[q];
      MismatchRefutes(t, "{", q, 0);
    }
    IndexOfIs(t, "{", 0, i);
    forall q | j < q < |t| ensures t[q] != '}' {
      assert t[q] == post[q - |pre| - |body|];
    }
    var r := LastIndexOfChar(t, '}');
    assert r.Some? by { assert t[j] in t; }
    assert r.value == j;
    assert t[i..j + 1] == body;
  }

  /** The extractor inverts the answer format the text-check prompt asks for: a fenced
      object whose corrected text is present comes back unchanged. */
  lemma CheckAnswerRoundTrip(pre: string, body: string, post: string, obj: CheckResult,
                             selectedText: string, parse: string -> Option<CheckResult>)
    requires '`' !in pre && '`' !in body
    requires parse(body) == Some(obj) && obj.correctedText != ""
    ensures ParseCheckResponse(AnswerWith(pre + FenceOpen + body + FenceClose + post), selectedText, parse) == obj
  {
    FencedBlockLocated(pre, body, post);
  }

  /** An answer with neither a fence nor a brace falls back: the corrected text is
      the selection and there are no issues. */
  lemma NonJsonAnswerFallsBack(text: string, selectedText: string, parse: string -> Option<CheckResult>)
    requires '{' !in text && '`' !in text
    ensures ParseCheckResponse(AnswerWith(text), selectedText, parse) == Fallback(selectedText)
    ensures ParseCheckResponse(AnswerWith(text), selectedText, parse).issues == Some([])
  {
    forall q | 0 <= q ensures !OccursAt(text, FenceOpen, q) {
      MismatchRefutes(text, FenceOpen, q, 0);
    }
  }

  // ---------------------------------------------------------------------------
  // Transform mode

  const BasicHeader: string := "**基本プロンプト:**"
  const CreativeHeader: string := "**クリエイティブ提案:**"
  const LearningHeader: string := "**英語学習:**"
  const NextHeader: string := "\n**"

  /** The end of the white-space run that starts at `i`. */
  function SpaceRunEnd(t: string, i: nat): (e: nat)
    requires i <= |t|
    ensures i <= e <= |t|
    ensures forall j | i <= j < e :: IsSpace(t[j])
    ensures e == |t| || !IsSpace(t[e])
    decreases |t| - i
  {
    if i < |t| && IsSpace(t[i]) then SpaceRunEnd(t, i + 1) else i
  }

  /** The last newline in `t[lo..hi]`. */
  function LastNewline(t: string, lo: nat, hi: nat): (r: Option<nat>)
    requires lo <= hi <= |t|
    ensures r.Some? ==> lo <= r.value < hi && t[r.value] == '\n'
    ensures r.Some? ==> forall j | r.value < j < hi :: t[j] != '\n'
    ensures r.None? ==> forall j | lo <= j < hi :: t[j] != '\n'
    decreases hi - lo
  {
    if lo == hi then None
    else if t[hi - 1] == '\n' then Some(hi - 1)
    else LastNewline(t, lo, hi - 1)
  }

  /** Where the section text starts when `header\s*\n` matches at `p`: the header
      occurs there and the white space after it holds a newline. The greedy `\s*`
      backs off to the last newline of that white space, so the text starts just
      after it. */
  function MatchAt(t: string, header: string, p: nat): (c: Option<nat>)
    ensures c.Some? ==> OccursAt(t, header, p) && p + |header| < c.value <= |t|
    ensures !OccursAt(t, header, p) ==> c.None?
  {
    if !OccursAt(t, header, p) then None
    else match LastNewline(t, p + |header|, SpaceRunEnd(t, p + |header|))
      case Some(k) => Some(k + 1)
      case None => None
  }

  /** `header\s*\n` matches at `p`. */
  predicate HeaderMatchesAt(t: string, header: string, p: int) {
    0 <= p && MatchAt(t, header, p).Some?
  }

  /** Where a header match starts, and where its section text starts. */
  datatype HeaderHit = HeaderHit(at: nat, content: nat)

  /** The leftmost match of `header\s*\n` at or after `from`. */
  function FindHeader(t: string, header: string, from: nat): (r: Option<HeaderHit>)
    requires |header| > 0
    ensures r.Some? ==> from <= r.value.at && MatchAt(t, header, r.value.at) == Some(r.value.content)
    ensures r.Some? ==> HeaderMatchesAt(t, header, r.value.at) && r.value.content <= |t|
    ensures r.Some? ==> forall q | from <= q < r.value.at :: !HeaderMatchesAt(t, header, q)
    ensures r.None? ==> forall q | from <= q :: !HeaderMatchesAt(t, header, q)
    decreases |t| - from
  {
    match IndexOf(t, header, from)
    case None => NoOccurrenceNoMatch(t, header, from); None
    case Some(p) =>
      FirstOccurrenceFirstMatch(t, header, from, p);
      match MatchAt(t, header, p)
      case Some(c) => Some(HeaderHit(p, c))
      case None => FindHeader(t, header, p + 1)
  }

  /** Without an occurrence of the header there is no match. */
  lemma NoOccurrenceNoMatch(t: string, header: string, from: nat)
    requires IndexOf(t, header, from).None?
    ensures forall q | from <= q :: !HeaderMatchesAt(t, header, q)
  {
  }

  /** No match precedes the first occurrence of the header. */
  lemma FirstOccurrenceFirstMatch(t: string, header: string, from: nat, p: nat)
    requires IndexOf(t, header, from) == Some(p)
    ensures forall q | from <= q < p :: !HeaderMatchesAt(t, header, q)
  {
  }

  /** A slice that ends at the first `\n**` after its start holds no `\n**`. */
  lemma NoNextHeaderBefore(t: string, c: nat, m: nat)
    requires c <= m <= |t|
    requires forall q | c <= q < m :: !OccursAt(t, NextHeader, q)
    ensures !Contains(t[c..m], NextHeader)
  {
    forall i | OccursAt(t[c..m], NextHeader, i) ensures false {
      OccursInSlice(t, c, m, NextHeader, i);
    }
  }

  /** The lazy body starting at `c`: the text up to the first `\n**` at or after
      `c`, or to the end of the text. */
  function SectionText(t: string, c: nat): (r: string)
    requires c <= |t|
    ensures c + |r| <= |t| && r == t[c..c + |r|]
    ensures c + |r| == |t| || OccursAt(t, NextHeader, c + |r|)
    ensures forall q | c <= q < c + |r| :: !OccursAt(t, NextHeader, q)
    ensures !Contains(r, NextHeader)
  {
    var m := IndexOf(t, NextHeader, c).GetOr(|t|);
    NoNextHeaderBefore(t, c, m);
    t[c..m]
  }

  /** The capture of `/header\s*\n(.*?)(?=\n\*\*|$)/s`: the text after the
      header line up to the first `\n**` or the end. It never runs into the next
      header. */
  function Section(t: string, header: string): (r: Option<string>)
    requires |header| > 0
    ensures r.None? <==> FindHeader(t, header, 0).None?
    ensures r.Some? ==> var c := FindHeader(t, header, 0).value.content;
      r.value == SectionText(t, c)
    ensures r.Some? ==> !Contains(r.value, NextHeader)
  {
    match FindHeader(t, header, 0)
    case None => None
    case Some(hit) => Some(SectionText(t, hit.content))
  }

  /** The capture of `/header\s*\n(.*?)$/s`: everything after the header line. */
  function Tail(t: string, header: string): (r: Option<string>)
    requires |header| > 0
    ensures r.None? <==> forall q | 0 <= q :: !HeaderMatchesAt(t, header, q)
    ensures r.Some? ==> r.value == t[FindHeader(t, header, 0).value.content..]
  {
    match FindHeader(t, header, 0)
    case None => None
    case Some(hit) => Some(t[hit.content..])
  }

  /** A conversion result; `kind` is the record's constant `type` field. */
  datatype PromptResult = PromptResult(
    originalText: string,
    basicPrompt: string,
    creativePrompt: string,
    learningContent: string,
    hasLearning: bool,
    isSimpleTranslation: bool,
    responseText: string,
    kind: string)

  const ConversionKind: string := "prompt_conversion"

  /** The errors `parsePromptResponse` throws. */
  datatype AnswerError = EmptyAnswer | InvalidAnswer | MissingText

  /** The sections of an answer text, as `parsePromptResponse` cuts them: the
      basic prompt falls back to the whole trimmed text when its header is
      missing, the other two to the empty string, and a section that is not
      wanted is not looked for. */
  function SectionsOf(text: string, selectedText: string, promptStyle: Value, learningEnabled: bool): (r: PromptResult)
    ensures r.responseText == text && r.originalText == selectedText && r.hasLearning == learningEnabled
    ensures r.kind == ConversionKind
    ensures r.isSimpleTranslation <==> promptStyle == Str("none")
    ensures promptStyle == Str("none") ==> r.creativePrompt == ""
    ensures !learningEnabled ==> r.learningContent == ""
    ensures Section(text, BasicHeader).None? ==> r.basicPrompt == Trim(text)
    ensures Section(text, CreativeHeader).None? ==> r.creativePrompt == ""
    ensures Tail(text, LearningHeader).None? ==> r.learningContent == ""
    ensures Section(text, BasicHeader).Some? ==> r.basicPrompt == Trim(Section(text, BasicHeader).value)
    ensures promptStyle != Str("none") && Section(text, CreativeHeader).Some? ==>
      r.creativePrompt == Trim(Section(text, CreativeHeader).value)
    ensures learningEnabled && Tail(text, LearningHeader).Some? ==>
      r.learningContent == Trim(Tail(text, LearningHeader).value)
  {
    var basic := (match Section(text, BasicHeader)
      case Some(s) => Trim(s)
      case None => Trim(text));
    var creative := if promptStyle != Str("none") then
        (match Section(text, CreativeHeader) case Some(s) => Trim(s) case None => "")
      else "";
    var learning := if learningEnabled then
        (match Tail(text, LearningHeader) case Some(s) => Trim(s) case None => "")
      else "";
    PromptResult(selectedText, basic, creative, learning, learningEnabled, promptStyle == Str("none"), text, ConversionKind)
  }

  /** `parsePromptResponse` for a page agent whose prompt style and learning flag
      are given. A missing candidate list or part list throws, and so does a
      missing text; otherwise the text is cut into its sections. */
  function ParsePromptResponse(data: ApiResponse, selectedText: string, promptStyle: Value, learningEnabled: bool)
    : (r: Result<PromptResult, AnswerError>)
    ensures r == Failure(EmptyAnswer) <==> data.candidates.None? || |data.candidates.value| == 0
    ensures r == Failure(InvalidAnswer) <==>
      && data.candidates.Some? && |data.candidates.value| > 0
      && var c := data.candidates.value[0].content;
         c.None? || c.value.parts.None? || |c.value.parts.value| == 0
    ensures r == Failure(MissingText) <==>
      && data.candidates.Some? && |data.candidates.value| > 0
      && FirstText(data).None?
      && !(var c := data.candidates.value[0].content;
           c.None? || c.value.parts.None? || |c.value.parts.value| == 0)
    ensures r.Success? <==> FirstText(data).Some?
    ensures r.Success? ==> r.value == SectionsOf(FirstText(data).value, selectedText, promptStyle, learningEnabled)
  {
    match data.candidates
    case None => Failure(EmptyAnswer)
    case Some(cs) =>
      if |cs| == 0 then Failure(EmptyAnswer)
      else match cs[0].content
        case None => Failure(InvalidAnswer)
        case Some(content) =>
          match content.parts
          case None => Failure(InvalidAnswer)
          case Some(ps) =>
            if |ps| == 0 then Failure(InvalidAnswer)
            else match ps[0].text
              case None => Failure(MissingText)
              case Some(text) => Success(SectionsOf(text, selectedText, promptStyle, learningEnabled))
  }

  /** A section read from a header never runs into the next `**` line, and the
      creative proposal never does either. */
  lemma SectionsStopAtHeaders(text: string, selectedText: string, promptStyle: Value, learningEnabled: bool)
    ensures var r := SectionsOf(text, selectedText, promptStyle, learningEnabled);
      && (Section(text, BasicHeader).Some? ==> !Contains(r.basicPrompt, NextHeader))
      && !Contains(r.creativePrompt, NextHeader)
  {
    if Section(text, BasicHeader).Some? {
      TrimKeepsOut(Section(text, BasicHeader).value, NextHeader);
    }
    if promptStyle != Str("none") && Section(text, CreativeHeader).Some? {
      TrimKeepsOut(Section(text, CreativeHeader).value, NextHeader);
    }
  }

  /** Trimming cannot create an occurrence. */
  lemma TrimKeepsOut(s: string, p: string)
    requires !Contains(s, p)
    ensures !Contains(Trim(s), p)
  {
    var r := Trim(s);
    var a := LeadingSpaces(s);
    assert r == s[a..a + |r|];
    SliceKeepsOut(s, a, a + |r|, p);
  }


  /** Section text as the conversion prompt asks for it: non-empty, trimmed, and
      free of `*`. */
  predicate CleanSection(s: string) {
    && |s| > 0 && !IsSpace(s[0]) && !IsSpace(s[|s| - 1])
    && forall i | 0 <= i < |s| :: s[i] != '*'
  }

  /** A header that first occurs at `p` and is followed by one newline and then
      text is matched there, and its section starts after that newline. */
  lemma HeaderFoundAt(t: string, header: string, p: nat)
    requires |header| > 0 && OccursAt(t, header, p)
    requires forall q | 0 <= q < p :: !OccursAt(t, header, q)
    requires p + |header| + 1 < |t| && t[p + |header|] == '\n' && !IsSpace(t[p + |header| + 1])
    ensures FindHeader(t, header, 0) == Some(HeaderHit(p, p + |header| + 1))
  {
    IndexOfIs(t, header, 0, p);
    NewlineThenText(t, p + |header|);
    FindHeaderStops(t, header, 0, p, p + |header|);
  }

  /** The first occurrence of a header followed by white space with a newline is
      the match. */
  lemma FindHeaderStops(t: string, header: string, from: nat, p: nat, k: nat)
    requires |header| > 0 && IndexOf(t, header, from) == Some(p)
    requires LastNewline(t, p + |header|, SpaceRunEnd(t, p + |header|)) == Some(k)
    ensures FindHeader(t, header, from) == Some(HeaderHit(p, k + 1))
  {
  }

  /** A newline followed by text is the only newline of its white-space run. */
  lemma NewlineThenText(t: string, h: nat)
    requires h + 1 < |t| && t[h] == '\n' && !IsSpace(t[h + 1])
    ensures LastNewline(t, h, SpaceRunEnd(t, h)) == Some(h)
  {
    assert IsSpace(t[h]);
    assert SpaceRunEnd(t, h + 1) == h + 1;
    assert SpaceRunEnd(t, h) == h + 1;
  }

  /** The section is the slice from the content start to the first `\n**` at or
      after it, or to the end. */
  lemma SectionSlice(t: string, header: string, p: nat, c: nat, m: nat)
    requires |header| > 0 && FindHeader(t, header, 0) == Some(HeaderHit(p, c))
    requires c <= m <= |t|
    requires forall q | c <= q < m :: !OccursAt(t, NextHeader, q)
    requires m == |t| || OccursAt(t, NextHeader, m)
    ensures Section(t, header) == Some(t[c..m])
  {
    if m < |t| {
      IndexOfIs(t, NextHeader, c, m);
    } else {
      forall q | m <= q ensures !OccursAt(t, NextHeader, q) {
        assert q + |NextHeader| > |t|;
      }
    }
  }

  /** A clean body followed by the end of the text or by a newline holds no
      `\n**` start before the end of that newline. */
  lemma NoNextHeaderInBody(t: string, c: nat, body: string, m: nat)
    requires CleanSection(body)
    requires c + |body| <= m <= c + |body| + 1 && m <= |t|
    requires t[c..c + |body|] == body
    requires m == c + |body| ==> m == |t|
    requires m == c + |body| + 1 ==> t[c + |body|] == '\n' && m < |t| && t[m] == '\n'
    ensures forall q | c <= q < m :: !OccursAt(t, NextHeader, q)
  {
    forall q | c <= q < m ensures !OccursAt(t, NextHeader, q) {
      if q + 1 < c + |body| {
        assert t[q + 1] == t[c..c + |body|][q + 1 - c] == body[q + 1 - c];
      }
      assert NextHeader[1] == '*';
      MismatchRefutes(t, NextHeader, q, 1);
    }
  }

  /** A clean body written on the line after the first occurrence of its header,
      and followed by the end of the text or by a blank line and the next header,
      is the trimmed section. */
  lemma SectionIs(t: string, header: string, p: nat, body: string)
    requires |header| > 0 && OccursAt(t, header, p)
    requires forall q | 0 <= q < p :: !OccursAt(t, header, q)
    requires CleanSection(body)
    requires var c := p + |header| + 1;
      c + |body| <= |t| && t[c - 1] == '\n' && t[c..c + |body|] == body
    requires var e := p + |header| + 1 + |body|;
      e == |t| || (e + 1 < |t| && t[e] == '\n' && OccursAt(t, NextHeader, e + 1))
    ensures Section(t, header).Some? && Trim(Section(t, header).value) == body
  {
    var c := p + |header| + 1;
    var e := c + |body|;
    var m := if e == |t| then e else e + 1;
    assert t[c] == body[0] by { assert t[c..c + |body|][0] == t[c]; }
    HeaderFoundAt(t, header, p);
    assert m < |t| ==> t[m] == t[m..m + |NextHeader|][0] == '\n';
    NoNextHeaderInBody(t, c, body, m);
    SectionSlice(t, header, p, c, m);
    PaddedSectionTrims(t, c, body, m);
  }

  /** Helper: the section slice is the body plus at most one newline. */
  lemma PaddedSectionTrims(t: string, c: nat, body: string, m: nat)
    requires CleanSection(body)
    requires c + |body| <= m <= c + |body| + 1 && m <= |t|
    requires t[c..c + |body|] == body
    requires m == c + |body| + 1 ==> t[c + |body|] == '\n'
    ensures Trim(t[c..m]) == body
  {
    var padding := t[c + |body|..m];
    assert AllSpace(padding);
    assert t[c..m] == body + padding;
    TrimOfPadded(body, padding);
  }

  /** A trimmed text written on the line after the first occurrence of its header
      is the trimmed tail. */
  lemma TailIs(t: string, header: string, p: nat, body: string)
    requires |header| > 0 && OccursAt(t, header, p)
    requires forall q | 0 <= q < p :: !OccursAt(t, header, q)
    requires |body| > 0 && !IsSpace(body[0]) && !IsSpace(body[|body| - 1])
    requires t == t[..p + |header|] + "\n" + body
    ensures Tail(t, header).Some? && Trim(Tail(t, header).value) == body
  {
    var c := p + |header| + 1;
    assert t[c - 1] == '\n' && t[c] == body[0];
    HeaderFoundAt(t, header, p);
    assert t[c..] == body;
    TrimOfTrimmed(body);
  }

  /** The answer layout the conversion prompt asks for: the basic prompt, then the
      creative proposal unless the style is simple translation, then the learning
      notes when they are wanted, each under its header line and separated by a
      blank line. */
  function PromptAnswer(basic: string, creative: string, learning: string, simple: bool, withLearning: bool): string {
    BasicHeader + "\n" + basic
    + (if simple then "" else "\n\n" + CreativeHeader + "\n" + creative)
    + (if withLearning then "\n\n" + LearningHeader + "\n" + learning else "")
  }

  /** Within a header, a `**` is never followed by the third character of a
      different header. */
  lemma StarPairs(x: string, h: string)
    requires x == BasicHeader || x == CreativeHeader
    requires h == CreativeHeader || h == LearningHeader
    requires x != h
    ensures forall o | 0 <= o < |x| - 2 :: x[o] != '*' || x[o + 1] != '*' || x[o + 2] != h[2]
  {
  }

  /** A later header does not occur inside an earlier section: neither in its
      header line, nor in its star-free body, nor in the blank line after it. */
  lemma HeaderNotInPart(t: string, base: nat, x: string, body: string, h: string, q: int)
    requires x == BasicHeader || x == CreativeHeader
    requires h == CreativeHeader || h == LearningHeader
    requires x != h
    requires forall j | 0 <= j < |body| :: body[j] != '*'
    requires base + |x| + 1 + |body| + 2 <= |t|
    requires forall j | 0 <= j < |x| :: t[base + j] == x[j]
    requires t[base + |x|] == '\n'
    requires forall j | 0 <= j < |body| :: t[base + |x| + 1 + j] == body[j]
    requires t[base + |x| + 1 + |body|] == '\n' && t[base + |x| + 1 + |body| + 1] == '\n'
    requires base <= q < base + |x| + 1 + |body| + 2
    ensures !OccursAt(t, h, q)
  {
    var o := q - base;
    if o < |x| - 2 {
      StarPairs(x, h);
      assert t[q] == x[o] && t[q + 1] == x[o + 1] && t[q + 2] == x[o + 2];
      if t[q] != '*' {
        MismatchRefutes(t, h, q, 0);
      } else if t[q + 1] != '*' {
        MismatchRefutes(t, h, q, 1);
      } else {
        MismatchRefutes(t, h, q, 2);
      }
    } else if o == |x| - 2 {
      MismatchRefutes(t, h, q, 2);
    } else if o == |x| - 1 {
      MismatchRefutes(t, h, q, 1);
    } else if o == |x| {
      MismatchRefutes(t, h, q, 0);
    } else if o < |x| + 1 + |body| {
      assert t[q] == body[o - |x| - 1];
      MismatchRefutes(t, h, q, 0);
    } else {
      MismatchRefutes(t, h, q, 0);
    }
  }

  /** Reading the characters of a header line and the body after it. */
  lemma PartLayout(t: string, base: nat, x: string, body: string)
    requires base + |x| + 1 + |body| <= |t|
    requires t[base..base + |x| + 1 + |body|] == x + "\n" + body
    ensures forall j | 0 <= j < |x| :: t[base + j] == x[j]
    ensures t[base + |x|] == '\n'
    ensures forall j | 0 <= j < |body| :: t[base + |x| + 1 + j] == body[j]
    ensures OccursAt(t, x, base)
    ensures t[base + |x| + 1..base + |x| + 1 + |body|] == body
  {
    var w := t[base..base + |x| + 1 + |body|];
    assert forall j | 0 <= j < |x| :: t[base + j] == w[j];
    assert t[base + |x|] == w[|x|];
    assert forall j | 0 <= j < |body| :: body[j] == w[|x| + 1 + j] == t[base + |x| + 1 + j];
    assert t[base..base + |x|] == w[..|x|] == x;
  }

  /** What follows a section in the requested layout: nothing, or a blank line and
      the next header. */
  predicate SectionEnd(t: string, e: nat) {
    e == |t| || (e + 1 < |t| && t[e] == '\n' && OccursAt(t, NextHeader, e + 1))
  }

  /** The parts after a section, when there are any, start with a blank line and a
      `**` header. */
  lemma FollowedBySectionEnd(t: string, e: nat, rest: string)
    requires e + |rest| == |t| && t[e..] == rest
    requires rest == "" || (|rest| >= 4 && rest[..4] == "\n\n**")
    ensures SectionEnd(t, e)
  {
    if rest != "" {
      assert t[e] == rest[0];
      assert t[e + 1..e + 1 + |NextHeader|] == rest[1..4];
    }
  }

  /** The creative part of the requested layout. */
  function CreativePart(creative: string, simple: bool): string {
    if simple then "" else "\n\n" + CreativeHeader + "\n" + creative
  }

  /** The learning part of the requested layout. */
  function LearningPart(learning: string, withLearning: bool): string {
    if withLearning then "\n\n" + LearningHeader + "\n" + learning else ""
  }

  /** The layout is the basic part followed by the optional parts, which open with
      a blank line and a `**` header when there are any. */
  lemma AnswerParts(basic: string, creative: string, learning: string, simple: bool, withLearning: bool)
    ensures var t := PromptAnswer(basic, creative, learning, simple, withLearning);
      var rest := CreativePart(creative, simple) + LearningPart(learning, withLearning);
      && t == BasicHeader + "\n" + basic + rest
      && (rest == "" || (|rest| >= 4 && rest[..4] == "\n\n**"))
  {
    var cr := CreativePart(creative, simple);
    var le := LearningPart(learning, withLearning);
    if cr != "" {
      assert (cr + le)[..4] == cr[..4];
    } else if le != "" {
      assert (cr + le)[..4] == le[..4];
    }
  }


  /** The basic prompt is found in the requested layout. */
  lemma BasicOfAnswer(basic: string, creative: string, learning: string, simple: bool, withLearning: bool)
    requires CleanSection(basic)
    ensures var t := PromptAnswer(basic, creative, learning, simple, withLearning);
      Section(t, BasicHeader).Some? && Trim(Section(t, BasicHeader).value) == basic
  {
    var t := PromptAnswer(basic, creative, learning, simple, withLearning);
    var a := BasicHeader + "\n" + basic;
    var rest := CreativePart(creative, simple) + LearningPart(learning, withLearning);
    AnswerParts(basic, creative, learning, simple, withLearning);
    Join(t, a, rest);
    FollowedBySectionEnd(t, |a|, rest);
    FirstSectionFound(t, basic);
  }

  /** Reading the two halves of a concatenation. */
  lemma Join(t: string, a: string, b: string)
    requires t == a + b
    ensures |t| == |a| + |b| && t[..|a|] == a && t[|a|..] == b
  {
  }

  /** Reading the two halves of a suffix that is a concatenation. */
  lemma SuffixJoin(t: string, p: nat, a: string, b: string)
    requires p <= |t| && t[p..] == a + b
    ensures p + |a| <= |t| && t[p..p + |a|] == a && t[p + |a|..] == b
  {
    assert t[p..p + |a|] == t[p..][..|a|];
    assert t[p + |a|..] == t[p..][|a|..];
  }


  /** A text opening with the basic header line and a clean body, followed by a
      section end, has that body as its basic section. */
  lemma FirstSectionFound(t: string, basic: string)
    requires CleanSection(basic)
    requires |BasicHeader| + 1 + |basic| <= |t|
    requires t[..|BasicHeader| + 1 + |basic|] == BasicHeader + "\n" + basic
    requires SectionEnd(t, |BasicHeader| + 1 + |basic|)
    ensures Section(t, BasicHeader).Some? && Trim(Section(t, BasicHeader).value) == basic
  {
    PartLayout(t, 0, BasicHeader, basic);
    SectionIs(t, BasicHeader, 0, basic);
  }

  /** A section that follows the basic part and a blank line is found. */
  lemma SecondSectionFound(t: string, basic: string, h: string, body: string)
    requires h == CreativeHeader || h == LearningHeader
    requires CleanSection(basic) && CleanSection(body)
    requires var p := |BasicHeader| + 1 + |basic| + 2;
      p + |h| + 1 + |body| <= |t|
      && t[..p - 2] == BasicHeader + "\n" + basic
      && t[p - 2] == '\n' && t[p - 1] == '\n'
      && t[p..p + |h| + 1 + |body|] == h + "\n" + body
      && SectionEnd(t, p + |h| + 1 + |body|)
    ensures Section(t, h).Some? && Trim(Section(t, h).value) == body
  {
    var p := |BasicHeader| + 1 + |basic| + 2;
    PartClear(t, 0, BasicHeader, basic, h);
    PartLayout(t, p, h, body);
    SectionIs(t, h, p, body);
  }

  /** A later header does not occur anywhere in an earlier part of the layout: its
      header line, its body and the blank line after it. */
  lemma PartClear(t: string, base: nat, x: string, body: string, h: string)
    requires x == BasicHeader || x == CreativeHeader
    requires h == CreativeHeader || h == LearningHeader
    requires x != h && CleanSection(body)
    requires base + |x| + 1 + |body| + 2 <= |t|
    requires t[base..base + |x| + 1 + |body|] == x + "\n" + body
    requires t[base + |x| + 1 + |body|] == '\n' && t[base + |x| + 1 + |body| + 1] == '\n'
    ensures forall q | base <= q < base + |x| + 1 + |body| + 2 :: !OccursAt(t, h, q)
  {
    PartLayout(t, base, x, body);
    forall q | base <= q < base + |x| + 1 + |body| + 2 ensures !OccursAt(t, h, q) {
      HeaderNotInPart(t, base, x, body, h, q);
    }
  }


  /** The creative proposal is found in the requested layout. */
  lemma CreativeOfAnswer(basic: string, creative: string, learning: string, withLearning: bool)
    requires CleanSection(basic) && CleanSection(creative)
    ensures var t := PromptAnswer(basic, creative, learning, false, withLearning);
      Section(t, CreativeHeader).Some? && Trim(Section(t, CreativeHeader).value) == creative
  {
    var t := PromptAnswer(basic, creative, learning, false, withLearning);
    var a := BasicHeader + "\n" + basic;
    var c := CreativeHeader + "\n" + creative;
    var le := LearningPart(learning, withLearning);
    var p := |a| + 2;
    assert t == a + "\n\n" + (c + le);
    BlankLineJoin(t, a, c + le);
    SuffixJoin(t, p, c, le);
    FollowedBySectionEnd(t, p + |c|, le);
    SecondSectionFound(t, basic, CreativeHeader, creative);
  }


  /** The learning header written at `p`, and not before, starts the tail. */
  lemma LearningTailFound(t: string, p: nat, learning: string)
    requires |learning| > 0 && !IsSpace(learning[0]) && !IsSpace(learning[|learning| - 1])
    requires p <= |t| && t[p..] == LearningHeader + "\n" + learning
    requires forall q | 0 <= q < p :: !OccursAt(t, LearningHeader, q)
    ensures Tail(t, LearningHeader).Some? && Trim(Tail(t, LearningHeader).value) == learning
  {
    PartLayout(t, p, LearningHeader, learning);
    assert t == t[..p + |LearningHeader|] + "\n" + learning;
    TailIs(t, LearningHeader, p, learning);
  }

  /** The learning header right after the basic part starts the tail. */
  lemma LearningAfterBasic(t: string, basic: string, learning: string)
    requires CleanSection(basic)
    requires |learning| > 0 && !IsSpace(learning[0]) && !IsSpace(learning[|learning| - 1])
    requires var p := |BasicHeader| + 1 + |basic| + 2;
      p <= |t|
      && t[..p - 2] == BasicHeader + "\n" + basic
      && t[p - 2] == '\n' && t[p - 1] == '\n'
      && t[p..] == LearningHeader + "\n" + learning
    ensures Tail(t, LearningHeader).Some? && Trim(Tail(t, LearningHeader).value) == learning
  {
    var p := |BasicHeader| + 1 + |basic| + 2;
    PartClear(t, 0, BasicHeader, basic, LearningHeader);
    LearningTailFound(t, p, learning);
  }


  /** The learning header after the basic and creative parts starts the tail. */
  lemma LearningAfterCreative(t: string, basic: string, creative: string, learning: string)
    requires CleanSection(basic) && CleanSection(creative)
    requires |learning| > 0 && !IsSpace(learning[0]) && !IsSpace(learning[|learning| - 1])
    requires var p2 := |BasicHeader| + 1 + |basic| + 2;
      var p3 := p2 + |CreativeHeader| + 1 + |creative| + 2;
      p3 <= |t|
      && t[..p2 - 2] == BasicHeader + "\n" + basic
      && t[p2 - 2] == '\n' && t[p2 - 1] == '\n'
      && t[p2..p3 - 2] == CreativeHeader + "\n" + creative
      && t[p3 - 2] == '\n' && t[p3 - 1] == '\n'
      && t[p3..] == LearningHeader + "\n" + learning
    ensures Tail(t, LearningHeader).Some? && Trim(Tail(t, LearningHeader).value) == learning
  {
    var p2 := |BasicHeader| + 1 + |basic| + 2;
    var p3 := p2 + |CreativeHeader| + 1 + |creative| + 2;
    PartClear(t, 0, BasicHeader, basic, LearningHeader);
    PartClear(t, p2, CreativeHeader, creative, LearningHeader);
    LearningTailFound(t, p3, learning);
  }


  /** The learning notes are found in the requested layout. */
  lemma LearningOfAnswer(basic: string, creative: string, learning: string, simple: bool)
    requires CleanSection(basic) && (simple || CleanSection(creative))
    requires |learning| > 0 && !IsSpace(learning[0]) && !IsSpace(learning[|learning| - 1])
    ensures var t := PromptAnswer(basic, creative, learning, simple, true);
      Tail(t, LearningHeader).Some? && Trim(Tail(t, LearningHeader).value) == learning
  {
    if simple {
      SimpleLayout(basic, creative, learning);
    } else {
      FullLayout(basic, creative, learning);
    }
  }

  /** Helper: the layout without the creative part. */
  lemma SimpleLayout(basic: string, creative: string, learning: string)
    requires CleanSection(basic)
    requires |learning| > 0 && !IsSpace(learning[0]) && !IsSpace(learning[|learning| - 1])
    ensures var t := PromptAnswer(basic, creative, learning, true, true);
      Tail(t, LearningHeader).Some? && Trim(Tail(t, LearningHeader).value) == learning
  {
    var t := PromptAnswer(basic, creative, learning, true, true);
    var a := BasicHeader + "\n" + basic;
    var rest := LearningHeader + "\n" + learning;
    assert t == a + "\n\n" + rest;
    BlankLineJoin(t, a, rest);
    LearningAfterBasic(t, basic, learning);
  }

  /** Reading the two sides of a blank line. */
  lemma BlankLineJoin(t: string, a: string, rest: string)
    requires t == a + "\n\n" + rest
    ensures |t| == |a| + 2 + |rest|
    ensures t[..|a|] == a && t[|a|] == '\n' && t[|a| + 1] == '\n' && t[|a| + 2..] == rest
  {
  }

  /** The full layout, grouped around its first blank line. */
  lemma FullConcat(basic: string, creative: string, learning: string)
    ensures PromptAnswer(basic, creative, learning, false, true)
      == BasicHeader + "\n" + basic + "\n\n"
         + (CreativeHeader + "\n" + creative + ("\n\n" + (LearningHeader + "\n" + learning)))
  {
  }

  /** The learning notes after the basic and creative parts. */
  lemma FullLayout(basic: string, creative: string, learning: string)
    requires CleanSection(basic) && CleanSection(creative)
    requires |learning| > 0 && !IsSpace(learning[0]) && !IsSpace(learning[|learning| - 1])
    ensures var t := PromptAnswer(basic, creative, learning, false, true);
      Tail(t, LearningHeader).Some? && Trim(Tail(t, LearningHeader).value) == learning
  {
    var t := PromptAnswer(basic, creative, learning, false, true);
    var a := BasicHeader + "\n" + basic;
    var c := CreativeHeader + "\n" + creative;
    var rest := LearningHeader + "\n" + learning;
    var p2 := |a| + 2;
    FullConcat(basic, creative, learning);
    BlankLineJoin(t, a, c + ("\n\n" + rest));
    SuffixJoin(t, p2, c, "\n\n" + rest);
    SuffixJoin(t, p2 + |c|, "\n\n", rest);
    assert t[p2 + |c|] == t[p2 + |c|..][0] && t[p2 + |c| + 1] == t[p2 + |c|..][1];
    LearningAfterCreative(t, basic, creative, learning);
  }


  /** How the sections of an answer text become the result. */
  lemma SectionsOfText(text: string, selectedText: string, promptStyle: Value, learningEnabled: bool,
                       basic: string, creative: string, learning: string)
    requires Section(text, BasicHeader).Some? && Trim(Section(text, BasicHeader).value) == basic
    requires promptStyle != Str("none") ==>
      Section(text, CreativeHeader).Some? && Trim(Section(text, CreativeHeader).value) == creative
    requires learningEnabled ==>
      Tail(text, LearningHeader).Some? && Trim(Tail(text, LearningHeader).value) == learning
    ensures SectionsOf(text, selectedText, promptStyle, learningEnabled)
      == PromptResult(selectedText, basic,
                      if promptStyle == Str("none") then "" else creative,
                      if learningEnabled then learning else "",
                      learningEnabled, promptStyle == Str("none"), text, ConversionKind)
  {
  }

  /** A single-part answer is parsed by cutting its text into sections. */
  lemma AnswerWithParses(text: string, selectedText: string, promptStyle: Value, learningEnabled: bool)
    ensures ParsePromptResponse(AnswerWith(text), selectedText, promptStyle, learningEnabled)
      == Success(SectionsOf(text, selectedText, promptStyle, learningEnabled))
  {
    assert FirstText(AnswerWith(text)) == Some(text);
  }

  /** Every requested section of the layout is found. */
  lemma SectionsOfAnswer(basic: string, creative: string, learning: string, promptStyle: Value, learningEnabled: bool)
    requires CleanSection(basic)
    requires promptStyle != Str("none") ==> CleanSection(creative)
    requires learningEnabled ==> |learning| > 0 && !IsSpace(learning[0]) && !IsSpace(learning[|learning| - 1])
    ensures var text := PromptAnswer(basic, creative, learning, promptStyle == Str("none"), learningEnabled);
      && Section(text, BasicHeader).Some? && Trim(Section(text, BasicHeader).value) == basic
      && (promptStyle != Str("none") ==>
            Section(text, CreativeHeader).Some? && Trim(Section(text, CreativeHeader).value) == creative)
      && (learningEnabled ==>
            Tail(text, LearningHeader).Some? && Trim(Tail(text, LearningHeader).value) == learning)
  {
    var simple := promptStyle == Str("none");
    BasicOfAnswer(basic, creative, learning, simple, learningEnabled);
    if !simple {
      CreativeOfAnswer(basic, creative, learning, learningEnabled);
    }
    if learningEnabled {
      LearningOfAnswer(basic, creative, learning, simple);
    }
  }

  /** An answer in the layout the conversion prompt asks for is parsed back into
      the sections that were written: the basic prompt, the creative proposal
      unless the style is simple translation, and the learning notes when they
      are enabled. */
  lemma PromptAnswerRoundTrip(basic: string, creative: string, learning: string,
                              selectedText: string, promptStyle: Value, learningEnabled: bool)
    requires CleanSection(basic)
    requires promptStyle != Str("none") ==> CleanSection(creative)
    requires learningEnabled ==> |learning| > 0 && !IsSpace(learning[0]) && !IsSpace(learning[|learning| - 1])
    ensures var simple := promptStyle == Str("none");
      var answer := PromptAnswer(basic, creative, learning, simple, learningEnabled);
      var r := ParsePromptResponse(AnswerWith(answer), selectedText, promptStyle, learningEnabled);
      && r.Success?
      && r.value.basicPrompt == basic
      && r.value.creativePrompt == (if simple then "" else creative)
      && r.value.learningContent == (if learningEnabled then learning else "")
      && r.value.isSimpleTranslation == simple
      && r.value.responseText == answer
  {
    var answer := PromptAnswer(basic, creative, learning, promptStyle == Str("none"), learningEnabled);
    SectionsOfAnswer(basic, creative, learning, promptStyle, learningEnabled);
    SectionsOfText(answer, selectedText, promptStyle, learningEnabled, basic, creative, learning);
    AnswerWithParses(answer, selectedText, promptStyle, learningEnabled);
  }
}
