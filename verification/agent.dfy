/** The page agent (`content.js`): its message listener, the selection guards in
    front of the two operations, the page-context rule, the mapping from HTTP
    statuses to errors, and the statistics message it sends after an operation.

    The host is reduced to inputs: `page` is what `window.getSelection()` reads,
    `fetch` is the outcome of the one request an operation makes, `parse` is
    `JSON.parse`, and `store` is the storage read at the moment of the call. */
module Agent {
  import opened Wrappers
  import opened JsText
  import opened Storage
  import opened Gemini
  import opened Settings
  import opened Extraction
  import opened Counters

  /** A message to the agent. Its `action`, `type` and `selectedText` fields are
      strings; an absent field is `""`, which every test treats the same way. */
  datatype Request = Request(action: string, msgType: string, selectedText: string)

  /** What the listener does with a request. */
  datatype Route = CheckText | ConvertText | Ping | Reinit | Ignore

  /** The listener's tests, in its order: the three actions first, then the
      settings notification by `type`. */
  function RouteOf(req: Request): (r: Route)
    ensures r == CheckText <==> req.action == "checkSelectedText"
    ensures r == ConvertText <==> req.action == "convertToPrompt"
    ensures r == Ping <==> req.action == "ping"
    ensures r == Reinit <==>
      req.action !in {"checkSelectedText", "convertToPrompt", "ping"} && req.msgType == "SETTINGS_UPDATED"
  {
    if req.action == "checkSelectedText" then CheckText
    else if req.action == "convertToPrompt" then ConvertText
    else if req.action == "ping" then Ping
    else if req.msgType == "SETTINGS_UPDATED" then Reinit
    else Ignore
  }

  /** The route a request takes in an agent initialised from `store`; `None` when
      the agent was disabled at start-up and registered no listener at all. */
  function Dispatch(initStore: Store, req: Request): (r: Option<Route>)
    ensures r.None? <==> !AgentSettingsOf(initStore).enabled
    ensures r.Some? ==> r.value == RouteOf(req)
  {
    if AgentSettingsOf(initStore).enabled then Some(RouteOf(req)) else None
  }

  /** An action is answered even when the request also carries the settings
      notification: the action tests come first. */
  lemma ActionBeatsNotification(req: Request)
    requires req.action in {"checkSelectedText", "convertToPrompt", "ping"}
    requires req.msgType == "SETTINGS_UPDATED"
    ensures RouteOf(req) != Reinit && RouteOf(req) != Ignore
  {
  }

  /** The message the settings page sends after a save re-initialises the agent
      of the active tab, when that agent is running. */
  lemma SaveReachesActiveAgent(form: Form, keyTest: FetchOutcome, initStore: Store)
    requires SaveSettings(form, keyTest, true).Saved?
    requires AgentSettingsOf(initStore).enabled
    ensures SaveSettings(form, keyTest, true).notified.Some?
    ensures Dispatch(initStore, Request("", SaveSettings(form, keyTest, true).notified.value, "")) == Some(Reinit)
  {
  }

  // ---------------------------------------------------------------------------
  // Selection

  /** `handleTextSelection`: the trimmed page selection when it is long enough,
      otherwise `""`. */
  function HandleTextSelection(page: string, minTextLength: int): (r: string)
    ensures r == "" || (r == Trim(page) && |r| >= minTextLength)
    ensures |Trim(page)| >= minTextLength ==> r == Trim(page)
    ensures |Trim(page)| < minTextLength ==> r == ""
  {
    var t := Trim(page);
    if |t| >= minTextLength then t else ""
  }

  /** Reading the selection again finds what the first reading kept. */
  lemma SelectionStable(page: string, minTextLength: int)
    ensures HandleTextSelection(HandleTextSelection(page, minTextLength), minTextLength)
      == HandleTextSelection(page, minTextLength)
  {
    TrimIdempotent(page);
  }

  /** The text an operation works on: the request's text when it carries one,
      otherwise the page selection. When that is empty the operation reads the
      selection a second time, which, the page being unchanged, yields the same. */
  function SelectionFor(req: Request, page: string, minTextLength: int): (r: string)
    ensures req.selectedText != "" ==> r == req.selectedText
    ensures req.selectedText == "" ==> r == HandleTextSelection(page, minTextLength)
  {
    var first := if req.selectedText != "" then req.selectedText else HandleTextSelection(page, minTextLength);
    if first == "" then HandleTextSelection(page, minTextLength) else first
  }

  /** Why an operation of the agent fails. Message texts are not modelled; each
      distinct message is a constructor. */
  datatype AgentError =
    | NoSelection(required: int)
    | TooShort(length: nat, required: int)
    | NoApiKey
    | InvalidKey
    | AuthFailed
    | RateLimited
    | ApiStatus(status: int)
    | NetworkFailure(message: string)
    | BodyNotJson
    | BrokenResult
    | BadAnswer(error: AnswerError)

  /** The minimum length for a conversion. */
  const PromptMinLength: int := 5

  /** The length guard in front of both operations: an empty text and a text
      shorter than `required` are refused with different messages. */
  function LengthGuard(text: string, required: int): (r: Option<AgentError>)
    ensures r.None? <==> text != "" && |text| >= required
    ensures text == "" ==> r == Some(NoSelection(required))
    ensures text != "" && |text| < required ==> r == Some(TooShort(|text|, required))
  {
    if text == "" then Some(NoSelection(required))
    else if |text| < required then Some(TooShort(|text|, required))
    else None
  }

  /** A conversion triggered without a text in the request re-reads the page with
      the text-check threshold: a selection long enough to convert but shorter than
      `minTextLength` is cleared and the conversion is refused. */
  lemma PageConversionUsesCheckThreshold(page: string, minTextLength: int)
    requires PromptMinLength <= |Trim(page)| < minTextLength
    ensures LengthGuard(SelectionFor(Request("convertToPrompt", "", ""), page, minTextLength), PromptMinLength)
      == Some(NoSelection(PromptMinLength))
  {
  }

  // ---------------------------------------------------------------------------
  // Page context

  datatype PageContext = Email | Chat | FormPage | DefaultContext

  /** `detectContext`: URL keywords first, then whether the page has a form. */
  function DetectContext(url: string, hasForm: bool): (r: PageContext)
    ensures r == Email <==> Contains(url, "mail") || Contains(url, "outlook") || Contains(url, "gmail")
    ensures r == Chat <==>
      !(Contains(url, "mail") || Contains(url, "outlook"))
      && (Contains(url, "teams") || Contains(url, "slack") || Contains(url, "discord") || Contains(url, "chat"))
    ensures r == FormPage <==>
      !(Contains(url, "mail") || Contains(url, "outlook") || Contains(url, "teams") || Contains(url, "slack")
        || Contains(url, "discord") || Contains(url, "chat"))
      && hasForm
  {
    GmailIsMail(url);
    if Contains(url, "mail") || Contains(url, "outlook") || Contains(url, "gmail") then Email
    else if Contains(url, "teams") || Contains(url, "slack") || Contains(url, "discord") || Contains(url, "chat") then Chat
    else if hasForm then FormPage
    else DefaultContext
  }

  /** The `gmail` keyword never decides anything: every URL that holds it also
      holds `mail`. */
  lemma GmailIsMail(url: string)
    ensures Contains(url, "gmail") ==> Contains(url, "mail")
  {
    if Contains(url, "gmail") {
      var i := IndexOf(url, "gmail", 0).value;
      assert url[i + 1..i + 5] == url[i..i + 5][1..] == "mail";
      assert OccursAt(url, "mail", i + 1);
    }
  }

  // ---------------------------------------------------------------------------
  // Calls to the capability

  /** `settings.apiKey` is truthy in the store read at call time. */
  predicate HasApiKey(store: Store) {
    "apiKey" in store && Truthy(store["apiKey"])
  }

  /** The statuses `callGeminiAPI` distinguishes. */
  function CheckStatusError(status: int): (r: AgentError)
    ensures status == 400 <==> r == InvalidKey
    ensures status == 429 <==> r == RateLimited
    ensures status != 400 && status != 429 <==> r == ApiStatus(status)
  {
    if status == 400 then InvalidKey
    else if status == 429 then RateLimited
    else ApiStatus(status)
  }

  /** The statuses `callGeminiForPrompt` distinguishes. */
  function PromptStatusError(status: int): (r: AgentError)
    ensures status == 403 <==> r == AuthFailed
    ensures status == 429 <==> r == RateLimited
    ensures status != 403 && status != 429 <==> r == ApiStatus(status)
  {
    if status == 403 then AuthFailed
    else if status == 429 then RateLimited
    else ApiStatus(status)
  }

  /** The two callers read a rejected key differently: a 400 is an invalid key for
      a check but a plain API error for a conversion, and a 403 the other way
      round. */
  lemma StatusMapsDisagree()
    ensures CheckStatusError(400) == InvalidKey && PromptStatusError(400) == ApiStatus(400)
    ensures CheckStatusError(403) == ApiStatus(403) && PromptStatusError(403) == AuthFailed
  {
  }

  /** `callGeminiAPI`: the key must be set, the request must be answered with a
      2xx status and a JSON body; the body is then parsed, which never fails. */
  function CallCheck(store: Store, fetch: FetchOutcome, selectedText: string, parse: string -> Option<CheckResult>)
    : (r: Result<CheckResult, AgentError>)
    ensures !HasApiKey(store) ==> r == Failure(NoApiKey)
    ensures r.Success? <==> HasApiKey(store) && fetch.Answered? && IsOk(fetch.status) && fetch.body.Some?
    ensures r.Success? ==> r.value == ParseCheckResponse(fetch.body.value, selectedText, parse)
    ensures HasApiKey(store) && fetch.Answered? && !IsOk(fetch.status) ==>
      r == Failure(CheckStatusError(fetch.status))
    ensures HasApiKey(store) && fetch.Unreachable? ==> r == Failure(NetworkFailure(fetch.message))
    ensures HasApiKey(store) && fetch.Answered? && IsOk(fetch.status) && fetch.body.None? ==> r == Failure(BodyNotJson)
  {
    if !HasApiKey(store) then Failure(NoApiKey)
    else match fetch
      case Unreachable(m) => Failure(NetworkFailure(m))
      case Answered(status, body) =>
        if !IsOk(status) then Failure(CheckStatusError(status))
        else match body
          case None => Failure(BodyNotJson)
          case Some(data) => Success(ParseCheckResponse(data, selectedText, parse))
  }

  /** `callGeminiForPrompt`: like the text-check call, with its own status mapping, and
      a parser that can throw. */
  function CallPrompt(store: Store, fetch: FetchOutcome, selectedText: string, s: AgentSettings)
    : (r: Result<PromptResult, AgentError>)
    ensures !HasApiKey(store) ==> r == Failure(NoApiKey)
    ensures r.Success? <==>
      && HasApiKey(store) && fetch.Answered? && IsOk(fetch.status) && fetch.body.Some?
      && ParsePromptResponse(fetch.body.value, selectedText, s.promptStyle, s.learningEnabled).Success?
    ensures r.Success? ==>
      ParsePromptResponse(fetch.body.value, selectedText, s.promptStyle, s.learningEnabled) == Success(r.value)
    ensures HasApiKey(store) && fetch.Answered? && !IsOk(fetch.status) ==>
      r == Failure(PromptStatusError(fetch.status))
    ensures HasApiKey(store) && fetch.Unreachable? ==> r == Failure(NetworkFailure(fetch.message))
    ensures HasApiKey(store) && fetch.Answered? && IsOk(fetch.status) && fetch.body.None? ==> r == Failure(BodyNotJson)
    ensures HasApiKey(store) && fetch.Answered? && IsOk(fetch.status) && fetch.body.Some?
            && ParsePromptResponse(fetch.body.value, selectedText, s.promptStyle, s.learningEnabled).Failure? ==>
      r == Failure(BadAnswer(ParsePromptResponse(fetch.body.value, selectedText, s.promptStyle, s.learningEnabled).error))
  {
    if !HasApiKey(store) then Failure(NoApiKey)
    else match fetch
      case Unreachable(m) => Failure(NetworkFailure(m))
      case Answered(status, body) =>
        if !IsOk(status) then Failure(PromptStatusError(status))
        else match body
          case None => Failure(BodyNotJson)
          case Some(data) =>
            match ParsePromptResponse(data, selectedText, s.promptStyle, s.learningEnabled)
            case Failure(e) => Failure(BadAnswer(e))
            case Success(res) => Success(res)
  }

  // ---------------------------------------------------------------------------
  // Statistics message

  /** The message `updateStats` sends: always of kind `check_completed`, with the
      issue count when the result says it has issues. A result that claims issues
      but carries no list throws before anything is sent. */
  function StatsMessage(hasIssues: bool, issues: Option<seq<Issue>>): (r: Option<StatsEvent>)
    ensures r.Some? ==> r.value.kind == "check_completed" && Counted(r.value)
    ensures r.None? <==> hasIssues && issues.None?
    ensures r.Some? ==> r.value.issuesFound == if hasIssues then |issues.value| else 0
  {
    if !hasIssues then Some(StatsEvent("check_completed", 0))
    else match issues
      case None => None
      case Some(list) => Some(StatsEvent("check_completed", |list|))
  }

  // ---------------------------------------------------------------------------
  // The two operations

  /** The reply the listener sends back, if any, and the statistics message the
      operation sent on the way. */
  datatype Reply =
    | Checked(check: CheckResult)
    | Converted(conversion: PromptResult)
    | Failed(error: AgentError)
    | Ready

  datatype Outcome = Outcome(reply: Option<Reply>, stats: Option<StatsEvent>)

  /** `checkSelectedText` behind the listener. `s` holds the settings read at
      start-up, `store` the storage at the time of the call. A result that claims
      issues without a list fails in the display step, after the statistics
      update has already failed silently. */
  function CheckSelected(s: AgentSettings, store: Store, req: Request, page: string,
                         fetch: FetchOutcome, parse: string -> Option<CheckResult>): (r: Outcome)
    ensures r.reply.Some?
    ensures r.stats.Some? <==> r.reply.value.Checked?
    ensures r.reply.value.Checked? ==>
      var text := SelectionFor(req, page, s.minTextLength);
      && text != "" && |text| >= s.minTextLength
      && CallCheck(store, fetch, text, parse) == Success(r.reply.value.check)
      && r.stats == StatsMessage(r.reply.value.check.hasIssues, r.reply.value.check.issues)
    ensures LengthGuard(SelectionFor(req, page, s.minTextLength), s.minTextLength).Some? ==>
      r == Outcome(Some(Failed(LengthGuard(SelectionFor(req, page, s.minTextLength), s.minTextLength).value)), None)
    ensures var text := SelectionFor(req, page, s.minTextLength);
      var call := CallCheck(store, fetch, text, parse);
      r.reply.value.Checked? <==>
        (LengthGuard(text, s.minTextLength).None? && call.Success?
         && StatsMessage(call.value.hasIssues, call.value.issues).Some?)
    ensures var text := SelectionFor(req, page, s.minTextLength);
      var call := CallCheck(store, fetch, text, parse);
      LengthGuard(text, s.minTextLength).None? && call.Failure? ==> r == Outcome(Some(Failed(call.error)), None)
    ensures var text := SelectionFor(req, page, s.minTextLength);
      var call := CallCheck(store, fetch, text, parse);
      (LengthGuard(text, s.minTextLength).None? && call.Success?
       && StatsMessage(call.value.hasIssues, call.value.issues).None?) ==>
        r == Outcome(Some(Failed(BrokenResult)), None)
  {
    var text := SelectionFor(req, page, s.minTextLength);
    match LengthGuard(text, s.minTextLength)
    case Some(e) => Outcome(Some(Failed(e)), None)
    case None =>
      match CallCheck(store, fetch, text, parse)
      case Failure(e) => Outcome(Some(Failed(e)), None)
      case Success(res) =>
        match StatsMessage(res.hasIssues, res.issues)
        case None => Outcome(Some(Failed(BrokenResult)), None)
        case Some(m) => Outcome(Some(Checked(res)), Some(m))
  }

  /** `convertToMidjourneyPrompt` behind the listener. The statistics message it
      sends is built from a record without `hasIssues`, so it reports a completed
      check with no issues. */
  function ConvertSelected(s: AgentSettings, store: Store, req: Request, page: string, fetch: FetchOutcome)
    : (r: Outcome)
    ensures r.reply.Some?
    ensures r.stats.Some? <==> r.reply.value.Converted?
    ensures r.stats.Some? ==> r.stats.value == StatsEvent("check_completed", 0)
    ensures r.reply.value.Converted? ==>
      var text := SelectionFor(req, page, s.minTextLength);
      && text != "" && |text| >= PromptMinLength
      && CallPrompt(store, fetch, text, s) == Success(r.reply.value.conversion)
    ensures LengthGuard(SelectionFor(req, page, s.minTextLength), PromptMinLength).Some? ==>
      r == Outcome(Some(Failed(LengthGuard(SelectionFor(req, page, s.minTextLength), PromptMinLength).value)), None)
    ensures var text := SelectionFor(req, page, s.minTextLength);
      r.reply.value.Converted? <==> LengthGuard(text, PromptMinLength).None? && CallPrompt(store, fetch, text, s).Success?
    ensures var text := SelectionFor(req, page, s.minTextLength);
      var call := CallPrompt(store, fetch, text, s);
      LengthGuard(text, PromptMinLength).None? && call.Failure? ==> r == Outcome(Some(Failed(call.error)), None)
  {
    var text := SelectionFor(req, page, s.minTextLength);
    match LengthGuard(text, PromptMinLength)
    case Some(e) => Outcome(Some(Failed(e)), None)
    case None =>
      match CallPrompt(store, fetch, text, s)
      case Failure(e) => Outcome(Some(Failed(e)), None)
      case Success(res) => Outcome(Some(Converted(res)), StatsMessage(false, None))
  }

  /** The agent's listener as a whole. `initStore` is the storage the agent was
      initialised from. A settings notification produces no reply; the agent then
      re-reads its settings. */
  function Handle(initStore: Store, store: Store, req: Request, page: string,
                  fetch: FetchOutcome, parse: string -> Option<CheckResult>): (r: Outcome)
    ensures !AgentSettingsOf(initStore).enabled ==> r == Outcome(None, None)
    ensures Dispatch(initStore, req) == Some(Ping) ==> r == Outcome(Some(Ready), None)
    ensures Dispatch(initStore, req) in {Some(Reinit), Some(Ignore)} ==> r == Outcome(None, None)
    ensures Dispatch(initStore, req) in {Some(CheckText), Some(ConvertText)} ==> r.reply.Some? && r.reply.value != Ready
  {
    var s := AgentSettingsOf(initStore);
    match Dispatch(initStore, req)
    case None => Outcome(None, None)
    case Some(CheckText) => CheckSelected(s, store, req, page, fetch, parse)
    case Some(ConvertText) => ConvertSelected(s, store, req, page, fetch)
    case Some(Ping) => Outcome(Some(Ready), None)
    case Some(Reinit) => Outcome(None, None)
    case Some(Ignore) => Outcome(None, None)
  }

  /** A successful check feeds the background's counters: once recorded, the
      total rises by one and the issue total by the number of issues listed. */
  lemma CheckFeedsCounters(s: AgentSettings, store: Store, req: Request, page: string,
                           fetch: FetchOutcome, parse: string -> Option<CheckResult>,
                           stats: Store, today: string)
    requires CheckSelected(s, store, req, page, fetch, parse).reply.value.Checked?
    ensures var o := CheckSelected(s, store, req, page, fetch, parse);
      var res := o.reply.value.check;
      var c := UpdateStats(stats, today, o.stats.value);
      && c.totalChecks == CounterOr0(stats, "totalChecks") + 1
      && c.totalIssues == CounterOr0(stats, "totalIssues") + (if res.hasIssues then |res.issues.value| else 0)
  {
  }

  /** A successful conversion counts as one operation and adds no issues. */
  lemma ConversionCountsWithoutIssues(s: AgentSettings, store: Store, req: Request, page: string,
                                      fetch: FetchOutcome, stats: Store, today: string)
    requires ConvertSelected(s, store, req, page, fetch).reply.value.Converted?
    ensures var c := UpdateStats(stats, today, ConvertSelected(s, store, req, page, fetch).stats.value);
      && c.totalChecks == CounterOr0(stats, "totalChecks") + 1
      && c.totalIssues == CounterOr0(stats, "totalIssues")
  {
  }
  /** A long enough selection that gets a well-formed answer is checked, and the
      check is reported with the number of issues the answer lists. */
  lemma GoodAnswerIsChecked(s: AgentSettings, store: Store, req: Request, page: string,
                            fetch: FetchOutcome, parse: string -> Option<CheckResult>)
    requires HasApiKey(store) && fetch.Answered? && IsOk(fetch.status) && fetch.body.Some?
    requires var text := SelectionFor(req, page, s.minTextLength);
      text != "" && |text| >= s.minTextLength
    requires var res := ParseCheckResponse(fetch.body.value, SelectionFor(req, page, s.minTextLength), parse);
      res.hasIssues ==> res.issues.Some?
    ensures var o := CheckSelected(s, store, req, page, fetch, parse);
      var res := ParseCheckResponse(fetch.body.value, SelectionFor(req, page, s.minTextLength), parse);
      && o.reply == Some(Checked(res))
      && o.stats == Some(StatsEvent("check_completed", if res.hasIssues then |res.issues.value| else 0))
  {
  }

  /** A selection of at least five characters whose answer holds the sections is
      converted, and counted as a check with no issues. */
  lemma GoodAnswerIsConverted(s: AgentSettings, store: Store, req: Request, page: string,
                              fetch: FetchOutcome, v: PromptResult)
    requires HasApiKey(store) && fetch.Answered? && IsOk(fetch.status) && fetch.body.Some?
    requires var text := SelectionFor(req, page, s.minTextLength);
      && text != "" && |text| >= PromptMinLength
      && ParsePromptResponse(fetch.body.value, text, s.promptStyle, s.learningEnabled) == Success(v)
    ensures var o := ConvertSelected(s, store, req, page, fetch);
      o.reply == Some(Converted(v)) && o.stats == Some(StatsEvent("check_completed", 0))
  {
  }

}
