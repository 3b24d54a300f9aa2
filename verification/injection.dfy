/** `ensureContentScriptInjected`: the background makes sure a page agent answers
    in the tab before it sends the agent a request. The tab's URL is checked
    first; then the background waits for the page to load, pings the agent, and
    installs it when the ping fails.

    Every host call is an input (`Host`): whether the window is a popup, what each
    100 ms poll of the tab's loading status returned, whether each ping was
    answered, and the error each install threw, if any. The result is the trace of
    host calls made, and the message of the error thrown, classified as the
    function's own `catch` does. */
module Injection {
  import opened Wrappers
  import opened JsText

  /** URL prefixes of pages an extension cannot script. */
  const RestrictedPrefixes: seq<string> :=
    ["chrome://", "chrome-extension://", "moz-extension://", "about:", "file://", "edge://", "opera://"]

  /** The error the URL guard throws. */
  const RestrictedMessage: string := "このページでは利用できません"

  /** The tab has no URL, or one a content script cannot run on. */
  predicate Restricted(url: string) {
    url == "" || exists i | 0 <= i < |RestrictedPrefixes| :: StartsWith(url, RestrictedPrefixes[i])
  }

  /** What one `chrome.tabs.get` during the load wait returned: still loading,
      complete, or an error (the tab was closed). */
  datatype TabPoll = Loading | Complete | Gone

  const PollInterval: nat := 100

  /** The load wait gives up after 10 s in a popup window and 5 s elsewhere. */
  function LoadTimeout(isPopup: bool): nat {
    if isPopup then 10000 else 5000
  }

  /** The result of poll `k`; polls past the end of the input are still loading. */
  function PollAt(polls: seq<TabPoll>, k: nat): TabPoll {
    if k < |polls| then polls[k] else Loading
  }

  /** The time, in ms from the start of the wait, at which the wait resolves when
      poll `k` is the next one: at the first poll that does not find the page
      loading, or at the timeout, whichever comes first. */
  function LoadWaitFrom(polls: seq<TabPoll>, k: nat, timeout: nat): (ms: nat)
    ensures ms <= timeout
    ensures ms == timeout || (ms == (ms / PollInterval) * PollInterval && ms / PollInterval >= k + 1
                              && PollAt(polls, ms / PollInterval - 1) != Loading)
    ensures forall j | k <= j && (j + 1) * PollInterval < ms :: PollAt(polls, j) == Loading
    decreases timeout - k * PollInterval
  {
    var tick := (k + 1) * PollInterval;
    if tick >= timeout then timeout
    else if PollAt(polls, k) != Loading then tick
    else LoadWaitFrom(polls, k + 1, timeout)
  }

  /** When the load wait of a tab resolves. */
  function LoadWait(polls: seq<TabPoll>, timeout: nat): (ms: nat)
    ensures ms <= timeout
    ensures (exists j | 0 <= j && (j + 1) * PollInterval < timeout :: PollAt(polls, j) != Loading) ==> ms < timeout
  {
    LoadWaitFrom(polls, 0, timeout)
  }

  /** The load wait as the interval loop runs it: poll every 100 ms until a poll
      finds the page loaded or gone, or the timeout fires. It always resolves. */
  method WaitForLoad(polls: seq<TabPoll>, timeout: nat) returns (elapsed: nat)
    ensures elapsed == LoadWait(polls, timeout)
  {
    var k: nat := 0;
    while (k + 1) * PollInterval < timeout && PollAt(polls, k) == Loading
      invariant LoadWaitFrom(polls, k, timeout) == LoadWait(polls, timeout)
      decreases timeout - k * PollInterval
    {
      k := k + 1;
    }
    elapsed := if (k + 1) * PollInterval >= timeout then timeout else (k + 1) * PollInterval;
  }

  /** The host calls the function makes, in order. */
  datatype Step = AwaitLoad(ms: nat) | Pause(ms: nat) | Ping | InstallScript | InstallCss

  /** What the host does when asked. */
  datatype Host = Host(
    isPopup: bool,
    loaded: bool,
    polls: seq<TabPoll>,
    firstPing: bool,
    scriptError: Option<string>,
    cssError: Option<string>,
    verifyPing: bool,
    retryError: Option<string>)

  /** The calls made, and the error thrown inside the function's `try`, if any. */
  datatype Attempt = Attempt(steps: seq<Step>, thrown: Option<string>)

  /** The wait for the page to finish loading, then the first ping. */
  function Probe(h: Host): (r: seq<Step>)
    ensures |r| >= 1 && r[|r| - 1] == Ping
    ensures r[0] == Ping <==> h.loaded
    ensures multiset(r)[InstallScript] == 0 && multiset(r)[InstallCss] == 0
  {
    (if h.loaded then [] else [AwaitLoad(LoadWait(h.polls, LoadTimeout(h.isPopup)))]) + [Ping]
  }

  /** What follows an unanswered first ping: install the agent and its style
      sheet, then ping again. A failed verification ping is only logged; a popup
      window then gets a second script install, whose failure is swallowed too. */
  function Install(h: Host): (r: Attempt)
    ensures r.thrown.Some? ==> r.thrown == h.scriptError || r.thrown == h.cssError
    ensures h.scriptError.None? && h.cssError.None? ==>
      && r.thrown.None?
      && multiset(r.steps)[InstallScript] == (if h.isPopup && !h.verifyPing then 2 else 1)
      && multiset(r.steps)[InstallCss] == 1
  {
    var script := (if h.isPopup then [Pause(500)] else []) + [InstallScript];
    if h.scriptError.Some? then Attempt(script, h.scriptError)
    else
      var css := script + [InstallCss];
      if h.cssError.Some? then Attempt(css, h.cssError)
      else
        var verify := css + [Pause(if h.isPopup then 800 else 300), Ping];
        if h.verifyPing || !h.isPopup then Attempt(verify, None)
        else Attempt(verify + [Pause(500), InstallScript] + (if h.retryError.None? then [Ping] else []), None)
  }

  /** The body of the function's `try`: the URL guard, the probe, and the install
      when the probe went unanswered. */
  function Plan(url: string, h: Host): (r: Attempt)
    ensures Restricted(url) <==> r.steps == []
    ensures Restricted(url) ==> r.thrown == Some(RestrictedMessage)
    ensures !Restricted(url) && r.thrown.Some? ==> r.thrown == h.scriptError || r.thrown == h.cssError
    ensures !Restricted(url) && h.firstPing ==>
      r.thrown.None? && multiset(r.steps)[InstallScript] == 0 && multiset(r.steps)[InstallCss] == 0
    ensures !Restricted(url) && !h.firstPing && h.scriptError.None? && h.cssError.None? ==>
      && r.thrown.None?
      && multiset(r.steps)[InstallScript] == (if h.isPopup && !h.verifyPing then 2 else 1)
      && multiset(r.steps)[InstallCss] == 1
    ensures !Restricted(url) ==> (r.steps[0] == Ping <==> h.loaded)
  {
    if Restricted(url) then Attempt([], Some(RestrictedMessage))
    else if h.firstPing then Attempt(Probe(h), None)
    else
      var rest := Install(h);
      assert multiset(Probe(h) + rest.steps) == multiset(Probe(h)) + multiset(rest.steps);
      Attempt(Probe(h) + rest.steps, rest.thrown)
  }

  const SpecialPageMessage: string := "Chromeの特殊ページでは利用できません。通常のWebページでお試しください。"
  const TabClosedMessage: string := "タブが閉じられました"
  const UnavailablePrefix: string := "このページではご利用いただけません: "

  /** The function's `catch`: a thrown message is replaced by one of three fixed
      texts by substring, or else prefixed with a generic sentence. */
  function InnerClassify(raw: string): (m: string)
    ensures Contains(raw, "Cannot access a chrome") || Contains(raw, "Cannot access contents of") ==>
      m == SpecialPageMessage
    ensures !Contains(raw, "Cannot access a chrome") && !Contains(raw, "Cannot access contents of")
            && Contains(raw, RestrictedMessage) ==>
      m == RestrictedMessage
    ensures !Contains(raw, "Cannot access a chrome") && !Contains(raw, "Cannot access contents of")
            && !Contains(raw, RestrictedMessage) && Contains(raw, "The tab was closed") ==>
      m == TabClosedMessage
    ensures m == UnavailablePrefix + raw <==>
      !(Contains(raw, "Cannot access a chrome") || Contains(raw, "Cannot access contents of")
        || Contains(raw, RestrictedMessage) || Contains(raw, "The tab was closed"))
  {
    if Contains(raw, "Cannot access a chrome") || Contains(raw, "Cannot access contents of") then SpecialPageMessage
    else if Contains(raw, RestrictedMessage) then RestrictedMessage
    else if Contains(raw, "The tab was closed") then TabClosedMessage
    else UnavailablePrefix + raw
  }

  /** `ensureContentScriptInjected` as a whole: the calls made, or the classified
      error it rejects with. */
  function EnsureInjected(url: string, h: Host): (r: Result<seq<Step>, string>)
    ensures r.Success? <==> Plan(url, h).thrown.None?
    ensures r.Success? ==> r.value == Plan(url, h).steps
    ensures r.Failure? ==> r.error == InnerClassify(Plan(url, h).thrown.value)
  {
    var a := Plan(url, h);
    match a.thrown
    case None => Success(a.steps)
    case Some(m) => Failure(InnerClassify(m))
  }

  /** A restricted tab is refused with the guard's own message, before any wait,
      ping or install. */
  lemma RestrictedTabRefused(url: string, h: Host)
    requires Restricted(url)
    ensures EnsureInjected(url, h) == Failure(RestrictedMessage)
  {
    assert !Contains(RestrictedMessage, "Cannot access a chrome") by {
      MissingCharExcludes(RestrictedMessage, "Cannot access a chrome", 'C');
    }
    assert !Contains(RestrictedMessage, "Cannot access contents of") by {
      MissingCharExcludes(RestrictedMessage, "Cannot access contents of", 'C');
    }
    assert Contains(RestrictedMessage, RestrictedMessage) by {
      assert OccursAt(RestrictedMessage, RestrictedMessage, 0);
    }
  }

  /** Every page URL of the web passes the guard. */
  lemma WebPagesAllowed(url: string)
    requires StartsWith(url, "http://") || StartsWith(url, "https://")
    ensures !Restricted(url)
  {
    forall i | 0 <= i < |RestrictedPrefixes| ensures !StartsWith(url, RestrictedPrefixes[i]) {
      var p := RestrictedPrefixes[i];
      if StartsWith(url, "http://") {
        assert url[0] == 'h';
      } else {
        assert url[0..8] == "https://";
        assert url[0] == 'h';
      }
      assert p[0] != 'h';
      MismatchRefutes(url, p, 0, 0);
    }
  }
}
