/** The background's event handlers that tie the pieces together: a click on the
    context-menu entry, a runtime message from a page agent, and a change of the
    synchronised storage. Host calls are inputs: the injection host, and what
    happened to the message sent to the tab. */
module Background {
  import opened Wrappers
  import opened JsText
  import opened Storage
  import opened Counters
  import opened Injection
  import Settings
  import Agent
  import Gemini
  import Extraction
  import Menu

  // ---------------------------------------------------------------------------
  // Context-menu click

  /** `handleContextMenuClick`'s notifications: the two selection errors, titled
      '選択エラー', and every other failure, titled 'エラー'. */
  datatype Notice =
    | SelectMore(required: nat)
    | SelectionTooShort(length: nat, required: nat)
    | ErrorNotice(message: string)

  /** What became of the message sent to the tab's agent: `sendMessage` threw,
      resolved without a response, or resolved with `{success, error}`. */
  datatype Delivery = SendFailed(message: string) | NoAnswer | Answered(success: bool, error: Option<string>)

  /** The calls made to the injection host, the request sent to the agent, and
      the notification shown. */
  datatype Click = Click(steps: seq<Step>, sent: Option<Agent.Request>, notice: Option<Notice>)

  const GenericFailure: string := "処理に失敗しました。"
  const NoResponseFailure: string := "処理に失敗しました"

  const NoConnectionFailure: string := "このページではご利用いただけません。通常のWebページで再試行してください。"
  const ReloadFailure: string := "拡張機能を再読み込みしてください。"
  const NotEditableFailure: string := "このページは編集できません。"

  /** The click handler's `catch`: a thrown message is replaced by one of four
      fixed texts by substring, matched in this order, or else by a generic one. */
  function OuterClassify(raw: string): (m: string)
    ensures m == GenericFailure <==>
      !(Contains(raw, "Could not establish connection") || Contains(raw, "Extension context invalidated")
        || Contains(raw, "Cannot access a chrome") || Contains(raw, "Tabs cannot be edited"))
    ensures Contains(raw, "Could not establish connection") ==> m == NoConnectionFailure
    ensures !Contains(raw, "Could not establish connection") && Contains(raw, "Extension context invalidated") ==>
      m == ReloadFailure
    ensures !Contains(raw, "Could not establish connection") && !Contains(raw, "Extension context invalidated")
            && Contains(raw, "Cannot access a chrome") ==>
      m == SpecialPageMessage
    ensures !Contains(raw, "Could not establish connection") && !Contains(raw, "Extension context invalidated")
            && !Contains(raw, "Cannot access a chrome") && Contains(raw, "Tabs cannot be edited") ==>
      m == NotEditableFailure
  {
    if Contains(raw, "Could not establish connection") then NoConnectionFailure
    else if Contains(raw, "Extension context invalidated") then ReloadFailure
    else if Contains(raw, "Cannot access a chrome") then SpecialPageMessage
    else if Contains(raw, "Tabs cannot be edited") then NotEditableFailure
    else GenericFailure
  }

  /** The shortest selection each entry accepts. */
  function ClickMinLength(menuItemId: string): nat {
    if menuItemId == "midjourneyPrompt" then 5 else 10
  }

  /** The action the request carries for each entry. */
  function ClickAction(menuItemId: string): string {
    if menuItemId == "aiTextChecker" then "checkSelectedText" else "convertToPrompt"
  }

  /** The selection passes the click guard: present, non-empty, and long enough
      once trimmed. */
  predicate SelectionAccepted(selection: Option<string>, min: nat) {
    selection.Some? && selection.value != "" && |Trim(selection.value)| >= min
  }

  /** `handleContextMenuClick`. `keepInjectionMessage` chooses how an injection
      failure is reported: false is the code as written, which passes the
      already-classified message through the click's own classifier; true shows
      that message. */
  function ClickWith(menuItemId: string, selection: Option<string>, url: string, h: Host,
                     delivery: Delivery, keepInjectionMessage: bool): (r: Click)
    ensures menuItemId !in {"aiTextChecker", "midjourneyPrompt"} ==> r == Click([], None, None)
    ensures menuItemId in {"aiTextChecker", "midjourneyPrompt"} && !SelectionAccepted(selection, ClickMinLength(menuItemId)) ==>
      && r.steps == [] && r.sent.None?
      && r.notice == Some(if selection.None? || selection.value == "" then SelectMore(ClickMinLength(menuItemId))
                          else SelectionTooShort(|Trim(selection.value)|, ClickMinLength(menuItemId)))
    ensures r.sent.Some? ==>
      && menuItemId in {"aiTextChecker", "midjourneyPrompt"}
      && SelectionAccepted(selection, ClickMinLength(menuItemId))
      && EnsureInjected(url, h) == Success(r.steps)
      && r.sent.value == Agent.Request(ClickAction(menuItemId), "", Trim(selection.value))
    ensures menuItemId in {"aiTextChecker", "midjourneyPrompt"} && SelectionAccepted(selection, ClickMinLength(menuItemId)) ==>
      r.steps == Plan(url, h).steps && (r.sent.Some? <==> EnsureInjected(url, h).Success?)
    ensures menuItemId in {"aiTextChecker", "midjourneyPrompt"} && SelectionAccepted(selection, ClickMinLength(menuItemId))
            && EnsureInjected(url, h).Failure? ==>
      r.notice == Some(ErrorNotice(if keepInjectionMessage then EnsureInjected(url, h).error
                                   else OuterClassify(EnsureInjected(url, h).error)))
    ensures r.notice.None? <==>
      menuItemId !in {"aiTextChecker", "midjourneyPrompt"} || (r.sent.Some? && delivery.Answered? && delivery.success)
  {
    if menuItemId != "aiTextChecker" && menuItemId != "midjourneyPrompt" then Click([], None, None)
    else
      var min := ClickMinLength(menuItemId);
      if selection.None? || selection.value == "" then Click([], None, Some(SelectMore(min)))
      else if |Trim(selection.value)| < min then Click([], None, Some(SelectionTooShort(|Trim(selection.value)|, min)))
      else
        match EnsureInjected(url, h)
        case Failure(m) =>
          Click(Plan(url, h).steps, None, Some(ErrorNotice(if keepInjectionMessage then m else OuterClassify(m))))
        case Success(steps) =>
          var req := Agent.Request(ClickAction(menuItemId), "", Trim(selection.value));
          match delivery
          case SendFailed(m) => Click(steps, Some(req), Some(ErrorNotice(OuterClassify(m))))
          case NoAnswer => Click(steps, Some(req), Some(ErrorNotice(NoResponseFailure)))
          case Answered(ok, err) =>
            if ok then Click(steps, Some(req), None)
            else Click(steps, Some(req), Some(ErrorNotice(if err.Some? && err.value != "" then err.value else NoResponseFailure)))
  }

  /** The click handler as written. */
  function HandleClickAsWritten(menuItemId: string, selection: Option<string>, url: string, h: Host,
                                delivery: Delivery): (r: Click)
    ensures r.steps == HandleClick(menuItemId, selection, url, h, delivery).steps
    ensures r.sent == HandleClick(menuItemId, selection, url, h, delivery).sent
    ensures EnsureInjected(url, h).Failure? && r.notice.Some? && r.notice.value.ErrorNotice? ==>
      r.notice.value.message == OuterClassify(EnsureInjected(url, h).error)
  {
    ClickWith(menuItemId, selection, url, h, delivery, false)
  }

  /** The click handler with injection failures reported in the injection's own
      words. */
  function HandleClick(menuItemId: string, selection: Option<string>, url: string, h: Host,
                       delivery: Delivery): (r: Click)
    ensures EnsureInjected(url, h).Failure? && r.notice.Some? && r.notice.value.ErrorNotice? ==>
      r.notice.value.message == EnsureInjected(url, h).error
  {
    ClickWith(menuItemId, selection, url, h, delivery, true)
  }

  /** The entries are only shown on web pages, so the URL a click brings always
      passes the injection's guard. */
  lemma ClickedPagesPassGuard(url: string)
    requires Menu.ShownOn(Menu.DocumentPatterns, url)
    ensures !Restricted(url)
  {
    Menu.WebPatternsAdmit(url);
    WebPagesAllowed(url);
  }

  /** An error thrown while the agent is installed, when the tab has been closed
      in the meantime. */
  const ClosedTabError: string := "The tab was closed."

  /** A web page closed while the agent is being installed, as written: the
      injection turns the error into its tab-closed text, and the click's own
      classifier, knowing none of the injection's texts, replaces that with the
      generic failure. */
  lemma ClosedTabMessageLost(menuItemId: string, selection: Option<string>, url: string, h: Host,
                             delivery: Delivery)
    requires menuItemId in {"aiTextChecker", "midjourneyPrompt"}
    requires SelectionAccepted(selection, ClickMinLength(menuItemId))
    requires Menu.ShownOn(Menu.DocumentPatterns, url)
    requires !h.firstPing && h.scriptError == Some(ClosedTabError)
    ensures HandleClickAsWritten(menuItemId, selection, url, h, delivery).notice == Some(ErrorNotice(GenericFailure))
    ensures HandleClick(menuItemId, selection, url, h, delivery).notice == Some(ErrorNotice(TabClosedMessage))
  {
    ClickedPagesPassGuard(url);
    ClosedTabRefused(url, h);
    TabClosedMessageLost();
  }

  /** The injection reports the closed tab in its own words. */
  lemma ClosedTabRefused(url: string, h: Host)
    requires !Restricted(url)
    requires !h.firstPing && h.scriptError == Some(ClosedTabError)
    ensures EnsureInjected(url, h) == Failure(TabClosedMessage)
  {
    assert Install(h).thrown == Some(ClosedTabError);
    ClosedTabClassified(ClosedTabError);
  }

  /** The injection's `catch` recognises an error that starts with the
      closed-tab marker and holds neither the `C` of its first two markers nor the
      first letter of the guard's message. */
  lemma ClosedTabClassified(raw: string)
    requires StartsWith(raw, "The tab was closed")
    requires 'C' !in raw && RestrictedMessage[0] !in raw
    ensures InnerClassify(raw) == TabClosedMessage
  {
    MissingCharExcludes(raw, "Cannot access a chrome", 'C');
    MissingCharExcludes(raw, "Cannot access contents of", 'C');
    MissingCharExcludes(raw, RestrictedMessage, RestrictedMessage[0]);
  }



  /** A message holding none of the letters n, E, T and l passes the click's
      classifier as the generic failure. */
  lemma UnknownToOuter(m: string)
    requires 'n' !in m && 'E' !in m && 'T' !in m && 'l' !in m
    ensures OuterClassify(m) == GenericFailure
  {
    MissingCharExcludes(m, "Could not establish connection", 'l');
    MissingCharExcludes(m, "Extension context invalidated", 'E');
    MissingCharExcludes(m, "Cannot access a chrome", 'n');
    MissingCharExcludes(m, "Tabs cannot be edited", 'T');
  }

  /** The guard's message for a restricted tab does not survive the click's
      classifier. */
  lemma RestrictedMessageLost()
    ensures OuterClassify(RestrictedMessage) == GenericFailure
  {
    UnknownToOuter(RestrictedMessage);
  }

  /** Nor does the message for a tab closed during the injection. */
  lemma TabClosedMessageLost()
    ensures OuterClassify(TabClosedMessage) == GenericFailure
  {
    UnknownToOuter(TabClosedMessage);
  }

  /** The request a click sends is the one the agent acts on: an enabled agent
      routes it to the entry's operation, takes its text as the selection, and
      its length guard lets it through. */
  lemma ClickReachesAgent(menuItemId: string, selection: Option<string>, url: string, h: Host,
                          delivery: Delivery, initStore: Store, page: string)
    requires HandleClick(menuItemId, selection, url, h, delivery).sent.Some?
    requires Settings.AgentSettingsOf(initStore).enabled
    ensures var req := HandleClick(menuItemId, selection, url, h, delivery).sent.value;
      var s := Settings.AgentSettingsOf(initStore);
      && Agent.Dispatch(initStore, req) == Some(if menuItemId == "aiTextChecker" then Agent.CheckText else Agent.ConvertText)
      && Agent.SelectionFor(req, page, s.minTextLength) == req.selectedText
      && (menuItemId == "midjourneyPrompt" ==> Agent.LengthGuard(req.selectedText, Agent.PromptMinLength).None?)
  {
    var req := HandleClick(menuItemId, selection, url, h, delivery).sent.value;
    assert req.selectedText != "";
  }

  // ---------------------------------------------------------------------------
  // Runtime messages

  /** A runtime message: its `type`, and for `UPDATE_STATS` its `data`, absent
      when the message has none. */
  datatype Message = Message(msgType: string, data: Option<StatsEvent>)

  /** `sendResponse`'s argument. */
  datatype Response = Done | SettingsData(settings: Store) | Refused(error: string)

  /** The engine's message for reading `type` of an absent `data`. */
  const MissingDataError: string := "Cannot read properties of undefined (reading 'type')"

  /** The settings record `GET_SETTINGS` answers with: the stored settings keys. */
  function SettingsSnapshot(store: Store): (r: Store)
    ensures r.Keys == store.Keys * Settings.SettingsKeys
    ensures forall k | k in r :: r[k] == store[k]
  {
    map k | k in store.Keys * Settings.SettingsKeys :: store[k]
  }

  /** `UPDATE_STATS` writes the four counter fields and nothing else. */
  lemma RecordTouchesOnlyCounters(store: Store, today: string, e: StatsEvent)
    ensures Record(store, today, e).Keys == store.Keys + CounterKeys
    ensures forall k | k in store && k !in CounterKeys :: Record(store, today, e)[k] == store[k]
  {
    assert CountersPatch(UpdateStats(store, today, e)).Keys == CounterKeys;
  }

  /** `handleMessage` on day `today`: the new store and the response. */
  function HandleMessage(store: Store, today: string, msg: Message): (r: (Store, Response))
    ensures r.1 == Done <==> msg.msgType == "UPDATE_STATS" && msg.data.Some?
    ensures r.1 == Done ==> r.0 == Record(store, today, msg.data.value)
    ensures r.1 != Done ==> r.0 == store
    ensures r.1.SettingsData? <==> msg.msgType == "GET_SETTINGS"
    ensures r.1.SettingsData? ==> r.1.settings == SettingsSnapshot(store)
    ensures msg.msgType == "UPDATE_STATS" && msg.data.None? ==> r.1 == Refused(MissingDataError)
    ensures msg.msgType in {"CHECK_TEXT", "CONVERT_PROMPT"} ==> r.1 == Refused("Background " + msg.msgType + " not implemented")
    ensures msg.msgType !in {"UPDATE_STATS", "GET_SETTINGS", "CHECK_TEXT", "CONVERT_PROMPT"} ==>
      r.1 == Refused("Unknown message type")
  {
    if msg.msgType == "UPDATE_STATS" then
      match msg.data
      case None => (store, Refused(MissingDataError))
      case Some(e) => (Record(store, today, e), Done)
    else if msg.msgType == "GET_SETTINGS" then (store, SettingsData(SettingsSnapshot(store)))
    else if msg.msgType == "CHECK_TEXT" || msg.msgType == "CONVERT_PROMPT" then
      (store, Refused("Background " + msg.msgType + " not implemented"))
    else (store, Refused("Unknown message type"))
  }

  /** No message changes the stored settings: only `UPDATE_STATS` writes, and it
      writes counters only. */
  lemma MessagesKeepSettings(store: Store, today: string, msg: Message)
    ensures var after := HandleMessage(store, today, msg).0;
      forall k | k in Settings.SettingsKeys :: (k in after <==> k in store) && (k in store ==> after[k] == store[k])
  {
    if msg.msgType == "UPDATE_STATS" && msg.data.Some? {
      RecordTouchesOnlyCounters(store, today, msg.data.value);
      assert Settings.SettingsKeys !! CounterKeys;
    }
  }

  /** The statistics message of a successful check, sent to the background, is
      acknowledged and counted. */
  lemma AgentStatsAccepted(s: Settings.AgentSettings, store: Store, req: Agent.Request, page: string,
                           fetch: Gemini.FetchOutcome, parse: string -> Option<Extraction.CheckResult>,
                           background: Store, today: string)
    requires Agent.CheckSelected(s, store, req, page, fetch, parse).stats.Some?
    ensures var e := Agent.CheckSelected(s, store, req, page, fetch, parse).stats.value;
      var r := HandleMessage(background, today, Message("UPDATE_STATS", Some(e)));
      && r.1 == Done
      && r.0["totalChecks"] == Number(Int(CounterOr0(background, "totalChecks") + 1))
  {
    var e := Agent.CheckSelected(s, store, req, page, fetch, parse).stats.value;
    Agent.CheckFeedsCounters(s, store, req, page, fetch, parse, background, today);
  }

  // ---------------------------------------------------------------------------
  // Storage changes

  /** What `handleStorageChange` does: the message type broadcast to every tab,
      if any, and whether the context menu is rebuilt. */
  datatype Reaction = Reaction(broadcast: Option<string>, rebuildMenu: bool)

  /** `handleStorageChange` with the broadcast message type as a parameter. */
  function ReactWith(namespace: string, changed: set<string>, broadcastType: string): (r: Reaction)
    ensures r.broadcast.Some? <==> namespace == "sync" && changed * Settings.SettingsKeys != {}
    ensures r.broadcast.Some? ==> r.broadcast.value == broadcastType
    ensures r.rebuildMenu <==> namespace == "sync" && ("enabled" in changed || "mode" in changed)
  {
    assert "enabled" in Settings.SettingsKeys && "mode" in Settings.SettingsKeys;
    if namespace == "sync" && changed * Settings.SettingsKeys != {} then
      Reaction(Some(broadcastType), "enabled" in changed || "mode" in changed)
    else
      assert namespace == "sync" && "enabled" in changed ==> "enabled" in changed * Settings.SettingsKeys;
      assert namespace == "sync" && "mode" in changed ==> "mode" in changed * Settings.SettingsKeys;
      Reaction(None, false)
  }

  /** `handleStorageChange` as written: it broadcasts 'SETTINGS_CHANGED'. */
  function StorageChangeAsWritten(namespace: string, changed: set<string>): (r: Reaction)
    ensures r.broadcast.Some? ==> r.broadcast.value == "SETTINGS_CHANGED"
    ensures r.broadcast.Some? <==> StorageChange(namespace, changed).broadcast.Some?
  {
    ReactWith(namespace, changed, "SETTINGS_CHANGED")
  }

  /** `handleStorageChange` broadcasting the type the page agents listen for. */
  function StorageChange(namespace: string, changed: set<string>): (r: Reaction)
    ensures r.broadcast.Some? ==> r.broadcast.value == "SETTINGS_UPDATED"
  {
    ReactWith(namespace, changed, "SETTINGS_UPDATED")
  }

  /** As written, the broadcast is ignored by every page agent: none of them
      re-reads its settings. */
  lemma BroadcastIgnoredAsWritten(namespace: string, changed: set<string>, initStore: Store)
    requires StorageChangeAsWritten(namespace, changed).broadcast.Some?
    requires Settings.AgentSettingsOf(initStore).enabled
    ensures var req := Agent.Request("", StorageChangeAsWritten(namespace, changed).broadcast.value, "");
      Agent.Dispatch(initStore, req) == Some(Agent.Ignore)
  {
  }

  /** With the agents' message type, a settings change reaches every enabled
      agent as a re-initialisation, and a change of the menu's inputs also
      rebuilds the menu. */
  lemma BroadcastReachesAgents(namespace: string, changed: set<string>, initStore: Store)
    requires namespace == "sync" && changed * Settings.SettingsKeys != {}
    requires Settings.AgentSettingsOf(initStore).enabled
    ensures StorageChange(namespace, changed).broadcast.Some?
    ensures var req := Agent.Request("", StorageChange(namespace, changed).broadcast.value, "");
      Agent.Dispatch(initStore, req) == Some(Agent.Reinit)
  {
  }
}
