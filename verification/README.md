# AI text checker: a Dafny model of the extension's decision logic

The extension has three parts:

- a background service worker with a context-menu entry, the content-script injector and the usage counters;
- a page agent (content script) that sends the selected text to the Gemini API;
- a settings page (popup).

With the DOM, network and `chrome.*` plumbing stripped away, what is left is a set of small decision procedures. This project models them as one functional core and proves properties of it:

- **Storage** (`storage.dfy`): `chrome.storage.sync` as a map from key to a JavaScript value. It has JavaScript's truthiness, `||` defaulting and `!== false` tests. How `set` stores a `NaN`, which JSON cannot carry, is an input: as `null`, or not at all.
- **Settings** (`settings.dfy`):
  - the install-time "fill only missing keys" defaults;
  - the two default readers, the agent's and the settings page's, which disagree;
  - the settings page's validator and save gate.
- **Counters** (`counters.dfy`): the usage counters with their daily rollover, the start-up reset, the settings page's display rule, and replays of whole runs of events.
- **Menu** (`menu.dfy`): the single context-menu entry chosen by the stored mode, and the settings page's mode panels.
- **Injection** (`injection.dfy`): `ensureContentScriptInjected`. It covers:
  - the restricted-URL guard;
  - the 100 ms load-wait loop;
  - the ping/install/verify/retry plan, run over host oracles;
  - the injection's own error classifier.
- **Background** (`background.dfy`):
  - the context-menu click: the selection guard, the injection, the request sent and the notification shown;
  - the runtime-message handler;
  - the reaction to a storage change.
- **Agent** (`agent.dfy`), the page agent:
  - its message routing;
  - its selection and length guards;
  - URL-keyword context detection;
  - the two HTTP-status-to-error mappings;
  - the API calls, treated as oracles;
  - the statistics message it sends.
- **Extraction** (`extraction.dfy`):
  - the JSON span location of `parseGeminiResponse`, with `JSON.parse` as an oracle;
  - the `**header:**` section splitter of `parsePromptResponse`. Its regular expressions are modelled exactly: the greedy `\s*`, the lazy body, and the `(?=\n\*\*|$)` lookahead.
- **Helpers**:
  - `JsText` (`js_text.dfy`): `trim`, `indexOf`, `includes` and `startsWith` over `seq<char>`;
  - `Gemini` (`gemini.dfy`): the API response shape;
  - `Wrappers` (`wrappers.dfy`): `Option`/`Result`.

Host effects are inputs:

- the fetch outcome;
- `JSON.parse`;
- the page selection;
- the window kind, each load poll, each ping and each install error;
- the fate of `chrome.tabs.sendMessage`;
- `new Date().toDateString()`, which becomes a `today` string.

## Model

| member | source | states |
|---|---|---|
| Counters.UpdateStats | background.js:375-409 | On a stale or missing date, a counted event (check_completed or prompt_converted) sets the daily count to 1; on the same day it adds 1. The date is always written as today. totalChecks rises by exactly 1 and totalIssues by issuesFound, only for counted kinds. A missing or falsy counter (`||` defaulting) reads as 0. Totals never decrease. |
| Counters.InitializeStats | background.js:411-423 | On a new day it writes only a zero daily count and today's date; otherwise nothing. It never touches the totals. |
| Counters.DisplayAgreesWithReset | popup.js:152-172 | The settings page's displayed daily count equals the stored count after the start-up reset. The displayed totals are the stored ones. |
| Counters.ResetThenUpdate | background.js:375-423 | The start-up reset before an update does not change the update's result. |
| Counters.TotalsCountEvents | background.js:386-396 | After any run of events, the totals equal the initial totals plus the number of counted events and the sum of their issue counts. |
| Counters.DailyCountRestartsEachDay | background.js:382-389 | A run of counted events on a new day leaves the daily count equal to the run's length, dated today. |
| Counters.SameDayRunAdds | background.js:382-389 | A run of counted events on the stored day adds its length to the daily count. |
| Settings.DefaultsPatch | background.js:312-341 | The install patch holds exactly the default keys missing from the store, with their default values. It is absent when none is missing. |
| Settings.DefaultsFillOnlyMissing | background.js:328-340 | Applying the defaults keeps every stored value, makes every default key present, and a second application writes nothing. |
| Settings.ReadersDisagreeOnMissingKeys | content.js:25-30 | With minLength and promptStyle missing, the agent reads 10 and 'detailed' while the settings page (popup.js:116-144) reads 20 and 'none'. |
| Settings.ReadersAgreeAfterDefaults | background.js:312-341 | Once the install defaults are stored, both readers see the same enabled flag, a minimum length of 10, and the same mode and length settings. |
| Settings.Validate | popup.js:222-232 | A numeric minLength outside 10..1000 is rejected first. A NaN minLength passes. Enabled with an empty key is rejected. Everything else is accepted; each case is an if-and-only-if. |
| Settings.SaveSettings | popup.js:174-220 | Nothing is written and nobody is told when validation fails or a non-empty key fails the API test; an empty key skips the test. A saved patch holds exactly the seven settings keys with the trimmed key, non-empty when enabled. After a save, 'SETTINGS_UPDATED' is sent exactly when there is an active tab (popup.js:260-271). |
| Settings.FormPatch | popup.js:179-187 | The patch has exactly the seven settings keys, each holding the form's value, with the key trimmed. |
| Settings.FormPatchReadBack | popup.js:174-206 | The agent's reader reads back the stored form's enabled flag, mode, learning flag, style and length, and its minimum length unless that is 0. A NaN minimum length reads as 10 when stored as null, and as the old value when not stored. |
| Settings.MinLengthStored | popup.js:182-206 | A numeric minimum length is stored as given; a NaN one is stored as null, or leaves the stored key as it was. |
| Storage.Persisted | popup.js:206 | Every value other than NaN is stored as given; a NaN is stored as null or dropped, by the host's rule; nothing stored is NaN. |
| Storage.PersistedIdempotent | popup.js:206 | Storing a patch that was already stored changes nothing. |
| Settings.SavedSettingsReachAgent | popup.js:174-220 | After a save, the agent's reader sees the saved enabled flag, mode, learning flag and numeric minimum length. A NaN minimum length reads as 10 when stored as null, and as the agent's previous value when not stored. |
| Settings.NaNMinLengthSplitsReaders | popup.js:182 | After saving a NaN minimum length stored as null, or into a store without one, the agent reads 10 and the settings page 20. When the host drops it, both readers keep what they read before. |
| Menu.MenuPlan | background.js:46-98 | The menu is always cleared first. An entry is added exactly when the extension is not disabled and the defaulted mode is text-check (aiTextChecker) or prompt-convert (midjourneyPrompt), and it is shown only on pages matching 'http://\*/\*' or 'https://\*/\*'. |
| Menu.WebPatternsAdmit | background.js:65-70 | The entry's document patterns (also at background.js:84) admit a page exactly when its URL starts with 'http://' or 'https://'. |
| Menu.MenuRebuild | background.js:46-98 | A rebuild ignores the previous menu and leaves at most one entry, whose kind follows the mode. |
| Menu.SwitchMode | popup.js:84-106 | text-check activates only the text panel, prompt-convert only the prompt panel, and any other mode neither. |
| Injection.LoadWait | background.js:178-203 | The load wait resolves no later than the timeout, and before it when some poll before the timeout finds the page loaded or gone. |
| Injection.WaitForLoad | background.js:178-203 | The polling loop resolves at the time the reference definition gives. |
| Injection.Plan | background.js:152-260 | A restricted URL is refused with the guard's message before any injection call (the window lookup at background.js:159 comes first and is not modelled), and any other URL makes at least a ping. A successful first ping means no install. Otherwise there is one script install and one style-sheet install, plus a second script install only in a popup whose verification ping failed. Only the install errors are thrown. |
| Injection.InnerClassify | background.js:262-274 | In source order, a Chrome access error maps to the special-page message; else a message holding the guard's text maps to it; else a closed-tab error maps to the closed-tab message. A message holding none of the four markers, and only such a message, is kept after a generic prefix. |
| Injection.EnsureInjected | background.js:152-275 | It succeeds exactly when the plan throws nothing, and otherwise rejects with the classified message. |
| Injection.RestrictedTabRefused | background.js:166-175 | A restricted tab is refused with 'このページでは利用できません'. |
| Injection.WebPagesAllowed | background.js:166-175 | No http or https URL is restricted. |
| Background.OuterClassify | background.js:131-146 | In source order, a lost connection gives the try-again-on-a-normal-page message; else an invalidated context asks for a reload; else a Chrome access error gives the special-page message; else a non-editable tab gives its own message. The generic failure comes exactly when none of the four markers occurs. |
| Background.ClickWith | background.js:100-150 | Only the two entry ids are handled. A selection that is absent, empty, or shorter than 5 (conversion) or 10 (check) characters once trimmed gives a selection notice, with no injection call and no request. Otherwise the injection runs, and the trimmed text is sent with the entry's action exactly when it succeeds. No notice is shown exactly when the agent answers with success. |
| Background.HandleClickAsWritten | background.js:131-146 | As written, an injection failure is reported as the click's classification of the injection's already-classified message. |
| Background.HandleClick | background.js:131-146 | An injection failure is reported in the injection's own words; everything else is as written. |
| Background.ClosedTabMessageLost | background.js:136-145 | For an http(s) page whose tab closes while the agent is installed, the code as written shows the generic failure; the corrected handler shows the closed-tab message. |
| Background.ClickedPagesPassGuard | background.js:166-175 | Every page the menu entry is shown on (background.js:69) passes the restricted-URL guard. |
| Background.ClosedTabRefused | background.js:204-273 | On an allowed page where the first ping fails and the script install throws 'The tab was closed.', the injection rejects with the closed-tab message. |
| Background.ClosedTabClassified | background.js:262-274 | An error starting 'The tab was closed' and holding none of the earlier markers is classified as the closed-tab message. |
| Background.RestrictedMessageLost | background.js:265-268 | The click's classifier turns the guard's message into the generic failure. |
| Background.TabClosedMessageLost | background.js:269-270 | The click's classifier turns the closed-tab message into the generic failure. |
| Background.ClickReachesAgent | background.js:115-122 | An enabled agent routes the request a click sends to the entry's operation. It takes the request's text as the selection, and a conversion request passes the agent's length guard. |
| Background.SettingsSnapshot | background.js:352-358 | GET_SETTINGS answers with exactly the stored settings keys and their values. |
| Background.HandleMessage | background.js:343-373 | Only UPDATE_STATS with data succeeds and records the event; without data it is refused and nothing is written. GET_SETTINGS answers with the settings. CHECK_TEXT and CONVERT_PROMPT are refused as not implemented, and any other type as unknown. |
| Background.RecordTouchesOnlyCounters | background.js:398-405 | An update writes the four counter fields and leaves every other stored key as it was. |
| Background.MessagesKeepSettings | background.js:343-373 | No runtime message changes a stored setting. |
| Background.AgentStatsAccepted | content.js:345-358 | The statistics message of a successful check is acknowledged by the background and raises totalChecks by one. |
| Background.ReactWith | background.js:425-440 | A sync change to any settings key broadcasts to all tabs. The menu is rebuilt exactly when enabled or mode changed. |
| Background.StorageChangeAsWritten | background.js:430 | As written, the broadcast carries the type 'SETTINGS_CHANGED'. |
| Background.StorageChange | background.js:425-440 | The broadcast carries the type the page agents listen for. |
| Background.BroadcastIgnoredAsWritten | content.js:153-155 | Every page agent ignores the broadcast as written. |
| Background.BroadcastReachesAgents | content.js:153-155 | With 'SETTINGS_UPDATED', every enabled agent re-initialises on a settings change. |
| Agent.RouteOf | content.js:109-157 | The three actions are matched first. The settings notification triggers re-initialisation only when no action matched; everything else is ignored. |
| Agent.Dispatch | content.js:31-35 | An agent disabled at start-up registers no listener and answers nothing. |
| Agent.HandleTextSelection | content.js:160-182 | The trimmed selection is kept exactly when it meets the minimum length, and otherwise cleared to ''. |
| Agent.SelectionStable | content.js:160-182 | Reading the selection again keeps what the first reading kept. |
| Agent.SelectionFor | content.js:112-118 | A truthy request text is used as given; otherwise the selection is read. |
| Agent.LengthGuard | content.js:190-197 | Empty text and short text are refused with different errors; text of the required length passes. |
| Agent.DetectContext | content.js:331-343 | A URL containing mail, outlook or gmail is email. Otherwise teams, slack, discord or chat means chat, then a form on the page means form, else default. |
| Agent.GmailIsMail | content.js:334 | A URL containing 'gmail' is detected as email. |
| Agent.CheckStatusError | content.js:248-256 | The text-check call maps 400 to an invalid key, 429 to rate limiting and any other failure to a status error. |
| Agent.PromptStatusError | content.js:877-886 | The conversion call maps 403 to an authentication failure, 429 to rate limiting and any other failure to a status error. |
| Agent.StatusMapsDisagree | content.js:248-256 | The two calls classify 400 and 403 differently. |
| Agent.CallCheck | content.js:221-260 | A missing key fails first, an unreachable server fails with the network error, a non-OK status fails with the text-check status mapping, and a 2xx answer without a JSON body fails as such. The call succeeds exactly when a key is set and a 2xx answer carries a JSON body; the result is then the parsed answer. |
| Agent.CallPrompt | content.js:850-890 | A missing key fails first, an unreachable server fails with the network error, a non-OK status fails with the conversion's status mapping, a 2xx answer without a JSON body fails as such, and an answer the splitter refuses fails with the splitter's error. The call succeeds exactly when a key is set and a 2xx JSON answer splits, and its result is then the section split. |
| Agent.StatsMessage | content.js:345-358 | The event is always a completed check, counting the issues when hasIssues holds. A result claiming issues without a list yields no message. |
| Agent.CheckSelected | content.js:184-219 | A text failing the length guard is refused with the guard's error, and nothing is sent. A failed call is reported with the call's error and sends nothing; a result claiming issues without a list is reported as broken. A result is returned exactly when the guard passes, the call succeeds and the statistics message exists, and that message is sent exactly when a result is returned. |
| Agent.ConvertSelected | content.js:812-848 | A text shorter than 5 characters is refused with the guard's error, and a failed call with the call's error; neither sends statistics. A conversion is returned exactly when the guard passes and the call succeeds, and its statistics message reports a completed check with no issues. |
| Agent.GoodAnswerIsChecked | content.js:184-219 | With a key, a long enough selection and a 2xx JSON answer whose issue claim carries a list, the check returns the parsed answer and reports its issue count. |
| Agent.GoodAnswerIsConverted | content.js:812-848 | With a key, at least 5 characters and a 2xx JSON answer the splitter accepts, the conversion returns the split sections and reports one completed check with no issues. |
| Agent.SaveReachesActiveAgent | popup.js:260-271 | A save with an active tab sends 'SETTINGS_UPDATED', and an enabled agent on that tab re-initialises on it (content.js:153-155). |
| Agent.Handle | content.js:109-157 | A ping answers ready. The notification and unknown messages get no reply, and both operations always reply. |
| Agent.CheckFeedsCounters | content.js:345-358 | A successful check, once recorded, raises totalChecks by 1 and totalIssues by its number of issues. |
| Agent.ConversionCountsWithoutIssues | content.js:835 | A successful conversion, once recorded, counts one operation and adds no issues. |
| Extraction.FenceSpan | content.js:302 | The first ```` ```json ```` fence is followed by the first closing fence after it, and the span between them is the match. |
| Extraction.BraceSpan | content.js:302 | The span runs from the first '{' to the last '}'. |
| Extraction.LocateJson | content.js:302 | A fenced block is preferred over the brace span; nothing is found only when neither exists. |
| Extraction.ParseCheckResponse | content.js:298-329 | A missing text path, no span, or a failed parse each give the fixed fallback. Otherwise the parsed object is returned, with a falsy correctedText replaced by the selection. |
| Extraction.CheckAnswerRoundTrip | content.js:298-329 | An answer wrapping an object's JSON in a fence yields exactly that object. |
| Extraction.NonJsonAnswerFallsBack | content.js:315-318 | An answer without '{' or a fence gives the fallback. |
| Extraction.FindHeader | content.js:1001 | The header search finds the first header whose trailing white space contains a newline, and places the content start after the last such newline. |
| Extraction.Section | content.js:1001-1002 | A section is absent exactly when the header search finds no match. Otherwise it is the lazy body that starts at the first match's content start, and it contains no '\n**'. |
| Extraction.SectionText | content.js:1001 | The lazy body from a content start is the slice of the text up to the first '\n**' at or after it, or to the end: nothing of the form '\n**' starts before its end, so it contains none. |
| Extraction.Tail | content.js:1014 | The learning capture runs from the content start of the first match to the end of the text, and is absent exactly when no header matches. |
| Extraction.SectionsOf | content.js:998-1025 | The records carry the inputs, isSimpleTranslation holds exactly for style 'none', and a missing basic header gives the whole trimmed text. The creative part is empty when the style is 'none' or its header is missing; learning is empty when disabled or missing. A found section is the trimmed capture: the basic one always, the creative one unless the style is 'none', and the learning tail when learning is on. The record's type is 'prompt_conversion'. |
| Extraction.ParsePromptResponse | content.js:988-1028 | No candidates, no parts and no text fail with distinct errors; otherwise the sections of the text. |
| Extraction.SectionsStopAtHeaders | content.js:1001-1008 | Neither a basic section that was found nor the creative part contains the section terminator '\n**'. |
| Extraction.PromptAnswerRoundTrip | content.js:988-1028 | An answer laid out with the three headers, with trimmed sections containing no '*', is split back into exactly those sections. |

## Left out

- The DOM and all presentation are not modelled: indicators, modals, clipboard, `replaceSelectedText`, CSS injection in the page and `markdownToHtml`. The prompt templates (`buildPrompt`, `buildPromptForMidjourney`) are left out too; only their wording differs.
- `fetch`, `chrome.storage`, `chrome.tabs`, `chrome.scripting`, `chrome.contextMenus` and `chrome.notifications` are inputs or output records, not calls. `JSON.parse` is an uninterpreted function, and the date is a `today` string.
- Timers and concurrency are not modelled:
  - the content script's repeated `init` and the page-load retry schedule;
  - the 100 ms delay before a menu rebuild;
  - the race between two read-modify-writes of the counters;
  - the popup's notification of `STATS_UPDATED`.

  The load-wait timeouts and the pause lengths are kept as data.
- Repeated `init` in the agent registers another listener each time. The model has one listener.
- Lengths count Dafny characters, not UTF-16 code units. They differ only outside the Basic Multilingual Plane.
- `parseInt` on the settings page is an input: the minimum length arrives as a number or NaN.
- The agent's error messages are constructors of `AgentError`, not texts. The detail the conversion call takes from the error body is dropped.
- The selection notifications of the click handler are constructors holding the lengths, not the formatted texts.
- `Background.HandleMessage`: the error for `UPDATE_STATS` without data is the text the V8 engine gives for reading a property of `undefined`; other engines word it differently.
- The loss of the special-page message through the click's classifier is not proved. The lemmas cover the guard's message and the closed-tab message.
- Counters.UpdateStats: stored counters are assumed to be numbers or absent, as only this code writes them. A truthy non-number (a string) would be concatenated by JavaScript's `+`, which the model does not reproduce.
- Settings.AgentSettingsOf and Settings.PopupViewOf: a stored minimum length is assumed to be a number, null or absent, as only the settings page writes it. A truthy non-number would be kept by `minLength || 10` (content.js:26) and `minLength || defaults.minLength` (popup.js:142); the model reads it as the default.
- Menu.MenuPlan: the match patterns are modelled as scheme prefixes ('http://\*/\*' admits URLs starting 'http://'); host and path matching beyond that is not modelled. `targetUrlPatterns` and the entry titles are left out.
- Settings.SaveSettings: the notification is the message type sent and whether a tab was active; the query of the active tab and a failed delivery, which the settings page swallows, are inputs or not modelled.
- Three facts about the code are easy to miss, and the model keeps them:
  - `basicPrompt` can be empty when the basic section found is empty (content.js:1002 trims the match without a fallback).
  - `totalIssues` grows for `prompt_converted` events too, when they carry an issue count (background.js:389-395).
  - The text-check call gives 400 its own error (content.js:248-256) and the conversion call gives 403 its own (content.js:877-886).

## Findings

| source | as written | input that shows it | evidently intended | confidence | as-written member | corrected member |
|---|---|---|---|---|---|---|
| background.js:136-145 | The click's `catch` reclassifies the message that `ensureContentScriptInjected` has already classified (background.js:265-273). None of its markers occur in those texts, so the user sees '処理に失敗しました。'. | An `https://` page whose tab is closed after the ping fails, so the script install throws 'The tab was closed.' | Show the injection's message ('タブが閉じられました'). | medium, not executed | Background.ClosedTabMessageLost | Background.HandleClick |
| background.js:430 | The storage-change handler broadcasts type 'SETTINGS_CHANGED', but the page agent only reacts to 'SETTINGS_UPDATED' (content.js:154). Other tabs never re-read their settings. | Toggling `learningEnabled` on the settings page, with two tabs open | Broadcast 'SETTINGS_UPDATED' so every agent re-initialises. | medium, not executed | Background.BroadcastIgnoredAsWritten | Background.BroadcastReachesAgents |
