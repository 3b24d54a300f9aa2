/** User settings: the install-time defaults the background writes, the readers
    each context applies to the stored values, and the settings page's validator
    and save gate. */
module Settings {
  import opened Wrappers
  import opened Storage
  import opened Gemini
  import JsText

  /** The keys the settings page owns. */
  const SettingsKeys: set<string> :=
    {"enabled", "apiKey", "minLength", "mode", "learningEnabled", "promptStyle", "promptLength"}

  /** What `setDefaultSettings` would store on a fresh install on day `today`. */
  function InstallDefaults(today: string): Store {
    map[
      "enabled" := Bool(true),
      "apiKey" := Str(""),
      "minLength" := Number(Int(10)),
      "mode" := Str("text-check"),
      "learningEnabled" := Bool(true),
      "promptStyle" := Str("detailed"),
      "promptLength" := Str("medium"),
      "todayChecks" := Number(Int(0)),
      "totalChecks" := Number(Int(0)),
      "totalIssues" := Number(Int(0)),
      "lastStatsDate" := Str(today)
    ]
  }

  /** `setDefaultSettings`: the patch written (only keys that are `undefined` in the
      store get their default), or `None` when every key is already present and
      nothing is written. */
  function DefaultsPatch(store: Store, today: string): (r: Option<Store>)
    ensures r.None? <==> InstallDefaults(today).Keys <= store.Keys
    ensures r.Some? ==> r.value.Keys == InstallDefaults(today).Keys - store.Keys
    ensures r.Some? ==> forall k | k in r.value :: r.value[k] == InstallDefaults(today)[k]
  {
    var defaults := InstallDefaults(today);
    var missing := map k | k in defaults && k !in store :: defaults[k];
    // the patch is empty exactly when no default key is missing
    if defaults.Keys <= store.Keys then None else Some(missing)
  }

  /** The store after `setDefaultSettings`. */
  function WithDefaults(store: Store, today: string): Store {
    match DefaultsPatch(store, today)
    case None => store
    case Some(patch) => Write(store, patch)
  }

  /** Applying the defaults never overwrites a stored value, leaves every default
      key present, and a second application writes nothing. */
  lemma DefaultsFillOnlyMissing(store: Store, today: string)
    ensures forall k | k in store :: k in WithDefaults(store, today) && WithDefaults(store, today)[k] == store[k]
    ensures InstallDefaults(today).Keys <= WithDefaults(store, today).Keys
    ensures DefaultsPatch(WithDefaults(store, today), today).None?
  {
  }

  /** `x || d` for a numeric setting; a value that is not a number reads as missing. */
  function NumberOr(store: Store, key: string, d: int): int {
    if key in store && store[key].Number? && store[key].num.Int? && store[key].num.n != 0
    then store[key].num.n else d
  }

  /** The settings a page agent runs with (its `init`). */
  datatype AgentSettings = AgentSettings(
    enabled: bool,
    minTextLength: int,
    mode: Value,
    learningEnabled: bool,
    promptStyle: Value,
    promptLength: Value)

  function AgentSettingsOf(store: Store): AgentSettings {
    AgentSettings(
      NotFalse(store, "enabled"),
      NumberOr(store, "minLength", 10),
      OrDefault(store, "mode", Str("text-check")),
      NotFalse(store, "learningEnabled"),
      OrDefault(store, "promptStyle", Str("detailed")),
      OrDefault(store, "promptLength", Str("medium")))
  }

  /** What the settings page shows (its `loadSettings`). */
  datatype PopupView = PopupView(
    mode: Value,
    enabled: bool,
    learningEnabled: bool,
    apiKey: Value,
    minLength: int,
    promptStyle: Value,
    promptLength: Value)

  function PopupViewOf(store: Store): PopupView {
    PopupView(
      OrDefault(store, "mode", Str("text-check")),
      NotFalse(store, "enabled"),
      NotFalse(store, "learningEnabled"),
      OrDefault(store, "apiKey", Str("")),
      NumberOr(store, "minLength", 20),
      OrDefault(store, "promptStyle", Str("none")),
      OrDefault(store, "promptLength", Str("medium")))
  }

  /** The two readers disagree when the keys are missing: the page agent checks
      selections of 10 characters and styles prompts as 'detailed', while the
      settings page shows 20 and 'none'. */
  lemma ReadersDisagreeOnMissingKeys(store: Store)
    requires "minLength" !in store && "promptStyle" !in store
    ensures AgentSettingsOf(store).minTextLength == 10 && PopupViewOf(store).minLength == 20
    ensures AgentSettingsOf(store).promptStyle == Str("detailed")
    ensures PopupViewOf(store).promptStyle == Str("none")
  {
  }

  /** Once the install defaults are in place the readers agree on every setting. */
  lemma ReadersAgreeAfterDefaults(store: Store, today: string)
    requires SettingsKeys !! store.Keys
    ensures var s := WithDefaults(store, today);
      && AgentSettingsOf(s).enabled == PopupViewOf(s).enabled
      && AgentSettingsOf(s).minTextLength == PopupViewOf(s).minLength == 10
      && AgentSettingsOf(s).mode == PopupViewOf(s).mode
      && AgentSettingsOf(s).learningEnabled == PopupViewOf(s).learningEnabled
      && AgentSettingsOf(s).promptStyle == PopupViewOf(s).promptStyle
      && AgentSettingsOf(s).promptLength == PopupViewOf(s).promptLength
  {
    var d := InstallDefaults(today);
    assert DefaultsPatch(store, today).Some? by {
      assert "enabled" in d && "enabled" !in store;
    }
    var s := WithDefaults(store, today);
    forall k | k in SettingsKeys ensures k in s && s[k] == d[k] {
      assert k in d;
    }
  }

  /** Why `validateSettings` refuses. */
  datatype Invalid = MinLengthOutOfRange | ApiKeyRequired

  /** `validateSettings`: the range check on the parsed minimum length comes first;
      `NaN` fails neither comparison and so passes it. */
  function Validate(enabled: bool, apiKey: string, minLength: Num): (r: Option<Invalid>)
    ensures r == Some(MinLengthOutOfRange) <==> minLength.Int? && !(10 <= minLength.n <= 1000)
    ensures r == Some(ApiKeyRequired) <==>
      (minLength.NaN? || 10 <= minLength.n <= 1000) && enabled && apiKey == ""
    ensures r == None <==> (minLength.NaN? || 10 <= minLength.n <= 1000) && (!enabled || apiKey != "")
  {
    if minLength.Int? && (minLength.n < 10 || minLength.n > 1000) then Some(MinLengthOutOfRange)
    else if enabled && apiKey == "" then Some(ApiKeyRequired)
    else None
  }

  /** `testApiKey`: the key works when a test request gets a 2xx answer; a network
      failure counts as a bad key. */
  predicate KeyAccepted(test: FetchOutcome) {
    test.Answered? && IsOk(test.status)
  }

  /** The settings page's form at the moment Save is pressed; `minLength` is what
      `parseInt` made of the input field. */
  datatype Form = Form(
    enabledActive: bool,
    apiKeyInput: string,
    minLength: Num,
    mode: string,
    learningActive: bool,
    promptStyle: string,
    promptLength: string)

  /** The outcome of Save: a rejection, or the settings written and the type of
      the message then sent to the active tab's agent, if there is an active tab. */
  datatype SaveOutcome =
    | Rejected(reason: Invalid)
    | KeyRejected
    | Saved(patch: Store, notified: Option<string>)

  /** The message type `notifyContentScript` sends after a save. */
  const SavedNotice: string := "SETTINGS_UPDATED"

  /** The settings record `saveSettings` builds from the form: one entry per
      settings key. */
  function FormPatch(form: Form): (r: Store)
    ensures r.Keys == SettingsKeys
    ensures r["enabled"] == Bool(form.enabledActive) && r["learningEnabled"] == Bool(form.learningActive)
    ensures r["apiKey"] == Str(JsText.Trim(form.apiKeyInput)) && r["minLength"] == Number(form.minLength)
    ensures r["mode"] == Str(form.mode) && r["promptStyle"] == Str(form.promptStyle)
    ensures r["promptLength"] == Str(form.promptLength)
  {
    map[
      "enabled" := Bool(form.enabledActive),
      "apiKey" := Str(JsText.Trim(form.apiKeyInput)),
      "minLength" := Number(form.minLength),
      "mode" := Str(form.mode),
      "learningEnabled" := Bool(form.learningActive),
      "promptStyle" := Str(form.promptStyle),
      "promptLength" := Str(form.promptLength)
    ]
  }

  /** `saveSettings`: validate, test a non-empty key against the capability (an
      empty key skips the test), and only then write the seven settings and tell
      the agent of the active tab, when the window has one. */
  function SaveSettings(form: Form, keyTest: FetchOutcome, activeTab: bool): (r: SaveOutcome)
    ensures r.Saved? <==>
      && Validate(form.enabledActive, JsText.Trim(form.apiKeyInput), form.minLength).None?
      && (JsText.Trim(form.apiKeyInput) == "" || KeyAccepted(keyTest))
    ensures r.Rejected? <==> Validate(form.enabledActive, JsText.Trim(form.apiKeyInput), form.minLength).Some?
    ensures r.Saved? ==> r.patch.Keys == SettingsKeys
    ensures r.Saved? ==> r.patch["apiKey"] == Str(JsText.Trim(form.apiKeyInput))
    ensures r.Saved? && form.enabledActive ==> r.patch["apiKey"] != Str("")
    ensures r.Saved? ==> (r.notified.Some? <==> activeTab)
    ensures r.Saved? && r.notified.Some? ==> r.notified.value == SavedNotice
  {
    var key := JsText.Trim(form.apiKeyInput);
    match Validate(form.enabledActive, key, form.minLength)
    case Some(reason) => Rejected(reason)
    case None =>
      if key != "" && !KeyAccepted(keyTest) then KeyRejected
      else Saved(FormPatch(form), if activeTab then Some(SavedNotice) else None)
  }

  /** A saved form reaches the page agents: read back through the agent's reader,
      the store holds what the form said. A `NaN` minimum length is stored as
      `null`, and the agent falls back to 10, or it is not stored, and the agent
      keeps the minimum length it had. */
  lemma SavedSettingsReachAgent(store: Store, form: Form, keyTest: FetchOutcome, activeTab: bool, rule: NanRule)
    requires SaveSettings(form, keyTest, activeTab).Saved?
    ensures var a := AgentSettingsOf(Write(store, Persisted(SaveSettings(form, keyTest, activeTab).patch, rule)));
      && a.enabled == form.enabledActive
      && a.learningEnabled == form.learningActive
      && (form.minLength.Int? ==> a.minTextLength == form.minLength.n)
      && (form.minLength.NaN? && rule == NanAsNull ==> a.minTextLength == 10)
      && (form.minLength.NaN? && rule == NanDropped ==> a.minTextLength == AgentSettingsOf(store).minTextLength)
      && (form.mode != "" ==> a.mode == Str(form.mode))
      && (form.promptStyle != "" ==> a.promptStyle == Str(form.promptStyle))
      && (form.promptLength != "" ==> a.promptLength == Str(form.promptLength))
  {
    assert SaveSettings(form, keyTest, activeTab).patch == FormPatch(form);
    assert form.minLength.Int? ==> form.minLength.n >= 10;
    FormPatchReadBack(store, form, rule);
  }

  /** The form's record, stored over any store, reads back through the agent's
      reader as the form's values; a minimum length of 0 reads as missing, and a
      `NaN` one as `null` or as the old value, by how the host stores it. */
  lemma FormPatchReadBack(store: Store, form: Form, rule: NanRule)
    ensures var a := AgentSettingsOf(Write(store, Persisted(FormPatch(form), rule)));
      && a.enabled == form.enabledActive
      && a.learningEnabled == form.learningActive
      && (form.minLength.Int? ==> a.minTextLength == (if form.minLength.n != 0 then form.minLength.n else 10))
      && (form.minLength.NaN? && rule == NanAsNull ==> a.minTextLength == 10)
      && (form.minLength.NaN? && rule == NanDropped ==> a.minTextLength == AgentSettingsOf(store).minTextLength)
      && (form.mode != "" ==> a.mode == Str(form.mode))
      && (form.promptStyle != "" ==> a.promptStyle == Str(form.promptStyle))
      && (form.promptLength != "" ==> a.promptLength == Str(form.promptLength))
  {
    var p := FormPatch(form);
    var q := Persisted(p, rule);
    var s := Write(store, q);
    assert p["enabled"] != Number(NaN) && p["learningEnabled"] != Number(NaN) && p["mode"] != Number(NaN);
    assert p["promptStyle"] != Number(NaN) && p["promptLength"] != Number(NaN);
    assert "enabled" in q && "learningEnabled" in q && "mode" in q && "promptStyle" in q && "promptLength" in q;
    assert s["enabled"] == p["enabled"] && s["learningEnabled"] == p["learningEnabled"];
    assert s["mode"] == p["mode"] && s["promptStyle"] == p["promptStyle"] && s["promptLength"] == p["promptLength"];
    MinLengthStored(store, form, rule);
  }

  /** Where the form's minimum length ends up once stored. */
  lemma MinLengthStored(store: Store, form: Form, rule: NanRule)
    ensures var s := Write(store, Persisted(FormPatch(form), rule));
      && (form.minLength.Int? ==> "minLength" in s && s["minLength"] == Number(form.minLength))
      && (form.minLength.NaN? && rule == NanAsNull ==> "minLength" in s && s["minLength"] == Null)
      && (form.minLength.NaN? && rule == NanDropped ==>
            ("minLength" in s <==> "minLength" in store)
            && ("minLength" in store ==> s["minLength"] == store["minLength"]))
  {
    var p := FormPatch(form);
    var q := Persisted(p, rule);
    assert "minLength" in p && p["minLength"] == Number(form.minLength);
    if form.minLength.NaN? && rule == NanDropped {
      assert "minLength" !in q;
    }
  }

  /** After saving an unparsable minimum length into a store that held none, or
      with the host storing it as `null`, the settings page shows 20 while the
      page agents check against 10. If the host drops it instead, both readers
      keep what they read before the save. */
  lemma NaNMinLengthSplitsReaders(store: Store, form: Form, keyTest: FetchOutcome, activeTab: bool, rule: NanRule)
    requires form.minLength.NaN?
    requires SaveSettings(form, keyTest, activeTab).Saved?
    ensures var s := Write(store, Persisted(SaveSettings(form, keyTest, activeTab).patch, rule));
      (rule == NanAsNull || "minLength" !in store) ==>
        AgentSettingsOf(s).minTextLength == 10 && PopupViewOf(s).minLength == 20
    ensures var s := Write(store, Persisted(SaveSettings(form, keyTest, activeTab).patch, rule));
      rule == NanDropped ==>
        AgentSettingsOf(s).minTextLength == AgentSettingsOf(store).minTextLength
        && PopupViewOf(s).minLength == PopupViewOf(store).minLength
  {
    assert SaveSettings(form, keyTest, activeTab).patch == FormPatch(form);
    MinLengthStored(store, form, rule);
  }
}
