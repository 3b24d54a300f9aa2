/** The single context-menu entry the background keeps, and the settings page's
    mode panels, both chosen by the stored mode. */
module Menu {
  import opened Storage
  import opened JsText

  datatype MenuItem = AiTextChecker | MidjourneyPrompt

  /** The calls `createContextMenu` makes to the menu host. An entry carries the
      URL patterns of the pages it is shown on. */
  datatype MenuOp = RemoveAll | Create(item: MenuItem, documentPatterns: seq<string>)

  /** Both entries are shown on web pages only. */
  const DocumentPatterns: seq<string> := ["http://*/*", "https://*/*"]

  // A pattern of the form scheme, `://`, `*`, `/`, `*` admits every page URL of
  // that scheme.
  predicate PatternAdmits(pattern: string, url: string) {
    |pattern| >= 3 && pattern[|pattern| - 3..] == "*/*" && StartsWith(url, pattern[..|pattern| - 3])
  }

  /** An entry with these patterns is shown on the page at `url`. */
  predicate ShownOn(patterns: seq<string>, url: string) {
    exists i | 0 <= i < |patterns| :: PatternAdmits(patterns[i], url)
  }

  /** The entries are shown exactly on `http://` and `https://` pages. */
  lemma WebPatternsAdmit(url: string)
    ensures ShownOn(DocumentPatterns, url) <==> StartsWith(url, "http://") || StartsWith(url, "https://")
  {
    var http := DocumentPatterns[0];
    var https := DocumentPatterns[1];
    assert http[..|http| - 3] == "http://" && http[|http| - 3..] == "*/*";
    assert https[..|https| - 3] == "https://" && https[|https| - 3..] == "*/*";
    if StartsWith(url, "http://") {
      assert PatternAdmits(http, url);
    } else if StartsWith(url, "https://") {
      assert PatternAdmits(https, url);
    }
  }

  /** `settings.mode || 'text-check'`. */
  function ModeOf(store: Store): Value {
    OrDefault(store, "mode", Str("text-check"))
  }

  /** `createContextMenu`: clear the menu, then add the entry for the current mode
      when the extension is enabled. An unknown mode adds nothing. */
  function MenuPlan(store: Store): (ops: seq<MenuOp>)
    ensures 1 <= |ops| <= 2 && ops[0] == RemoveAll
    ensures |ops| == 2 <==>
      NotFalse(store, "enabled") && (ModeOf(store) == Str("text-check") || ModeOf(store) == Str("prompt-convert"))
    ensures |ops| == 2 && ModeOf(store) == Str("text-check") ==> ops[1] == Create(AiTextChecker, DocumentPatterns)
    ensures |ops| == 2 && ModeOf(store) == Str("prompt-convert") ==> ops[1] == Create(MidjourneyPrompt, DocumentPatterns)
  {
    if !NotFalse(store, "enabled") then [RemoveAll]
    else if ModeOf(store) == Str("text-check") then [RemoveAll, Create(AiTextChecker, DocumentPatterns)]
    else if ModeOf(store) == Str("prompt-convert") then [RemoveAll, Create(MidjourneyPrompt, DocumentPatterns)]
    else [RemoveAll]
  }

  /** The entries present after running `ops` on a menu holding `items`. */
  function ApplyMenuOps(items: set<MenuItem>, ops: seq<MenuOp>): set<MenuItem>
    decreases |ops|
  {
    if |ops| == 0 then items
    else
      var next := match ops[0]
        case RemoveAll => {}
        case Create(i, _) => items + {i};
      ApplyMenuOps(next, ops[1..])
  }

  /** Running ops that begin with `RemoveAll` ignores what the menu held. */
  lemma ClearedFirst(a: set<MenuItem>, b: set<MenuItem>, ops: seq<MenuOp>)
    requires |ops| > 0 && ops[0] == RemoveAll
    ensures ApplyMenuOps(a, ops) == ApplyMenuOps(b, ops)
  {
  }

  /** Rebuilding the menu forgets its previous entries and leaves at most one,
      whose kind follows the stored mode. */
  lemma MenuRebuild(before: set<MenuItem>, store: Store)
    ensures var after := ApplyMenuOps(before, MenuPlan(store));
      && after == ApplyMenuOps({}, MenuPlan(store))
      && |after| <= 1
      && (AiTextChecker in after <==> NotFalse(store, "enabled") && ModeOf(store) == Str("text-check"))
      && (MidjourneyPrompt in after <==> NotFalse(store, "enabled") && ModeOf(store) == Str("prompt-convert"))
  {
    var ops := MenuPlan(store);
    ClearedFirst(before, {}, ops);
    var rest := ops[1..];
    assert ApplyMenuOps({}, ops) == ApplyMenuOps({}, rest);
    if |ops| == 2 {
      assert ApplyMenuOps({}, rest) == ApplyMenuOps({} + {ops[1].item}, rest[1..]);
    }
  }

  /** Which settings panels `switchMode` leaves active. */
  datatype Panels = Panels(textCheck: bool, prompt: bool)

  function SwitchMode(mode: Value): (p: Panels)
    ensures !(p.textCheck && p.prompt)
    ensures p.textCheck <==> mode == Str("text-check")
    ensures p.prompt <==> mode == Str("prompt-convert")
  {
    if mode == Str("text-check") then Panels(true, false)
    else if mode == Str("prompt-convert") then Panels(false, true)
    else Panels(false, false)
  }

  /** For an enabled extension the menu entry and the panel the settings page opens
      with agree: both follow the same defaulted mode. */
  lemma MenuMatchesPanel(store: Store)
    requires NotFalse(store, "enabled")
    ensures var menu := ApplyMenuOps({}, MenuPlan(store));
      var panels := SwitchMode(OrDefault(store, "mode", Str("text-check")));
      && (AiTextChecker in menu <==> panels.textCheck)
      && (MidjourneyPrompt in menu <==> panels.prompt)
  {
    MenuRebuild({}, store);
  }
}
