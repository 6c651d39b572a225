/** The pure parts of the Win32 tab control element: its identifier overrides and the
    state transition of one selection-index refresh. The element's state and its watch
    overrides live in the element tree (module UiDom), which calls these. */
module Win32TabControl {
  import opened UiDomValues

  /** A 32-bit signed integer, the width of the TCM_GETCURSEL result after ToInt32. */
  newtype int32 = x: int | -0x8000_0000 <= x < 0x8000_0000

  /** The tab control's own cached selection state. */
  datatype TabState = TabState(selectionIndexKnown: bool, selectionIndex: int32)

  /** The one alias of the class: selection_index falls back to win32_selection_index. */
  const PropertyAliases: map<string, string> := map["selection_index" := "win32_selection_index"]

  /** The role value of a tab control. */
  const Role: Value := Enum(["tab", "page_tab_list", "pagetablist"])

  /** Names that are simply true for a tab control. */
  const TrueNames: set<string> := {"is_win32_tab_control", "is_win32_tabcontrol", "tab", "page_tab_list", "pagetablist"}

  /** EvaluateIdentifierCore of the tab control. `base` is the base class's resolution of a
      name for this element (value and edges read). */
  function Resolve(base: string -> Lookup, self: ElemId, tab: TabState, id: string): (r: Lookup)
    ensures id in TrueNames ==> r == Lookup(Bool(true), {})
    ensures id == "role" || id == "control_type" ==> r == Lookup(Role, {})
    ensures id == "win32_selection_index" ==>
      r == Lookup(Exposed(tab), {(self, Identifier("win32_selection_index"))})
    ensures id == "selection_index" ==>
      base(id).deps <= r.deps &&
      r.value == (if !base(id).value.Undefined? then base(id).value else Exposed(tab)) &&
      (base(id).value.Undefined? ==> (self, Identifier("win32_selection_index")) in r.deps)
    ensures id !in PropertyAliases && id !in TrueNames && id !in {"role", "control_type", "win32_selection_index"} ==>
      r == base(id)
  {
    if id in PropertyAliases then
      var b := base(id);
      if !b.value.Undefined? then b
      else
        var a := Switch(base, self, tab, PropertyAliases[id]);
        Lookup(a.value, b.deps + a.deps)
    else Switch(base, self, tab, id)
  }

  /** The switch on the (possibly aliased) name, falling through to the base class. */
  function Switch(base: string -> Lookup, self: ElemId, tab: TabState, id: string): Lookup {
    if id in TrueNames then Lookup(Bool(true), {})
    else if id == "role" || id == "control_type" then Lookup(Role, {})
    else if id == "win32_selection_index" then
      Lookup(Exposed(tab), {(self, Identifier("win32_selection_index"))})
    else base(id)
  }

  /** The outcome of one refresh: the new state and the value announced through
      PropertyChanged, if any. */
  datatype Refresh = Refresh(state: TabState, announced: Option<Value>)

  /** RefreshSelectionIndex as written: `i` is the TCM_GETCURSEL result. A negative result
      clears the known flag but keeps the stale index, so the comparison with it keeps
      failing while no tab is selected. */
  function RefreshAsWritten(tab: TabState, i: int32): (r: Refresh)
    ensures i >= 0 ==> r.state == TabState(true, i)
    ensures i < 0 ==> r.state == tab.(selectionIndexKnown := false)
    ensures r.announced.Some? <==> (i >= 0) != tab.selectionIndexKnown || i != tab.selectionIndex
    ensures r.announced.Some? ==> r.announced.value == (if i >= 0 then Int(i as int) else Str("undefined"))
  {
    var known := i >= 0;
    if known != tab.selectionIndexKnown || i != tab.selectionIndex then
      if known then Refresh(TabState(true, i), Some(Int(i as int)))
      else Refresh(tab.(selectionIndexKnown := false), Some(Str("undefined")))
    else Refresh(tab, None)
  }

  /** The value a tab state exposes as win32_selection_index. */
  function Exposed(tab: TabState): Value {
    if tab.selectionIndexKnown then Int(tab.selectionIndex as int) else Undefined
  }

  /** As written, two refreshes in a row that both see "no selection" both announce a
      change, after a selection had been known. */
  lemma RefreshAsWrittenRepeatsAnnouncement()
    ensures var first := RefreshAsWritten(TabState(true, 3), -1);
            var second := RefreshAsWritten(first.state, -1);
            first.announced.Some? && second.announced.Some? && Exposed(first.state) == Exposed(second.state)
  {
  }

  /** The refresh as evidently intended: announce exactly when the exposed value changes. */
  function RefreshCorrected(tab: TabState, i: int32): (r: Refresh)
    ensures i >= 0 ==> r.state == TabState(true, i)
    ensures i < 0 ==> !r.state.selectionIndexKnown
    ensures r.announced.Some? ==> r.announced.value == (if i >= 0 then Int(i as int) else Str("undefined"))
  {
    var known := i >= 0;
    if known != tab.selectionIndexKnown || (known && i != tab.selectionIndex) then
      if known then Refresh(TabState(true, i), Some(Int(i as int)))
      else Refresh(tab.(selectionIndexKnown := false), Some(Str("undefined")))
    else Refresh(tab, None)
  }

  /** The corrected refresh announces exactly when the exposed value changes, so polling
      an unchanged control announces nothing after the first refresh. */
  lemma RefreshCorrectedAnnouncesChanges(tab: TabState, i: int32)
    ensures RefreshCorrected(tab, i).announced.Some? <==> Exposed(RefreshCorrected(tab, i).state) != Exposed(tab)
    ensures RefreshCorrected(RefreshCorrected(tab, i).state, i).announced.None?
  {
  }
}
