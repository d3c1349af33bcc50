/**
 The main window page: it owns the window's list of terminals and reacts to
 the tab bar's drag events. A completed drag removes the tab from this
 window and selects its left neighbour (or closes an emptied window); a drop
 from another window asks the main view-model to add the transferred
 terminal; a drag outside every window asks for a tear-off.
 */
module MainPage {
  import opened Common
  import TabBar

  const ShellProfileKey := "ShellProfile"
  const TerminalIdKey := "TerminalId"
  const XtermStateKey := "XtermState"
  const ViewModelKey := "TerminalViewModel"

  datatype FlowDirection = LeftToRight | RightToLeft

  datatype Thickness = Thickness(left: real, right: real)

  /** The window's terminals, the selected one, and whether the page has
      asked for the window to be closed. */
  datatype Page = Page(terminals: seq<Vm>, selected: Option<Vm>, closeRequested: bool)

  /** A request to the main view-model to add a terminal transferred from
      another window, carrying the payload's serialised parts. */
  datatype AddRequest = AddRequest(terminalId: Byte, profileJson: string, xtermState: string, modelJson: string)

  /** Padding that keeps the title bar clear of the system caption buttons:
      the system insets as reported, mirrored for right-to-left layouts. */
  function CoreTitleBarPadding(dir: FlowDirection, leftInset: real, rightInset: real): (t: Thickness)
    ensures dir == LeftToRight ==> t.left == leftInset && t.right == rightInset
    ensures dir == RightToLeft ==> t.left == rightInset && t.right == leftInset
  {
    if dir == LeftToRight then Thickness(leftInset, rightInset)
    else Thickness(rightInset, leftInset)
  }

  function Mirror(t: Thickness): Thickness
  {
    Thickness(t.right, t.left)
  }

  /** A right-to-left page pads exactly as the mirror image of a
      left-to-right one. */
  lemma PaddingMirrors(leftInset: real, rightInset: real)
    ensures CoreTitleBarPadding(RightToLeft, leftInset, rightInset)
            == Mirror(CoreTitleBarPadding(LeftToRight, leftInset, rightInset))
  {
  }

  /** The tab bar reports that a tab has left this window: remove it, then
      select the tab to the left of where it was (the first tab when it was
      first or not found), or ask to close the window when none remain. */
  function TabDraggingCompleted(p: Page, e: Vm): (q: Page)
    ensures q.terminals == RemoveFirst(p.terminals, e.handle)
    ensures Contains(p.terminals, e.handle) ==> |q.terminals| == |p.terminals| - 1
    ensures !Contains(p.terminals, e.handle) ==> q.terminals == p.terminals
    ensures |q.terminals| > 0 ==> q.selected.Some? && q.closeRequested == p.closeRequested
    ensures |q.terminals| > 0 && IndexOf(p.terminals, e.handle) > 0 ==>
              q.selected == Some(p.terminals[IndexOf(p.terminals, e.handle) - 1])
    ensures |q.terminals| > 0 && IndexOf(p.terminals, e.handle) <= 0 ==>
              q.selected == Some(q.terminals[0])
    ensures |q.terminals| == 0 ==> q.closeRequested && q.selected == p.selected
  {
    var position := IndexOf(p.terminals, e.handle);
    var rest := RemoveFirst(p.terminals, e.handle);
    if |rest| > 0 then
      var index := if position - 1 > 0 then position - 1 else 0;
      p.(terminals := rest, selected := Some(rest[index]))
    else
      p.(terminals := rest, closeRequested := true)
  }

  /** After the tab bar reports a completed drag, the dragged terminal is no
      longer in the window's list (the list holds no object twice), every
      other terminal still is, and the selection is one of the remaining
      terminals. */
  lemma {:induction false} DraggedTabLeavesWindow(p: Page, e: Vm, other: nat)
    requires Distinct(p.terminals)
    requires other != e.handle
    ensures !Contains(TabDraggingCompleted(p, e).terminals, e.handle)
    ensures Contains(TabDraggingCompleted(p, e).terminals, other) <==> Contains(p.terminals, other)
    ensures var q := TabDraggingCompleted(p, e);
            |q.terminals| > 0 ==> Contains(q.terminals, q.selected.value.handle)
  {
    var q := TabDraggingCompleted(p, e);
    RemoveFirstRemovesAll(p.terminals, e.handle);
    RemoveFirstKeepsOthers(p.terminals, e.handle, other);
    if |q.terminals| > 0 {
      var position := IndexOf(p.terminals, e.handle);
      var index := if position - 1 > 0 then position - 1 else 0;
      assert q.selected.value == q.terminals[index];
    }
  }

  /** The drop guard: a payload is taken only when it carries a view-model
      entry of any kind, a profile string, a terminal id byte and a state
      string. */
  function AcceptsPayload(p: Payload): (r: bool)
    ensures r ==> {ViewModelKey, ShellProfileKey, TerminalIdKey, XtermStateKey} <= p.Keys
    ensures r <==> && {ViewModelKey, ShellProfileKey, TerminalIdKey, XtermStateKey} <= p.Keys
                   && p[ShellProfileKey].Str? && p[TerminalIdKey].ByteValue? && p[XtermStateKey].Str?
  {
    && ViewModelKey in p
    && ShellProfileKey in p && p[ShellProfileKey].Str?
    && TerminalIdKey in p && p[TerminalIdKey].ByteValue?
    && XtermStateKey in p && p[XtermStateKey].Str?
  }

  /** A drop from another window. A payload that fails the guard is ignored;
      one that passes has its view-model entry cast to a string and
      deserialised, which faults for a non-string or a null entry. */
  function TabViewDrop(p: Payload): (r: Outcome<Option<AddRequest>>)
    ensures !AcceptsPayload(p) ==> r == Done(None)
    ensures r.Done? && r.value.Some? <==> AcceptsPayload(p) && p[ViewModelKey].Str?
    ensures r.Done? && r.value.Some? ==>
              && r.value.value.terminalId == p[TerminalIdKey].b
              && r.value.value.profileJson == p[ShellProfileKey].s
              && r.value.value.xtermState == p[XtermStateKey].s
              && r.value.value.modelJson == p[ViewModelKey].s
    ensures AcceptsPayload(p) && p[ViewModelKey] == NullValue ==> r == Failed(ArgumentNull)
    ensures AcceptsPayload(p) && (p[ViewModelKey].ByteValue? || p[ViewModelKey].OtherValue?) ==> r == Failed(InvalidCast)
  {
    if !AcceptsPayload(p) then Done(None)
    else
      match p[ViewModelKey]
      case Str(model) =>
        Done(Some(AddRequest(p[TerminalIdKey].b, p[ShellProfileKey].s, p[XtermStateKey].s, model)))
      case NullValue => Failed(ArgumentNull)
      case _ => Failed(InvalidCast)
  }

  /** The keys the main page reads are the keys the tab bar writes. */
  lemma PayloadKeysAgree()
    ensures ShellProfileKey == TabBar.ShellProfileKey
    ensures TerminalIdKey == TabBar.TerminalIdKey
    ensures XtermStateKey == TabBar.XtermStateKey
    ensures ViewModelKey == TabBar.ViewModelKey
  {
  }

  /** Round trip: whatever payload the tab bar builds when a terminal's drag
      starts passes the drop guard, and the add request carries back the
      terminal's id and the serialised profile, state and view-model. */
  lemma DragPayloadRoundTrip(bar: TabBar.Bar, sh: TabBar.Shared, vm: Vm, rest: seq<DragItem>, snap: TabBar.Snapshot)
    requires vm.terminal.Some?
    ensures var s := TabBar.DragItemsStarting(bar, sh, [TerminalItem(vm)] + rest, snap);
            && s.Done?
            && AcceptsPayload(s.value.payload)
            && TabViewDrop(s.value.payload)
               == Done(Some(AddRequest(vm.terminal.value.id, snap.profileJson, snap.xtermState, snap.modelJson)))
  {
  }

  /** The tab bar reports a drag outside every window: tear the dragged tab
      off into a new window when the first dragged item is a terminal. */
  function TabBarDraggedOutside(items: seq<DragItem>): (r: Option<Vm>)
    ensures r.Some? <==> |items| > 0 && items[0].TerminalItem?
    ensures r.Some? ==> r.value == items[0].vm
  {
    if |items| > 0 && items[0].TerminalItem? then Some(items[0].vm) else None
  }

  /** The tab view's own drag-outside notification, for a single item. */
  function TabViewTabDraggedOutside(item: DragItem): (r: Option<Vm>)
    ensures r.Some? <==> item.TerminalItem?
    ensures r.Some? ==> r.value == item.vm
  {
    if item.TerminalItem? then Some(item.vm) else None
  }

  /** Whenever the tab bar announces a drag outside, the page asks to tear
      off exactly the dragged terminal. */
  lemma TornOffIsDragged(bar: TabBar.Bar, sh: TabBar.Shared, items: seq<DragItem>, result: TabBar.Operation)
    requires TabBar.DragItemsCompleted(bar, sh, items, result).Done?
    requires TabBar.TabDraggedOutside in TabBar.DragItemsCompleted(bar, sh, items, result).value.events
    ensures TabBarDraggedOutside(items) == Some(items[0].vm)
  {
  }

  /** A tab dropped on another window's tab bar leaves the window it was
      dragged from: the source bar announces the completed drag, and the
      source page, handling it, no longer lists the terminal. */
  lemma {:induction false} DroppedTabLeavesSourceWindow(page: Page, bar: TabBar.Bar, sh: TabBar.Shared, vm: Vm,
                                                        snap: TabBar.Snapshot, result: TabBar.Operation)
    requires vm.terminal.Some?
    requires Distinct(page.terminals)
    ensures var s := TabBar.DragItemsStarting(bar, sh, [TerminalItem(vm)], snap);
            && s.Done?
            && var c := TabBar.DragItemsCompleted(s.value.bar, TabBar.Drop(s.value.shared).0, [TerminalItem(vm)], result);
               && c.Done?
               && TabBar.TabDraggingCompleted(vm) in c.value.events
               && !Contains(TabDraggingCompleted(page, vm).terminals, vm.handle)
  {
    var s := TabBar.DragItemsStarting(bar, sh, [TerminalItem(vm)], snap);
    assert s.Done?;
    var c := TabBar.DragItemsCompleted(s.value.bar, TabBar.Drop(s.value.shared).0, [TerminalItem(vm)], result);
    assert c.Done? && c.value.shared.itemWasDropped;
    RemoveFirstRemovesAll(page.terminals, vm.handle);
  }

  /** A window left with a single tab after a drag stops letting it be
      dragged once its tab bar sees the new list. */
  lemma LastTabBecomesUndraggable(page: Page, bar: TabBar.Bar, e: Vm)
    requires Contains(page.terminals, e.handle) && |page.terminals| == 2
    ensures var q := TabDraggingCompleted(page, e);
            && |q.terminals| == 1
            && !TabBar.CollectionChanged(bar, q.terminals).canDragTabs
            && q.selected == Some(q.terminals[0])
  {
  }

  /** The tab view's single-item notification and the tab bar's item-list
      notification request the same tear-off for the same first item. */
  lemma TearOffPathsAgree(items: seq<DragItem>)
    requires |items| > 0
    ensures TabViewTabDraggedOutside(items[0]) == TabBarDraggedOutside(items)
  {
  }
}
