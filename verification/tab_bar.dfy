/**
 The tab bar: a horizontally scrolling list of terminal tabs that can be
 dragged to another window or torn off into a window of their own.

 Every event handler of the control becomes a pure transition. The dropped
 flag is a static field of the control, so it is shared by the tab bars of
 every window in the process; together with the pause/resume requests sent
 to the terminal host process it lives in `Shared`, which every handler
 receives and returns. A drop on any window's tab bar sets the flag, and the
 tab bar the drag started from reads it when the drag completes: that is how
 the source window learns that the tab now lives elsewhere.
 */
module TabBar {
  import opened Common

  const ShellProfileKey := "ShellProfile"
  const TerminalIdKey := "TerminalId"
  const XtermStateKey := "XtermState"
  const ViewModelKey := "TerminalViewModel"

  /** The outcome a drop target reports for a drag operation. */
  datatype Operation = NoOperation | Copy | Move | Link

  /** A request to the terminal host process to pause (`pause == true`) or
      resume the output of one terminal. */
  datatype OutputRequest = OutputRequest(terminalId: Byte, pause: bool)

  datatype Event = TabDraggedOutside | TabDraggingCompleted(vm: Vm) | TabWindowChanged

  /** State common to every tab bar of the process. */
  datatype Shared = Shared(itemWasDropped: bool, requests: seq<OutputRequest>)

  /** The scroll viewer's current horizontal offset and scrollable width. */
  datatype Viewer = Viewer(horizontalOffset: real, scrollableWidth: real)

  datatype Buttons = Buttons(leftVisible: bool, rightVisible: bool, leftEnabled: bool, rightEnabled: bool)

  datatype Bar = Bar(items: seq<Vm>, canDragTabs: bool, dragInitialPosition: int, viewer: Viewer, buttons: Buttons)

  /** The serialised forms a drag start obtains from the JSON serialiser and
      from the terminal itself; they are opaque to the tab bar. */
  datatype Snapshot = Snapshot(profileJson: string, xtermState: string, modelJson: string)

  datatype Started = Started(bar: Bar, shared: Shared, payload: Payload)

  datatype Completed = Completed(shared: Shared, events: seq<Event>)

  datatype Tapped = Tapped(bar: Bar, requestedOffset: real)

  /** Fires when the items source changes: only a bar with more than one tab
      lets its tabs be dragged. */
  function CollectionChanged(bar: Bar, items: seq<Vm>): (b: Bar)
    ensures b.items == items
    ensures b.canDragTabs <==> |items| > 1
    ensures b.viewer == bar.viewer && b.buttons == bar.buttons
    ensures b.dragInitialPosition == bar.dragInitialPosition
  {
    bar.(items := items, canDragTabs := |items| > 1)
  }

  /** The payload a drag start attaches to the data package for a terminal. */
  function DragPayload(id: Byte, snap: Snapshot): (p: Payload)
    ensures p.Keys == {ShellProfileKey, TerminalIdKey, XtermStateKey, ViewModelKey}
    ensures p[TerminalIdKey] == ByteValue(id)
    ensures p[ShellProfileKey] == Str(snap.profileJson)
    ensures p[XtermStateKey] == Str(snap.xtermState)
    ensures p[ViewModelKey] == Str(snap.modelJson)
  {
    map[ShellProfileKey := Str(snap.profileJson),
        TerminalIdKey := ByteValue(id),
        XtermStateKey := Str(snap.xtermState),
        ViewModelKey := Str(snap.modelJson)]
  }

  /** Drag start. The first item is cast to a terminal view-model before
      anything else is looked at: an empty item list or a first item of
      another type faults. For a terminal, its output is paused and the
      payload is built; a null first item yields an empty payload. */
  function DragItemsStarting(bar: Bar, sh: Shared, items: seq<DragItem>, snap: Snapshot): (r: Outcome<Started>)
    ensures |items| == 0 ==> r == Failed(ArgumentOutOfRange)
    ensures |items| > 0 && items[0].OtherItem? ==> r == Failed(InvalidCast)
    ensures |items| > 0 && items[0].TerminalItem? && items[0].vm.terminal.None? ==> r == Failed(NullReference)
    ensures r.Done? ==> !r.value.shared.itemWasDropped
    ensures r.Done? ==> r.value.bar == bar.(dragInitialPosition := r.value.bar.dragInitialPosition)
    ensures r.Done? && items[0].NullItem? ==>
              r.value.payload == map[] && r.value.shared.requests == sh.requests
              && r.value.bar.dragInitialPosition == -1
    ensures r.Done? && items[0].TerminalItem? ==>
              var vm := items[0].vm;
              && vm.terminal.Some?
              && r.value.payload == DragPayload(vm.terminal.value.id, snap)
              && r.value.shared.requests == sh.requests + [OutputRequest(vm.terminal.value.id, true)]
              && r.value.bar.dragInitialPosition == IndexOf(bar.items, vm.handle)
    ensures r.Done? <==> |items| > 0 && (items[0].NullItem? || (items[0].TerminalItem? && items[0].vm.terminal.Some?))
  {
    if |items| == 0 then Failed(ArgumentOutOfRange)
    else
      match items[0]
      case OtherItem => Failed(InvalidCast)
      case NullItem =>
        Done(Started(bar.(dragInitialPosition := -1), Shared(false, sh.requests), map[]))
      case TerminalItem(vm) =>
        if vm.terminal.None? then Failed(NullReference)
        else
          var id := vm.terminal.value.id;
          Done(Started(bar.(dragInitialPosition := IndexOf(bar.items, vm.handle)),
                       Shared(false, sh.requests + [OutputRequest(id, true)]),
                       DragPayload(id, snap)))
  }

  /** A drop on this tab bar: announce the window change and mark the item
      as dropped for whichever tab bar started the drag. */
  function Drop(sh: Shared): (r: (Shared, seq<Event>))
    ensures r.0.itemWasDropped
    ensures r.0.requests == sh.requests
    ensures r.1 == [TabWindowChanged]
  {
    (sh.(itemWasDropped := true), [TabWindowChanged])
  }

  /** Whether a completed drag counts as dragged outside every tab bar: the
      bar still holds another tab, no tab bar accepted the drop, and the
      drop target reported no operation. */
  function DraggedOutside(bar: Bar, sh: Shared, result: Operation): (r: bool)
    ensures r ==> |bar.items| >= 2
    ensures !r <==> |bar.items| <= 1 || sh.itemWasDropped || result != NoOperation
  {
    |bar.items| > 1 && !sh.itemWasDropped && result == NoOperation
  }

  /** Drag completion. The first item is cast to a terminal view-model; a
      drag that ended outside every tab bar while this bar still holds
      other tabs is announced and marked as dropped; a dropped tab is then
      announced as completed (the source window removes it); finally the
      output paused at drag start is resumed. */
  function DragItemsCompleted(bar: Bar, sh: Shared, items: seq<DragItem>, result: Operation): (r: Outcome<Completed>)
    ensures |items| == 0 ==> r == Failed(ArgumentOutOfRange)
    ensures |items| > 0 && items[0].OtherItem? ==> r == Failed(InvalidCast)
    ensures |items| > 0 && items[0].NullItem? ==> r == Failed(NullReference)
    ensures |items| > 0 && items[0].TerminalItem? && items[0].vm.terminal.None? ==> r == Failed(NullReference)
    ensures r.Done? <==> |items| > 0 && items[0].TerminalItem? && items[0].vm.terminal.Some?
    ensures r.Done? ==>
              r.value.events == (if DraggedOutside(bar, sh, result) then [TabDraggedOutside] else [])
                                + (if r.value.shared.itemWasDropped then [TabDraggingCompleted(items[0].vm)] else [])
    ensures r.Done? ==>
              var vm := items[0].vm;
              && (r.value.shared.itemWasDropped <==> sh.itemWasDropped || DraggedOutside(bar, sh, result))
              && r.value.shared.requests == sh.requests + [OutputRequest(vm.terminal.value.id, false)]
  {
    if |items| == 0 then Failed(ArgumentOutOfRange)
    else
      match items[0]
      case OtherItem => Failed(InvalidCast)
      case NullItem => Failed(NullReference)
      case TerminalItem(vm) =>
        var outside := DraggedOutside(bar, sh, result);
        var dropped := sh.itemWasDropped || outside;
        var fired := (if outside then [TabDraggedOutside] else [])
                     + (if dropped then [TabDraggingCompleted(vm)] else []);
        if vm.terminal.None? then Failed(NullReference)
        else Done(Completed(Shared(dropped, sh.requests + [OutputRequest(vm.terminal.value.id, false)]), fired))
  }

  /** Recomputes which scroll buttons are enabled from the current offset. */
  function SetScrollButtonsEnabledState(bar: Bar): (b: Bar)
    ensures b.buttons.leftEnabled <==> bar.viewer.horizontalOffset > 0.0
    ensures b.buttons.rightEnabled <==> bar.viewer.horizontalOffset < bar.viewer.scrollableWidth
    ensures b.buttons.leftVisible == bar.buttons.leftVisible
    ensures b.buttons.rightVisible == bar.buttons.rightVisible
    ensures b.(buttons := bar.buttons) == bar
  {
    var v := bar.viewer;
    bar.(buttons := bar.buttons.(leftEnabled := v.horizontalOffset > 0.0,
                                 rightEnabled := v.horizontalOffset < v.scrollableWidth))
  }

  /** Shows both scroll buttons when there is anything to scroll, and hides
      both otherwise. */
  function ScrollableWidthChanged(bar: Bar): (b: Bar)
    ensures b.buttons.leftVisible <==> bar.viewer.scrollableWidth > 0.0
    ensures b.buttons.rightVisible == b.buttons.leftVisible
    ensures b.buttons.leftEnabled == bar.buttons.leftEnabled
    ensures b.buttons.rightEnabled == bar.buttons.rightEnabled
    ensures b.(buttons := bar.buttons) == bar
  {
    var visible := bar.viewer.scrollableWidth > 0.0;
    bar.(buttons := bar.buttons.(leftVisible := visible, rightVisible := visible))
  }

  /** A tap on the left scroll button asks the scroll viewer to move ten
      units left. The viewer moves asynchronously, so the enabled state is
      recomputed from the offset it had before the tap. */
  function ScrollLeftTapped(bar: Bar): (t: Tapped)
    ensures t.requestedOffset == bar.viewer.horizontalOffset - 10.0
    ensures t.bar.viewer == bar.viewer
    ensures t.bar == SetScrollButtonsEnabledState(bar)
  {
    Tapped(SetScrollButtonsEnabledState(bar), bar.viewer.horizontalOffset - 10.0)
  }

  /** A tap on the right scroll button asks for ten units to the right. */
  function ScrollRightTapped(bar: Bar): (t: Tapped)
    ensures t.requestedOffset == bar.viewer.horizontalOffset + 10.0
    ensures t.bar.viewer == bar.viewer
    ensures t.bar == SetScrollButtonsEnabledState(bar)
  {
    Tapped(SetScrollButtonsEnabledState(bar), bar.viewer.horizontalOffset + 10.0)
  }

  /** A bar whose list has just been set to a single tab does not let it be
      dragged, and a drag completing on such a bar is never announced as
      dragged outside: the two rules that guard a lone tab agree. */
  lemma LoneTabNotDraggable(bar: Bar, items: seq<Vm>, sh: Shared, dragged: seq<DragItem>, result: Operation)
    requires |items| <= 1
    requires DragItemsCompleted(CollectionChanged(bar, items), sh, dragged, result).Done?
    ensures !CollectionChanged(bar, items).canDragTabs
    ensures TabDraggedOutside !in DragItemsCompleted(CollectionChanged(bar, items), sh, dragged, result).value.events
  {
  }

  /** On a bar whose width and offset have both been updated, a visible pair
      of buttons never has both disabled while the offset lies within the
      scrollable range, and hidden buttons mean there is nothing to scroll. */
  lemma ScrollButtonsUsable(bar: Bar)
    requires 0.0 <= bar.viewer.horizontalOffset <= bar.viewer.scrollableWidth
    ensures var b := SetScrollButtonsEnabledState(ScrollableWidthChanged(bar));
            && (b.buttons.leftVisible ==> b.buttons.leftEnabled || b.buttons.rightEnabled)
            && (!b.buttons.leftVisible ==> !b.buttons.leftEnabled && !b.buttons.rightEnabled)
            && b.buttons.leftVisible == b.buttons.rightVisible
  {
  }

  /** The two taps leave the bar in the same state, and that state is
      already settled: recomputing the enabled buttons changes nothing. */
  lemma TapsSymmetric(bar: Bar)
    ensures ScrollRightTapped(bar).bar == ScrollLeftTapped(bar).bar
    ensures SetScrollButtonsEnabledState(ScrollLeftTapped(bar).bar) == ScrollLeftTapped(bar).bar
  {
  }

  /** A drag whose bar holds a single tab is never announced as dragged
      outside, and so is only completed if some tab bar accepted the drop. */
  lemma LoneTabNeverTornOff(bar: Bar, sh: Shared, items: seq<DragItem>, result: Operation)
    requires |bar.items| <= 1
    requires DragItemsCompleted(bar, sh, items, result).Done?
    ensures TabDraggedOutside !in DragItemsCompleted(bar, sh, items, result).value.events
    ensures DragItemsCompleted(bar, sh, items, result).value.shared.itemWasDropped == sh.itemWasDropped
  {
  }

  /** Once a completion has announced a drag outside, a second completion
      without a new drag start does not announce it again. */
  lemma DraggedOutsideAtMostOnce(bar: Bar, sh: Shared, items: seq<DragItem>, result: Operation, bar2: Bar, result2: Operation)
    requires DragItemsCompleted(bar, sh, items, result).Done?
    requires TabDraggedOutside in DragItemsCompleted(bar, sh, items, result).value.events
    ensures var sh2 := DragItemsCompleted(bar, sh, items, result).value.shared;
            DragItemsCompleted(bar2, sh2, items, result2).Done?
            && TabDraggedOutside !in DragItemsCompleted(bar2, sh2, items, result2).value.events
  {
  }

  /** The output of a dragged terminal is paused exactly once at drag start
      and resumed exactly once at completion, whether the tab was dropped on
      a tab bar, torn off, or came back to where it started. Events are what
      the whole gesture announced, drops on tab bars included. */
  lemma PausedOutputResumed(bar: Bar, sh: Shared, vm: Vm, rest: seq<DragItem>, snap: Snapshot,
                                               droppedOnBar: bool, result: Operation)
    requires vm.terminal.Some?
    ensures var items := [TerminalItem(vm)] + rest;
            var s := DragItemsStarting(bar, sh, items, snap);
            && s.Done?
            && var mid := if droppedOnBar then Drop(s.value.shared).0 else s.value.shared;
               var c := DragItemsCompleted(s.value.bar, mid, items, result);
               && c.Done?
               && c.value.shared.requests
                  == sh.requests + [OutputRequest(vm.terminal.value.id, true), OutputRequest(vm.terminal.value.id, false)]
               && (TabDraggingCompleted(vm) in c.value.events <==> droppedOnBar || DraggedOutside(bar, s.value.shared, result))
  {
  }
}
