# FluentTerminal: tab handoff, settings page and view cache

This project models, in Dafny, the sequential logic under four pieces of the
FluentTerminal Windows terminal application, and proves properties of it:

- **Tab bar** (`TabBar`): the drag gesture that moves a terminal tab to another
  window or tears it off into a new one. A drag start pauses the terminal's
  output and builds a key/value payload. A drop on any tab bar sets a dropped
  flag. A drag completion announces "dragged outside" and "dragging
  completed" and resumes the output. Also modelled: whether tabs may be dragged
  at all, and the scroll buttons.
- **Main page** (`MainPage`): removes a tab that left the window and picks
  the next selection, or closes the window once it is empty. It accepts a
  dropped payload only when the payload has the right shape. It asks for a
  tear-off. It mirrors the title-bar padding for right-to-left layouts.
- **Terminal settings page** (`TerminalPage`): four terminal options. Each
  setter saves the options only when the value really changes. Three
  mutually exclusive cursor-style selectors share a guard against re-entrant
  edits. Restore-defaults runs only after the user confirms. The page offers
  the font sizes 1 to 72.
- **View converter** (`ViewConverter`): a cache from terminal view-model to
  view, removal of a terminal from that cache, and the unsupported reverse
  conversion.

Every event handler is a pure function from the state before the event to the
state after it. Effects on the outside world become data in the result:
events raised, requests to the terminal host process, saves to the settings
store, property-change notifications, add/tear-off/close requests. An
unhandled exception is the `Failed` case of `Common.Outcome`. It names the
.NET exception the source would raise at that point.

The dropped flag (`_itemWasDropped`) is a **static** field in the source, so
one flag serves every window's tab bar. The model keeps it in
`TabBar.Shared`, next to the log of pause/resume requests. Every tab-bar
handler takes that shared state and returns it. This shared flag is how a
window learns that its dragged tab was dropped on another window.

View-model objects are compared by reference throughout the source
(dictionary keys, `IndexOf`, `Remove`). The model gives each view-model a
`handle` that stands for its identity.

## Model

| member | source | states |
|---|---|---|
| `Common.IndexOf` | FluentTerminal.App/Views/MainPage.xaml.cs:147 | the position of the first occurrence of the object, or -1 exactly when it is absent |
| `Common.RemoveFirst` | FluentTerminal.App/Views/MainPage.xaml.cs:148 | removes only the first occurrence: the list loses one element if the object was present and is unchanged otherwise |
| `Common.RemoveFirstRemovesAll` | FluentTerminal.App/Views/MainPage.xaml.cs:148 | in a list with no repeated object, the removed object no longer occurs anywhere |
| `Common.RemoveFirstKeepsOthers` | FluentTerminal.App/Views/MainPage.xaml.cs:148 | removal keeps every other object that was in the list and adds none |
| `TabBar.CollectionChanged` | FluentTerminal.App/Views/TabBar.xaml.cs:39-42 | after the items change, tabs can be dragged exactly when there are more than one; nothing else about the bar changes |
| `TabBar.LoneTabNotDraggable` | FluentTerminal.App/Views/TabBar.xaml.cs:39-42 | a bar whose list is set to at most one tab does not let it be dragged, and a drag completing on that bar never fires "dragged outside"; the two lone-tab rules agree |
| `TabBar.DragPayload` | FluentTerminal.App/Views/TabBar.xaml.cs:173-176 | the payload has exactly the keys ShellProfile, TerminalId, XtermState and TerminalViewModel; the id is stored as a byte and the other three as strings |
| `TabBar.DragItemsStarting` | FluentTerminal.App/Views/TabBar.xaml.cs:155-178 | drag start clears the dropped flag. For a terminal it pauses that terminal's output once and builds its payload. A null first item adds nothing. No items, a non-terminal first item, or a terminal with no terminal object raise an exception |
| `TabBar.Drop` | FluentTerminal.App/Views/TabBar.xaml.cs:212-217 | a drop on a tab bar raises the window-changed event and sets the shared dropped flag; the output requests are untouched |
| `TabBar.DraggedOutside` | FluentTerminal.App/Views/TabBar.xaml.cs:196 | a completed drag counts as outside exactly when the bar holds at least two tabs, no bar accepted the drop and the reported operation is none |
| `TabBar.DragItemsCompleted` | FluentTerminal.App/Views/TabBar.xaml.cs:187-208 | "dragged outside" fires exactly when the bar has more than one tab, the flag is clear and nothing accepted the drop, and firing it sets the flag. "Dragging completed" fires exactly when the flag is then set. Each fires at most once, "dragged outside" first. The terminal's output is resumed exactly once. An empty item list, a non-terminal or null first item, and a terminal with no terminal object each raise their exception |
| `TabBar.SetScrollButtonsEnabledState` | FluentTerminal.App/Views/TabBar.xaml.cs:129-133 | left is enabled iff the offset is positive and right iff the offset is below the scrollable width; visibility is untouched |
| `TabBar.ScrollableWidthChanged` | FluentTerminal.App/Views/TabBar.xaml.cs:101-113 | both buttons are visible iff the scrollable width is positive; enabled states are untouched |
| `TabBar.ScrollLeftTapped` | FluentTerminal.App/Views/TabBar.xaml.cs:115-120 | asks the viewer for the offset minus 10 and recomputes the enabled state from the offset it still has |
| `TabBar.ScrollRightTapped` | FluentTerminal.App/Views/TabBar.xaml.cs:122-127 | asks the viewer for the offset plus 10 and recomputes the enabled state from the offset it still has |
| `TabBar.ScrollButtonsUsable` | FluentTerminal.App/Views/TabBar.xaml.cs:101-133 | once both updates have run and the offset lies within the scrollable range, visible buttons are never both disabled, and hidden buttons are both disabled |
| `TabBar.TapsSymmetric` | FluentTerminal.App/Views/TabBar.xaml.cs:115-127 | the left and right taps leave the bar in the same state, one whose enabled buttons already match its offset |
| `TabBar.LoneTabNeverTornOff` | FluentTerminal.App/Views/TabBar.xaml.cs:196-200 | with at most one tab, a completed drag never fires "dragged outside" and never changes the dropped flag |
| `TabBar.DraggedOutsideAtMostOnce` | FluentTerminal.App/Views/TabBar.xaml.cs:196-200 | once "dragged outside" has fired, a second completion without a new drag start does not fire it again |
| `TabBar.PausedOutputResumed` | FluentTerminal.App/Views/TabBar.xaml.cs:155-208 | over a whole drag, whether or not a bar accepted the drop, the host process gets exactly one pause and then one resume for the dragged terminal; "dragging completed" fires iff it was dropped on a bar or dragged outside |
| `MainPage.CoreTitleBarPadding` | FluentTerminal.App/Views/MainPage.xaml.cs:31-44 | the padding is (left inset, right inset) for left-to-right and the two swapped otherwise |
| `MainPage.PaddingMirrors` | FluentTerminal.App/Views/MainPage.xaml.cs:31-44 | right-to-left padding is the mirror image of left-to-right padding |
| `MainPage.TabDraggingCompleted` | FluentTerminal.App/Views/MainPage.xaml.cs:145-157 | the dragged terminal's first occurrence is removed. If terminals remain, the left neighbour of its old position is selected, or the first terminal when it was first or absent. If none remain, a close is requested and the selection is left alone |
| `MainPage.DraggedTabLeavesWindow` | FluentTerminal.App/Views/MainPage.xaml.cs:145-157 | with no repeated terminals, the dragged one is gone, every other one stays, and the new selection is one of the remaining terminals |
| `MainPage.LastTabBecomesUndraggable` | FluentTerminal.App/Views/MainPage.xaml.cs:145-152 | when a drag leaves a window with one tab, that tab is selected and the tab bar no longer lets it be dragged |
| `MainPage.AcceptsPayload` | FluentTerminal.App/Views/MainPage.xaml.cs:125-128 | the drop guard holds exactly when all four keys are present, with a string profile, a byte id and a string state; the view-model entry may hold anything |
| `MainPage.TabViewDrop` | FluentTerminal.App/Views/MainPage.xaml.cs:123-135 | an add is requested iff the four keys are present with a string profile, a byte id and a string state, and the view-model entry is a string. The request carries those values. A failed guard changes nothing. A null or non-string view-model entry raises an exception |
| `MainPage.PayloadKeysAgree` | FluentTerminal.App/Views/MainPage.xaml.cs:119-121 | the keys the main page reads are the keys the tab bar writes |
| `MainPage.DragPayloadRoundTrip` | FluentTerminal.App/Views/MainPage.xaml.cs:123-133 | every payload the tab bar builds for a terminal passes the drop guard; the add request carries back the terminal's id and the serialised profile, state and view-model |
| `MainPage.TabBarDraggedOutside` | FluentTerminal.App/Views/MainPage.xaml.cs:137-143 | a tear-off is requested iff there is at least one dragged item and the first is a terminal, and it is for that terminal |
| `MainPage.TabViewTabDraggedOutside` | FluentTerminal.App/Views/MainPage.xaml.cs:106-112 | a tear-off is requested iff the item is a terminal view-model, and it is for that terminal |
| `MainPage.TearOffPathsAgree` | FluentTerminal.App/Views/MainPage.xaml.cs:106-112 | the tab view's single-item notification and the tab bar's item-list notification request the same tear-off for the same first item |
| `MainPage.TornOffIsDragged` | FluentTerminal.App/Views/MainPage.xaml.cs:137-143 | whenever the tab bar fires "dragged outside", the page asks to tear off exactly the dragged terminal |
| `MainPage.DroppedTabLeavesSourceWindow` | FluentTerminal.App/Views/MainPage.xaml.cs:145-157 | a terminal dropped on another window's tab bar makes the source bar fire "dragging completed", and the source page then no longer lists it |
| `TerminalPage.SetCursorBlink` | FluentTerminal.App/ViewModels/Settings/TerminalPageViewModel.cs:33-45 | setting the current value changes nothing. A new value is stored, saved exactly once, and announced |
| `TerminalPage.SetFontFamily` | FluentTerminal.App/ViewModels/Settings/TerminalPageViewModel.cs:47-59 | setting the current value changes nothing. A new value is stored, saved exactly once, and announced |
| `TerminalPage.SetFontSize` | FluentTerminal.App/ViewModels/Settings/TerminalPageViewModel.cs:63-75 | setting the current value changes nothing. A new value is stored, saved exactly once, and announced |
| `TerminalPage.SettersIdempotent` | FluentTerminal.App/ViewModels/Settings/TerminalPageViewModel.cs:33-75 | setting the same value twice equals setting it once. The value reads back. The save count grows by one iff the value differed |
| `TerminalPage.SetCursorStyle` | FluentTerminal.App/ViewModels/Settings/TerminalPageViewModel.cs:87-104 | during an edit, or with an unchanged style, nothing happens. Otherwise the style is stored and saved once, the style and the three selectors are announced, and the guard is lowered again afterwards |
| `TerminalPage.WhileEditing` | FluentTerminal.App/ViewModels/Settings/TerminalPageViewModel.cs:92-101 | while the guard is up, the writes the bindings make leave the page unchanged |
| `TerminalPage.ReentrantWritesIrrelevant` | FluentTerminal.App/ViewModels/Settings/TerminalPageViewModel.cs:92-101 | whatever the bindings write back during an edit, the setter ends in the same page as with no write-back |
| `TerminalPage.StyleChangeWins` | FluentTerminal.App/ViewModels/Settings/TerminalPageViewModel.cs:87-104 | a style change survives any write-back during its notifications. It is saved once, the four style properties are announced, and the guard is down afterwards |
| `TerminalPage.SetBarIsSelected` | FluentTerminal.App/ViewModels/Settings/TerminalPageViewModel.cs:21-25 | assigning any boolean to the bar selector selects the bar cursor |
| `TerminalPage.SetBlockIsSelected` | FluentTerminal.App/ViewModels/Settings/TerminalPageViewModel.cs:27-31 | assigning any boolean to the block selector selects the block cursor |
| `TerminalPage.SetUnderlineIsSelected` | FluentTerminal.App/ViewModels/Settings/TerminalPageViewModel.cs:79-83 | assigning any boolean to the underline selector selects the underline cursor |
| `TerminalPage.BarIsSelected` | FluentTerminal.App/ViewModels/Settings/TerminalPageViewModel.cs:23 | the bar selector is on exactly when neither the block nor the underline style is stored |
| `TerminalPage.BlockIsSelected` | FluentTerminal.App/ViewModels/Settings/TerminalPageViewModel.cs:29 | the block selector is on exactly when neither the bar nor the underline style is stored |
| `TerminalPage.UnderlineIsSelected` | FluentTerminal.App/ViewModels/Settings/TerminalPageViewModel.cs:81 | the underline selector is on exactly when neither the block nor the bar style is stored |
| `TerminalPage.SelectorsExclusive` | FluentTerminal.App/ViewModels/Settings/TerminalPageViewModel.cs:21-31 | at every moment exactly one of the three selectors is on |
| `TerminalPage.RestoreDefaults` | FluentTerminal.App/ViewModels/Settings/TerminalPageViewModel.cs:106-118 | unless the dialog answer is OK, nothing changes |
| `TerminalPage.RestoreDefaultsRestores` | FluentTerminal.App/ViewModels/Settings/TerminalPageViewModel.cs:106-118 | after OK all four options equal the defaults. There is one save per field that differed and no other save. The guard is down |
| `TerminalPage.RangeIsConsecutive` | FluentTerminal.App/ViewModels/Settings/TerminalPageViewModel.cs:129 | a range of `count` integers from `start` has `count` elements, the i-th being start + i |
| `TerminalPage.Sizes` | FluentTerminal.App/ViewModels/Settings/TerminalPageViewModel.cs:129 | the offered sizes are 72 values, the i-th being i + 1 |
| `TerminalPage.SizesAreOneToSeventyTwo` | FluentTerminal.App/ViewModels/Settings/TerminalPageViewModel.cs:129 | the offered font sizes are exactly 1 to 72, in strictly ascending order |
| `ViewConverter.Convert` | FluentTerminal.App/Converters/TerminalViewModelToViewConverter.cs:35-54 | a cached view-model gets its stored view and nothing changes. An uncached one gets a new view under exactly one new entry, other entries untouched. A non-terminal input gives nothing and changes nothing. A view-model without a terminal raises an exception |
| `ViewConverter.RemoveTerminal` | FluentTerminal.App/Converters/TerminalViewModelToViewConverter.cs:20-33 | the terminal id is appended to the removed list and the entry is gone. A cached model also has its view detached and its view, terminal and overlay links cleared. An uncached one is otherwise untouched |
| `ViewConverter.ConvertBack` | FluentTerminal.App/Converters/TerminalViewModelToViewConverter.cs:56-59 | always fails as not implemented |
| `ViewConverter.ConvertHasNoInverse` | FluentTerminal.App/Converters/TerminalViewModelToViewConverter.cs:35-59 | no view the converter hands out, cached or fresh, can be converted back |
| `ViewConverter.OperationsPreserveValid` | FluentTerminal.App/Converters/TerminalViewModelToViewConverter.cs:20-54 | convert and remove keep every cached view filed under its own view-model, with an identity below the next fresh one |
| `ViewConverter.ConvertTwiceSameView` | FluentTerminal.App/Converters/TerminalViewModelToViewConverter.cs:44-47 | converting the same view-model twice returns the same view, and the second conversion changes nothing |
| `ViewConverter.RemovedListIgnored` | FluentTerminal.App/Converters/TerminalViewModelToViewConverter.cs:37-51 | after an uncached view-model is removed and its id logged, converting it still creates a fresh view, distinct from every cached one |
| `ViewConverter.ConvertAfterRemoveFaults` | FluentTerminal.App/Converters/TerminalViewModelToViewConverter.cs:20-42 | once a cached view-model is removed, its terminal is cleared, so converting or removing it again raises an exception |

## Left out

- Dependency properties, XAML layout, data binding, drag visuals and
  captions (`DragOver`, `DragEnter`, `DragLeave`, `DropCompleted`) and
  logging: these are UI-framework plumbing with no logic to state.
- The selection-changed handler and its background loop, which polls every
  50 ms for a list container (FluentTerminal.App/Views/TabBar.xaml.cs:68-99):
  this works around a framework timing gap. The model keeps only the
  enabled-state rule it ends with.
- JSON serialisation, the terminal's own state serialisation, and their
  reconstruction on the receiving side: these are foreign calls. Their results
  enter as the opaque strings of `TabBar.Snapshot`, and the add request
  carries them unparsed. A malformed JSON string is not modelled.
- The pause/resume call to the terminal host process: it is a log of
  `TabBar.OutputRequest`. The response record `PauseTerminalOutputResponse`
  is a fixed data record with no behaviour.
- `AddTerminalAsync`, `TearOffTab` and `TryClose` belong to the main
  view-model, which is not part of this model. They appear as requests in
  the results.
- The awaits in the drag-start handler and in restore-defaults are treated as
  finishing in order before the handler returns. The thread hop caused by
  `ConfigureAwait(false)` is not modelled.
- Window activation and focus, navigation, theme changes, and the title-bar
  height with its metrics notifications: these are framework callbacks and
  floating-point measurements. Only the inset swap is kept.
- The system font list offered by the settings page: it is enumerated from
  the operating system and ordered by culture-aware string comparison.
- The dialog service and the settings store: the dialog's answer is an
  input. The store is the log of option records it was asked to save.
- Scroll offsets and insets: these are doubles in the source. The model
  uses exact reals, so rounding, NaN and infinities are not modelled. The
  viewer's own clamping of a requested offset is not modelled either.
- The drag's initial position: the model records it, the `IndexOf`
  position for a terminal item and -1 for a null item. The source reads it
  only for logging (FluentTerminal.App/Views/TabBar.xaml.cs:163), and its one
  use in a condition (:202) is commented out.
- `TabBar.DragItemsCompleted`: for a null first item the source raises each
  event under the same conditions as for a terminal item
  (FluentTerminal.App/Views/TabBar.xaml.cs:196, :202) before the exception at
  :207. The model reports only the failure, because events raised by a
  handler that then throws are not modelled.
- Faults: when a handler throws partway through, the model returns only the
  exception and drops the changes the source has already made. Three
  handlers lose such changes. In `TabBar.DragItemsStarting`, the shared flag
  is cleared and the initial position stored before the exception for a
  terminal with no terminal object. In `TabBar.DragItemsCompleted`, for a
  terminal with no terminal object as for a null item, each event fires and
  the flag is set under the same conditions as for a terminal item (:196,
  :202) before the exception at :207. In
  `ViewConverter.RemoveTerminal`, the id is logged before the exception for
  a cached model with no xterm view. A fault stands for an unhandled
  exception that ends the gesture, so no property is stated about the
  state it leaves behind.
- Shared view-model objects: `Common.Vm` is a value, so each holder keeps
  its own copy of the terminal, view and overlay links. In the source,
  `ViewConverter.RemoveTerminal` clears those links on the one shared
  object, and every list and handler holding it sees the change. For
  example, a later drag start on that tab faults. In the model the cleared
  links appear only in the view-model that `RemoveTerminal` returns, and
  the other modules see them only if that value is passed on.
- ViewConverter.RemoveTerminal: a cached model whose view is missing and
  one whose view has another type are both reported as a null reference.
  The source raises an invalid-cast exception for the second case.
