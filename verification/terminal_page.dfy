/**
 The terminal settings page's view-model: four terminal options (cursor
 blink, cursor style, font family, font size) that are saved to the
 settings store every time one of them actually changes, three radio-button
 selectors for the cursor style, a guard against re-entrant cursor-style
 edits, and a confirmed restore of the default options.

 The settings store is a log of the option records it was asked to save;
 property-change notifications are a log of property names. Bindings may
 react to a cursor-style notification by writing a selector back; those
 writes are the `reentrant` parameter of the cursor-style setter.
 */
module TerminalPage {

  datatype CursorStyle = Block | Underline | Bar

  datatype Options = Options(cursorBlink: bool, cursorStyle: CursorStyle, fontFamily: string, fontSize: int)

  datatype Page = Page(options: Options, editing: bool, saved: seq<Options>, notified: seq<string>)

  datatype DialogButton = OK | Cancel

  /** The page between two handler calls: no cursor-style edit under way. */
  predicate Idle(p: Page)
  {
    !p.editing
  }

  function SetCursorBlink(p: Page, value: bool): (q: Page)
    ensures value == p.options.cursorBlink ==> q == p
    ensures value != p.options.cursorBlink ==>
              && q.options == p.options.(cursorBlink := value)
              && q.saved == p.saved + [q.options]
              && q.notified == p.notified + ["CursorBlink"]
              && q.editing == p.editing
  {
    if p.options.cursorBlink != value then
      var o := p.options.(cursorBlink := value);
      p.(options := o, saved := p.saved + [o], notified := p.notified + ["CursorBlink"])
    else p
  }

  function SetFontFamily(p: Page, value: string): (q: Page)
    ensures value == p.options.fontFamily ==> q == p
    ensures value != p.options.fontFamily ==>
              && q.options == p.options.(fontFamily := value)
              && q.saved == p.saved + [q.options]
              && q.notified == p.notified + ["FontFamily"]
              && q.editing == p.editing
  {
    if p.options.fontFamily != value then
      var o := p.options.(fontFamily := value);
      p.(options := o, saved := p.saved + [o], notified := p.notified + ["FontFamily"])
    else p
  }

  function SetFontSize(p: Page, value: int): (q: Page)
    ensures value == p.options.fontSize ==> q == p
    ensures value != p.options.fontSize ==>
              && q.options == p.options.(fontSize := value)
              && q.saved == p.saved + [q.options]
              && q.notified == p.notified + ["FontSize"]
              && q.editing == p.editing
  {
    if p.options.fontSize != value then
      var o := p.options.(fontSize := value);
      p.(options := o, saved := p.saved + [o], notified := p.notified + ["FontSize"])
    else p
  }

  /** The private cursor-style setter. A change is taken only when the style
      differs and no other cursor-style edit is under way; it is saved, all
      four style properties are announced, and the writes the bindings make
      in response are fed back through this same setter while the guard is
      up. The guard is lowered afterwards. */
  function SetCursorStyle(p: Page, value: CursorStyle, reentrant: seq<CursorStyle>): (q: Page)
    decreases |reentrant|, 1
    ensures p.editing || value == p.options.cursorStyle ==> q == p
    ensures !p.editing && value != p.options.cursorStyle ==>
              && q.options == p.options.(cursorStyle := value)
              && q.saved == p.saved + [q.options]
              && q.notified == p.notified + ["CursorStyle", "BlockIsSelected", "BarIsSelected", "UnderlineIsSelected"]
              && !q.editing
  {
    if p.options.cursorStyle != value && !p.editing then
      var o := p.options.(cursorStyle := value);
      var during := p.(editing := true, options := o, saved := p.saved + [o],
                       notified := p.notified + ["CursorStyle", "BlockIsSelected", "BarIsSelected", "UnderlineIsSelected"]);
      var after := WhileEditing(during, reentrant);
      after.(editing := false)
    else p
  }

  /** Applies the selector writes made during an edit, in order. */
  function WhileEditing(p: Page, writes: seq<CursorStyle>): (q: Page)
    decreases |writes|, 0
    ensures p.editing ==> q == p
  {
    if |writes| == 0 then p
    else WhileEditing(SetCursorStyle(p, writes[0], []), writes[1..])
  }

  /** On exactly when neither of the other two styles is stored. */
  function BarIsSelected(p: Page): (b: bool)
    ensures b <==> p.options.cursorStyle != Block && p.options.cursorStyle != Underline
  {
    p.options.cursorStyle == Bar
  }

  /** On exactly when neither of the other two styles is stored. */
  function BlockIsSelected(p: Page): (b: bool)
    ensures b <==> p.options.cursorStyle != Bar && p.options.cursorStyle != Underline
  {
    p.options.cursorStyle == Block
  }

  /** On exactly when neither of the other two styles is stored. */
  function UnderlineIsSelected(p: Page): (b: bool)
    ensures b <==> p.options.cursorStyle != Block && p.options.cursorStyle != Bar
  {
    p.options.cursorStyle == Underline
  }

  /** Assigning the bar selector, whatever the assigned boolean, asks for
      the bar cursor. */
  function SetBarIsSelected(p: Page, value: bool, reentrant: seq<CursorStyle>): (q: Page)
    ensures Idle(p) ==> BarIsSelected(q) && Idle(q)
  {
    SetCursorStyle(p, Bar, reentrant)
  }

  function SetBlockIsSelected(p: Page, value: bool, reentrant: seq<CursorStyle>): (q: Page)
    ensures Idle(p) ==> BlockIsSelected(q) && Idle(q)
  {
    SetCursorStyle(p, Block, reentrant)
  }

  function SetUnderlineIsSelected(p: Page, value: bool, reentrant: seq<CursorStyle>): (q: Page)
    ensures Idle(p) ==> UnderlineIsSelected(q) && Idle(q)
  {
    SetCursorStyle(p, Underline, reentrant)
  }

  /** Exactly one selector is on at any time. */
  lemma SelectorsExclusive(p: Page)
    ensures !(BarIsSelected(p) && BlockIsSelected(p))
    ensures !(BarIsSelected(p) && UnderlineIsSelected(p))
    ensures !(BlockIsSelected(p) && UnderlineIsSelected(p))
    ensures BarIsSelected(p) || BlockIsSelected(p) || UnderlineIsSelected(p)
  {
  }

  /** The guard makes the writes the bindings perform during an edit
      irrelevant: the setter ends in the same page whatever they were. */
  lemma ReentrantWritesIrrelevant(p: Page, value: CursorStyle, reentrant: seq<CursorStyle>)
    ensures SetCursorStyle(p, value, reentrant) == SetCursorStyle(p, value, [])
  {
  }

  /** A cursor-style change survives whatever the bindings write back while
      it is being announced: the requested style is stored, saved once, and
      the guard is down again. */
  lemma StyleChangeWins(p: Page, value: CursorStyle, reentrant: seq<CursorStyle>)
    requires Idle(p) && value != p.options.cursorStyle
    ensures var q := SetCursorStyle(p, value, reentrant);
            && q.options.cursorStyle == value
            && |q.saved| == |p.saved| + 1
            && q.saved[|p.saved|].cursorStyle == value
            && Idle(q)
            && q.notified == p.notified + ["CursorStyle", "BlockIsSelected", "BarIsSelected", "UnderlineIsSelected"]
  {
  }

  /** Setting an option to the value it already has is a no-op; setting it
      to a new value and then again to that value saves once. */
  lemma SettersIdempotent(p: Page, blink: bool, family: string, size: int)
    ensures SetCursorBlink(SetCursorBlink(p, blink), blink) == SetCursorBlink(p, blink)
    ensures SetFontFamily(SetFontFamily(p, family), family) == SetFontFamily(p, family)
    ensures SetFontSize(SetFontSize(p, size), size) == SetFontSize(p, size)
    ensures SetCursorBlink(p, blink).options.cursorBlink == blink
    ensures SetFontFamily(p, family).options.fontFamily == family
    ensures SetFontSize(p, size).options.fontSize == size
    ensures |SetCursorBlink(p, blink).saved| == |p.saved| + (if blink == p.options.cursorBlink then 0 else 1)
    ensures |SetFontFamily(p, family).saved| == |p.saved| + (if family == p.options.fontFamily then 0 else 1)
    ensures |SetFontSize(p, size).saved| == |p.saved| + (if size == p.options.fontSize then 0 else 1)
  {
  }

  /** Number of fields in which two option records differ. */
  function Differences(a: Options, b: Options): nat
  {
    (if a.cursorBlink != b.cursorBlink then 1 else 0)
    + (if a.cursorStyle != b.cursorStyle then 1 else 0)
    + (if a.fontFamily != b.fontFamily then 1 else 0)
    + (if a.fontSize != b.fontSize then 1 else 0)
  }

  /** Restores the default options, field by field through the setters,
      only when the user confirms the dialog. */
  function RestoreDefaults(p: Page, answer: DialogButton, defaults: Options, reentrant: seq<CursorStyle>): (q: Page)
    ensures answer != OK ==> q == p
  {
    if answer == OK then
      var a := SetCursorBlink(p, defaults.cursorBlink);
      var b := SetCursorStyle(a, defaults.cursorStyle, reentrant);
      var c := SetFontFamily(b, defaults.fontFamily);
      SetFontSize(c, defaults.fontSize)
    else p
  }

  /** After a confirmed restore the options are the defaults, each differing
      field was saved once and no other save happened. */
  lemma RestoreDefaultsRestores(p: Page, defaults: Options, reentrant: seq<CursorStyle>)
    requires Idle(p)
    ensures var q := RestoreDefaults(p, OK, defaults, reentrant);
            && q.options == defaults
            && |q.saved| == |p.saved| + Differences(p.options, defaults)
            && Idle(q)
  {
  }

  /** `Enumerable.Range(start, count)`: `count` consecutive integers. */
  function Range(start: int, count: nat): (r: seq<int>)
    decreases count
  {
    if count == 0 then [] else [start] + Range(start + 1, count - 1)
  }

  lemma {:induction false} RangeIsConsecutive(start: int, count: nat)
    ensures |Range(start, count)| == count
    ensures forall i :: 0 <= i < count ==> Range(start, count)[i] == start + i
    decreases count
  {
    if count > 0 {
      RangeIsConsecutive(start + 1, count - 1);
    }
  }

  /** The font sizes the page offers. */
  function Sizes(): (r: seq<int>)
    ensures |r| == 72
    ensures forall i :: 0 <= i < |r| ==> r[i] == i + 1
  {
    RangeIsConsecutive(1, 72);
    Range(1, 72)
  }

  /** The offered sizes are 1 to 72, each once, in ascending order. */
  lemma SizesAreOneToSeventyTwo()
    ensures |Sizes()| == 72
    ensures Sizes()[0] == 1 && Sizes()[71] == 72
    ensures forall i :: 0 <= i < |Sizes()| ==> Sizes()[i] == i + 1
    ensures forall i, j :: 0 <= i < j < |Sizes()| ==> Sizes()[i] < Sizes()[j]
    ensures forall n :: 1 <= n <= 72 <==> n in Sizes()
  {
    RangeIsConsecutive(1, 72);
    forall n | 1 <= n <= 72
      ensures n in Sizes()
    {
      assert Sizes()[n - 1] == n;
    }
  }
}
