/**
 Types shared by the tab bar, the main page and the view converter:
 optional values, the exceptions the handlers can raise, terminal
 view-models identified by reference, drag items and drag payload values,
 and the two list operations the handlers use on view-model collections
 (`IndexOf` and `Remove`, both by reference equality).
 */
module Common {

  /** An unsigned 8-bit value; terminal ids are bytes. */
  type Byte = x: int | 0 <= x < 256

  datatype Option<T> = None | Some(value: T)

  /** The exceptions a handler can end with. A handler that faults does not
      return normally; what it had already changed is not modelled. */
  datatype Fault =
    | NullReference
    | InvalidCast
    | ArgumentOutOfRange
    | ArgumentNull
    | NotImplemented

  datatype Outcome<T> = Done(value: T) | Failed(fault: Fault)

  datatype Terminal = Terminal(id: Byte)

  /** A terminal view-model. `handle` is its object identity: two values
      with the same handle are the same object, and every collection in the
      application compares view-models by reference. The other fields are
      the links that the view converter clears when a terminal is removed. */
  datatype Vm = Vm(handle: nat, terminal: Option<Terminal>, hasXtermView: bool, hasOverlay: bool)

  /** An element of a drag operation's item list, which is typed `object`. */
  datatype DragItem = TerminalItem(vm: Vm) | NullItem | OtherItem

  /** A value stored in a drag data package's property bag. */
  datatype PayloadValue = Str(s: string) | ByteValue(b: Byte) | NullValue | OtherValue

  type Payload = map<string, PayloadValue>

  predicate Contains(s: seq<Vm>, h: nat)
  {
    exists k :: 0 <= k < |s| && s[k].handle == h
  }

  /** No view-model occurs twice in the list. */
  predicate Distinct(s: seq<Vm>)
  {
    forall i, j :: 0 <= i < j < |s| ==> s[i].handle != s[j].handle
  }

  /** Position of the first occurrence of the object `h`, or -1. */
  function IndexOf(s: seq<Vm>, h: nat): (i: int)
    ensures -1 <= i < |s|
    ensures i == -1 <==> !Contains(s, h)
    ensures 0 <= i ==> s[i].handle == h
    ensures forall k :: 0 <= k < i ==> s[k].handle != h
  {
    if |s| == 0 then -1
    else if s[0].handle == h then 0
    else
      var j := IndexOf(s[1..], h);
      if j == -1 then -1 else j + 1
  }

  /** Removes the first occurrence of the object `h`, if any. */
  function RemoveFirst(s: seq<Vm>, h: nat): (r: seq<Vm>)
    ensures !Contains(s, h) ==> r == s
    ensures Contains(s, h) ==> |r| == |s| - 1
    ensures Contains(s, h) ==> r == s[..IndexOf(s, h)] + s[IndexOf(s, h) + 1..]
  {
    if |s| == 0 then s
    else if s[0].handle == h then s[1..]
    else
      var rest := RemoveFirst(s[1..], h);
      assert Contains(s, h) ==> Contains(s[1..], h) by {
        if Contains(s, h) {
          var k :| 0 <= k < |s| && s[k].handle == h;
          assert s[1..][k - 1].handle == h;
        }
      }
      [s[0]] + rest
  }

  /** In a list without repetitions, removing an object removes every
      occurrence of it. */
  lemma RemoveFirstRemovesAll(s: seq<Vm>, h: nat)
    requires Distinct(s)
    ensures !Contains(RemoveFirst(s, h), h)
  {
  }

  /** Removing an object leaves every other object in the list. */
  lemma {:induction false} RemoveFirstKeepsOthers(s: seq<Vm>, h: nat, other: nat)
    requires other != h
    ensures Contains(RemoveFirst(s, h), other) <==> Contains(s, other)
  {
    var r := RemoveFirst(s, h);
    if Contains(s, h) {
      var i := IndexOf(s, h);
      if Contains(s, other) {
        var k :| 0 <= k < |s| && s[k].handle == other;
        if k < i {
          assert r[k] == s[k];
        } else {
          assert r[k - 1] == s[k];
        }
      }
      if Contains(r, other) {
        var k :| 0 <= k < |r| && r[k].handle == other;
        if k < i {
          assert r[k] == s[k];
        } else {
          assert r[k] == s[k + 1];
        }
      }
    }
  }
}
