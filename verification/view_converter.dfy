/**
 The converter that turns a terminal view-model into the view that displays
 it. Views are cached per view-model object, so a terminal keeps its view
 when the tab list is re-bound; removing a terminal drops its cache entry,
 detaches the view and clears the view-model's links, and logs the
 terminal's id in a list of removed terminals that `Convert` consults to
 no effect.
 */
module ViewConverter {
  import opened Common

  /** A terminal view; `id` is its object identity, `model` the handle of
      the view-model it was created for. */
  datatype View = View(id: nat, model: nat)

  /** The converter's state: the cache keyed by view-model handle, the ids
      of removed terminals in removal order, and the identity the next new
      view will get. */
  datatype Converter = Converter(views: map<nat, View>, removed: seq<Byte>, nextView: nat)

  /** A value handed to the converter by a binding. */
  datatype Input = VmInput(vm: Vm) | NullInput | OtherInput

  datatype Converted = Converted(conv: Converter, view: Option<View>)

  /** The result of a removal: the new state, the view-model with its links
      cleared, and the view that was detached from it, if one was cached. */
  datatype Removed = Removed(conv: Converter, vm: Vm, detached: Option<View>)

  datatype Empty = Empty

  /** Every cached view belongs to the view-model it is filed under, and
      every view identity handed out so far is below `nextView`. */
  predicate Valid(c: Converter)
  {
    forall h :: h in c.views ==> c.views[h].model == h && c.views[h].id < c.nextView
  }

  function NewView(c: Converter, h: nat): View
  {
    View(c.nextView, h)
  }

  /** Returns the cached view of a terminal view-model, creating and caching
      one the first time. Reading the terminal's id (for the removed-list
      check, which has no effect) faults once the view-model's terminal has
      been cleared. Anything that is not a terminal view-model converts to
      nothing. */
  function Convert(c: Converter, value: Input): (r: Outcome<Converted>)
    ensures !value.VmInput? ==> r == Done(Converted(c, None))
    ensures value.VmInput? && value.vm.terminal.None? ==> r == Failed(NullReference)
    ensures value.VmInput? && value.vm.terminal.Some? ==>
              && r.Done?
              && r.value.view.Some?
              && (Valid(c) ==> r.value.view.value.model == value.vm.handle)
              && r.value.conv.views.Keys == c.views.Keys + {value.vm.handle}
              && r.value.conv.views[value.vm.handle] == r.value.view.value
              && r.value.conv.removed == c.removed
              && (forall h :: h in c.views && h != value.vm.handle ==> r.value.conv.views[h] == c.views[h])
    ensures value.VmInput? && value.vm.handle in c.views && r.Done? ==>
              r.value == Converted(c, Some(c.views[value.vm.handle]))
    ensures value.VmInput? && value.vm.handle !in c.views && r.Done? ==>
              && |r.value.conv.views| == |c.views| + 1
              && (Valid(c) ==> forall h :: h in c.views ==> c.views[h].id != r.value.view.value.id)
  {
    match value
    case VmInput(vm) =>
      if vm.terminal.None? then Failed(NullReference)
      else if vm.handle in c.views then Done(Converted(c, Some(c.views[vm.handle])))
      else
        var v := NewView(c, vm.handle);
        Done(Converted(c.(views := c.views[vm.handle := v], nextView := c.nextView + 1), Some(v)))
    case _ => Done(Converted(c, None))
  }

  /** Drops a terminal from the cache. Its id is logged first, which faults
      when its terminal is already cleared. If it had a cached view, the
      xterm view's back-link is cleared, the view is detached, and the
      view-model's view, terminal and overlay are cleared. `hasXtermView`
      false stands for both ways the back-link step can fail: a missing view
      (a null reference) and a view of another type, for which the source's
      cast raises an invalid-cast exception instead; the model reports both
      as a null reference. */
  function RemoveTerminal(c: Converter, vm: Vm): (r: Outcome<Removed>)
    ensures vm.terminal.None? ==> r == Failed(NullReference)
    ensures vm.terminal.Some? && vm.handle in c.views && !vm.hasXtermView ==> r == Failed(NullReference)
    ensures r.Done? <==> vm.terminal.Some? && (vm.handle in c.views ==> vm.hasXtermView)
    ensures r.Done? ==>
              && vm.handle !in r.value.conv.views
              && r.value.conv.views == c.views - {vm.handle}
              && r.value.conv.removed == c.removed + [vm.terminal.value.id]
              && r.value.conv.nextView == c.nextView
    ensures r.Done? && vm.handle in c.views ==>
              && r.value.detached == Some(c.views[vm.handle])
              && r.value.vm == vm.(terminal := None, hasXtermView := false, hasOverlay := false)
    ensures r.Done? && vm.handle !in c.views ==>
              r.value.detached == None && r.value.vm == vm && r.value.conv.views == c.views
  {
    if vm.terminal.None? then Failed(NullReference)
    else
      var logged := c.removed + [vm.terminal.value.id];
      var rest := c.views - {vm.handle};
      if vm.handle in c.views then
        if !vm.hasXtermView then Failed(NullReference)
        else
          Done(Removed(c.(views := rest, removed := logged),
                       vm.(terminal := None, hasXtermView := false, hasOverlay := false),
                       Some(c.views[vm.handle])))
      else
        Done(Removed(c.(views := rest, removed := logged), vm, None))
  }

  /** Converting back from a view is not supported. */
  function ConvertBack(view: Option<View>): (r: Outcome<Empty>)
    ensures r == Failed(NotImplemented)
  {
    Failed(NotImplemented)
  }

  /** Both operations keep the cache well formed. */
  lemma OperationsPreserveValid(c: Converter, value: Input, vm: Vm)
    requires Valid(c)
    ensures Convert(c, value).Done? ==> Valid(Convert(c, value).value.conv)
    ensures RemoveTerminal(c, vm).Done? ==> Valid(RemoveTerminal(c, vm).value.conv)
  {
  }

  /** Converting the same view-model twice yields the same view, and the
      second conversion changes nothing. */
  lemma ConvertTwiceSameView(c: Converter, vm: Vm)
    requires vm.terminal.Some?
    ensures var r1 := Convert(c, VmInput(vm));
            var r2 := Convert(r1.value.conv, VmInput(vm));
            && r2 == Done(Converted(r1.value.conv, r1.value.view))
  {
  }

  /** A removed terminal is forgotten, and the removed list does not stop a
      view-model that was never cached from getting a fresh view afterwards:
      removing it logs its id and converting it still creates a view. */
  lemma RemovedListIgnored(c: Converter, vm: Vm)
    requires Valid(c)
    requires vm.terminal.Some? && vm.handle !in c.views
    ensures var r := RemoveTerminal(c, vm);
            && r.Done?
            && vm.terminal.value.id in r.value.conv.removed
            && var k := Convert(r.value.conv, VmInput(r.value.vm));
               && k.Done? && k.value.view.Some?
               && forall h :: h in c.views ==> c.views[h].id != k.value.view.value.id
  {
  }

  /** A view-model whose cached view was removed has lost its terminal, so
      converting it again faults instead of creating a new view. */
  lemma ConvertAfterRemoveFaults(c: Converter, vm: Vm)
    requires vm.terminal.Some? && vm.hasXtermView && vm.handle in c.views
    ensures var r := RemoveTerminal(c, vm);
            && r.Done?
            && Convert(r.value.conv, VmInput(r.value.vm)) == Failed(NullReference)
            && RemoveTerminal(r.value.conv, r.value.vm) == Failed(NullReference)
  {
  }

  /** Conversion has no inverse: no view the converter hands out, cached
      or fresh, can be turned back into its view-model. */
  lemma ConvertHasNoInverse(c: Converter, value: Input)
    requires Convert(c, value).Done?
    ensures ConvertBack(Convert(c, value).value.view) == Failed(NotImplemented)
  {
  }
}
