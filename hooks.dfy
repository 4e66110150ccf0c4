/**
 * Hookr::Hook: a named extension point that owns a CallbackSet and delegates
 * to a parent hook. A null parent stands for the NullHook sentinel: no
 * callbacks, a total of 0, and execution that does nothing.
 */
module Hooks {
  import opened Wrappers
  import opened Events
  import opened Callbacks
  import opened CallbackSets

  /**
   * What one execute_callbacks did: the callbacks invoked, in order, and the
   * error that stopped it, if one did.
   */
  datatype Outcome = Outcome(trace: seq<Invocation>, failure: Option<Error>)

  /**
   * Calls the callbacks in order with the same event; the first one that raises
   * stops the run and its error propagates. Stated one callback at a time, as the
   * iteration does it: the run of a list is the run of all but its last callback,
   * then the last one if nothing failed before it.
   */
  function Run(cbs: seq<Callback>, e: Event): Outcome
  {
    if cbs == [] then Outcome([], None)
    else
      var o := Run(cbs[..|cbs| - 1], e);
      if o.failure.Some? then o
      else match Call(cbs[|cbs| - 1], e)
        case Failure(err) => Outcome(o.trace, Some(err))
        case Success(inv) => Outcome(o.trace + [inv], None)
  }

  /** Run of a list with one more callback at the end. */
  lemma RunSnoc(p: seq<Callback>, c: Callback, e: Event)
    ensures Run(p + [c], e) ==
      var o := Run(p, e);
      if o.failure.Some? then o
      else match Call(c, e)
        case Failure(err) => Outcome(o.trace, Some(err))
        case Success(inv) => Outcome(o.trace + [inv], None)
  {
    assert (p + [c])[..|p + [c]| - 1] == p && (p + [c])[|p + [c]| - 1] == c;
  }

  /**
   * What Run means: the trace is the successful calls of a prefix of the list,
   * in list order and each with the same event; the run is complete exactly
   * when nothing failed, and otherwise the error is that of the next callback.
   */
  lemma {:induction false} RunStopsAtFirstFailure(cbs: seq<Callback>, e: Event)
    ensures var o := Run(cbs, e);
      && |o.trace| <= |cbs|
      && (forall i :: 0 <= i < |o.trace| ==> Call(cbs[i], e) == Success(o.trace[i]))
      && (o.failure.None? <==> |o.trace| == |cbs|)
      && (o.failure.Some? ==> Call(cbs[|o.trace|], e) == Failure(o.failure.value))
  {
    if cbs != [] {
      var init, last := cbs[..|cbs| - 1], cbs[|cbs| - 1];
      RunStopsAtFirstFailure(init, e);
      var oi, o := Run(init, e), Run(cbs, e);
      forall i | 0 <= i < |init| ensures cbs[i] == init[i] { }
      if oi.failure.None? && Call(last, e).Success? {
        assert o.trace == oi.trace + [Call(last, e).value];
        forall i | 0 <= i < |o.trace| ensures Call(cbs[i], e) == Success(o.trace[i]) {
          if i < |oi.trace| {
            assert o.trace[i] == oi.trace[i];
          }
        }
      }
    }
  }

  /** When every callback of the list can be called, the run is complete and calls each in turn. */
  lemma {:induction false} RunWithoutFailure(cbs: seq<Callback>, e: Event)
    requires forall i :: 0 <= i < |cbs| ==> Call(cbs[i], e).Success?
    ensures Run(cbs, e).failure == None && |Run(cbs, e).trace| == |cbs|
    ensures forall i :: 0 <= i < |cbs| ==> Run(cbs, e).trace[i] == Call(cbs[i], e).value
  {
    RunStopsAtFirstFailure(cbs, e);
  }

  /**
   * When every callback of the list is internal, variadic, or declares exactly as
   * many parameters as the event has arguments, all of them run, in list order,
   * each with the event.
   */
  lemma RunWhenAritiesFit(cbs: seq<Callback>, e: Event)
    requires forall c :: c in cbs ==> c.body.Internal? || c.body.arity == -1 || c.body.arity == |e.arguments|
    ensures Run(cbs, e).failure == None && |Run(cbs, e).trace| == |cbs|
    ensures forall i :: 0 <= i < |cbs| ==> Run(cbs, e).trace[i].handle == cbs[i].handle && Run(cbs, e).trace[i].event == e
  {
    forall i | 0 <= i < |cbs| ensures Call(cbs[i], e).Success? {
      assert cbs[i] in cbs;
    }
    RunWithoutFailure(cbs, e);
  }

  /** When the first list fails, appending a second changes nothing: the second never runs. */
  lemma {:induction false} RunAppendAfterFailure(a: seq<Callback>, b: seq<Callback>, e: Event)
    requires Run(a, e).failure.Some?
    ensures Run(a + b, e) == Run(a, e)
    decreases |b|
  {
    if b == [] {
      assert a + b == a;
    } else {
      var init, last := b[..|b| - 1], b[|b| - 1];
      assert a + b == (a + init) + [last];
      RunAppendAfterFailure(a, init, e);
      RunSnoc(a + init, last, e);
    }
  }

  /** Running one list after another: the second runs only if the first did not fail. */
  lemma {:induction false} RunAppend(a: seq<Callback>, b: seq<Callback>, e: Event)
    ensures Run(a + b, e) ==
      var oa := Run(a, e);
      if oa.failure.Some? then oa
      else var ob := Run(b, e); Outcome(oa.trace + ob.trace, ob.failure)
    decreases |b|
  {
    if b == [] {
      assert a + b == a;
      assert Run(a, e).trace + [] == Run(a, e).trace;
    } else {
      var init, last := b[..|b| - 1], b[|b| - 1];
      assert a + b == (a + init) + [last];
      assert b == init + [last];
      RunAppend(a, init, e);
      RunSnoc(a + init, last, e);
      RunSnoc(init, last, e);
      var oa, oi := Run(a, e), Run(init, e);
      if oa.failure.None? && oi.failure.None? && Call(last, e).Success? {
        assert (oa.trace + oi.trace) + [Call(last, e).value] == oa.trace + (oi.trace + [Call(last, e).value]);
      }
    }
  }

  /** The callbacks run after step `i`: those run before it and callback `i`. */
  lemma PrefixGrows(before: seq<Callback>, own: seq<Callback>, i: nat)
    requires i < |own|
    ensures before + own[..i + 1] == (before + own[..i]) + [own[i]]
  {
    assert own[..i + 1] == own[..i] + [own[i]];
  }

  /**
   * One step of running `before + own`: after the first `i` own callbacks ran
   * without error, a successful call of callback `i` extends the run by its invocation.
   */
  lemma RunStepSucceeds(before: seq<Callback>, own: seq<Callback>, i: nat, e: Event)
    requires i < |own| && Run(before + own[..i], e).failure.None? && Call(own[i], e).Success?
    ensures Run(before + own[..i + 1], e) == Outcome(Run(before + own[..i], e).trace + [Call(own[i], e).value], None)
  {
    PrefixGrows(before, own, i);
    RunSnoc(before + own[..i], own[i], e);
  }

  /**
   * The other outcome of that step: a failing call of callback `i` ends the whole
   * run with its error, and none of the later callbacks runs.
   */
  lemma RunStepFails(before: seq<Callback>, own: seq<Callback>, i: nat, e: Event)
    requires i < |own| && Run(before + own[..i], e).failure.None? && Call(own[i], e).Failure?
    ensures Run(before + own, e) == Outcome(Run(before + own[..i], e).trace, Some(Call(own[i], e).error))
  {
    var upto := before + own[..i + 1];
    PrefixGrows(before, own, i);
    RunSnoc(before + own[..i], own[i], e);
    assert before + own == upto + own[i + 1..] by {
      assert own == own[..i + 1] + own[i + 1..];
    }
    RunAppendAfterFailure(upto, own[i + 1..], e);
  }

  /**
   * The iteration over one hook's own callbacks, continuing a run that has already
   * called `before`: each callback is called in turn with the event, and the
   * first failure ends the run with its error.
   */
  method CallEach(ghost before: seq<Callback>, own: seq<Callback>, sofar: Outcome, e: Event) returns (o: Outcome)
    requires sofar == Run(before, e)
    ensures o == Run(before + own, e)
  {
    o := sofar;
    if o.failure.Some? {
      RunAppendAfterFailure(before, own, e);
      return;
    }
    var i := 0;
    assert before + own[..0] == before;
    while i < |own|
      invariant 0 <= i <= |own|
      invariant o == Run(before + own[..i], e)
      invariant o.failure.None?
    {
      var c := Call(own[i], e);
      if c.Failure? {
        RunStepFails(before, own, i, e);
        return Outcome(o.trace, Some(c.error));
      }
      RunStepSucceeds(before, own, i, e);
      o := Outcome(o.trace + [c.value], None);
      i := i + 1;
    }
    assert own[..i] == own;
  }

  /** An identifier used as a hook name must be a Symbol. */
  function HookName(name: Value): (r: Result<string, Error>)
    ensures r.Success? <==> name.Sym?
    ensures r.Success? ==> Sym(r.value) == name
    ensures r.Failure? ==> r.error == AssertionFailure
  {
    if name.Sym? then Success(name.name) else Failure(AssertionFailure)
  }

  /** An index or Integer handle at or above `n` is still unused. */
  ghost predicate Below(cb: Callback, n: nat) {
    cb.index < n && (cb.handle.Int? ==> cb.handle.n < n)
  }

  /** The least counter value above the index and the Integer handle of `cb`. */
  function Past(cb: Callback): nat {
    if cb.handle.Int? && cb.handle.n > cb.index then cb.handle.n + 1 else cb.index + 1
  }

  class Hook {
    const name: string
    const parent: Hook?
    const callbacks: CallbackSet
    /** The next index to hand out; it only grows, so an index is never reused. */
    var nextIndex: nat
    /**
     * True while nothing was removed and the counter has equalled the own count
     * after every add: then the index a new callback gets is the one the
     * own-count rule gives.
     */
    ghost var appendOnly: bool
    /** Every object this hook reads besides itself: its set and the whole parent chain. */
    ghost const Repr: set<object>

    ghost predicate Valid()
      reads this, Repr
      decreases Repr
    {
      && callbacks in Repr
      && this !in Repr
      && callbacks.Valid()
      && (forall c :: c in callbacks.items ==> Below(c, nextIndex))
      && (appendOnly ==> nextIndex == |callbacks.items|)
      && (parent == null ==> Repr == {callbacks})
      && (parent != null ==>
            && Repr == {callbacks, parent} + parent.Repr
            && parent !in parent.Repr
            && callbacks !in parent.Repr
            && parent.Valid())
    }

    /** Hook.new(name, parent): a hook with no callbacks of its own; NullHook when no parent is given. */
    constructor (name: string, parent: Hook?)
      requires parent != null ==> parent.Valid()
      ensures Valid()
      ensures this.name == name && this.parent == parent
      ensures fresh(callbacks) && callbacks.items == [] && nextIndex == 0 && appendOnly
      ensures Repr == {callbacks} + (if parent == null then {} else {parent} + parent.Repr)
    {
      this.name := name;
      this.parent := parent;
      var own := new CallbackSet();
      callbacks := own;
      nextIndex := 0;
      appendOnly := true;
      Repr := {own} + (if parent == null then {} else {parent} + parent.Repr);
    }

    /** The callbacks execute_callbacks runs: the parent chain's, root first, then this hook's own. */
    function Chain(): seq<Callback>
      requires Valid()
      reads this, Repr
      decreases Repr
    {
      (if parent == null then [] else parent.Chain()) + callbacks.items
    }

    /** total_callbacks: the parent's total plus the own count; 0 at NullHook. */
    function TotalCallbacks(): (n: nat)
      requires Valid()
      reads this, Repr
      ensures n == |Chain()|
      ensures n >= |callbacks.items|
      decreases Repr
    {
      (if parent == null then 0 else parent.TotalCallbacks()) + |callbacks.items|
    }

    /** `==` and eql?: hooks are equal exactly when their names are. */
    predicate Equals(other: Hook)
    {
      name == other.name
    }

    /**
     * add_callback: inserts a ready-made callback and returns its handle. The
     * callback's index and handle must be new to this hook's own set.
     */
    method AddCallback(cb: Callback) returns (h: Handle)
      requires Valid() && Admits(callbacks.items, cb)
      modifies this, callbacks
      ensures Valid()
      ensures h == cb.handle
      ensures callbacks.items == InsertByIndex(old(callbacks.items), cb)
      ensures nextIndex == if old(nextIndex) < Past(cb) then Past(cb) else old(nextIndex)
      ensures Below(cb, nextIndex)
      ensures appendOnly == (old(appendOnly) && nextIndex == |callbacks.items|)
    {
      ghost var before := callbacks.items;
      InsertHoldsAll(before, cb);
      callbacks.Add(cb);
      if nextIndex < Past(cb) {
        nextIndex := Past(cb);
      }
      appendOnly := appendOnly && nextIndex == |callbacks.items|;
      forall c | c in callbacks.items ensures Below(c, nextIndex) {
        assert c in multiset(InsertByIndex(before, cb));
        assert c in before || c == cb;
      }
      h := cb.handle;
    }

    /**
     * The shared step of the add_*_callback methods: builds the callback with the
     * next index (its handle defaulting to that index) and appends it.
     */
    method AddNext(handle: Option<string>, body: Body) returns (h: Handle)
      requires Valid()
      requires handle.Some? ==> forall c :: c in callbacks.items ==> c.handle != Sym(handle.value)
      modifies this, callbacks
      ensures Valid()
      ensures h == if handle.Some? then Sym(handle.value) else Int(old(nextIndex))
      ensures callbacks.items == old(callbacks.items) + [Callback(h, old(nextIndex), body)]
      ensures nextIndex == old(nextIndex) + 1
      ensures old(appendOnly) ==> old(nextIndex) == |old(callbacks.items)|
      ensures appendOnly == old(appendOnly)
    {
      var index := nextIndex;
      var handleOrIndex: Handle := if handle.Some? then Sym(handle.value) else Int(index);
      var cb := Callback(handleOrIndex, index, body);
      InsertAboveAllAppends(callbacks.items, cb);
      h := AddCallback(cb);
    }

    /** add_external_callback: a block called with the arguments its arity asks for. */
    method AddExternalCallback(handle: Option<string>, arity: int) returns (h: Handle)
      requires Valid()
      requires handle.Some? ==> forall c :: c in callbacks.items ==> c.handle != Sym(handle.value)
      modifies this, callbacks
      ensures Valid()
      ensures h == if handle.Some? then Sym(handle.value) else Int(old(nextIndex))
      ensures callbacks.items == old(callbacks.items) + [Callback(h, old(nextIndex), External(arity))]
      ensures nextIndex == old(nextIndex) + 1
      ensures appendOnly == old(appendOnly)
    {
      h := AddNext(handle, External(arity));
    }

    /**
     * add_internal_callback: a block run with the source as self; a block that
     * declares parameters is refused and the hook is left as it was.
     */
    method AddInternalCallback(handle: Option<string>, arity: int) returns (r: Result<Handle, Error>)
      requires Valid()
      requires handle.Some? ==> forall c :: c in callbacks.items ==> c.handle != Sym(handle.value)
      modifies this, callbacks
      ensures Valid()
      ensures r.Failure? <==> arity != 0
      ensures r.Failure? ==>
                && r.error == ArityMismatch(arity, 0)
                && callbacks.items == old(callbacks.items) && nextIndex == old(nextIndex)
      ensures r.Success? ==>
                && r.value == (if handle.Some? then Sym(handle.value) else Int(old(nextIndex)))
                && callbacks.items == old(callbacks.items) + [Callback(r.value, old(nextIndex), Internal)]
                && nextIndex == old(nextIndex) + 1
      ensures appendOnly == old(appendOnly)
    {
      var handleOrIndex: Handle := if handle.Some? then Sym(handle.value) else Int(nextIndex);
      var made := NewInternalCallback(handleOrIndex, arity, nextIndex);
      if made.Failure? {
        return Failure(made.error);
      }
      var h := AddNext(handle, Internal);
      r := Success(h);
    }

    /** add_method_callback: an instance method of the source; its handle is the method name. */
    method AddMethodCallback(methodName: string, arity: int) returns (h: Handle)
      requires Valid()
      requires forall c :: c in callbacks.items ==> c.handle != Sym(methodName)
      modifies this, callbacks
      ensures Valid()
      ensures h == Sym(methodName)
      ensures callbacks.items == old(callbacks.items) + [Callback(h, old(nextIndex), Method(methodName, arity))]
      ensures nextIndex == old(nextIndex) + 1
      ensures appendOnly == old(appendOnly)
    {
      h := AddNext(Some(methodName), Method(methodName, arity));
    }

    /** remove_callback: by index or handle, from this hook's own set only. */
    method RemoveCallback(key: Handle)
      requires Valid()
      modifies this, callbacks
      ensures Valid()
      ensures callbacks.items == Without(old(callbacks.items), key)
      ensures nextIndex == old(nextIndex)
      ensures appendOnly == (old(appendOnly) && callbacks.items == old(callbacks.items))
      ensures parent != null ==> parent.Chain() == old(parent.Chain())
      ensures TotalCallbacks() == old(TotalCallbacks()) - (old(|callbacks.items|) - |callbacks.items|)
    {
      ghost var before := callbacks.items;
      WithoutMembers(before, key);
      callbacks.Remove(key);
      appendOnly := appendOnly && callbacks.items == before;
    }

    /**
     * execute_callbacks: the parent chain runs first, then the own callbacks in
     * ascending index order, each with the same event; an error stops everything.
     */
    method ExecuteCallbacks(e: Event) returns (o: Outcome)
      requires Valid()
      ensures o == Run(Chain(), e)
      decreases Repr
    {
      ghost var before: seq<Callback> := if parent == null then [] else parent.Chain();
      if parent == null {
        o := Outcome([], None);
      } else {
        o := parent.ExecuteCallbacks(e);
      }
      var own := callbacks.items;
      assert Chain() == before + own;
      o := CallEach(before, own, o, e);
    }

    /**
     * dup: a new hook with the same name whose parent is this hook and whose own
     * set is empty; this hook keeps its callbacks.
     */
    method Dup() returns (h: Hook)
      requires Valid()
      ensures fresh(h) && fresh(h.callbacks)
      ensures h.Valid()
      ensures h.name == name && h.parent == this && h.Equals(this)
      ensures h.callbacks.items == [] && h.nextIndex == 0 && h.appendOnly
      ensures h.Chain() == Chain() && h.TotalCallbacks() == TotalCallbacks()
    {
      h := new Hook(name, this);
    }
  }

  /** Hook.new with the name as given: anything but a Symbol fails the precondition check. */
  method NewHook(name: Value, parent: Hook?) returns (r: Result<Hook, Error>)
    requires parent != null ==> parent.Valid()
    ensures r.Failure? <==> !name.Sym?
    ensures r.Failure? ==> r.error == AssertionFailure
    ensures r.Success? ==>
              && fresh(r.value) && fresh(r.value.callbacks) && r.value.Valid() && Sym(r.value.name) == name
              && r.value.parent == parent && r.value.callbacks.items == []
              && r.value.nextIndex == 0 && r.value.appendOnly
  {
    match HookName(name)
    case Failure(err) =>
      r := Failure(err);
    case Success(n) =>
      var h := new Hook(n, parent);
      r := Success(h);
  }

  /**
   * Parent callbacks run before own callbacks: when the parent chain fails the own
   * callbacks do not run; otherwise the trace is the parent's followed by the own.
   */
  lemma ParentRunsFirst(h: Hook, e: Event)
    requires h.Valid() && h.parent != null
    ensures var op := Run(h.parent.Chain(), e);
      && (op.failure.Some? ==> Run(h.Chain(), e) == op)
      && (op.failure.None? ==>
            Run(h.Chain(), e) == Outcome(op.trace + Run(h.callbacks.items, e).trace, Run(h.callbacks.items, e).failure))
  {
    RunAppend(h.parent.Chain(), h.callbacks.items, e);
  }

  /**
   * `==` and eql? are an equivalence decided by the name alone: hooks with the same
   * name are equal whatever their parents and callbacks, and hooks with different
   * names are not.
   */
  lemma EqualityIsByName(a: Hook, b: Hook, c: Hook)
    ensures a.Equals(a)
    ensures a.Equals(b) <==> b.Equals(a)
    ensures a.Equals(b) && b.Equals(c) ==> a.Equals(c)
    ensures a.Equals(b) <==> a.name == b.name
  {
  }

  /** A run that nothing stopped invoked exactly total_callbacks callbacks. */
  lemma CompleteRunInvokesTotal(h: Hook, e: Event)
    requires h.Valid() && Run(h.Chain(), e).failure.None?
    ensures |Run(h.Chain(), e).trace| == h.TotalCallbacks()
  {
    RunStopsAtFirstFailure(h.Chain(), e);
  }
}
