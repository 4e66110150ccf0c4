/**
 * The behaviours the test suite describes, replayed on the model: each method
 * builds the hooks and sets a test builds and returns what the test looks at.
 * Four members replay no test: ReadyMadeHandleMovesCounter shows the counter
 * departing from the own-count rule after add_callback, and BuildAfterRemoval,
 * AfterRemovalRuns and IndexNeverReused show the corrected counter on an add
 * after a removal, which the suite never performs.
 */
module Scenarios {
  import opened Wrappers
  import opened Events
  import opened Callbacks
  import opened CallbackSets
  import opened Hooks

  /** Inserting :cb1 (index 1), :cb3 (index 3) and :cb2 (index 2), in that order, sorts them by index. */
  lemma InsertThree(cb1: Callback, cb2: Callback, cb3: Callback)
    requires cb1.index == 1 && cb2.index == 2 && cb3.index == 3
    ensures InsertByIndex([cb1], cb3) == [cb1, cb3]
    ensures InsertByIndex([cb1, cb3], cb2) == [cb1, cb2, cb3]
  {
    InsertAboveAllAppends([cb1], cb3);
    assert [cb1, cb3][1..] == [cb3];
    assert InsertByIndex([cb3], cb2) == [cb2, cb3];
  }

  /** The set the CallbackSet examples build: :cb1 (index 1), then :cb3 (index 3), then :cb2 (index 2). */
  method BuildThree(body: Body) returns (it: CallbackSet)
    ensures fresh(it) && it.Valid()
    ensures it.items == [Callback(Sym("cb1"), 1, body), Callback(Sym("cb2"), 2, body), Callback(Sym("cb3"), 3, body)]
  {
    var cb1, cb2, cb3 := Callback(Sym("cb1"), 1, body), Callback(Sym("cb2"), 2, body), Callback(Sym("cb3"), 3, body);
    InsertThree(cb1, cb2, cb3);
    it := new CallbackSet();
    it.Add(cb1);
    it.Add(cb3);
    it.Add(cb2);
  }

  /** Given :cb1, :cb3 and :cb2 in that order, the set iterates them by index. */
  method ThreeCallbacksSorted(body: Body) returns (all: seq<Callback>)
    ensures all == [Callback(Sym("cb1"), 1, body), Callback(Sym("cb2"), 2, body), Callback(Sym("cb3"), 3, body)]
    ensures forall i, j :: 0 <= i < j < |all| ==> Compare(all[i], all[j]) == -1
  {
    var it := BuildThree(body);
    all := it.items;
  }

  /** In that set, indices 1, 2 and 3 find :cb1, :cb2 and :cb3; index 4 finds nothing. */
  method LocateByIndex(body: Body)
    returns (at1: Option<Callback>, at2: Option<Callback>, at3: Option<Callback>, at4: Option<Callback>)
    ensures at1 == Some(Callback(Sym("cb1"), 1, body))
    ensures at2 == Some(Callback(Sym("cb2"), 2, body))
    ensures at3 == Some(Callback(Sym("cb3"), 3, body))
    ensures at4 == None
  {
    var it := BuildThree(body);
    assert it.items[0] in it.items && it.items[1] in it.items && it.items[2] in it.items;
    at1 := it.Lookup(Int(1));
    at2 := it.Lookup(Int(2));
    at3 := it.Lookup(Int(3));
    at4 := it.Lookup(Int(4));
  }

  /** In that set, the handles :cb1, :cb2 and :cb3 find their callbacks. */
  method LocateByHandle(body: Body)
    returns (named1: Option<Callback>, named2: Option<Callback>, named3: Option<Callback>)
    ensures named1 == Some(Callback(Sym("cb1"), 1, body))
    ensures named2 == Some(Callback(Sym("cb2"), 2, body))
    ensures named3 == Some(Callback(Sym("cb3"), 3, body))
  {
    var it := BuildThree(body);
    assert it.items[0] in it.items && it.items[1] in it.items && it.items[2] in it.items;
    named1 := it.Lookup(Sym("cb1"));
    named2 := it.Lookup(Sym("cb2"));
    named3 := it.Lookup(Sym("cb3"));
  }

  /** The own set of the hook :foo once its five callbacks of the selection are added. */
  function Selection(): seq<Callback>
  {
    [Callback(Int(0), 0, External(0)), Callback(Sym("my_external"), 1, External(0)),
     Callback(Int(2), 2, Internal), Callback(Sym("my_internal"), 3, Internal),
     Callback(Sym("my_method"), 4, Method("my_method", 0))]
  }

  /**
   * A hook :foo given an anonymous external, a named external (:my_external), an
   * anonymous internal, a named internal (:my_internal) and a method callback
   * (:my_method), in that order: the add methods return 0, :my_external, 2,
   * :my_internal and :my_method, and the anonymous handles are their indices.
   */
  method BuildSelection() returns (it: Hook, handles: seq<Handle>)
    ensures fresh(it) && it.Valid() && it.parent == null
    ensures handles == [Int(0), Sym("my_external"), Int(2), Sym("my_internal"), Sym("my_method")]
    ensures it.callbacks.items == Selection()
  {
    it := new Hook("foo", null);
    var anonExternal := it.AddExternalCallback(None, 0);
    var namedExternal := it.AddExternalCallback(Some("my_external"), 0);
    assert it.callbacks.items == Selection()[..2] && it.nextIndex == 2;
    var anonInternal := it.AddInternalCallback(None, 0);
    assert it.callbacks.items == Selection()[..3] && it.nextIndex == 3;
    var namedInternal := it.AddInternalCallback(Some("my_internal"), 0);
    assert it.callbacks.items == Selection()[..4] && it.nextIndex == 4;
    var methodHandle := it.AddMethodCallback("my_method", 0);
    handles := [anonExternal, namedExternal, anonInternal.value, namedInternal.value, methodHandle];
  }

  /** What executing the selection calls: each callback in order, with the event and no arguments. */
  function SelectionTrace(e: Event): seq<Invocation>
  {
    [Invocation(Int(0), e, BlockSelf, []), Invocation(Sym("my_external"), e, BlockSelf, []),
     Invocation(Int(2), e, Source(e.source), []), Invocation(Sym("my_internal"), e, Source(e.source), []),
     Invocation(Sym("my_method"), e, Bound(e.source, "my_method"), [])]
  }

  /** In the selection, the handle of the k-th callback finds that callback and no other. */
  lemma SelectionKeyFinds(k: nat, x: Callback)
    requires k < |Selection()|
    requires x in Selection() && Matches(x, Selection()[k].handle)
    ensures x == Selection()[k]
  {
  }

  /**
   * The selection: the add methods return its handles, `[]` with each returned
   * handle finds a callback of the intended kind, and the hook holds 5 callbacks.
   */
  method SelectionOfCallbacks() returns (handles: seq<Handle>, kinds: seq<Body>, own: nat)
    ensures handles == [Int(0), Sym("my_external"), Int(2), Sym("my_internal"), Sym("my_method")]
    ensures kinds == [External(0), External(0), Internal, Internal, Method("my_method", 0)]
    ensures own == 5
  {
    var it;
    it, handles := BuildSelection();
    var s := Selection();
    assert s[0] in it.callbacks.items && s[1] in it.callbacks.items && s[2] in it.callbacks.items;
    assert s[3] in it.callbacks.items && s[4] in it.callbacks.items;
    var found0 := it.callbacks.Lookup(handles[0]);
    SelectionKeyFinds(0, found0.value);
    var found1 := it.callbacks.Lookup(handles[1]);
    SelectionKeyFinds(1, found1.value);
    var found2 := it.callbacks.Lookup(handles[2]);
    SelectionKeyFinds(2, found2.value);
    var found3 := it.callbacks.Lookup(handles[3]);
    SelectionKeyFinds(3, found3.value);
    var found4 := it.callbacks.Lookup(handles[4]);
    SelectionKeyFinds(4, found4.value);
    kinds := [found0.value.body, found1.value.body, found2.value.body, found3.value.body, found4.value.body];
    own := |it.callbacks.items|;
  }

  /**
   * Executing the selection calls its callbacks in order of addition, each with
   * the event: the external blocks with their own self, the internal ones with the
   * source as self, the method bound to the source.
   */
  method ExecuteSelection(e: Event) returns (o: Outcome)
    requires e.arguments == []
    ensures o == Outcome(SelectionTrace(e), None)
  {
    var it, handles := BuildSelection();
    assert it.Chain() == Selection();
    o := it.ExecuteCallbacks(e);
    SelectionRuns(e);
  }

  /** With no arguments, every callback of the selection can be called, so all five run in order. */
  lemma SelectionRuns(e: Event)
    requires e.arguments == []
    ensures Run(Selection(), e) == Outcome(SelectionTrace(e), None)
  {
    var s := Selection();
    RunWhenAritiesFit(s, e);
    RunWithoutFailure(s, e);
    assert ToArgs(e, 0) == Success([]);
  }

  /** The chain of the child hook: the parent's callback :parent, then the child's own :child. */
  function ParentAndChild(): seq<Callback>
  {
    [Callback(Sym("parent"), 0, External(-1)), Callback(Sym("child"), 0, External(-1))]
  }

  /** A child hook whose parent holds :parent and which holds :child itself. */
  method BuildParentAndChild() returns (it: Hook)
    ensures fresh(it) && it.Valid() && it.parent != null
    ensures it.Chain() == ParentAndChild()
  {
    var pcb, ccb := Callback(Sym("parent"), 0, External(-1)), Callback(Sym("child"), 0, External(-1));
    var parent := new Hook("parent_hook", null);
    var ph := parent.AddCallback(pcb);
    assert parent.Chain() == [pcb];
    it := new Hook("child_hook", parent);
    var ch := it.AddCallback(ccb);
  }

  /** What executing the child calls: :parent, then :child, each a variadic block given the event and its arguments. */
  function ParentAndChildTrace(e: Event): seq<Invocation>
  {
    [Invocation(Sym("parent"), e, BlockSelf, [EventObj(e)] + e.arguments),
     Invocation(Sym("child"), e, BlockSelf, [EventObj(e)] + e.arguments)]
  }

  /** Both callbacks of the chain accept any event, so both run, the parent's first. */
  lemma ParentAndChildRun(e: Event)
    ensures Run(ParentAndChild(), e) == Outcome(ParentAndChildTrace(e), None)
  {
    var pcb, ccb := Callback(Sym("parent"), 0, External(-1)), Callback(Sym("child"), 0, External(-1));
    assert ParentAndChild() == [pcb] + [ccb];
    assert [pcb] == [] + [pcb];
    RunSnoc([], pcb, e);
    RunSnoc([pcb], ccb, e);
  }

  /**
   * Executing the child calls :parent and then :child, both with the event, and
   * the child reports 2 callbacks in total.
   */
  method ParentCallbacksFirst(e: Event) returns (total: nat, o: Outcome)
    ensures total == 2
    ensures o == Outcome(ParentAndChildTrace(e), None)
  {
    var it := BuildParentAndChild();
    total := it.TotalCallbacks();
    o := it.ExecuteCallbacks(e);
    ParentAndChildRun(e);
  }

  /**
   * dup of a hook holding :foo: the copy's parent is the original, the copy has
   * no callbacks of its own, and the original still has its one.
   */
  method Duplicated(body: Body) returns (parentIsOriginal: bool, childOwn: nat, parentOwn: nat, childTotal: nat)
    ensures parentIsOriginal && childOwn == 0 && parentOwn == 1 && childTotal == 1
  {
    var parent := new Hook("parent", null);
    var h := parent.AddCallback(Callback(Sym("foo"), 0, body));
    var child := parent.Dup();
    parentIsOriginal := child.parent == parent;
    childOwn := |child.callbacks.items|;
    parentOwn := |parent.callbacks.items|;
    childTotal := child.TotalCallbacks();
  }

  /**
   * Removal: an anonymous callback is removed by its index 0; named ones (:xyzzy,
   * and :my_callback, a parameterless block and so an internal callback) by their
   * handle. Each hook is left with no callbacks.
   */
  method RemoveByIndexAndByHandle(body: Body) returns (afterIndex: nat, afterHandle: nat, afterNamed: nat)
    ensures afterIndex == 0 && afterHandle == 0 && afterNamed == 0
  {
    var anonymous := new Hook("on_signal", null);
    var h0 := anonymous.AddExternalCallback(None, 3);
    anonymous.RemoveCallback(Int(0));
    afterIndex := |anonymous.callbacks.items|;

    var named := new Hook("on_signal", null);
    var h1 := named.AddExternalCallback(Some("xyzzy"), 3);
    named.RemoveCallback(Sym("xyzzy"));
    afterHandle := |named.callbacks.items|;

    var classLevel := new Hook("on_signal", null);
    var h2 := classLevel.AddInternalCallback(Some("my_callback"), 0);
    classLevel.RemoveCallback(Sym("my_callback"));
    afterNamed := |classLevel.callbacks.items|;
  }

  /** A hook :foo equals (== and eql?) another hook :foo that has a parent; :parent does not. */
  method EqualByName() returns (same: bool, different: bool)
    ensures same && !different
  {
    var it := new Hook("foo", null);
    var parent := new Hook("parent", null);
    var other := new Hook("foo", parent);
    same := it.Equals(other);
    different := it.Equals(parent);
  }

  /** Hook.new("foo"): a String name fails the Symbol check; Hook.new(:root_hook) has NullHook as parent and no callbacks. */
  method NamesMustBeSymbols() returns (stringName: Result<bool, Error>, rootHasNullParent: bool, rootTotal: nat)
    ensures stringName == Failure(AssertionFailure)
    ensures rootHasNullParent && rootTotal == 0
  {
    var r := NewHook(Str("foo"), null);
    stringName := if r.Success? then Success(true) else Failure(r.error);
    var root := NewHook(Sym("root_hook"), null);
    rootHasNullParent := root.value.parent == null;
    rootTotal := root.value.TotalCallbacks();
  }

  /** add_internal_callback with a one-parameter block fails and adds nothing. */
  method InternalWithParameterRefused() returns (r: Result<Handle, Error>, own: nat)
    ensures r == Failure(ArityMismatch(1, 0)) && own == 0
  {
    var it := new Hook("foo", null);
    r := it.AddInternalCallback(None, 1);
    own := |it.callbacks.items|;
  }

  /**
   * A hook on_signal fired with (:purple, :grape): a callback declaring
   * (event, color, flavor) receives the event and then :purple and :grape; a
   * callback declaring one parameter fails with an arity error.
   */
  method SignalWithTwoArguments(source: Value) returns (three: Outcome, one: Outcome)
    ensures var e := Event(source, "on_signal", [Sym("purple"), Sym("grape")]);
      && three.failure == None && |three.trace| == 1
      && three.trace[0].args == [EventObj(e), Sym("purple"), Sym("grape")]
      && three.trace[0].event.source == source
      && one == Outcome([], Some(ArityMismatch(1, 2)))
  {
    var e := Event(source, "on_signal", [Sym("purple"), Sym("grape")]);
    var hook := new Hook("on_signal", null);
    var h := hook.AddExternalCallback(None, 3);
    three := hook.ExecuteCallbacks(e);
    assert hook.Chain() == [Callback(Int(0), 0, External(3))];
    assert [EventObj(e)] + e.arguments == [EventObj(e), Sym("purple"), Sym("grape")];

    var other := new Hook("on_signal", null);
    var g := other.AddExternalCallback(None, 1);
    one := other.ExecuteCallbacks(e);
    assert other.Chain() == [Callback(Int(0), 0, External(1))];
  }

  /**
   * add_callback of a ready-made callback with handle 123 at index 0, on a fresh
   * hook, moves the counter past 123: the next anonymous add returns 124, where
   * the own-count rule would give 1.
   */
  method ReadyMadeHandleMovesCounter() returns (h: Handle, ownBefore: nat)
    ensures h == Int(124) && ownBefore == 1
  {
    var it := new Hook("foo", null);
    var first := it.AddCallback(Callback(Int(123), 0, External(0)));
    ownBefore := |it.callbacks.items|;
    h := it.AddExternalCallback(None, 0);
  }

  /** The own set after two anonymous adds, the removal of index 0 and a third anonymous add. */
  function AfterRemoval(): seq<Callback>
  {
    [Callback(Int(1), 1, External(0)), Callback(Int(2), 2, External(0))]
  }

  /**
   * The index counter: add two anonymous callbacks, remove index 0, add a third.
   * The add methods return 0, 1 and 2; the third callback's index and handle are
   * both 2, unused, and it comes last.
   */
  method BuildAfterRemoval() returns (it: Hook, handles: seq<Handle>)
    ensures fresh(it) && it.Valid() && it.parent == null
    ensures handles == [Int(0), Int(1), Int(2)]
    ensures it.callbacks.items == AfterRemoval()
  {
    it := new Hook("foo", null);
    var h0 := it.AddExternalCallback(None, 0);
    var h1 := it.AddExternalCallback(None, 0);
    var c1 := Callback(Int(1), 1, External(0));
    assert it.callbacks.items == [Callback(Int(0), 0, External(0)), c1];
    it.RemoveCallback(Int(0));
    assert it.callbacks.items == [c1];
    var h2 := it.AddExternalCallback(None, 0);
    handles := [h0, h1, h2];
  }

  /** Both remaining callbacks run on an event without arguments, index 1 first. */
  lemma AfterRemovalRuns(e: Event)
    requires e.arguments == []
    ensures Run(AfterRemoval(), e) == Outcome([Invocation(Int(1), e, BlockSelf, []), Invocation(Int(2), e, BlockSelf, [])], None)
  {
    var c1, c2 := Callback(Int(1), 1, External(0)), Callback(Int(2), 2, External(0));
    assert AfterRemoval() == [c1] + [c2];
    assert [c1] == [] + [c1];
    RunSnoc([], c1, e);
    RunSnoc([c1], c2, e);
  }

  /** After that removal and third add, execution calls index 1 and then index 2. */
  method IndexNeverReused(e: Event) returns (o: Outcome)
    requires e.arguments == []
    ensures o == Outcome([Invocation(Int(1), e, BlockSelf, []), Invocation(Int(2), e, BlockSelf, [])], None)
  {
    var it, handles := BuildAfterRemoval();
    assert it.Chain() == AfterRemoval();
    o := it.ExecuteCallbacks(e);
    AfterRemovalRuns(e);
  }
}
