/**
 * The own-count rule for assigning indices: a new callback's index is the
 * current size of the hook's own set, and an anonymous callback's handle is that
 * index. The test suite fixes indices only on hooks nothing was removed from.
 * On a hook with nothing removed and no ready-made callback that moved the
 * counter (`appendOnly`), this rule and the counter of Hooks.Hook agree. Once a
 * callback has been removed, the size no longer names an unused index.
 */
module SizeIndexing {
  import opened Wrappers
  import opened Events
  import opened Callbacks
  import opened CallbackSets
  import opened Hooks

  /** The callback add_*_callback builds under the size rule. */
  function SizeIndexed(own: seq<Callback>, handle: Option<string>, body: Body): Callback
  {
    Callback(if handle.Some? then Sym(handle.value) else Int(|own|), |own|, body)
  }

  /**
   * On a hook nothing was removed from and no ready-made callback moved the
   * counter past the own count, the next add builds exactly the callback the
   * own-count rule builds, and the hook stays in that state.
   */
  method AddNextAgreesWithSizeRule(h: Hook, handle: Option<string>, body: Body) returns (r: Handle)
    requires h.Valid() && h.appendOnly
    requires handle.Some? ==> forall c :: c in h.callbacks.items ==> c.handle != Sym(handle.value)
    modifies h, h.callbacks
    ensures h.Valid() && h.appendOnly
    ensures h.callbacks.items == old(h.callbacks.items) + [SizeIndexed(old(h.callbacks.items), handle, body)]
    ensures r == SizeIndexed(old(h.callbacks.items), handle, body).handle
  {
    r := h.AddNext(handle, body);
  }

  /** An anonymous add under the size rule. */
  function AddBySize(own: seq<Callback>, body: Body): seq<Callback>
  {
    InsertByIndex(own, SizeIndexed(own, None, body))
  }

  /**
   * Add two anonymous callbacks (indices 0 and 1), remove index 0, add a third:
   * it gets index 1 and handle 1, both already held by the survivor.
   */
  lemma {:induction false} SizeIndexCollidesAfterRemoval(body: Body)
    ensures var s := Without(AddBySize(AddBySize([], body), body), Int(0));
      && s == [Callback(Int(1), 1, body)]
      && SizeIndexed(s, None, body) == s[0]
      && !Admits(s, SizeIndexed(s, None, body))
  {
    var c0, c1 := Callback(Int(0), 0, body), Callback(Int(1), 1, body);
    TwoAnonymousAdds(body);
    assert [c0, c1][1..] == [c1] && [c1][1..] == [];
  }

  /** Two anonymous adds give indices 0 and 1. */
  lemma {:induction false} TwoAnonymousAdds(body: Body)
    ensures AddBySize(AddBySize([], body), body) == [Callback(Int(0), 0, body), Callback(Int(1), 1, body)]
  {
    var c0, c1 := Callback(Int(0), 0, body), Callback(Int(1), 1, body);
    assert AddBySize([], body) == [c0];
    assert SizeIndexed([c0], None, body) == c1;
    InsertAboveAllAppends([c0], c1);
  }

  /** Three anonymous adds give indices 0, 1 and 2. */
  lemma {:induction false} ThreeAnonymousAdds(body: Body)
    ensures AddBySize(AddBySize(AddBySize([], body), body), body)
         == [Callback(Int(0), 0, body), Callback(Int(1), 1, body), Callback(Int(2), 2, body)]
  {
    var c0, c1, c2 := Callback(Int(0), 0, body), Callback(Int(1), 1, body), Callback(Int(2), 2, body);
    TwoAnonymousAdds(body);
    assert SizeIndexed([c0, c1], None, body) == c2;
    InsertAboveAllAppends([c0, c1], c2);
    assert [c0, c1] + [c2] == [c0, c1, c2];
  }

  /**
   * Add three anonymous callbacks (indices 0, 1, 2), remove indices 0 and 1, add
   * a fourth: it gets index 1 and so runs before the callback added before it.
   */
  lemma {:induction false} SizeIndexReordersAfterRemoval(body: Body)
    ensures var s := Without(Without(AddBySize(AddBySize(AddBySize([], body), body), body), Int(0)), Int(1));
      && s == [Callback(Int(2), 2, body)]
      && AddBySize(s, body) == [Callback(Int(1), 1, body), Callback(Int(2), 2, body)]
  {
    var c0, c1, c2 := Callback(Int(0), 0, body), Callback(Int(1), 1, body), Callback(Int(2), 2, body);
    ThreeAnonymousAdds(body);
    assert Without([c0, c1, c2], Int(0)) == [c1, c2] by {
      assert [c0, c1, c2][1..] == [c1, c2] && [c1, c2][1..] == [c2] && [c2][1..] == [];
      assert Without([c2], Int(0)) == [c2];
      assert Without([c1, c2], Int(0)) == [c1] + Without([c2], Int(0));
    }
    assert Without([c1, c2], Int(1)) == [c2] by {
      assert [c1, c2][1..] == [c2] && [c2][1..] == [];
    }
    assert AddBySize([c2], body) == [c1, c2] by {
      assert SizeIndexed([c2], None, body) == c1;
    }
  }
}
