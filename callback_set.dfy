/**
 * Hookr::CallbackSet: the callbacks one hook owns, kept in ascending index
 * order, looked up and removed by index (an Integer key) or by handle (a
 * Symbol key).
 */
module CallbackSets {
  import opened Wrappers
  import opened Events
  import opened Callbacks

  /** Iteration order: strictly ascending index (so indices are distinct). */
  ghost predicate Ordered(s: seq<Callback>) {
    forall i, j :: 0 <= i < j < |s| ==> s[i].index < s[j].index
  }

  /** No two callbacks of one set share a handle. */
  ghost predicate DistinctHandles(s: seq<Callback>) {
    forall i, j :: 0 <= i < j < |s| ==> s[i].handle != s[j].handle
  }

  ghost predicate WellFormed(s: seq<Callback>) {
    Ordered(s) && DistinctHandles(s)
  }

  /** `cb` can join `s` without clashing: both its index and its handle are new. */
  ghost predicate Admits(s: seq<Callback>, cb: Callback) {
    forall x :: x in s ==> x.index != cb.index && x.handle != cb.handle
  }

  /** No two elements of `xs` share an index or a handle. */
  ghost predicate Distinct(xs: seq<Callback>) {
    forall i, j :: 0 <= i < j < |xs| ==> xs[i].index != xs[j].index && xs[i].handle != xs[j].handle
  }

  /**
   * The dual key rule: an Integer key names an index, a Symbol key a handle. For
   * an anonymous callback, whose handle is its index, the two readings agree.
   */
  predicate Matches(cb: Callback, key: Handle): (r: bool)
    ensures cb.handle == Int(cb.index) ==> (r <==> cb.handle == key)
  {
    if key.Int? then cb.index == key.n else cb.handle == key
  }

  /** The set after `<<`: `cb` goes in front of the first callback with a larger index. */
  function InsertByIndex(s: seq<Callback>, cb: Callback): seq<Callback>
  {
    if s == [] || cb.index < s[0].index then [cb] + s
    else [s[0]] + InsertByIndex(s[1..], cb)
  }

  /** The set after removing every callback the key matches. */
  function Without(s: seq<Callback>, key: Handle): (r: seq<Callback>)
    ensures |r| <= |s|
  {
    if s == [] then []
    else if Matches(s[0], key) then Without(s[1..], key)
    else [s[0]] + Without(s[1..], key)
  }

  /** The set built by `<<` of each callback of `xs`, in the order given. */
  function InsertAll(xs: seq<Callback>): seq<Callback>
  {
    if xs == [] then [] else InsertByIndex(InsertAll(xs[..|xs| - 1]), xs[|xs| - 1])
  }

  /** `<<` adds `cb` and loses nothing. */
  lemma {:induction false} InsertHoldsAll(s: seq<Callback>, cb: Callback)
    ensures multiset(InsertByIndex(s, cb)) == multiset(s) + multiset{cb}
  {
    if s != [] && cb.index >= s[0].index {
      InsertHoldsAll(s[1..], cb);
      assert s == [s[0]] + s[1..];
    }
  }

  /** Removal keeps exactly the callbacks the key does not match. */
  lemma {:induction false} WithoutMembers(s: seq<Callback>, key: Handle)
    ensures forall x :: x in Without(s, key) <==> x in s && !Matches(x, key)
  {
    if s != [] {
      WithoutMembers(s[1..], key);
      assert s == [s[0]] + s[1..];
    }
  }

  /** `<<` holds the old callbacks and the new one, and nothing else. */
  lemma {:induction false} InsertMembers(s: seq<Callback>, cb: Callback)
    ensures forall x :: x in InsertByIndex(s, cb) <==> x in s || x == cb
  {
    if s != [] && cb.index >= s[0].index {
      InsertMembers(s[1..], cb);
      assert s == [s[0]] + s[1..];
    }
  }

  /** Putting a callback in front of a well-formed set whose indices are all larger keeps it well-formed. */
  lemma ConsWellFormed(h: Callback, t: seq<Callback>)
    requires WellFormed(t)
    requires forall x :: x in t ==> h.index < x.index && h.handle != x.handle
    ensures WellFormed([h] + t)
  {
    var r := [h] + t;
    forall i, j | 0 <= i < j < |r| ensures r[i].index < r[j].index && r[i].handle != r[j].handle {
      assert r[j] == t[j - 1] && t[j - 1] in t;
      if i > 0 {
        assert r[i] == t[i - 1];
      }
    }
  }

  lemma {:induction false} InsertKeepsWellFormed(s: seq<Callback>, cb: Callback)
    requires WellFormed(s) && Admits(s, cb)
    ensures WellFormed(InsertByIndex(s, cb))
  {
    if s == [] || cb.index < s[0].index {
      forall x | x in s ensures cb.index < x.index && cb.handle != x.handle {
        var k :| 0 <= k < |s| && s[k] == x;
        if k > 0 { assert s[0].index < s[k].index; }
      }
      ConsWellFormed(cb, s);
    } else {
      var t := s[1..];
      assert WellFormed(t);
      assert Admits(t, cb);
      InsertKeepsWellFormed(t, cb);
      InsertMembers(t, cb);
      assert s[0].index < cb.index by { assert s[0] in s; }
      forall x | x in InsertByIndex(t, cb) ensures s[0].index < x.index && s[0].handle != x.handle {
        if x != cb {
          var k :| 0 <= k < |t| && t[k] == x;
          assert s[k + 1] == x;
        } else {
          assert s[0] in s;
        }
      }
      ConsWellFormed(s[0], InsertByIndex(t, cb));
    }
  }

  /** Inserting a callback whose index is above every present index appends it. */
  lemma {:induction false} InsertAboveAllAppends(s: seq<Callback>, cb: Callback)
    requires forall x :: x in s ==> x.index < cb.index
    ensures InsertByIndex(s, cb) == s + [cb]
  {
    if s != [] {
      assert s[0] in s;
      InsertAboveAllAppends(s[1..], cb);
      assert s == [s[0]] + s[1..];
    }
  }

  /** `<<` passes over a callback whose index is not larger than the new one's. */
  lemma InsertPasses(s: seq<Callback>, cb: Callback, i: nat)
    requires i < |s| && s[i].index <= cb.index
    ensures s[..i] + InsertByIndex(s[i..], cb) == s[..i + 1] + InsertByIndex(s[i + 1..], cb)
  {
    assert s[i..][0] == s[i] && s[i..][1..] == s[i + 1..];
    assert s[..i + 1] == s[..i] + [s[i]];
  }

  /** `<<` stops in front of the first larger index, or at the end. */
  lemma InsertHere(s: seq<Callback>, cb: Callback, i: nat)
    requires i <= |s| && (i == |s| || cb.index < s[i].index)
    ensures InsertByIndex(s[i..], cb) == [cb] + s[i..]
  {
  }

  /** Removing keeps the set ordered with distinct handles. */
  lemma {:induction false} WithoutKeepsWellFormed(s: seq<Callback>, key: Handle)
    requires WellFormed(s)
    ensures WellFormed(Without(s, key))
  {
    if s != [] {
      var t := s[1..];
      assert WellFormed(t);
      WithoutKeepsWellFormed(t, key);
      if !Matches(s[0], key) {
        var rest := Without(t, key);
        WithoutMembers(t, key);
        forall x | x in rest ensures s[0].index < x.index && s[0].handle != x.handle {
          var k :| 0 <= k < |t| && t[k] == x;
          assert s[k + 1] == x;
        }
        ConsWellFormed(s[0], rest);
      }
    }
  }

  /** In a well-formed set a key matches at most one callback. */
  lemma AtMostOneMatch(s: seq<Callback>, key: Handle, i: int, j: int)
    requires WellFormed(s)
    requires 0 <= i < |s| && 0 <= j < |s|
    requires Matches(s[i], key) && Matches(s[j], key)
    ensures i == j
  {
  }

  /** Removal drops exactly one callback when the key is present and none otherwise. */
  lemma {:induction false} WithoutSize(s: seq<Callback>, key: Handle)
    requires WellFormed(s)
    ensures |Without(s, key)| == if exists x :: x in s && Matches(x, key) then |s| - 1 else |s|
  {
    if s != [] {
      var t := s[1..];
      assert WellFormed(t);
      WithoutSize(t, key);
      if Matches(s[0], key) {
        forall x | x in t ensures !Matches(x, key) {
          var k :| 0 <= k < |t| && t[k] == x;
          assert s[k + 1] == x;
          if Matches(x, key) { AtMostOneMatch(s, key, 0, k + 1); }
        }
      } else {
        assert (exists x :: x in s && Matches(x, key)) <==> (exists x :: x in t && Matches(x, key)) by {
          forall x | x in s && Matches(x, key) ensures x in t {
            var k :| 0 <= k < |s| && s[k] == x;
          }
        }
      }
    }
  }

  /** In an ordered set the index determines the position. */
  lemma IndexDeterminesPosition(s: seq<Callback>, i: int, j: int)
    requires Ordered(s) && 0 <= i < |s| && 0 <= j < |s| && s[i].index == s[j].index
    ensures i == j
  {
  }

  /** The head of an ordered set has the least index of its callbacks. */
  lemma HeadIsLeast(s: seq<Callback>, x: Callback)
    requires Ordered(s) && x in s
    ensures s[0].index <= x.index
  {
    var k :| 0 <= k < |s| && s[k] == x;
    if k > 0 {
      assert s[0].index < s[k].index;
    }
  }

  /** The tail of a non-empty sequence holds all but one occurrence of its head. */
  lemma MultisetOfTail(s: seq<Callback>)
    requires s != []
    ensures multiset(s[1..]) == multiset(s) - multiset{s[0]}
  {
    assert s == [s[0]] + s[1..];
  }

  /** Two ordered sequences holding the same callbacks are the same sequence. */
  lemma {:induction false} OrderedIsUnique(a: seq<Callback>, b: seq<Callback>)
    requires Ordered(a) && Ordered(b) && multiset(a) == multiset(b)
    ensures a == b
  {
    if a == [] {
      assert |b| == |multiset(b)| == 0;
    } else {
      assert |b| == |multiset(b)| == |a|;
      assert a[0] in multiset(b) && b[0] in multiset(a);
      HeadIsLeast(a, b[0]);
      HeadIsLeast(b, a[0]);
      var ka :| 0 <= ka < |a| && a[ka] == b[0];
      IndexDeterminesPosition(a, 0, ka);
      MultisetOfTail(a);
      MultisetOfTail(b);
      OrderedIsUnique(a[1..], b[1..]);
    }
  }

  /** Inserting distinct callbacks one by one gives a well-formed set holding exactly them. */
  lemma {:induction false} InsertAllWellFormed(xs: seq<Callback>)
    requires Distinct(xs)
    ensures WellFormed(InsertAll(xs)) && multiset(InsertAll(xs)) == multiset(xs)
  {
    if xs != [] {
      var init, last := xs[..|xs| - 1], xs[|xs| - 1];
      assert xs == init + [last];
      assert Distinct(init);
      InsertAllWellFormed(init);
      var s := InsertAll(init);
      forall x | x in s ensures x.index != last.index && x.handle != last.handle {
        assert x in multiset(s);
        assert x in multiset(init);
        var k :| 0 <= k < |init| && init[k] == x;
        assert xs[k] == x && k < |xs| - 1;
      }
      InsertKeepsWellFormed(s, last);
      InsertHoldsAll(s, last);
      calc {
        multiset(InsertAll(xs));
        multiset(InsertByIndex(s, last));
        multiset(s) + multiset{last};
        multiset(init) + multiset([last]);
        multiset(init + [last]);
      }
    }
  }

  /**
   * Iteration order does not depend on insertion order: any two insertion orders
   * of the same callbacks give the same sequence.
   */
  lemma InsertionOrderIrrelevant(xs: seq<Callback>, ys: seq<Callback>)
    requires Distinct(xs) && Distinct(ys) && multiset(xs) == multiset(ys)
    ensures InsertAll(xs) == InsertAll(ys)
  {
    InsertAllWellFormed(xs);
    InsertAllWellFormed(ys);
    OrderedIsUnique(InsertAll(xs), InsertAll(ys));
  }

  /** Within a well-formed set, position order agrees with Callback#<=>. */
  lemma OrderAgreesWithCompare(s: seq<Callback>, i: int, j: int)
    requires WellFormed(s) && 0 <= i < j < |s|
    ensures Compare(s[i], s[j]) == -1 && Compare(s[j], s[i]) == 1
  {
    assert s[i].index < s[j].index && s[i].handle != s[j].handle;
  }

  /** One step of the removal loop: the filter of a suffix, unfolded once. */
  lemma WithoutStep(s: seq<Callback>, key: Handle, i: int)
    requires 0 <= i < |s|
    ensures Without(s[i..], key)
            == (if Matches(s[i], key) then [] else [s[i]]) + Without(s[i + 1..], key)
  {
    assert s[i..][0] == s[i] && s[i..][1..] == s[i + 1..];
  }

  class CallbackSet {
    var items: seq<Callback>

    ghost predicate Valid()
      reads this
    {
      WellFormed(items)
    }

    constructor ()
      ensures Valid() && items == []
    {
      items := [];
    }

    /** `<<`: insert in index order. */
    method Add(cb: Callback)
      requires Valid() && Admits(items, cb)
      modifies this
      ensures Valid()
      ensures items == InsertByIndex(old(items), cb)
    {
      var s, i := items, 0;
      assert s[..0] == [] && s[0..] == s;
      while i < |s| && s[i].index <= cb.index
        invariant 0 <= i <= |s|
        invariant InsertByIndex(s, cb) == s[..i] + InsertByIndex(s[i..], cb)
      {
        InsertPasses(s, cb, i);
        i := i + 1;
      }
      InsertHere(s, cb, i);
      InsertKeepsWellFormed(s, cb);
      items := s[..i] + ([cb] + s[i..]);
    }

    /** `[]`: the callback whose index (Integer key) or handle (Symbol key) is `key`, or nil. */
    method Lookup(key: Handle) returns (r: Option<Callback>)
      ensures r.Some? ==> r.value in items && Matches(r.value, key)
      ensures r.None? <==> forall x :: x in items ==> !Matches(x, key)
    {
      var s, i := items, 0;
      while i < |s|
        invariant 0 <= i <= |s|
        invariant forall k :: 0 <= k < i ==> !Matches(s[k], key)
      {
        if Matches(s[i], key) {
          return Some(s[i]);
        }
        i := i + 1;
      }
      return None;
    }

    /** Removal by index or by handle; nothing happens when the key is absent. */
    method Remove(key: Handle)
      requires Valid()
      modifies this
      ensures Valid()
      ensures items == Without(old(items), key)
    {
      var s, kept, i := items, [], 0;
      while i < |s|
        invariant 0 <= i <= |s|
        invariant kept + Without(s[i..], key) == Without(s, key)
      {
        WithoutStep(s, key, i);
        if !Matches(s[i], key) {
          assert (kept + [s[i]]) + Without(s[i + 1..], key) == kept + ([s[i]] + Without(s[i + 1..], key));
          kept := kept + [s[i]];
        }
        i := i + 1;
      }
      assert s[i..] == [];
      assert kept == Without(s, key);
      WithoutKeepsWellFormed(s, key);
      items := kept;
    }
  }
}
