/**
 Python's `list.sort(key=..., reverse=...)` as a stable insertion sort over a
 total preorder `le`. An ascending sort by key `k` uses `k(a) <= k(b)`; a
 `reverse=True` sort uses `k(a) >= k(b)`: Python keeps equal keys in their
 original order in both directions, so both are stable sorts under `le`.
 */
module Sorting {
  import opened Wrappers

  ghost predicate Total<T(!new)>(le: (T, T) -> bool) {
    forall a, b :: le(a, b) || le(b, a)
  }

  ghost predicate Transitive<T(!new)>(le: (T, T) -> bool) {
    forall a, b, c :: le(a, b) && le(b, c) ==> le(a, c)
  }

  ghost predicate TotalPreorder<T(!new)>(le: (T, T) -> bool) {
    Total(le) && Transitive(le)
  }

  /** Every earlier element is `le` every later one. */
  predicate Sorted<T>(s: seq<T>, le: (T, T) -> bool) {
    forall i, j :: 0 <= i < j < |s| ==> le(s[i], s[j])
  }

  /** `a` and `b` have equal keys: neither sorts strictly before the other. */
  predicate Equivalent<T>(a: T, b: T, le: (T, T) -> bool) {
    le(a, b) && le(b, a)
  }

  /** The elements of `s` whose key equals that of `y`, in their order in `s`. */
  function Peers<T>(s: seq<T>, y: T, le: (T, T) -> bool): seq<T> {
    if s == [] then []
    else (if Equivalent(s[0], y, le) then [s[0]] else []) + Peers(s[1..], y, le)
  }

  /** `r` keeps the elements of `s` that have equal keys in their original order. */
  ghost predicate Stable<T(!new)>(s: seq<T>, r: seq<T>, le: (T, T) -> bool) {
    forall y :: Peers(r, y, le) == Peers(s, y, le)
  }

  /** A sorted sequence stays sorted with an element in front that is `le` its first one. */
  lemma ConsSorted<T(!new)>(h: T, t: seq<T>, le: (T, T) -> bool)
    requires Transitive(le)
    requires Sorted(t, le)
    requires t == [] || le(h, t[0])
    ensures Sorted([h] + t, le)
  {
  }

  /** Places `x` in front of the first element it is `le`, or at the end. */
  function Insert<T>(x: T, s: seq<T>, le: (T, T) -> bool): (r: seq<T>)
    ensures |r| == |s| + 1
    ensures multiset(r) == multiset(s) + multiset{x}
    ensures r[0] == x || (s != [] && r[0] == s[0])
  {
    if s == [] || le(x, s[0]) then [x] + s
    else
      assert s == [s[0]] + s[1..];
      [s[0]] + Insert(x, s[1..], le)
  }

  /** Insertion sort: each element, last first, is inserted into the sorted rest. */
  function Sort<T>(xs: seq<T>, le: (T, T) -> bool): (r: seq<T>)
    ensures multiset(r) == multiset(xs)
  {
    if xs == [] then []
    else
      assert xs == [xs[0]] + xs[1..];
      Insert(xs[0], Sort(xs[1..], le), le)
  }

  /** Inserting into a sorted sequence keeps it sorted. */
  lemma {:induction false} InsertSorted<T(!new)>(x: T, s: seq<T>, le: (T, T) -> bool)
    requires TotalPreorder(le)
    requires Sorted(s, le)
    ensures Sorted(Insert(x, s, le), le)
    decreases |s|
  {
    if s == [] || le(x, s[0]) {
      ConsSorted(x, s, le);
    } else {
      var t := Insert(x, s[1..], le);
      InsertSorted(x, s[1..], le);
      // `t` starts with `x` or `s[1]`, and `s[0]` is `le` both of them
      assert le(s[0], t[0]);
      ConsSorted(s[0], t, le);
    }
  }

  /** The sort orders its result. */
  lemma {:induction false} SortSorts<T(!new)>(xs: seq<T>, le: (T, T) -> bool)
    requires TotalPreorder(le)
    ensures Sorted(Sort(xs, le), le)
    decreases |xs|
  {
    if xs != [] {
      SortSorts(xs[1..], le);
      InsertSorted(xs[0], Sort(xs[1..], le), le);
    }
  }

  lemma {:induction false} PeersAppend<T>(a: seq<T>, b: seq<T>, y: T, le: (T, T) -> bool)
    ensures Peers(a + b, y, le) == Peers(a, y, le) + Peers(b, y, le)
    decreases |a|
  {
    if a == [] {
      assert a + b == b;
    } else {
      var head := if Equivalent(a[0], y, le) then [a[0]] else [];
      assert (a + b)[0] == a[0];
      assert (a + b)[1..] == a[1..] + b;
      calc {
        Peers(a + b, y, le);
        head + Peers(a[1..] + b, y, le);
        { PeersAppend(a[1..], b, y, le); }
        head + (Peers(a[1..], y, le) + Peers(b, y, le));
        (head + Peers(a[1..], y, le)) + Peers(b, y, le);
        Peers(a, y, le) + Peers(b, y, le);
      }
    }
  }

  /** Inserting `x` puts it in front of every element with the same key. */
  lemma {:induction false} InsertPeers<T(!new)>(x: T, s: seq<T>, y: T, le: (T, T) -> bool)
    requires TotalPreorder(le)
    ensures Peers(Insert(x, s, le), y, le) == Peers([x], y, le) + Peers(s, y, le)
    decreases |s|
  {
    if s == [] || le(x, s[0]) {
      PeersAppend([x], s, y, le);
    } else {
      var t := Insert(x, s[1..], le);
      var h := s[0];
      var px, p0 := Peers([x], y, le), Peers([h], y, le);
      // `x` and `h` are not equivalent, so at most one of them is a peer of `y`
      assert Transitive(le);
      assert [x][1..] == [] && [h][1..] == [];
      assert px == (if Equivalent(x, y, le) then [x] else []) + Peers([], y, le);
      assert p0 == (if Equivalent(h, y, le) then [h] else []) + Peers([], y, le);
      assert px == [] || p0 == [];
      assert s == [h] + s[1..];
      calc {
        Peers(Insert(x, s, le), y, le);
        Peers([s[0]] + t, y, le);
        { PeersAppend([s[0]], t, y, le); }
        p0 + Peers(t, y, le);
        { InsertPeers(x, s[1..], y, le); }
        p0 + (px + Peers(s[1..], y, le));
        px + (p0 + Peers(s[1..], y, le));
        { PeersAppend([s[0]], s[1..], y, le); }
        px + Peers(s, y, le);
      }
    }
  }

  /** The sort is stable: equal keys keep their original relative order. */
  lemma {:induction false} SortIsStable<T(!new)>(xs: seq<T>, le: (T, T) -> bool)
    requires TotalPreorder(le)
    ensures Stable(xs, Sort(xs, le), le)
    decreases |xs|
  {
    if xs != [] {
      var rest := Sort(xs[1..], le);
      SortIsStable(xs[1..], le);
      assert xs == [xs[0]] + xs[1..];
      forall y
        ensures Peers(Sort(xs, le), y, le) == Peers(xs, y, le)
      {
        calc {
          Peers(Sort(xs, le), y, le);
          Peers(Insert(xs[0], rest, le), y, le);
          { InsertPeers(xs[0], rest, y, le); }
          Peers([xs[0]], y, le) + Peers(rest, y, le);
          Peers([xs[0]], y, le) + Peers(xs[1..], y, le);
          { PeersAppend([xs[0]], xs[1..], y, le); }
          Peers(xs, y, le);
        }
      }
    }
  }

  /** Only elements of `s` that share `y`'s key are among its peers. */
  lemma {:induction false} PeersAreEquivalentMembers<T>(s: seq<T>, y: T, le: (T, T) -> bool, x: T)
    requires x in Peers(s, y, le)
    ensures x in s && Equivalent(x, y, le)
    decreases |s|
  {
    if s != [] && !(Equivalent(s[0], y, le) && x == s[0]) {
      PeersAreEquivalentMembers(s[1..], y, le, x);
    }
  }

  /** The head of a sequence is the first of its own peers. */
  lemma HeadIsOwnPeer<T(!new)>(s: seq<T>, le: (T, T) -> bool)
    requires Total(le)
    requires s != []
    ensures Peers(s, s[0], le) != [] && Peers(s, s[0], le)[0] == s[0]
  {
    assert Equivalent(s[0], s[0], le);
  }

  /** Sorted sequences with the same peers for every key start with the same element. */
  lemma SortedPeersSameHead<T(!new)>(r1: seq<T>, r2: seq<T>, le: (T, T) -> bool)
    requires TotalPreorder(le)
    requires Sorted(r1, le) && Sorted(r2, le)
    requires r1 != [] && r2 != []
    requires forall y :: Peers(r1, y, le) == Peers(r2, y, le)
    ensures r1[0] == r2[0]
  {
    var a, b := r1[0], r2[0];
    // each head occurs in the other sequence, so each is `le` the other
    HeadIsOwnPeer(r2, le);
    assert b in Peers(r1, b, le);
    PeersAreEquivalentMembers(r1, b, le, b);
    var k :| 0 <= k < |r1| && r1[k] == b;
    assert le(a, b) by {
      if k > 0 { assert le(r1[0], r1[k]); }
    }
    HeadIsOwnPeer(r1, le);
    assert a in Peers(r2, a, le);
    PeersAreEquivalentMembers(r2, a, le, a);
    var m :| 0 <= m < |r2| && r2[m] == a;
    assert le(b, a) by {
      if m > 0 { assert le(r2[0], r2[m]); }
    }
    // so `b` is a peer of `a`, and both heads are the first peer of `a`
    assert Peers(r2, a, le)[0] == b;
  }

  /**
   Two sorted sequences that list the elements of every key in the same order
   are the same sequence: sortedness fixes the order of the keys, and the
   peers fix the order within each key.
   */
  lemma {:induction false} SortedPeersUnique<T(!new)>(r1: seq<T>, r2: seq<T>, le: (T, T) -> bool)
    requires TotalPreorder(le)
    requires Sorted(r1, le) && Sorted(r2, le)
    requires forall y :: Peers(r1, y, le) == Peers(r2, y, le)
    ensures r1 == r2
    decreases |r1|
  {
    // a head is its own peer, so neither sequence is empty without the other
    if r1 != [] {
      HeadIsOwnPeer(r1, le);
      assert Peers(r2, r1[0], le) != [];
    }
    if r2 != [] {
      HeadIsOwnPeer(r2, le);
      assert Peers(r1, r2[0], le) != [];
    }
    if r1 != [] && r2 != [] {
      SortedPeersSameHead(r1, r2, le);
      var a := r1[0];
      forall y
        ensures Peers(r1[1..], y, le) == Peers(r2[1..], y, le)
      {
        var head := if Equivalent(a, y, le) then [a] else [];
        assert Peers(r1, y, le) == head + Peers(r1[1..], y, le);
        assert Peers(r2, y, le) == head + Peers(r2[1..], y, le);
        assert Peers(r1, y, le) == Peers(r2, y, le);
        assert Peers(r1[1..], y, le) == Peers(r1, y, le)[|head|..];
      }
      SortedPeersUnique(r1[1..], r2[1..], le);
      assert r1 == [a] + r1[1..] && r2 == [a] + r2[1..];
    }
  }

  /**
   The sort's result is the only sorted sequence that keeps equal keys in
   their input order, so any stable sort (Python's included) returns it.
   */
  lemma StableSortIsUnique<T(!new)>(xs: seq<T>, r: seq<T>, le: (T, T) -> bool)
    requires TotalPreorder(le)
    requires Sorted(r, le) && Stable(xs, r, le)
    ensures r == Sort(xs, le)
  {
    SortSorts(xs, le);
    SortIsStable(xs, le);
    SortedPeersUnique(r, Sort(xs, le), le);
  }

  /** The reason `list.sort` raises: `None < x` and `x < None` are type errors. */
  datatype SortError = NoneKeyCompared

  /**
   With two or more elements every key takes part in at least one comparison,
   so a sort raises exactly when it has two or more elements and one of them
   has no key; a single element is never compared.
   */
  predicate SortRaises<T>(xs: seq<T>, hasKey: T -> bool) {
    |xs| >= 2 && exists i :: 0 <= i < |xs| && !hasKey(xs[i])
  }

  /** `list.sort` on keys that may be absent: raises, or returns the stable sort. */
  function ListSort<T(!new)>(xs: seq<T>, le: (T, T) -> bool, hasKey: T -> bool): (r: Result<seq<T>, SortError>)
    requires TotalPreorder(le)
    ensures r.Failure? <==> SortRaises(xs, hasKey)
    ensures r.Success? ==> multiset(r.value) == multiset(xs) && Sorted(r.value, le)
    ensures r.Success? ==> Stable(xs, r.value, le)
    ensures r.Success? && |xs| >= 2 ==> forall i :: 0 <= i < |r.value| ==> hasKey(r.value[i])
  {
    if SortRaises(xs, hasKey) then Failure(NoneKeyCompared)
    else
      var s := Sort(xs, le);
      assert forall i :: 0 <= i < |s| ==> s[i] in multiset(xs);
      SortSorts(xs, le);
      SortIsStable(xs, le);
      Success(s)
  }
}
