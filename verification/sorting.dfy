/** The stable, comparator-driven `Array.prototype.sort` the site applies to its
    collections, specialised to comparators of the form `rank(a) - rank(b)`:
    the result is ordered by non-decreasing rank and elements of equal rank keep
    their input order (ECMAScript requires `sort` to be stable). A descending
    comparator `key(b) - key(a)` is the rank `-key`. */
module Sorting {

  predicate Sorted<T>(s: seq<T>, rank: T -> int) {
    forall i, j :: 0 <= i < j < |s| ==> rank(s[i]) <= rank(s[j])
  }

  /** The elements of `s` whose rank is `k`, in their order in `s`. */
  function WithRank<T>(s: seq<T>, rank: T -> int, k: int): (r: seq<T>)
    ensures |r| <= |s|
  {
    if s == [] then []
    else (if rank(s[0]) == k then [s[0]] else []) + WithRank(s[1..], rank, k)
  }

  /** Inserts `x` after every element whose rank does not exceed its own. */
  function Insert<T>(x: T, s: seq<T>, rank: T -> int): seq<T> {
    if s == [] || rank(x) < rank(s[0]) then [x] + s
    else [s[0]] + Insert(x, s[1..], rank)
  }

  /** Insertion sort: the specification of the stable sort. */
  function SortBy<T>(s: seq<T>, rank: T -> int): seq<T> {
    if s == [] then [] else Insert(s[|s| - 1], SortBy(s[..|s| - 1], rank), rank)
  }

  lemma {:induction false} InsertPermutes<T>(x: T, s: seq<T>, rank: T -> int)
    ensures multiset(Insert(x, s, rank)) == multiset(s) + multiset{x}
  {
    if s != [] && rank(x) >= rank(s[0]) {
      InsertPermutes(x, s[1..], rank);
      assert s == [s[0]] + s[1..];
    }
  }

  lemma {:induction false} InsertKeeps<T>(x: T, s: seq<T>, rank: T -> int)
    requires Sorted(s, rank)
    ensures Sorted(Insert(x, s, rank), rank)
    ensures multiset(Insert(x, s, rank)) == multiset(s) + multiset{x}
  {
    InsertPermutes(x, s, rank);
    if s != [] && rank(x) >= rank(s[0]) {
      var r := Insert(x, s[1..], rank);
      InsertKeeps(x, s[1..], rank);
      InsertPermutes(x, s[1..], rank);
      forall m | 0 <= m < |r| ensures rank(s[0]) <= rank(r[m]) {
        assert r[m] in multiset(r);
        if r[m] != x {
          assert r[m] in multiset(s[1..]);
          var q :| 0 <= q < |s[1..]| && s[1..][q] == r[m];
          assert s[q + 1] == r[m];
        }
      }
      assert Insert(x, s, rank) == [s[0]] + r;
    }
  }

  /** The sort yields an ordered permutation of its input. */
  lemma {:induction false} SortByOrderedPermutation<T>(s: seq<T>, rank: T -> int)
    ensures Sorted(SortBy(s, rank), rank)
    ensures multiset(SortBy(s, rank)) == multiset(s)
    ensures |SortBy(s, rank)| == |s|
  {
    if s != [] {
      var p := s[..|s| - 1];
      SortByOrderedPermutation(p, rank);
      InsertKeeps(s[|s| - 1], SortBy(p, rank), rank);
      assert s == p + [s[|s| - 1]];
      assert |multiset(SortBy(s, rank))| == |SortBy(s, rank)|;
    }
  }

  lemma {:induction false} WithRankAppend<T>(s: seq<T>, t: seq<T>, rank: T -> int, k: int)
    ensures WithRank(s + t, rank, k) == WithRank(s, rank, k) + WithRank(t, rank, k)
  {
    if s == [] {
      assert s + t == t;
    } else {
      var u := s + t;
      assert u[0] == s[0] && u[1..] == s[1..] + t;
      WithRankAppend(s[1..], t, rank, k);
      var head := if rank(s[0]) == k then [s[0]] else [];
      calc {
        WithRank(u, rank, k);
        head + WithRank(s[1..] + t, rank, k);
        head + (WithRank(s[1..], rank, k) + WithRank(t, rank, k));
      }
    }
  }

  lemma {:induction false} WithRankInsert<T>(x: T, s: seq<T>, rank: T -> int, k: int)
    requires Sorted(s, rank)
    ensures WithRank(Insert(x, s, rank), rank, k)
         == WithRank(s, rank, k) + (if rank(x) == k then [x] else [])
  {
    if s == [] {
    } else if rank(x) < rank(s[0]) {
      WithRankInsertFront(x, s, rank, k);
    } else {
      WithRankInsert(x, s[1..], rank, k);
      WithRankCons(s[0], Insert(x, s[1..], rank), s[1..], if rank(x) == k then [x] else [], rank, k);
      assert s == [s[0]] + s[1..];
    }
  }

  /** `x` goes in front: every element of `s` ranks above it, so none has
      its rank. */
  lemma WithRankInsertFront<T>(x: T, s: seq<T>, rank: T -> int, k: int)
    requires Sorted(s, rank) && s != [] && rank(x) < rank(s[0])
    ensures WithRank(Insert(x, s, rank), rank, k)
         == WithRank(s, rank, k) + (if rank(x) == k then [x] else [])
  {
    if rank(x) == k {
      NoneWithRank(s, rank, k);
    }
    WithRankAppend([x], s, rank, k);
  }

  /** Putting the same element in front of both sides. */
  lemma WithRankCons<T>(y: T, r: seq<T>, t: seq<T>, extra: seq<T>, rank: T -> int, k: int)
    requires WithRank(r, rank, k) == WithRank(t, rank, k) + extra
    ensures WithRank([y] + r, rank, k) == WithRank([y] + t, rank, k) + extra
  {
    var head, wr, wt := WithRank([y], rank, k), WithRank(r, rank, k), WithRank(t, rank, k);
    calc {
      WithRank([y] + r, rank, k);
      { WithRankAppend([y], r, rank, k); }
      head + wr;
      head + (wt + extra);
      (head + wt) + extra;
      { WithRankAppend([y], t, rank, k); }
      WithRank([y] + t, rank, k) + extra;
    }
  }

  lemma {:induction false} NoneWithRank<T>(s: seq<T>, rank: T -> int, k: int)
    requires forall i :: 0 <= i < |s| ==> rank(s[i]) > k
    ensures WithRank(s, rank, k) == []
  {
    if s != [] { NoneWithRank(s[1..], rank, k); }
  }

  /** Stability: among elements of equal rank the input order survives. */
  lemma {:induction false} SortByStable<T>(s: seq<T>, rank: T -> int, k: int)
    ensures WithRank(SortBy(s, rank), rank, k) == WithRank(s, rank, k)
  {
    if s != [] {
      var p, x := s[..|s| - 1], s[|s| - 1];
      SortByStable(p, rank, k);
      SortByOrderedPermutation(p, rank);
      WithRankInsert(x, SortBy(p, rank), rank, k);
      assert s == p + [x];
      WithRankAppend(p, [x], rank, k);
    }
  }

  /** On an already ordered input the stable sort is the identity, so sorting
      the same (cached) array again on the next render changes nothing. */
  lemma {:induction false} SortBySortedIsIdentity<T>(s: seq<T>, rank: T -> int)
    requires Sorted(s, rank)
    ensures SortBy(s, rank) == s
  {
    if s != [] {
      var p, x := s[..|s| - 1], s[|s| - 1];
      SortBySortedIsIdentity(p, rank);
      InsertAt(x, p, rank, |p|);
      assert p[..|p|] + [x] + p[|p|..] == s;
    }
  }

  /** Where `Insert` puts `x`: right after the prefix whose ranks do not exceed
      `rank(x)`. */
  lemma {:induction false} InsertAt<T>(x: T, s: seq<T>, rank: T -> int, j: nat)
    requires Sorted(s, rank) && j <= |s|
    requires forall m :: 0 <= m < j ==> rank(s[m]) <= rank(x)
    requires forall m :: j <= m < |s| ==> rank(s[m]) > rank(x)
    ensures Insert(x, s, rank) == s[..j] + [x] + s[j..]
  {
    if j == 0 {
      assert s[j..] == s;
    } else {
      InsertAt(x, s[1..], rank, j - 1);
      assert s[..j] == [s[0]] + s[1..][..j - 1];
      assert s[j..] == s[1..][j - 1..];
    }
  }

  /** A sequence that agrees with `s` before `j`, holds `x` at `j` and agrees
      with `s` shifted by one after `j` is `s` with `x` spliced in at `j`. */
  lemma Spliced<T>(b: seq<T>, s: seq<T>, x: T, j: nat)
    requires j <= |s| && |b| == |s| + 1
    requires forall m :: 0 <= m < j ==> b[m] == s[m]
    requires b[j] == x
    requires forall m :: j < m < |b| ==> b[m] == s[m - 1]
    ensures b == s[..j] + [x] + s[j..]
  {
  }

  /** The swap loop of one insertion step: `a[i]` moves left past every
      strictly greater-ranked neighbour (ties are not passed) and comes to
      rest at `j`. */
  method ShiftLeft<T>(a: array<T>, i: nat, rank: T -> int) returns (j: nat)
    requires i < a.Length
    modifies a
    ensures j <= i && a[j] == old(a[i])
    ensures forall m :: 0 <= m < j ==> a[m] == old(a[m])
    ensures forall m :: j < m <= i ==> a[m] == old(a[m - 1])
    ensures forall m :: i < m < a.Length ==> a[m] == old(a[m])
    ensures forall m :: j <= m < i ==> rank(old(a[m])) > rank(old(a[i]))
    ensures j > 0 ==> rank(old(a[j - 1])) <= rank(old(a[i]))
  {
    j := i;
    while j > 0 && rank(a[j - 1]) > rank(a[j])
      invariant 0 <= j <= i
      invariant a[j] == old(a[i])
      invariant forall m :: 0 <= m < j ==> a[m] == old(a[m])
      invariant forall m :: j < m <= i ==> a[m] == old(a[m - 1])
      invariant forall m :: i < m < a.Length ==> a[m] == old(a[m])
      invariant forall m :: j <= m < i ==> rank(old(a[m])) > rank(old(a[i]))
    {
      a[j - 1], a[j] := a[j], a[j - 1];
      j := j - 1;
    }
  }

  /** The outcome of the swap loop, read as sequences: the first `i + 1`
      elements are the insertion of the old `a[i]` into the sorted prefix,
      and the rest is untouched. */
  lemma ShiftedIsInsert<T>(b: seq<T>, o: seq<T>, i: nat, j: nat, rank: T -> int)
    requires i < |o| == |b| && j <= i && Sorted(o[..i], rank)
    requires b[j] == o[i]
    requires forall m :: 0 <= m < j ==> b[m] == o[m]
    requires forall m :: j < m <= i ==> b[m] == o[m - 1]
    requires forall m :: i < m < |b| ==> b[m] == o[m]
    requires forall m :: j <= m < i ==> rank(o[m]) > rank(o[i])
    requires j > 0 ==> rank(o[j - 1]) <= rank(o[i])
    ensures b[..i + 1] == Insert(o[i], o[..i], rank)
    ensures b[i + 1..] == o[i + 1..]
  {
    var sorted, x := o[..i], o[i];
    forall m | 0 <= m < j ensures rank(sorted[m]) <= rank(x) {
      assert rank(sorted[m]) <= rank(sorted[j - 1]);
    }
    InsertAt(x, sorted, rank, j);
    Spliced(b[..i + 1], sorted, x, j);
  }

  /** One step of the in-place insertion sort. */
  method InsertStep<T>(a: array<T>, i: nat, rank: T -> int)
    requires i < a.Length && Sorted(a[..i], rank)
    modifies a
    ensures a[..i + 1] == Insert(old(a[i]), old(a[..i]), rank)
    ensures a[i + 1..] == old(a[i + 1..])
  {
    ghost var o := a[..];
    var j := ShiftLeft(a, i, rank);
    ShiftedIsInsert(a[..], o, i, j, rank);
    assert o[..i] == old(a[..i]) && o[i + 1..] == old(a[i + 1..]);
    assert a[..][..i + 1] == a[..i + 1] && a[..][i + 1..] == a[i + 1..];
  }

  /** The in-place insertion sort, proved to compute `SortBy`. */
  method SortInPlace<T>(a: array<T>, rank: T -> int)
    modifies a
    ensures a[..] == SortBy(old(a[..]), rank)
  {
    ghost var input := a[..];
    var i := 0;
    while i < a.Length
      invariant 0 <= i <= a.Length
      invariant a[..i] == SortBy(input[..i], rank)
      invariant a[i..] == input[i..]
    {
      SortByOrderedPermutation(input[..i], rank);
      assert a[i] == input[i];
      InsertStep(a, i, rank);
      assert input[..i + 1][..i] == input[..i];
      assert a[i + 1..] == input[i + 1..];
      i := i + 1;
    }
    assert input[..a.Length] == input;
  }
}
