/** `Array.prototype.filter`, occurrence counting and first-occurrence
    de-duplication, used by several of the site's components. */
module Lists {

  /** `s.filter(p)`. */
  function Filter<T>(s: seq<T>, p: T -> bool): (r: seq<T>)
    ensures |r| <= |s|
    ensures forall i :: 0 <= i < |r| ==> p(r[i]) && r[i] in s
    ensures forall i :: 0 <= i < |s| && p(s[i]) ==> s[i] in r
  {
    if s == [] then []
    else (if p(s[0]) then [s[0]] else []) + Filter(s[1..], p)
  }

  /** Filtering distributes over concatenation: it keeps the kept elements in
      their original order. */
  lemma {:induction false} FilterAppend<T>(s: seq<T>, t: seq<T>, p: T -> bool)
    ensures Filter(s + t, p) == Filter(s, p) + Filter(t, p)
  {
    if s == [] {
      assert s + t == t;
    } else {
      var u := s + t;
      assert u[0] == s[0] && u[1..] == s[1..] + t;
      FilterAppend(s[1..], t, p);
      calc {
        Filter(u, p);
        (if p(s[0]) then [s[0]] else []) + Filter(s[1..] + t, p);
        (if p(s[0]) then [s[0]] else []) + (Filter(s[1..], p) + Filter(t, p));
      }
    }
  }

  lemma {:induction false} FilterMultiset<T>(s: seq<T>, p: T -> bool)
    ensures forall x :: multiset(Filter(s, p))[x] == if p(x) then multiset(s)[x] else 0
  {
    if s != [] {
      FilterMultiset(s[1..], p);
      assert s == [s[0]] + s[1..];
    }
  }

  /** What `filter(p)` keeps and what `filter(q)` keeps, for `q` the
      negation of `p`, add up to the whole list. */
  lemma {:induction false} FilterComplement<T>(s: seq<T>, p: T -> bool, q: T -> bool)
    requires forall x :: q(x) <==> !p(x)
    ensures |Filter(s, p)| + |Filter(s, q)| == |s|
  {
    if s != [] {
      FilterComplement(s[1..], p, q);
    }
  }

  /** `filter(p)` keeps the whole list exactly when every element passes. */
  lemma {:induction false} FilterKeepsAll<T>(s: seq<T>, p: T -> bool)
    ensures |Filter(s, p)| == |s| <==> forall i :: 0 <= i < |s| ==> p(s[i])
  {
    if s != [] {
      FilterKeepsAll(s[1..], p);
      assert forall i :: 1 <= i < |s| ==> s[i] == s[1..][i - 1];
      if forall i :: 0 <= i < |s| ==> p(s[i]) {
        assert forall i :: 0 <= i < |s[1..]| ==> p(s[1..][i]);
      } else if p(s[0]) {
        var i :| 0 <= i < |s| && !p(s[i]);
        assert !p(s[1..][i - 1]);
      } else {
        assert |Filter(s[1..], p)| <= |s[1..]|;
      }
    }
  }

  /** How many times `x` occurs in `s`. */
  function Occurrences<T(==)>(s: seq<T>, x: T): nat {
    if s == [] then 0 else (if s[0] == x then 1 else 0) + Occurrences(s[1..], x)
  }

  lemma {:induction false} OccurrencesSnoc<T>(s: seq<T>, y: T, x: T)
    ensures Occurrences(s + [y], x) == Occurrences(s, x) + (if y == x then 1 else 0)
  {
    if s != [] {
      OccurrencesSnoc(s[1..], y, x);
      assert (s + [y])[1..] == s[1..] + [y];
    }
  }

  lemma {:induction false} OccurrencesPositive<T>(s: seq<T>, x: T)
    ensures Occurrences(s, x) > 0 <==> x in s
  {
    if s != [] {
      OccurrencesPositive(s[1..], x);
      assert s == [s[0]] + s[1..];
    }
  }

  predicate NoDuplicates<T(==)>(s: seq<T>) {
    forall i, j :: 0 <= i < j < |s| ==> s[i] != s[j]
  }

  /** The elements of `s` in the order of their first occurrence. */
  function Distinct<T(==)>(s: seq<T>): (r: seq<T>)
    ensures NoDuplicates(r)
    ensures forall i :: 0 <= i < |s| ==> s[i] in r
    ensures forall i :: 0 <= i < |r| ==> r[i] in s
  {
    if s == [] then []
    else
      var r := Distinct(s[..|s| - 1]);
      assert s == s[..|s| - 1] + [s[|s| - 1]];
      if s[|s| - 1] in r then r else r + [s[|s| - 1]]
  }

  /** `r` lists its elements in the order they first occur in `s`: whatever
      comes before `r[j]` in `r` has already occurred in `s` before any
      occurrence of `r[j]`. */
  predicate InFirstOccurrenceOrder<T(==)>(s: seq<T>, r: seq<T>) {
    forall i, j, k :: 0 <= i < j < |r| && 0 <= k < |s| && s[k] == r[j] ==> r[i] in s[..k]
  }

  /** De-duplication keeps the order of first occurrence; together with the
      contract of `Distinct` this fixes its result completely. */
  lemma {:induction false} DistinctOrder<T>(s: seq<T>)
    ensures InFirstOccurrenceOrder(s, Distinct(s))
  {
    if s != [] {
      var p, x := s[..|s| - 1], s[|s| - 1];
      var r := Distinct(p);
      DistinctOrder(p);
      assert s == p + [x];
      var r' := Distinct(s);
      forall i, j, k | 0 <= i < j < |r'| && 0 <= k < |s| && s[k] == r'[j]
        ensures r'[i] in s[..k]
      {
        assert r'[i] == r[i];
        if k < |p| {
          assert p[k] == s[k] && p[..k] == s[..k];
        } else {
          assert s[..k] == p;
          assert r[i] in p;
        }
      }
    }
  }

  /** De-duplicating a list that has no duplicates changes nothing. */
  lemma {:induction false} DistinctIdentity<T>(s: seq<T>)
    requires NoDuplicates(s)
    ensures Distinct(s) == s
  {
    if s != [] {
      var p := s[..|s| - 1];
      DistinctIdentity(p);
      assert s[|s| - 1] !in p;
      assert p + [s[|s| - 1]] == s;
    }
  }

  /** Filtering keeps a list free of duplicates. */
  lemma FilterNoDuplicates<T>(s: seq<T>, p: T -> bool)
    requires NoDuplicates(s)
    ensures NoDuplicates(Filter(s, p))
  {
    FilterMultiset(s, p);
    NoDuplicatesMultiset(s);
    NoDuplicatesMultiset(Filter(s, p));
  }

  /** Appending an element not yet present keeps a list free of repeats. */
  lemma NoDuplicatesAppend<T>(s: seq<T>, x: T)
    requires NoDuplicates(s) && forall i :: 0 <= i < |s| ==> s[i] != x
    ensures NoDuplicates(s + [x])
  {
  }

  /** Filtering keeps everything when every element passes ... */
  lemma {:induction false} FilterAll<T>(s: seq<T>, p: T -> bool)
    requires forall i :: 0 <= i < |s| ==> p(s[i])
    ensures Filter(s, p) == s
  {
    if s != [] {
      FilterAll(s[1..], p);
      assert s == [s[0]] + s[1..];
    }
  }

  /** ... and nothing when no element passes. */
  lemma {:induction false} FilterNone<T>(s: seq<T>, p: T -> bool)
    requires forall i :: 0 <= i < |s| ==> !p(s[i])
    ensures Filter(s, p) == []
  {
    if s != [] {
      FilterNone(s[1..], p);
    }
  }

  /** A sequence is free of duplicates exactly when no element has
      multiplicity above one. */
  lemma {:induction false} NoDuplicatesMultiset<T>(s: seq<T>)
    ensures NoDuplicates(s) <==> forall x :: multiset(s)[x] <= 1
  {
    if s != [] {
      NoDuplicatesMultiset(s[1..]);
      assert s == [s[0]] + s[1..];
      if NoDuplicates(s) {
        assert NoDuplicates(s[1..]);
        assert s[0] !in s[1..];
      } else {
        var i, j :| 0 <= i < j < |s| && s[i] == s[j];
        if i == 0 {
          assert s[j] in s[1..];
          assert multiset(s)[s[0]] >= 2;
        } else {
          assert !NoDuplicates(s[1..]) by { assert s[1..][i - 1] == s[1..][j - 1]; }
          var x :| multiset(s[1..])[x] > 1;
          assert multiset(s)[x] > 1;
        }
      }
    }
  }

  /** Being free of duplicates survives any permutation. */
  lemma NoDuplicatesPermutation<T>(s: seq<T>, t: seq<T>)
    requires NoDuplicates(s) && multiset(s) == multiset(t)
    ensures NoDuplicates(t)
  {
    NoDuplicatesMultiset(s);
    NoDuplicatesMultiset(t);
  }

  /** Filtering a run that passes, then a run that fails, then the rest. */
  lemma FilterPassFailRest<T>(a: seq<T>, b: seq<T>, c: seq<T>, p: T -> bool)
    requires forall k :: 0 <= k < |a| ==> p(a[k])
    requires forall k :: 0 <= k < |b| ==> !p(b[k])
    ensures Filter(a + b + c, p) == a + Filter(c, p)
  {
    FilterAll(a, p);
    FilterNone(b, p);
    FilterAppend(a, b, p);
    assert a + [] == a;
    FilterAppend(a + b, c, p);
  }

  lemma Split3<T>(s: seq<T>, i: nat, j: nat)
    requires i <= j <= |s|
    ensures s == s[..i] + s[i..j] + s[j..]
  {
  }

  /** Filtering a sequence whose first `i` elements pass and whose elements
      from `i` to `j` fail: the passing prefix, then the filtered rest. */
  lemma FilterPassFail<T>(s: seq<T>, i: nat, j: nat, p: T -> bool)
    requires i <= j <= |s|
    requires forall k :: 0 <= k < i ==> p(s[k])
    requires forall k :: i <= k < j ==> !p(s[k])
    ensures Filter(s, p) == s[..i] + Filter(s[j..], p)
  {
    var a, b, c := s[..i], s[i..j], s[j..];
    forall k | 0 <= k < |a| ensures p(a[k]) {
      assert a[k] == s[k];
    }
    forall k | 0 <= k < |b| ensures !p(b[k]) {
      assert b[k] == s[i + k];
    }
    Split3(s, i, j);
    assert s == a + b + c;
    FilterPassFailRest(a, b, c, p);
  }

  /** `groups.flat()`: the groups one after another. */
  function Flatten<T>(groups: seq<seq<T>>): seq<T> {
    if groups == [] then [] else groups[0] + Flatten(groups[1..])
  }

  /** When every group has `k` elements, the flattened sequence has `k`
      times as many. */
  lemma {:induction false} FlattenLength<T>(groups: seq<seq<T>>, k: nat)
    requires forall i :: 0 <= i < |groups| ==> |groups[i]| == k
    ensures |Flatten(groups)| == k * |groups|
  {
    if groups != [] {
      FlattenLength(groups[1..], k);
      assert k * |groups| == k + k * (|groups| - 1);
    }
  }

  /** When every group has `k` elements, element `j` of group `i` sits at
      index `k * i + j` of the flattened sequence. */
  lemma {:induction false} FlattenAt<T>(groups: seq<seq<T>>, k: nat, i: nat, j: nat)
    requires forall g :: 0 <= g < |groups| ==> |groups[g]| == k
    requires i < |groups| && j < k
    ensures k * i + j < |Flatten(groups)| && Flatten(groups)[k * i + j] == groups[i][j]
  {
    FlattenLength(groups, k);
    if i > 0 {
      var rest := groups[1..];
      FlattenAt(rest, k, i - 1, j);
      assert k * i + j == k + (k * (i - 1) + j);
      assert groups[i] == rest[i - 1];
    }
  }
}
