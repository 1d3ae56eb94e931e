/** A plain JavaScript object with string keys: property lookup, assignment,
    spreading (`{...a, ...b}`) and the key order `Object.entries` reports
    (array-index keys first in ascending numeric order, then the other keys in
    creation order). */
module JsObject {
  import opened Wrappers
  import Lists
  import Sorting

  /** Own properties in creation order. */
  datatype Object<V> = Object(props: seq<(string, V)>)

  function Keys<V>(o: Object<V>): (ks: seq<string>)
    ensures |ks| == |o.props|
    decreases |o.props|
  {
    if o.props == [] then [] else [o.props[0].0] + Keys(Object(o.props[1..]))
  }

  /** No key is held twice. */
  predicate Valid<V>(o: Object<V>)
    decreases |o.props|
  {
    o.props == [] || (o.props[0].0 !in Keys(Object(o.props[1..])) && Valid(Object(o.props[1..])))
  }

  /** `o[k]` (`None` is `undefined`). */
  function Get<V>(o: Object<V>, k: string): (r: Option<V>)
    ensures r.None? <==> k !in Keys(o)
    decreases |o.props|
  {
    if o.props == [] then None
    else if o.props[0].0 == k then Some(o.props[0].1)
    else Get(Object(o.props[1..]), k)
  }

  /** `o[k] = v`: overwrites an existing property in place, or appends one. */
  function Set<V>(o: Object<V>, k: string, v: V): (r: Object<V>)
    requires Valid(o)
    ensures Valid(r)
    ensures Get(r, k) == Some(v)
    ensures forall k' :: k' != k ==> Get(r, k') == Get(o, k')
    ensures Keys(r) == if k in Keys(o) then Keys(o) else Keys(o) + [k]
    decreases |o.props|
  {
    if o.props == [] then Object([(k, v)])
    else if o.props[0].0 == k then
      var r := Object([(k, v)] + o.props[1..]);
      assert r.props[1..] == o.props[1..];
      r
    else
      var t := Set(Object(o.props[1..]), k, v);
      var r := Object([o.props[0]] + t.props);
      assert r.props[1..] == t.props;
      r
  }

  /** The value of the LAST property named `k` in a property list. */
  function LastValue<V>(props: seq<(string, V)>, k: string): Option<V> {
    if props == [] then None
    else if props[|props| - 1].0 == k then Some(props[|props| - 1].1)
    else LastValue(props[..|props| - 1], k)
  }

  /** Assigns the properties of `props` one after the other onto `o`. */
  function SetAll<V>(o: Object<V>, props: seq<(string, V)>): (r: Object<V>)
    requires Valid(o)
    ensures Valid(r)
  {
    if props == [] then o
    else Set(SetAll(o, props[..|props| - 1]), props[|props| - 1].0, props[|props| - 1].1)
  }

  /** After a run of assignments a property holds the last value assigned to
      it, or its earlier value when it was not assigned. */
  lemma {:induction false} SetAllGet<V>(o: Object<V>, props: seq<(string, V)>, k: string)
    requires Valid(o)
    ensures Get(SetAll(o, props), k) == if LastValue(props, k).Some? then LastValue(props, k) else Get(o, k)
  {
    if props != [] {
      SetAllGet(o, props[..|props| - 1], k);
    }
  }

  lemma {:induction false} LastValueCons<V>(x: (string, V), r: seq<(string, V)>, k: string)
    ensures LastValue([x] + r, k)
         == if LastValue(r, k).Some? then LastValue(r, k) else if x.0 == k then Some(x.1) else None
    decreases |r|
  {
    if r != [] {
      assert ([x] + r)[..|r|] == [x] + r[..|r| - 1];
      LastValueCons(x, r[..|r| - 1], k);
    }
  }

  lemma {:induction false} LastValueAbsent<V>(props: seq<(string, V)>, k: string)
    ensures LastValue(props, k).None? <==> k !in Keys(Object(props))
    decreases |props|
  {
    if props != [] {
      LastValueCons(props[0], props[1..], k);
      LastValueAbsent(props[1..], k);
      assert props == [props[0]] + props[1..];
    }
  }

  /** In an object without repeated keys the first and the last property named
      `k` are the same one. */
  lemma {:induction false} ValidLastValue<V>(o: Object<V>, k: string)
    requires Valid(o)
    ensures LastValue(o.props, k) == Get(o, k)
    decreases |o.props|
  {
    if o.props != [] {
      var rest := o.props[1..];
      LastValueCons(o.props[0], rest, k);
      ValidLastValue(Object(rest), k);
      assert o.props == [o.props[0]] + rest;
      if o.props[0].0 == k {
        LastValueAbsent(rest, k);
      }
    }
  }

  /** `{...o, ...p}`: the properties of `p`, in order, assigned onto a copy of `o`. */
  function Assign<V>(o: Object<V>, p: Object<V>): (r: Object<V>)
    requires Valid(o)
    ensures Valid(r)
  {
    SetAll(o, p.props)
  }

  /** Spreading: a property of the later object overrides the earlier one. */
  lemma AssignGet<V>(o: Object<V>, p: Object<V>, k: string)
    requires Valid(o) && Valid(p)
    ensures Get(Assign(o, p), k) == if Get(p, k).Some? then Get(p, k) else Get(o, k)
  {
    SetAllGet(o, p.props, k);
    ValidLastValue(p, k);
  }

  /** An object literal `{k0: v0, k1: v1, ...}`: a later duplicate key
      overwrites an earlier one. */
  function Literal<V>(props: seq<(string, V)>): (r: Object<V>)
    ensures Valid(r)
    ensures forall k :: Get(r, k) == LastValue(props, k)
  {
    var r := SetAll(Object([]), props);
    assert forall k :: Get(r, k) == LastValue(props, k) by {
      forall k ensures Get(r, k) == LastValue(props, k) { SetAllGet(Object([]), props, k); }
    }
    r
  }

  predicate IsDigit(c: char) { '0' <= c <= '9' }

  /** The value of a decimal numeral. */
  function DigitsValue(s: string): nat {
    if s == [] then 0
    else DigitsValue(s[..|s| - 1]) * 10 + (if IsDigit(s[|s| - 1]) then s[|s| - 1] as int - '0' as int else 0)
  }

  /** An array index: a canonical decimal numeral below 2^32 - 1. */
  predicate IsArrayIndex(k: string) {
    |k| > 0 && (forall i :: 0 <= i < |k| ==> IsDigit(k[i]))
    && (|k| == 1 || k[0] != '0')
    && DigitsValue(k) < 0xFFFF_FFFF
  }

  function IndexRank(k: string): int { DigitsValue(k) }

  predicate IsNamedKey(k: string) { !IsArrayIndex(k) }

  /** The key order of `Object.keys` / `Object.entries`. */
  function OwnKeys<V>(o: Object<V>): seq<string> {
    Sorting.SortBy(Lists.Filter(Keys(o), IsArrayIndex), IndexRank) + Lists.Filter(Keys(o), IsNamedKey)
  }

  /** `OwnKeys` lists every key exactly as often as the creation order does. */
  lemma OwnKeysPermutation<V>(o: Object<V>)
    ensures multiset(OwnKeys(o)) == multiset(Keys(o))
  {
    var indices := Lists.Filter(Keys(o), IsArrayIndex);
    var sorted := Sorting.SortBy(indices, IndexRank);
    Sorting.SortByOrderedPermutation(indices, IndexRank);
    Lists.FilterMultiset(Keys(o), IsArrayIndex);
    Lists.FilterMultiset(Keys(o), IsNamedKey);
    assert multiset(OwnKeys(o)) == multiset(sorted) + multiset(Lists.Filter(Keys(o), IsNamedKey));
  }

  /** The array-index keys come first ... */
  lemma OwnKeysIndicesFirst<V>(o: Object<V>)
    ensures var ks, n := OwnKeys(o), |Lists.Filter(Keys(o), IsArrayIndex)|;
            && n <= |ks|
            && (forall i :: 0 <= i < n ==> IsArrayIndex(ks[i]))
  {
    var indices := Lists.Filter(Keys(o), IsArrayIndex);
    var sorted := Sorting.SortBy(indices, IndexRank);
    Sorting.SortByOrderedPermutation(indices, IndexRank);
    forall i | 0 <= i < |sorted| ensures IsArrayIndex(sorted[i]) {
      assert sorted[i] in multiset(indices);
    }
  }

  /** ... in ascending numeric order, followed by the other keys in creation
      order. */
  lemma OwnKeysOrdered<V>(o: Object<V>)
    ensures var ks, n := OwnKeys(o), |Lists.Filter(Keys(o), IsArrayIndex)|;
            && n <= |ks|
            && (forall i, j :: 0 <= i < j < n ==> DigitsValue(ks[i]) <= DigitsValue(ks[j]))
            && ks[n..] == Lists.Filter(Keys(o), IsNamedKey)
  {
    Sorting.SortByOrderedPermutation(Lists.Filter(Keys(o), IsArrayIndex), IndexRank);
  }
}
