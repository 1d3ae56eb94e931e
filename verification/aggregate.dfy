/** The `a || b || ...` reductions over per-resource loading flags and error
    values that the aggregating providers and hooks compute. */
module Aggregate {
  import opened Wrappers

  /** `f0 || f1 || ...` over boolean loading flags. */
  function AnyLoading(flags: seq<bool>): (r: bool)
    ensures r <==> exists i :: 0 <= i < |flags| && flags[i]
  {
    if flags == [] then false
    else if flags[0] then true
    else
      var r := AnyLoading(flags[1..]);
      assert forall i :: 1 <= i < |flags| ==> flags[i] == flags[1..][i - 1];
      r
  }

  /** `e0 || e1 || ...` over error values (`None` is `undefined`): the first
      error present, or none at all. */
  function FirstError<E(==)>(errors: seq<Option<E>>): (r: Option<E>)
    ensures r.None? <==> forall i :: 0 <= i < |errors| ==> errors[i].None?
    ensures r.Some? ==> exists i :: 0 <= i < |errors| && errors[i] == r
                          && forall j :: 0 <= j < i ==> errors[j].None?
  {
    if errors == [] then None
    else if errors[0].Some? then errors[0]
    else
      var r := FirstError(errors[1..]);
      assert forall i :: 1 <= i < |errors| ==> errors[i] == errors[1..][i - 1];
      if r.Some? then
        var i :| 0 <= i < |errors| - 1 && errors[1..][i] == r
                 && forall j :: 0 <= j < i ==> errors[1..][j].None?;
        assert errors[i + 1] == r;
        r
      else r
  }

  /** The first error of a list is its head when that is an error, and the
      first error of the rest otherwise. */
  lemma FirstErrorCons<E>(e: Option<E>, rest: seq<Option<E>>)
    ensures FirstError([e] + rest) == if e.Some? then e else FirstError(rest)
  {
    assert ([e] + rest)[1..] == rest;
  }

  /** A list has a loading flag set when its head is set or its rest has
      one. */
  lemma AnyLoadingCons(f: bool, rest: seq<bool>)
    ensures AnyLoading([f] + rest) == (f || AnyLoading(rest))
  {
    assert ([f] + rest)[1..] == rest;
  }
}
