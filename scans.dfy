/**
 * Early-exit scans over a fixed list, the shape of Python's
 * `for x in xs: if p(x): return ...` and of `any(p(x) for x in xs)`.
 */
module Scans {
  import opened Wrappers

  /** Index of the first element of `xs` that satisfies `p`, or `None`. */
  function FirstWhere<T>(xs: seq<T>, p: T -> bool): (r: Option<nat>)
    ensures r.Some? ==> r.value < |xs| && p(xs[r.value])
    ensures r.Some? ==> forall j :: 0 <= j < r.value ==> !p(xs[j])
    ensures r.None? <==> forall j :: 0 <= j < |xs| ==> !p(xs[j])
  {
    if |xs| == 0 then None
    else if p(xs[0]) then Some(0)
    else
      match FirstWhere(xs[1..], p)
      case None => None
      case Some(k) => Some(k + 1)
  }

  /** `any(p(x) for x in xs)` */
  predicate Any<T>(xs: seq<T>, p: T -> bool) {
    exists k :: 0 <= k < |xs| && p(xs[k])
  }

  /** The first hit exists exactly when some element satisfies `p`. */
  lemma FirstWhereFindsAny<T>(xs: seq<T>, p: T -> bool)
    ensures FirstWhere(xs, p).Some? <==> Any(xs, p)
  {
    if FirstWhere(xs, p).None? {
      assert forall k :: 0 <= k < |xs| ==> !p(xs[k]);
    }
  }
}
