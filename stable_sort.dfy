/**
 * Python's `sorted(items, key=k, reverse=True)`, which is stable: items
 * with a higher key come first and items with equal keys keep their
 * original order. The sort is modelled on item positions, so the result is
 * a reordering of `0 .. n-1`.
 */
module StableSort {

  /** Position `i` comes before position `j`: a higher key, or an equal key and an earlier position. */
  predicate Precedes(keys: seq<nat>, i: nat, j: nat)
    requires i < |keys| && j < |keys|
  {
    keys[i] > keys[j] || (keys[i] == keys[j] && i < j)
  }

  lemma PrecedesTransitive(keys: seq<nat>, i: nat, j: nat, k: nat)
    requires i < |keys| && j < |keys| && k < |keys|
    requires Precedes(keys, i, j) && Precedes(keys, j, k)
    ensures Precedes(keys, i, k)
  {
  }

  predicate IndicesBelow(r: seq<nat>, n: nat) {
    forall p :: 0 <= p < |r| ==> r[p] < n
  }

  /** Every earlier entry of `r` comes before every later one. */
  predicate OrderedBy(keys: seq<nat>, r: seq<nat>)
    requires IndicesBelow(r, |keys|)
  {
    forall p, q :: 0 <= p < q < |r| ==> Precedes(keys, r[p], r[q])
  }

  /** Inserts position `x` just before the first entry it comes before. */
  function Insert(keys: seq<nat>, sorted: seq<nat>, x: nat): (r: seq<nat>)
    requires x < |keys| && IndicesBelow(sorted, |keys|)
    ensures |r| == |sorted| + 1
    ensures forall y :: y in r <==> y in sorted || y == x
    ensures IndicesBelow(r, |keys|)
  {
    if |sorted| == 0 then [x]
    else if Precedes(keys, x, sorted[0]) then [x] + sorted
    else
      var rest := Insert(keys, sorted[1..], x);
      assert forall y :: y in sorted <==> y == sorted[0] || y in sorted[1..];
      [sorted[0]] + rest
  }

  /** An ordered sequence stays ordered behind a position that comes before all of it. */
  lemma PrependOrdered(keys: seq<nat>, h: nat, rest: seq<nat>)
    requires h < |keys| && IndicesBelow(rest, |keys|) && OrderedBy(keys, rest)
    requires forall q :: 0 <= q < |rest| ==> Precedes(keys, h, rest[q])
    ensures IndicesBelow([h] + rest, |keys|) && OrderedBy(keys, [h] + rest)
  {
    var r := [h] + rest;
    forall p, q | 0 <= p < q < |r| ensures Precedes(keys, r[p], r[q]) {
      assert r[q] == rest[q - 1];
      if p > 0 { assert r[p] == rest[p - 1]; }
    }
  }

  /** The first entry of an ordered sequence comes before each of the others. */
  lemma HeadPrecedesTail(keys: seq<nat>, sorted: seq<nat>, y: nat)
    requires IndicesBelow(sorted, |keys|) && OrderedBy(keys, sorted)
    requires |sorted| > 0 && y in sorted[1..]
    ensures y < |keys| && Precedes(keys, sorted[0], y)
  {
    var k :| 0 <= k < |sorted[1..]| && sorted[1..][k] == y;
    assert sorted[k + 1] == y;
  }

  /** Inserting a position not already present keeps the order. */
  lemma {:induction false} InsertOrdered(keys: seq<nat>, sorted: seq<nat>, x: nat)
    requires x < |keys| && IndicesBelow(sorted, |keys|)
    requires OrderedBy(keys, sorted)
    requires x !in sorted
    ensures OrderedBy(keys, Insert(keys, sorted, x))
  {
    if |sorted| == 0 {
    } else if Precedes(keys, x, sorted[0]) {
      forall q | 0 <= q < |sorted| ensures Precedes(keys, x, sorted[q]) {
        if q > 0 { PrecedesTransitive(keys, x, sorted[0], sorted[q]); }
      }
      PrependOrdered(keys, x, sorted);
    } else {
      var rest := Insert(keys, sorted[1..], x);
      assert x !in sorted[1..];
      InsertOrdered(keys, sorted[1..], x);
      forall q | 0 <= q < |rest| ensures Precedes(keys, sorted[0], rest[q]) {
        assert rest[q] in rest;
        if rest[q] != x { HeadPrecedesTail(keys, sorted, rest[q]); }
      }
      PrependOrdered(keys, sorted[0], rest);
    }
  }

  /** The positions `0 .. n-1` as `sorted` returns them. */
  function SortIndices(keys: seq<nat>, n: nat): (r: seq<nat>)
    requires n <= |keys|
    ensures |r| == n
    ensures IndicesBelow(r, |keys|)
    ensures forall i: nat :: i in r <==> i < n
  {
    if n == 0 then [] else Insert(keys, SortIndices(keys, n - 1), n - 1)
  }

  /** The sort puts the positions in the stable descending order. */
  lemma {:induction false} SortIndicesOrdered(keys: seq<nat>, n: nat)
    requires n <= |keys|
    ensures OrderedBy(keys, SortIndices(keys, n))
  {
    if n > 0 {
      SortIndicesOrdered(keys, n - 1);
      InsertOrdered(keys, SortIndices(keys, n - 1), n - 1);
    }
  }

  /** Every position below `n` appears in the sort exactly once. */
  lemma SortIndicesDistinct(keys: seq<nat>, n: nat)
    requires n <= |keys|
    ensures forall p, q :: 0 <= p < q < n ==> SortIndices(keys, n)[p] != SortIndices(keys, n)[q]
  {
    SortIndicesOrdered(keys, n);
  }

  /** Whatever is among the first `k` comes before whatever is not: the top-`k` selection. */
  lemma TopK(keys: seq<nat>, n: nat, k: nat, p: nat, q: nat)
    requires n <= |keys| && p < k <= q < n
    ensures Precedes(keys, SortIndices(keys, n)[p], SortIndices(keys, n)[q])
  {
    SortIndicesOrdered(keys, n);
  }
}
