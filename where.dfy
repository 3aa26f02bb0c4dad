/**
 * numpy's `np.where(mask)` on a one-dimensional boolean mask: the ascending
 * list of positions whose entry equals a given value. The head uses it to
 * split the voxel proposal into occupied and empty voxels, and boolean-mask
 * indexing (`t[mask]`) selects elements in the same order.
 */
module Where {

  ghost predicate StrictlyIncreasing(s: seq<nat>)
  {
    forall i, j :: 0 <= i < j < |s| ==> s[i] < s[j]
  }

  /** The ascending positions i of `mask` with mask[i] == value. */
  function IndicesWhere(mask: seq<bool>, value: bool): (r: seq<nat>)
    ensures |r| <= |mask|
    ensures forall k :: 0 <= k < |r| ==> r[k] < |mask| && mask[r[k]] == value
    ensures StrictlyIncreasing(r)
  {
    if |mask| == 0 then []
    else
      var n := |mask| - 1;
      IndicesWhere(mask[..n], value) + (if mask[n] == value then [n] else [])
  }

  /** Number of entries equal to `value`, counted front to back. */
  function CountOf(mask: seq<bool>, value: bool): (c: nat)
    ensures c <= |mask|
  {
    if |mask| == 0 then 0
    else (if mask[0] == value then 1 else 0) + CountOf(mask[1..], value)
  }

  /** Number of entries equal to `value` strictly before position i. */
  function Rank(mask: seq<bool>, value: bool, i: nat): nat
    requires i <= |mask|
  {
    CountOf(mask[..i], value)
  }

  /** Every position holding `value` is listed: np.where misses nothing. */
  lemma {:induction false} IndicesWhereComplete(mask: seq<bool>, value: bool, i: nat)
    requires i < |mask| && mask[i] == value
    ensures i in IndicesWhere(mask, value)
  {
    var n := |mask| - 1;
    if i < n {
      assert mask[..n][i] == mask[i];
      IndicesWhereComplete(mask[..n], value, i);
    }
  }

  /** Membership in np.where's result, both directions. */
  lemma IndicesWhereMembership(mask: seq<bool>, value: bool)
    ensures forall i :: i in IndicesWhere(mask, value) <==> 0 <= i < |mask| && mask[i] == value
  {
    forall i | 0 <= i < |mask| && mask[i] == value
      ensures i in IndicesWhere(mask, value)
    {
      IndicesWhereComplete(mask, value, i);
    }
  }

  /** The list of a prefix is a prefix of the list of the whole mask. */
  lemma {:induction false} IndicesWherePrefix(mask: seq<bool>, value: bool, j: nat)
    requires j <= |mask|
    ensures IndicesWhere(mask[..j], value) <= IndicesWhere(mask, value)
    decreases |mask| - j
  {
    if j < |mask| {
      var n := |mask| - 1;
      assert mask[..n][..j] == mask[..j];
      IndicesWherePrefix(mask[..n], value, j);
    } else {
      assert mask[..j] == mask;
    }
  }

  /** The position of a `value` entry in np.where's list is its rank. */
  lemma WhereAtRank(mask: seq<bool>, value: bool, i: nat)
    requires i < |mask| && mask[i] == value
    ensures Rank(mask, value, i) < |IndicesWhere(mask, value)|
    ensures IndicesWhere(mask, value)[Rank(mask, value, i)] == i
  {
    var m := mask[..i + 1];
    assert m[..i] == mask[..i];
    assert IndicesWhere(m, value) == IndicesWhere(mask[..i], value) + [i];
    IndicesWhereLength(mask[..i], value);
    IndicesWherePrefix(mask, value, i + 1);
  }

  /** The list has exactly as many entries as the mask has `value` entries. */
  lemma {:induction false} IndicesWhereLength(mask: seq<bool>, value: bool)
    ensures |IndicesWhere(mask, value)| == CountOf(mask, value)
  {
    if |mask| > 0 {
      var n := |mask| - 1;
      IndicesWhereLength(mask[..n], value);
      CountOfLast(mask, value);
    }
  }

  lemma {:induction false} CountOfLast(mask: seq<bool>, value: bool)
    requires |mask| > 0
    ensures CountOf(mask, value)
         == CountOf(mask[..|mask| - 1], value) + (if mask[|mask| - 1] == value then 1 else 0)
  {
    if |mask| > 1 {
      var n := |mask| - 1;
      assert mask[1..][..n - 1] == mask[..n][1..];
      CountOfLast(mask[1..], value);
    }
  }

  /** The two value lists together are as long as the mask. */
  lemma {:induction false} IndicesWhereSplit(mask: seq<bool>)
    ensures |IndicesWhere(mask, true)| + |IndicesWhere(mask, false)| == |mask|
  {
    if |mask| > 0 {
      IndicesWhereSplit(mask[..|mask| - 1]);
    }
  }
}
