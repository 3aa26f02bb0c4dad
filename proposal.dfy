/**
 * The occupancy proposal of `SGNHeadOne.forward`: one flag per voxel in flat
 * order (the thresholded point-head logits, taken here as booleans). A
 * proposal with fewer than two occupied voxels is replaced by "everything
 * occupied"; the result is split into the ascending flat indices of occupied
 * voxels (`unmasked_idx`) and of empty ones (`masked_idx`).
 */
module Proposal {
  import opened Where

  /** `proposal.sum()`: the number of occupied voxels. */
  function Occupied(p: seq<bool>): nat
  {
    CountOf(p, true)
  }

  /** `np.ones_like(proposal)`. */
  function AllOccupied(n: nat): (p: seq<bool>)
    ensures |p| == n && forall i :: 0 <= i < n ==> p[i]
  {
    seq(n, _ => true)
  }

  /** The proposal after the fallback for an (almost) empty proposal. */
  function WithFallback(p: seq<bool>): (q: seq<bool>)
    ensures |q| == |p|
  {
    if Occupied(p) < 2 then AllOccupied(|p|) else p
  }

  datatype Partition = Partition(unmasked: seq<nat>, masked: seq<nat>)

  /** `unmasked_idx` and `masked_idx` for a proposal, fallback applied. */
  function Split(p: seq<bool>): (r: Partition)
  {
    var q := WithFallback(p);
    Partition(IndicesWhere(q, true), IndicesWhere(q, false))
  }

  /**
   * The split is a partition of 0..N-1 into two strictly increasing lists:
   * each index is in exactly one of them, and it is unmasked exactly when the
   * (fallback-applied) proposal marks it occupied.
   */
  lemma SplitIsPartition(p: seq<bool>)
    ensures var r := Split(p);
      && StrictlyIncreasing(r.unmasked) && StrictlyIncreasing(r.masked)
      && |r.unmasked| + |r.masked| == |p|
      && (forall i :: i in r.unmasked <==> 0 <= i < |p| && WithFallback(p)[i])
      && (forall i :: i in r.masked <==> 0 <= i < |p| && !WithFallback(p)[i])
      && (forall i :: 0 <= i < |p| ==> (i in r.unmasked <==> i !in r.masked))
  {
    var q := WithFallback(p);
    IndicesWhereMembership(q, true);
    IndicesWhereMembership(q, false);
    IndicesWhereSplit(q);
  }

  /** Fewer than two occupied voxels: every voxel becomes a seed. */
  lemma {:induction false} FallbackSelectsAll(p: seq<bool>)
    requires Occupied(p) < 2
    ensures Split(p).masked == []
    ensures Split(p).unmasked == seq(|p|, i => i)
  {
    var q := WithFallback(p);
    AllIndices(q);
    NoIndices(q);
  }

  lemma {:induction false} AllIndices(q: seq<bool>)
    requires forall i :: 0 <= i < |q| ==> q[i]
    ensures IndicesWhere(q, true) == seq(|q|, i => i)
  {
    if |q| > 0 {
      AllIndices(q[..|q| - 1]);
    }
  }

  lemma {:induction false} NoIndices(q: seq<bool>)
    requires forall i :: 0 <= i < |q| ==> q[i]
    ensures IndicesWhere(q, false) == []
  {
    if |q| > 0 {
      NoIndices(q[..|q| - 1]);
    }
  }

  /** At least two occupied voxels: the proposal is used as it is. */
  lemma FallbackKeeps(p: seq<bool>)
    requires Occupied(p) >= 2
    ensures Split(p) == Partition(IndicesWhere(p, true), IndicesWhere(p, false))
  {
  }

  /** After the fallback, a grid of two or more voxels has at least two seeds. */
  lemma {:induction false} AtLeastTwoSeeds(p: seq<bool>)
    requires |p| >= 2
    ensures |Split(p).unmasked| >= 2
  {
    var q := WithFallback(p);
    IndicesWhereLength(q, true);
    if Occupied(p) < 2 {
      AllOccupiedCount(|p|);
    }
  }

  lemma {:induction false} AllOccupiedCount(n: nat)
    ensures Occupied(AllOccupied(n)) == n
  {
    if n > 0 {
      assert AllOccupied(n)[1..] == AllOccupied(n - 1);
      AllOccupiedCount(n - 1);
    }
  }
}
