/**
 * The sparse-to-dense part of `SGNHeadOne.forward`: seed features are
 * gathered at the occupied voxels, refined by the sparse encoder, and written
 * into an uninitialised dense buffer together with the learned prior of every
 * empty voxel.
 *
 * Feature vectors are an opaque type F. `x3d` is the bottleneck output after
 * `reshape(bs, c, -1)`, one feature column per flat voxel index; the learned
 * modules (the sparse encoder `sgb`, the prior MLP `mlp_prior`) are function
 * parameters.
 */
module VoxelCompletion {
  import opened Where
  import opened VoxelIndices
  import opened Proposal

  /** A row of `coords_torch`: batch index, then (x, y, z). */
  type SparseCoord = (nat, nat, nat, nat)

  /** `x3d[0, :, vox_coords[unmasked_idx, 3]]`: the input column of each seed. */
  function SeedFeatures<F>(d: Dims, x3d: seq<F>, unmasked: seq<nat>): (seeds: seq<F>)
    requires |x3d| == d.Volume()
    requires forall k :: 0 <= k < |unmasked| ==> unmasked[k] < d.Volume()
    ensures |seeds| == |unmasked|
    ensures forall k :: 0 <= k < |unmasked| ==> seeds[k] == x3d[unmasked[k]]
  {
    var rows := GetVoxelIndices(d);
    seq(|unmasked|, k requires 0 <= k < |unmasked| => x3d[rows[unmasked[k]].flat])
  }

  /** `vox_coords[unmasked_idx, :3]`: the grid coordinates of each seed. */
  function SeedCoords(d: Dims, unmasked: seq<nat>): (coords: seq<Coord>)
    requires forall k :: 0 <= k < |unmasked| ==> unmasked[k] < d.Volume()
    ensures |coords| == |unmasked|
    ensures forall k :: 0 <= k < |unmasked| ==>
      && coords[k].0 < d.nx && coords[k].1 < d.ny && coords[k].2 < d.nz
      && coords[k].0 * (d.ny * d.nz) + coords[k].1 * d.nz + coords[k].2 == unmasked[k]
  {
    var rows := GetVoxelIndices(d);
    seq(|unmasked|, k requires 0 <= k < |unmasked| =>
      (rows[unmasked[k]].x, rows[unmasked[k]].y, rows[unmasked[k]].z))
  }

  /** `coords_torch`: a zero batch column in front of each seed coordinate. */
  function BatchCoords(coords: seq<Coord>): (r: seq<SparseCoord>)
    ensures |r| == |coords|
    ensures forall k :: 0 <= k < |r| ==>
      r[k].0 == 0 && (r[k].1, r[k].2, r[k].3) == coords[k]
  {
    seq(|coords|, k requires 0 <= k < |coords| => (0, coords[k].0, coords[k].1, coords[k].2))
  }

  /**
   * The dense feature grid in flat order, read voxel by voxel: an occupied
   * voxel takes the next refined seed row, an empty voxel takes the prior of
   * its own input column.
   */
  function Dense<F>(p: seq<bool>, x3d: seq<F>, refined: seq<F>, prior: F -> F): (dense: seq<F>)
    requires |x3d| == |p| && |refined| == |IndicesWhere(p, true)|
    ensures |dense| == |p|
  {
    if |p| == 0 then []
    else
      var n := |p| - 1;
      if p[n] then
        Dense(p[..n], x3d[..n], refined[..|refined| - 1], prior) + [refined[|refined| - 1]]
      else
        Dense(p[..n], x3d[..n], refined, prior) + [prior(x3d[n])]
  }

  /**
   * Voxel j of the dense grid is the refined row of its rank among the
   * occupied voxels when occupied, and the prior of its own column otherwise.
   */
  lemma {:induction false} DenseAt<F>(p: seq<bool>, x3d: seq<F>, refined: seq<F>, prior: F -> F, j: nat)
    requires |x3d| == |p| && |refined| == |IndicesWhere(p, true)|
    requires j < |p|
    ensures p[j] ==> Rank(p, true, j) < |refined|
    ensures Dense(p, x3d, refined, prior)[j]
         == if p[j] then refined[Rank(p, true, j)] else prior(x3d[j])
  {
    var n := |p| - 1;
    assert p[..n][..j] == p[..j] by {
      assert j <= n;
    }
    if p[j] {
      WhereAtRank(p, true, j);
    }
    if j < n {
      var r := if p[n] then refined[..|refined| - 1] else refined;
      DenseAt(p[..n], x3d[..n], r, prior, j);
    } else {
      assert p[..j] == p[..n];
    }
  }

  /**
   * The two indexed writes into the `torch.empty` buffer: refined seed row k
   * into the slot of the k-th occupied voxel, then the prior of each empty
   * voxel's column into its slot. The buffer's old contents do not survive:
   * every slot is written exactly once (the ghost `writes` counts the writes
   * per slot), and the buffer ends up as the dense grid.
   */
  method ScatterVoxelFeatures<F>(voxFeats: array<F>, d: Dims, p: seq<bool>,
                                 unmasked: seq<nat>, masked: seq<nat>,
                                 x3d: seq<F>, refined: seq<F>, prior: F -> F)
    returns (ghost writes: seq<nat>)
    requires |p| == d.Volume() && voxFeats.Length == |p| && |x3d| == |p|
    requires unmasked == IndicesWhere(p, true) && masked == IndicesWhere(p, false)
    requires |refined| == |unmasked|
    modifies voxFeats
    ensures |writes| == voxFeats.Length
    ensures forall j :: 0 <= j < |writes| ==> writes[j] == 1
    ensures voxFeats[..] == Dense(p, x3d, refined, prior)
  {
    var voxCoords := GetVoxelIndices(d);
    writes := seq(voxFeats.Length, _ => 0);
    var k := 0;
    while k < |unmasked|
      invariant 0 <= k <= |unmasked|
      invariant |writes| == voxFeats.Length
      invariant forall i :: 0 <= i < k ==> voxFeats[unmasked[i]] == refined[i]
      invariant forall i :: 0 <= i < |unmasked| ==> writes[unmasked[i]] == if i < k then 1 else 0
      invariant forall i :: 0 <= i < |masked| ==> writes[masked[i]] == 0
    {
      var slot := voxCoords[unmasked[k]].flat;
      voxFeats[slot] := refined[k];
      writes := writes[slot := writes[slot] + 1];
      k := k + 1;
    }
    k := 0;
    while k < |masked|
      invariant 0 <= k <= |masked|
      invariant |writes| == voxFeats.Length
      invariant forall i :: 0 <= i < |unmasked| ==> voxFeats[unmasked[i]] == refined[i]
      invariant forall i :: 0 <= i < k ==> voxFeats[masked[i]] == prior(x3d[masked[i]])
      invariant forall i :: 0 <= i < |unmasked| ==> writes[unmasked[i]] == 1
      invariant forall i :: 0 <= i < |masked| ==> writes[masked[i]] == if i < k then 1 else 0
    {
      var slot := voxCoords[masked[k]].flat;
      voxFeats[slot] := prior(x3d[slot]);
      writes := writes[slot := writes[slot] + 1];
      k := k + 1;
    }
    FilledBufferIsDense(p, x3d, refined, prior, voxFeats[..]);
    EverySlotListed(p, writes);
  }

  /** A count of 1 at every listed slot, occupied or empty, is a count of 1 everywhere. */
  lemma EverySlotListed(p: seq<bool>, writes: seq<nat>)
    requires |writes| == |p|
    requires var u := IndicesWhere(p, true);
      forall i :: 0 <= i < |u| ==> writes[u[i]] == 1
    requires var m := IndicesWhere(p, false);
      forall i :: 0 <= i < |m| ==> writes[m[i]] == 1
    ensures forall j :: 0 <= j < |writes| ==> writes[j] == 1
  {
    forall j | 0 <= j < |writes|
      ensures writes[j] == 1
    {
      IndicesWhereComplete(p, p[j], j);
    }
  }

  /**
   * A buffer holding refined row k at the k-th occupied voxel and the prior
   * of its column at every empty voxel is the dense grid.
   */
  lemma FilledBufferIsDense<F>(p: seq<bool>, x3d: seq<F>, refined: seq<F>, prior: F -> F, buf: seq<F>)
    requires |x3d| == |p| && |buf| == |p| && |refined| == |IndicesWhere(p, true)|
    requires var u := IndicesWhere(p, true);
      forall i :: 0 <= i < |u| ==> buf[u[i]] == refined[i]
    requires var m := IndicesWhere(p, false);
      forall i :: 0 <= i < |m| ==> buf[m[i]] == prior(x3d[m[i]])
    ensures buf == Dense(p, x3d, refined, prior)
  {
    var m := IndicesWhere(p, false);
    forall j | 0 <= j < |p|
      ensures buf[j] == Dense(p, x3d, refined, prior)[j]
    {
      DenseAt(p, x3d, refined, prior, j);
      if p[j] {
        WhereAtRank(p, true, j);
        var u := IndicesWhere(p, true);
        assert buf[u[Rank(p, true, j)]] == refined[Rank(p, true, j)];
      } else {
        IndicesWhereComplete(p, false, j);
        var i :| 0 <= i < |m| && m[i] == j;
      }
    }
  }

  /**
   * The proposal-to-dense-features portion of `forward` for one sample:
   * fallback and split of the proposal, seed gather, sparse encoding and the
   * dense scatter. Returns the index lists, the seed coordinates (`coords`
   * of the output) and the refined seed features.
   */
  method CompleteVoxels<F>(d: Dims, proposal: seq<bool>, x3d: seq<F>,
                           sgb: (seq<F>, seq<SparseCoord>) -> seq<F>, prior: F -> F,
                           voxFeats: array<F>)
    returns (unmasked: seq<nat>, masked: seq<nat>, seedCoords: seq<Coord>, seedFeatsDesc: seq<F>)
    requires |proposal| == d.Volume() && |x3d| == d.Volume() && voxFeats.Length == d.Volume()
    requires forall feats, coords :: |sgb(feats, coords)| == |feats|
    modifies voxFeats
    ensures Split(proposal) == Partition(unmasked, masked)
    ensures seedCoords == SeedCoords(d, unmasked)
    ensures seedFeatsDesc == sgb(SeedFeatures(d, x3d, unmasked), BatchCoords(seedCoords))
    ensures voxFeats[..] == Dense(WithFallback(proposal), x3d, seedFeatsDesc, prior)
  {
    var p := WithFallback(proposal);
    unmasked := IndicesWhere(p, true);
    masked := IndicesWhere(p, false);
    seedCoords := SeedCoords(d, unmasked);
    var seedFeats := SeedFeatures(d, x3d, unmasked);
    seedFeatsDesc := sgb(seedFeats, BatchCoords(seedCoords));
    ghost var writes := ScatterVoxelFeatures(voxFeats, d, p, unmasked, masked, x3d, seedFeatsDesc, prior);
  }

  /**
   * Every seed row lands in the slot of its own voxel and every empty voxel
   * gets the prior of its own column: the dense grid agrees with the split.
   */
  lemma DenseMatchesSplit<F>(proposal: seq<bool>, x3d: seq<F>, refined: seq<F>, prior: F -> F)
    requires |x3d| == |proposal|
    requires |refined| == |Split(proposal).unmasked|
    ensures var r := Split(proposal);
      var dense := Dense(WithFallback(proposal), x3d, refined, prior);
      && (forall k :: 0 <= k < |r.unmasked| ==> dense[r.unmasked[k]] == refined[k])
      && (forall k :: 0 <= k < |r.masked| ==> dense[r.masked[k]] == prior(x3d[r.masked[k]]))
  {
    var p := WithFallback(proposal);
    var r := Split(proposal);
    forall k | 0 <= k < |r.unmasked|
      ensures Dense(p, x3d, refined, prior)[r.unmasked[k]] == refined[k]
    {
      var j := r.unmasked[k];
      DenseAt(p, x3d, refined, prior, j);
      WhereAtRank(p, true, j);
      StrictlyIncreasingInjective(r.unmasked, k, Rank(p, true, j));
    }
    forall k | 0 <= k < |r.masked|
      ensures Dense(p, x3d, refined, prior)[r.masked[k]] == prior(x3d[r.masked[k]])
    {
      DenseAt(p, x3d, refined, prior, r.masked[k]);
    }
  }

  lemma StrictlyIncreasingInjective(s: seq<nat>, i: nat, j: nat)
    requires StrictlyIncreasing(s) && i < |s| && j < |s|
    ensures s[i] == s[j] ==> i == j
  {
  }
}
