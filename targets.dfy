/**
 * The target bookkeeping of `SGNHeadOne.step` in training: the sparse
 * semantic target gathered at the seed coordinates, the binary occupancy
 * target, and the mask that drops ignored (255) voxels from the occupancy
 * losses. Labels are integers; 255 marks an ignored voxel.
 */
module Targets {
  import opened Where
  import opened VoxelIndices
  import opened Proposal
  import opened VoxelCompletion

  const Ignored: int := 255

  /** A dense label grid, indexed [x][y][z]. */
  type LabelGrid = seq<seq<seq<int>>>

  ghost predicate PlaneShape(plane: seq<seq<int>>, ny: nat, nz: nat)
  {
    |plane| == ny && forall y :: 0 <= y < ny ==> |plane[y]| == nz
  }

  ghost predicate HasShape(t: LabelGrid, d: Dims)
  {
    |t| == d.nx && forall x :: 0 <= x < d.nx ==> PlaneShape(t[x], d.ny, d.nz)
  }

  /** `t[coords[:, 0], coords[:, 1], coords[:, 2]]`: one label per coordinate. */
  function SparseTarget(t: LabelGrid, coords: seq<Coord>): (sparse: seq<int>)
    requires forall k :: 0 <= k < |coords| ==>
      coords[k].0 < |t| && coords[k].1 < |t[coords[k].0]| && coords[k].2 < |t[coords[k].0][coords[k].1]|
    ensures |sparse| == |coords|
  {
    seq(|coords|, k requires 0 <= k < |coords| => t[coords[k].0][coords[k].1][coords[k].2])
  }

  /** One y-row of a plane after another, z fastest. */
  function FlattenPlane(plane: seq<seq<int>>): seq<int>
  {
    if |plane| == 0 then [] else FlattenPlane(plane[..|plane| - 1]) + plane[|plane| - 1]
  }

  /** `t.reshape(-1)`: the label grid in C order. */
  function Flatten(t: LabelGrid): seq<int>
  {
    if |t| == 0 then [] else Flatten(t[..|t| - 1]) + FlattenPlane(t[|t| - 1])
  }

  /** A flattened plane lines up with the meshgrid plane of the same shape. */
  lemma {:induction false} FlattenPlaneMatches(plane: seq<seq<int>>, x: nat, ny: nat, nz: nat)
    requires PlaneShape(plane, ny, nz)
    ensures |FlattenPlane(plane)| == |Plane(x, ny, nz)|
    ensures forall k :: 0 <= k < |Plane(x, ny, nz)| ==>
      var c := Plane(x, ny, nz)[k];
      c.0 == x && c.1 < ny && c.2 < nz && FlattenPlane(plane)[k] == plane[c.1][c.2]
  {
    if ny > 0 {
      var n := ny - 1;
      FlattenPlaneMatches(plane[..n], x, n, nz);
      LineLength(x, n, nz);
      forall j | 0 <= j < nz
        ensures Line(x, n, nz)[j] == (x, n, j)
      {
        LineAt(x, n, nz, j);
      }
    }
  }

  /** `reshape(-1)` lines up with the meshgrid: entry i is the label at meshgrid entry i. */
  lemma {:induction false} FlattenMatches(t: LabelGrid, d: Dims)
    requires HasShape(t, d)
    ensures |Flatten(t)| == |Meshgrid(d.nx, d.ny, d.nz)|
    ensures forall i :: 0 <= i < |Flatten(t)| ==>
      var c := Meshgrid(d.nx, d.ny, d.nz)[i];
      c.0 < d.nx && c.1 < d.ny && c.2 < d.nz && Flatten(t)[i] == t[c.0][c.1][c.2]
  {
    if d.nx > 0 {
      var n := d.nx - 1;
      FlattenMatches(t[..n], Dims(n, d.ny, d.nz));
      FlattenPlaneMatches(t[n], n, d.ny, d.nz);
    }
  }

  /**
   * `reshape(-1)` of a label grid of shape (nx, ny, nz) puts at flat index i
   * the label of the voxel that row i of the voxel table names.
   */
  lemma FlattenAt(t: LabelGrid, d: Dims, i: nat)
    requires HasShape(t, d) && i < d.Volume()
    ensures |Flatten(t)| == d.Volume()
    ensures var r := GetVoxelIndices(d)[i];
      Flatten(t)[i] == t[r.x][r.y][r.z]
  {
    FlattenMatches(t, d);
    MeshgridLength(d.nx, d.ny, d.nz);
  }

  /**
   * Entry k of the sparse target is the label of the k-th seed voxel, i.e.
   * the flattened target at the k-th unmasked flat index: the sparse target
   * lines up with the seed features and the sparse semantic logits.
   */
  lemma SparseTargetAtSeeds(d: Dims, t: LabelGrid, proposal: seq<bool>)
    requires HasShape(t, d) && |proposal| == d.Volume()
    ensures |Flatten(t)| == d.Volume()
    ensures var u := Split(proposal).unmasked;
      var sparse := SparseTarget(t, SeedCoords(d, u));
      && |sparse| == |u|
      && forall k :: 0 <= k < |u| ==> sparse[k] == Flatten(t)[u[k]]
  {
    var u := Split(proposal).unmasked;
    FlattenMatches(t, d);
    MeshgridLength(d.nx, d.ny, d.nz);
  }

  /** The binary occupancy label: 0 and 255 are kept, every other label becomes 1. */
  function BinaryLabel(v: int): (b: int)
    ensures b == 0 || b == 1 || b == Ignored
    ensures b == 0 <==> v == 0
    ensures b == Ignored <==> v == Ignored
  {
    if v == Ignored || v == 0 then v else 1
  }

  /** `torch.where(target == 255 | target == 0, target, 1)`, on the C-order labels. */
  function BinaryTarget(t: seq<int>): (b: seq<int>)
    ensures |b| == |t|
    ensures forall i :: 0 <= i < |t| ==> b[i] == BinaryLabel(t[i])
  {
    seq(|t|, i requires 0 <= i < |t| => BinaryLabel(t[i]))
  }

  /** `target_2_binary != 255`. */
  function LossMask(b: seq<int>): (mask: seq<bool>)
    ensures |mask| == |b|
    ensures forall i :: 0 <= i < |b| ==> (mask[i] <==> b[i] != Ignored)
  {
    seq(|b|, i requires 0 <= i < |b| => b[i] != Ignored)
  }

  /** Boolean-mask indexing `xs[mask]`: the entries under a true flag, in order. */
  function Select<T>(xs: seq<T>, mask: seq<bool>): (r: seq<T>)
    requires |xs| == |mask|
    ensures |r| == |IndicesWhere(mask, true)|
  {
    var kept := IndicesWhere(mask, true);
    seq(|kept|, k requires 0 <= k < |kept| => xs[kept[k]])
  }

  /**
   * The occupancy losses compare `pred[mask]` with `binary[mask]`: both keep
   * exactly the voxels whose label is not 255, in the same order, so entry k
   * of both comes from the same voxel, and every kept target is 0 or 1.
   */
  lemma OccupancyLossSelection<T>(t: seq<int>, pred: seq<T>)
    requires |pred| == |t|
    ensures var b := BinaryTarget(t);
      var mask := LossMask(b);
      var kept := IndicesWhere(mask, true);
      && (forall i :: i in kept <==> 0 <= i < |t| && t[i] != Ignored)
      && |Select(pred, mask)| == |Select(b, mask)| == |kept|
      && (forall k :: 0 <= k < |kept| ==> Select(pred, mask)[k] == pred[kept[k]])
      && (forall k :: 0 <= k < |kept| ==>
            Select(b, mask)[k] == (if t[kept[k]] == 0 then 0 else 1))
  {
    var mask := LossMask(BinaryTarget(t));
    IndicesWhereMembership(mask, true);
  }
}
