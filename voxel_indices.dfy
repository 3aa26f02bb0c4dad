/**
 * `get_voxel_indices`: one row (x, y, z, flat) per voxel of a grid of
 * nx * ny * nz voxels. The coordinates come from an `ij` meshgrid flattened
 * in C order (last axis fastest) and the flat column is `range(nx*ny*nz)`.
 * The float geometry that yields (nx, ny, nz) is not modelled: the grid is
 * taken as the head's (bev_h, bev_w, bev_z).
 */
module VoxelIndices {

  datatype Dims = Dims(nx: nat, ny: nat, nz: nat)
  {
    function Volume(): nat { nx * (ny * nz) }
  }

  datatype VoxelRow = VoxelRow(x: nat, y: nat, z: nat, flat: nat)

  type Coord = (nat, nat, nat)

  /** The meshgrid entries with first index x and second index y, z ascending. */
  function Line(x: nat, y: nat, nz: nat): seq<Coord>
  {
    if nz == 0 then [] else Line(x, y, nz - 1) + [(x, y, nz - 1)]
  }

  /** The meshgrid entries with first index x, in C order. */
  function Plane(x: nat, ny: nat, nz: nat): seq<Coord>
  {
    if ny == 0 then [] else Plane(x, ny - 1, nz) + Line(x, ny - 1, nz)
  }

  /** `meshgrid(range(nx), range(ny), range(nz), indexing='ij')` flattened in C order. */
  function Meshgrid(nx: nat, ny: nat, nz: nat): seq<Coord>
  {
    if nx == 0 then [] else Meshgrid(nx - 1, ny, nz) + Plane(nx - 1, ny, nz)
  }

  /** Euclidean division is determined by quotient and remainder. */
  lemma DivModUnique(n: int, d: int, q: int, r: int)
    requires d > 0 && 0 <= r < d && n == q * d + r
    ensures n / d == q && n % d == r
  {
    var q', r' := n / d, n % d;
    assert n == q' * d + r';
    MulSub(q, q', d);
    if q' < q {
      MulMonotone(q - q', d);
      assert false;
    } else if q' > q {
      MulSub(q', q, d);
      MulMonotone(q' - q, d);
      assert false;
    }
  }

  lemma MulMonotone(a: int, d: int)
    requires a >= 1 && d > 0
    ensures a * d >= d
  {
  }

  lemma MulSub(a: int, b: int, d: int)
    ensures (a - b) * d == a * d - b * d
  {
  }

  lemma {:induction false} LineLength(x: nat, y: nat, nz: nat)
    ensures |Line(x, y, nz)| == nz
  {
    if nz > 0 {
      LineLength(x, y, nz - 1);
    }
  }

  lemma {:induction false} LineAt(x: nat, y: nat, nz: nat, k: nat)
    requires k < nz
    ensures |Line(x, y, nz)| == nz && Line(x, y, nz)[k] == (x, y, k)
  {
    if k < nz - 1 {
      LineAt(x, y, nz - 1, k);
    } else {
      LineLength(x, y, nz - 1);
    }
  }

  lemma {:induction false} PlaneLength(x: nat, ny: nat, nz: nat)
    ensures |Plane(x, ny, nz)| == ny * nz
  {
    if ny > 0 {
      PlaneLength(x, ny - 1, nz);
      LineLength(x, ny - 1, nz);
      MulSub(ny, 1, nz);
    }
  }

  /** Entry k of a plane is (x, y, z) with y*nz + z == k, in bounds. */
  lemma {:induction false} PlaneAt(x: nat, ny: nat, nz: nat, k: nat)
    requires k < ny * nz
    ensures |Plane(x, ny, nz)| == ny * nz
    ensures var c := Plane(x, ny, nz)[k];
      c.0 == x && c.1 < ny && c.2 < nz && c.1 * nz + c.2 == k
  {
    PlaneLength(x, ny, nz);
    PlaneLength(x, ny - 1, nz);
    MulSub(ny, 1, nz);
    var before := (ny - 1) * nz;
    if k < before {
      PlaneAt(x, ny - 1, nz, k);
    } else {
      LineAt(x, ny - 1, nz, k - before);
    }
  }

  lemma {:induction false} MeshgridLength(nx: nat, ny: nat, nz: nat)
    ensures |Meshgrid(nx, ny, nz)| == nx * (ny * nz)
  {
    if nx > 0 {
      MeshgridLength(nx - 1, ny, nz);
      PlaneLength(nx - 1, ny, nz);
      MulSub(nx, 1, ny * nz);
    }
  }

  /**
   * Entry i of the flattened meshgrid is the voxel whose C-order flat index
   * is i: coordinates in bounds and x*ny*nz + y*nz + z == i.
   */
  lemma {:induction false} MeshgridAt(nx: nat, ny: nat, nz: nat, i: nat)
    requires i < nx * (ny * nz)
    ensures |Meshgrid(nx, ny, nz)| == nx * (ny * nz)
    ensures var c := Meshgrid(nx, ny, nz)[i];
      && c.0 < nx && c.1 < ny && c.2 < nz
      && c.0 * (ny * nz) + c.1 * nz + c.2 == i
  {
    MeshgridLength(nx, ny, nz);
    MeshgridLength(nx - 1, ny, nz);
    MulSub(nx, 1, ny * nz);
    var before := (nx - 1) * (ny * nz);
    if i < before {
      MeshgridAt(nx - 1, ny, nz, i);
    } else {
      PlaneAt(nx - 1, ny, nz, i - before);
    }
  }

  /**
   * `get_voxel_indices`: the meshgrid coordinates next to `range(N)`.
   * Row i is the voxel with flat index i, its coordinates are in bounds
   * and they encode i in C order.
   */
  function GetVoxelIndices(d: Dims): (rows: seq<VoxelRow>)
    ensures |rows| == d.Volume()
    ensures forall i :: 0 <= i < |rows| ==>
      && rows[i].flat == i
      && rows[i].x < d.nx && rows[i].y < d.ny && rows[i].z < d.nz
      && rows[i].x * (d.ny * d.nz) + rows[i].y * d.nz + rows[i].z == i
  {
    var g := Meshgrid(d.nx, d.ny, d.nz);
    MeshgridLength(d.nx, d.ny, d.nz);
    var rows := seq(d.Volume(), i requires 0 <= i < d.Volume() => VoxelRow(g[i].0, g[i].1, g[i].2, i));
    assert forall i :: 0 <= i < |rows| ==>
      && rows[i].x * (d.ny * d.nz) + rows[i].y * d.nz + rows[i].z == i
      && rows[i].x < d.nx && rows[i].y < d.ny && rows[i].z < d.nz
    by {
      forall i | 0 <= i < |rows|
        ensures rows[i].x * (d.ny * d.nz) + rows[i].y * d.nz + rows[i].z == i
        ensures rows[i].x < d.nx && rows[i].y < d.ny && rows[i].z < d.nz
      {
        MeshgridAt(d.nx, d.ny, d.nz, i);
      }
    }
    rows
  }

  /** Row i is (i / (ny*nz), (i / nz) % ny, i % nz, i). */
  lemma VoxelRowDivMod(d: Dims, i: nat)
    requires i < d.Volume()
    ensures GetVoxelIndices(d)[i]
         == VoxelRow(i / (d.ny * d.nz), (i / d.nz) % d.ny, i % d.nz, i)
  {
    var r := GetVoxelIndices(d)[i];
    var yz := r.y * d.nz + r.z;
    var xy := r.x * d.ny + r.y;
    PlaneOffsetBound(d.ny, d.nz, r.y, r.z);
    DivModUnique(i, d.ny * d.nz, r.x, yz);
    assert i == xy * d.nz + r.z by {
      MulAssoc(r.x, d.ny, d.nz);
      MulAdd(r.x * d.ny, r.y, d.nz);
    }
    DivModUnique(i, d.nz, xy, r.z);
    DivModUnique(xy, d.ny, r.x, r.y);
  }

  /** A (y, z) offset inside a plane is below the plane size. */
  lemma PlaneOffsetBound(ny: nat, nz: nat, y: nat, z: nat)
    requires y < ny && z < nz
    ensures y * nz + z < ny * nz
  {
    MulSub(ny, y, nz);
    MulMonotone(ny - y, nz);
  }

  lemma MulAssoc(a: int, b: int, c: int)
    ensures a * (b * c) == (a * b) * c
  {
  }

  lemma MulAdd(a: int, b: int, c: int)
    ensures (a + b) * c == a * c + b * c
  {
  }

  /** Distinct rows name distinct voxels. */
  lemma VoxelRowsDistinct(d: Dims, i: nat, j: nat)
    requires i < d.Volume() && j < d.Volume() && i != j
    ensures var rows := GetVoxelIndices(d);
      (rows[i].x, rows[i].y, rows[i].z) != (rows[j].x, rows[j].y, rows[j].z)
  {
  }
}
