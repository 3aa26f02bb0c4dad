# SGN one-stage head: the integer bookkeeping of the dense head

This project models the exact, integer- and boolean-valued bookkeeping inside
`SGNHeadOne`, the semantic-scene-completion head of SGN
(`projects/mmdet3d_plugin/sgn/dense_heads/sgn_head_one_stage.py`), and proves
what that bookkeeping promises. The learned layers it calls are opaque: feature
vectors are a type parameter `F`, and the sparse encoder (`sgb`) and the prior
MLP (`mlp_prior`) are function parameters.

What is modelled, one module per concern:

- `VoxelIndices` (`voxel_indices.dfy`): `get_voxel_indices`. The `ij` meshgrid
  over `range(nx) x range(ny) x range(nz)`, flattened in C order, next to the
  column `range(nx*ny*nz)`. Row i is the voxel with flat index
  `i = x*ny*nz + y*nz + z`, i.e. `(i/(ny*nz), (i/nz)%ny, i%nz, i)`.
- `Where` (`where.dfy`): `np.where` on a one-dimensional boolean mask, with the
  facts the head relies on: ascending, complete, and the position of an entry
  in the list is its rank.
- `Proposal` (`proposal.dfy`): the fallback to "all occupied" when the
  proposal has fewer than two occupied voxels, and the split into
  `unmasked_idx` / `masked_idx`.
- `VoxelCompletion` (`completion.dfy`): the seed gather (`seed_feats`,
  `seed_coords`, `coords_torch`) and the two indexed writes that fill the
  `torch.empty` buffer `vox_feats_flatten`, as a method over an array, proved
  to write every slot exactly once and to produce the dense grid `Dense`.
- `Targets` (`targets.dfy`): the sparse target gathered at the seed
  coordinates, the binary occupancy target, and the `!= 255` loss mask.
- `Remap` (`remap.dfy`): the nineteen in-place statements
  `y_pred[y_pred == k] = v` of `save_pred`, as a method over an array, proved
  equal to one application of the `learning_map_inv` table of the doc-comment,
  with no element written twice.

## Model

| member | source | states |
|---|---|---|
| `VoxelIndices.GetVoxelIndices` | projects/mmdet3d_plugin/sgn/dense_heads/sgn_head_one_stage.py:227-232 | exactly nx*ny*nz rows; row i has flat column i, coordinates in bounds, and x*ny*nz + y*nz + z == i |
| `VoxelIndices.Meshgrid` | projects/mmdet3d_plugin/sgn/dense_heads/sgn_head_one_stage.py:229-230 | definition: the `ij` meshgrid flattened in C order; characterised by `MeshgridLength` and `MeshgridAt` |
| `VoxelIndices.MeshgridAt` | projects/mmdet3d_plugin/sgn/dense_heads/sgn_head_one_stage.py:229-230 | entry i of the C-order flattened `ij` meshgrid is in bounds and encodes i in C order |
| `VoxelIndices.MeshgridLength` | projects/mmdet3d_plugin/sgn/dense_heads/sgn_head_one_stage.py:228-230 | the flattened meshgrid has as many entries as `range(nx*ny*nz)`, so the concatenation is well formed |
| `VoxelIndices.PlaneAt` | projects/mmdet3d_plugin/sgn/dense_heads/sgn_head_one_stage.py:229-230 | entry k of the meshgrid block for one x is (x, y, z) with y*nz + z == k, in bounds |
| `VoxelIndices.VoxelRowDivMod` | projects/mmdet3d_plugin/sgn/dense_heads/sgn_head_one_stage.py:227-230 | row i is (i/(ny*nz), (i/nz)%ny, i%nz, i) |
| `VoxelIndices.VoxelRowsDistinct` | projects/mmdet3d_plugin/sgn/dense_heads/sgn_head_one_stage.py:229-230 | distinct rows have distinct (x, y, z) |
| `Where.CountOf` | projects/mmdet3d_plugin/sgn/dense_heads/sgn_head_one_stage.py:110 | definition of `proposal.sum()` as a front-to-back count, at most the mask length; `IndicesWhereLength` ties it to the `np.where` list |
| `Where.IndicesWhere` | projects/mmdet3d_plugin/sgn/dense_heads/sgn_head_one_stage.py:112-113 | `np.where` returns in-range positions holding the value, strictly increasing |
| `Where.IndicesWhereComplete` | projects/mmdet3d_plugin/sgn/dense_heads/sgn_head_one_stage.py:112-113 | every position holding the value is listed |
| `Where.IndicesWhereMembership` | projects/mmdet3d_plugin/sgn/dense_heads/sgn_head_one_stage.py:112-113 | i is listed if and only if 0 <= i < N and mask[i] holds the value |
| `Where.WhereAtRank` | projects/mmdet3d_plugin/sgn/dense_heads/sgn_head_one_stage.py:112-113 | an occupied voxel sits in `unmasked_idx` at the position given by its rank among occupied voxels |
| `Where.IndicesWherePrefix` | projects/mmdet3d_plugin/sgn/dense_heads/sgn_head_one_stage.py:112-113 | the list for a prefix of the mask is a prefix of the list for the mask |
| `Where.IndicesWhereLength` | projects/mmdet3d_plugin/sgn/dense_heads/sgn_head_one_stage.py:110-112 | the list of occupied voxels is as long as `proposal.sum()` |
| `Where.IndicesWhereSplit` | projects/mmdet3d_plugin/sgn/dense_heads/sgn_head_one_stage.py:112-113 | the occupied and empty lists together are as long as the proposal |
| `Proposal.Occupied` | projects/mmdet3d_plugin/sgn/dense_heads/sgn_head_one_stage.py:110 | definition: `proposal.sum()` is the count of occupied flags (`CountOf`); `AtLeastTwoSeeds` and `AllOccupiedCount` use it |
| `Proposal.WithFallback` | projects/mmdet3d_plugin/sgn/dense_heads/sgn_head_one_stage.py:110-111 | definition of the fallback, length-preserving: all flags set when fewer than two are occupied, the proposal itself otherwise; characterised by `FallbackSelectsAll` and `FallbackKeeps` |
| `Proposal.Split` | projects/mmdet3d_plugin/sgn/dense_heads/sgn_head_one_stage.py:112-113 | definition of `unmasked_idx` and `masked_idx` after the fallback; characterised by `SplitIsPartition`, `FallbackSelectsAll` and `FallbackKeeps` |
| `Proposal.AllOccupied` | projects/mmdet3d_plugin/sgn/dense_heads/sgn_head_one_stage.py:111 | `np.ones_like`: N flags, all occupied |
| `Proposal.SplitIsPartition` | projects/mmdet3d_plugin/sgn/dense_heads/sgn_head_one_stage.py:110-113 | `unmasked_idx` and `masked_idx` are strictly increasing, disjoint, cover 0..N-1, and unmasked means occupied after the fallback |
| `Proposal.FallbackSelectsAll` | projects/mmdet3d_plugin/sgn/dense_heads/sgn_head_one_stage.py:110-111 | fewer than two occupied voxels: `unmasked_idx` is 0..N-1 and `masked_idx` is empty |
| `Proposal.FallbackKeeps` | projects/mmdet3d_plugin/sgn/dense_heads/sgn_head_one_stage.py:110 | two or more occupied voxels: the proposal is split as it is |
| `Proposal.AtLeastTwoSeeds` | projects/mmdet3d_plugin/sgn/dense_heads/sgn_head_one_stage.py:110-112 | on a grid of at least two voxels there are at least two seeds after the fallback |
| `VoxelCompletion.SeedFeatures` | projects/mmdet3d_plugin/sgn/dense_heads/sgn_head_one_stage.py:117 | one seed row per unmasked voxel; row k is the input column at the k-th unmasked flat index |
| `VoxelCompletion.SeedCoords` | projects/mmdet3d_plugin/sgn/dense_heads/sgn_head_one_stage.py:118 | one coordinate per seed, in bounds, encoding the seed's flat index in C order |
| `VoxelCompletion.BatchCoords` | projects/mmdet3d_plugin/sgn/dense_heads/sgn_head_one_stage.py:119-120 | `coords_torch` is the seed coordinates behind a zero batch column |
| `VoxelCompletion.Dense` | projects/mmdet3d_plugin/sgn/dense_heads/sgn_head_one_stage.py:127-130 | definition of the buffer after the two writes, one entry per voxel; characterised by `DenseAt` and `DenseMatchesSplit` |
| `VoxelCompletion.DenseAt` | projects/mmdet3d_plugin/sgn/dense_heads/sgn_head_one_stage.py:127-130 | dense voxel j is refined row rank(j) when occupied and prior(column j) when empty |
| `VoxelCompletion.ScatterVoxelFeatures` | projects/mmdet3d_plugin/sgn/dense_heads/sgn_head_one_stage.py:127-130 | the two indexed writes write every slot of the uninitialised buffer exactly once and leave the dense grid in it |
| `VoxelCompletion.FilledBufferIsDense` | projects/mmdet3d_plugin/sgn/dense_heads/sgn_head_one_stage.py:129-130 | refined rows at the unmasked slots plus priors at the masked slots determine the whole buffer |
| `VoxelCompletion.EverySlotListed` | projects/mmdet3d_plugin/sgn/dense_heads/sgn_head_one_stage.py:129-130 | one write at every unmasked and every masked slot is one write at every slot |
| `VoxelCompletion.CompleteVoxels` | projects/mmdet3d_plugin/sgn/dense_heads/sgn_head_one_stage.py:110-130 | the proposal-to-dense path of `forward`: split, seed gather, sparse encoding, and the buffer ends as the dense grid |
| `VoxelCompletion.DenseMatchesSplit` | projects/mmdet3d_plugin/sgn/dense_heads/sgn_head_one_stage.py:129-130 | the slot of the k-th unmasked voxel holds refined row k; each masked slot holds the prior of its own column |
| `Targets.SparseTarget` | projects/mmdet3d_plugin/sgn/dense_heads/sgn_head_one_stage.py:160 | one label per seed coordinate |
| `Targets.Flatten` | projects/mmdet3d_plugin/sgn/dense_heads/sgn_head_one_stage.py:182 | definition of `reshape(-1)` of a label grid in C order; characterised by `FlattenMatches` and `FlattenAt` |
| `Targets.FlattenMatches` | projects/mmdet3d_plugin/sgn/dense_heads/sgn_head_one_stage.py:182 | C-order flattening of a label grid puts at entry i the label at meshgrid entry i |
| `Targets.FlattenAt` | projects/mmdet3d_plugin/sgn/dense_heads/sgn_head_one_stage.py:182 | flattened entry i is the label of the voxel that row i of the voxel table names |
| `Targets.SparseTargetAtSeeds` | projects/mmdet3d_plugin/sgn/dense_heads/sgn_head_one_stage.py:159-160 | the sparse target has one entry per seed and entry k is the flattened target at the k-th unmasked index |
| `Targets.BinaryLabel` | projects/mmdet3d_plugin/sgn/dense_heads/sgn_head_one_stage.py:180-181 | the binary label is in {0, 1, 255}; it is 0 exactly for 0 and 255 exactly for 255 |
| `Targets.BinaryTarget` | projects/mmdet3d_plugin/sgn/dense_heads/sgn_head_one_stage.py:180-181 | the binary target keeps the shape and applies the binary label to every entry |
| `Targets.LossMask` | projects/mmdet3d_plugin/sgn/dense_heads/sgn_head_one_stage.py:182 | the mask holds exactly at entries that are not 255 |
| `Targets.Select` | projects/mmdet3d_plugin/sgn/dense_heads/sgn_head_one_stage.py:182-185 | boolean-mask indexing `xs[mask]`: one entry per true flag; characterised by `OccupancyLossSelection` |
| `Targets.OccupancyLossSelection` | projects/mmdet3d_plugin/sgn/dense_heads/sgn_head_one_stage.py:182-185 | the loss keeps exactly the voxels whose label is not 255, predictions and targets pair up by position, and every kept target is 0 or 1 |
| `Remap.SavePredSteps` | projects/mmdet3d_plugin/sgn/dense_heads/sgn_head_one_stage.py:246-264 | the nineteen statements as (from, to) pairs in source order; characterised by `SavePredShape` and `SavePredNoChain` |
| `Remap.LearningMapInv` | projects/mmdet3d_plugin/sgn/dense_heads/sgn_head_one_stage.py:239-242 | the doc-comment table of classes 0..19 and their raw ids; characterised by `RawLabelRoundTrip` and `RawLabelInjective` |
| `Remap.RawLabel` | projects/mmdet3d_plugin/sgn/dense_heads/sgn_head_one_stage.py:239-242 | definition: the table applied once, other values unchanged; characterised by `RawLabelFixes`, `RawLabelRoundTrip` and `RawLabelInjective` |
| `Remap.ApplyAll` | projects/mmdet3d_plugin/sgn/dense_heads/sgn_head_one_stage.py:246-264 | definition: the effect on one element of running statements in order; characterised by `ApplyNonKey`, `ApplyKey` and `ApplyAllAppend` |
| `Remap.Writes` | projects/mmdet3d_plugin/sgn/dense_heads/sgn_head_one_stage.py:246-264 | definition: how many statements select one element as they run; characterised by `ApplyNonKey`, `ApplyKey` and `ApplyAllAppend` |
| `Remap.ApplyNonKey` | projects/mmdet3d_plugin/sgn/dense_heads/sgn_head_one_stage.py:246-264 | a value no statement selects passes through unchanged and is never written |
| `Remap.ApplyKey` | projects/mmdet3d_plugin/sgn/dense_heads/sgn_head_one_stage.py:246-264 | when no statement selects an earlier key or target, a value selected by statement i ends as its target, written once |
| `Remap.SequentialIsPointwise` | projects/mmdet3d_plugin/sgn/dense_heads/sgn_head_one_stage.py:246-264 | without such chains, running the statements in order is one pointwise lookup, each element written at most once |
| `Remap.SavePredShape` | projects/mmdet3d_plugin/sgn/dense_heads/sgn_head_one_stage.py:246-264 | the first ten statements select 10..19 and write ids >= 44; the last nine select 1..9 and write ids >= 10 |
| `Remap.SavePredNoChain` | projects/mmdet3d_plugin/sgn/dense_heads/sgn_head_one_stage.py:246-264 | the statement order of `save_pred` has no chain |
| `Remap.SavePredIsLearningMapInv` | projects/mmdet3d_plugin/sgn/dense_heads/sgn_head_one_stage.py:239-264 | the nineteen statements equal one application of the doc-comment table; exactly the values 1..19 are written, once each |
| `Remap.ApplyAllAppend` | projects/mmdet3d_plugin/sgn/dense_heads/sgn_head_one_stage.py:246-264 | running two blocks of statements is running the second on the result of the first |
| `Remap.OtherOrderRemapsTwice` | projects/mmdet3d_plugin/sgn/dense_heads/sgn_head_one_stage.py:246-264 | with the 1..9 statements first, class 1 is written twice and ends as 44 |
| `Remap.RawLabelFixes` | projects/mmdet3d_plugin/sgn/dense_heads/sgn_head_one_stage.py:239-242 | the table leaves 0 and every value outside 1..19 unchanged |
| `Remap.RawLabelRoundTrip` | projects/mmdet3d_plugin/sgn/dense_heads/sgn_head_one_stage.py:239-242 | each class 0..19 maps to one of the twenty raw ids, and the learning map brings it back |
| `Remap.RawLabelInjective` | projects/mmdet3d_plugin/sgn/dense_heads/sgn_head_one_stage.py:239-242 | distinct classes 0..19 map to distinct raw ids |
| `Remap.AssignWhere` | projects/mmdet3d_plugin/sgn/dense_heads/sgn_head_one_stage.py:246 | one statement `y[y == from] = to` rewrites exactly the elements equal to `from` |
| `Remap.RemapToRawLabels` | projects/mmdet3d_plugin/sgn/dense_heads/sgn_head_one_stage.py:246-264 | afterwards every element is the table applied once to its old value, and only elements with old value in 1..19 were written, once each |

## Left out

- Learned layers (`FLoSP`, `bottleneck`, `SGB`, `SDB`, `mlp_prior`, `occ_header`, `sem_header`, `ssc_header`, `pts_header`): they are learned floating-point transforms. `sgb` and `mlp_prior` are function parameters. The model assumes `sgb` returns one row per input row. `mlp_prior` is applied row by row, which is how its linear, layer-norm and activation layers act.
- Everything after the dense buffer (`sdb`, `ssc_header`, the `guidance` concatenation), `sem_header` on the refined seeds, and the `occ` output: these are learned layers only.
- Losses (`CE_ssc_loss`, `sem_scal_loss`, `geo_scal_loss`, `lovasz_softmax`, cross-entropy, binary cross-entropy, class weights): floating-point numerics. Only the selection of the entries they compare is modelled.
- Float geometry of `get_voxel_indices` (`voxel_size`, `np.ceil` of the scene bounds): the grid is taken as integer dimensions (nx, ny, nz). They must equal (`bev_h`, `bev_w`, `bev_z`) for the flat index to agree with the reshapes in `forward`. The model assumes this by giving the proposal, `x3d`, the buffer and the label grid the same `Dims`. In the source `vol_dim` comes from `bev_h` alone: with `real_h` fixed at 51.2 (line 44), it is (bev_h, bev_h, ceil(bev_h / 8)) up to floating-point rounding. The shared `Dims` therefore holds only when bev_w == bev_h and bev_z == ceil(bev_h / 8), as for 128 x 128 x 16 or 256 x 256 x 32. For any other head size, `seed_coords` (line 118) and the sparse-target gather (line 160) name other voxels than the flat indices, or `vox_coords[unmasked_idx]` indexes out of range. The model does not cover those sizes.
- The proposal source (`pts_occ > 0` on float logits): the proposal is a boolean sequence in flat order.
- The `int32` cast of the index lists: indices are unbounded naturals. The cast is exact while bev_h * bev_w * bev_z < 2^31.
- Tensor plumbing (`detach`, `cpu`, device moves, `permute`, `unsqueeze`), batch sizes above one (`x3d[0]`), and multi-dimensional tensor layout. Features are one opaque value per voxel, in flat order.
- `torch.empty` is modelled as a caller-supplied array with arbitrary contents. The postcondition of `ScatterVoxelFeatures` does not mention those contents, so none of them survive.
- The binary target and the loss mask act element by element. They are modelled on the C-order flattened labels, the order in which boolean-mask indexing returns elements.
- `argmax` over float logits, the `uint16` cast, and the file output of `save_pred` (`os.makedirs`, `tofile`). All remapped ids are at most 81, so the cast loses nothing.
- `RemapToRawLabels`: the nineteen statements run as a loop over the constant table `SavePredSteps`, which lists them in source order. Each iteration is one statement.
- Registry and builder glue (`HEADS.register_module`, `builder.build_head`) and the dataset-dependent class lists: `n_classes` is 20 (SemanticKITTI) or 19 (KITTI-360). The remap table holds only for SemanticKITTI, as its doc-comment says.
- The `step_type` dispatch: `step_type == "val" or "test"` is always true for a non-"train" input, because a non-empty string is truthy. It only selects the output dictionary.
