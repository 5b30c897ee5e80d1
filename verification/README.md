# scikit-numerical: integration areas, batched Gauss-Legendre quadrature and spline interpolation, in Dafny

This project models the deterministic core of `scikit-numerical`, a small NumPy library with five parts:

- **Integration areas.** Validated one-dimensional boundaries: a cartesian line, a polar radius range and a polar angle range. These are composed into 1-, 2- and 3-D rectangles, a circle segment, a half circle and a circle. An older module `numerical/area/bound.py` uses its own line rule.
- **Uniform grids.** Each axis gets nodes `start, start + step, ...`, followed by `end`. Each cell gets its midpoint (`sum`) and half-width (`diff`).
- **Batched composite Gauss-Legendre quadrature.** The recursive loop visits blocks of cells and stacks their sample points with `repeat_args`. It evaluates the integrand, weighs each cell with the product Legendre weights, concatenates the blocks, and dots the result with the product of the half-widths. The older copy in `integration/gauss.py` is proved to compute the same thing.
- **`coordinate_transform`.** This dispatches on the coordinate tag. The polar Jacobian wrapper is modelled, and `polar2cartesian` is kept abstract.
- **Splines and interpolation.** This covers:
  - the hat function `linear`;
  - the quintic Schoenberg spline with its derivative tables and derivative lookup tables;
  - batched tensor-product linear interpolation;
  - the summation kernels of the C extension `_interpolation.c`.

Floats are modelled as Dafny `real` with exact arithmetic. The tolerances of `np.allclose` (`1e-8`, `1e-5`) and the C `EPS = 1e-12` are exact decimals. `np.pi` is the exact rational value of the float64 constant. The Legendre roots and weights (`leggauss`), the integrand, and `cos`/`sin` are parameters. Exceptions are the `Failure` cases of a `Result`: `BoundarySetup`, `ValueError`, `IndexError`, `KeyError` and `NotImplemented`.

The modules follow the repository:

| module | models |
|---|---|
| `Tolerance`, `Wrappers`, `Iteration` | `np.allclose`; the exception kinds; the two iterator protocols and Python indexing |
| `BoundsBase`, `Cartesian`, `Polar` | `numerical/area/bounds/_base.py`, `cartesian.py`, `polar.py` |
| `BoundLegacy` | `numerical/area/bound.py` |
| `Grid` | `numerical/area/grid.py` |
| `LinAlg`, `LinAlgLegacy` | `numerical/utils/linalg.py`, `utils/linalg.py` |
| `Arrays`, `IntegrationUtils` | `np.repeat`/`np.tile`; `repeat_args` of `numerical/integration/utils.py` and `numerical/utils/integration.py` |
| `Coordinates` | `coordinate_transform` |
| `BatchLoop`, `Blocks`, `SweepOrder` | the `while`/recursion of `_integration_loop`; the cells of each leaf block and their order |
| `Gauss`, `GaussSweep`, `GaussLegacy`, `GaussFindings` | `numerical/integration/gauss.py`; the composite rule it is stated against; `integration/gauss.py`; two counterexamples |
| `Splines`, `SplineDerivs` | `numerical/splines/definitions.py`, `numerical/splines/derivatives.py`, `numerical/spline_derivs.py` |
| `InterpolationUtils`, `Interpolation`, `InterpolationKernel` | `numerical/utils/interpolation.py`, `numerical/interpolation.py`, the kernels of `numerical/_interpolation.c` |

Three reference definitions serve as partners for the operations:

- `Gauss.Composite`: the composite Gauss-Legendre rule, a sum over every cell of its volume factor times the weighted integrand at the full product of the cell's sample points.
- `Interpolation.Value`: the tensor-product interpolant as a sum over nodes.
- `LinAlg.IsOuterProduct`: the row-major outer product.

The lemmas relate each operation to its partner.

## Model

| member | source | states |
|---|---|---|
| Tolerance.AllCloseReflexive | numerical/area/bounds/_base.py:83 | every value is close to itself |
| Tolerance.AllCloseAsymmetric | numerical/area/bounds/_base.py:83-85 | `allclose` is not symmetric: 0 is close to 1.000001e-8, but 1.000001e-8 is not close to 0 |
| Tolerance.AllCloseToZero | numerical/area/bounds/_base.py:84-85 | closeness to 0 as the second argument is the absolute tolerance `|a| <= 1e-8` |
| Tolerance.ZeroCloseTo | numerical/area/bounds/_base.py:83 | 0 is close to `b` exactly when `|b| (1 - 1e-5) <= 1e-8` |
| Iteration.Next | numerical/area/bounds/_base.py:36-41 | `__next__` stops exactly at the count; otherwise it yields the item at the cursor and advances by one |
| Iteration.DrainFrom | numerical/area/bounds/_base.py:36-41 | from cursor `k`, repeated `__next__` yields exactly the remaining items, in order |
| Iteration.IterYieldsAll | numerical/area/bounds/_base.py:32-41 | a fresh `__iter__` yields every item once, in order, then stops |
| Iteration.PreNext | numerical/area/bound.py:25-29 | the pre-incrementing `__next__` stops exactly when the cursor is at the last index; otherwise it yields the next item |
| Iteration.PreIterYieldsAll | numerical/area/bound.py:21-29 | starting at -1, the pre-incrementing protocol also yields every item once, in order |
| Iteration.GetItem | numerical/area/bounds/_base.py:43-44 | `__getitem__` succeeds exactly for `-len <= i < len`; negative indices count from the end; anything else is an `IndexError` |
| BoundsBase.Make | numerical/area/bounds/_base.py:52-57 | construction succeeds exactly when the class's rule accepts the endpoints, and then stores them unchanged; otherwise it raises `BoundarySetupException` |
| BoundsBase.LineAcceptedIff | numerical/area/bounds/_base.py:59-60 | a line is accepted iff `end > start`, with no tolerance, so an accepted line strictly increases |
| BoundsBase.RhoAcceptedIff | numerical/area/bounds/_base.py:82-85 | a radius range is accepted iff its ends are not close, its start is positive or close to 0, and its end is not close to 0 |
| BoundsBase.RhoIgnoresOrder | numerical/area/bounds/_base.py:78-85 | the radius rule replaces the line rule: (2, 1) is a valid radius range but an invalid line |
| BoundsBase.PhiAcceptedIff | numerical/area/bounds/_base.py:95-98 | an angle range is accepted iff it increases, its ends are not close, and each end lies in (0, 2 pi) or is close to 0 or to 2 pi |
| BoundsBase.PhiAcceptsHalfAndFullTurn | numerical/area/bounds/_base.py:95-98 | (0, pi) and (0, 2 pi) are valid angle ranges |
| BoundsBase.PhiRejectsBeyondFullTurn | numerical/area/bounds/_base.py:95-98 | the angle range (0, 7) is rejected |
| BoundsBase.RegionAccess | numerical/area/bounds/_base.py:26-44 | a container's count is the list length; iteration yields the stored boundaries in order; `r[i]` reads the list; indexing at the count fails |
| Cartesian.LineBoundary1D | numerical/area/bounds/cartesian.py:5-11 | the 1-D rectangle is accepted iff its x range increases; it then holds that line and is not polar |
| Cartesian.LineBoundary2D | numerical/area/bounds/cartesian.py:25-34 | the 2-D rectangle is accepted iff both ranges increase; it then holds both lines in argument order |
| Cartesian.LineBoundary3D | numerical/area/bounds/cartesian.py:63-73 | the 3-D rectangle is accepted iff all three ranges increase; it then holds the three lines in argument order |
| Cartesian.CartesianShape | numerical/area/bounds/cartesian.py:8-19 | every accepted cartesian region has 1, 2 or 3 boundaries, is not polar, and its described rectangle is its stored list |
| Cartesian.CartesianRejections | numerical/area/bounds/cartesian.py:9-10 | (10, 1) and a z range (-0.25, -1.5) are rejected; the nearly equal pair (0.5, 0.5000001) passes the strict rule |
| Polar.CircleSegmentBoundary | numerical/area/bounds/polar.py:5-16 | the segment is accepted iff its radius range and angle range are both valid; it then holds exactly those two boundaries, in that order, flagged polar |
| Polar.HalfCircleBoundary | numerical/area/bounds/polar.py:25-27 | the half circle is the polar segment over (0, pi): accepted iff the radius rule holds, holding that radius range and (0, pi), and otherwise a `BoundarySetupException` |
| Polar.CircleBoundary | numerical/area/bounds/polar.py:33-35 | the circle is the polar segment (0, r) x (0, 2 pi), accepted iff `|r| (1 - 1e-5) > 1e-8`, so negative radii are accepted, and otherwise a `BoundarySetupException` |
| Polar.PolarDescribedRect | numerical/area/bounds/polar.py:16-19 | a polar segment is flagged polar, has two boundaries, and describes itself with its stored list |
| Polar.CircleExamples | numerical/area/bounds/polar.py:33-35 | the circles of radius 1 and -1 are accepted; the circle of radius 1e-8 is rejected |
| BoundLegacy.MakeLine | numerical/area/bound.py:40-45 | the older line fails exactly when `end < start` or the ends are close; otherwise it stores them |
| BoundLegacy.AcceptedIsIncreasing | numerical/area/bound.py:41-45 | every accepted older line has `start < end` |
| BoundLegacy.RejectsNearlyEqual | numerical/area/bound.py:41-42 | (0.5, 0.5000001) is rejected by the older rule but accepted by the newer strict rule |
| BoundLegacy.LineBoundary1D | numerical/area/bound.py:60-70 | the older 1-D rectangle is accepted iff its line is, and then holds that line; a rejection is a `BoundarySetupException` |
| BoundLegacy.LineBoundary2D | numerical/area/bound.py:76-89 | the older 2-D rectangle is accepted iff both lines are, and then holds them in argument order; a rejection is a `BoundarySetupException` |
| BoundLegacy.LineBoundary3D | numerical/area/bound.py:111-126 | the older 3-D rectangle is accepted iff all three lines are, and then holds them in argument order; a rejection is a `BoundarySetupException` |
| BoundLegacy.LegacyExamples | numerical/area/bound.py:111-126 | the boundary tests: the endpoints are stored in order, and the constructions (10, 1), (0.5, 0.5000001) and z = (-0.25, -1.5) are rejected |
| BoundLegacy.LegacyContainer | numerical/area/bound.py:15-32 | for every accepted older rectangle, in one, two or three axes: each line increases, iteration yields each boundary once in order, and the described rectangle is the list |
| Grid.CeilSteps | numerical/area/grid.py:54 | `ceil((stop - start) / step)` steps reach `stop`, and one step fewer stays below it |
| Grid.ArangeLength | numerical/area/grid.py:54 | `np.arange` is empty iff `stop <= start`; otherwise its last element is below `stop` and one more step would reach it |
| Grid.ArangeFacts | numerical/area/grid.py:54 | the arange starts at `start`, is spaced by `step`, stays below `stop`, and its last gap to `stop` lies in (0, step] |
| Grid.BuildNodes | numerical/area/grid.py:53-55 | the nodes end with `end`, and start with `start` when `end > start`; every node but the last is `start + i step`; the last cell is in (0, step]; if `end <= start` the nodes are `[end]` |
| Grid.NodesIncreasing | numerical/area/grid.py:53-55 | the nodes strictly increase |
| Grid.IntegrationMeta | numerical/area/grid.py:57-61 | `sum`, `diff` and `diff_t` have one entry per cell; `diff_t` equals `diff`; `sum[i] - diff[i]` and `sum[i] + diff[i]` are the cell's two nodes |
| Grid.UniformAxisCells | numerical/area/grid.py:46-61 | every cell of a uniform axis has a positive half-width and spans two neighbouring nodes |
| Grid.CellMap | numerical/area/grid.py:58-60 | `r -> sum[i] + diff[i] r` maps [-1, 1] into cell `i` |
| Grid.NoCellsWhenNotIncreasing | numerical/area/grid.py:54-55 | an axis with `end <= start` has the single node `end` and no cells |
| Grid.NodeExamples | numerical/area/grid.py:53-55 | step 0.25 on [0, 1] gives five equally spaced nodes; step 0.3 gives 0, 0.3, 0.6, 0.9, 1 |
| Grid.UniformGrid | numerical/area/grid.py:73-79 | a `ValueError` iff the bound count differs from the number of steps; otherwise one `_UniformGrid` axis per described boundary, in order: that boundary's nodes with their `sum`, `diff` and `diff_t` (Grid.UniformAxis) |
| Grid.GridIteration | numerical/area/grid.py:16-31 | iterating a grid yields its axes once each, in order, and yields `dim` of them |
| LinAlg.Unravel | numerical/utils/linalg.py:21 | the row-major digits of a flat index are a valid index whose row-major position is that flat index |
| LinAlg.RowMajorInside | numerical/utils/linalg.py:21 | the row-major position of a valid index lies below the product of the lengths |
| LinAlg.RowMajorInjective | numerical/utils/linalg.py:21 | two valid indices at the same row-major position are equal |
| LinAlg.OuterAt | numerical/utils/linalg.py:14 | one outer-product step has `|t| |v|` entries, and entry `i |v| + l` is `t[i] v[l]` |
| LinAlg.MultiDot | numerical/utils/linalg.py:4-15 | `multi_dot` fails (an `IndexError`) exactly on an empty argument list |
| LinAlg.OuterExtends | numerical/utils/linalg.py:14-15 | multiplying an outer product of `vs` by `v` gives the outer product of `vs + [v]` |
| LinAlg.MultiDotFromIsOuterProduct | numerical/utils/linalg.py:14-15 | the recursion of `multi_dot` keeps the running value an outer product of the vectors consumed so far |
| LinAlg.MultiDotIsOuterProduct | numerical/utils/linalg.py:4-15 | `multi_dot(v1..vd)` flattened has `prod |vi|` entries, and its entry at row-major index `(k1..kd)` is `prod vi[ki]` |
| LinAlg.MultiDotSingle | numerical/utils/linalg.py:12-13 | `multi_dot(v)` is `v` |
| LinAlg.MultiDotPair | numerical/utils/linalg.py:14 | `multi_dot(u, v)` has shape `(|u|, |v|)` and entry `[k][l] = u[k] v[l]` |
| LinAlg.OuterProductAt | numerical/utils/linalg.py:14-15 | every entry of an outer product is the product at the row-major digits of its position |
| LinAlg.MultiDot2 | numerical/utils/linalg.py:18-24 | `multi_dot2` fails exactly when `multi_dot` does; it keeps its values and their order; with no flag it returns `multi_dot` itself; `flatten` makes it 1-D and `reshape` makes it a column |
| LinAlg.MultiDot2ColumnSameAsFlat | numerical/utils/linalg.py:18-24 | the column, the flat vector and the reshaped-only output hold the same values in the same order |
| LinAlg.Polar2Cartesian | numerical/utils/linalg.py:27-34 | the image has exactly two components; a point with fewer than two coordinates is an `IndexError` |
| LinAlg.Polar2CartesianScales | numerical/utils/linalg.py:34 | both components scale linearly with the radius `x[0]` |
| LinAlg.Polar2CartesianOrigin | numerical/utils/linalg.py:34 | radius 0 maps to the origin at every angle |
| LinAlg.Polar2CartesianIgnoresRest | numerical/utils/linalg.py:34 | coordinates after the first two do not matter |
| LinAlgLegacy.MultiDotArgs | utils/linalg.py:4-15 | the older recursion over the argument tuple fails exactly on an empty tuple |
| LinAlgLegacy.ArgsFold | utils/linalg.py:12-15 | folding the older argument tuple gives the fold of `numerical/utils/linalg.py` |
| LinAlgLegacy.MultiDotOldSame | utils/linalg.py:4-15 | the older `multi_dot` equals the newer one on every input, errors included |
| LinAlgLegacy.MultiDot2OldSame | utils/linalg.py:18-24 | the older `multi_dot2` equals the newer one for every flag combination |
| LinAlgLegacy.MultiDotOldSmall | utils/linalg.py:12-14 | in the older module, `multi_dot(u) = u` and `multi_dot(u, v)[k][l] = u[k] v[l]` |
| LinAlgLegacy.MultiDotOldIsOuterProduct | utils/linalg.py:4-15 | the older `multi_dot` is the row-major outer product, of length `prod |vi|` |
| Arrays.RepeatAt | numerical/integration/utils.py:18 | `np.repeat(s, k)` has `|s| k` entries, and entry `c` is `s[c / k]` |
| Arrays.TileAt | numerical/integration/utils.py:19 | `np.tile(s, k)` has `k |s|` entries, and entry `c` is `s[c % |s|]` |
| Arrays.RepeatColsAt | numerical/integration/utils.py:18 | repeating columns `k` times gives shape `(rows, cols k)` with entry `[r][c] = a[r][c / k]` |
| Arrays.RepeatRowsAt | numerical/integration/utils.py:18 | repeating rows `k` times gives shape `(rows k, cols)` with entry `[r][c] = a[r / k][c]` |
| Arrays.Tile2At | numerical/integration/utils.py:19 | the 2-D tile `(p, q)` has shape `(p rows, q cols)` with entry `[r][c] = a[r % rows][c % cols]` |
| Arrays.RepeatBothAt | numerical/integration/utils.py:18 | repeating columns then rows gives entry `a[r / k][c / w]` |
| Arrays.RepeatTileAt | numerical/integration/utils.py:24 | repeating the rows of a 2-D tile gives entry `a[(r / k) % rows][c % cols]` |
| Arrays.RepeatTileDigits | numerical/integration/utils.py:24 | the same map, stated on row and column digits |
| Arrays.RepeatRepeat | numerical/integration/utils.py:23 | repeating `p` times and then `q` times is repeating `p q` times |
| Arrays.RepeatColsTwice | numerical/integration/utils.py:23 | the same for columns |
| Arrays.TileOnce | integration/gauss.py:63-64 | tiling once changes nothing |
| Arrays.Tile2Nested | integration/gauss.py:63-64 | `tile(tile(a, (1, q)), (p, 1))` equals `tile(a, (p, q))` |
| Arrays.Slice | numerical/integration/gauss.py:47-48 | Python slicing `s[lo:hi]` has `min(hi, |s|) - lo` entries when `lo < hi`, else none, and entry `i` is `s[lo + i]` |
| IntegrationUtils.RepeatArgs | numerical/integration/utils.py:4-29 | a `ValueError` for no arguments or more than three; an `IndexError` when `cnt_reps` is too short; otherwise one output per argument; a single argument is returned unchanged |
| IntegrationUtils.RepeatArgs2At | numerical/integration/utils.py:17-20 | 2-D outputs have shape `(c0 c1, n^2)`, with `xx[r][c] = A[r / c1][c / n]` and `yy[r][c] = B[r % c1][c % n]` |
| IntegrationUtils.RepeatArgs2Product | numerical/integration/utils.py:17-20 | at cell row `i c1 + j` and root column `k n + l`, `xx = A[i][k]` and `yy = B[j][l]`: a full product in the weight order |
| IntegrationUtils.RepeatArgs3At | numerical/integration/utils.py:22-26 | 3-D outputs have shape `(c0 c1 c2, n^3)`, with `xx = A[row / (c1 c2)][c / n^2]`, `yy = B[row / c2 % c1][c % n]` and `zz = C[row % c2][c % n]` |
| IntegrationUtils.RepeatArgs3Product | numerical/integration/utils.py:22-26 | at cell row `(i, j, m)` and root column `(k, l, o)`: `xx = A[i][k]`, `yy = B[j][o]` and `zz = C[m][o]`, so y and z share one root index |
| IntegrationUtils.RepeatArgsCorrected | numerical/integration/utils.py:22-26 | the corrected repetition differs only for three arguments, and fails exactly when the original does |
| IntegrationUtils.RepeatArgsCorrected3Product | numerical/integration/utils.py:22-26 | the corrected 3-D block is a full product: `yy = B[j][l]` at root column `(k, l, o)` |
| IntegrationUtils.RepeatArgsShape2 | numerical/integration/utils.py:17-20 | the 2-D outputs have shape `(c0 c1, n^2)`, and the correction leaves 2-D unchanged |
| IntegrationUtils.RepeatArgsShape3 | numerical/integration/utils.py:22-26 | both 3-D versions have shape `(c0 c1 c2, n^3)` |
| Coordinates.CoordinateTransform | numerical/utils/integration.py:33-43 | "cartesian" and "polar" succeed; "spherical" raises `NotImplementedError`; any other tag raises `ValueError` |
| Coordinates.Apply | numerical/utils/integration.py:37-38 | the polar wrapper fails (an `IndexError`) exactly at points with fewer than two coordinates |
| Coordinates.CartesianIsIdentity | numerical/utils/integration.py:34-35 | the cartesian tag returns the integrand unchanged, at every point |
| Coordinates.PolarValue | numerical/utils/integration.py:36-39 | the polar wrapper is `f(polar2cartesian(x)) x[0]` |
| Coordinates.PolarConstant | numerical/utils/integration.py:37-38 | a constant integrand `c` becomes `c x[0]` |
| Coordinates.PolarAtOrigin | numerical/utils/integration.py:37-38 | the polar wrapper is 0 at radius 0, whatever the integrand |
| BatchLoop.StartLists | numerical/integration/gauss.py:59-63 | axis `d` has the batch starts `0, b_d, 2 b_d, ... < N_d` |
| BatchLoop.Loop | numerical/integration/gauss.py:40-64 | a call of the loop hands back `batch_position` as it found it |
| BatchLoop.While | numerical/integration/gauss.py:59-64 | the `while` of axis `k` ends with `batch_position[k]` reset to 0 and the other positions unchanged |
| BatchLoop.RunLoop | numerical/integration/gauss.py:29-64 | after the top-level call, `batch_position` is all zeros again |
| BatchLoop.RunLoopShortBatch | numerical/integration/gauss.py:40-64 | with a `batch_size` tuple shorter than the axes, the loop never returns a block; with cells on every axis it fails at the first innermost call, at all positions 0, with that call's error or the `IndexError` of advancing past the tuple |
| BatchLoop.MapAllFacts | numerical/integration/gauss.py:55-57 | running the leaf over a list of positions fails iff some leaf fails; otherwise it appends one block per position, in order |
| BatchLoop.LoopVisits | numerical/integration/gauss.py:40-64 | the call at depth `k` runs the leaf once per tuple of starts of axes `k..`, prefixed by the current positions, in order |
| BatchLoop.WhileVisits | numerical/integration/gauss.py:59-64 | the `while` of axis `k` runs the leaf on the starts from `pos[k]` crossed with the later axes' tuples, then resets `pos[k]` |
| BatchLoop.RunLoopVisits | numerical/integration/gauss.py:35-64 | the whole loop runs the leaf once per tuple of batch starts, in the order of the tuple list, and restores zero positions |
| BatchLoop.RunLoopSameLeaves | numerical/integration/gauss.py:40-64 | two leaves that agree at every position give the same loop result |
| BatchLoop.StartsFromMember | numerical/integration/gauss.py:60-63 | from `p`, the loop visits exactly the `x` with `p <= x < N` and `x - p` a multiple of `b` |
| BatchLoop.StartsMember | numerical/integration/gauss.py:60-63 | from 0, it visits exactly the multiples of `b` below `N` |
| BatchLoop.StartsIncreasing | numerical/integration/gauss.py:63 | the starts strictly increase |
| BatchLoop.StartsNoDup | numerical/integration/gauss.py:60-63 | no start is visited twice |
| BatchLoop.StartsCover | numerical/integration/gauss.py:47-63 | every cell lies in the batch that starts at `(c / b) b`, and in no other batch |
| BatchLoop.StartsCount | numerical/integration/gauss.py:60-63 | the number of batches is `ceil(N / b)` |
| BatchLoop.TuplesMember | numerical/integration/gauss.py:58-64 | a tuple is visited iff each component is one of its axis's starts |
| BatchLoop.TuplesNoDup | numerical/integration/gauss.py:58-64 | no tuple is visited twice |
| BatchLoop.TuplesSorted | numerical/integration/gauss.py:58-64 | tuples are visited in lexicographic order, the first axis outermost |
| BatchLoop.VisitOrder | numerical/integration/gauss.py:58-64 | the leaf runs exactly once per tuple `(p_0..p_{d-1})` with `p_d < N_d` a multiple of `b_d`, in lexicographic order |
| BatchLoop.TuplesEmpty | numerical/integration/gauss.py:60 | no leaf runs iff some axis has no cells |
| BatchLoop.CrossLength | numerical/integration/gauss.py:58-64 | the number of visited tuples is the product of the batch counts |
| Blocks.Counts | numerical/integration/gauss.py:47-53 | `cnt_reps[d]` is the length of the slice of `sum` at the block's start |
| Blocks.AllCellsMember | numerical/integration/gauss.py:33 | the row-major cell list holds exactly the valid cell indices |
| Blocks.AllCellsNoDup | numerical/integration/gauss.py:33 | the row-major cell list has no duplicates |
| Blocks.StartMember | numerical/integration/gauss.py:58-64 | the visited tuples are exactly the block corners, each visited once |
| Blocks.BoxMember | numerical/integration/gauss.py:46-55 | a leaf block covers exactly the cells within `[p_d, min(p_d + b_d, N_d))` on every axis |
| Blocks.BoxNoDup | numerical/integration/gauss.py:46-55 | a block lists no cell twice |
| Blocks.CellInSweep | numerical/integration/gauss.py:46-64 | every cell lies in the block at its corner `(c_d / b_d) b_d` |
| Blocks.SweepDisjoint | numerical/integration/gauss.py:46-64 | a cell lies in at most one visited block |
| Blocks.SweepMember | numerical/integration/gauss.py:35-64 | the concatenated blocks hold exactly the cells of the grid |
| Blocks.SweepCovers | numerical/integration/gauss.py:35-64 | the concatenated blocks are a permutation of the row-major cell list, so they have `prod N_d` rows |
| Blocks.BoxAt | numerical/integration/gauss.py:46-55 | row `r` of a block is its corner shifted by the row-major digits of `r` within the block |
| Blocks.BoxLength | numerical/integration/gauss.py:53 | a block has `prod cnt_reps[d]` rows |
| SweepOrder.FirstAxisTuples | numerical/integration/gauss.py:58-64 | when only the first axis is batched, the visited tuples are `(p, 0, ..., 0)` for each start `p` |
| SweepOrder.FirstBoxSlice | numerical/integration/gauss.py:46-55 | then each block is the contiguous run of the row-major cell list from `p Size(rest)` to `(p + span) Size(rest)` |
| SweepOrder.FirstBoxesFrom | numerical/integration/gauss.py:59-64 | the blocks from start `p` on concatenate to the row-major cells from `p Size(rest)` on |
| SweepOrder.FirstAxisSweep | numerical/integration/gauss.py:35-64 | when only the first axis is batched, the concatenated blocks are the row-major cell list |
| SweepOrder.IntegrateFirstAxisBatched | numerical/integration/gauss.py:33-37 | then `integrate` dots the row-major volume factors with the row-major cell sums |
| SweepOrder.IntegrateFirstAxisComposite | numerical/integration/gauss.py:9-37 | in one or two axes with only the first axis batched, `integrate` is the composite rule |
| SweepOrder.IntegrateOneAxis | numerical/integration/gauss.py:9-37 | in 1-D, `integrate` is the composite rule `sum_i diff[i] sum_k w[k] f(sum[i] + diff[i] r[k])` for every batch size |
| Gauss.DefaultBatch | numerical/integration/gauss.py:21-22 | a missing `batch_size` is `(32,) * dim` |
| Gauss.CellCounts | numerical/integration/gauss.py:60 | `n_roots` of axis `d` is its number of cells |
| Gauss.BatchArg | numerical/integration/gauss.py:46-50 | the block argument of an axis has one row per block cell and one column per root, entry `sum[p + i] + diff_t[p + i] roots[k]` |
| Gauss.BatchArgs | numerical/integration/gauss.py:45-52 | `batch_args` holds one block argument per axis, at that axis's position and batch size |
| Gauss.Evaluate | numerical/integration/gauss.py:55 | the integrand is applied to the stacked components entry by entry: one call per (row, column) sample |
| Gauss.Reduce | numerical/integration/gauss.py:36-37 | the reduction fails iff there are no blocks or the lengths disagree; otherwise it is `nd_outer_diff . concat(result)` |
| Gauss.Integrate | numerical/integration/gauss.py:9-37 | `integrate` on a grid with no axes is an `IndexError` |
| Gauss.IntegrateShortBatch | numerical/integration/gauss.py:40-64 | a `batch_size` tuple shorter than the grid never gives a value; with cells on every axis the first innermost call raises `IndexError` at `batch_size[dim]` |
| Gauss.CompsShape | numerical/integration/gauss.py:55 | the stacked block has one component per axis, each of shape `(prod cnt_reps, n^dim)` |
| Gauss.CompsDigits1 | numerical/integration/utils.py:14-15 | in 1-D, entry `[i][k]` of the block is the sample of cell `p + i` at root `k` |
| Gauss.CompsDigits2 | numerical/integration/gauss.py:50-55 | in 2-D, entry `[i c1 + j][k n + l]` holds the samples of cells `p0 + i`, `p1 + j` at roots `k`, `l` |
| Gauss.CompsDigits3 | numerical/integration/gauss.py:50-55 | in 3-D the same with the y root taken as `o` when tied (as written) and as `l` when corrected |
| Gauss.RootsAt3 | numerical/integration/gauss.py:31-55 | column `(k, l, o)` samples roots `(k, o, o)` as written and `(k, l, o)` corrected |
| Gauss.LeafIs | numerical/integration/gauss.py:42-57 | the leaf succeeds, and its values are the integrand over the stacked block times the product weights |
| Gauss.LeafRowsOf | numerical/integration/gauss.py:56 | `np.matmul(f_val, nd_leg_weights)` has one row per block cell: the row dotted with the weights |
| Gauss.BlockRow2 | numerical/integration/gauss.py:55 | in 2-D, row `i c1 + j` of `f_val` is the integrand at every sample of cell `(p0 + i, p1 + j)` |
| Gauss.BlockRow3 | numerical/integration/gauss.py:55 | the same in 3-D |
| Gauss.LeafValues1 | numerical/integration/gauss.py:42-57 | in 1-D the leaf appends the per-cell Gauss sums of its block's cells, in block order |
| Gauss.LeafValues2 | numerical/integration/gauss.py:42-57 | the same in 2-D |
| Gauss.LeafValues3 | numerical/integration/gauss.py:42-57 | the same in 3-D, with the as-written root tie |
| GaussSweep.LegWeights | numerical/integration/gauss.py:31 | `nd_leg_weights` is the column of row-major products of the Legendre weights |
| GaussSweep.DiffWeights | numerical/integration/gauss.py:33 | `nd_outer_diff` is the row-major list of cell volume factors (products of half-widths) |
| GaussSweep.LeafValues | numerical/integration/gauss.py:42-57 | each leaf appends the per-cell Gauss sums of its block's cells, in block order |
| GaussSweep.SweepBlocks | numerical/integration/gauss.py:35-64 | the loop's result list is the per-block cell sums, in visiting order, and the positions return to zero |
| GaussSweep.SweepEmpty | numerical/integration/gauss.py:36-60 | no block is appended iff some axis has no cells |
| GaussSweep.IntegrateAsWritten | numerical/integration/gauss.py:9-37 | `integrate` returns the row-major volume factors dotted with the cell sums in block-concatenation order |
| GaussSweep.IntegrateNoCells | numerical/integration/gauss.py:36 | with an axis of no cells, `np.concatenate([])` raises `ValueError` |
| GaussSweep.IntegrateTooManyAxes | numerical/integration/utils.py:28-29 | more than three axes raise `ValueError` |
| GaussSweep.IntegrateCorrected | numerical/integration/gauss.py:9-37 | the corrected `integrate` on a grid with no axes is an `IndexError` |
| GaussSweep.IntegrateCorrectedIsComposite | numerical/integration/gauss.py:9-37 | with 1 to 3 axes, each holding a cell, the corrected quadrature is the composite Gauss-Legendre rule for every batch size |
| GaussSweep.CorrectedBatchInvariant | numerical/integration/gauss.py:21-22 | the corrected result does not depend on the batch sizes or on the default |
| GaussSweep.UntiedOffThree | numerical/integration/utils.py:14-20 | outside 3-D, the root tie changes nothing |
| GaussSweep.SingleBatch | numerical/integration/gauss.py:46-64 | when every batch covers its axis, the only block is the row-major cell list |
| GaussSweep.IntegrateOneBatch | numerical/integration/gauss.py:9-37 | with a single block, `integrate` dots the row-major volume factors with the row-major (tied) cell sums |
| GaussSweep.IntegrateSingleBatch | numerical/integration/gauss.py:9-37 | in 1-D or 2-D, with one block, `integrate` is the composite rule |
| GaussSweep.IntegrateDefault | numerical/integration/gauss.py:21-22 | no `batch_size` is the same as `(32,) * dim` |
| GaussSweep.IntegrateDefaultBatch | numerical/integration/gauss.py:21-22 | in 1-D or 2-D with at most 32 cells per axis, the default call is the composite rule |
| GaussLegacy.RepeatOld | integration/gauss.py:47-77 | the older `_repeat` has the same error cases as `repeat_args`, and returns one argument unchanged |
| GaussLegacy.RepeatOldSame | integration/gauss.py:60-74 | the older `_repeat` equals the live `repeat_args` on every input, the 3-D root tie included |
| GaussLegacy.LeafOldSame | integration/gauss.py:81-89 | the older innermost call builds the same block as the live one at every position |
| GaussLegacy.GlIntegrateShortBatch | integration/gauss.py:8-95 | a short `batch_size` tuple makes `gl_integrate` fail, with an `IndexError` when every axis has a cell |
| GaussLegacy.GlIntegrateSame | integration/gauss.py:8-95 | `gl_integrate` equals the live `integrate` with the same batch sizes: same visits, same reset, same reduction |
| GaussFindings.BlockOrderWitness | numerical/integration/gauss.py:33-64 | on a 2 x 2 grid with batch sizes (2, 1), `integrate` of `x[0]` gives 2.625, but the composite rule gives 2.25 |
| GaussFindings.TieWitness | numerical/integration/utils.py:22-26 | on `[-1, 1]^3` with a symmetric two-point rule, `integrate` of `x[1] x[2]` gives `8 a^2`, but the composite rule gives 0 |
| GaussFindings.SweepTwoByOne | numerical/integration/gauss.py:59-64 | with batch sizes (2, 1) on 2 x 2 cells, the blocks concatenate to cells (0,0), (1,0), (0,1), (1,1), not in row-major order |
| Splines.Linear | numerical/splines/definitions.py:7-20 | `linear` lies in [0, 1], equals 1 only at 0, and is 0 exactly outside (-1, 1) |
| Splines.LinearSymmetric | numerical/splines/definitions.py:14-19 | `linear(-x) = linear(x)` |
| Splines.LinearAtIntegers | numerical/splines/definitions.py:14-19 | `linear(t - s)` at integers is 1 if `t = s` and 0 otherwise |
| Splines.LinearBetween | numerical/splines/definitions.py:14-17 | for `0 <= theta < 1`: `linear(theta) = 1 - theta` and `linear(theta - 1) = theta` |
| Splines.Schoenberg | numerical/splines/definitions.py:24-44 | `schoenberg` is 0 outside [0, 3) |
| Splines.D1 | numerical/splines/derivatives.py:17-34 | `d1` is 0 outside [0, 3) |
| Splines.D2 | numerical/splines/derivatives.py:36-51 | `d2` is 0 outside [0, 3) |
| Splines.D3 | numerical/splines/derivatives.py:53-68 | `d3` is 0 outside [0, 3) |
| Splines.SchoenbergPieceIsPoly | numerical/splines/definitions.py:31-40 | each piece of `schoenberg` is a degree-5 polynomial with the tabulated coefficients |
| Splines.D1PieceIsDerivative | numerical/splines/derivatives.py:20-30 | each piece of `d1` is the term-wise derivative of the matching `schoenberg` piece |
| Splines.D2PieceIsDerivative | numerical/splines/derivatives.py:39-47 | each piece of `d2` is the second derivative of the matching `schoenberg` piece |
| Splines.D3PieceIsDerivative | numerical/splines/derivatives.py:56-64 | each piece of `d3` is the third derivative of the matching `schoenberg` piece |
| Splines.DerivativeTables | numerical/splines/derivatives.py:17-68 | at every `x` in [0, 3), `schoenberg`, `d1`, `d2` and `d3` are the polynomial of `x`'s piece and its first three derivatives |
| Splines.SchoenbergJoins | numerical/splines/definitions.py:29-43 | `schoenberg(0) = 0.55` while it is 0 left of 0; adjacent pieces agree at 1 and 2; the last piece is 0 at 3 |
| Splines.DerivativesAtZero | numerical/splines/derivatives.py:22-58 | `d1(0) = 0`, `d2(0) = -1` and `d3(0) = 0` |
| Splines.NewSplineDerivatives | numerical/splines/derivatives.py:6-10 | `max_order > 3` raises `NotImplementedError`; otherwise the order is stored |
| Splines.OrdersUpTo | numerical/splines/derivatives.py:13 | `range(max_order)` shifted by one is the orders `1..max_order`, in order |
| Splines.AttachedImplemented | numerical/splines/derivatives.py:12-15 | `__call__` attaches only derivatives of orders 1 to 3 |
| SplineDerivs.DerivsSame | numerical/spline_derivs.py:7-58 | `deriv1`, `deriv2` and `deriv3` equal `d1`, `d2` and `d3` everywhere |
| SplineDerivs.Lookup | numerical/spline_derivs.py:61-102 | `deriv(*key)` returns the table entry for a known key and raises `KeyError` otherwise |
| SplineDerivs.Schoenberg1dLookup | numerical/spline_derivs.py:61-68 | a 1-D key succeeds iff it is `(v, k)` with `v` the active variable and `k` in 1..3; the entry is the `k`-th derivative |
| SplineDerivs.Schoenberg2dSingle | numerical/spline_derivs.py:73-90 | `(y, 1)` selects `s(x) deriv1(y)` and `(x, 1)` selects `deriv1(x) s(y)`; other single keys raise `KeyError` |
| SplineDerivs.Schoenberg2dSymmetric | numerical/spline_derivs.py:92-99 | mixed keys are order-insensitive: `(u, a, w, b)` and `(w, b, u, a)` give the same lookup |
| SplineDerivs.Schoenberg2dMixed | numerical/spline_derivs.py:79-99 | `(x, a, y, b)` succeeds iff `(a, b)` is (1, 1), (2, 1) or (1, 2), and its entry is the product of the 1-D derivatives of orders `a` and `b` |
| SplineDerivs.Schoenberg2dSameName | numerical/spline_derivs.py:88-100 | with both active variables equal, later dictionary entries overwrite earlier ones |
| InterpolationKernel.IsEqMeaning | numerical/_interpolation.c:10-13 | `isEq(a, b)` iff `|a - b| < 1e-12`, and it is symmetric |
| InterpolationKernel.IsGeqLeq | numerical/_interpolation.c:15-23 | `isGeq(a, b)` iff `isLeq(b, a)` iff `a > b - 1e-12` |
| InterpolationKernel.BSpline | numerical/_interpolation.c:25-33 | `_bSpline` lies in [0, 1 + 1e-12] and is 0 outside (-1, 1) |
| InterpolationKernel.BSplineIsLinear | numerical/_interpolation.c:25-33 | `_bSpline` equals `linear` except on (0, 1e-12), where it is `t + 1`; the two never differ by 2e-12 or more |
| InterpolationKernel.BSplineAtIntegers | numerical/_interpolation.c:25-33 | `_bSpline(k)` is 1 at 0 and 0 at every other integer |
| InterpolationKernel.Kernel1D | numerical/_interpolation.c:99-111 | the 1-D kernel gives one output per query point: `sum_i tabs[i] _bSpline((n - 1)(x - a)/(b - a) - i)` |
| InterpolationKernel.Kernel1DAtNode | numerical/_interpolation.c:99-111 | at node `j` the 1-D kernel returns `tabs[j]` |
| InterpolationKernel.Kernel1DBetween | numerical/_interpolation.c:99-111 | between nodes `j` and `j + 1` it is `(1 - theta) tabs[j] + theta tabs[j + 1]`, except for `theta` in (0, 1e-12), where the weight of `tabs[j]` is `1 + theta` |
| InterpolationKernel.Kernel2D | numerical/_interpolation.c:160-220 | the 2-D kernel fails only on an empty `x1`; otherwise it gives one output per point of `x1`, the sum `sum_{i, j} tabs[i][j] B(.. - i) B(.. - j)` at `(x1[p], x2[p])`; the tail of a longer `x2` is ignored, and an empty table gives 0 |
| InterpolationKernel.Kernel2DAtNode | numerical/_interpolation.c:203-217 | at node `(j1, j2)` the 2-D kernel returns `tabs[j1][j2]` |
| InterpolationKernel.PointSum | numerical/_interpolation.c:314-329 | the nested loops accumulate the triple sum, consuming `tabs` in row-major `i, j, k` order |
| InterpolationKernel.Kernel3D | numerical/_interpolation.c:269-337 | the 3-D kernel fails iff `x1` or the table is empty; otherwise it gives one output per point of `x1`, the triple sum at `(x1[p], x2[p], x3[p])`; the tails of longer `x2` and `x3` are ignored |
| InterpolationKernel.Kernel3DAtNode | numerical/_interpolation.c:314-333 | at node `(j1, j2, j3)` the 3-D kernel returns the row-major entry of `tabs` |
| InterpolationUtils.RepeatLast | numerical/utils/interpolation.py:4-36 | a `ValueError` for no arguments or more than three; an `IndexError` when `nodes_count` is too short; otherwise one output per argument; one argument is returned unchanged |
| InterpolationUtils.RepeatLast2Product | numerical/utils/interpolation.py:15-22 | 2-D: leading rows are kept, and last-axis index `a n1 + b` holds `(args0[r][a], args1[r][b])` |
| InterpolationUtils.RepeatLast3Product | numerical/utils/interpolation.py:23-34 | 3-D: index `(a n1 + b) n2 + c` holds `(args0[r][a], args1[r][b], args2[r][c])`, a full product |
| InterpolationUtils.RepeatLastAt | numerical/utils/interpolation.py:13-34 | for one to three arguments, component `d` at column `c` picks its argument at digit `d` of `c`'s row-major digits |
| Interpolation.SeqMin | numerical/interpolation.py:21 | `g.min()` is an element no greater than any other |
| Interpolation.SeqMax | numerical/interpolation.py:21 | `g.max()` is an element no less than any other |
| Interpolation.Interpolate | numerical/interpolation.py:7-25 | an empty grid is an `IndexError`; an empty axis is a `ValueError`; otherwise the interpolant keeps the ravelled values, each axis's min and max, and its node count; a single-node axis has `lo == hi` |
| Interpolation.BatchArgsAt | numerical/interpolation.py:54-57 | the argument for axis `d`, batch row `r` and node `s` is `(n - 1)(x - lo)/(hi - lo) - s` at point `pos + r` |
| Interpolation.LeafEntry | numerical/interpolation.py:59-60 | entry `(r, c)` of the hat product is the product over axes of the hats at node `c`'s row-major digits |
| Interpolation.LeafRow | numerical/interpolation.py:52-63 | row `r` of a batch is the interpolant at point `pos + r`, and a batch has `min(pos + bs, npts) - pos` rows |
| Interpolation.LeafErrors | numerical/interpolation.py:52-63 | a batch fails iff `x` has too few rows (`IndexError`), there are no axes or more than three (`ValueError`), or the values do not match the node count (`ValueError`) |
| Interpolation.LeafValues | numerical/interpolation.py:51-64 | a batch returns exactly the interpolant at its points, in order |
| Interpolation.LoopValues | numerical/interpolation.py:49-64 | the loop's blocks concatenate to the interpolant at every point from `pos` on, in order |
| Interpolation.EvaluateValues | numerical/interpolation.py:27-44 | `_interpolated(x)` fails iff there are no points or a batch fails; otherwise it is the interpolant at every query point, in order; axes with a single node are included |
| Interpolation.DegenerateValue | numerical/interpolation.py:55-60 | on an axis with `lo == hi` the argument is NaN or infinite, `linear` of it is 0, and so the interpolant is 0 at every point |
| Interpolation.EvaluateDegenerate | numerical/interpolation.py:27-64 | with an axis whose nodes all coincide, `_interpolated(x)` returns 0 at every query point whenever it returns |
| Interpolation.SingleNodeAxis | numerical/interpolation.py:7-64 | `interpolate` accepts a grid with a single-node axis, and the function it returns is 0 at every point whenever it returns |
| Interpolation.BatchSizeIrrelevant | numerical/interpolation.py:41-64 | the output does not depend on `batch_size` |
| Interpolation.ArgAtNode | numerical/interpolation.py:55-56 | at node `j` of an axis, the argument for shift `s` is `j - s` |
| Interpolation.HatsAtNode | numerical/interpolation.py:59-60 | at a grid node, every axis's hats are 1 at that node and 0 elsewhere |
| Interpolation.ValueAtNode | numerical/interpolation.py:59-63 | at a grid node, the interpolant returns the tabulated value |
| Interpolation.HatsBetween | numerical/interpolation.py:55-60 | in 1-D between nodes `j` and `j + 1`, the hats are `1 - theta` at `j`, `theta` at `j + 1`, and 0 elsewhere |
| Interpolation.ValueBetween | numerical/interpolation.py:59-63 | in 1-D between nodes `j` and `j + 1`, the interpolant is `(1 - theta) v_j + theta v_{j+1}` |

## Left out

- Plotting, `__repr__` and the matplotlib calls are not modelled: they are display, not logic.
- `utils/coord_transform.py` is not part of this model: it uses trigonometry and `np.angle`. `polar2cartesian` is `[x[0] cos(x[1]), x[0] sin(x[1])]` with `cos` and `sin` as function parameters.
- Floating-point rounding is not modelled. All arithmetic is exact `real`. The length of `np.arange` is therefore `ceil((end - start) / step)` exactly, and the numeric test expectations (411.580, 72.9887, 5.77375, ...) are not reproduced.
- `leggauss` is an external library call. Its roots and weights are parameters, and Gauss exactness for polynomials is not stated.
- NumPy C-API plumbing in `numerical/_interpolation.c` is not modelled: argument parsing, `NpyIter` management, reference counting and module initialisation (lines 36-97, 117-127, 356-384). An empty query array is an error in InterpolationKernel.Kernel1D, InterpolationKernel.Kernel2D and InterpolationKernel.Kernel3D. This stands for the iterator set-up, which rejects empty arrays. Kernel1D and Kernel3D also reject an empty table, because each builds an iterator over it. Kernel2D builds none, so an empty table gives 0 at every point.
- InterpolationKernel.Kernel2D and InterpolationKernel.Kernel3D require `x2` (and `x3`) to be at least as long as `x1`. When one is shorter, the loop stops at the first exhausted iterator (lines 220 and 336-337). The output is allocated like `x1` (lines 160 and 269), so its tail is left as uninitialised memory, which has no value to model.
- InterpolationKernel.Kernel1D, InterpolationKernel.Kernel2D and InterpolationKernel.Kernel3D read arrays in logical row-major order. The iterators use `NPY_KEEPORDER` (lines 69-70, 165-166 and 274-277), which walks a negatively strided or Fortran-ordered operand in memory order instead. Only C-contiguous operands are modelled: the queries, the 1-D table and the 3-D table.
- `numerical/derivative.py`, the `@derivative.setup` decorator, `numerical/symfun.py`, `area/boundary.py`, `setup.py` and the examples are not modelled: they are attribute plumbing, a numexpr wrapper, a bare record, or not logic.
- `numerical/spline.py` is not part of this model. `spline.schoenberg1d`, used by `numerical/spline_derivs.py:74-77`, is taken to be `schoenberg` (Splines.Schoenberg).
- Gauss.Evaluate, Gauss.Integrate, GaussLegacy.GlIntegrate and Coordinates.Apply model the integrand as element-wise. It is a function `seq<real> -> real` applied once per sample point, so on the stacked block it returns an array shaped like `x[0]`. The source calls `ndfunc` once on the whole stacked array (numerical/integration/gauss.py:55, integration/gauss.py:87) and `np.matmul`s what it returns. Integrands that are not element-wise are not modelled. For example, `lambda x: 1.0` returns a scalar, and `np.matmul` raises `ValueError` on it.
- Splines.Schoenberg, Splines.D1, Splines.D2, Splines.D3, SplineDerivs.Deriv1, SplineDerivs.Deriv2, SplineDerivs.Deriv3 and SplineDerivs.DerivsSame model float64 array input only, one real entry at a time. `schoenberg` and the derivatives allocate with `np.zeros_like(x)` and do not convert to float (numerical/splines/definitions.py:29; derivatives.py:19, 38, 55; numerical/spline_derivs.py:9, 28, 45). So an integer array keeps its integer dtype and every assigned value is truncated: `schoenberg(np.arange(-1, 4))` is all zeros. A plain Python scalar raises `TypeError` at `x[idx]`. `linear` converts its argument to a float64 array first (definitions.py:12), so it is not affected.
- Array-shape plumbing is only modelled as the index maps stated above. This covers `expand_dims`, `rollaxis`, `reshape(-1, 1)` and NumPy broadcasting of `sum_batch + diff_t_batch @ leg_roots`.
- The meshgrid passed to `interpolate` is modelled by its per-axis node lists. The query `x` is a `dim x npts` matrix. The `expand_dims` at `numerical/interpolation.py:37-38` is not modelled.
- Attribute-wiring errors are modelled with their intended meaning, not as `AttributeError`:
  - `cartesian.py` and `polar.py` read `self._data` where `_base.py` stores `_bounds`; the described rectangle is the stored list;
  - polar boundaries have no `COORDS_TYPE`;
  - grids are accessed dict-style (`ndgrid[d]['sum']`).
- `n_roots`, read at `numerical/integration/gauss.py:60`, is never defined by `grid.py`. It is taken to be the axis's cell count.
- Grid.BuildNodes requires `step > 0`, because the source has no guard against a zero or negative step.
- BatchLoop.RunLoop, Gauss.Integrate and GaussLegacy.GlIntegrate require every batch size the loop reads to be positive, because with a zero batch size `_integration_loop` never terminates. A `batch_size` tuple shorter than the grid is accepted. It fails with an `IndexError` (BatchLoop.RunLoopShortBatch, Gauss.IntegrateShortBatch).
- Interpolation.Loop requires `batch_size > 0` for the same reason.
- Interpolation.Arg: on an axis with `lo == hi`, floating point makes the hat argument NaN or an infinity. The model puts the stand-in real `NonFinite` in its place. `linear` is 0 at NaN, at both infinities and at `NonFinite`, and the code reads nothing else from the argument.
- Interpolation.Interpolate takes the values already ravelled in row-major order, matching `values.ravel()` at `numerical/interpolation.py:25`.
- GaussSweep.IntegrateCorrectedIsComposite is stated for one to three axes, each with at least one cell. More axes fail in `repeat_args`, and an empty axis fails in `np.concatenate`; both cases have their own lemmas.
- SweepOrder.IntegrateFirstAxisComposite is stated for one or two axes only. In three axes the root tie makes `integrate` differ from the composite rule even when only the first axis is batched. SweepOrder.IntegrateFirstAxisBatched states what three axes compute as written.
- GaussSweep.IntegrateSingleBatch and GaussSweep.IntegrateDefaultBatch cover one and two axes only. In three axes the root tie makes `integrate` differ from the composite rule; see Findings.

## Findings

| source | as written | input that shows it | evidently intended | confidence | as-written member | corrected member |
|---|---|---|---|---|---|---|
| numerical/integration/utils.py:22-26 | In 3-D, `yy_rep` tiles `B` with period `n` along the columns, so the y component of column `(k, l, o)` uses root `o`, the same root as z. The weights `nd_leg_weights` use `l`. The sample block is therefore not the product rule. The older `_repeat` at integration/gauss.py:67-74 does the same. | the cube `[-1, 1]^3` as one cell, integrand `x[1] x[2]`, roots `(-a, a)`, weights `(1, 1)`: the result is `8 a^2` (8/3 with Gauss-Legendre roots), where the integral is 0 | y should use root `(c / n) % n`, giving the full product `B[j][l]` | medium, not executed; the 3-D test at tests/test_integration_gauss.py:33 pins a value consistent with the tie | GaussFindings.TieWitness | IntegrationUtils.RepeatArgsCorrected3Product |
| numerical/integration/gauss.py:33-64 | The per-cell sums are concatenated block by block. They are then dotted with `nd_outer_diff`, which is in row-major cell order. The two orders agree only when every axis after the first has a single batch. | a 2 x 2 grid with x nodes 0, 1, 1.5 and y nodes 0, 1, 2, batch sizes (2, 1), a one-point rule (root 0, weight 2), integrand `x[0]`: the result is 2.625, where the composite rule gives 2.25 | each block's sums should be weighed with the volume factors of the block's own cells | high, not executed | GaussFindings.BlockOrderWitness | GaussSweep.IntegrateCorrectedIsComposite |
