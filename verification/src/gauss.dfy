/**
 * Batched composite Gauss-Legendre quadrature (`numerical/integration/gauss.py`).
 * Every cell `i` of axis `d` is mapped from [-1, 1] by `r -> sum[i] + diff[i] * r`;
 * the sweep evaluates the integrand on a batch of cells at a time, weighs each
 * cell's samples with the product Legendre weights and finally multiplies the
 * concatenated per-cell sums by the row-major outer product of the half-widths.
 * The Legendre roots and weights and the integrand are parameters.
 */
module Gauss {
  import opened Wrappers
  import opened Arith
  import opened Seqs
  import opened Arrays
  import opened LinAlg
  import opened Grid
  import opened IntegrationUtils
  import opened BatchLoop
  import opened Blocks

  // ---------------------------------------------------------------------------
  // Inputs
  // ---------------------------------------------------------------------------

  /** `(32,) * dim`: the batch used when none is given. */
  function DefaultBatch(dim: nat): (bs: seq<nat>)
    ensures |bs| == dim && forall d :: 0 <= d < dim ==> bs[d] == 32
  {
    seq(dim, _ => 32)
  }

  /** `ndgrid[d]['n_roots']`: the number of cells of every axis. */
  function CellCounts(grid: seq<AxisGrid>): (ns: seq<nat>)
    ensures |ns| == |grid| && forall d :: 0 <= d < |grid| ==> ns[d] == |grid[d].sum|
  {
    seq(|grid|, d requires 0 <= d < |grid| => |grid[d].sum|)
  }

  /** Every axis carries one half-width and one column half-width per cell, as `IntegrationMeta` builds them. */
  predicate Consistent(grid: seq<AxisGrid>)
  {
    forall d :: 0 <= d < |grid| ==> |grid[d].diff| == |grid[d].sum| && |grid[d].diffT| == |grid[d].sum|
  }

  /** `[gd['diff'] for gd in ndgrid]`. */
  function Diffs(grid: seq<AxisGrid>): (vs: seq<seq<real>>)
    requires Consistent(grid)
    ensures |vs| == |grid| && forall d :: 0 <= d < |grid| ==> vs[d] == grid[d].diff
    ensures Lens(vs) == CellCounts(grid)
  {
    seq(|grid|, d requires 0 <= d < |grid| => grid[d].diff)
  }

  /** `dim * [w]`: the weight vector once per axis. */
  function Copies(dim: nat, w: seq<real>): (vs: seq<seq<real>>)
    ensures |vs| == dim && forall d :: 0 <= d < dim ==> vs[d] == w
    ensures Lens(vs) == Uniform(dim, |w|)
  {
    seq(dim, _ => w)
  }

  /** The shape `(n,) * dim`. */
  function Uniform(dim: nat, n: nat): (lens: seq<nat>)
    ensures |lens| == dim && forall d :: 0 <= d < dim ==> lens[d] == n
  {
    seq(dim, _ => n)
  }

  /** `cell` names a cell of the grid. */
  predicate InGrid(grid: seq<AxisGrid>, cell: seq<nat>)
  {
    IsIndex(CellCounts(grid), cell)
  }

  // ---------------------------------------------------------------------------
  // The innermost call of `_integration_loop`
  // ---------------------------------------------------------------------------

  /**
   * `sum_batch + diff_t_batch @ leg_roots` on one axis: row `i` is cell `p + i`
   * of the batch starting at `p`, column `k` is root `k`.
   */
  function BatchArg(g: AxisGrid, roots: seq<real>, p: nat, b: nat): (m: Matrix)
    requires |g.diffT| == |g.sum|
    ensures IsShape(m, Span(|g.sum|, b, p), |roots|)
    ensures forall i, k :: 0 <= i < |m| && 0 <= k < |roots| ==>
      p + i < |g.sum| && m[i][k] == g.sum[p + i] + g.diffT[p + i] * roots[k]
  {
    var s := Slice(g.sum, p, p + b);
    var t := Slice(g.diffT, p, p + b);
    seq(|s|, i requires 0 <= i < |s| => Nodes(s[i], t[i], roots))
  }

  /** The Gauss nodes `mid + half * x` of one cell, one per root `x`. */
  function Nodes(mid: real, half: real, roots: seq<real>): (row: seq<real>)
    ensures |row| == |roots| && forall k :: 0 <= k < |roots| ==> row[k] == mid + half * roots[k]
  {
    seq(|roots|, k requires 0 <= k < |roots| => mid + half * roots[k])
  }

  /** `batch_args`: the sample matrix of every axis for the batch at `pos`. */
  function BatchArgs(grid: seq<AxisGrid>, roots: seq<real>, bs: seq<nat>, pos: seq<nat>): (args: seq<Matrix>)
    requires Consistent(grid) && |pos| == |grid| <= |bs|
    ensures |args| == |grid|
    ensures forall d :: 0 <= d < |grid| ==> args[d] == BatchArg(grid[d], roots, pos[d], bs[d])
  {
    seq(|grid|, d requires 0 <= d < |grid| => BatchArg(grid[d], roots, pos[d], bs[d]))
  }

  /**
   * `repeat_args(batch_args, roots_count, cnt_reps)`: the stacked sample block;
   * `tied` selects the block as written, otherwise the full product.
   */
  function Comps(grid: seq<AxisGrid>, roots: seq<real>, bs: seq<nat>, pos: seq<nat>, tied: bool): Result<seq<Matrix>>
    requires Consistent(grid) && |pos| == |grid| <= |bs|
  {
    var args := BatchArgs(grid, roots, bs, pos);
    var cnt := Counts(CellCounts(grid), bs, pos);
    if tied then RepeatArgs(args, |roots|, cnt) else RepeatArgsCorrected(args, |roots|, cnt)
  }

  /** The point handed to the integrand at row `r`, column `c` of a stacked block. */
  function Sample(comps: seq<Matrix>, rows: nat, cols: nat, r: nat, c: nat): (x: seq<real>)
    requires forall d :: 0 <= d < |comps| ==> IsShape(comps[d], rows, cols)
    requires r < rows && c < cols
    ensures |x| == |comps|
    ensures forall d :: 0 <= d < |comps| ==> r < |comps[d]| && c < |comps[d][r]| && x[d] == comps[d][r][c]
  {
    seq(|comps|, d requires 0 <= d < |comps| && IsShape(comps[d], rows, cols) => comps[d][r][c])
  }

  /**
   * `ndfunc(block)` for an element-wise integrand: `f` applied at every sample
   * of a stacked block, giving an array shaped like one component.
   */
  function Evaluate(f: seq<real> -> real, comps: seq<Matrix>, rows: nat, cols: nat): (v: Matrix)
    requires forall d :: 0 <= d < |comps| ==> IsShape(comps[d], rows, cols)
    ensures IsShape(v, rows, cols)
    ensures forall r, c :: 0 <= r < rows && 0 <= c < cols ==> v[r][c] == f(Sample(comps, rows, cols, r, c))
  {
    seq(rows, r requires 0 <= r < rows => seq(cols, c requires 0 <= c < cols => f(Sample(comps, rows, cols, r, c))))
  }

  /**
   * `np.matmul(ndfunc(block), nd_leg_weights)`: one weighted sum per row; a
   * ragged block or a weight column of the wrong length is a shape error.
   */
  function LeafRows(f: seq<real> -> real, comps: seq<Matrix>, w: seq<real>): (r: Result<seq<real>>)
    ensures r.Success? ==> |comps| > 0 && |r.value| == |comps[0]|
  {
    if |comps| == 0 then Failure(ValueError)
    else
      var rows := |comps[0]|;
      var cols := if rows == 0 then |w| else |comps[0][0]|;
      if exists d :: 0 <= d < |comps| && !IsShape(comps[d], rows, cols) then Failure(ValueError)
      else if cols != |w| then Failure(ValueError)
      else
        var v := Evaluate(f, comps, rows, cols);
        Success(seq(rows, r requires 0 <= r < rows => Dot(v[r], w)))
  }

  /** The innermost call of `_integration_loop` at batch position `pos`: the block `fw_mul`. */
  function Leaf(f: seq<real> -> real, grid: seq<AxisGrid>, roots: seq<real>, w: seq<real>,
                bs: seq<nat>, pos: seq<nat>, tied: bool): Result<seq<real>>
    requires Consistent(grid)
  {
    if |pos| < |grid| || |bs| < |grid| then Failure(IndexError)
    else
      var comps :- Comps(grid, roots, bs, pos[..|grid|], tied);
      LeafRows(f, comps, w)
  }

  /** The innermost call as the callback of the sweep. */
  function LeafOf(f: seq<real> -> real, grid: seq<AxisGrid>, roots: seq<real>, w: seq<real>,
                  bs: seq<nat>, tied: bool): seq<nat> -> Result<seq<real>>
    requires Consistent(grid)
  {
    pos => Leaf(f, grid, roots, w, bs, pos, tied)
  }

  // ---------------------------------------------------------------------------
  // `integrate`
  // ---------------------------------------------------------------------------

  /** `np.dot(nd_outer_diff, np.concatenate(result))[0]`. */
  function Reduce(dt: seq<real>, blocks: seq<seq<real>>): (r: Result<real>)
    ensures r.Failure? <==> |blocks| == 0 || |dt| != |Concat(blocks)|
    ensures r.Failure? ==> r.error == ValueError
    ensures r.Success? ==> r.value == Dot(dt, Concat(blocks))
  {
    if |blocks| == 0 then Failure(ValueError)
    else
      var v := Concat(blocks);
      if |dt| != |v| then Failure(ValueError) else Success(Dot(dt, v))
  }

  /**
   * `integrate(ndfunc, ndgrid, roots_count, batch_size)` with `leggauss(roots_count)`
   * given as `roots` and `weights`.
   */
  function Integrate(f: seq<real> -> real, grid: seq<AxisGrid>, roots: seq<real>, weights: seq<real>,
                     batch: Option<seq<nat>>): (r: Result<real>)
    requires Consistent(grid)
    requires batch.Some? ==> PositiveBatch(CellCounts(grid), batch.value)
    ensures |grid| == 0 ==> r == Failure(IndexError)
  {
    var dim := |grid|;
    var bs := if batch.Some? then batch.value else DefaultBatch(dim);
    var w :- MultiDot2(Copies(dim, weights), true, true);
    match MultiDot2(Diffs(grid), true, false)
    case Failure(e) => Failure(e)
    case Success(dt) =>
      var run :- RunLoop(CellCounts(grid), bs, LeafOf(f, grid, roots, w.data, bs, true));
      Reduce(dt.data, run.out)
  }

  /**
   * A `batch_size` tuple shorter than the grid never gives a value. With cells
   * on every axis the first innermost call raises `IndexError` at
   * `batch_size[dim]`; otherwise the loop stops at an advance past the tuple or
   * returns no block for `np.concatenate`.
   */
  lemma IntegrateShortBatch(f: seq<real> -> real, grid: seq<AxisGrid>, roots: seq<real>, weights: seq<real>,
                            bs: seq<nat>)
    requires Consistent(grid) && PositiveBatch(CellCounts(grid), bs) && |bs| < |grid|
    ensures Integrate(f, grid, roots, weights, Some(bs)).Failure?
    ensures (forall d :: 0 <= d < |grid| ==> |grid[d].sum| > 0) ==>
      Integrate(f, grid, roots, weights, Some(bs)).error == IndexError
  {
    var w := MultiDot2(Copies(|grid|, weights), true, true).value.data;
    RunLoopShortBatch(CellCounts(grid), bs, LeafOf(f, grid, roots, w, bs, true));
  }

  // ---------------------------------------------------------------------------
  // What the quadrature computes per cell
  // ---------------------------------------------------------------------------

  /**
   * The sample `sum[cell] + diff_t[cell] * roots[k]` of one axis; it is only asked
   * for inside the grid, and is zero elsewhere.
   */
  function Node(g: AxisGrid, roots: seq<real>, cell: int, k: int): real
  {
    if 0 <= cell < |g.sum| && cell < |g.diffT| && 0 <= k < |roots| then g.sum[cell] + g.diffT[cell] * roots[k] else 0.0
  }

  /** The sample of cell `cell` at root indices `ks`: the sample of every axis. */
  function Point(grid: seq<AxisGrid>, roots: seq<real>, cell: seq<int>, ks: seq<int>): (x: seq<real>)
    requires |cell| == |grid| && |ks| == |grid|
    ensures |x| == |grid|
    ensures forall d :: 0 <= d < |grid| ==> x[d] == Node(grid[d], roots, cell[d], ks[d])
  {
    seq(|grid|, d requires 0 <= d < |grid| => Node(grid[d], roots, cell[d], ks[d]))
  }

  /**
   * The root indices of column `c`: its row-major digits, except that the
   * three-axis block as written reuses the last digit on the second axis.
   */
  function RootIndices(tied: bool, dim: nat, n: nat, c: nat): (ks: seq<nat>)
    requires c < Size(Uniform(dim, n))
    ensures |ks| == dim && forall d :: 0 <= d < dim ==> ks[d] < n
  {
    var js := Unravel(Uniform(dim, n), c);
    if tied && dim == 3 then [js[0], js[2], js[2]] else js
  }

  /** `nd_leg_weights`, written out: entry `c` is the product of the weights at the root indices of `c`. */
  function WeightProducts(weights: seq<real>, dim: nat): (wp: seq<real>)
    ensures |wp| == Size(Uniform(dim, |weights|))
  {
    var lens := Uniform(dim, |weights|);
    seq(Size(lens), c requires 0 <= c < Size(lens) => ProdAt(Copies(dim, weights), Unravel(lens, c)))
  }

  /** The integrand at every sample of one cell, column `c` at the root indices of `c`. */
  function CellSamples(f: seq<real> -> real, grid: seq<AxisGrid>, roots: seq<real>, tied: bool,
                       cell: seq<int>): (fv: seq<real>)
    requires |cell| == |grid|
    ensures |fv| == Size(Uniform(|grid|, |roots|))
  {
    var dim, n := |grid|, |roots|;
    seq(Size(Uniform(dim, n)), c requires 0 <= c < Size(Uniform(dim, n)) =>
      f(Point(grid, roots, cell, RootIndices(tied, dim, n, c))))
  }

  /** The weighted sum the quadrature computes for one cell: `sum_c w_c * f(point_c)`. */
  function CellValue(f: seq<real> -> real, grid: seq<AxisGrid>, roots: seq<real>, weights: seq<real>,
                     tied: bool, cell: seq<nat>): real
  {
    if Consistent(grid) && InGrid(grid, cell) && |roots| == |weights| then
      Dot(CellSamples(f, grid, roots, tied, cell), WeightProducts(weights, |grid|))
    else 0.0
  }

  /** `CellValue` as a function of the cell. */
  function ValueOf(f: seq<real> -> real, grid: seq<AxisGrid>, roots: seq<real>, weights: seq<real>,
                   tied: bool): seq<nat> -> real
  {
    cell => CellValue(f, grid, roots, weights, tied, cell)
  }

  /** The volume factor of a cell: the product of its half-widths. */
  function CellWeight(grid: seq<AxisGrid>, cell: seq<nat>): real
  {
    if Consistent(grid) && InGrid(grid, cell) then ProdAt(Diffs(grid), cell) else 0.0
  }

  /** `CellWeight` as a function of the cell. */
  function WeightOf(grid: seq<AxisGrid>): seq<nat> -> real
  {
    cell => CellWeight(grid, cell)
  }

  /**
   * The composite Gauss-Legendre rule: over every cell, the volume factor times the
   * weighted sum of the integrand at the cell's full product of sample points.
   */
  function Composite(f: seq<real> -> real, grid: seq<AxisGrid>, roots: seq<real>, weights: seq<real>): real
  {
    var cells := AllCells(CellCounts(grid));
    Dot(MapSeq(cells, WeightOf(grid)), MapSeq(cells, ValueOf(f, grid, roots, weights, false)))
  }

  // ---------------------------------------------------------------------------
  // The stacked sample block, axis by axis
  // ---------------------------------------------------------------------------

  /** The per-axis sample matrices are `cnt_reps[d] x n`. */
  lemma BatchArgsShape(grid: seq<AxisGrid>, roots: seq<real>, bs: seq<nat>, pos: seq<nat>)
    requires Consistent(grid) && ValidBatch(CellCounts(grid), bs) && |pos| == |grid|
    ensures var args, cnt := BatchArgs(grid, roots, bs, pos), Counts(CellCounts(grid), bs, pos);
      forall d :: 0 <= d < |grid| ==> IsShape(args[d], cnt[d], |roots|)
  {
  }

  /** Two axes: the stacked block exists and both components are `Size(cnt_reps) x n^2`. */
  lemma CompsShape2(grid: seq<AxisGrid>, roots: seq<real>, bs: seq<nat>, pos: seq<nat>, tied: bool)
    requires Consistent(grid) && |grid| == 2
    requires ValidBatch(CellCounts(grid), bs) && |pos| == |grid|
    ensures Comps(grid, roots, bs, pos, tied).Success?
    ensures var comps := Comps(grid, roots, bs, pos, tied).value;
      && |comps| == |grid|
      && forall d :: 0 <= d < |grid| ==>
           IsShape(comps[d], Size(Counts(CellCounts(grid), bs, pos)), Size(Uniform(|grid|, |roots|)))
  {
    var cnt := Counts(CellCounts(grid), bs, pos);
    var args := BatchArgs(grid, roots, bs, pos);
    var n := |roots|;
    BatchArgsShape(grid, roots, bs, pos);
    Size2(cnt);
    Size2(Uniform(2, n));
    assert args == [args[0], args[1]] && cnt == [cnt[0], cnt[1]];
    RepeatArgsShape2(args[0], args[1], n, cnt[0], cnt[1]);
  }

  /** One axis: the stacked block is the sample matrix itself, `Size(cnt_reps) x n`. */
  lemma CompsShape1(grid: seq<AxisGrid>, roots: seq<real>, bs: seq<nat>, pos: seq<nat>, tied: bool)
    requires Consistent(grid) && |grid| == 1
    requires ValidBatch(CellCounts(grid), bs) && |pos| == |grid|
    ensures Comps(grid, roots, bs, pos, tied).Success?
    ensures var comps := Comps(grid, roots, bs, pos, tied).value;
      && |comps| == |grid|
      && forall d :: 0 <= d < |grid| ==>
           IsShape(comps[d], Size(Counts(CellCounts(grid), bs, pos)), Size(Uniform(|grid|, |roots|)))
  {
    BatchArgsShape(grid, roots, bs, pos);
    Size1(Counts(CellCounts(grid), bs, pos));
    Size1(Uniform(1, |roots|));
  }

  /** Three axes: the stacked block exists and all components are `Size(cnt_reps) x n^3`. */
  lemma CompsShape3(grid: seq<AxisGrid>, roots: seq<real>, bs: seq<nat>, pos: seq<nat>, tied: bool)
    requires Consistent(grid) && |grid| == 3
    requires ValidBatch(CellCounts(grid), bs) && |pos| == |grid|
    ensures Comps(grid, roots, bs, pos, tied).Success?
    ensures var comps := Comps(grid, roots, bs, pos, tied).value;
      && |comps| == |grid|
      && forall d :: 0 <= d < |grid| ==>
           IsShape(comps[d], Size(Counts(CellCounts(grid), bs, pos)), Size(Uniform(|grid|, |roots|)))
  {
    var cnt := Counts(CellCounts(grid), bs, pos);
    var args := BatchArgs(grid, roots, bs, pos);
    var n := |roots|;
    BatchArgsShape(grid, roots, bs, pos);
    Size3(cnt);
    Size3(Uniform(3, n));
    assert args == [args[0], args[1], args[2]] && cnt == [cnt[0], cnt[1], cnt[2]];
    RepeatArgsShape3(args[0], args[1], args[2], n, cnt[0], cnt[1], cnt[2]);
  }

  /** One to three axes: the stacked block exists and every component is `Size(cnt_reps) x n^dim`. */
  lemma CompsShape(grid: seq<AxisGrid>, roots: seq<real>, bs: seq<nat>, pos: seq<nat>, tied: bool)
    requires Consistent(grid) && 1 <= |grid| <= 3
    requires ValidBatch(CellCounts(grid), bs) && |pos| == |grid|
    ensures Comps(grid, roots, bs, pos, tied).Success?
    ensures var comps := Comps(grid, roots, bs, pos, tied).value;
      && |comps| == |grid|
      && forall d :: 0 <= d < |grid| ==>
           IsShape(comps[d], Size(Counts(CellCounts(grid), bs, pos)), Size(Uniform(|grid|, |roots|)))
  {
    if |grid| == 1 {
      CompsShape1(grid, roots, bs, pos, tied);
    } else if |grid| == 2 {
      CompsShape2(grid, roots, bs, pos, tied);
    } else {
      CompsShape3(grid, roots, bs, pos, tied);
    }
  }

  /** Entry `(i, k)` of the sample matrix of one axis is cell `p + i` at root `k`. */
  lemma BatchArgAt(g: AxisGrid, roots: seq<real>, p: nat, b: nat, i: nat, k: nat)
    requires |g.diffT| == |g.sum| && i < Span(|g.sum|, b, p) && k < |roots|
    ensures var m := BatchArg(g, roots, p, b);
      IsShape(m, Span(|g.sum|, b, p), |roots|) && At(m, i, k, Node(g, roots, p + i, k))
  {
  }

  /** Component `d` of the sample at row `r`, column `c` of a stacked block is `x[d]`. */
  predicate SamplesAt(comps: seq<Matrix>, r: int, c: int, x: seq<real>)
  {
    |x| == |comps| && forall d :: 0 <= d < |comps| ==> At(comps[d], r, c, x[d])
  }

  /** `SamplesAt` for two components, one at a time. */
  lemma SamplesAt2(comps: seq<Matrix>, r: int, c: int, x: seq<real>)
    requires |comps| == 2 && |x| == 2
    requires At(comps[0], r, c, x[0]) && At(comps[1], r, c, x[1])
    ensures SamplesAt(comps, r, c, x)
  {
  }

  /** `SamplesAt` for three components, one at a time. */
  lemma SamplesAt3(comps: seq<Matrix>, r: int, c: int, x: seq<real>)
    requires |comps| == 3 && |x| == 3
    requires At(comps[0], r, c, x[0]) && At(comps[1], r, c, x[1]) && At(comps[2], r, c, x[2])
    ensures SamplesAt(comps, r, c, x)
  {
  }

  /** The sample at row `r`, column `c` is the point whose components the block holds there. */
  lemma SampleOf(comps: seq<Matrix>, rows: nat, cols: nat, r: nat, c: nat, x: seq<real>)
    requires forall d :: 0 <= d < |comps| ==> IsShape(comps[d], rows, cols)
    requires r < rows && c < cols && SamplesAt(comps, r, c, x)
    ensures Sample(comps, rows, cols, r, c) == x
  {
  }

  /** The block of a one-axis batch is its sample matrix. */
  lemma CompsIs1(grid: seq<AxisGrid>, roots: seq<real>, bs: seq<nat>, pos: seq<nat>, tied: bool)
    requires Consistent(grid) && |grid| == 1 && |pos| == 1 <= |bs|
    ensures Comps(grid, roots, bs, pos, tied) == Success([BatchArg(grid[0], roots, pos[0], bs[0])])
  {
    var args := BatchArgs(grid, roots, bs, pos);
    assert args == [args[0]];
  }

  /** The block of a two-axis batch is the two-argument `repeat_args` of its sample matrices. */
  lemma CompsIs2(grid: seq<AxisGrid>, roots: seq<real>, bs: seq<nat>, pos: seq<nat>, tied: bool)
    requires Consistent(grid) && |grid| == 2 && |pos| == 2 <= |bs|
    ensures Comps(grid, roots, bs, pos, tied) ==
      RepeatArgs([BatchArg(grid[0], roots, pos[0], bs[0]), BatchArg(grid[1], roots, pos[1], bs[1])], |roots|,
                 [Span(|grid[0].sum|, bs[0], pos[0]), Span(|grid[1].sum|, bs[1], pos[1])])
  {
    var args := BatchArgs(grid, roots, bs, pos);
    var cnt := Counts(CellCounts(grid), bs, pos);
    assert args == [args[0], args[1]];
    assert cnt == [cnt[0], cnt[1]];
  }

  /** The block of a three-axis batch is the three-argument `repeat_args`, as written or corrected. */
  lemma CompsIs3(grid: seq<AxisGrid>, roots: seq<real>, bs: seq<nat>, pos: seq<nat>, tied: bool)
    requires Consistent(grid) && |grid| == 3 && |pos| == 3 <= |bs|
    ensures var args := [BatchArg(grid[0], roots, pos[0], bs[0]), BatchArg(grid[1], roots, pos[1], bs[1]),
                         BatchArg(grid[2], roots, pos[2], bs[2])];
      var cnt := [Span(|grid[0].sum|, bs[0], pos[0]), Span(|grid[1].sum|, bs[1], pos[1]), Span(|grid[2].sum|, bs[2], pos[2])];
      Comps(grid, roots, bs, pos, tied) ==
        if tied then RepeatArgs(args, |roots|, cnt) else RepeatArgsCorrected(args, |roots|, cnt)
  {
    var args := BatchArgs(grid, roots, bs, pos);
    var cnt := Counts(CellCounts(grid), bs, pos);
    ThreeIs(args, BatchArg(grid[0], roots, pos[0], bs[0]), BatchArg(grid[1], roots, pos[1], bs[1]),
            BatchArg(grid[2], roots, pos[2], bs[2]));
    ThreeIs(cnt, Span(|grid[0].sum|, bs[0], pos[0]), Span(|grid[1].sum|, bs[1], pos[1]), Span(|grid[2].sum|, bs[2], pos[2]));
  }

  /** One axis: column `k` holds root `k`. */
  lemma RootsAt1(tied: bool, n: nat, k: nat)
    requires k < n
    ensures k < Size(Uniform(1, n)) && RootIndices(tied, 1, n, k) == [k]
  {
    UnravelAt1(Uniform(1, n), k);
  }

  /** Two axes: column `k * n + l` holds roots `k` and `l`. */
  lemma RootsAt2(tied: bool, n: nat, k: nat, l: nat)
    requires k < n && l < n
    ensures Flat(k, n, l) < Size(Uniform(2, n)) && RootIndices(tied, 2, n, Flat(k, n, l)) == [k, l]
  {
    UnravelAt2(Uniform(2, n), k, l);
  }

  /** Three axes: column `(k * n + l) * n + o` holds roots `k, l, o`, or `k, o, o` in the block as written. */
  lemma RootsAt3(tied: bool, n: nat, k: nat, l: nat, o: nat)
    requires k < n && l < n && o < n
    ensures Flat(Flat(k, n, l), n, o) < Size(Uniform(3, n))
    ensures RootIndices(tied, 3, n, Flat(Flat(k, n, l), n, o)) == [k, if tied then o else l, o]
  {
    UnravelAt3(Uniform(3, n), k, l, o);
  }

  /** One axis, by digits: block entry `(i, k)` samples cell `pos[0] + i` at root `k`. */
  lemma CompsDigits1(grid: seq<AxisGrid>, roots: seq<real>, bs: seq<nat>, pos: seq<nat>, tied: bool, i: nat, k: nat)
    requires Consistent(grid) && |grid| == 1 && |pos| == 1 <= |bs|
    requires i < Counts(CellCounts(grid), bs, pos)[0] && k < |roots|
    ensures Comps(grid, roots, bs, pos, tied).Success?
    ensures var comps := Comps(grid, roots, bs, pos, tied).value;
      |comps| == 1 && At(comps[0], i, k, Node(grid[0], roots, pos[0] + i, k))
  {
    CompsIs1(grid, roots, bs, pos, tied);
    BatchArgAt(grid[0], roots, pos[0], bs[0], i, k);
  }

  /** Two axes, by digits: block entry `(i * c1 + j, k * n + l)` samples cells `pos[0] + i`, `pos[1] + j` at roots `k`, `l`. */
  lemma CompsDigits2(grid: seq<AxisGrid>, roots: seq<real>, bs: seq<nat>, pos: seq<nat>, tied: bool,
                     i: nat, j: nat, k: nat, l: nat)
    requires Consistent(grid) && |grid| == 2 && |pos| == 2 <= |bs|
    requires var cnt := Counts(CellCounts(grid), bs, pos); i < cnt[0] && j < cnt[1]
    requires k < |roots| && l < |roots|
    ensures Comps(grid, roots, bs, pos, tied).Success?
    ensures var comps := Comps(grid, roots, bs, pos, tied).value;
      var cnt, n := Counts(CellCounts(grid), bs, pos), |roots|;
      var row, col := Flat(i, cnt[1], j), Flat(k, n, l);
      && |comps| == 2
      && At(comps[0], row, col, Node(grid[0], roots, pos[0] + i, k))
      && At(comps[1], row, col, Node(grid[1], roots, pos[1] + j, l))
  {
    var args, cnt := BatchArgs(grid, roots, bs, pos), Counts(CellCounts(grid), bs, pos);
    BatchArgsShape(grid, roots, bs, pos);
    BatchArgAt(grid[0], roots, pos[0], bs[0], i, k);
    BatchArgAt(grid[1], roots, pos[1], bs[1], j, l);
    ArgsDigits2(args, |roots|, cnt, i, j, k, l, Node(grid[0], roots, pos[0] + i, k), Node(grid[1], roots, pos[1] + j, l));
  }

  /**
   * Three axes, by digits: block entry `((i * c1 + j) * c2 + m, (k * n + l) * n + o)`
   * samples cells `pos[d] + (i, j, m)[d]` at roots `k, l, o`; the block as written
   * takes root `o` on the second axis.
   */
  lemma CompsDigits3(grid: seq<AxisGrid>, roots: seq<real>, bs: seq<nat>, pos: seq<nat>, tied: bool,
                     i: nat, j: nat, m: nat, k: nat, l: nat, o: nat)
    requires Consistent(grid) && |grid| == 3 && |pos| == 3 <= |bs|
    requires var cnt := Counts(CellCounts(grid), bs, pos); i < cnt[0] && j < cnt[1] && m < cnt[2]
    requires k < |roots| && l < |roots| && o < |roots|
    ensures Comps(grid, roots, bs, pos, tied).Success?
    ensures var comps := Comps(grid, roots, bs, pos, tied).value;
      var cnt, n := Counts(CellCounts(grid), bs, pos), |roots|;
      var row, col := Flat(Flat(i, cnt[1], j), cnt[2], m), Flat(Flat(k, n, l), n, o);
      && |comps| == 3
      && At(comps[0], row, col, Node(grid[0], roots, pos[0] + i, k))
      && At(comps[1], row, col, Node(grid[1], roots, pos[1] + j, if tied then o else l))
      && At(comps[2], row, col, Node(grid[2], roots, pos[2] + m, o))
  {
    var args, cnt := BatchArgs(grid, roots, bs, pos), Counts(CellCounts(grid), bs, pos);
    BatchArgsShape(grid, roots, bs, pos);
    BatchArgAt(grid[0], roots, pos[0], bs[0], i, k);
    BatchArgAt(grid[1], roots, pos[1], bs[1], j, if tied then o else l);
    BatchArgAt(grid[2], roots, pos[2], bs[2], m, o);
    ArgsDigits3(args, |roots|, cnt, tied, i, j, m, k, l, o, Node(grid[0], roots, pos[0] + i, k),
                Node(grid[1], roots, pos[1] + j, if tied then o else l), Node(grid[2], roots, pos[2] + m, o));
  }

  // ---------------------------------------------------------------------------
  // One leaf block, row by row
  // ---------------------------------------------------------------------------

  /** A leaf block exists for one to three axes and its row `r` is the weighted sum of row `r` of the evaluated block. */
  lemma LeafIs(f: seq<real> -> real, grid: seq<AxisGrid>, roots: seq<real>, w: seq<real>,
               bs: seq<nat>, pos: seq<nat>, tied: bool)
    requires Consistent(grid) && 1 <= |grid| <= 3
    requires ValidBatch(CellCounts(grid), bs) && |pos| == |grid|
    requires |w| == Size(Uniform(|grid|, |roots|))
    ensures Comps(grid, roots, bs, pos, tied).Success?
    ensures Leaf(f, grid, roots, w, bs, pos, tied).Success?
    ensures var comps := Comps(grid, roots, bs, pos, tied).value;
      var rows, cols := Size(Counts(CellCounts(grid), bs, pos)), Size(Uniform(|grid|, |roots|));
      var vals := Leaf(f, grid, roots, w, bs, pos, tied).value;
      && (forall d :: 0 <= d < |comps| ==> IsShape(comps[d], rows, cols))
      && |vals| == rows
      && forall r :: 0 <= r < rows ==> vals[r] == Dot(Evaluate(f, comps, rows, cols)[r], w)
  {
    CompsShape(grid, roots, bs, pos, tied);
    assert pos[..|grid|] == pos;
    var comps := Comps(grid, roots, bs, pos, tied).value;
    var rows, cols := Size(Counts(CellCounts(grid), bs, pos)), Size(Uniform(|grid|, |roots|));
    LeafRowsOf(f, comps, w, rows, cols);
  }

  /** A block of `rows x cols` components against `cols` weights gives one weighted sum per row. */
  lemma LeafRowsOf(f: seq<real> -> real, comps: seq<Matrix>, w: seq<real>, rows: nat, cols: nat)
    requires |comps| > 0 && cols == |w|
    requires forall d :: 0 <= d < |comps| ==> IsShape(comps[d], rows, cols)
    ensures LeafRows(f, comps, w).Success?
    ensures |LeafRows(f, comps, w).value| == rows
    ensures forall r :: 0 <= r < rows ==> LeafRows(f, comps, w).value[r] == Dot(Evaluate(f, comps, rows, cols)[r], w)
  {
    assert |comps[0]| == rows;
    assert rows > 0 ==> |comps[0][0]| == cols;
  }

  /** The evaluated block at a row and column whose components hold the nodes of cell `[c0]` at root `k0`. */
  lemma EvalAt1(f: seq<real> -> real, grid: seq<AxisGrid>, roots: seq<real>, comps: seq<Matrix>,
                rows: nat, cols: nat, row: nat, col: nat, c0: int, k0: int)
    requires |grid| == 1 && |comps| == 1
    requires forall d :: 0 <= d < |comps| ==> IsShape(comps[d], rows, cols)
    requires row < rows && col < cols
    requires At(comps[0], row, col, Node(grid[0], roots, c0, k0))
    ensures Evaluate(f, comps, rows, cols)[row][col] == f(Point(grid, roots, [c0], [k0]))
  {
    SampleOf(comps, rows, cols, row, col, Point(grid, roots, [c0], [k0]));
  }

  /** The evaluated block at a row and column whose components hold the nodes of cell `[c0, c1]` at roots `k0, k1`. */
  lemma EvalAt2(f: seq<real> -> real, grid: seq<AxisGrid>, roots: seq<real>, comps: seq<Matrix>,
                rows: nat, cols: nat, row: nat, col: nat, c0: int, c1: int, k0: int, k1: int)
    requires |grid| == 2 && |comps| == 2
    requires forall d :: 0 <= d < |comps| ==> IsShape(comps[d], rows, cols)
    requires row < rows && col < cols
    requires At(comps[0], row, col, Node(grid[0], roots, c0, k0))
    requires At(comps[1], row, col, Node(grid[1], roots, c1, k1))
    ensures Evaluate(f, comps, rows, cols)[row][col] == f(Point(grid, roots, [c0, c1], [k0, k1]))
  {
    var x := Point(grid, roots, [c0, c1], [k0, k1]);
    SamplesAt2(comps, row, col, x);
    SampleOf(comps, rows, cols, row, col, x);
  }

  /** The evaluated block at a row and column whose components hold the nodes of cell `[c0, c1, c2]` at roots `k0, k1, k2`. */
  lemma EvalAt3(f: seq<real> -> real, grid: seq<AxisGrid>, roots: seq<real>, comps: seq<Matrix>,
                rows: nat, cols: nat, row: nat, col: nat, c0: int, c1: int, c2: int, k0: int, k1: int, k2: int)
    requires |grid| == 3 && |comps| == 3
    requires forall d :: 0 <= d < |comps| ==> IsShape(comps[d], rows, cols)
    requires row < rows && col < cols
    requires At(comps[0], row, col, Node(grid[0], roots, c0, k0))
    requires At(comps[1], row, col, Node(grid[1], roots, c1, k1))
    requires At(comps[2], row, col, Node(grid[2], roots, c2, k2))
    ensures Evaluate(f, comps, rows, cols)[row][col] == f(Point(grid, roots, [c0, c1, c2], [k0, k1, k2]))
  {
    var x := Point(grid, roots, [c0, c1, c2], [k0, k1, k2]);
    SamplesAt3(comps, row, col, x);
    SampleOf(comps, rows, cols, row, col, x);
  }

  /** One axis: a row holding the integrand at root `k` in column `k` is the cell's sample vector. */
  lemma RowIsSamples1(f: seq<real> -> real, grid: seq<AxisGrid>, roots: seq<real>, tied: bool,
                      cell: seq<int>, vr: seq<real>)
    requires |grid| == 1 && |cell| == 1
    requires |vr| == Size(Uniform(1, |roots|))
    requires forall k: nat :: k < |roots| ==> k < |vr| && vr[k] == f(Point(grid, roots, cell, [k]))
    ensures vr == CellSamples(f, grid, roots, tied, cell)
  {
    var n := |roots|;
    Size1(Uniform(1, n));
    forall c | 0 <= c < |vr|
      ensures vr[c] == CellSamples(f, grid, roots, tied, cell)[c]
    {
      RootsAt1(tied, n, c);
    }
  }

  /** Two axes: a row holding the integrand at roots `k, l` in column `k * n + l` is the cell's sample vector. */
  lemma RowIsSamples2(f: seq<real> -> real, grid: seq<AxisGrid>, roots: seq<real>, tied: bool,
                      cell: seq<int>, vr: seq<real>)
    requires |grid| == 2 && |cell| == 2
    requires |vr| == Size(Uniform(2, |roots|))
    requires forall k: nat, l: nat :: k < |roots| && l < |roots| ==>
      Flat(k, |roots|, l) < |vr| && vr[Flat(k, |roots|, l)] == f(Point(grid, roots, cell, [k, l]))
    ensures vr == CellSamples(f, grid, roots, tied, cell)
  {
    var n := |roots|;
    Size2(Uniform(2, n));
    forall c | 0 <= c < |vr|
      ensures vr[c] == CellSamples(f, grid, roots, tied, cell)[c]
    {
      var k, l := Split(c, n, n);
      RootsAt2(tied, n, k, l);
    }
  }

  /**
   * Three axes: a row holding, in column `(k * n + l) * n + o`, the integrand at roots
   * `k, l, o` (or `k, o, o` when `tied`) is the cell's sample vector.
   */
  lemma RowIsSamples3(f: seq<real> -> real, grid: seq<AxisGrid>, roots: seq<real>, tied: bool,
                      cell: seq<int>, vr: seq<real>)
    requires |grid| == 3 && |cell| == 3
    requires |vr| == Size(Uniform(3, |roots|))
    requires forall k: nat, l: nat, o: nat :: k < |roots| && l < |roots| && o < |roots| ==>
      && Flat(Flat(k, |roots|, l), |roots|, o) < |vr|
      && vr[Flat(Flat(k, |roots|, l), |roots|, o)] == f(Point(grid, roots, cell, [k, if tied then o else l, o]))
    ensures vr == CellSamples(f, grid, roots, tied, cell)
  {
    var n := |roots|;
    Size3(Uniform(3, n));
    forall c | 0 <= c < |vr|
      ensures vr[c] == CellSamples(f, grid, roots, tied, cell)[c]
    {
      var kl, o := Split(c, n * n, n);
      var k, l := Split(kl, n, n);
      RootsAt3(tied, n, k, l, o);
    }
  }

  /** The node of cell `p + i` at root `k`: row `i` of a batch starting at `p`. */
  function BatchNode(g: AxisGrid, roots: seq<real>, p: nat, i: nat, k: nat): real
  {
    Node(g, roots, p + i, k)
  }

  /** One axis: `comps` holds, at row `i` and column `k`, the node of cell `pos[0] + i` at root `k`. */
  predicate Table1(comps: seq<Matrix>, grid: seq<AxisGrid>, roots: seq<real>, pos: seq<nat>, cnt: seq<nat>)
  {
    && |comps| == 1 && |grid| == 1 && |pos| == 1 && |cnt| == 1
    && forall i: nat, k: nat :: i < cnt[0] && k < |roots| ==> At(comps[0], i, k, BatchNode(grid[0], roots, pos[0], i, k))
  }

  /**
   * Two axes: `comps` holds, at row `i * cnt[1] + j` and column `k * n + l`, the
   * nodes of cells `pos[0] + i`, `pos[1] + j` at roots `k`, `l`.
   */
  predicate Table2(comps: seq<Matrix>, grid: seq<AxisGrid>, roots: seq<real>, pos: seq<nat>, cnt: seq<nat>)
  {
    && |comps| == 2 && |grid| == 2 && |pos| == 2 && |cnt| == 2
    && forall i: nat, j: nat, k: nat, l: nat :: i < cnt[0] && j < cnt[1] && k < |roots| && l < |roots| ==>
         && At(comps[0], Flat(i, cnt[1], j), Flat(k, |roots|, l), Node(grid[0], roots, pos[0] + i, k))
         && At(comps[1], Flat(i, cnt[1], j), Flat(k, |roots|, l), Node(grid[1], roots, pos[1] + j, l))
  }

  /**
   * Three axes: `comps` holds, at the row of digits `i, j, m` and the column of
   * digits `k, l, o`, the nodes of the cell `pos + [i, j, m]` at roots `k, l, o`,
   * with root `o` on the second axis when `tied`.
   */
  predicate Table3(comps: seq<Matrix>, grid: seq<AxisGrid>, roots: seq<real>, pos: seq<nat>, cnt: seq<nat>, tied: bool)
  {
    && |comps| == 3 && |grid| == 3 && |pos| == 3 && |cnt| == 3
    && forall i: nat, j: nat, m: nat, k: nat, l: nat, o: nat ::
         i < cnt[0] && j < cnt[1] && m < cnt[2] && k < |roots| && l < |roots| && o < |roots| ==>
         var row, col := Flat(Flat(i, cnt[1], j), cnt[2], m), Flat(Flat(k, |roots|, l), |roots|, o);
         && At(comps[0], row, col, Node(grid[0], roots, pos[0] + i, k))
         && At(comps[1], row, col, Node(grid[1], roots, pos[1] + j, if tied then o else l))
         && At(comps[2], row, col, Node(grid[2], roots, pos[2] + m, o))
  }

  /** One axis: the block of a batch is a `Table1` of its nodes. */
  lemma CompsTable1(grid: seq<AxisGrid>, roots: seq<real>, bs: seq<nat>, pos: seq<nat>, tied: bool)
    requires Consistent(grid) && |grid| == 1 && |pos| == 1 <= |bs|
    ensures Comps(grid, roots, bs, pos, tied).Success?
    ensures Table1(Comps(grid, roots, bs, pos, tied).value, grid, roots, pos, Counts(CellCounts(grid), bs, pos))
  {
    CompsIs1(grid, roots, bs, pos, tied);
    var cnt := Counts(CellCounts(grid), bs, pos);
    forall i: nat, k: nat | i < cnt[0] && k < |roots|
      ensures At(Comps(grid, roots, bs, pos, tied).value[0], i, k, BatchNode(grid[0], roots, pos[0], i, k))
    {
      CompsDigits1(grid, roots, bs, pos, tied, i, k);
    }
  }

  /** Two axes: the block of a batch is a `Table2` of its nodes, as written and corrected alike. */
  lemma CompsTable2(grid: seq<AxisGrid>, roots: seq<real>, bs: seq<nat>, pos: seq<nat>, tied: bool)
    requires Consistent(grid) && |grid| == 2 && |pos| == 2 <= |bs|
    ensures Comps(grid, roots, bs, pos, tied).Success?
    ensures Table2(Comps(grid, roots, bs, pos, tied).value, grid, roots, pos, Counts(CellCounts(grid), bs, pos))
  {
    CompsIs2(grid, roots, bs, pos, tied);
    var cnt, n := Counts(CellCounts(grid), bs, pos), |roots|;
    forall i: nat, j: nat, k: nat, l: nat | i < cnt[0] && j < cnt[1] && k < n && l < n
      ensures var comps := Comps(grid, roots, bs, pos, tied).value;
        && At(comps[0], Flat(i, cnt[1], j), Flat(k, n, l), Node(grid[0], roots, pos[0] + i, k))
        && At(comps[1], Flat(i, cnt[1], j), Flat(k, n, l), Node(grid[1], roots, pos[1] + j, l))
    {
      CompsDigits2(grid, roots, bs, pos, tied, i, j, k, l);
    }
  }

  /** Three axes: the block of a batch is a `Table3` of its nodes, tied on the second axis as written. */
  lemma CompsTable3(grid: seq<AxisGrid>, roots: seq<real>, bs: seq<nat>, pos: seq<nat>, tied: bool)
    requires Consistent(grid) && |grid| == 3 && |pos| == 3 <= |bs|
    ensures Comps(grid, roots, bs, pos, tied).Success?
    ensures Table3(Comps(grid, roots, bs, pos, tied).value, grid, roots, pos, Counts(CellCounts(grid), bs, pos), tied)
  {
    CompsIs3(grid, roots, bs, pos, tied);
    var cnt, n := Counts(CellCounts(grid), bs, pos), |roots|;
    forall i: nat, j: nat, m: nat, k: nat, l: nat, o: nat |
        i < cnt[0] && j < cnt[1] && m < cnt[2] && k < n && l < n && o < n
      ensures var comps := Comps(grid, roots, bs, pos, tied).value;
        var row, col := Flat(Flat(i, cnt[1], j), cnt[2], m), Flat(Flat(k, n, l), n, o);
        && At(comps[0], row, col, Node(grid[0], roots, pos[0] + i, k))
        && At(comps[1], row, col, Node(grid[1], roots, pos[1] + j, if tied then o else l))
        && At(comps[2], row, col, Node(grid[2], roots, pos[2] + m, o))
    {
      CompsDigits3(grid, roots, bs, pos, tied, i, j, m, k, l, o);
    }
  }

  /** One axis: row `i` of the evaluated table is the sample vector of cell `pos[0] + i`. */
  lemma BlockRow1(f: seq<real> -> real, grid: seq<AxisGrid>, roots: seq<real>, tied: bool,
                  comps: seq<Matrix>, pos: seq<nat>, cnt: seq<nat>, i: nat)
    requires Table1(comps, grid, roots, pos, cnt)
    requires forall d :: 0 <= d < |comps| ==> IsShape(comps[d], Size(cnt), Size(Uniform(1, |roots|)))
    requires i < cnt[0]
    ensures i < Size(cnt)
    ensures Evaluate(f, comps, Size(cnt), Size(Uniform(1, |roots|)))[i] == CellSamples(f, grid, roots, tied, [pos[0] + i])
  {
    var n := |roots|;
    var rows, cols := Size(cnt), Size(Uniform(1, n));
    Size1(cnt);
    Size1(Uniform(1, n));
    var v := Evaluate(f, comps, rows, cols);
    forall k: nat | k < n
      ensures k < |v[i]| && v[i][k] == f(Point(grid, roots, [pos[0] + i], [k]))
    {
      assert At(comps[0], i, k, BatchNode(grid[0], roots, pos[0], i, k));
      EvalAt1(f, grid, roots, comps, rows, cols, i, k, pos[0] + i, k);
    }
    RowIsSamples1(f, grid, roots, tied, [pos[0] + i], v[i]);
  }

  /** Two axes: row `i * cnt[1] + j` of the evaluated table is the sample vector of cell `[pos[0] + i, pos[1] + j]`. */
  lemma BlockRow2(f: seq<real> -> real, grid: seq<AxisGrid>, roots: seq<real>, tied: bool,
                  comps: seq<Matrix>, pos: seq<nat>, cnt: seq<nat>, i: nat, j: nat)
    requires Table2(comps, grid, roots, pos, cnt)
    requires forall d :: 0 <= d < |comps| ==> IsShape(comps[d], Size(cnt), Size(Uniform(2, |roots|)))
    requires i < cnt[0] && j < cnt[1]
    ensures Flat(i, cnt[1], j) < Size(cnt)
    ensures Evaluate(f, comps, Size(cnt), Size(Uniform(2, |roots|)))[Flat(i, cnt[1], j)]
            == CellSamples(f, grid, roots, tied, [pos[0] + i, pos[1] + j])
  {
    var n := |roots|;
    var rows, cols := Size(cnt), Size(Uniform(2, n));
    Size2(cnt);
    Size2(Uniform(2, n));
    FlatBelow(i, cnt[1], j, cnt[0]);
    var v := Evaluate(f, comps, rows, cols);
    var row := Flat(i, cnt[1], j);
    var cell := [pos[0] + i, pos[1] + j];
    forall k: nat, l: nat | k < n && l < n
      ensures Flat(k, n, l) < |v[row]| && v[row][Flat(k, n, l)] == f(Point(grid, roots, cell, [k, l]))
    {
      BlockEntry2(f, grid, roots, comps, pos, cnt, rows, cols, i, j, k, l);
    }
    RowIsSamples2(f, grid, roots, tied, cell, v[row]);
  }

  /** Two axes: one entry of the evaluated table, at row digits `i, j` and column digits `k, l`. */
  lemma BlockEntry2(f: seq<real> -> real, grid: seq<AxisGrid>, roots: seq<real>, comps: seq<Matrix>,
                    pos: seq<nat>, cnt: seq<nat>, rows: nat, cols: nat, i: nat, j: nat, k: nat, l: nat)
    requires Table2(comps, grid, roots, pos, cnt)
    requires forall d :: 0 <= d < |comps| ==> IsShape(comps[d], rows, cols)
    requires i < cnt[0] && j < cnt[1] && k < |roots| && l < |roots|
    requires rows == cnt[0] * cnt[1] && cols == |roots| * |roots|
    ensures Flat(i, cnt[1], j) < rows && Flat(k, |roots|, l) < cols
    ensures Evaluate(f, comps, rows, cols)[Flat(i, cnt[1], j)][Flat(k, |roots|, l)]
            == f(Point(grid, roots, [pos[0] + i, pos[1] + j], [k, l]))
  {
    var n := |roots|;
    FlatBelow(i, cnt[1], j, cnt[0]);
    FlatBelow(k, n, l, n);
    EvalAt2(f, grid, roots, comps, rows, cols, Flat(i, cnt[1], j), Flat(k, n, l), pos[0] + i, pos[1] + j, k, l);
  }

  /** Three axes: the row of digits `i, j, m` of the evaluated table is the sample vector of cell `pos + [i, j, m]`. */
  lemma BlockRow3(f: seq<real> -> real, grid: seq<AxisGrid>, roots: seq<real>, tied: bool,
                  comps: seq<Matrix>, pos: seq<nat>, cnt: seq<nat>, i: nat, j: nat, m: nat)
    requires Table3(comps, grid, roots, pos, cnt, tied)
    requires forall d :: 0 <= d < |comps| ==> IsShape(comps[d], Size(cnt), Size(Uniform(3, |roots|)))
    requires i < cnt[0] && j < cnt[1] && m < cnt[2]
    ensures Flat(Flat(i, cnt[1], j), cnt[2], m) < Size(cnt)
    ensures Evaluate(f, comps, Size(cnt), Size(Uniform(3, |roots|)))[Flat(Flat(i, cnt[1], j), cnt[2], m)]
            == CellSamples(f, grid, roots, tied, [pos[0] + i, pos[1] + j, pos[2] + m])
  {
    var n := |roots|;
    var rows, cols := Size(cnt), Size(Uniform(3, n));
    Size3(cnt);
    Size3(Uniform(3, n));
    FlatBelow(i, cnt[1], j, cnt[0]);
    FlatBelow(Flat(i, cnt[1], j), cnt[2], m, cnt[0] * cnt[1]);
    var v := Evaluate(f, comps, rows, cols);
    var row := Flat(Flat(i, cnt[1], j), cnt[2], m);
    var cell := [pos[0] + i, pos[1] + j, pos[2] + m];
    forall k: nat, l: nat, o: nat | k < n && l < n && o < n
      ensures && Flat(Flat(k, n, l), n, o) < |v[row]|
              && v[row][Flat(Flat(k, n, l), n, o)] == f(Point(grid, roots, cell, [k, if tied then o else l, o]))
    {
      FlatBelow(k, n, l, n);
      FlatBelow(Flat(k, n, l), n, o, n * n);
      EvalAt3(f, grid, roots, comps, rows, cols, row, Flat(Flat(k, n, l), n, o),
              pos[0] + i, pos[1] + j, pos[2] + m, k, if tied then o else l, o);
    }
    RowIsSamples3(f, grid, roots, tied, cell, v[row]);
  }

  // ---------------------------------------------------------------------------
  // One leaf block, cell by cell
  // ---------------------------------------------------------------------------

  /** One axis: weighing the rows of an evaluated `Table1` gives the value of cell `pos[0] + i` in row `i`. */
  lemma RowsTable1(f: seq<real> -> real, grid: seq<AxisGrid>, roots: seq<real>, weights: seq<real>, tied: bool,
                   comps: seq<Matrix>, bs: seq<nat>, pos: seq<nat>, vals: seq<real>)
    requires Consistent(grid) && |grid| == 1 && |pos| == 1 <= |bs| && |roots| == |weights|
    requires Table1(comps, grid, roots, pos, Counts(CellCounts(grid), bs, pos))
    requires var rows, cols := Size(Counts(CellCounts(grid), bs, pos)), Size(Uniform(1, |roots|));
      && (forall d :: 0 <= d < |comps| ==> IsShape(comps[d], rows, cols))
      && |vals| == rows
      && forall r :: 0 <= r < rows ==> vals[r] == Dot(Evaluate(f, comps, rows, cols)[r], WeightProducts(weights, 1))
    ensures var cnt := Counts(CellCounts(grid), bs, pos);
      forall i: nat :: i < cnt[0] ==> i < |vals| && vals[i] == ValueOf(f, grid, roots, weights, tied)([pos[0] + i])
  {
    var cnt := Counts(CellCounts(grid), bs, pos);
    forall i: nat | i < cnt[0]
      ensures i < |vals| && vals[i] == ValueOf(f, grid, roots, weights, tied)([pos[0] + i])
    {
      BlockRow1(f, grid, roots, tied, comps, pos, cnt, i);
      SpanInside(|grid[0].sum|, bs[0], pos[0], i);
      assert InGrid(grid, [pos[0] + i]);
    }
  }

  /** Two axes: weighing the rows of an evaluated `Table2` gives the value of cell `[pos[0] + i, pos[1] + j]` in row `i * cnt[1] + j`. */
  lemma RowsTable2(f: seq<real> -> real, grid: seq<AxisGrid>, roots: seq<real>, weights: seq<real>, tied: bool,
                   comps: seq<Matrix>, bs: seq<nat>, pos: seq<nat>, vals: seq<real>)
    requires Consistent(grid) && |grid| == 2 && |pos| == 2 <= |bs| && |roots| == |weights|
    requires Table2(comps, grid, roots, pos, Counts(CellCounts(grid), bs, pos))
    requires var rows, cols := Size(Counts(CellCounts(grid), bs, pos)), Size(Uniform(2, |roots|));
      && (forall d :: 0 <= d < |comps| ==> IsShape(comps[d], rows, cols))
      && |vals| == rows
      && forall r :: 0 <= r < rows ==> vals[r] == Dot(Evaluate(f, comps, rows, cols)[r], WeightProducts(weights, 2))
    ensures var cnt := Counts(CellCounts(grid), bs, pos);
      forall i: nat, j: nat :: i < cnt[0] && j < cnt[1] ==>
        Flat(i, cnt[1], j) < |vals| && vals[Flat(i, cnt[1], j)] == ValueOf(f, grid, roots, weights, tied)([pos[0] + i, pos[1] + j])
  {
    var cnt := Counts(CellCounts(grid), bs, pos);
    forall i: nat, j: nat | i < cnt[0] && j < cnt[1]
      ensures Flat(i, cnt[1], j) < |vals|
      ensures vals[Flat(i, cnt[1], j)] == ValueOf(f, grid, roots, weights, tied)([pos[0] + i, pos[1] + j])
    {
      BlockRow2(f, grid, roots, tied, comps, pos, cnt, i, j);
      SpanInside(|grid[0].sum|, bs[0], pos[0], i);
      SpanInside(|grid[1].sum|, bs[1], pos[1], j);
      assert InGrid(grid, [pos[0] + i, pos[1] + j]);
    }
  }

  /** Three axes: weighing the rows of an evaluated `Table3` gives the value of cell `pos + [i, j, m]` in the row of digits `i, j, m`. */
  lemma RowsTable3(f: seq<real> -> real, grid: seq<AxisGrid>, roots: seq<real>, weights: seq<real>, tied: bool,
                   comps: seq<Matrix>, bs: seq<nat>, pos: seq<nat>, vals: seq<real>)
    requires Consistent(grid) && |grid| == 3 && |pos| == 3 <= |bs| && |roots| == |weights|
    requires Table3(comps, grid, roots, pos, Counts(CellCounts(grid), bs, pos), tied)
    requires var rows, cols := Size(Counts(CellCounts(grid), bs, pos)), Size(Uniform(3, |roots|));
      && (forall d :: 0 <= d < |comps| ==> IsShape(comps[d], rows, cols))
      && |vals| == rows
      && forall r :: 0 <= r < rows ==> vals[r] == Dot(Evaluate(f, comps, rows, cols)[r], WeightProducts(weights, 3))
    ensures var cnt := Counts(CellCounts(grid), bs, pos);
      forall i: nat, j: nat, m: nat :: i < cnt[0] && j < cnt[1] && m < cnt[2] ==>
        && Flat(Flat(i, cnt[1], j), cnt[2], m) < |vals|
        && vals[Flat(Flat(i, cnt[1], j), cnt[2], m)]
           == ValueOf(f, grid, roots, weights, tied)([pos[0] + i, pos[1] + j, pos[2] + m])
  {
    var cnt := Counts(CellCounts(grid), bs, pos);
    forall i: nat, j: nat, m: nat | i < cnt[0] && j < cnt[1] && m < cnt[2]
      ensures Flat(Flat(i, cnt[1], j), cnt[2], m) < |vals|
      ensures vals[Flat(Flat(i, cnt[1], j), cnt[2], m)]
              == ValueOf(f, grid, roots, weights, tied)([pos[0] + i, pos[1] + j, pos[2] + m])
    {
      BlockRow3(f, grid, roots, tied, comps, pos, cnt, i, j, m);
      SpanInside(|grid[0].sum|, bs[0], pos[0], i);
      SpanInside(|grid[1].sum|, bs[1], pos[1], j);
      SpanInside(|grid[2].sum|, bs[2], pos[2], m);
      assert InGrid(grid, [pos[0] + i, pos[1] + j, pos[2] + m]);
    }
  }

  /** One axis: the leaf block of the batch at `pos` lists the value of every cell of the batch, in the batch's order. */
  lemma LeafValues1(f: seq<real> -> real, grid: seq<AxisGrid>, roots: seq<real>, weights: seq<real>,
                    bs: seq<nat>, pos: seq<nat>, tied: bool)
    requires Consistent(grid) && |grid| == 1 && ValidBatch(CellCounts(grid), bs) && |pos| == 1
    requires |roots| == |weights|
    ensures Leaf(f, grid, roots, WeightProducts(weights, 1), bs, pos, tied)
            == Success(MapSeq(Box(CellCounts(grid), bs, pos), ValueOf(f, grid, roots, weights, tied)))
  {
    var w := WeightProducts(weights, 1);
    LeafIs(f, grid, roots, w, bs, pos, tied);
    CompsTable1(grid, roots, bs, pos, tied);
    var comps, vals := Comps(grid, roots, bs, pos, tied).value, Leaf(f, grid, roots, w, bs, pos, tied).value;
    RowsTable1(f, grid, roots, weights, tied, comps, bs, pos, vals);
    TableIsBox1(CellCounts(grid), bs, pos, ValueOf(f, grid, roots, weights, tied), vals);
  }

  /** Two axes: the leaf block of the batch at `pos` lists the value of every cell of the batch, in the batch's order. */
  lemma LeafValues2(f: seq<real> -> real, grid: seq<AxisGrid>, roots: seq<real>, weights: seq<real>,
                    bs: seq<nat>, pos: seq<nat>, tied: bool)
    requires Consistent(grid) && |grid| == 2 && ValidBatch(CellCounts(grid), bs) && |pos| == 2
    requires |roots| == |weights|
    ensures Leaf(f, grid, roots, WeightProducts(weights, 2), bs, pos, tied)
            == Success(MapSeq(Box(CellCounts(grid), bs, pos), ValueOf(f, grid, roots, weights, tied)))
  {
    var w := WeightProducts(weights, 2);
    LeafIs(f, grid, roots, w, bs, pos, tied);
    CompsTable2(grid, roots, bs, pos, tied);
    var comps, vals := Comps(grid, roots, bs, pos, tied).value, Leaf(f, grid, roots, w, bs, pos, tied).value;
    RowsTable2(f, grid, roots, weights, tied, comps, bs, pos, vals);
    TableIsBox2(CellCounts(grid), bs, pos, ValueOf(f, grid, roots, weights, tied), vals);
  }

  /** Three axes: the leaf block of the batch at `pos` lists the value of every cell of the batch, in the batch's order. */
  lemma LeafValues3(f: seq<real> -> real, grid: seq<AxisGrid>, roots: seq<real>, weights: seq<real>,
                    bs: seq<nat>, pos: seq<nat>, tied: bool)
    requires Consistent(grid) && |grid| == 3 && ValidBatch(CellCounts(grid), bs) && |pos| == 3
    requires |roots| == |weights|
    ensures Leaf(f, grid, roots, WeightProducts(weights, 3), bs, pos, tied)
            == Success(MapSeq(Box(CellCounts(grid), bs, pos), ValueOf(f, grid, roots, weights, tied)))
  {
    var w := WeightProducts(weights, 3);
    LeafIs(f, grid, roots, w, bs, pos, tied);
    CompsTable3(grid, roots, bs, pos, tied);
    var comps, vals := Comps(grid, roots, bs, pos, tied).value, Leaf(f, grid, roots, w, bs, pos, tied).value;
    RowsTable3(f, grid, roots, weights, tied, comps, bs, pos, vals);
    TableIsBox3(CellCounts(grid), bs, pos, ValueOf(f, grid, roots, weights, tied), vals);
  }
}
