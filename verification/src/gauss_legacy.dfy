/**
 * The older quadrature of `integration/gauss.py`: `gl_integrate`, its private
 * `_multi_dot`, `_repeat` and `_integration_loop`. The loop has the same text as
 * the live one and is the same `BatchLoop` recursion; `_multi_dot` is the older
 * `multi_dot` of `LinAlgLegacy`; `_repeat` builds its tiles in two steps. Every
 * piece, and `gl_integrate` as a whole, agrees with `numerical/integration/gauss.py`.
 */
module GaussLegacy {
  import opened Wrappers
  import opened Arrays
  import opened LinAlg
  import opened LinAlgLegacy
  import opened Grid
  import opened IntegrationUtils
  import opened BatchLoop
  import opened Blocks
  import opened Gauss

  /**
   * `_repeat(f_args, n_roots, cnt_reps)`: as the live `repeat_args`, except that
   * every `np.tile(a, (p, q))` is written `np.tile(np.tile(a, (1, q)), (p, 1))`.
   */
  function RepeatOld(args: seq<Matrix>, n: nat, cnt: seq<nat>): (r: Result<seq<Matrix>>)
    ensures r.Failure? <==> |args| == 0 || |args| > 3 || (|args| > 1 && |cnt| < |args|)
    ensures r.Failure? ==> r.error == if |args| == 0 || |args| > 3 then ValueError else IndexError
    ensures r.Success? ==> |r.value| == |args|
    ensures |args| == 1 ==> r == Success(args)
  {
    if |args| == 1 then Success(args)
    else if |args| == 2 then
      if |cnt| < 2 then Failure(IndexError)
      else
        var xx := Repeat(RepeatCols(args[0], n), cnt[1]);
        var yy := Tile2(Tile2(args[1], 1, n), cnt[0], 1);
        Success([xx, yy])
    else if |args| == 3 then
      if |cnt| < 3 then Failure(IndexError)
      else
        var xx := Repeat(RepeatCols(args[0], n * n), cnt[1] * cnt[2]);
        var yy := Repeat(Tile2(Tile2(args[1], 1, n * n), cnt[0], 1), cnt[2]);
        var zz := Tile2(Tile2(args[2], 1, n * n), cnt[0] * cnt[1], 1);
        Success([xx, yy, zz])
    else Failure(ValueError)
  }

  /**
   * `_repeat` and the live `repeat_args` agree on every input, the errors
   * included; in particular the older three-axis block ties the last two root
   * indices in the same way.
   */
  lemma RepeatOldSame(args: seq<Matrix>, n: nat, cnt: seq<nat>)
    ensures RepeatOld(args, n, cnt) == RepeatArgs(args, n, cnt)
  {
    if |args| == 2 && |cnt| >= 2 {
      Tile2Nested(args[1], cnt[0], n);
    } else if |args| == 3 && |cnt| >= 3 {
      Tile2Nested(args[1], cnt[0], n * n);
      Tile2Nested(args[2], cnt[0] * cnt[1], n * n);
    }
  }

  /** The innermost call of the older `_integration_loop` at batch position `pos`. */
  function LeafOld(f: seq<real> -> real, grid: seq<AxisGrid>, roots: seq<real>, w: seq<real>,
                   bs: seq<nat>, pos: seq<nat>): Result<seq<real>>
    requires Consistent(grid)
  {
    if |pos| < |grid| || |bs| < |grid| then Failure(IndexError)
    else
      var args := BatchArgs(grid, roots, bs, pos[..|grid|]);
      var comps :- RepeatOld(args, |roots|, Counts(CellCounts(grid), bs, pos[..|grid|]));
      LeafRows(f, comps, w)
  }

  /** The older innermost call as the callback of the sweep. */
  function LeafOldOf(f: seq<real> -> real, grid: seq<AxisGrid>, roots: seq<real>, w: seq<real>,
                     bs: seq<nat>): seq<nat> -> Result<seq<real>>
    requires Consistent(grid)
  {
    pos => LeafOld(f, grid, roots, w, bs, pos)
  }

  /** The older innermost call computes the live block as written, at every position. */
  lemma LeafOldSame(f: seq<real> -> real, grid: seq<AxisGrid>, roots: seq<real>, w: seq<real>,
                    bs: seq<nat>, pos: seq<nat>)
    requires Consistent(grid)
    ensures LeafOld(f, grid, roots, w, bs, pos) == Leaf(f, grid, roots, w, bs, pos, true)
  {
    if |pos| >= |grid| && |bs| >= |grid| {
      var p := pos[..|grid|];
      RepeatOldSame(BatchArgs(grid, roots, bs, p), |roots|, Counts(CellCounts(grid), bs, p));
    }
  }

  /**
   * `gl_integrate(func, grid, n_roots, batch_size)` with `leggauss(n_roots)` given
   * as `roots` and `weights`; the batch sizes are not optional here.
   */
  function GlIntegrate(f: seq<real> -> real, grid: seq<AxisGrid>, roots: seq<real>, weights: seq<real>,
                       bs: seq<nat>): (r: Result<real>)
    requires Consistent(grid) && PositiveBatch(CellCounts(grid), bs)
  {
    var w :- MultiDotOld(Copies(|grid|, weights));
    match MultiDotOld(Diffs(grid))
    case Failure(e) => Failure(e)
    case Success(outer) =>
      var run :- RunLoop(CellCounts(grid), bs, LeafOldOf(f, grid, roots, w.data, bs));
      Reduce(outer.data, run.out)
  }

  /**
   * As in `integrate`, a `batch_size` tuple shorter than the grid never gives a
   * value, and with cells on every axis the failure is an `IndexError`.
   */
  lemma GlIntegrateShortBatch(f: seq<real> -> real, grid: seq<AxisGrid>, roots: seq<real>, weights: seq<real>,
                              bs: seq<nat>)
    requires Consistent(grid) && PositiveBatch(CellCounts(grid), bs) && |bs| < |grid|
    ensures GlIntegrate(f, grid, roots, weights, bs).Failure?
    ensures (forall d :: 0 <= d < |grid| ==> |grid[d].sum| > 0) ==>
      GlIntegrate(f, grid, roots, weights, bs).error == IndexError
  {
    var vs := Copies(|grid|, weights);
    MultiDotOldSame(vs);
    MultiDotOldSame(Diffs(grid));
    var w := MultiDotOld(vs).value.data;
    RunLoopShortBatch(CellCounts(grid), bs, LeafOldOf(f, grid, roots, w, bs));
  }

  /**
   * `gl_integrate` returns what `integrate` returns for the same batch sizes,
   * values and errors alike.
   */
  lemma GlIntegrateSame(f: seq<real> -> real, grid: seq<AxisGrid>, roots: seq<real>, weights: seq<real>,
                        bs: seq<nat>)
    requires Consistent(grid) && ValidBatch(CellCounts(grid), bs)
    ensures GlIntegrate(f, grid, roots, weights, bs) == Integrate(f, grid, roots, weights, Some(bs))
  {
    var vs := Copies(|grid|, weights);
    MultiDot2OldSame(vs, true, true);
    MultiDotOldSame(vs);
    MultiDotOldSame(Diffs(grid));
    if |grid| > 0 {
      var w := MultiDot(vs).value.data;
      var ns := CellCounts(grid);
      forall t | t in Tuples(StartLists(ns, bs))
        ensures LeafOldOf(f, grid, roots, w, bs)(t) == LeafOf(f, grid, roots, w, bs, true)(t)
      {
        LeafOldSame(f, grid, roots, w, bs, t);
      }
      RunLoopSameLeaves(ns, bs, LeafOldOf(f, grid, roots, w, bs), LeafOf(f, grid, roots, w, bs, true));
    }
  }
}
