/**
 * What `integrate` of `numerical/integration/gauss.py` returns, stated against
 * the composite Gauss-Legendre rule: the leaf blocks of the sweep, the weight
 * vectors, the result as written, and the result once the two defects are fixed.
 */
module GaussSweep {
  import opened Wrappers
  import opened Seqs
  import opened LinAlg
  import opened Grid
  import opened BatchLoop
  import opened Blocks
  import opened Gauss

  // ---------------------------------------------------------------------------
  // The weight vectors
  // ---------------------------------------------------------------------------

  /** `multi_dot2(*(dim * [leg_weights]), True, True)` holds the product Legendre weights. */
  lemma LegWeights(weights: seq<real>, dim: nat)
    requires dim > 0
    ensures MultiDot2(Copies(dim, weights), true, true).Success?
    ensures MultiDot2(Copies(dim, weights), true, true).value.data == WeightProducts(weights, dim)
  {
    var vs := Copies(dim, weights);
    MultiDotIsOuterProduct(vs);
    var t := MultiDot(vs).value;
    forall c | 0 <= c < |t.data|
      ensures t.data[c] == WeightProducts(weights, dim)[c]
    {
      OuterProductAt(t, vs, c);
    }
  }

  /** `multi_dot2(*diffs, True)` lists the volume factor of every cell, in row-major order. */
  lemma DiffWeights(grid: seq<AxisGrid>)
    requires Consistent(grid) && |grid| > 0
    ensures MultiDot2(Diffs(grid), true, false).Success?
    ensures MultiDot2(Diffs(grid), true, false).value.data == MapSeq(AllCells(CellCounts(grid)), WeightOf(grid))
  {
    var vs := Diffs(grid);
    MultiDotIsOuterProduct(vs);
    var t := MultiDot(vs).value;
    var cells := AllCells(CellCounts(grid));
    forall c | 0 <= c < |t.data|
      ensures t.data[c] == WeightOf(grid)(cells[c])
    {
      OuterProductAt(t, vs, c);
    }
  }

  /** The entry of the raveled volume factors `dt` that belongs to `cell`. */
  function Gather(dt: seq<real>, ns: seq<nat>): seq<nat> -> real
  {
    cell => if IsIndex(ns, cell) && RowMajor(ns, cell) < |dt| then dt[RowMajor(ns, cell)] else 0.0
  }

  /** Gathering from the raveled volume factors by cell gives every cell of the grid its own factor. */
  lemma GatherDiffs(grid: seq<AxisGrid>, cell: seq<nat>)
    requires Consistent(grid) && |grid| > 0 && InGrid(grid, cell)
    ensures MultiDot2(Diffs(grid), true, false).Success?
    ensures Gather(MultiDot2(Diffs(grid), true, false).value.data, CellCounts(grid))(cell) == CellWeight(grid, cell)
  {
    var vs := Diffs(grid);
    MultiDotIsOuterProduct(vs);
    RowMajorInside(Lens(vs), cell);
  }

  // ---------------------------------------------------------------------------
  // The sweep
  // ---------------------------------------------------------------------------

  /** The leaf block of any batch of a one- to three-axis grid lists the values of the batch's cells. */
  lemma LeafValues(f: seq<real> -> real, grid: seq<AxisGrid>, roots: seq<real>, weights: seq<real>,
                   bs: seq<nat>, pos: seq<nat>, tied: bool)
    requires Consistent(grid) && 1 <= |grid| <= 3 && ValidBatch(CellCounts(grid), bs) && |pos| == |grid|
    requires |roots| == |weights|
    ensures Leaf(f, grid, roots, WeightProducts(weights, |grid|), bs, pos, tied)
            == Success(MapSeq(Box(CellCounts(grid), bs, pos), ValueOf(f, grid, roots, weights, tied)))
  {
    if |grid| == 1 {
      LeafValues1(f, grid, roots, weights, bs, pos, tied);
    } else if |grid| == 2 {
      LeafValues2(f, grid, roots, weights, bs, pos, tied);
    } else {
      LeafValues3(f, grid, roots, weights, bs, pos, tied);
    }
  }

  /** The sweep over a one- to three-axis grid returns, batch by batch, the values of the batch's cells. */
  lemma SweepBlocks(f: seq<real> -> real, grid: seq<AxisGrid>, roots: seq<real>, weights: seq<real>,
                    bs: seq<nat>, tied: bool)
    requires Consistent(grid) && 1 <= |grid| <= 3 && ValidBatch(CellCounts(grid), bs)
    requires |roots| == |weights|
    ensures RunLoop(CellCounts(grid), bs, LeafOf(f, grid, roots, WeightProducts(weights, |grid|), bs, tied))
            == Success(Run(MapParts(Boxes(CellCounts(grid), bs), ValueOf(f, grid, roots, weights, tied)),
                           seq(|grid|, _ => 0)))
  {
    var ns := CellCounts(grid);
    var leaf := LeafOf(f, grid, roots, WeightProducts(weights, |grid|), bs, tied);
    var ts := Tuples(StartLists(ns, bs));
    var out := MapParts(Boxes(ns, bs), ValueOf(f, grid, roots, weights, tied));
    RunLoopVisits(ns, bs, leaf);
    VisitOrder(ns, bs);
    forall i | 0 <= i < |ts|
      ensures leaf(ts[i]) == Success(out[i])
    {
      assert ts[i] in ts;
      LeafValues(f, grid, roots, weights, bs, ts[i], tied);
    }
    MapAllFacts(leaf, ts);
    assert MapAll(leaf, ts).Success?;
    assert MapAll(leaf, ts).value == out;
  }

  /** The sweep has no batch exactly when some axis has no cell. */
  lemma SweepEmpty(ns: seq<nat>, bs: seq<nat>)
    requires ValidBatch(ns, bs)
    ensures |Tuples(StartLists(ns, bs))| == 0 <==> exists d :: 0 <= d < |ns| && ns[d] == 0
  {
    var ls := StartLists(ns, bs);
    TuplesEmpty(ls);
    forall d | 0 <= d < |ns|
      ensures |ls[d]| == 0 <==> ns[d] == 0
    {
      StartsCount(ns[d], bs[d]);
    }
  }

  // ---------------------------------------------------------------------------
  // `integrate`, as written
  // ---------------------------------------------------------------------------

  /**
   * With one to three axes, every axis holding a cell: `integrate` pairs the
   * volume factor of the `i`-th cell in row-major order with the value of the
   * `i`-th cell the sweep visits.
   */
  lemma IntegrateAsWritten(f: seq<real> -> real, grid: seq<AxisGrid>, roots: seq<real>, weights: seq<real>,
                           bs: seq<nat>)
    requires Consistent(grid) && 1 <= |grid| <= 3 && ValidBatch(CellCounts(grid), bs)
    requires |roots| == |weights|
    requires forall d :: 0 <= d < |grid| ==> |grid[d].sum| > 0
    ensures var ns := CellCounts(grid);
      && |Concat(Boxes(ns, bs))| == |AllCells(ns)|
      && Integrate(f, grid, roots, weights, Some(bs))
      == Success(Dot(MapSeq(AllCells(ns), WeightOf(grid)),
                     MapSeq(Concat(Boxes(ns, bs)), ValueOf(f, grid, roots, weights, true))))
  {
    var ns := CellCounts(grid);
    var v := ValueOf(f, grid, roots, weights, true);
    LegWeights(weights, |grid|);
    DiffWeights(grid);
    SweepBlocks(f, grid, roots, weights, bs, true);
    ConcatMapSeq(Boxes(ns, bs), v);
    SweepCovers(ns, bs);
    assert |Concat(Boxes(ns, bs))| == |AllCells(ns)| by {
      assert |multiset(Concat(Boxes(ns, bs)))| == |multiset(AllCells(ns))|;
    }
    SweepEmpty(ns, bs);
  }

  /** An axis without cells leaves nothing to concatenate: `integrate` raises `ValueError`, for any number of axes. */
  lemma IntegrateNoCells(f: seq<real> -> real, grid: seq<AxisGrid>, roots: seq<real>, weights: seq<real>,
                         batch: Option<seq<nat>>)
    requires Consistent(grid) && |grid| > 0
    requires batch.Some? ==> ValidBatch(CellCounts(grid), batch.value)
    requires exists d :: 0 <= d < |grid| && |grid[d].sum| == 0
    ensures Integrate(f, grid, roots, weights, batch) == Failure(ValueError)
  {
    var ns := CellCounts(grid);
    var bs := if batch.Some? then batch.value else DefaultBatch(|grid|);
    var w := MultiDot2(Copies(|grid|, weights), true, true).value;
    var leaf := LeafOf(f, grid, roots, w.data, bs, true);
    RunLoopVisits(ns, bs, leaf);
    SweepEmpty(ns, bs);
    assert Tuples(StartLists(ns, bs)) == [];
  }

  /** More than three axes, every axis holding a cell: the first block raises `ValueError`. */
  lemma IntegrateTooManyAxes(f: seq<real> -> real, grid: seq<AxisGrid>, roots: seq<real>, weights: seq<real>,
                             batch: Option<seq<nat>>)
    requires Consistent(grid) && |grid| > 3
    requires batch.Some? ==> ValidBatch(CellCounts(grid), batch.value)
    requires forall d :: 0 <= d < |grid| ==> |grid[d].sum| > 0
    ensures Integrate(f, grid, roots, weights, batch) == Failure(ValueError)
  {
    var ns := CellCounts(grid);
    var bs := if batch.Some? then batch.value else DefaultBatch(|grid|);
    var w := MultiDot2(Copies(|grid|, weights), true, true).value;
    var leaf := LeafOf(f, grid, roots, w.data, bs, true);
    var ts := Tuples(StartLists(ns, bs));
    assert |ts| > 0 by { SweepEmpty(ns, bs); }
    assert |ts[0]| == |grid| by { VisitOrder(ns, bs); assert ts[0] in ts; }
    assert leaf(ts[0]) == Failure(ValueError) by { LeafTooManyAxes(f, grid, roots, w.data, bs, ts[0]); }
    assert MapAll(leaf, ts) == Failure(ValueError);
    assert RunLoop(ns, bs, leaf) == Failure(ValueError) by { RunLoopVisits(ns, bs, leaf); }
  }

  /** The innermost call on more than three axes: `repeat_args` raises `ValueError`. */
  lemma LeafTooManyAxes(f: seq<real> -> real, grid: seq<AxisGrid>, roots: seq<real>, w: seq<real>,
                        bs: seq<nat>, pos: seq<nat>)
    requires Consistent(grid) && |grid| > 3 && |pos| == |grid| <= |bs|
    ensures Leaf(f, grid, roots, w, bs, pos, true) == Failure(ValueError)
  {
    assert pos[..|grid|] == pos;
  }

  // ---------------------------------------------------------------------------
  // `integrate`, corrected
  // ---------------------------------------------------------------------------

  /**
   * `integrate` with both defects fixed: the stacked block pairs every cell with
   * the full product of roots, and every block's sums are weighed with the
   * volume factors of the block's own cells.
   */
  function IntegrateCorrected(f: seq<real> -> real, grid: seq<AxisGrid>, roots: seq<real>, weights: seq<real>,
                              batch: Option<seq<nat>>): (r: Result<real>)
    requires Consistent(grid)
    requires batch.Some? ==> ValidBatch(CellCounts(grid), batch.value)
    ensures |grid| == 0 ==> r == Failure(IndexError)
  {
    var dim, ns := |grid|, CellCounts(grid);
    var bs := if batch.Some? then batch.value else DefaultBatch(dim);
    var w :- MultiDot2(Copies(dim, weights), true, true);
    match MultiDot2(Diffs(grid), true, false)
    case Failure(e) => Failure(e)
    case Success(dt) =>
      var run :- RunLoop(ns, bs, LeafOf(f, grid, roots, w.data, bs, false));
      Reduce(MapSeq(Concat(Boxes(ns, bs)), Gather(dt.data, ns)), run.out)
  }

  /**
   * With one to three axes, every axis holding a cell, the corrected quadrature
   * is the composite Gauss-Legendre rule, whatever the batch sizes.
   */
  lemma IntegrateCorrectedIsComposite(f: seq<real> -> real, grid: seq<AxisGrid>, roots: seq<real>,
                                      weights: seq<real>, batch: Option<seq<nat>>)
    requires Consistent(grid) && 1 <= |grid| <= 3 && |roots| == |weights|
    requires batch.Some? ==> ValidBatch(CellCounts(grid), batch.value)
    requires forall d :: 0 <= d < |grid| ==> |grid[d].sum| > 0
    ensures IntegrateCorrected(f, grid, roots, weights, batch) == Success(Composite(f, grid, roots, weights))
  {
    var ns := CellCounts(grid);
    var bs := if batch.Some? then batch.value else DefaultBatch(|grid|);
    var v, wt := ValueOf(f, grid, roots, weights, false), WeightOf(grid);
    var dt := MultiDot2(Diffs(grid), true, false).value.data;
    var cs := Concat(Boxes(ns, bs));
    LegWeights(weights, |grid|);
    SweepBlocks(f, grid, roots, weights, bs, false);
    ConcatMapSeq(Boxes(ns, bs), v);
    SweepEmpty(ns, bs);
    SweepCovers(ns, bs);
    assert MapSeq(cs, Gather(dt, ns)) == MapSeq(cs, wt) by {
      forall i | 0 <= i < |cs|
        ensures Gather(dt, ns)(cs[i]) == wt(cs[i])
      {
        assert cs[i] in multiset(cs);
        AllCellsMember(ns, cs[i]);
        GatherDiffs(grid, cs[i]);
      }
    }
    DotMapSeq(cs, wt, v);
    DotMapSeq(AllCells(ns), wt, v);
    SumOfPermutation(cs, AllCells(ns), Times(wt, v));
  }

  /** The corrected quadrature does not depend on the batch sizes. */
  lemma CorrectedBatchInvariant(f: seq<real> -> real, grid: seq<AxisGrid>, roots: seq<real>, weights: seq<real>,
                                b1: seq<nat>, b2: seq<nat>)
    requires Consistent(grid) && 1 <= |grid| <= 3 && |roots| == |weights|
    requires ValidBatch(CellCounts(grid), b1) && ValidBatch(CellCounts(grid), b2)
    requires forall d :: 0 <= d < |grid| ==> |grid[d].sum| > 0
    ensures IntegrateCorrected(f, grid, roots, weights, Some(b1)) == IntegrateCorrected(f, grid, roots, weights, Some(b2))
    ensures IntegrateCorrected(f, grid, roots, weights, Some(b1)) == IntegrateCorrected(f, grid, roots, weights, None)
  {
    IntegrateCorrectedIsComposite(f, grid, roots, weights, Some(b1));
    IntegrateCorrectedIsComposite(f, grid, roots, weights, Some(b2));
    IntegrateCorrectedIsComposite(f, grid, roots, weights, None);
  }

  // ---------------------------------------------------------------------------
  // When the code as written is right
  // ---------------------------------------------------------------------------

  /** Axis lists that each hold the start 0 alone have one tuple: all zeros. */
  lemma {:induction false} TuplesOfZeros(ls: seq<seq<nat>>)
    requires forall d :: 0 <= d < |ls| ==> ls[d] == [0]
    ensures Tuples(ls) == [seq(|ls|, _ => 0)]
  {
    if |ls| > 0 {
      TuplesOfZeros(ls[1..]);
      var zs := seq(|ls| - 1, _ => 0);
      assert Tuples(ls) == Cross([0], [zs]);
      assert [0][1..] == [];
      assert Cross([0], [zs]) == Prefixed([0], [zs]) + Cross([], [zs]);
      assert Prefixed([0], [zs]) == [[0] + zs];
      assert [0] + zs == seq(|ls|, _ => 0);
    } else {
      assert seq(|ls|, _ => 0) == [];
    }
  }

  /** An axis of at most `b` cells, and at least one, has the single batch start 0. */
  lemma StartsSingle(n: nat, b: nat)
    requires 0 < n <= b
    ensures Starts(n, b) == [0]
  {
    assert StartsFrom(n, b, b) == [];
  }

  /** The batch at the origin that covers every axis lists every cell in row-major order. */
  lemma BoxAtOrigin(ns: seq<nat>, bs: seq<nat>)
    requires |ns| <= |bs| && forall d :: 0 <= d < |ns| ==> ns[d] <= bs[d]
    ensures Box(ns, bs, seq(|ns|, _ => 0)) == AllCells(ns)
  {
    var zs := seq(|ns|, _ => 0);
    assert Counts(ns, bs, zs) == ns;
    forall r | 0 <= r < Size(ns)
      ensures Box(ns, bs, zs)[r] == AllCells(ns)[r]
    {
      assert Shift(zs, Unravel(ns, r)) == Unravel(ns, r);
    }
  }

  /** A batch as large as every axis: the sweep is one batch, every cell in row-major order. */
  lemma SingleBatch(ns: seq<nat>, bs: seq<nat>)
    requires ValidBatch(ns, bs)
    requires forall d :: 0 <= d < |ns| ==> 0 < ns[d] <= bs[d]
    ensures Boxes(ns, bs) == [AllCells(ns)]
  {
    var ls := StartLists(ns, bs);
    forall d | 0 <= d < |ns|
      ensures ls[d] == [0]
    {
      StartsSingle(ns[d], bs[d]);
    }
    TuplesOfZeros(ls);
    BoxAtOrigin(ns, bs);
  }

  /** Off three axes the root indices are never tied, so a cell's value is the same either way. */
  lemma UntiedOffThree(f: seq<real> -> real, grid: seq<AxisGrid>, roots: seq<real>, weights: seq<real>,
                       cell: seq<nat>)
    requires |grid| != 3
    ensures CellValue(f, grid, roots, weights, true, cell) == CellValue(f, grid, roots, weights, false, cell)
  {
    if |cell| == |grid| {
      var n := |roots|;
      forall c | 0 <= c < Size(Uniform(|grid|, n))
        ensures CellSamples(f, grid, roots, true, cell)[c] == CellSamples(f, grid, roots, false, cell)[c]
      {
        assert RootIndices(true, |grid|, n, c) == RootIndices(false, |grid|, n, c);
      }
      assert CellSamples(f, grid, roots, true, cell) == CellSamples(f, grid, roots, false, cell);
    }
  }

  /** Off three axes, the values of any list of cells are the same tied or not. */
  lemma ValuesOffThree(f: seq<real> -> real, grid: seq<AxisGrid>, roots: seq<real>, weights: seq<real>,
                       cells: seq<seq<nat>>)
    requires |grid| != 3
    ensures MapSeq(cells, ValueOf(f, grid, roots, weights, true)) == MapSeq(cells, ValueOf(f, grid, roots, weights, false))
  {
    forall i | 0 <= i < |cells|
      ensures ValueOf(f, grid, roots, weights, true)(cells[i]) == ValueOf(f, grid, roots, weights, false)(cells[i])
    {
      UntiedOffThree(f, grid, roots, weights, cells[i]);
    }
  }

  /**
   * With a batch covering every axis the sweep takes one block, so the code as
   * written pairs each cell's volume factor with the cell's value, in row-major order.
   */
  lemma IntegrateOneBatch(f: seq<real> -> real, grid: seq<AxisGrid>, roots: seq<real>, weights: seq<real>,
                          bs: seq<nat>)
    requires Consistent(grid) && 1 <= |grid| <= 3 && ValidBatch(CellCounts(grid), bs)
    requires |roots| == |weights|
    requires forall d :: 0 <= d < |grid| ==> 0 < |grid[d].sum| <= bs[d]
    ensures var cells := AllCells(CellCounts(grid));
      Integrate(f, grid, roots, weights, Some(bs))
      == Success(Dot(MapSeq(cells, WeightOf(grid)), MapSeq(cells, ValueOf(f, grid, roots, weights, true))))
  {
    var ns := CellCounts(grid);
    var cells := AllCells(ns);
    IntegrateAsWritten(f, grid, roots, weights, bs);
    SingleBatch(ns, bs);
    assert Concat(Boxes(ns, bs)) == cells by {
      assert Concat([cells]) == cells + Concat([]);
    }
  }

  /**
   * With one or two axes and a batch covering every axis, the code as written
   * computes the composite Gauss-Legendre rule.
   */
  lemma IntegrateSingleBatch(f: seq<real> -> real, grid: seq<AxisGrid>, roots: seq<real>, weights: seq<real>,
                             bs: seq<nat>)
    requires Consistent(grid) && 1 <= |grid| <= 2 && ValidBatch(CellCounts(grid), bs)
    requires |roots| == |weights|
    requires forall d :: 0 <= d < |grid| ==> 0 < |grid[d].sum| <= bs[d]
    ensures Integrate(f, grid, roots, weights, Some(bs)) == Success(Composite(f, grid, roots, weights))
  {
    IntegrateOneBatch(f, grid, roots, weights, bs);
    ValuesOffThree(f, grid, roots, weights, AllCells(CellCounts(grid)));
  }

  /** Without a batch, `integrate` uses `(32,) * dim`. */
  lemma IntegrateDefault(f: seq<real> -> real, grid: seq<AxisGrid>, roots: seq<real>, weights: seq<real>)
    requires Consistent(grid)
    ensures Integrate(f, grid, roots, weights, None) == Integrate(f, grid, roots, weights, Some(DefaultBatch(|grid|)))
  {
  }

  /** The default batch of 32 covers axes of up to 32 cells: there `integrate` is the composite rule. */
  lemma IntegrateDefaultBatch(f: seq<real> -> real, grid: seq<AxisGrid>, roots: seq<real>, weights: seq<real>)
    requires Consistent(grid) && 1 <= |grid| <= 2 && |roots| == |weights|
    requires forall d :: 0 <= d < |grid| ==> 0 < |grid[d].sum| <= 32
    ensures Integrate(f, grid, roots, weights, None) == Success(Composite(f, grid, roots, weights))
  {
    IntegrateSingleBatch(f, grid, roots, weights, DefaultBatch(|grid|));
  }
}
