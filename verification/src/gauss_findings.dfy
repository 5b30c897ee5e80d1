/**
 * Two small grids on which `integrate` of `numerical/integration/gauss.py`, as
 * written, differs from the composite Gauss-Legendre rule it is meant to compute.
 */
module GaussFindings {
  import opened Wrappers
  import opened Arith
  import opened Seqs
  import opened LinAlg
  import opened Grid
  import opened BatchLoop
  import opened Blocks
  import opened Gauss
  import opened GaussSweep

  /** The integrand `x -> x[0]`. */
  function FirstCoordinate(x: seq<real>): real
  {
    if |x| > 0 then x[0] else 0.0
  }

  /** The integrand `x -> x[1] * x[2]`. */
  function SecondTimesThird(x: seq<real>): real
  {
    if |x| > 2 then x[1] * x[2] else 0.0
  }

  // ---------------------------------------------------------------------------
  // Block order: two batches on the second axis
  // ---------------------------------------------------------------------------

  /** Cells `[0, 1]` and `[1, 1.5]` on the first axis, `[0, 1]` and `[1, 2]` on the second. */
  function SkewGrid(): seq<AxisGrid>
  {
    [IntegrationMeta([0.0, 1.0, 1.5]), IntegrationMeta([0.0, 1.0, 2.0])]
  }

  /** The cells of a 2 x 2 grid in row-major order. */
  lemma AllCellsTwoByTwo(ns: seq<nat>)
    requires |ns| == 2 && ns[0] == 2 && ns[1] == 2
    ensures AllCells(ns) == [[0, 0], [0, 1], [1, 0], [1, 1]]
  {
    Size2(ns);
    UnravelAt2(ns, 0, 0);
    UnravelAt2(ns, 0, 1);
    UnravelAt2(ns, 1, 0);
    UnravelAt2(ns, 1, 1);
  }

  /** The batch starts of an axis of two cells with batch size 1. */
  lemma StartsTwoByOne(n: nat, b: nat)
    requires n == 2 && b == 1
    ensures Starts(n, b) == [0, 1]
  {
    assert StartsFrom(n, b, 2) == [];
    assert StartsFrom(n, b, 1) == [1];
  }

  /** The start tuples of batch sizes `(2, 1)` over a 2 x 2 grid. */
  lemma TuplesTwoByOne(ns: seq<nat>, bs: seq<nat>)
    requires |ns| == 2 && ns[0] == 2 && ns[1] == 2 && |bs| == 2 && bs[0] == 2 && bs[1] == 1
    ensures ValidBatch(ns, bs)
    ensures Tuples(StartLists(ns, bs)) == [[0, 0], [0, 1]]
  {
    var ls := StartLists(ns, bs);
    StartsSingle(ns[0], bs[0]);
    StartsTwoByOne(ns[1], bs[1]);
    assert ls[1..] == [[0, 1]];
    var inner := Tuples(ls[1..]);
    assert inner == [[0], [1]] by {
      assert Tuples(ls[1..][1..]) == [[]];
      assert Cross([0, 1], [[]]) == Prefixed([0], [[]]) + Cross([1], [[]]);
      assert Cross([1], [[]]) == Prefixed([1], [[]]) + Cross([], [[]]);
    }
    assert Tuples(ls) == Cross([0], inner);
    assert Cross([0], inner) == Prefixed([0], inner) + Cross([], inner);
    assert [0] + [0] == [0, 0] && [0] + [1] == [0, 1];
  }

  /** The batch of sizes `(2, 1)` at `(0, p)` over a 2 x 2 grid: cells `(0, p)` and `(1, p)`. */
  lemma BoxTwoByOne(ns: seq<nat>, bs: seq<nat>, t: seq<nat>)
    requires |ns| == 2 && ns[0] == 2 && ns[1] == 2 && |bs| == 2 && bs[0] == 2 && bs[1] == 1
    requires |t| == 2 && t[0] == 0 && t[1] < 2
    ensures Box(ns, bs, t) == [[0, t[1]], [1, t[1]]]
  {
    var b := Box(ns, bs, t);
    assert |b| == 2 && b[0] == [0, t[1]] && b[1] == [1, t[1]] by {
      assert Counts(ns, bs, t) == [2, 1];
      BoxPair(ns, bs, t);
    }
    PairIs(b, [0, t[1]], [1, t[1]]);
  }


  /** A two-axis batch spanning two cells of the first axis and one of the second. */
  lemma BoxPair(ns: seq<nat>, bs: seq<nat>, t: seq<nat>)
    requires |t| == |ns| == 2 <= |bs| && Counts(ns, bs, t) == [2, 1]
    ensures |Box(ns, bs, t)| == 2
    ensures Box(ns, bs, t)[0] == [t[0], t[1]] && Box(ns, bs, t)[1] == [t[0] + 1, t[1]]
  {
    assert |Box(ns, bs, t)| == 2 by { Size2([2, 1]); BoxLength(ns, bs, t); }
    BoxCell2(ns, bs, t, 0, 0);
    BoxCell2(ns, bs, t, 1, 0);
    assert Flat(0, 1, 0) == 0 && Flat(1, 1, 0) == 1;
  }

  /** Batches of sizes `(2, 1)` over a 2 x 2 grid visit the cells column by column. */
  lemma SweepTwoByOne(ns: seq<nat>, bs: seq<nat>)
    requires |ns| == 2 && ns[0] == 2 && ns[1] == 2 && |bs| == 2 && bs[0] == 2 && bs[1] == 1
    ensures ValidBatch(ns, bs)
    ensures Concat(Boxes(ns, bs)) == [[0, 0], [1, 0], [0, 1], [1, 1]]
  {
    TuplesTwoByOne(ns, bs);
    BoxTwoByOne(ns, bs, [0, 0]);
    BoxTwoByOne(ns, bs, [0, 1]);
    var bx := Boxes(ns, bs);
    assert bx == [[[0, 0], [1, 0]], [[0, 1], [1, 1]]];
    assert Concat(bx) == bx[0] + Concat(bx[1..]);
    assert Concat(bx[1..]) == bx[1] + Concat(bx[2..]);
  }

  /** Two axes: the volume factor of a cell is the product of its two half-widths. */
  lemma CellWeight2(grid: seq<AxisGrid>, i: nat, j: nat)
    requires Consistent(grid) && |grid| == 2 && i < |grid[0].sum| && j < |grid[1].sum|
    ensures CellWeight(grid, [i, j]) == grid[0].diff[i] * grid[1].diff[j]
  {
    assert InGrid(grid, [i, j]);
    ProdAt2(Diffs(grid), i, j);
  }

  /** Two axes, one root: a cell's value is the squared weight times the integrand at the root's node. */
  lemma CellValueOneRoot(f: seq<real> -> real, grid: seq<AxisGrid>, roots: seq<real>, weights: seq<real>,
                         tied: bool, i: nat, j: nat)
    requires Consistent(grid) && |grid| == 2 && i < |grid[0].sum| && j < |grid[1].sum|
    requires |roots| == 1 && |weights| == 1
    ensures CellValue(f, grid, roots, weights, tied, [i, j])
            == f([grid[0].sum[i] + grid[0].diffT[i] * roots[0], grid[1].sum[j] + grid[1].diffT[j] * roots[0]])
               * (weights[0] * weights[0])
  {
    assert InGrid(grid, [i, j]);
    var lens := Uniform(2, 1);
    Size2(lens);
    UnravelAt2(lens, 0, 0);
    var ks := RootIndices(tied, 2, 1, 0);
    assert ks == [0, 0];
    ProdAt2(Copies(2, weights), 0, 0);
    assert WeightProducts(weights, 2)[0] == weights[0] * weights[0];
    var x := Point(grid, roots, [i, j], ks);
    assert x[0] == grid[0].sum[i] + grid[0].diffT[i] * roots[0];
    assert x[1] == grid[1].sum[j] + grid[1].diffT[j] * roots[0];
    assert x == [x[0], x[1]];
    var fv := CellSamples(f, grid, roots, tied, [i, j]);
    assert fv[0] == f(x);
    assert Dot(fv, WeightProducts(weights, 2)) == fv[0] * WeightProducts(weights, 2)[0] + Dot([], []);
  }

  /** A dot product of four terms, written out. */
  lemma Dot4(a: seq<real>, b: seq<real>)
    requires |a| == 4 && |b| == 4
    ensures Dot(a, b) == a[0] * b[0] + a[1] * b[1] + a[2] * b[2] + a[3] * b[3]
  {
    assert Dot(a[3..], b[3..]) == a[3] * b[3] + Dot([], []);
    assert Dot(a[2..], b[2..]) == a[2] * b[2] + Dot(a[3..], b[3..]);
    assert Dot(a[1..], b[1..]) == a[1] * b[1] + Dot(a[2..], b[2..]);
  }

  /** Midpoints `0.5, 1.25` and half-widths `0.5, 0.25` on the first axis, half-widths `0.5` on the second. */
  predicate Skewed(grid: seq<AxisGrid>)
  {
    && Consistent(grid) && |grid| == 2 && CellCounts(grid) == [2, 2]
    && grid[0].sum == [0.5, 1.25] && grid[0].diff == [0.5, 0.25] && grid[1].diff == [0.5, 0.5]
  }

  /** The skewed grid: midpoints `0.5, 1.25` and half-widths `0.5, 0.25` on the first axis, half-widths `0.5` on the second. */
  lemma SkewGridFacts()
    ensures Skewed(SkewGrid())
  {
  }

  /** The volume factors and the values of the cells of the skewed grid with the one-point rule. */
  lemma SkewCells(grid: seq<AxisGrid>, roots: seq<real>, weights: seq<real>, i: nat, j: nat)
    requires Skewed(grid) && roots == [0.0] && weights == [2.0] && i < 2 && j < 2
    ensures CellWeight(grid, [i, j]) == (if i == 0 then 0.25 else 0.125)
    ensures CellValue(FirstCoordinate, grid, roots, weights, true, [i, j]) == (if i == 0 then 2.0 else 5.0)
    ensures CellValue(FirstCoordinate, grid, roots, weights, false, [i, j]) == (if i == 0 then 2.0 else 5.0)
  {
    CellWeight2(grid, i, j);
    CellValueOneRoot(FirstCoordinate, grid, roots, weights, true, i, j);
    CellValueOneRoot(FirstCoordinate, grid, roots, weights, false, i, j);
  }

  /** The four cells of the skewed grid, mapped in a given order. */
  lemma SkewMaps(grid: seq<AxisGrid>, roots: seq<real>, weights: seq<real>, tied: bool, cells: seq<seq<nat>>)
    requires Skewed(grid) && roots == [0.0] && weights == [2.0]
    requires cells == [[0, 0], [0, 1], [1, 0], [1, 1]] || cells == [[0, 0], [1, 0], [0, 1], [1, 1]]
    ensures MapSeq(cells, WeightOf(grid))
            == if cells[1] == [0, 1] then [0.25, 0.25, 0.125, 0.125] else [0.25, 0.125, 0.25, 0.125]
    ensures MapSeq(cells, ValueOf(FirstCoordinate, grid, roots, weights, tied))
            == if cells[1] == [0, 1] then [2.0, 2.0, 5.0, 5.0] else [2.0, 5.0, 2.0, 5.0]
  {
    var w := MapSeq(cells, WeightOf(grid));
    var v := MapSeq(cells, ValueOf(FirstCoordinate, grid, roots, weights, tied));
    if cells[1] == [0, 1] {
      SkewMapAt(grid, roots, weights, tied, cells, 0, 0, 0);
      SkewMapAt(grid, roots, weights, tied, cells, 1, 0, 1);
      SkewMapAt(grid, roots, weights, tied, cells, 2, 1, 0);
      SkewMapAt(grid, roots, weights, tied, cells, 3, 1, 1);
      FourIs(w, 0.25, 0.25, 0.125, 0.125);
      FourIs(v, 2.0, 2.0, 5.0, 5.0);
    } else {
      SkewMapAt(grid, roots, weights, tied, cells, 0, 0, 0);
      SkewMapAt(grid, roots, weights, tied, cells, 1, 1, 0);
      SkewMapAt(grid, roots, weights, tied, cells, 2, 0, 1);
      SkewMapAt(grid, roots, weights, tied, cells, 3, 1, 1);
      FourIs(w, 0.25, 0.125, 0.25, 0.125);
      FourIs(v, 2.0, 5.0, 2.0, 5.0);
    }
  }

  /** Entry `k` of the mapped cells, for the cell `[i, j]`. */
  lemma SkewMapAt(grid: seq<AxisGrid>, roots: seq<real>, weights: seq<real>, tied: bool, cells: seq<seq<nat>>,
                  k: nat, i: nat, j: nat)
    requires Skewed(grid) && roots == [0.0] && weights == [2.0]
    requires k < |cells| && cells[k] == [i, j] && i < 2 && j < 2
    ensures MapSeq(cells, WeightOf(grid))[k] == if i == 0 then 0.25 else 0.125
    ensures MapSeq(cells, ValueOf(FirstCoordinate, grid, roots, weights, tied))[k] == if i == 0 then 2.0 else 5.0
  {
    SkewCells(grid, roots, weights, i, j);
  }


  /**
   * Two batches on the second axis: as written, `integrate` returns 2.625 where
   * the composite rule (exact here, the integrand being linear) gives 2.25.
   */
  lemma BlockOrderWitness(grid: seq<AxisGrid>, roots: seq<real>, weights: seq<real>, bs: seq<nat>)
    requires grid == SkewGrid() && roots == [0.0] && weights == [2.0] && bs == [2, 1]
    ensures Integrate(FirstCoordinate, grid, roots, weights, Some(bs)) == Success(2.625)
    ensures Composite(FirstCoordinate, grid, roots, weights) == 2.25
  {
    var ns := CellCounts(grid);
    SkewGridFacts();
    SweepTwoByOne(ns, bs);
    IntegrateAsWritten(FirstCoordinate, grid, roots, weights, bs);
    AllCellsTwoByTwo(ns);
    SkewMaps(grid, roots, weights, true, AllCells(ns));
    SkewMaps(grid, roots, weights, true, Concat(Boxes(ns, bs)));
    SkewMaps(grid, roots, weights, false, AllCells(ns));
    Dot4([0.25, 0.25, 0.125, 0.125], [2.0, 5.0, 2.0, 5.0]);
    Dot4([0.25, 0.25, 0.125, 0.125], [2.0, 2.0, 5.0, 5.0]);
  }

  // ---------------------------------------------------------------------------
  // Tied roots: three axes, one cell
  // ---------------------------------------------------------------------------

  /** The cube `[-1, 1]^3` as one cell per axis. */
  function CubeGrid(): seq<AxisGrid>
  {
    [IntegrationMeta([-1.0, 1.0]), IntegrationMeta([-1.0, 1.0]), IntegrationMeta([-1.0, 1.0])]
  }

  /** Three axes of one cell each, with midpoint 0 and half-width 1. */
  predicate UnitCube(grid: seq<AxisGrid>)
  {
    |grid| == 3 && forall d :: 0 <= d < 3 ==> grid[d].sum == [0.0] && grid[d].diff == [1.0] && grid[d].diffT == [1.0]
  }

  /** The two roots `-a` and `a`. */
  predicate SymmetricPair(roots: seq<real>, a: real)
  {
    |roots| == 2 && roots[0] == -a && roots[1] == a
  }

  /** The two weights `1` and `1`. */
  predicate UnitPair(weights: seq<real>)
  {
    |weights| == 2 && weights[0] == 1.0 && weights[1] == 1.0
  }

  /** The cube `[-1, 1]^3` has one cell per axis, with midpoint 0 and half-width 1. */
  lemma CubeGridFacts()
    ensures UnitCube(CubeGrid()) && Consistent(CubeGrid()) && CellCounts(CubeGrid()) == [1, 1, 1]
  {
  }

  /** A dot product of two constant sequences. */
  lemma {:induction false} DotConstant(a: seq<real>, b: seq<real>, x: real, y: real)
    requires |a| == |b|
    requires forall i :: 0 <= i < |a| ==> a[i] == x && b[i] == y
    ensures Dot(a, b) == |a| as real * (x * y)
  {
    if |a| > 0 {
      DotConstant(a[1..], b[1..], x, y);
    }
  }

  /** Entries `2 m` and `2 m + 1` of `a` cancel. */
  ghost predicate CancelsAt(a: seq<real>, m: nat)
  {
    2 * m + 1 < |a| && a[2 * m + 1] == -a[2 * m]
  }

  /** Against a constant sequence, entries that cancel in pairs sum to zero. */
  lemma {:induction false} DotCancels(a: seq<real>, b: seq<real>, y: real)
    requires |a| == |b| && |a| % 2 == 0
    requires forall i :: 0 <= i < |b| ==> b[i] == y
    requires forall m :: 0 <= m < |a| / 2 ==> CancelsAt(a, m)
    ensures Dot(a, b) == 0.0
  {
    if |a| > 0 {
      assert CancelsAt(a, 0);
      forall m | 0 <= m < |a[2..]| / 2
        ensures CancelsAt(a[2..], m)
      {
        assert CancelsAt(a, m + 1);
      }
      DotCancels(a[2..], b[2..], y);
      assert Dot(a[1..], b[1..]) == a[1] * b[1] + Dot(a[2..], b[2..]);
    }
  }

  /** On the unit cube, the sample of the cell at the origin is the roots themselves. */
  lemma CubePoint(grid: seq<AxisGrid>, roots: seq<real>, ks: seq<nat>)
    requires UnitCube(grid) && |ks| == 3 && forall d :: 0 <= d < 3 ==> ks[d] < |roots|
    ensures Point(grid, roots, [0, 0, 0], ks) == [roots[ks[0]], roots[ks[1]], roots[ks[2]]]
  {
  }

  /** Column `c` of the cube's cell samples `x[1] * x[2]` at the roots of the last two indices. */
  lemma CubeSample(grid: seq<AxisGrid>, roots: seq<real>, tied: bool, c: nat)
    requires UnitCube(grid) && c < Size(Uniform(3, |roots|))
    ensures var ks := RootIndices(tied, 3, |roots|, c);
      CellSamples(SecondTimesThird, grid, roots, tied, [0, 0, 0])[c] == roots[ks[1]] * roots[ks[2]]
  {
    var ks := RootIndices(tied, 3, |roots|, c);
    var x := Point(grid, roots, [0, 0, 0], ks);
    assert CellSamples(SecondTimesThird, grid, roots, tied, [0, 0, 0])[c] == SecondTimesThird(x);
    CubePoint(grid, roots, ks);
  }

  /** With unit weights every product weight is 1. */
  lemma UnitWeightProducts(weights: seq<real>, c: nat)
    requires UnitPair(weights) && c < Size(Uniform(3, |weights|))
    ensures WeightProducts(weights, 3)[c] == 1.0
  {
    var ks := Unravel(Uniform(3, |weights|), c);
    assert ks == [ks[0], ks[1], ks[2]];
    ProdAt3(Copies(3, weights), ks[0], ks[1], ks[2]);
  }

  /** Untied, columns `2 m` and `2 m + 1` differ only in the last root index, 0 against 1. */
  lemma CubeColumnsPair(n: nat, m: nat)
    requires n == 2 && 2 * m + 1 < Size(Uniform(3, n))
    ensures var js, ks := RootIndices(false, 3, n, 2 * m), RootIndices(false, 3, n, 2 * m + 1);
      js[1] == ks[1] && js[2] == 0 && ks[2] == 1
  {
    var lens := Uniform(3, n);
    var js := Unravel(lens, 2 * m);
    RowMajor3(lens, js);
    var ks := [js[0], js[1], 1];
    RowMajor3(lens, ks);
    RowMajorInjective(lens, Unravel(lens, 2 * m + 1), ks);
  }

  /** Either root squares to `a^2`. */
  lemma SquareOfRoot(roots: seq<real>, a: real, k: nat)
    requires SymmetricPair(roots, a) && k < 2
    ensures roots[k] * roots[k] == a * a
  {
    if k == 0 {
      assert roots[k] * roots[k] == (-a) * (-a);
    }
  }

  /** Tied, column `c` of the cube's cell samples `r_o * r_o = a^2`. */
  lemma CubeTiedColumn(grid: seq<AxisGrid>, roots: seq<real>, a: real, c: nat)
    requires UnitCube(grid) && SymmetricPair(roots, a) && c < Size(Uniform(3, |roots|))
    ensures CellSamples(SecondTimesThird, grid, roots, true, [0, 0, 0])[c] == a * a
  {
    var ks := RootIndices(true, 3, |roots|, c);
    CubeSample(grid, roots, true, c);
    SquareOfRoot(roots, a, ks[2]);
  }

  /** Untied, columns `2 m` and `2 m + 1` of the cube's cell sample `r_l * (-a)` and `r_l * a`. */
  lemma CubeUntiedPair(grid: seq<AxisGrid>, roots: seq<real>, a: real, m: nat)
    requires UnitCube(grid) && SymmetricPair(roots, a) && 2 * m + 1 < Size(Uniform(3, |roots|))
    ensures CancelsAt(CellSamples(SecondTimesThird, grid, roots, false, [0, 0, 0]), m)
  {
    CubeColumnsPair(|roots|, m);
    CubeSample(grid, roots, false, 2 * m);
    CubeSample(grid, roots, false, 2 * m + 1);
    var r := roots[RootIndices(false, 3, |roots|, 2 * m)[1]];
    assert r * a == -(r * -a);
  }

  /** Tied, every sample of the cube's cell is `a^2`, so the weighted sum is `8 a^2`. */
  lemma CubeTiedSum(grid: seq<AxisGrid>, roots: seq<real>, weights: seq<real>, a: real)
    requires UnitCube(grid) && SymmetricPair(roots, a) && UnitPair(weights)
    ensures Dot(CellSamples(SecondTimesThird, grid, roots, true, [0, 0, 0]), WeightProducts(weights, 3)) == 8.0 * (a * a)
  {
    Size3(Uniform(3, |roots|));
    forall c | 0 <= c < 8
      ensures CellSamples(SecondTimesThird, grid, roots, true, [0, 0, 0])[c] == a * a
      ensures WeightProducts(weights, 3)[c] == 1.0
    {
      CubeTiedColumn(grid, roots, a, c);
      UnitWeightProducts(weights, c);
    }
    DotConstant(CellSamples(SecondTimesThird, grid, roots, true, [0, 0, 0]), WeightProducts(weights, 3), a * a, 1.0);
  }

  /** Untied, the samples of the cube's cell cancel in pairs, so the weighted sum is 0. */
  lemma CubeUntiedSum(grid: seq<AxisGrid>, roots: seq<real>, weights: seq<real>, a: real)
    requires UnitCube(grid) && SymmetricPair(roots, a) && UnitPair(weights)
    ensures Dot(CellSamples(SecondTimesThird, grid, roots, false, [0, 0, 0]), WeightProducts(weights, 3)) == 0.0
  {
    Size3(Uniform(3, |roots|));
    forall c | 0 <= c < 8
      ensures WeightProducts(weights, 3)[c] == 1.0
    {
      UnitWeightProducts(weights, c);
    }
    forall m | 0 <= m < 4
      ensures CancelsAt(CellSamples(SecondTimesThird, grid, roots, false, [0, 0, 0]), m)
    {
      CubeUntiedPair(grid, roots, a, m);
    }
    DotCancels(CellSamples(SecondTimesThird, grid, roots, false, [0, 0, 0]), WeightProducts(weights, 3), 1.0);
  }

  /** The cube's one cell with roots `[-a, a]`: tied, its value is `8 a^2`; untied, 0. */
  lemma CubeCellValue(grid: seq<AxisGrid>, roots: seq<real>, weights: seq<real>, a: real)
    requires grid == CubeGrid() && SymmetricPair(roots, a) && UnitPair(weights)
    ensures CellValue(SecondTimesThird, grid, roots, weights, true, [0, 0, 0]) == 8.0 * (a * a)
    ensures CellValue(SecondTimesThird, grid, roots, weights, false, [0, 0, 0]) == 0.0
  {
    CubeGridFacts();
    assert InGrid(grid, [0, 0, 0]);
    CubeTiedSum(grid, roots, weights, a);
    CubeUntiedSum(grid, roots, weights, a);
  }

  /** Three axes of one cell each have the one cell at the origin. */
  lemma OriginOnly(ns: seq<nat>)
    requires |ns| == 3 && ns[0] == 1 && ns[1] == 1 && ns[2] == 1
    ensures AllCells(ns) == [[0, 0, 0]]
  {
    Size3(ns);
    UnravelAt3(ns, 0, 0, 0);
  }

  /** The cube's cell has volume factor 1. */
  lemma CubeVolume(grid: seq<AxisGrid>)
    requires UnitCube(grid)
    ensures CellWeight(grid, [0, 0, 0]) == 1.0
  {
    assert InGrid(grid, [0, 0, 0]);
    ProdAt3(Diffs(grid), 0, 0, 0);
  }

  /**
   * The cube `[-1, 1]^3`, the integrand `x[1] * x[2]` and a two-point rule with
   * roots `[-a, a]`: as written, `integrate` returns `8 a^2` (8/3 for the
   * Gauss-Legendre roots `a = 1/sqrt(3)`), where the composite rule and the
   * integral are 0.
   */
  lemma TieWitness(grid: seq<AxisGrid>, roots: seq<real>, weights: seq<real>, a: real)
    requires grid == CubeGrid() && SymmetricPair(roots, a) && UnitPair(weights)
    ensures Integrate(SecondTimesThird, grid, roots, weights, None) == Success(8.0 * (a * a))
    ensures Composite(SecondTimesThird, grid, roots, weights) == 0.0
  {
    CubeGridFacts();
    var ns := CellCounts(grid);
    IntegrateDefault(SecondTimesThird, grid, roots, weights);
    IntegrateOneBatch(SecondTimesThird, grid, roots, weights, DefaultBatch(3));
    OriginOnly(ns);
    CubeVolume(grid);
    CubeCellValue(grid, roots, weights, a);
    var wt := MapSeq([[0, 0, 0]], WeightOf(grid));
    assert Dot(wt, MapSeq([[0, 0, 0]], ValueOf(SecondTimesThird, grid, roots, weights, true)))
        == 1.0 * (8.0 * (a * a)) + Dot([], []);
    assert Dot(wt, MapSeq([[0, 0, 0]], ValueOf(SecondTimesThird, grid, roots, weights, false)))
        == 1.0 * 0.0 + Dot([], []);
  }

}
