/**
 * When only the first axis is split into batches, the sweep of `_integration_loop`
 * (`numerical/integration/gauss.py`) visits the cells in row-major order: each
 * batch is a run of consecutive entries of the row-major cell list. There
 * `integrate` as written pairs every per-cell sum with its own volume factor; in
 * one dimension that is every batch size.
 */
module SweepOrder {
  import opened Wrappers
  import opened Arith
  import opened Arrays
  import opened Seqs
  import opened LinAlg
  import opened Grid
  import opened BatchLoop
  import opened Blocks
  import opened Gauss
  import opened GaussSweep

  // ---------------------------------------------------------------------------
  // Row-major order, first axis first
  // ---------------------------------------------------------------------------

  /** The number of entries is the first length times the entries of the remaining axes. */
  lemma {:induction false} SizeFirst(ns: seq<nat>)
    requires |ns| > 0
    ensures Size(ns) == ns[0] * Size(ns[1..])
  {
    var n := |ns| - 1;
    if n == 0 {
      assert ns[..0] == [] && ns[1..] == [];
    } else {
      SizeFirst(ns[..n]);
      assert ns[..n][1..] == ns[1..][..n - 1];
      var a := Size(ns[1..][..n - 1]);
      assert Size(ns) == ns[0] * a * ns[n];
      assert Size(ns[1..]) == a * ns[n];
    }
  }

  /** The flat position of a multi-index is its first digit times the block below it plus the position of the rest. */
  lemma {:induction false} RowMajorFirst(ns: seq<nat>, ks: seq<nat>)
    requires |ks| == |ns| > 0
    ensures RowMajor(ns, ks) == Flat(ks[0], Size(ns[1..]), RowMajor(ns[1..], ks[1..]))
  {
    var n := |ns| - 1;
    if n == 0 {
      assert ns[..0] == [] && ks[..0] == [] && ns[1..] == [] && ks[1..] == [];
    } else {
      RowMajorFirst(ns[..n], ks[..n]);
      assert ns[..n][1..] == ns[1..][..n - 1] && ks[..n][1..] == ks[1..][..n - 1];
      var a, b := Size(ns[1..][..n - 1]), RowMajor(ns[1..][..n - 1], ks[1..][..n - 1]);
      assert RowMajor(ns, ks) == Flat(Flat(ks[0], a, b), ns[n], ks[n]);
      assert Size(ns[1..]) == a * ns[n] && RowMajor(ns[1..], ks[1..]) == Flat(b, ns[n], ks[n]);
      FlatNest(ks[0], a, b, ns[n], ks[n]);
    }
  }

  // ---------------------------------------------------------------------------
  // The sweep
  // ---------------------------------------------------------------------------

  /** The start tuple `(p, 0, ..., 0)` of a sweep of `k` axes. */
  function FirstStart(p: nat, k: nat): (t: seq<nat>)
    requires k > 0
    ensures |t| == k && t[0] == p && forall d :: 1 <= d < k ==> t[d] == 0
  {
    [p] + seq(k - 1, _ => 0)
  }

  /** The batches at the first-axis starts `xs`, every other axis at 0. */
  function FirstBoxes(ns: seq<nat>, bs: seq<nat>, xs: seq<nat>): (bx: seq<seq<seq<nat>>>)
    requires |ns| > 0
    ensures |bx| == |xs| && forall i :: 0 <= i < |xs| ==> bx[i] == Box(ns, bs, FirstStart(xs[i], |ns|))
  {
    seq(|xs|, i requires 0 <= i < |xs| => Box(ns, bs, FirstStart(xs[i], |ns|)))
  }

  /** Every axis after the first fits in one batch. */
  predicate FirstAxisOnly(ns: seq<nat>, bs: seq<nat>)
  {
    |ns| > 0 && |bs| >= |ns| && bs[0] > 0 && forall d :: 1 <= d < |ns| ==> 0 < ns[d] <= bs[d]
  }

  /** `x` in front of the one tuple `z`, for every `x` of `xs`. */
  lemma {:induction false} CrossSingle(xs: seq<nat>, z: seq<nat>)
    ensures Cross(xs, [z]) == seq(|xs|, i requires 0 <= i < |xs| => [xs[i]] + z)
  {
    if |xs| > 0 {
      CrossSingle(xs[1..], z);
      assert Prefixed([xs[0]], [z]) == [[xs[0]] + z];
    }
  }

  /** With every later axis in one batch, the start tuples are `(p, 0, ..., 0)` for the first-axis starts `p`. */
  lemma FirstAxisTuples(ns: seq<nat>, bs: seq<nat>)
    requires FirstAxisOnly(ns, bs)
    ensures ValidBatch(ns, bs)
    ensures var xs := Starts(ns[0], bs[0]);
      Tuples(StartLists(ns, bs)) == seq(|xs|, i requires 0 <= i < |xs| => FirstStart(xs[i], |ns|))
  {
    var ls := StartLists(ns, bs);
    forall d | 0 <= d < |ls[1..]|
      ensures ls[1..][d] == [0]
    {
      StartsSingle(ns[d + 1], bs[d + 1]);
    }
    TuplesOfZeros(ls[1..]);
    CrossSingle(ls[0], seq(|ns| - 1, _ => 0));
  }

  /** The batch at `(p, 0, ..., 0)` spans the whole of every later axis, and stays inside the first. */
  lemma FirstCounts(ns: seq<nat>, bs: seq<nat>, p: nat)
    requires FirstAxisOnly(ns, bs) && p < ns[0]
    ensures var cnt := Counts(ns, bs, FirstStart(p, |ns|));
      cnt[1..] == ns[1..] && cnt[0] == Span(ns[0], bs[0], p) && p + cnt[0] <= ns[0]
  {
    var cnt := Counts(ns, bs, FirstStart(p, |ns|));
    assert cnt[1..] == ns[1..];
  }

  /** Shifting a multi-index of the batch shape by `p` along the first axis moves its flat position by `lo = p * M`. */
  lemma FirstShift(ns: seq<nat>, cnt: seq<nat>, p: nat, lo: nat, ks: seq<nat>)
    requires |ns| == |cnt| > 0 && cnt[1..] == ns[1..] && p + cnt[0] <= ns[0]
    requires IsIndex(cnt, ks) && lo == p * Size(ns[1..])
    ensures IsIndex(ns, BumpFirst(p, ks))
    ensures RowMajor(ns, BumpFirst(p, ks)) == lo + RowMajor(cnt, ks)
  {
    var c := BumpFirst(p, ks);
    assert c[0] == p + ks[0] && c[1..] == ks[1..];
    RowMajorFirst(cnt, ks);
    RowMajorFirst(ns, c);
    ShiftedFlat(RowMajor(ns, c), c[0], Size(ns[1..]), RowMajor(ns[1..], c[1..]),
                p, lo, RowMajor(cnt, ks), ks[0], Size(cnt[1..]), RowMajor(cnt[1..], ks[1..]));
  }

  /** `FlatShift` with its terms named, so that the caller's positions match only by congruence. */
  lemma ShiftedFlat(y: nat, c: nat, m: nat, a: nat, p: nat, lo: nat, x: nat, k: nat, m': nat, a': nat)
    requires x == Flat(k, m', a') && y == Flat(c, m, a)
    requires c == p + k && m == m' && a == a' && lo == p * m
    ensures y == lo + x
  {
    FlatShift(p, k, m, a);
  }

  /** The multi-index `ks` with `p` added to its first digit. */
  function BumpFirst(p: nat, ks: seq<nat>): seq<nat>
    requires |ks| > 0
  {
    [p + ks[0]] + ks[1..]
  }

  /** Shifting by `(p, 0, ..., 0)` adds `p` to the first digit alone. */
  lemma ShiftFirst(p: nat, ks: seq<nat>)
    requires |ks| > 0
    ensures Shift(FirstStart(p, |ks|), ks) == BumpFirst(p, ks)
  {
  }

  /** A valid multi-index is the cell at its own row-major position. */
  lemma CellAt(ns: seq<nat>, c: seq<nat>, i: nat)
    requires IsIndex(ns, c) && RowMajor(ns, c) == i
    ensures i < Size(ns) && AllCells(ns)[i] == c
  {
    RowMajorInside(ns, c);
    RowMajorInjective(ns, c, Unravel(ns, i));
  }

  /** Digits `ks` of row `r` of the batch at `(p, 0, ..., 0)`, with `p` added to the first, name entry `p * M + r` of the cell list. */
  lemma FirstCellAt(ns: seq<nat>, bs: seq<nat>, p: nat, lo: nat, r: nat, ks: seq<nat>)
    requires FirstAxisOnly(ns, bs) && p < ns[0] && lo == p * Size(ns[1..])
    requires r < Size(Counts(ns, bs, FirstStart(p, |ns|))) && ks == Unravel(Counts(ns, bs, FirstStart(p, |ns|)), r)
    ensures |ks| == |ns| > 0
    ensures lo + r < Size(ns) && AllCells(ns)[lo + r] == BumpFirst(p, ks)
  {
    var cnt := Counts(ns, bs, FirstStart(p, |ns|));
    FirstCounts(ns, bs, p);
    FirstShift(ns, cnt, p, lo, ks);
    CellAt(ns, BumpFirst(p, ks), lo + r);
  }

  /**
   * Row `r` of the batch at `(p, 0, ..., 0)` is entry `p * M + r` of the row-major
   * cell list, `M` being the number of cells of the later axes.
   */
  lemma FirstBoxRow(ns: seq<nat>, bs: seq<nat>, p: nat, lo: nat, r: nat)
    requires FirstAxisOnly(ns, bs) && p < ns[0] && lo == p * Size(ns[1..])
    requires r < Size(Counts(ns, bs, FirstStart(p, |ns|)))
    ensures lo + r < Size(ns)
    ensures Box(ns, bs, FirstStart(p, |ns|))[r] == AllCells(ns)[lo + r]
  {
    var ks := Unravel(Counts(ns, bs, FirstStart(p, |ns|)), r);
    FirstCellAt(ns, bs, p, lo, r, ks);
    ShiftFirst(p, ks);
  }

  /** The batch at `(p, 0, ..., 0)` has `span * M` cells, and its run of positions lies inside the cell list. */
  lemma FirstBoxSize(ns: seq<nat>, bs: seq<nat>, p: nat)
    requires FirstAxisOnly(ns, bs) && p < ns[0]
    ensures var m, e := Size(ns[1..]), p + Span(ns[0], bs[0], p);
      && p * m <= e * m <= Size(ns)
      && |Box(ns, bs, FirstStart(p, |ns|))| == e * m - p * m
  {
    var cnt := Counts(ns, bs, FirstStart(p, |ns|));
    FirstCounts(ns, bs, p);
    SizeFirst(cnt);
    SizeFirst(ns);
    RunBounds(p, cnt[0], ns[0], Size(ns[1..]));
  }

  /**
   * The batch at `(p, 0, ..., 0)` is the run of the row-major cell list from
   * `lo = p * M` to `hi = (p + span) * M`.
   */
  lemma FirstBoxSlice(ns: seq<nat>, bs: seq<nat>, p: nat, lo: nat, hi: nat)
    requires FirstAxisOnly(ns, bs) && p < ns[0]
    requires lo == p * Size(ns[1..]) && hi == (p + Span(ns[0], bs[0], p)) * Size(ns[1..])
    ensures lo <= hi <= Size(ns)
    ensures Box(ns, bs, FirstStart(p, |ns|)) == AllCells(ns)[lo .. hi]
  {
    FirstBoxSize(ns, bs, p);
    var box := Box(ns, bs, FirstStart(p, |ns|));
    forall r | 0 <= r < |box|
      ensures box[r] == AllCells(ns)[lo + r]
    {
      FirstBoxRow(ns, bs, p, lo, r);
    }
    SliceIs(box, AllCells(ns), lo, hi);
  }

  /** The batches from first-axis start `p` on are the row-major cell list from `lo = min(p, n) * M` on. */
  lemma {:induction false} FirstBoxesFrom(ns: seq<nat>, bs: seq<nat>, p: nat, lo: nat)
    requires FirstAxisOnly(ns, bs) && lo == Min(p, ns[0]) * Size(ns[1..])
    ensures lo <= Size(ns)
    ensures Concat(FirstBoxes(ns, bs, StartsFrom(ns[0], bs[0], p))) == AllCells(ns)[lo ..]
    decreases if p < ns[0] then ns[0] - p else 0
  {
    var xs := StartsFrom(ns[0], bs[0], p);
    if p < ns[0] {
      var e := p + Span(ns[0], bs[0], p);
      assert e == Min(p + bs[0], ns[0]);
      var hi := e * Size(ns[1..]);
      FirstBoxSlice(ns, bs, p, lo, hi);
      FirstBoxesFrom(ns, bs, p + bs[0], hi);
      var box := Box(ns, bs, FirstStart(p, |ns|));
      assert FirstBoxes(ns, bs, xs) == [box] + FirstBoxes(ns, bs, xs[1..]);
      ConcatSlices(AllCells(ns), box, FirstBoxes(ns, bs, xs[1..]), lo, hi);
    } else {
      SizeFirst(ns);
    }
  }

  /** With every later axis in one batch, the sweep lists every cell once, in row-major order. */
  lemma FirstAxisSweep(ns: seq<nat>, bs: seq<nat>)
    requires FirstAxisOnly(ns, bs)
    ensures ValidBatch(ns, bs) && Concat(Boxes(ns, bs)) == AllCells(ns)
  {
    FirstAxisTuples(ns, bs);
    var xs := Starts(ns[0], bs[0]);
    assert Boxes(ns, bs) == FirstBoxes(ns, bs, xs);
    FirstBoxesFrom(ns, bs, 0, 0);
  }

  // ---------------------------------------------------------------------------
  // `integrate` along the row-major sweep
  // ---------------------------------------------------------------------------

  /**
   * When only the first axis takes several batches, `integrate` as written pairs
   * each cell's volume factor with the same cell's value as written; only the
   * three-axis tie is left.
   */
  lemma IntegrateFirstAxisBatched(f: seq<real> -> real, grid: seq<AxisGrid>, roots: seq<real>, weights: seq<real>,
                                  bs: seq<nat>)
    requires Consistent(grid) && 1 <= |grid| <= 3 && ValidBatch(CellCounts(grid), bs)
    requires |roots| == |weights|
    requires forall d :: 0 <= d < |grid| ==> |grid[d].sum| > 0
    requires forall d :: 1 <= d < |grid| ==> |grid[d].sum| <= bs[d]
    ensures var cells := AllCells(CellCounts(grid));
      Integrate(f, grid, roots, weights, Some(bs))
      == Success(Dot(MapSeq(cells, WeightOf(grid)), MapSeq(cells, ValueOf(f, grid, roots, weights, true))))
  {
    IntegrateAsWritten(f, grid, roots, weights, bs);
    FirstAxisSweep(CellCounts(grid), bs);
  }

  /** With one or two axes, and only the first split into batches, `integrate` is the composite rule. */
  lemma IntegrateFirstAxisComposite(f: seq<real> -> real, grid: seq<AxisGrid>, roots: seq<real>, weights: seq<real>,
                                    bs: seq<nat>)
    requires Consistent(grid) && 1 <= |grid| <= 2 && ValidBatch(CellCounts(grid), bs)
    requires |roots| == |weights|
    requires forall d :: 0 <= d < |grid| ==> |grid[d].sum| > 0
    requires forall d :: 1 <= d < |grid| ==> |grid[d].sum| <= bs[d]
    ensures Integrate(f, grid, roots, weights, Some(bs)) == Success(Composite(f, grid, roots, weights))
  {
    IntegrateFirstAxisBatched(f, grid, roots, weights, bs);
    ValuesOffThree(f, grid, roots, weights, AllCells(CellCounts(grid)));
  }

  /** In one dimension `integrate` is the composite rule for every batch size. */
  lemma IntegrateOneAxis(f: seq<real> -> real, grid: seq<AxisGrid>, roots: seq<real>, weights: seq<real>,
                         batch: Option<seq<nat>>)
    requires Consistent(grid) && |grid| == 1 && |grid[0].sum| > 0 && |roots| == |weights|
    requires batch.Some? ==> ValidBatch(CellCounts(grid), batch.value)
    ensures Integrate(f, grid, roots, weights, batch) == Success(Composite(f, grid, roots, weights))
  {
    var bs := if batch.Some? then batch.value else DefaultBatch(1);
    IntegrateDefault(f, grid, roots, weights);
    IntegrateFirstAxisComposite(f, grid, roots, weights, bs);
  }
}
