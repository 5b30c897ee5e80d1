/**
 * `numerical/interpolation.py`: tensor-product linear interpolation on a regular
 * grid. `interpolate` records, per axis, the node range and the node count, and
 * the returned `_interpolated(x)` walks the query points in batches: each batch
 * builds per-axis hat arguments, spreads them over all nodes with `repeat_args`,
 * multiplies the hats and dots them with the tabulated values.
 *
 * The grid is given as its axes (the node lists the meshgrid is built from); the
 * query `x` as a `dim x npts` matrix, one row per axis.
 */
module Interpolation {
  import opened Wrappers
  import opened Arith
  import opened Arrays
  import opened Seqs
  import opened LinAlg
  import opened Splines
  import opened InterpolationUtils

  /** Smallest element (`g.min()`). */
  function SeqMin(s: seq<real>): (m: real)
    requires |s| > 0
    ensures m in s && forall i :: 0 <= i < |s| ==> m <= s[i]
  {
    if |s| == 1 then s[0]
    else
      var m := SeqMin(s[1..]);
      assert forall i :: 1 <= i < |s| ==> s[i] == s[1..][i - 1];
      if s[0] <= m then s[0] else m
  }

  /** Largest element (`g.max()`). */
  function SeqMax(s: seq<real>): (m: real)
    requires |s| > 0
    ensures m in s && forall i :: 0 <= i < |s| ==> s[i] <= m
  {
    if |s| == 1 then s[0]
    else
      var m := SeqMax(s[1..]);
      assert forall i :: 1 <= i < |s| ==> s[i] == s[1..][i - 1];
      if m <= s[0] then s[0] else m
  }

  /** What `_interpolated` closes over: the ravelled values, `nodes_range` and `nodes_count`. */
  datatype Interpolant = Interpolant(values: seq<real>, lo: seq<real>, hi: seq<real>, counts: seq<nat>)

  /** `interpolate(values, grid)` with `values` already ravelled in row-major order. */
  function Interpolate(values: seq<real>, axes: seq<seq<real>>): (r: Result<Interpolant>)
    ensures r.Failure? <==> |axes| == 0 || exists d :: 0 <= d < |axes| && |axes[d]| == 0
    ensures r.Failure? ==> r.error == if |axes| == 0 then IndexError else ValueError
    ensures r.Success? ==> var ip := r.value;
      && ip.values == values && Valid(ip)
      && |ip.lo| == |ip.hi| == |ip.counts| == |axes|
      && forall d :: 0 <= d < |axes| ==>
           && ip.counts[d] == |axes[d]|
           && (ip.counts[d] == 1 ==> ip.lo[d] == ip.hi[d])
           && ip.lo[d] in axes[d] && ip.hi[d] in axes[d]
           && forall i :: 0 <= i < |axes[d]| ==> ip.lo[d] <= axes[d][i] <= ip.hi[d]
  {
    if exists d :: 0 <= d < |axes| && |axes[d]| == 0 then Failure(ValueError)
    else if |axes| == 0 then Failure(IndexError)
    else
      Success(Interpolant(values,
        seq(|axes|, d requires 0 <= d < |axes| => SeqMin(axes[d])),
        seq(|axes|, d requires 0 <= d < |axes| => SeqMax(axes[d])),
        seq(|axes|, d requires 0 <= d < |axes| => |axes[d]|)))
  }

  /** One range per axis. */
  predicate Valid(ip: Interpolant)
  {
    |ip.lo| == |ip.hi| == |ip.counts|
  }

  /**
   * Stands for the NaN or infinity that floating point gives for
   * `(n - 1) * (x - lo) / (hi - lo)` on an axis with `lo == hi` (one node, or
   * all nodes equal). Only `linear` of an argument is ever used, and `linear`
   * is 0 at NaN and at both infinities; `Linear(NonFinite)` is 0 as well.
   */
  const NonFinite: real := 1.0

  /** The hat argument of node `s` on an axis of `n` nodes spanning `[lo, hi]`, at coordinate `x`. */
  function Arg(n: nat, lo: real, hi: real, x: real, s: nat): real
  {
    if lo == hi then NonFinite else (n as real - 1.0) * (x - lo) / (hi - lo) - s as real
  }

  /** On an axis whose range is a single value every hat is 0. */
  lemma DegenerateHat(n: nat, lo: real, x: real, s: nat)
    ensures Linear(Arg(n, lo, lo, x, s)) == 0.0
  {
  }

  /** The hat arguments of one batch of coordinates: one row per point, one column per node. */
  function ArgTable(n: nat, lo: real, hi: real, xs: seq<real>): (m: Matrix)
    ensures IsShape(m, |xs|, n)
  {
    seq(|xs|, p requires 0 <= p < |xs| => seq(n, s requires 0 <= s < n => Arg(n, lo, hi, xs[p], s)))
  }

  /** The `args` list of the batch starting at point `pos`. */
  function BatchArgs(ip: Interpolant, x: Matrix, pos: nat, bs: nat): (args: seq<Matrix>)
    requires Valid(ip) && |ip.counts| <= |x|
    ensures |args| == |ip.counts|
  {
    seq(|ip.counts|, d requires 0 <= d < |ip.counts| =>
      ArgTable(ip.counts[d], ip.lo[d], ip.hi[d], Slice(x[d], pos, pos + bs)))
  }

  /** Entry `(r, c)` exists in every component. */
  predicate HasEntry(rep: seq<Matrix>, r: nat, c: nat)
  {
    forall d :: 0 <= d < |rep| ==> r < |rep[d]| && c < |rep[d][r]|
  }

  /** `np.prod([linear(arg) for arg in rep], axis=0)` at entry `(r, c)`. */
  function Basis(rep: seq<Matrix>, r: nat, c: nat): real
    requires HasEntry(rep, r, c)
  {
    if |rep| == 0 then 1.0 else Basis(rep[..|rep| - 1], r, c) * Linear(rep[|rep| - 1][r][c])
  }

  /** One pass of the `while` body: the values of the points `pos .. pos + bs` (or up to the end). */
  function Leaf(ip: Interpolant, x: Matrix, npts: nat, pos: nat, bs: nat): Result<seq<real>>
    requires Valid(ip) && IsShape(x, |x|, npts) && pos < npts
  {
    if |x| < |ip.counts| then Failure(IndexError)
    else
      var args := BatchArgs(ip, x, pos, bs);
      var rows := Min(pos + bs, npts) - pos;
      match RepeatLast(args, ip.counts)
      case Failure(e) => Failure(e)
      case Success(rep) =>
        if |ip.values| != Size(ip.counts) then Failure(ValueError)
        else
          RepeatLastShape(args, ip.counts, rows);
          var n := Size(ip.counts);
          Success(seq(rows, r requires 0 <= r < rows =>
            Dot(seq(n, c requires 0 <= c < n => Basis(rep, r, c)), ip.values)))
  }

  /** `_interpolation_loop` from `batch_position = pos`: the list `result` it appends. */
  function Loop(ip: Interpolant, x: Matrix, npts: nat, pos: nat, bs: nat): Result<seq<seq<real>>>
    requires Valid(ip) && IsShape(x, |x|, npts) && bs > 0
    decreases npts - pos
  {
    if pos >= npts then Success([])
    else
      match Leaf(ip, x, npts, pos, bs)
      case Failure(e) => Failure(e)
      case Success(block) =>
        match Loop(ip, x, npts, pos + bs, bs)
        case Failure(e) => Failure(e)
        case Success(rest) => Success([block] + rest)
  }

  /** `_interpolated(x)` for a `dim x npts` query with batch size `bs`; no batch at all makes `np.concatenate` fail. */
  function Evaluate(ip: Interpolant, x: Matrix, npts: nat, bs: nat): Result<seq<real>>
    requires Valid(ip) && IsShape(x, |x|, npts) && bs > 0
  {
    match Loop(ip, x, npts, 0, bs)
    case Failure(e) => Failure(e)
    case Success(blocks) => if |blocks| == 0 then Failure(ValueError) else Success(Concat(blocks))
  }

  // ---------------------------------------------------------------------------
  // The interpolant as a sum
  // ---------------------------------------------------------------------------

  /** Query point `p`: its coordinate on every axis. */
  function Point(x: Matrix, npts: nat, p: nat): (pt: seq<real>)
    requires IsShape(x, |x|, npts) && p < npts
    ensures |pt| == |x|
  {
    seq(|x|, d requires 0 <= d < |x| => x[d][p])
  }

  /** The hat of every node on every axis at point `pt`. */
  function Hats(ip: Interpolant, pt: seq<real>): (hs: seq<seq<real>>)
    requires Valid(ip) && |ip.counts| <= |pt|
    ensures Lens(hs) == ip.counts
  {
    var hs := seq(|ip.counts|, d requires 0 <= d < |ip.counts| =>
      seq(ip.counts[d], s requires 0 <= s < ip.counts[d] => Linear(Arg(ip.counts[d], ip.lo[d], ip.hi[d], pt[d], s))));
    assert Lens(hs) == ip.counts;
    hs
  }

  /**
   * The interpolant at `pt`: the sum over all nodes, in row-major order, of the
   * tabulated value times the product of the node's hats on every axis.
   */
  function Value(ip: Interpolant, pt: seq<real>): real
    requires Valid(ip) && |ip.counts| <= |pt| && |ip.values| == Size(ip.counts)
  {
    Dot(NodeWeights(ip, pt), ip.values)
  }

  /** The weight of every node at `pt`, in row-major order: the product of its hats. */
  function NodeWeights(ip: Interpolant, pt: seq<real>): (b: seq<real>)
    requires Valid(ip) && |ip.counts| <= |pt|
    ensures |b| == Size(ip.counts)
  {
    var n := Size(ip.counts);
    var hs := Hats(ip, pt);
    seq(n, c requires 0 <= c < n => ProdAt(hs, Unravel(ip.counts, c)))
  }

  /** The interpolant at every query point, in order. */
  function PointValues(ip: Interpolant, x: Matrix, npts: nat): (vs: seq<real>)
    requires Valid(ip) && IsShape(x, |x|, npts) && |ip.counts| <= |x| && |ip.values| == Size(ip.counts)
    ensures |vs| == npts
  {
    seq(npts, p requires 0 <= p < npts => Value(ip, Point(x, npts, p)))
  }

  /** A product of hats over the components of `rep` is the product `ProdAt` of the selected hats. */
  lemma {:induction false} BasisIsProd(rep: seq<Matrix>, hs: seq<seq<real>>, ks: seq<nat>, r: nat, c: nat)
    requires |rep| == |hs| && IsIndex(Lens(hs), ks) && HasEntry(rep, r, c)
    requires forall d :: 0 <= d < |rep| ==> Linear(rep[d][r][c]) == hs[d][ks[d]]
    ensures Basis(rep, r, c) == ProdAt(hs, ks)
  {
    if |rep| > 0 {
      var n := |rep| - 1;
      assert Lens(hs[..n]) == Lens(hs)[..n];
      BasisIsProd(rep[..n], hs[..n], ks[..n], r, c);
    }
  }

  /** Every argument table of a batch has one row per point of the batch and one column per node. */
  lemma BatchArgsShape(ip: Interpolant, x: Matrix, npts: nat, pos: nat, bs: nat)
    requires Valid(ip) && IsShape(x, |x|, npts) && pos < npts && |ip.counts| <= |x|
    ensures forall d :: 0 <= d < |ip.counts| ==>
      IsShape(BatchArgs(ip, x, pos, bs)[d], Min(pos + bs, npts) - pos, ip.counts[d])
  {
    forall d | 0 <= d < |ip.counts|
      ensures IsShape(BatchArgs(ip, x, pos, bs)[d], Min(pos + bs, npts) - pos, ip.counts[d])
    {
      assert |Slice(x[d], pos, pos + bs)| == Min(pos + bs, npts) - pos;
    }
  }

  /** Row `r`, column `k` of the table for axis `d` is the argument of node `k` at point `pos + r`. */
  lemma BatchArgsAt(ip: Interpolant, x: Matrix, npts: nat, pos: nat, bs: nat, d: nat, r: nat, k: nat)
    requires Valid(ip) && IsShape(x, |x|, npts) && pos < npts && |ip.counts| <= |x|
    requires d < |ip.counts| && r < Min(pos + bs, npts) - pos && k < ip.counts[d]
    ensures pos + r < npts
    ensures At(BatchArgs(ip, x, pos, bs)[d], r, k, Arg(ip.counts[d], ip.lo[d], ip.hi[d], x[d][pos + r], k))
  {
    assert Slice(x[d], pos, pos + bs)[r] == x[d][pos + r];
  }

  /** Entry `(r, c)` of the spread batch is the product of the hats of point `pos + r` at node `c`. */
  lemma LeafEntry(ip: Interpolant, x: Matrix, npts: nat, pos: nat, bs: nat, r: nat, c: nat)
    requires Valid(ip) && IsShape(x, |x|, npts) && pos < npts
    requires |ip.counts| <= |x| && 1 <= |ip.counts| <= 3
    requires r < Min(pos + bs, npts) - pos && c < Size(ip.counts)
    ensures RepeatLast(BatchArgs(ip, x, pos, bs), ip.counts).Success?
    ensures var rep := RepeatLast(BatchArgs(ip, x, pos, bs), ip.counts).value;
      && HasEntry(rep, r, c)
      && Basis(rep, r, c) == ProdAt(Hats(ip, Point(x, npts, pos + r)), Unravel(ip.counts, c))
  {
    var args := BatchArgs(ip, x, pos, bs);
    var rows := Min(pos + bs, npts) - pos;
    var ks := Unravel(ip.counts, c);
    assert RepeatLast(args, ip.counts).Success? &&
      forall d :: 0 <= d < |args| ==> Picks(RepeatLast(args, ip.counts).value[d], args[d], r, c, ks[d])
    by {
      BatchArgsShape(ip, x, npts, pos, bs);
      RepeatLastAt(args, ip.counts, rows, r, c);
    }
    var rep := RepeatLast(args, ip.counts).value;
    LeafFactors(ip, x, npts, pos, bs, r, c, rep);
    BasisIsProd(rep, Hats(ip, Point(x, npts, pos + r)), ks, r, c);
  }

  /** Every factor of the product at `(r, c)`, given what each spread argument picks. */
  lemma LeafFactors(ip: Interpolant, x: Matrix, npts: nat, pos: nat, bs: nat, r: nat, c: nat, rep: seq<Matrix>)
    requires Valid(ip) && IsShape(x, |x|, npts) && pos < npts && |ip.counts| <= |x|
    requires r < Min(pos + bs, npts) - pos && c < Size(ip.counts) && |rep| == |ip.counts|
    requires forall d :: 0 <= d < |rep| ==> Picks(rep[d], BatchArgs(ip, x, pos, bs)[d], r, c, Unravel(ip.counts, c)[d])
    ensures HasEntry(rep, r, c)
    ensures forall d :: 0 <= d < |rep| ==>
      Linear(rep[d][r][c]) == Hats(ip, Point(x, npts, pos + r))[d][Unravel(ip.counts, c)[d]]
  {
    var ks := Unravel(ip.counts, c);
    forall d | 0 <= d < |rep|
      ensures r < |rep[d]| && c < |rep[d][r]|
      ensures Linear(rep[d][r][c]) == Hats(ip, Point(x, npts, pos + r))[d][ks[d]]
    {
      LeafFactor(ip, x, npts, pos, bs, r, rep[d], d, c, ks[d]);
    }
  }

  /** One factor of the product: the spread argument picked at `(r, c)` is the hat of axis `d` at node `k`. */
  lemma LeafFactor(ip: Interpolant, x: Matrix, npts: nat, pos: nat, bs: nat, r: nat, out: Matrix, d: nat, c: nat, k: nat)
    requires Valid(ip) && IsShape(x, |x|, npts) && pos < npts && |ip.counts| <= |x|
    requires d < |ip.counts| && r < Min(pos + bs, npts) - pos && k < ip.counts[d]
    requires Picks(out, BatchArgs(ip, x, pos, bs)[d], r, c, k)
    ensures r < |out| && c < |out[r]|
    ensures Linear(out[r][c]) == Hats(ip, Point(x, npts, pos + r))[d][k]
  {
    BatchArgsAt(ip, x, npts, pos, bs, d, r, k);
    var pt := Point(x, npts, pos + r);
    assert pt[d] == x[d][pos + r];
    assert Hats(ip, pt)[d][k] == Linear(Arg(ip.counts[d], ip.lo[d], ip.hi[d], pt[d], k));
  }

  /** Row `r` of a pass from `pos` is the interpolant at point `pos + r`. */
  lemma LeafRow(ip: Interpolant, x: Matrix, npts: nat, pos: nat, bs: nat, r: nat)
    requires Valid(ip) && IsShape(x, |x|, npts) && pos < npts
    requires |ip.counts| <= |x| && 1 <= |ip.counts| <= 3 && |ip.values| == Size(ip.counts)
    requires r < Min(pos + bs, npts) - pos
    ensures Leaf(ip, x, npts, pos, bs).Success?
    ensures |Leaf(ip, x, npts, pos, bs).value| == Min(pos + bs, npts) - pos
    ensures Leaf(ip, x, npts, pos, bs).value[r] == Value(ip, Point(x, npts, pos + r))
  {
    var n := Size(ip.counts);
    var args := BatchArgs(ip, x, pos, bs);
    BatchArgsShape(ip, x, npts, pos, bs);
    RepeatLastShape(args, ip.counts, Min(pos + bs, npts) - pos);
    var rep := RepeatLast(args, ip.counts).value;
    var hs := Hats(ip, Point(x, npts, pos + r));
    forall c | 0 <= c < n
      ensures Basis(rep, r, c) == ProdAt(hs, Unravel(ip.counts, c))
    {
      LeafEntry(ip, x, npts, pos, bs, r, c);
    }
    assert seq(n, c requires 0 <= c < n => Basis(rep, r, c)) == NodeWeights(ip, Point(x, npts, pos + r));
  }

  /**
   * A pass fails exactly when `x` has fewer rows than there are axes
   * (`IndexError`), there are no axes or more than three, or the value table is
   * not of the grid's size (both `ValueError`); otherwise it has one row per
   * point of the batch.
   */
  lemma LeafErrors(ip: Interpolant, x: Matrix, npts: nat, pos: nat, bs: nat)
    requires Valid(ip) && IsShape(x, |x|, npts) && pos < npts
    ensures Leaf(ip, x, npts, pos, bs).Failure? <==>
      |x| < |ip.counts| || |ip.counts| == 0 || |ip.counts| > 3 || |ip.values| != Size(ip.counts)
    ensures Leaf(ip, x, npts, pos, bs).Failure? ==>
      Leaf(ip, x, npts, pos, bs).error == if |x| < |ip.counts| then IndexError else ValueError
    ensures Leaf(ip, x, npts, pos, bs).Success? ==>
      |Leaf(ip, x, npts, pos, bs).value| == Min(pos + bs, npts) - pos
  {
    if |x| >= |ip.counts| && 1 <= |ip.counts| <= 3 {
      BatchArgsShape(ip, x, npts, pos, bs);
      RepeatLastShape(BatchArgs(ip, x, pos, bs), ip.counts, Min(pos + bs, npts) - pos);
    }
  }

  /** Each pass of the loop returns one value per point of its batch, the interpolant at that point. */
  lemma LeafRows(ip: Interpolant, x: Matrix, npts: nat, pos: nat, bs: nat)
    requires Valid(ip) && IsShape(x, |x|, npts) && pos < npts
    requires |ip.counts| <= |x| && 1 <= |ip.counts| <= 3 && |ip.values| == Size(ip.counts)
    ensures Leaf(ip, x, npts, pos, bs).Success?
    ensures |Leaf(ip, x, npts, pos, bs).value| == Min(pos + bs, npts) - pos
    ensures forall r :: 0 <= r < |Leaf(ip, x, npts, pos, bs).value| ==>
      Leaf(ip, x, npts, pos, bs).value[r] == PointValues(ip, x, npts)[pos + r]
  {
    LeafErrors(ip, x, npts, pos, bs);
    forall r | 0 <= r < Min(pos + bs, npts) - pos
      ensures Leaf(ip, x, npts, pos, bs).value[r] == PointValues(ip, x, npts)[pos + r]
    {
      LeafRow(ip, x, npts, pos, bs, r);
    }
  }

  /** Each pass of the loop returns the interpolant at its points, in order. */
  lemma LeafValues(ip: Interpolant, x: Matrix, npts: nat, pos: nat, bs: nat)
    requires Valid(ip) && IsShape(x, |x|, npts) && pos < npts
    requires |ip.counts| <= |x| && 1 <= |ip.counts| <= 3 && |ip.values| == Size(ip.counts)
    ensures Leaf(ip, x, npts, pos, bs).Success?
    ensures Leaf(ip, x, npts, pos, bs).value == PointValues(ip, x, npts)[pos..Min(pos + bs, npts)]
  {
    LeafRows(ip, x, npts, pos, bs);
    SliceIs(Leaf(ip, x, npts, pos, bs).value, PointValues(ip, x, npts), pos, Min(pos + bs, npts));
  }

  /** From batch position `pos` on, the blocks concatenate to the values of the remaining points. */
  lemma {:induction false} LoopValues(ip: Interpolant, x: Matrix, npts: nat, pos: nat, bs: nat)
    requires Valid(ip) && IsShape(x, |x|, npts) && bs > 0
    requires |ip.counts| <= |x| && 1 <= |ip.counts| <= 3 && |ip.values| == Size(ip.counts)
    requires pos <= npts
    ensures Loop(ip, x, npts, pos, bs).Success?
    ensures Concat(Loop(ip, x, npts, pos, bs).value) == PointValues(ip, x, npts)[pos..]
    ensures |Loop(ip, x, npts, pos, bs).value| == 0 <==> pos == npts
    decreases npts - pos
  {
    if pos < npts {
      var next := Min(pos + bs, npts);
      var all := PointValues(ip, x, npts);
      LeafValues(ip, x, npts, pos, bs);
      LoopValues(ip, x, npts, next, bs);
      if pos + bs < npts {
        assert Loop(ip, x, npts, pos + bs, bs) == Loop(ip, x, npts, next, bs);
      }
      ConcatSlices(all, Leaf(ip, x, npts, pos, bs).value, Loop(ip, x, npts, pos + bs, bs).value, pos, next);
    }
  }

  /**
   * `_interpolated(x)` returns one value per query point, in order, each the
   * interpolant at that point; with no points `np.concatenate` of the empty list
   * raises `ValueError`, and the other errors are those of a batch.
   */
  lemma EvaluateValues(ip: Interpolant, x: Matrix, npts: nat, bs: nat)
    requires Valid(ip) && IsShape(x, |x|, npts) && bs > 0
    ensures Evaluate(ip, x, npts, bs).Failure? <==>
      npts == 0 || |x| < |ip.counts| || |ip.counts| == 0 || |ip.counts| > 3 || |ip.values| != Size(ip.counts)
    ensures Evaluate(ip, x, npts, bs).Failure? ==>
      Evaluate(ip, x, npts, bs).error == if npts > 0 && |x| < |ip.counts| then IndexError else ValueError
    ensures Evaluate(ip, x, npts, bs).Success? ==>
      && |ip.counts| <= |x| && |ip.values| == Size(ip.counts)
      && Evaluate(ip, x, npts, bs).value == PointValues(ip, x, npts)
  {
    if npts > 0 {
      LeafErrors(ip, x, npts, 0, bs);
      if |x| >= |ip.counts| && 1 <= |ip.counts| <= 3 && |ip.values| == Size(ip.counts) {
        LoopValues(ip, x, npts, 0, bs);
        assert PointValues(ip, x, npts)[0..] == PointValues(ip, x, npts);
      }
    }
  }

  /** The output does not depend on the batch size. */
  lemma BatchSizeIrrelevant(ip: Interpolant, x: Matrix, npts: nat, bs: nat, bs': nat)
    requires Valid(ip) && IsShape(x, |x|, npts) && bs > 0 && bs' > 0
    ensures Evaluate(ip, x, npts, bs) == Evaluate(ip, x, npts, bs')
  {
    EvaluateValues(ip, x, npts, bs);
    EvaluateValues(ip, x, npts, bs');
    if Evaluate(ip, x, npts, bs).Success? {
      assert Evaluate(ip, x, npts, bs).value == Evaluate(ip, x, npts, bs').value;
    }
  }

  // ---------------------------------------------------------------------------
  // Axes whose nodes coincide
  // ---------------------------------------------------------------------------

  /** A product of selected entries with a zero factor is 0. */
  lemma {:induction false} ProdAtZero(vs: seq<seq<real>>, ks: seq<nat>, d: nat)
    requires IsIndex(Lens(vs), ks) && d < |vs| && vs[d][ks[d]] == 0.0
    ensures ProdAt(vs, ks) == 0.0
  {
    var n := |ks| - 1;
    if d < n {
      assert Lens(vs[..n]) == Lens(vs)[..n];
      ProdAtZero(vs[..n], ks[..n], d);
    }
  }

  /**
   * On an axis whose range is a single value (`lo == hi`: one node, or all nodes
   * equal) every hat is 0, so every node weighs 0 and the interpolant is 0.
   */
  lemma DegenerateValue(ip: Interpolant, pt: seq<real>, d: nat)
    requires Valid(ip) && |ip.counts| <= |pt| && |ip.values| == Size(ip.counts)
    requires d < |ip.counts| && ip.lo[d] == ip.hi[d]
    ensures Value(ip, pt) == 0.0
  {
    var hs := Hats(ip, pt);
    var b := NodeWeights(ip, pt);
    forall c | 0 <= c < |b|
      ensures b[c] == 0.0
    {
      var ks := Unravel(ip.counts, c);
      assert hs[d][ks[d]] == Linear(Arg(ip.counts[d], ip.lo[d], ip.hi[d], pt[d], ks[d]));
      ProdAtZero(hs, ks, d);
    }
    DotZero(b, ip.values);
  }

  /**
   * `_interpolated` over a grid with such an axis returns 0 at every query point,
   * whenever it returns values at all.
   */
  lemma EvaluateDegenerate(ip: Interpolant, x: Matrix, npts: nat, bs: nat, d: nat)
    requires Valid(ip) && IsShape(x, |x|, npts) && bs > 0
    requires d < |ip.counts| && ip.lo[d] == ip.hi[d]
    ensures Evaluate(ip, x, npts, bs).Success? ==>
      |Evaluate(ip, x, npts, bs).value| == npts && forall p :: 0 <= p < npts ==> Evaluate(ip, x, npts, bs).value[p] == 0.0
  {
    EvaluateValues(ip, x, npts, bs);
    if Evaluate(ip, x, npts, bs).Success? {
      forall p | 0 <= p < npts
        ensures PointValues(ip, x, npts)[p] == 0.0
      {
        DegenerateValue(ip, Point(x, npts, p), d);
      }
    }
  }

  /**
   * `interpolate` over a grid with a single-node axis succeeds, and the function
   * it returns is 0 at every query point, whenever it returns values at all.
   */
  lemma SingleNodeAxis(values: seq<real>, axes: seq<seq<real>>, x: Matrix, npts: nat, bs: nat, d: nat)
    requires d < |axes| && |axes[d]| == 1 && forall e :: 0 <= e < |axes| ==> |axes[e]| > 0
    requires IsShape(x, |x|, npts) && bs > 0
    ensures Interpolate(values, axes).Success?
    ensures var ip := Interpolate(values, axes).value;
      Valid(ip) && (Evaluate(ip, x, npts, bs).Success? ==>
        |Evaluate(ip, x, npts, bs).value| == npts && forall p :: 0 <= p < npts ==> Evaluate(ip, x, npts, bs).value[p] == 0.0)
  {
    EvaluateDegenerate(Interpolate(values, axes).value, x, npts, bs, d);
  }

  // ---------------------------------------------------------------------------
  // At and between the nodes
  // ---------------------------------------------------------------------------

  /** Node `j` of `n >= 2` evenly spaced nodes from `lo` to `hi`. */
  function Node(n: nat, lo: real, hi: real, j: nat): real
    requires n >= 2
  {
    lo + j as real * (hi - lo) / (n as real - 1.0)
  }

  /** The hat argument is affine in the shift: shifting the node by `s` subtracts `s`. */
  lemma ArgShift(n: nat, lo: real, hi: real, x: real, s: nat)
    requires lo != hi
    ensures Arg(n, lo, hi, x, s) == Arg(n, lo, hi, x, 0) - s as real
  {
  }

  /** At node `j` the argument of node `s` is `j - s`. */
  lemma ArgAtNode(n: nat, lo: real, hi: real, j: nat, s: nat)
    requires n >= 2 && lo != hi
    ensures Arg(n, lo, hi, Node(n, lo, hi, j), s) == (j - s) as real
  {
    var m, w := n as real - 1.0, hi - lo;
    var t := j as real * w / m;
    assert Node(n, lo, hi, j) - lo == t;
    assert m * t == j as real * w;
    assert (m * t) / w == j as real;
  }

  /** `vs` is zero everywhere except a 1 at `js[d]` on every axis `d`. */
  predicate Indicator(vs: seq<seq<real>>, js: seq<nat>)
  {
    |js| == |vs| && forall d, s :: 0 <= d < |vs| && 0 <= s < |vs[d]| ==> vs[d][s] == if s == js[d] then 1.0 else 0.0
  }

  /** The product of indicator entries is 1 at the selected multi-index and 0 at every other. */
  lemma {:induction false} ProdAtIndicator(vs: seq<seq<real>>, js: seq<nat>, ks: seq<nat>)
    requires IsIndex(Lens(vs), js) && IsIndex(Lens(vs), ks) && Indicator(vs, js)
    ensures ProdAt(vs, ks) == if ks == js then 1.0 else 0.0
  {
    if |ks| > 0 {
      var n := |ks| - 1;
      assert Lens(vs[..n]) == Lens(vs)[..n];
      ProdAtIndicator(vs[..n], js[..n], ks[..n]);
      assert ks == ks[..n] + [ks[n]] && js == js[..n] + [js[n]];
    }
  }

  /** At a node every axis has a single non-zero hat, the node's own. */
  lemma HatsAtNode(ip: Interpolant, pt: seq<real>, js: seq<nat>)
    requires Valid(ip) && |ip.counts| <= |pt| && IsIndex(ip.counts, js)
    requires forall d :: 0 <= d < |js| ==> ip.counts[d] >= 2 && ip.lo[d] != ip.hi[d]
    requires forall d :: 0 <= d < |js| ==> pt[d] == Node(ip.counts[d], ip.lo[d], ip.hi[d], js[d])
    ensures Indicator(Hats(ip, pt), js)
  {
    var hs := Hats(ip, pt);
    forall d, s | 0 <= d < |hs| && 0 <= s < |hs[d]|
      ensures hs[d][s] == if s == js[d] then 1.0 else 0.0
    {
      ArgAtNode(ip.counts[d], ip.lo[d], ip.hi[d], js[d], s);
      LinearAtIntegers(js[d], s);
    }
  }

  /**
   * On an evenly spaced grid the interpolant reproduces the table: at the node
   * with multi-index `js` it returns the value stored at `js`'s row-major position.
   */
  lemma ValueAtNode(ip: Interpolant, pt: seq<real>, js: seq<nat>)
    requires Valid(ip) && |ip.counts| <= |pt| && |ip.values| == Size(ip.counts) && IsIndex(ip.counts, js)
    requires forall d :: 0 <= d < |js| ==> ip.counts[d] >= 2 && ip.lo[d] != ip.hi[d]
    requires forall d :: 0 <= d < |js| ==> pt[d] == Node(ip.counts[d], ip.lo[d], ip.hi[d], js[d])
    ensures RowMajor(ip.counts, js) < |ip.values|
    ensures Value(ip, pt) == ip.values[RowMajor(ip.counts, js)]
  {
    var n := Size(ip.counts);
    var hs := Hats(ip, pt);
    var k := RowMajor(ip.counts, js);
    RowMajorInside(ip.counts, js);
    HatsAtNode(ip, pt, js);
    var b := NodeWeights(ip, pt);
    forall c | 0 <= c < n
      ensures b[c] == if c == k then 1.0 else 0.0
    {
      var ks := Unravel(ip.counts, c);
      ProdAtIndicator(hs, js, ks);
      if ks == js {
        assert c == k;
      } else if c == k {
        RowMajorInjective(ip.counts, ks, js);
      }
    }
    DotOne(b, ip.values, k);
  }

  /** On one axis, the basis entry of node `c` is the hat of the point's offset from `c`. */
  lemma BasisOneAxis(ip: Interpolant, pt: seq<real>, c: nat)
    requires Valid(ip) && |ip.counts| == 1 && 1 <= |pt| && c < ip.counts[0] && ip.lo[0] != ip.hi[0]
    ensures c < Size(ip.counts)
    ensures ProdAt(Hats(ip, pt), Unravel(ip.counts, c))
         == Linear(Arg(ip.counts[0], ip.lo[0], ip.hi[0], pt[0], 0) - c as real)
  {
    var hs := Hats(ip, pt);
    UnravelAt1(ip.counts, c);
    ArgShift(ip.counts[0], ip.lo[0], ip.hi[0], pt[0], c);
    assert hs[..0] == [] && [c][..0] == [];
  }

  /** Hats at offsets `t - c` with `t = j + θ`: `1 - θ` at `j`, `θ` at `j + 1`, and 0 elsewhere. */
  lemma HatsBetween(b: seq<real>, t: real, j: nat, theta: real)
    requires t == j as real + theta && 0.0 <= theta < 1.0 && j + 1 < |b|
    requires forall c :: 0 <= c < |b| ==> b[c] == Linear(t - c as real)
    ensures b[j] == 1.0 - theta && b[j + 1] == theta
    ensures forall c :: 0 <= c < |b| && c != j && c != j + 1 ==> b[c] == 0.0
  {
    LinearBetween(theta);
    assert t - j as real == theta;
    assert t - (j + 1) as real == theta - 1.0;
  }

  /**
   * On one axis, at a point whose argument for node 0 is `j + θ` with
   * `0 <= θ < 1`, the interpolant is `(1 - θ) v[j] + θ v[j + 1]`.
   */
  lemma ValueBetween(ip: Interpolant, pt: seq<real>, j: nat, theta: real)
    requires Valid(ip) && |ip.counts| == 1 && |ip.values| == ip.counts[0] && 1 <= |pt| && ip.lo[0] != ip.hi[0]
    requires j + 1 < ip.counts[0] && 0.0 <= theta < 1.0
    requires Arg(ip.counts[0], ip.lo[0], ip.hi[0], pt[0], 0) == j as real + theta
    ensures Value(ip, pt) == Lerp(theta, ip.values[j], ip.values[j + 1])
  {
    Size1(ip.counts);
    WeightsBetween(ip, pt, j, theta);
    DotLerp(Value(ip, pt), NodeWeights(ip, pt), ip.values, j, theta);
  }


  /** The node weights of that point: `1 - θ` at `j`, `θ` at `j + 1`, and 0 elsewhere. */
  lemma WeightsBetween(ip: Interpolant, pt: seq<real>, j: nat, theta: real)
    requires Valid(ip) && |ip.counts| == 1 && 1 <= |pt| && ip.lo[0] != ip.hi[0]
    requires j + 1 < ip.counts[0] && 0.0 <= theta < 1.0
    requires Arg(ip.counts[0], ip.lo[0], ip.hi[0], pt[0], 0) == j as real + theta
    ensures var b := NodeWeights(ip, pt);
      && |b| == ip.counts[0] && b[j] == 1.0 - theta && b[j + 1] == theta
      && forall c :: 0 <= c < |b| && c != j && c != j + 1 ==> b[c] == 0.0
  {
    var n := ip.counts[0];
    assert Size(ip.counts) == n by { Size1(ip.counts); }
    var t := Arg(n, ip.lo[0], ip.hi[0], pt[0], 0);
    var b := NodeWeights(ip, pt);
    forall c | 0 <= c < n
      ensures b[c] == Linear(t - c as real)
    {
      BasisOneAxis(ip, pt, c);
    }
    HatsBetween(b, t, j, theta);
  }

}
