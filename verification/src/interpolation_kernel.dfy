/**
 * The arithmetic of the C extension `numerical/_interpolation.c`: the tolerant
 * comparisons, the hat `_bSpline`, and the summation loops of
 * `line_interpolate_1d`, `line_interpolate_2d` and `line_interpolate_3d`.
 *
 * Arrays are sequences (the table of the three-axis kernel flat, in row-major
 * order). An empty query array makes a kernel fail, because the NumPy iterator
 * refuses it. So does an empty table in one and three axes; the two-axis kernel
 * builds no iterator over its table.
 */
module InterpolationKernel {
  import opened Wrappers
  import opened Arith
  import opened Arrays
  import opened Tolerance
  import opened Splines

  /** `EPS`. */
  const EPS: real := 0.000000000001

  /** `isEq(a, b)`. */
  predicate IsEq(a: real, b: real)
  {
    -(a - b) < EPS && a - b < EPS
  }

  /** `isGeq(a, b)`. */
  predicate IsGeq(a: real, b: real)
  {
    a > b || IsEq(a, b)
  }

  /** `isLeq(a, b)`. */
  predicate IsLeq(a: real, b: real)
  {
    a < b || IsEq(a, b)
  }

  /** Tolerant equality is closeness within `EPS`, and it is symmetric. */
  lemma IsEqMeaning(a: real, b: real)
    ensures IsEq(a, b) <==> Abs(a - b) < EPS
    ensures IsEq(a, b) <==> IsEq(b, a)
  {
  }

  /** `isGeq(a, b)` and `isLeq(b, a)` are the same test, and each holds unless the order is strict beyond `EPS`. */
  lemma IsGeqLeq(a: real, b: real)
    ensures IsGeq(a, b) <==> IsLeq(b, a)
    ensures IsGeq(a, b) <==> a > b - EPS
    ensures IsLeq(a, b) <==> a < b + EPS
  {
  }

  /** `_bSpline(t)`: the hat, with the rising edge extended by `EPS` past 0. */
  function BSpline(t: real): (y: real)
    ensures 0.0 <= y <= 1.0 + EPS
    ensures t <= -1.0 || 1.0 <= t ==> y == 0.0
  {
    if t > -1.0 && IsLeq(t, 0.0) then t + 1.0
    else if t > 0.0 && t < 1.0 then 1.0 - t
    else 0.0
  }

  /**
   * `_bSpline` is the `linear` hat except on `(0, EPS)`, where it takes the
   * rising edge `t + 1` instead of `1 - t`; the two never differ by `2 EPS` or more.
   */
  lemma BSplineIsLinear(t: real)
    ensures !(0.0 < t < EPS) ==> BSpline(t) == Linear(t)
    ensures 0.0 < t < EPS ==> BSpline(t) == t + 1.0 && Linear(t) == 1.0 - t
    ensures Abs(BSpline(t) - Linear(t)) < 2.0 * EPS
  {
  }

  /** At whole numbers `_bSpline` is 1 at 0 and 0 elsewhere. */
  lemma BSplineAtIntegers(k: int)
    ensures BSpline(k as real) == if k == 0 then 1.0 else 0.0
  {
  }

  /** One axis of a kernel: `n` nodes spread evenly from `a` to `b` (the table extent and the `limits` pair). */
  datatype Axis = Axis(n: nat, a: real, b: real)

  /** The position of `x` on the axis in units of the node spacing, `((n - 1) * (x - a)) / (b - a)`. */
  function Scaled(ax: Axis, x: real): real
    requires ax.a != ax.b
  {
    ((ax.n as real - 1.0) * (x - ax.a)) / (ax.b - ax.a)
  }

  /**
   * `_bSpline(((n - 1) * (x - a)) / (b - a) - i)`. With `a == b` the quotient is
   * NaN or an infinity. `_bSpline` gives 0 for each: NaN fails every comparison,
   * +inf fails `isLeq(t, 0)` and `t < 1`, and -inf fails `t > -1` and `t > 0`.
   */
  function Hat(ax: Axis, x: real, i: nat): real
  {
    if ax.a == ax.b then 0.0 else BSpline(Scaled(ax, x) - i as real)
  }

  /** Node `j` of the axis. */
  function Node(ax: Axis, j: nat): real
    requires ax.n >= 2
  {
    ax.a + j as real * (ax.b - ax.a) / (ax.n as real - 1.0)
  }

  /** Node `j` lies `j` spacings from `a`. */
  lemma ScaledNode(ax: Axis, j: nat)
    requires ax.n >= 2 && ax.a != ax.b
    ensures Scaled(ax, Node(ax, j)) == j as real
  {
    var m, w := ax.n as real - 1.0, ax.b - ax.a;
    var t := j as real * w / m;
    assert Node(ax, j) - ax.a == t;
    assert m * t == j as real * w;
  }

  /** At node `j` the hat of node `i` is 1 for `i == j` and 0 otherwise. */
  lemma HatAtNode(ax: Axis, j: nat, i: nat)
    requires ax.n >= 2 && ax.a != ax.b
    ensures Hat(ax, Node(ax, j), i) == if i == j then 1.0 else 0.0
  {
    ScaledNode(ax, j);
    BSplineAtIntegers(j - i);
  }

  // ---------------------------------------------------------------------------
  // One axis
  // ---------------------------------------------------------------------------

  /** `Σ_{i < m} tabs[i] · hat_i(x)`, summed in the loop's order. */
  function Sum1(tabs: seq<real>, ax: Axis, x: real, m: nat): real
    requires m <= |tabs|
  {
    if m == 0 then 0.0 else Sum1(tabs, ax, x, m - 1) + tabs[m - 1] * Hat(ax, x, m - 1)
  }

  /** The axis of the one-axis kernel: as many nodes as the table has entries. */
  function Axis1(tabs: seq<real>, a: real, b: real): Axis
  {
    Axis(|tabs|, a, b)
  }

  /**
   * `line_interpolate_1d(x, uniform_tabs, (a, b))`: for every point, the
   * tabulated values weighted by the hats of their nodes.
   */
  method Kernel1D(x: seq<real>, tabs: seq<real>, a: real, b: real) returns (r: Result<seq<real>>)
    ensures r.Failure? <==> |x| == 0 || |tabs| == 0
    ensures r.Failure? ==> r.error == ValueError
    ensures r.Success? ==> |r.value| == |x|
    ensures r.Success? ==> forall p :: 0 <= p < |x| ==> r.value[p] == Sum1(tabs, Axis1(tabs, a, b), x[p], |tabs|)
  {
    if |x| == 0 || |tabs| == 0 {
      return Failure(ValueError);
    }
    var ax := Axis1(tabs, a, b);
    var out: seq<real> := [];
    var p := 0;
    while p < |x|
      invariant 0 <= p <= |x| && |out| == p
      invariant forall q :: 0 <= q < p ==> out[q] == Sum1(tabs, ax, x[q], |tabs|)
    {
      var sum := 0.0;
      var i := 0;
      while i < |tabs|
        invariant 0 <= i <= |tabs| && sum == Sum1(tabs, ax, x[p], i)
      {
        sum := sum + tabs[i] * Hat(ax, x[p], i);
        i := i + 1;
      }
      out := out + [sum];
      p := p + 1;
    }
    return Success(out);
  }

  /** A sum whose hats are 1 at `j` and 0 elsewhere picks out `tabs[j]` once it has passed `j`. */
  lemma {:induction false} Sum1Indicator(tabs: seq<real>, ax: Axis, x: real, j: nat, m: nat)
    requires m <= |tabs| && j < |tabs|
    requires forall i :: 0 <= i < |tabs| ==> Hat(ax, x, i) == if i == j then 1.0 else 0.0
    ensures Sum1(tabs, ax, x, m) == if j < m then tabs[j] else 0.0
  {
    if m > 0 {
      Sum1Indicator(tabs, ax, x, j, m - 1);
    }
  }

  /** At node `j` of a non-degenerate axis the one-axis kernel returns `tabs[j]`. */
  lemma Kernel1DAtNode(tabs: seq<real>, a: real, b: real, j: nat)
    requires |tabs| >= 2 && a != b && j < |tabs|
    ensures Sum1(tabs, Axis1(tabs, a, b), Node(Axis1(tabs, a, b), j), |tabs|) == tabs[j]
  {
    var ax := Axis1(tabs, a, b);
    forall i | 0 <= i < |tabs|
      ensures Hat(ax, Node(ax, j), i) == if i == j then 1.0 else 0.0
    {
      HatAtNode(ax, j, i);
    }
    Sum1Indicator(tabs, ax, Node(ax, j), j, |tabs|);
  }

  /**
   * A point `j + θ` spacings from `a`, `0 <= θ < 1`, lies under the hats of
   * nodes `j` and `j + 1` only: the first is `_bSpline(θ)`, the second `θ`.
   */
  lemma HatBetween(ax: Axis, x: real, j: nat, theta: real, i: nat)
    requires ax.a != ax.b && Scaled(ax, x) == j as real + theta && 0.0 <= theta < 1.0
    ensures Hat(ax, x, i) == if i == j then BSpline(theta) else if i == j + 1 then theta else 0.0
  {
    assert Scaled(ax, x) - i as real == (j - i) as real + theta;
  }

  /** A sum under two hats, at `j` and `j + 1`, has at most two terms. */
  lemma {:induction false} Sum1Two(tabs: seq<real>, ax: Axis, x: real, j: nat, h0: real, h1: real, m: nat)
    requires m <= |tabs|
    requires forall i :: 0 <= i < |tabs| ==> Hat(ax, x, i) == if i == j then h0 else if i == j + 1 then h1 else 0.0
    ensures Sum1(tabs, ax, x, m) == (if j < m then tabs[j] * h0 else 0.0) + (if j + 1 < m then tabs[j + 1] * h1 else 0.0)
  {
    if m > 0 {
      Sum1Two(tabs, ax, x, j, h0, h1, m - 1);
    }
  }

  /**
   * Between nodes `j` and `j + 1`, at `θ` of the way, the one-axis kernel is the
   * linear blend `(1 - θ) tabs[j] + θ tabs[j + 1]`, except for `0 < θ < EPS`,
   * where the weight of `tabs[j]` is `1 + θ`.
   */
  lemma Kernel1DBetween(tabs: seq<real>, a: real, b: real, x: real, j: nat, theta: real)
    requires a != b && j + 1 < |tabs| && 0.0 <= theta < 1.0
    requires Scaled(Axis1(tabs, a, b), x) == j as real + theta
    ensures var v := Sum1(tabs, Axis1(tabs, a, b), x, |tabs|);
      && v == BSpline(theta) * tabs[j] + theta * tabs[j + 1]
      && (!(0.0 < theta < EPS) ==> v == (1.0 - theta) * tabs[j] + theta * tabs[j + 1])
      && (0.0 < theta < EPS ==> v == (1.0 + theta) * tabs[j] + theta * tabs[j + 1])
  {
    var ax := Axis1(tabs, a, b);
    forall i | 0 <= i < |tabs|
      ensures Hat(ax, x, i) == if i == j then BSpline(theta) else if i == j + 1 then theta else 0.0
    {
      HatBetween(ax, x, j, theta, i);
    }
    Sum1Two(tabs, ax, x, j, BSpline(theta), theta, |tabs|);
    BSplineIsLinear(theta);
  }

  /** With `a == b` every hat is 0, and so is every one-axis value. */
  lemma {:induction false} Sum1Degenerate(tabs: seq<real>, ax: Axis, x: real, m: nat)
    requires ax.a == ax.b && m <= |tabs|
    ensures Sum1(tabs, ax, x, m) == 0.0
  {
    if m > 0 {
      Sum1Degenerate(tabs, ax, x, m - 1);
    }
  }

  // ---------------------------------------------------------------------------
  // Two axes
  // ---------------------------------------------------------------------------

  /** One term of the double sum: entry `(i, j)` of the table times the hats of node `(i, j)`. */
  function Term2(tabs: Matrix, ax1: Axis, ax2: Axis, x1: real, x2: real, i: nat, j: nat): real
    requires i < |tabs| && j < |tabs[i]|
  {
    tabs[i][j] * Hat(ax1, x1, i) * Hat(ax2, x2, j)
  }

  /** `Σ_{j < m} tabs[i][j] · hat_i(x1) · hat_j(x2)`: part of row `i` of the double sum. */
  function Row2(tabs: Matrix, ax1: Axis, ax2: Axis, x1: real, x2: real, i: nat, m: nat): real
    requires i < |tabs| && m <= |tabs[i]|
  {
    if m == 0 then 0.0
    else Row2(tabs, ax1, ax2, x1, x2, i, m - 1) + Term2(tabs, ax1, ax2, x1, x2, i, m - 1)
  }

  /** The first `m` rows of the double sum over an `n1 x n2` table. */
  function Sum2(tabs: Matrix, n2: nat, ax1: Axis, ax2: Axis, x1: real, x2: real, m: nat): real
    requires IsShape(tabs, |tabs|, n2) && m <= |tabs|
  {
    if m == 0 then 0.0
    else Sum2(tabs, n2, ax1, ax2, x1, x2, m - 1) + Row2(tabs, ax1, ax2, x1, x2, m - 1, n2)
  }

  /**
   * `line_interpolate_2d(x1, x2, uniform_tabs, (a1, b1, a2, b2))` for an
   * `n1 x n2` table and points given coordinate-wise. The table gets no iterator
   * of its own, so an empty table is not refused: every point then gets 0. The
   * output is shaped like `x1` and the loop stops as soon as `x1` runs out, so a
   * longer `x2` has its tail ignored.
   */
  method Kernel2D(x1: seq<real>, x2: seq<real>, tabs: Matrix, n1: nat, n2: nat,
                  a1: real, b1: real, a2: real, b2: real) returns (r: Result<seq<real>>)
    requires |x1| <= |x2| && IsShape(tabs, n1, n2)
    ensures r.Failure? <==> |x1| == 0
    ensures r.Failure? ==> r.error == ValueError
    ensures r.Success? ==> |r.value| == |x1|
    ensures r.Success? ==> forall p :: 0 <= p < |x1| ==>
      r.value[p] == Sum2(tabs, n2, Axis(n1, a1, b1), Axis(n2, a2, b2), x1[p], x2[p], n1)
  {
    if |x1| == 0 {
      return Failure(ValueError);
    }
    var ax1, ax2 := Axis(n1, a1, b1), Axis(n2, a2, b2);
    var out: seq<real> := [];
    var p := 0;
    while p < |x1|
      invariant 0 <= p <= |x1| && |out| == p
      invariant forall q :: 0 <= q < p ==> out[q] == Sum2(tabs, n2, ax1, ax2, x1[q], x2[q], n1)
    {
      var sum := 0.0;
      var i := 0;
      while i < n1
        invariant 0 <= i <= n1 && sum == Sum2(tabs, n2, ax1, ax2, x1[p], x2[p], i)
      {
        var j := 0;
        while j < n2
          invariant 0 <= j <= n2
          invariant sum == Sum2(tabs, n2, ax1, ax2, x1[p], x2[p], i) + Row2(tabs, ax1, ax2, x1[p], x2[p], i, j)
        {
          sum := sum + Term2(tabs, ax1, ax2, x1[p], x2[p], i, j);
          j := j + 1;
        }
        i := i + 1;
      }
      out := out + [sum];
      p := p + 1;
    }
    return Success(out);
  }

  /** With an empty table every two-axis value is 0. */
  lemma {:induction false} Sum2EmptyTable(tabs: Matrix, n2: nat, ax1: Axis, ax2: Axis, x1: real, x2: real, m: nat)
    requires IsShape(tabs, |tabs|, n2) && m <= |tabs| && (|tabs| == 0 || n2 == 0)
    ensures Sum2(tabs, n2, ax1, ax2, x1, x2, m) == 0.0
  {
    if m > 0 {
      Sum2EmptyTable(tabs, n2, ax1, ax2, x1, x2, m - 1);
    }
  }

  /** Row `i` of the double sum at a node `(j1, j2)`: `tabs[i][j2]` if `i == j1`, else 0. */
  lemma {:induction false} Row2Indicator(tabs: Matrix, ax1: Axis, ax2: Axis, x1: real, x2: real,
                                         i: nat, j1: nat, j2: nat, m: nat)
    requires i < |tabs| && m <= |tabs[i]| && j2 < |tabs[i]|
    requires Hat(ax1, x1, i) == if i == j1 then 1.0 else 0.0
    requires forall j :: 0 <= j < |tabs[i]| ==> Hat(ax2, x2, j) == if j == j2 then 1.0 else 0.0
    ensures Row2(tabs, ax1, ax2, x1, x2, i, m) == if i == j1 && j2 < m then tabs[i][j2] else 0.0
  {
    if m > 0 {
      Row2Indicator(tabs, ax1, ax2, x1, x2, i, j1, j2, m - 1);
    }
  }

  /** Rows up to `m` of the double sum at a node `(j1, j2)`. */
  lemma {:induction false} Sum2Indicator(tabs: Matrix, n2: nat, ax1: Axis, ax2: Axis, x1: real, x2: real,
                                         j1: nat, j2: nat, m: nat)
    requires IsShape(tabs, |tabs|, n2) && m <= |tabs| && j1 < |tabs| && j2 < n2
    requires forall i :: 0 <= i < |tabs| ==> Hat(ax1, x1, i) == if i == j1 then 1.0 else 0.0
    requires forall j :: 0 <= j < n2 ==> Hat(ax2, x2, j) == if j == j2 then 1.0 else 0.0
    ensures Sum2(tabs, n2, ax1, ax2, x1, x2, m) == if j1 < m then tabs[j1][j2] else 0.0
  {
    if m > 0 {
      Sum2Indicator(tabs, n2, ax1, ax2, x1, x2, j1, j2, m - 1);
      Row2Indicator(tabs, ax1, ax2, x1, x2, m - 1, j1, j2, n2);
    }
  }

  /** At node `(j1, j2)` of non-degenerate axes the two-axis kernel returns `tabs[j1][j2]`. */
  lemma Kernel2DAtNode(tabs: Matrix, n1: nat, n2: nat, a1: real, b1: real, a2: real, b2: real, j1: nat, j2: nat)
    requires IsShape(tabs, n1, n2) && n1 >= 2 && n2 >= 2 && a1 != b1 && a2 != b2 && j1 < n1 && j2 < n2
    ensures var ax1, ax2 := Axis(n1, a1, b1), Axis(n2, a2, b2);
      Sum2(tabs, n2, ax1, ax2, Node(ax1, j1), Node(ax2, j2), n1) == tabs[j1][j2]
  {
    var ax1, ax2 := Axis(n1, a1, b1), Axis(n2, a2, b2);
    forall i | 0 <= i < n1
      ensures Hat(ax1, Node(ax1, j1), i) == if i == j1 then 1.0 else 0.0
    {
      HatAtNode(ax1, j1, i);
    }
    forall j | 0 <= j < n2
      ensures Hat(ax2, Node(ax2, j2), j) == if j == j2 then 1.0 else 0.0
    {
      HatAtNode(ax2, j2, j);
    }
    Sum2Indicator(tabs, n2, ax1, ax2, Node(ax1, j1), Node(ax2, j2), j1, j2, n1);
  }

  // ---------------------------------------------------------------------------
  // Three axes
  // ---------------------------------------------------------------------------

  /** The three axes of the three-axis kernel. */
  datatype Grid3 = Grid3(u: Axis, v: Axis, w: Axis)

  /** One query point of the three-axis kernel. */
  datatype Point3 = Point3(x1: real, x2: real, x3: real)

  /** One term of the triple sum: the table entry at `t` times the hats of node `(i, j, k)`. */
  function Term3(tabs: seq<real>, g: Grid3, p: Point3, t: nat, i: nat, j: nat, k: nat): real
    requires t < |tabs|
  {
    tabs[t] * Hat(g.u, p.x1, i) * Hat(g.v, p.x2, j) * Hat(g.w, p.x3, k)
  }

  /** `Σ_{k < m} tabs[s + k] · hat_i(x1) · hat_j(x2) · hat_k(x3)`: part of line `(i, j)`, which starts at `s`. */
  function Line3(tabs: seq<real>, g: Grid3, p: Point3, i: nat, j: nat, s: nat, m: nat): real
    requires s + m <= |tabs|
  {
    if m == 0 then 0.0
    else Line3(tabs, g, p, i, j, s, m - 1) + Term3(tabs, g, p, s + m - 1, i, j, m - 1)
  }

  /** The first `m` lines of layer `i`, which starts at `s`. */
  function Layer3(tabs: seq<real>, g: Grid3, p: Point3, i: nat, s: nat, m: nat): real
    requires s + Flat(m, g.w.n, 0) <= |tabs|
  {
    if m == 0 then 0.0
    else
      MulPred(m, g.w.n);
      Layer3(tabs, g, p, i, s, m - 1) + Line3(tabs, g, p, i, m - 1, s + Flat(m - 1, g.w.n, 0), g.w.n)
  }

  /** The first `m` layers of the triple sum over a row-major `n1 x n2 x n3` table. */
  function Sum3(tabs: seq<real>, g: Grid3, p: Point3, m: nat): real
    requires Flat(m, g.v.n * g.w.n, 0) <= |tabs|
  {
    if m == 0 then 0.0
    else
      MulPred(m, g.v.n * g.w.n);
      Sum3(tabs, g, p, m - 1) + Layer3(tabs, g, p, m - 1, Flat(m - 1, g.v.n * g.w.n, 0), g.v.n)
  }

  /** Layer `i` ends where layer `i + 1` starts, and the whole table is `n1` layers. */
  lemma LayerBounds(n1: nat, n2: nat, n3: nat, i: nat)
    requires i < n1
    ensures Flat(i, n2 * n3, 0) + Flat(n2, n3, 0) == Flat(i + 1, n2 * n3, 0) <= n1 * (n2 * n3)
  {
    if n2 * n3 > 0 {
      MulMonotone(i + 1, n1, n2 * n3);
    }
  }

  /** The innermost loop: adds line `(i, j)`, read from position `s` on, to the running sum. */
  method AddLine(sum0: real, tabs: seq<real>, g: Grid3, p: Point3, i: nat, j: nat, s: nat) returns (sum: real)
    requires s + g.w.n <= |tabs|
    ensures sum == sum0 + Line3(tabs, g, p, i, j, s, g.w.n)
  {
    sum := sum0;
    var t, k := s, 0;
    while k < g.w.n
      invariant 0 <= k <= g.w.n && t == s + k
      invariant sum == sum0 + Line3(tabs, g, p, i, j, s, k)
    {
      sum := sum + Term3(tabs, g, p, t, i, j, k);
      t := t + 1;
      k := k + 1;
    }
  }

  /** The middle loop: adds layer `i`, read from position `s` on, to the running sum. */
  method AddLayer(sum0: real, tabs: seq<real>, g: Grid3, p: Point3, i: nat, s: nat) returns (sum: real)
    requires s + Flat(g.v.n, g.w.n, 0) <= |tabs|
    ensures sum == sum0 + Layer3(tabs, g, p, i, s, g.v.n)
  {
    sum := sum0;
    var t, j := s, 0;
    while j < g.v.n
      invariant 0 <= j <= g.v.n && t == s + Flat(j, g.w.n, 0)
      invariant sum == sum0 + Layer3(tabs, g, p, i, s, j)
    {
      if g.w.n > 0 {
        MulMonotone(j + 1, g.v.n, g.w.n);
      }
      MulPred(j + 1, g.w.n);
      sum := AddLine(sum, tabs, g, p, i, j, t);
      t := t + g.w.n;
      j := j + 1;
    }
  }

  /** The outer loop for one point: the whole triple sum. */
  method PointSum(tabs: seq<real>, g: Grid3, p: Point3) returns (sum: real)
    requires |tabs| == g.u.n * (g.v.n * g.w.n)
    ensures sum == Sum3(tabs, g, p, g.u.n)
  {
    sum := 0.0;
    var t, i := 0, 0;
    while i < g.u.n
      invariant 0 <= i <= g.u.n && t == Flat(i, g.v.n * g.w.n, 0) <= |tabs|
      invariant sum == Sum3(tabs, g, p, i)
    {
      LayerBounds(g.u.n, g.v.n, g.w.n, i);
      sum := AddLayer(sum, tabs, g, p, i, t);
      t := t + g.v.n * g.w.n;
      i := i + 1;
    }
  }

  /**
   * `line_interpolate_3d(x1, x2, x3, uniform_tabs, (a1, b1, a2, b2, a3, b3))` for
   * a row-major `n1 x n2 x n3` table read through one running position, and
   * points given coordinate-wise. The output is shaped like `x1` and the loop
   * stops as soon as `x1` runs out, so longer `x2` and `x3` have their tails ignored.
   */
  method Kernel3D(x1: seq<real>, x2: seq<real>, x3: seq<real>, tabs: seq<real>, g: Grid3) returns (r: Result<seq<real>>)
    requires |x1| <= |x2| && |x1| <= |x3| && |tabs| == g.u.n * (g.v.n * g.w.n)
    ensures r.Failure? <==> |x1| == 0 || |tabs| == 0
    ensures r.Failure? ==> r.error == ValueError
    ensures r.Success? ==> |r.value| == |x1|
    ensures r.Success? ==> forall q :: 0 <= q < |x1| ==> r.value[q] == Sum3(tabs, g, Point3(x1[q], x2[q], x3[q]), g.u.n)
  {
    if |x1| == 0 || |tabs| == 0 {
      return Failure(ValueError);
    }
    var out: seq<real> := [];
    var q := 0;
    while q < |x1|
      invariant 0 <= q <= |x1| && |out| == q
      invariant forall q' :: 0 <= q' < q ==> out[q'] == Sum3(tabs, g, Point3(x1[q'], x2[q'], x3[q']), g.u.n)
    {
      var sum := PointSum(tabs, g, Point3(x1[q], x2[q], x3[q]));
      out := out + [sum];
      q := q + 1;
    }
    return Success(out);
  }

  /** Hats that are 1 at node `(j1, j2, j3)` and 0 at every other node of the grid. */
  predicate PicksNode3(g: Grid3, p: Point3, j1: nat, j2: nat, j3: nat)
  {
    && (forall i :: 0 <= i < g.u.n ==> Hat(g.u, p.x1, i) == if i == j1 then 1.0 else 0.0)
    && (forall j :: 0 <= j < g.v.n ==> Hat(g.v, p.x2, j) == if j == j2 then 1.0 else 0.0)
    && (forall k :: 0 <= k < g.w.n ==> Hat(g.w, p.x3, k) == if k == j3 then 1.0 else 0.0)
  }

  lemma {:induction false} Line3Indicator(tabs: seq<real>, g: Grid3, p: Point3, i: nat, j: nat, s: nat, m: nat,
                                          j1: nat, j2: nat, j3: nat)
    requires s + g.w.n <= |tabs| && m <= g.w.n && i < g.u.n && j < g.v.n && j3 < g.w.n
    requires PicksNode3(g, p, j1, j2, j3)
    ensures Line3(tabs, g, p, i, j, s, m) == if i == j1 && j == j2 && j3 < m then tabs[s + j3] else 0.0
  {
    if m > 0 {
      Line3Indicator(tabs, g, p, i, j, s, m - 1, j1, j2, j3);
    }
  }

  lemma {:induction false} Layer3Indicator(tabs: seq<real>, g: Grid3, p: Point3, i: nat, s: nat, m: nat,
                                           j1: nat, j2: nat, j3: nat)
    requires s + Flat(g.v.n, g.w.n, 0) <= |tabs| && m <= g.v.n && i < g.u.n && j2 < g.v.n && j3 < g.w.n
    requires PicksNode3(g, p, j1, j2, j3)
    ensures s + Flat(j2, g.w.n, 0) + j3 < |tabs|
    ensures Layer3(tabs, g, p, i, s, m) == if i == j1 && j2 < m then tabs[s + Flat(j2, g.w.n, 0) + j3] else 0.0
  {
    MulMonotone(j2 + 1, g.v.n, g.w.n);
    if m > 0 {
      MulPred(m, g.w.n);
      MulMonotone(m, g.v.n, g.w.n);
      Layer3Indicator(tabs, g, p, i, s, m - 1, j1, j2, j3);
      Line3Indicator(tabs, g, p, i, m - 1, s + Flat(m - 1, g.w.n, 0), g.w.n, j1, j2, j3);
    }
  }

  lemma {:induction false} Sum3Indicator(tabs: seq<real>, g: Grid3, p: Point3, m: nat, j1: nat, j2: nat, j3: nat)
    requires |tabs| == g.u.n * (g.v.n * g.w.n) && m <= g.u.n
    requires j1 < g.u.n && j2 < g.v.n && j3 < g.w.n
    requires PicksNode3(g, p, j1, j2, j3)
    ensures Flat(m, g.v.n * g.w.n, 0) <= |tabs|
    ensures Flat(j1, g.v.n * g.w.n, 0) + Flat(j2, g.w.n, 0) + j3 < |tabs|
    ensures Sum3(tabs, g, p, m) == if j1 < m then tabs[Flat(j1, g.v.n * g.w.n, 0) + Flat(j2, g.w.n, 0) + j3] else 0.0
  {
    LayerBounds(g.u.n, g.v.n, g.w.n, j1);
    Layer3Indicator(tabs, g, p, j1, Flat(j1, g.v.n * g.w.n, 0), 0, j1, j2, j3);
    if m > 0 {
      LayerBounds(g.u.n, g.v.n, g.w.n, m - 1);
      Sum3Indicator(tabs, g, p, m - 1, j1, j2, j3);
      Layer3Indicator(tabs, g, p, m - 1, Flat(m - 1, g.v.n * g.w.n, 0), g.v.n, j1, j2, j3);
    } else {
      MulMonotone(0, g.u.n, g.v.n * g.w.n);
    }
  }

  /**
   * At node `(j1, j2, j3)` of non-degenerate axes the three-axis kernel returns
   * the table entry at the node's row-major position.
   */
  lemma Kernel3DAtNode(tabs: seq<real>, g: Grid3, j1: nat, j2: nat, j3: nat)
    requires |tabs| == g.u.n * (g.v.n * g.w.n)
    requires g.u.n >= 2 && g.v.n >= 2 && g.w.n >= 2
    requires g.u.a != g.u.b && g.v.a != g.v.b && g.w.a != g.w.b
    requires j1 < g.u.n && j2 < g.v.n && j3 < g.w.n
    ensures Flat(Flat(j1, g.v.n, j2), g.w.n, j3) < |tabs|
    ensures Sum3(tabs, g, Point3(Node(g.u, j1), Node(g.v, j2), Node(g.w, j3)), g.u.n)
         == tabs[Flat(Flat(j1, g.v.n, j2), g.w.n, j3)]
  {
    var p := Point3(Node(g.u, j1), Node(g.v, j2), Node(g.w, j3));
    forall i | 0 <= i < g.u.n
      ensures Hat(g.u, p.x1, i) == if i == j1 then 1.0 else 0.0
    {
      HatAtNode(g.u, j1, i);
    }
    forall j | 0 <= j < g.v.n
      ensures Hat(g.v, p.x2, j) == if j == j2 then 1.0 else 0.0
    {
      HatAtNode(g.v, j2, j);
    }
    forall k | 0 <= k < g.w.n
      ensures Hat(g.w, p.x3, k) == if k == j3 then 1.0 else 0.0
    {
      HatAtNode(g.w, j3, k);
    }
    Sum3Indicator(tabs, g, p, g.u.n, j1, j2, j3);
    FlatNest(j1, g.v.n, j2, g.w.n, j3);
  }
}
