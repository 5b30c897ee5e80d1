/**
 * The spline bases of `numerical/splines/definitions.py` and the derivatives of
 * `numerical/splines/derivatives.py`, on one real argument. For a float64
 * array every numpy operation there is element-wise, so the array version
 * applies these at each entry. Integer arrays, whose `np.zeros_like` result
 * truncates every assigned value, and plain scalars are not modelled. The
 * decimal coefficients are exact in `real`.
 */
module Splines {
  import opened Wrappers

  /** `np.power(x, k)` for a natural exponent. */
  function Pow(x: real, k: nat): real
  {
    if k == 0 then 1.0 else x * Pow(x, k - 1)
  }

  /** The powers the spline pieces use, multiplied out. */
  lemma PowSmall(x: real)
    ensures Pow(x, 2) == x * x
    ensures Pow(x, 3) == x * x * x
    ensures Pow(x, 4) == x * x * x * x
    ensures Pow(x, 5) == x * x * x * x * x
  {
    assert Pow(x, 1) == x;
  }

  // ---------------------------------------------------------------------------
  // Polynomials as coefficient lists, the reference for the derivative tables
  // ---------------------------------------------------------------------------

  /** A polynomial by its coefficients, the constant term first. */
  type Poly = seq<real>

  /** The value of `p` at `x`. */
  function Eval(p: Poly, x: real): real
  {
    if |p| == 0 then 0.0 else p[0] + x * Eval(p[1..], x)
  }

  /** The term-wise derivative: `a x^(k+1)` becomes `(k+1) a x^k`. */
  function Deriv(p: Poly): Poly
  {
    if |p| == 0 then [] else seq(|p| - 1, k requires 0 <= k < |p| - 1 => (k + 1) as real * p[k + 1])
  }

  /** A constant polynomial. */
  lemma Eval1(p: Poly, x: real)
    requires |p| == 1
    ensures Eval(p, x) == p[0]
  {
    assert p[1..] == [];
  }

  /** A polynomial of degree at most 2, in nested form. */
  lemma Eval3(p: Poly, x: real)
    requires |p| == 3
    ensures Eval(p, x) == p[0] + x * (p[1] + x * p[2])
  {
    Eval1(p[1..][1..], x);
  }

  /** A polynomial of degree at most 3, in nested form. */
  lemma Eval4(p: Poly, x: real)
    requires |p| == 4
    ensures Eval(p, x) == p[0] + x * (p[1] + x * (p[2] + x * p[3]))
  {
    Eval3(p[1..], x);
  }

  /** A polynomial of degree at most 4, in nested form. */
  lemma Eval5(p: Poly, x: real)
    requires |p| == 5
    ensures Eval(p, x) == p[0] + x * (p[1] + x * (p[2] + x * (p[3] + x * p[4])))
  {
    Eval4(p[1..], x);
  }

  /** A polynomial of degree at most 5, in nested form. */
  lemma Eval6(p: Poly, x: real)
    requires |p| == 6
    ensures Eval(p, x) == p[0] + x * (p[1] + x * (p[2] + x * (p[3] + x * (p[4] + x * p[5]))))
  {
    Eval5(p[1..], x);
  }

  // ---------------------------------------------------------------------------
  // linear
  // ---------------------------------------------------------------------------

  /** `linear(x)`: the hat function, `x + 1` on (-1, 0], `1 - x` on (0, 1), 0 elsewhere. */
  function Linear(x: real): (y: real)
    ensures 0.0 <= y <= 1.0
    ensures y == 1.0 <==> x == 0.0
    ensures y == 0.0 <==> x <= -1.0 || 1.0 <= x
  {
    if -1.0 < x <= 0.0 then x + 1.0
    else if 0.0 < x < 1.0 then -x + 1.0
    else 0.0
  }

  /** The hat is even. */
  lemma LinearSymmetric(x: real)
    ensures Linear(-x) == Linear(x)
  {
  }

  /** At a whole-number distance the hat is 1 for distance 0 and 0 otherwise. */
  lemma LinearAtIntegers(t: int, s: int)
    ensures Linear((t - s) as real) == if t == s then 1.0 else 0.0
  {
  }

  /** Between two nodes the hats of the neighbours are `1 - θ` and `θ`. */
  lemma LinearBetween(theta: real)
    requires 0.0 <= theta < 1.0
    ensures Linear(theta) == 1.0 - theta
    ensures Linear(theta - 1.0) == theta
  {
  }

  // ---------------------------------------------------------------------------
  // schoenberg and its derivatives
  // ---------------------------------------------------------------------------

  /** The piece of [0, 3) that `x` lies in: 0 for [0, 1), 1 for [1, 2), 2 for [2, 3). */
  function Segment(x: real): (k: nat)
    requires 0.0 <= x < 3.0
    ensures k < 3 && k as real <= x < k as real + 1.0
  {
    if x < 1.0 then 0 else if x < 2.0 then 1 else 2
  }

  /** The `schoenberg` piece `k` as written. */
  function SchoenbergPiece(k: nat, x: real): real
    requires k < 3
  {
    if k == 0 then 0.55 - Pow(x, 2) / 2.0 + Pow(x, 4) / 4.0 - Pow(x, 5) / 12.0
    else if k == 1 then
      0.425 + (5.0 * x) / 8.0 - (7.0 * Pow(x, 2)) / 4.0 + (5.0 * Pow(x, 3)) / 4.0
      - (3.0 * Pow(x, 4)) / 8.0 + Pow(x, 5) / 24.0
    else
      2.025 - (27.0 * x) / 8.0 + (9.0 * Pow(x, 2)) / 4.0 - (3.0 * Pow(x, 3)) / 4.0
      + Pow(x, 4) / 8.0 - Pow(x, 5) / 120.0
  }

  /** The `d1` piece `k` as written. */
  function D1Piece(k: nat, x: real): real
    requires k < 3
  {
    if k == 0 then -x + Pow(x, 3) - (5.0 * Pow(x, 4)) / 12.0
    else if k == 1 then
      0.625 - (7.0 * x) / 2.0 + (15.0 * Pow(x, 2)) / 4.0 - (3.0 * Pow(x, 3)) / 2.0 + (5.0 * Pow(x, 4)) / 24.0
    else
      -3.375 + (9.0 * x) / 2.0 - (9.0 * Pow(x, 2)) / 4.0 + Pow(x, 3) / 2.0 - Pow(x, 4) / 24.0
  }

  /** The `d2` piece `k` as written. */
  function D2Piece(k: nat, x: real): real
    requires k < 3
  {
    if k == 0 then -1.0 + 3.0 * Pow(x, 2) - (5.0 * Pow(x, 3)) / 3.0
    else if k == 1 then -3.5 + (15.0 * x) / 2.0 - (9.0 * Pow(x, 2)) / 2.0 + (5.0 * Pow(x, 3)) / 6.0
    else 4.5 - (9.0 * x) / 2.0 + (3.0 * Pow(x, 2)) / 2.0 - Pow(x, 3) / 6.0
  }

  /** The `d3` piece `k` as written. */
  function D3Piece(k: nat, x: real): real
    requires k < 3
  {
    if k == 0 then 6.0 * x - 5.0 * Pow(x, 2)
    else if k == 1 then 7.5 - 9.0 * x + (5.0 * Pow(x, 2)) / 2.0
    else -4.5 + 3.0 * x - Pow(x, 2) / 2.0
  }

  /**
   * `schoenberg(x)`: piece `k` on [k, k + 1) for k < 3 and 0 elsewhere. The last
   * mask of the source, `x < 0 and x >= 3`, selects nothing.
   */
  function Schoenberg(x: real): (y: real)
    ensures !(0.0 <= x < 3.0) ==> y == 0.0
  {
    if 0.0 <= x < 3.0 then SchoenbergPiece(Segment(x), x) else 0.0
  }

  /** `d1(x)`, the first derivative table. */
  function D1(x: real): (y: real)
    ensures !(0.0 <= x < 3.0) ==> y == 0.0
  {
    if 0.0 <= x < 3.0 then D1Piece(Segment(x), x) else 0.0
  }

  /** `d2(x)`, the second derivative table. */
  function D2(x: real): (y: real)
    ensures !(0.0 <= x < 3.0) ==> y == 0.0
  {
    if 0.0 <= x < 3.0 then D2Piece(Segment(x), x) else 0.0
  }

  /** `d3(x)`, the third derivative table. */
  function D3(x: real): (y: real)
    ensures !(0.0 <= x < 3.0) ==> y == 0.0
  {
    if 0.0 <= x < 3.0 then D3Piece(Segment(x), x) else 0.0
  }

  /** The coefficients of the `schoenberg` pieces. */
  function SchoenbergCoeffs(k: nat): (p: Poly)
    requires k < 3
    ensures |p| == 6
  {
    if k == 0 then [0.55, 0.0, -0.5, 0.0, 0.25, -1.0 / 12.0]
    else if k == 1 then [0.425, 0.625, -1.75, 1.25, -0.375, 1.0 / 24.0]
    else [2.025, -3.375, 2.25, -0.75, 0.125, -1.0 / 120.0]
  }

  /** Each `schoenberg` piece is the polynomial with the listed coefficients. */
  lemma SchoenbergPieceIsPoly(k: nat, x: real)
    requires k < 3
    ensures SchoenbergPiece(k, x) == Eval(SchoenbergCoeffs(k), x)
  {
    PowSmall(x);
    Eval6(SchoenbergCoeffs(k), x);
  }

  /** Each `d1` piece is the term-wise derivative of the matching `schoenberg` piece. */
  lemma D1PieceIsDerivative(k: nat, x: real)
    requires k < 3
    ensures D1Piece(k, x) == Eval(Deriv(SchoenbergCoeffs(k)), x)
  {
    PowSmall(x);
    Eval5(Deriv(SchoenbergCoeffs(k)), x);
  }

  /** Each `d2` piece is the second term-wise derivative of the matching `schoenberg` piece. */
  lemma D2PieceIsDerivative(k: nat, x: real)
    requires k < 3
    ensures D2Piece(k, x) == Eval(Deriv(Deriv(SchoenbergCoeffs(k))), x)
  {
    PowSmall(x);
    Eval4(Deriv(Deriv(SchoenbergCoeffs(k))), x);
  }

  /** Each `d3` piece is the third term-wise derivative of the matching `schoenberg` piece. */
  lemma D3PieceIsDerivative(k: nat, x: real)
    requires k < 3
    ensures D3Piece(k, x) == Eval(Deriv(Deriv(Deriv(SchoenbergCoeffs(k)))), x)
  {
    PowSmall(x);
    Eval3(Deriv(Deriv(Deriv(SchoenbergCoeffs(k)))), x);
  }

  /** On [0, 3), each derivative table is the term-wise derivative of the `schoenberg` piece `x` lies in. */
  lemma DerivativeTables(x: real)
    requires 0.0 <= x < 3.0
    ensures var p := SchoenbergCoeffs(Segment(x));
      && Schoenberg(x) == Eval(p, x)
      && D1(x) == Eval(Deriv(p), x)
      && D2(x) == Eval(Deriv(Deriv(p)), x)
      && D3(x) == Eval(Deriv(Deriv(Deriv(p))), x)
  {
    var k := Segment(x);
    SchoenbergPieceIsPoly(k, x);
    D1PieceIsDerivative(k, x);
    D2PieceIsDerivative(k, x);
    D3PieceIsDerivative(k, x);
  }

  /**
   * `schoenberg` jumps from 0 to 0.55 at 0, its pieces meet at 1 and 2, and the
   * last piece reaches 0 at 3.
   */
  lemma SchoenbergJoins()
    ensures Schoenberg(0.0) == 0.55
    ensures forall x :: x < 0.0 ==> Schoenberg(x) == 0.0
    ensures SchoenbergPiece(0, 1.0) == SchoenbergPiece(1, 1.0) == Schoenberg(1.0)
    ensures SchoenbergPiece(1, 2.0) == SchoenbergPiece(2, 2.0) == Schoenberg(2.0)
    ensures SchoenbergPiece(2, 3.0) == 0.0 == Schoenberg(3.0)
  {
    PowSmall(0.0);
    PowSmall(1.0);
    PowSmall(2.0);
    PowSmall(3.0);
  }

  /** The derivative tables at 0. */
  lemma DerivativesAtZero()
    ensures D1(0.0) == 0.0 && D2(0.0) == -1.0 && D3(0.0) == 0.0
  {
    PowSmall(0.0);
  }

  // ---------------------------------------------------------------------------
  // shengerg_spline_derivatives
  // ---------------------------------------------------------------------------

  /** A configured `shengerg_spline_derivatives` decorator. */
  datatype SplineDerivatives = SplineDerivatives(maxOrder: int)

  /** `shengerg_spline_derivatives(max_order)`: orders above 3 are not implemented. */
  function NewSplineDerivatives(maxOrder: int): (r: Result<SplineDerivatives>)
    ensures r.Failure? <==> maxOrder > 3
    ensures r.Failure? ==> r.error == NotImplemented
    ensures r.Success? ==> r.value.maxOrder == maxOrder
  {
    if maxOrder > 3 then Failure(NotImplemented) else Success(SplineDerivatives(maxOrder))
  }

  /** `1, 2, ..., m`, empty for `m <= 0`. */
  function OrdersUpTo(m: int): (ks: seq<nat>)
    ensures |ks| == if m <= 0 then 0 else m
    ensures forall k :: k in ks <==> 1 <= k <= m
    ensures forall i :: 0 <= i < |ks| ==> ks[i] == i + 1
    decreases if m <= 0 then 0 else m
  {
    if m <= 0 then [] else OrdersUpTo(m - 1) + [m]
  }

  /** The orders `__call__` attaches as `d1`, `d2`, ...: `i + 1` for `i` in `range(max_order)`. */
  function Attached(sd: SplineDerivatives): seq<nat>
  {
    OrdersUpTo(sd.maxOrder)
  }

  /** The attached function `d<k>`. */
  function DerivOfOrder(k: nat, x: real): real
    requires 1 <= k <= 3
  {
    if k == 1 then D1(x) else if k == 2 then D2(x) else D3(x)
  }

  /** A decorator that constructs attaches only orders it has, so `DerivOfOrder` is defined on all of them. */
  lemma AttachedImplemented(maxOrder: int)
    requires NewSplineDerivatives(maxOrder).Success?
    ensures forall k :: k in Attached(NewSplineDerivatives(maxOrder).value) ==> 1 <= k <= 3
  {
  }
}
