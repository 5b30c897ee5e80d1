/** `np.allclose` on scalars and the float64 value of `np.pi`. */
module Tolerance {

  /** The float64 constant `np.pi`, written out exactly. */
  const PI: real := 3.141592653589793115997963468544185161590576171875

  /** `2 * np.pi`; doubling a float64 is exact. */
  const TWO_PI: real := 2.0 * PI

  /** Default absolute and relative tolerances of `np.allclose`. */
  const ATOL: real := 0.00000001
  const RTOL: real := 0.00001

  function Abs(x: real): real
  {
    if x < 0.0 then -x else x
  }

  /** `np.allclose(a, b)` for scalars: the relative term scales with `|b|` only. */
  predicate AllClose(a: real, b: real)
  {
    Abs(a - b) <= ATOL + RTOL * Abs(b)
  }

  /** Exact equality is always close. */
  lemma AllCloseReflexive(a: real)
    ensures AllClose(a, a)
  {
  }

  /** `allclose` is not symmetric: a tiny `b` is close to 0, but 0 is not close to it. */
  lemma AllCloseAsymmetric()
    ensures AllClose(0.0, 0.00000001000001)
    ensures !AllClose(0.00000001000001, 0.0)
  {
  }

  /** Closeness to zero of the second argument is plain absolute tolerance. */
  lemma AllCloseToZero(a: real)
    ensures AllClose(a, 0.0) <==> Abs(a) <= ATOL
  {
  }

  /** Closeness of zero to `b` holds exactly when `|b| (1 - rtol) <= atol`. */
  lemma ZeroCloseTo(b: real)
    ensures AllClose(0.0, b) <==> Abs(b) * (1.0 - RTOL) <= ATOL
  {
  }
}
