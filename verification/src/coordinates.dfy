/**
 * `coordinate_transform` of `numerical/utils/integration.py`: wraps an integrand
 * so that it can be integrated over a grid in another coordinate system.
 * Cosine and sine stay uninterpreted parameters of the polar map.
 */
module Coordinates {
  import opened Wrappers
  import opened LinAlg

  /** The wrappers `coordinate_transform` can hand back. */
  datatype Transform =
    | Unchanged     // the integrand itself
    | PolarJacobian // `x -> ndfunc(polar2cartesian(x)) * x[0]`

  /** `coordinate_transform(ndfunc, coords_type)`, keyed by the tag alone. */
  function CoordinateTransform(tag: string): (r: Result<Transform>)
    ensures r.Success? <==> tag == "cartesian" || tag == "polar"
    ensures r.Failure? ==> (r.error == NotImplemented <==> tag == "spherical")
    ensures r.Failure? ==> r.error in {NotImplemented, ValueError}
  {
    if tag == "cartesian" then Success(Unchanged)
    else if tag == "polar" then Success(PolarJacobian)
    else if tag == "spherical" then Failure(NotImplemented)
    else Failure(ValueError)
  }

  /** Calling the wrapped integrand at point `x`. */
  function Apply(t: Transform, f: seq<real> -> real, x: seq<real>, cos: real -> real, sin: real -> real): (r: Result<real>)
    ensures t.PolarJacobian? ==> (r.Failure? <==> |x| < 2)
  {
    match t
    case Unchanged => Success(f(x))
    case PolarJacobian =>
      match Polar2Cartesian(x, cos, sin)
      case Failure(e) => Failure(e)
      case Success(p) => Success(f(p) * x[0])
  }

  /** The cartesian tag hands back the integrand unchanged, at every point. */
  lemma CartesianIsIdentity(f: seq<real> -> real, x: seq<real>, cos: real -> real, sin: real -> real)
    ensures CoordinateTransform("cartesian").Success?
    ensures Apply(CoordinateTransform("cartesian").value, f, x, cos, sin) == Success(f(x))
  {
  }

  /**
   * The polar wrapper evaluates the integrand at the cartesian image of the point
   * and multiplies by the radius; points with fewer than two coordinates fail.
   */
  lemma PolarValue(f: seq<real> -> real, x: seq<real>, cos: real -> real, sin: real -> real)
    ensures CoordinateTransform("polar") == Success(PolarJacobian)
    ensures |x| < 2 ==> Apply(PolarJacobian, f, x, cos, sin) == Failure(IndexError)
    ensures |x| >= 2 ==>
      && Polar2Cartesian(x, cos, sin).Success?
      && Apply(PolarJacobian, f, x, cos, sin) == Success(f(Polar2Cartesian(x, cos, sin).value) * x[0])
  {
  }

  /** A constant integrand `c` becomes `c * x[0]` in polar coordinates. */
  lemma PolarConstant(f: seq<real> -> real, c: real, x: seq<real>, cos: real -> real, sin: real -> real)
    requires forall y :: f(y) == c
    requires |x| >= 2
    ensures CoordinateTransform("polar") == Success(PolarJacobian)
    ensures Apply(PolarJacobian, f, x, cos, sin) == Success(c * x[0])
  {
    var p := Polar2Cartesian(x, cos, sin).value;
    var a := Apply(PolarJacobian, f, x, cos, sin);
    assert a.Success? && a.value == f(p) * x[0];
    assert f(p) == c;
    var b: Result<real> := Success(c * x[0]);
    assert b.value == a.value;
  }

  /** The polar wrapper vanishes at the origin, whatever the integrand. */
  lemma PolarAtOrigin(f: seq<real> -> real, phi: real, cos: real -> real, sin: real -> real)
    ensures Apply(PolarJacobian, f, [0.0, phi], cos, sin) == Success(0.0)
  {
    Polar2CartesianOrigin(phi, cos, sin);
  }
}
