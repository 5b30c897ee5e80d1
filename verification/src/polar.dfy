/** Polar regions of `numerical/area/bounds/polar.py`: a radius range followed by an
    angle range. */
module Polar {
  import opened Wrappers
  import opened Tolerance
  import opened BoundsBase

  function CircleSegmentBoundary(rhoStart: real, rhoEnd: real,
                                 phiStart: real, phiEnd: real): (r: Result<Region>)
    ensures r.Success? <==> RhoRule(rhoStart, rhoEnd) && PhiRule(phiStart, phiEnd)
    ensures r.Success? ==>
      r.value == Region([Boundary(PolarRho, rhoStart, rhoEnd),
                         Boundary(PolarPhi, phiStart, phiEnd)], true)
    ensures r.Failure? ==> r.error == BoundarySetup
  {
    var rho :- Make(PolarRho, rhoStart, rhoEnd);
    var phi :- Make(PolarPhi, phiStart, phiEnd);
    Success(Region([rho, phi], true))
  }

  /** The segment over the half turn (0, pi); its angle part always validates. */
  function HalfCircleBoundary(rhoStart: real, rhoEnd: real): (r: Result<Region>)
    ensures r.Success? <==> RhoRule(rhoStart, rhoEnd)
    ensures r.Success? ==>
      r.value.bounds == [Boundary(PolarRho, rhoStart, rhoEnd), Boundary(PolarPhi, 0.0, PI)]
    ensures r.Success? ==> r.value.isPolar
    ensures r.Failure? ==> r.error == BoundarySetup
  {
    PhiAcceptsHalfAndFullTurn();
    CircleSegmentBoundary(rhoStart, rhoEnd, 0.0, PI)
  }

  /** The segment (0, radius) x (0, 2 pi): accepted exactly when
      `|radius| (1 - 1e-5) > 1e-8`, so a negative radius is accepted too. */
  function CircleBoundary(radius: real): (r: Result<Region>)
    ensures r.Success? <==> Abs(radius) * (1.0 - RTOL) > ATOL
    ensures r.Success? ==>
      r.value.bounds == [Boundary(PolarRho, 0.0, radius), Boundary(PolarPhi, 0.0, TWO_PI)]
    ensures r.Success? ==> r.value.isPolar
    ensures r.Failure? ==> r.error == BoundarySetup
  {
    PhiAcceptsHalfAndFullTurn();
    ZeroCloseTo(radius);
    AllCloseToZero(radius);
    assert AllClose(0.0, 0.0);
    CircleSegmentBoundary(0.0, radius, 0.0, TWO_PI)
  }

  /** A polar region is flagged polar and its described rectangle is the stored
      polar list, unchanged. */
  lemma PolarDescribedRect(rs: real, re: real, ps: real, pe: real)
    ensures CircleSegmentBoundary(rs, re, ps, pe).Success? ==>
      var r := CircleSegmentBoundary(rs, re, ps, pe).value;
      r.isPolar && BoundsCount(r) == 2 && DescribedRect(r) == r.bounds
  {
  }

  /** The unit circle and the circle of radius -1 are both accepted; a radius of
      1e-8 is rejected. */
  lemma CircleExamples()
    ensures CircleBoundary(1.0).Success?
    ensures CircleBoundary(-1.0).Success?
    ensures CircleBoundary(0.00000001).Failure?
  {
  }
}
