/** Cartesian regions of `numerical/area/bounds/cartesian.py`: one, two or three
    line boundaries, each checked by the strict line rule. */
module Cartesian {
  import opened Wrappers
  import opened BoundsBase

  function LineBoundary1D(xStart: real, xEnd: real): (r: Result<Region>)
    ensures r.Success? <==> xEnd > xStart
    ensures r.Success? ==> r.value == Region([Boundary(Line, xStart, xEnd)], false)
    ensures r.Failure? ==> r.error == BoundarySetup
  {
    var x :- Make(Line, xStart, xEnd);
    Success(Region([x], false))
  }

  function LineBoundary2D(xStart: real, xEnd: real, yStart: real, yEnd: real): (r: Result<Region>)
    ensures r.Success? <==> xEnd > xStart && yEnd > yStart
    ensures r.Success? ==>
      r.value == Region([Boundary(Line, xStart, xEnd), Boundary(Line, yStart, yEnd)], false)
    ensures r.Failure? ==> r.error == BoundarySetup
  {
    var x :- Make(Line, xStart, xEnd);
    var y :- Make(Line, yStart, yEnd);
    Success(Region([x, y], false))
  }

  function LineBoundary3D(xStart: real, xEnd: real, yStart: real, yEnd: real,
                          zStart: real, zEnd: real): (r: Result<Region>)
    ensures r.Success? <==> xEnd > xStart && yEnd > yStart && zEnd > zStart
    ensures r.Success? ==>
      r.value == Region([Boundary(Line, xStart, xEnd), Boundary(Line, yStart, yEnd),
                         Boundary(Line, zStart, zEnd)], false)
    ensures r.Failure? ==> r.error == BoundarySetup
  {
    var x :- Make(Line, xStart, xEnd);
    var y :- Make(Line, yStart, yEnd);
    var z :- Make(Line, zStart, zEnd);
    Success(Region([x, y, z], false))
  }

  /** Every cartesian region has as many boundaries as its arity, is not polar,
      and describes itself: the described rectangle is the stored list. */
  lemma CartesianShape(xs: real, xe: real, ys: real, ye: real, zs: real, ze: real)
    ensures LineBoundary1D(xs, xe).Success? ==>
      var r := LineBoundary1D(xs, xe).value;
      BoundsCount(r) == 1 && !r.isPolar && DescribedRect(r) == r.bounds
    ensures LineBoundary2D(xs, xe, ys, ye).Success? ==>
      var r := LineBoundary2D(xs, xe, ys, ye).value;
      BoundsCount(r) == 2 && !r.isPolar && DescribedRect(r) == r.bounds
    ensures LineBoundary3D(xs, xe, ys, ye, zs, ze).Success? ==>
      var r := LineBoundary3D(xs, xe, ys, ye, zs, ze).value;
      BoundsCount(r) == 3 && !r.isPolar && DescribedRect(r) == r.bounds
  {
  }

  /** The rejections the boundary tests expect, under the strict line rule; the
      nearly equal pair (0.5, 0.5000001) is accepted by this rule. */
  lemma CartesianRejections()
    ensures LineBoundary1D(10.0, 1.0) == Failure(BoundarySetup)
    ensures LineBoundary3D(0.0, 1.0, 0.5, 1.5, -0.25, -1.5) == Failure(BoundarySetup)
    ensures LineBoundary2D(0.0, 1.0, 0.5, 0.5000001).Success?
  {
  }
}
