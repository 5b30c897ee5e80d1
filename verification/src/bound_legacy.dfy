/**
 * The older boundary module `numerical/area/bound.py`: a single line class whose
 * check also rejects nearly equal endpoints, and the 1-, 2- and 3-D containers.
 */
module BoundLegacy {
  import opened Wrappers
  import opened Tolerance
  import BoundsBase
  import Iteration

  /** `_LineBoundary.__init__`: raises when `end < start` or the ends are close. */
  function MakeLine(start: real, end: real): (r: Result<BoundsBase.Boundary>)
    ensures r.Failure? <==> end < start || AllClose(start, end)
    ensures r.Success? ==> r.value == BoundsBase.Boundary(BoundsBase.Line, start, end)
    ensures r.Failure? ==> r.error == BoundarySetup
  {
    if end < start || AllClose(start, end) then Failure(BoundarySetup)
    else Success(BoundsBase.Boundary(BoundsBase.Line, start, end))
  }

  /** Every accepted line is strictly increasing. */
  lemma AcceptedIsIncreasing(start: real, end: real)
    requires MakeLine(start, end).Success?
    ensures start < end
  {
    if start == end {
      AllCloseReflexive(start);
    }
  }

  /** Unlike the strict rule of the newer module, this one rejects nearly equal ends. */
  lemma RejectsNearlyEqual()
    ensures MakeLine(0.5, 0.5000001).Failure?
    ensures BoundsBase.Make(BoundsBase.Line, 0.5, 0.5000001).Success?
  {
  }

  function LineBoundary1D(xStart: real, xEnd: real): (r: Result<seq<BoundsBase.Boundary>>)
    ensures r.Success? <==> !(xEnd < xStart || AllClose(xStart, xEnd))
    ensures r.Success? ==> r.value == [BoundsBase.Boundary(BoundsBase.Line, xStart, xEnd)]
    ensures r.Failure? ==> r.error == BoundarySetup
  {
    var x :- MakeLine(xStart, xEnd);
    Success([x])
  }

  function LineBoundary2D(xStart: real, xEnd: real, yStart: real, yEnd: real)
    : (r: Result<seq<BoundsBase.Boundary>>)
    ensures r.Success? <==>
      !(xEnd < xStart || AllClose(xStart, xEnd)) && !(yEnd < yStart || AllClose(yStart, yEnd))
    ensures r.Success? ==>
      r.value == [BoundsBase.Boundary(BoundsBase.Line, xStart, xEnd),
                  BoundsBase.Boundary(BoundsBase.Line, yStart, yEnd)]
    ensures r.Failure? ==> r.error == BoundarySetup
  {
    var x :- MakeLine(xStart, xEnd);
    var y :- MakeLine(yStart, yEnd);
    Success([x, y])
  }

  function LineBoundary3D(xStart: real, xEnd: real, yStart: real, yEnd: real,
                          zStart: real, zEnd: real): (r: Result<seq<BoundsBase.Boundary>>)
    ensures r.Success? <==>
      && !(xEnd < xStart || AllClose(xStart, xEnd))
      && !(yEnd < yStart || AllClose(yStart, yEnd))
      && !(zEnd < zStart || AllClose(zStart, zEnd))
    ensures r.Success? ==>
      r.value == [BoundsBase.Boundary(BoundsBase.Line, xStart, xEnd),
                  BoundsBase.Boundary(BoundsBase.Line, yStart, yEnd),
                  BoundsBase.Boundary(BoundsBase.Line, zStart, zEnd)]
    ensures r.Failure? ==> r.error == BoundarySetup
  {
    var x :- MakeLine(xStart, xEnd);
    var y :- MakeLine(yStart, yEnd);
    var z :- MakeLine(zStart, zEnd);
    Success([x, y, z])
  }

  /** `_set_described_rect`: the described rectangle is the stored list. */
  function DescribedRect(data: seq<BoundsBase.Boundary>): seq<BoundsBase.Boundary>
  {
    data
  }

  /** The boundary tests: stored endpoints in argument order, and the three
      rejected constructions. */
  lemma LegacyExamples()
    ensures LineBoundary1D(0.0, 1.0) == Success([BoundsBase.Boundary(BoundsBase.Line, 0.0, 1.0)])
    ensures LineBoundary3D(0.0, 1.0, 0.5, 1.5, -0.25, 1.5).Success?
    ensures LineBoundary3D(0.0, 1.0, 0.5, 1.5, -0.25, 1.5).value[2].start == -0.25
    ensures LineBoundary1D(10.0, 1.0).Failure?
    ensures LineBoundary2D(0.0, 1.0, 0.5, 0.5000001).Failure?
    ensures LineBoundary3D(0.0, 1.0, 0.5, 1.5, -0.25, -1.5).Failure?
  {
  }

  /**
   * What the container class promises of its list: every stored line
   * increases, iteration yields each boundary once in order, and the described
   * rectangle is the list itself.
   */
  predicate ContainerFacts(d: seq<BoundsBase.Boundary>)
  {
    && (forall i :: 0 <= i < |d| ==> d[i].start < d[i].end)
    && Iteration.PreDrain(Iteration.PreIter(d)) == d
    && DescribedRect(d) == d
  }

  /** The container facts hold of every accepted older rectangle, in one, two and three axes. */
  lemma LegacyContainer(xs: real, xe: real, ys: real, ye: real, zs: real, ze: real)
    ensures LineBoundary1D(xs, xe).Success? ==> ContainerFacts(LineBoundary1D(xs, xe).value)
    ensures LineBoundary2D(xs, xe, ys, ye).Success? ==> ContainerFacts(LineBoundary2D(xs, xe, ys, ye).value)
    ensures LineBoundary3D(xs, xe, ys, ye, zs, ze).Success? ==>
      ContainerFacts(LineBoundary3D(xs, xe, ys, ye, zs, ze).value)
  {
    if LineBoundary1D(xs, xe).Success? {
      AcceptedIsIncreasing(xs, xe);
      Iteration.PreIterYieldsAll(LineBoundary1D(xs, xe).value);
    }
    if LineBoundary2D(xs, xe, ys, ye).Success? {
      AcceptedIsIncreasing(xs, xe);
      AcceptedIsIncreasing(ys, ye);
      Iteration.PreIterYieldsAll(LineBoundary2D(xs, xe, ys, ye).value);
    }
    if LineBoundary3D(xs, xe, ys, ye, zs, ze).Success? {
      AcceptedIsIncreasing(xs, xe);
      AcceptedIsIncreasing(ys, ye);
      AcceptedIsIncreasing(zs, ze);
      Iteration.PreIterYieldsAll(LineBoundary3D(xs, xe, ys, ye, zs, ze).value);
    }
  }
}
