/**
 * One-dimensional boundaries of `numerical/area/bounds/_base.py`: a line, a polar
 * radius range and a polar angle range, each with its own validity rule, and the
 * containers that hold a fixed list of them.
 */
module BoundsBase {
  import opened Wrappers
  import opened Tolerance
  import Iteration

  /** The three boundary classes; the subclasses override `_is_valid`. */
  datatype AxisKind = Line | PolarRho | PolarPhi

  datatype Boundary = Boundary(kind: AxisKind, start: real, end: real)

  /** `LineBoundary._is_valid`: strictly increasing, no tolerance. */
  predicate LineRule(start: real, end: real)
  {
    end > start
  }

  /** `PolarRhoLineBoundary._is_valid`: no ordering between the endpoints. */
  predicate RhoRule(start: real, end: real)
  {
    && !AllClose(start, end)
    && (start > 0.0 || AllClose(start, 0.0))
    && !AllClose(end, 0.0)
  }

  /** An angle inside the open range (0, 2 pi) or close to either end of it. */
  predicate InAngleRange(a: real)
  {
    (0.0 < a < TWO_PI) || AllClose(a, 0.0) || AllClose(a, TWO_PI)
  }

  /** `PolarPhiLineBoundary._is_valid`. */
  predicate PhiRule(start: real, end: real)
  {
    && start < end
    && !AllClose(start, end)
    && InAngleRange(start)
    && InAngleRange(end)
  }

  /** The rule a boundary of the given class is checked against. */
  predicate IsValid(kind: AxisKind, start: real, end: real)
  {
    match kind
    case Line => LineRule(start, end)
    case PolarRho => RhoRule(start, end)
    case PolarPhi => PhiRule(start, end)
  }

  /** Construction of a boundary: `__init__` stores the endpoints and raises
      `BoundarySetupException` when the class's rule rejects them. */
  function Make(kind: AxisKind, start: real, end: real): (r: Result<Boundary>)
    ensures r.Success? <==> IsValid(kind, start, end)
    ensures r.Success? ==> r.value == Boundary(kind, start, end)
    ensures r.Failure? ==> r.error == BoundarySetup
  {
    if IsValid(kind, start, end) then Success(Boundary(kind, start, end))
    else Failure(BoundarySetup)
  }

  /** A line is accepted exactly when its end lies strictly after its start. */
  lemma LineAcceptedIff(start: real, end: real)
    ensures Make(Line, start, end).Success? <==> end > start
    ensures Make(Line, start, end).Success? ==> Make(Line, start, end).value.start < Make(Line, start, end).value.end
  {
  }

  /** A radius range is accepted iff the endpoints are apart, the start is
      non-negative or close to zero, and the end is not close to zero. */
  lemma RhoAcceptedIff(start: real, end: real)
    ensures Make(PolarRho, start, end).Success? <==>
      !AllClose(start, end) && (start > 0.0 || AllClose(start, 0.0)) && !AllClose(end, 0.0)
  {
  }

  /** The radius rule replaces the line rule: a decreasing radius range is accepted
      although the same endpoints make an invalid line. */
  lemma RhoIgnoresOrder()
    ensures Make(PolarRho, 2.0, 1.0) == Success(Boundary(PolarRho, 2.0, 1.0))
    ensures Make(Line, 2.0, 1.0) == Failure(BoundarySetup)
  {
  }

  /** An angle range is accepted iff it increases, its ends are apart, and each end
      lies in (0, 2 pi) or close to 0 or 2 pi. */
  lemma PhiAcceptedIff(start: real, end: real)
    ensures Make(PolarPhi, start, end).Success? <==>
      && start < end && !AllClose(start, end)
      && ((0.0 < start < TWO_PI) || AllClose(start, 0.0) || AllClose(start, TWO_PI))
      && ((0.0 < end < TWO_PI) || AllClose(end, 0.0) || AllClose(end, TWO_PI))
  {
  }

  /** The half turn (0, pi) and the full turn (0, 2 pi) are valid angle ranges. */
  lemma PhiAcceptsHalfAndFullTurn()
    ensures PhiRule(0.0, PI)
    ensures PhiRule(0.0, TWO_PI)
  {
    assert AllClose(TWO_PI, TWO_PI);
  }

  /** An angle range reaching beyond 2 pi by more than the tolerance is rejected. */
  lemma PhiRejectsBeyondFullTurn()
    ensures Make(PolarPhi, 0.0, 7.0).Failure?
  {
  }

  /** A container of boundaries (`BoundaryIterable`) with its polar flag. */
  datatype Region = Region(bounds: seq<Boundary>, isPolar: bool)

  /** `bounds_count`. */
  function BoundsCount(r: Region): nat
  {
    |r.bounds|
  }

  /** `get_described_rect`: the stored list itself. */
  function DescribedRect(r: Region): seq<Boundary>
  {
    r.bounds
  }

  /** Iterating a region yields its boundaries in order and `r[i]` reads the
      stored list, with the count equal to the list length. */
  lemma RegionAccess(r: Region, i: int)
    requires 0 <= i < BoundsCount(r)
    ensures Iteration.Drain(Iteration.Iter(r.bounds)) == r.bounds
    ensures Iteration.GetItem(r.bounds, i) == Success(r.bounds[i])
    ensures Iteration.GetItem(r.bounds, BoundsCount(r)).Failure?
  {
    Iteration.IterYieldsAll(r.bounds);
  }
}
