/**
 * Uniform grids of `numerical/area/grid.py`: per-axis nodes from a boundary and a
 * step, the per-cell midpoints (`sum`) and half-widths (`diff`) the quadrature
 * uses, and the n-dimensional grid built from a region.
 */
module Grid {
  import opened Wrappers
  import opened Arith
  import opened BoundsBase
  import Iteration

  /** `ceil((stop - start) / step)` whole steps reach `stop`, one fewer stays below it. */
  lemma CeilSteps(start: real, stop: real, step: real)
    requires step > 0.0 && stop > start
    ensures var c := Ceil((stop - start) / step);
      c >= 1 && start + (c - 1) as real * step < stop <= start + c as real * step
  {
    var len := (stop - start) / step;
    DivTimes(stop - start, step);
    Bracket(stop - start, step, len, Ceil(len));
  }

  /** If `len * step == d` and `c - 1 < len <= c`, then `c - 1` steps fall short of `d` and `c` reach it. */
  lemma Bracket(d: real, step: real, len: real, c: int)
    requires step > 0.0 && len * step == d
    requires (c - 1) as real < len <= c as real
    ensures (c - 1) as real * step < d <= c as real * step
  {
    RealMulLt((c - 1) as real, len, step);
    RealMulLe(len, c as real, step);
  }

  /** Length of `np.arange(start, stop, step)` in exact arithmetic. */
  function ArangeLength(start: real, stop: real, step: real): (n: nat)
    requires step > 0.0
    ensures n == 0 <==> stop <= start
    ensures n > 0 ==> start + (n - 1) as real * step < stop <= start + n as real * step
  {
    if stop <= start then 0
    else
      CeilSteps(start, stop, step);
      Ceil((stop - start) / step)
  }

  /** `np.arange(start, stop, step)`: `start + i * step` for every `i` below the length. */
  function Arange(start: real, stop: real, step: real): seq<real>
    requires step > 0.0
  {
    seq(ArangeLength(start, stop, step), i => start + i as real * step)
  }

  /** Each element is below the next. */
  predicate StepIncreasing(s: seq<real>)
  {
    forall i :: 0 <= i < |s| - 1 ==> s[i] < s[i + 1]
  }

  /** Strictly increasing sequence: every earlier element is below every later one. */
  predicate Increasing(s: seq<real>)
  {
    forall i, j :: 0 <= i < j < |s| ==> s[i] < s[j]
  }

  /** Neighbour-wise increase is enough for increase over all pairs. */
  lemma {:induction false} StepIncreasingIsIncreasing(s: seq<real>)
    requires StepIncreasing(s)
    ensures Increasing(s)
  {
    if |s| > 1 {
      var t := s[1..];
      assert StepIncreasing(t) by {
        forall i | 0 <= i < |t| - 1
          ensures t[i] < t[i + 1]
        {
          assert t[i] == s[i + 1] && t[i + 1] == s[i + 2];
        }
      }
      StepIncreasingIsIncreasing(t);
      forall i, j | 0 <= i < j < |s|
        ensures s[i] < s[j]
      {
        if i == 0 {
          assert s[0] < s[1];
          if j > 1 {
            assert s[1] == t[0] && s[j] == t[j - 1];
          }
        } else {
          assert s[i] == t[i - 1] && s[j] == t[j - 1];
        }
      }
    }
  }

  /** Element `i` of the arange. */
  lemma ArangeAt(start: real, stop: real, step: real, i: nat)
    requires step > 0.0 && i < |Arange(start, stop, step)|
    ensures Arange(start, stop, step)[i] == start + i as real * step
  {
  }

  /** Facts about the arange elements: spaced by `step` and all below `stop`. */
  lemma ArangeFacts(start: real, stop: real, step: real)
    requires step > 0.0
    ensures var a := Arange(start, stop, step);
      && (forall i :: 0 <= i < |a| ==> a[i] < stop)
      && (forall i :: 0 <= i < |a| ==> a[i] == start + i as real * step)
      && (|a| > 0 ==> a[0] == start && 0.0 < stop - a[|a| - 1] <= step)
  {
    var a := Arange(start, stop, step);
    forall i | 0 <= i < |a|
      ensures a[i] < stop
    {
      ArangeAt(start, stop, step, i);
      ArangeAt(start, stop, step, |a| - 1);
      RealMulLe(i as real, (|a| - 1) as real, step);
    }
  }

  /** `_build_nodes`: the arange from start towards end, followed by `end` itself. */
  function BuildNodes(start: real, end: real, step: real): (nodes: seq<real>)
    requires step > 0.0
    ensures |nodes| >= 1 && nodes[|nodes| - 1] == end
    ensures end <= start ==> nodes == [end]
    ensures end > start ==> |nodes| >= 2 && nodes[0] == start
    ensures forall i :: 0 <= i < |nodes| - 1 ==> nodes[i] == start + i as real * step
    ensures |nodes| >= 2 ==> 0.0 < nodes[|nodes| - 1] - nodes[|nodes| - 2] <= step
  {
    ArangeFacts(start, end, step);
    Arange(start, end, step) + [end]
  }

  /** The nodes of an axis increase strictly. */
  lemma NodesIncreasing(start: real, end: real, step: real)
    requires step > 0.0
    ensures Increasing(BuildNodes(start, end, step))
  {
    var nodes := BuildNodes(start, end, step);
    assert StepIncreasing(nodes) by {
      forall i | 0 <= i < |nodes| - 1
        ensures nodes[i] < nodes[i + 1]
      {
        if i < |nodes| - 2 {
          assert nodes[i] == start + i as real * step;
          assert nodes[i + 1] == start + (i + 1) as real * step;
        } else {
          assert 0.0 < nodes[|nodes| - 1] - nodes[|nodes| - 2];
        }
      }
    }
    StepIncreasingIsIncreasing(nodes);
  }

  /** One axis of a uniform grid (`_UniformGrid`). */
  datatype AxisGrid = AxisGrid(
    nodes: seq<real>,
    sum: seq<real>,     // cell midpoints
    diff: seq<real>,    // cell half-widths
    diffT: seq<real>,   // the same half-widths, as a column
    nodesCount: nat)

  /** `_build_integration_meta`: midpoints and half-widths of consecutive nodes. */
  function IntegrationMeta(nodes: seq<real>): (g: AxisGrid)
    requires |nodes| >= 1
    ensures g.nodes == nodes && g.nodesCount == |nodes|
    ensures |g.sum| == |g.diff| == |g.diffT| == |nodes| - 1
    ensures g.diffT == g.diff
    ensures forall i {:trigger g.sum[i]} :: 0 <= i < |g.sum| ==>
      g.sum[i] - g.diff[i] == nodes[i] && g.sum[i] + g.diff[i] == nodes[i + 1]
  {
    var sum := seq(|nodes| - 1, i requires 0 <= i < |nodes| - 1 => (nodes[i + 1] + nodes[i]) / 2.0);
    var diff := seq(|nodes| - 1, i requires 0 <= i < |nodes| - 1 => (nodes[i + 1] - nodes[i]) / 2.0);
    AxisGrid(nodes, sum, diff, diff, |nodes|)
  }

  /** A uniform axis grid over a boundary with a positive step. */
  function UniformAxis(b: Boundary, step: real): (g: AxisGrid)
    requires step > 0.0
  {
    IntegrationMeta(BuildNodes(b.start, b.end, step))
  }

  /** Every cell of a uniform axis has a positive half-width, and spans two neighbouring nodes. */
  lemma UniformAxisCells(b: Boundary, step: real)
    requires step > 0.0
    ensures var g := UniformAxis(b, step);
      && g.nodes == BuildNodes(b.start, b.end, step)
      && |g.sum| == |g.diff| == |g.diffT| == |g.nodes| - 1
      && g.diffT == g.diff
      && (forall i :: 0 <= i < |g.diff| ==> g.diff[i] > 0.0)
      && (forall i {:trigger g.sum[i]} :: 0 <= i < |g.sum| ==>
            g.sum[i] - g.diff[i] == g.nodes[i] && g.sum[i] + g.diff[i] == g.nodes[i + 1])
  {
    var g := UniformAxis(b, step);
    NodesIncreasing(b.start, b.end, step);
    forall i | 0 <= i < |g.diff|
      ensures g.diff[i] > 0.0
    {
      assert g.nodes[i] < g.nodes[i + 1];
      assert g.sum[i] - g.diff[i] == g.nodes[i] && g.sum[i] + g.diff[i] == g.nodes[i + 1];
    }
  }

  /** The affine map `r -> sum[i] + diff[i] * r` sends [-1, 1] onto cell `i`. */
  lemma CellMap(b: Boundary, step: real, i: nat, r: real)
    requires step > 0.0
    requires i < |UniformAxis(b, step).sum|
    requires -1.0 <= r <= 1.0
    ensures UniformAxis(b, step).nodes[i]
      <= UniformAxis(b, step).sum[i] + UniformAxis(b, step).diff[i] * r
      <= UniformAxis(b, step).nodes[i + 1]
  {
    var g := UniformAxis(b, step);
    UniformAxisCells(b, step);
    var s, d := g.sum[i], g.diff[i];
    assert d > 0.0;
    assert s - d == g.nodes[i] && s + d == g.nodes[i + 1];
    AffineUnitInterval(g.nodes[i], g.nodes[i + 1], s, d, r);
  }

  /** `s + d * r` stays within `[lo, hi] = [s - d, s + d]` for `r` in [-1, 1]. */
  lemma AffineUnitInterval(lo: real, hi: real, s: real, d: real, r: real)
    requires d > 0.0 && -1.0 <= r <= 1.0 && lo == s - d && hi == s + d
    ensures lo <= s + d * r <= hi
  {
    RealMulLe(r, 1.0, d);
    RealMulLe(-1.0, r, d);
    assert 1.0 * d == d && -1.0 * d == -d;
    assert r * d == d * r;
  }

  /** Cells of an axis whose end does not exceed its start: none. */
  lemma NoCellsWhenNotIncreasing(b: Boundary, step: real)
    requires step > 0.0 && b.end <= b.start
    ensures UniformAxis(b, step).nodes == [b.end]
    ensures |UniformAxis(b, step).sum| == 0
  {
  }

  /** Two exact examples: four full steps, and three steps with a shorter last cell. */
  lemma NodeExamples()
    ensures BuildNodes(0.0, 1.0, 0.25) == [0.0, 0.25, 0.5, 0.75, 1.0]
    ensures BuildNodes(0.0, 1.0, 0.3) == [0.0, 0.3, 0.6, 0.9, 1.0]
  {
    assert ArangeLength(0.0, 1.0, 0.25) == 4 by {
      assert (1.0 - 0.0) / 0.25 == 4.0;
    }
    assert ArangeLength(0.0, 1.0, 0.3) == 4 by {
      assert (1.0 - 0.0) / 0.3 == 10.0 / 3.0;
      assert (10.0 / 3.0).Floor == 3;
    }
  }

  /** `UniformGrid`: one uniform axis per boundary of the described rectangle. */
  function UniformGrid(region: Region, steps: seq<real>): (r: Result<seq<AxisGrid>>)
    requires forall d :: 0 <= d < |steps| ==> steps[d] > 0.0
    ensures r.Failure? <==> BoundsCount(region) != |steps|
    ensures r.Failure? ==> r.error == ValueError
    ensures r.Success? ==> |r.value| == BoundsCount(region)
    ensures r.Success? ==> forall d :: 0 <= d < |r.value| ==>
      r.value[d].nodes == BuildNodes(region.bounds[d].start, region.bounds[d].end, steps[d])
    ensures r.Success? ==> forall d :: 0 <= d < |r.value| ==> r.value[d] == UniformAxis(region.bounds[d], steps[d])
  {
    if BoundsCount(region) != |steps| then Failure(ValueError)
    else
      var rect := DescribedRect(region);
      Success(seq(|steps|, d requires 0 <= d < |steps| => UniformAxis(rect[d], steps[d])))
  }

  /** `_GridIterable`: `dim` is the number of axes; iteration yields them in order. */
  function Dim(axes: seq<AxisGrid>): nat
  {
    |axes|
  }

  lemma GridIteration(axes: seq<AxisGrid>)
    ensures Iteration.PreDrain(Iteration.PreIter(axes)) == axes
    ensures |Iteration.PreDrain(Iteration.PreIter(axes))| == Dim(axes)
  {
    Iteration.PreIterYieldsAll(axes);
  }
}
