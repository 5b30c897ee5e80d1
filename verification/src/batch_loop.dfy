/**
 * The recursive batching loop `_integration_loop` of `numerical/integration/gauss.py`
 * (and of the older `integration/gauss.py`), generic in what the innermost call
 * computes. Level `k` owns axis `k`: it runs the next level once per batch start
 * `0, b, 2b, ...` below the axis' cell count, then resets its own position to 0.
 * The shared `batch_position` list is threaded through as a value.
 */
module BatchLoop {
  import opened Wrappers
  import opened Seqs

  /** Batch starts `p, p + b, p + 2b, ...` below `n`. */
  function StartsFrom(n: nat, b: nat, p: nat): seq<nat>
    requires b > 0
    decreases if p < n then n - p else 0
  {
    if p < n then [p] + StartsFrom(n, b, p + b) else []
  }

  /** The batch starts of one axis with `n` cells and batch size `b`. */
  function Starts(n: nat, b: nat): seq<nat>
    requires b > 0
  {
    StartsFrom(n, b, 0)
  }

  /**
   * Batch sizes the loop over the cell counts `ns` terminates with: every size
   * the loop can read is positive. The tuple may be shorter than `ns`; reading
   * past its end is an `IndexError`.
   */
  predicate PositiveBatch(ns: seq<nat>, bs: seq<nat>)
  {
    forall d :: 0 <= d < |ns| && d < |bs| ==> bs[d] > 0
  }

  /** Batch sizes that cover every axis: one positive size per axis. */
  predicate ValidBatch(ns: seq<nat>, bs: seq<nat>)
  {
    |bs| >= |ns| && PositiveBatch(ns, bs)
  }

  /** The batch starts of every axis. */
  function StartLists(ns: seq<nat>, bs: seq<nat>): (ls: seq<seq<nat>>)
    requires ValidBatch(ns, bs)
    ensures |ls| == |ns|
    ensures forall d :: 0 <= d < |ns| ==> ls[d] == Starts(ns[d], bs[d])
  {
    seq(|ns|, d requires 0 <= d < |ns| => Starts(ns[d], bs[d]))
  }

  /** `pre + t` for every tuple `t` of `ts`, in order. */
  function Prefixed(pre: seq<nat>, ts: seq<seq<nat>>): (r: seq<seq<nat>>)
    ensures |r| == |ts|
    ensures forall i :: 0 <= i < |ts| ==> r[i] == pre + ts[i]
  {
    seq(|ts|, i requires 0 <= i < |ts| => pre + ts[i])
  }

  /** Every `x` of `xs` in front of every tuple of `ts`, `x` varying slowest. */
  function Cross(xs: seq<nat>, ts: seq<seq<nat>>): seq<seq<nat>>
  {
    if |xs| == 0 then [] else Prefixed([xs[0]], ts) + Cross(xs[1..], ts)
  }

  /** The cartesian product of the lists `ls`, in lexicographic order. */
  function Tuples(ls: seq<seq<nat>>): seq<seq<nat>>
  {
    if |ls| == 0 then [[]] else Cross(ls[0], Tuples(ls[1..]))
  }

  /** Outcome of a call: the blocks it produced and the position list it leaves. */
  datatype Run<B> = Run(out: seq<B>, pos: seq<nat>)

  /**
   * `_integration_loop(..., batch_position, batch_size, nest_id = k - 1)`: at
   * `k == |ns|` the innermost call computes one block from the positions; above
   * that, level `k` runs its `while` loop. An exception of the innermost call
   * propagates out of every level.
   */
  function Loop<B>(ns: seq<nat>, bs: seq<nat>, leaf: seq<nat> -> Result<B>, k: nat, pos: seq<nat>): (r: Result<Run<B>>)
    requires PositiveBatch(ns, bs) && k <= |ns| == |pos|
    requires forall j :: k <= j < |ns| ==> pos[j] == 0
    ensures r.Success? ==> r.value.pos == pos
    decreases |ns| - k, 1, 0
  {
    if k == |ns| then
      match leaf(pos)
      case Failure(e) => Failure(e)
      case Success(b) => Success(Run([b], pos))
    else While(ns, bs, leaf, k, pos)
  }

  /**
   * The `while batch_position[k] < n_roots` loop of level `k`: run the next level,
   * advance by the batch size (an `IndexError` when the tuple has no size for
   * axis `k`), and once past the end reset the position to 0.
   */
  function While<B>(ns: seq<nat>, bs: seq<nat>, leaf: seq<nat> -> Result<B>, k: nat, pos: seq<nat>): (r: Result<Run<B>>)
    requires PositiveBatch(ns, bs) && k < |ns| == |pos|
    requires forall j :: k < j < |ns| ==> pos[j] == 0
    ensures r.Success? ==> r.value.pos == pos[k := 0]
    decreases |ns| - k, 0, if pos[k] < ns[k] then ns[k] - pos[k] else 0
  {
    if pos[k] < ns[k] then
      match Loop(ns, bs, leaf, k + 1, pos)
      case Failure(e) => Failure(e)
      case Success(inner) =>
        if k >= |bs| then Failure(IndexError) else
        var next := inner.pos[k := inner.pos[k] + bs[k]];
        match While(ns, bs, leaf, k, next)
        case Failure(e) => Failure(e)
        case Success(rest) => Success(Run(inner.out + rest.out, rest.pos))
    else Success(Run([], pos[k := 0]))
  }

  /** The top-level call, `nest_id = -1` with all positions 0. */
  function RunLoop<B>(ns: seq<nat>, bs: seq<nat>, leaf: seq<nat> -> Result<B>): (r: Result<Run<B>>)
    requires PositiveBatch(ns, bs)
    ensures r.Success? ==> r.value.pos == seq(|ns|, _ => 0)
  {
    Loop(ns, bs, leaf, 0, seq(|ns|, _ => 0))
  }

  /**
   * With a batch-size tuple shorter than the axes, a level that succeeds has
   * produced no block: a block would send the innermost level on to advance its
   * own position, which the tuple has no size for.
   */
  lemma {:induction false} WhileShortEmpty<B>(ns: seq<nat>, bs: seq<nat>, leaf: seq<nat> -> Result<B>, k: nat, pos: seq<nat>)
    requires PositiveBatch(ns, bs) && |bs| < |ns| && k < |ns| == |pos|
    requires forall j :: k < j < |ns| ==> pos[j] == 0
    ensures While(ns, bs, leaf, k, pos).Success? ==> While(ns, bs, leaf, k, pos).value.out == []
    decreases |ns| - k, if pos[k] < ns[k] then ns[k] - pos[k] else 0
  {
    if pos[k] < ns[k] && k < |bs| {
      var inner := Loop(ns, bs, leaf, k + 1, pos);
      if inner.Success? {
        WhileShortEmpty(ns, bs, leaf, k + 1, pos);
        WhileShortEmpty(ns, bs, leaf, k, pos[k := pos[k] + bs[k]]);
      }
    }
  }

  /**
   * With a short tuple and cells on every axis, every level from `k` down
   * fails at the first innermost call: with that call's exception, or else
   * with the `IndexError` of the innermost level's advance.
   */
  lemma {:induction false} WhileShortFirst<B>(ns: seq<nat>, bs: seq<nat>, leaf: seq<nat> -> Result<B>, k: nat)
    requires PositiveBatch(ns, bs) && |bs| < |ns| && k < |ns|
    requires forall d :: 0 <= d < |ns| ==> ns[d] > 0
    ensures While(ns, bs, leaf, k, seq(|ns|, _ => 0))
         == Failure(if leaf(seq(|ns|, _ => 0)).Failure? then leaf(seq(|ns|, _ => 0)).error else IndexError)
    decreases |ns| - k
  {
    if k + 1 < |ns| {
      WhileShortFirst(ns, bs, leaf, k + 1);
    }
  }

  /**
   * A batch-size tuple shorter than the axes: the loop never returns a block.
   * With cells on every axis it fails at its first innermost call, which runs at
   * all positions 0.
   */
  lemma RunLoopShortBatch<B>(ns: seq<nat>, bs: seq<nat>, leaf: seq<nat> -> Result<B>)
    requires PositiveBatch(ns, bs) && |bs| < |ns|
    ensures RunLoop(ns, bs, leaf).Success? ==> RunLoop(ns, bs, leaf).value.out == []
    ensures (forall d :: 0 <= d < |ns| ==> ns[d] > 0) ==>
      RunLoop(ns, bs, leaf)
        == Failure(if leaf(seq(|ns|, _ => 0)).Failure? then leaf(seq(|ns|, _ => 0)).error else IndexError)
  {
    WhileShortEmpty(ns, bs, leaf, 0, seq(|ns|, _ => 0));
    if forall d :: 0 <= d < |ns| ==> ns[d] > 0 {
      WhileShortFirst(ns, bs, leaf, 0);
    }
  }

  /** `leaf` applied to every tuple in order; the first failure wins. */
  function MapAll<B>(leaf: seq<nat> -> Result<B>, ts: seq<seq<nat>>): Result<seq<B>>
  {
    if |ts| == 0 then Success([])
    else
      match leaf(ts[0])
      case Failure(e) => Failure(e)
      case Success(b) =>
        match MapAll(leaf, ts[1..])
        case Failure(e) => Failure(e)
        case Success(rest) => Success([b] + rest)
  }

  /** `MapAll` fails iff some tuple fails; otherwise block `i` is the value on tuple `i`. */
  lemma {:induction false} MapAllFacts<B>(leaf: seq<nat> -> Result<B>, ts: seq<seq<nat>>)
    ensures var r := MapAll(leaf, ts);
      && (r.Failure? <==> exists i :: 0 <= i < |ts| && leaf(ts[i]).Failure?)
      && (r.Success? ==> |r.value| == |ts| && forall i :: 0 <= i < |ts| ==> leaf(ts[i]) == Success(r.value[i]))
  {
    if |ts| > 0 {
      MapAllFacts(leaf, ts[1..]);
      var r := MapAll(leaf, ts);
      if leaf(ts[0]).Success? && MapAll(leaf, ts[1..]).Success? {
        var rest := MapAll(leaf, ts[1..]).value;
        assert r.value == [leaf(ts[0]).value] + rest;
        forall i | 0 <= i < |ts|
          ensures leaf(ts[i]) == Success(r.value[i])
        {
          if i > 0 {
            assert ts[1..][i - 1] == ts[i];
          }
        }
      }
      if MapAll(leaf, ts[1..]).Failure? {
        var i :| 0 <= i < |ts[1..]| && leaf(ts[1..][i]).Failure?;
        assert leaf(ts[i + 1]).Failure?;
      }
      if exists i :: 0 <= i < |ts| && leaf(ts[i]).Failure? {
        var i :| 0 <= i < |ts| && leaf(ts[i]).Failure?;
        if i > 0 {
          assert leaf(ts[1..][i - 1]).Failure?;
        }
      }
    }
  }

  /** Sequencing two runs of blocks: the first failure wins, else the outputs are joined. */
  function Then<B>(x: Result<seq<B>>, y: Result<seq<B>>): Result<seq<B>>
  {
    match x
    case Failure(e) => Failure(e)
    case Success(a) =>
      match y
      case Failure(e) => Failure(e)
      case Success(b) => Success(a + b)
  }

  /** A list of blocks paired with the final positions. */
  function WithPos<B>(x: Result<seq<B>>, pos: seq<nat>): Result<Run<B>>
  {
    match x
    case Failure(e) => Failure(e)
    case Success(o) => Success(Run(o, pos))
  }

  lemma {:induction false} MapAllAppend<B>(leaf: seq<nat> -> Result<B>, a: seq<seq<nat>>, b: seq<seq<nat>>)
    ensures MapAll(leaf, a + b) == Then(MapAll(leaf, a), MapAll(leaf, b))
  {
    if |a| == 0 {
      assert a + b == b;
      match MapAll(leaf, b) {
        case Failure(e) =>
        case Success(r2) => assert [] + r2 == r2;
      }
    } else {
      assert (a + b)[0] == a[0];
      assert (a + b)[1..] == a[1..] + b;
      MapAllAppend(leaf, a[1..], b);
      match leaf(a[0]) {
        case Failure(e) =>
        case Success(x) =>
          match MapAll(leaf, a[1..]) {
            case Failure(e) =>
            case Success(r1) =>
              match MapAll(leaf, b) {
                case Failure(e) =>
                case Success(r2) =>
                  assert [x] + (r1 + r2) == ([x] + r1) + r2;
              }
          }
      }
    }
  }

  lemma PrefixedAppend(pre: seq<nat>, a: seq<seq<nat>>, b: seq<seq<nat>>)
    ensures Prefixed(pre, a + b) == Prefixed(pre, a) + Prefixed(pre, b)
  {
  }

  lemma PrefixedTwice(pre: seq<nat>, x: seq<nat>, ts: seq<seq<nat>>)
    ensures Prefixed(pre, Prefixed(x, ts)) == Prefixed(pre + x, ts)
  {
    forall i | 0 <= i < |ts|
      ensures Prefixed(pre, Prefixed(x, ts))[i] == Prefixed(pre + x, ts)[i]
    {
      assert pre + (x + ts[i]) == (pre + x) + ts[i];
    }
  }

  /** Level `k` runs the innermost call on every tuple `pos[..k] + t`, `t` over the product of the remaining axes. */
  lemma {:induction false} LoopVisits<B>(ns: seq<nat>, bs: seq<nat>, leaf: seq<nat> -> Result<B>, k: nat, pos: seq<nat>)
    requires ValidBatch(ns, bs) && k <= |ns| == |pos|
    requires forall j :: k <= j < |ns| ==> pos[j] == 0
    ensures Loop(ns, bs, leaf, k, pos)
         == WithPos(MapAll(leaf, Prefixed(pos[..k], Tuples(StartLists(ns, bs)[k..]))), pos)
    decreases |ns| - k, 1, 0
  {
    var ls := StartLists(ns, bs);
    if k == |ns| {
      assert ls[k..] == [];
      assert pos[..k] == pos;
      assert Tuples(ls[k..]) == [[]];
      assert pos[..k] + [] == pos;
      assert Prefixed(pos[..k], Tuples(ls[k..])) == [pos];
      assert [pos][1..] == [];
      match leaf(pos) {
        case Failure(e) =>
        case Success(x) => assert [x] + [] == [x];
      }
    } else {
      WhileVisits(ns, bs, leaf, k, pos);
      assert ls[k..][1..] == ls[k + 1..];
      assert Tuples(ls[k..]) == Cross(Starts(ns[k], bs[k]), Tuples(ls[k + 1..]));
      assert pos[k] == 0;
      assert pos[k := 0] == pos;
    }
  }

  /** Level `k`'s loop runs the innermost call on `pos[..k] + [x] + t` for the remaining starts `x` of axis `k`. */
  lemma {:induction false} WhileVisits<B>(ns: seq<nat>, bs: seq<nat>, leaf: seq<nat> -> Result<B>, k: nat, pos: seq<nat>)
    requires ValidBatch(ns, bs) && k < |ns| == |pos|
    requires forall j :: k < j < |ns| ==> pos[j] == 0
    ensures While(ns, bs, leaf, k, pos)
         == WithPos(MapAll(leaf, Prefixed(pos[..k],
              Cross(StartsFrom(ns[k], bs[k], pos[k]), Tuples(StartLists(ns, bs)[k + 1..])))), pos[k := 0])
    decreases |ns| - k, 0, if pos[k] < ns[k] then ns[k] - pos[k] else 0
  {
    if pos[k] < ns[k] {
      var next := pos[k := pos[k] + bs[k]];
      LoopVisits(ns, bs, leaf, k + 1, pos);
      WhileVisits(ns, bs, leaf, k, next);
      WhileTurn(ns, bs, leaf, k, pos);
    }
  }

  /** The inductive step of `WhileVisits`: from the next level and the remaining turns to the whole loop. */
  lemma WhileTurn<B>(ns: seq<nat>, bs: seq<nat>, leaf: seq<nat> -> Result<B>, k: nat, pos: seq<nat>)
    requires ValidBatch(ns, bs) && k < |ns| == |pos| && pos[k] < ns[k]
    requires forall j :: k < j < |ns| ==> pos[j] == 0
    requires Loop(ns, bs, leaf, k + 1, pos)
          == WithPos(MapAll(leaf, Prefixed(pos[..k + 1], Tuples(StartLists(ns, bs)[k + 1..]))), pos)
    requires var next := pos[k := pos[k] + bs[k]];
      While(ns, bs, leaf, k, next)
      == WithPos(MapAll(leaf, Prefixed(next[..k],
           Cross(StartsFrom(ns[k], bs[k], next[k]), Tuples(StartLists(ns, bs)[k + 1..])))), next[k := 0])
    ensures While(ns, bs, leaf, k, pos)
         == WithPos(MapAll(leaf, Prefixed(pos[..k],
              Cross(StartsFrom(ns[k], bs[k], pos[k]), Tuples(StartLists(ns, bs)[k + 1..])))), pos[k := 0])
  {
    var ls := StartLists(ns, bs);
    var tail := Tuples(ls[k + 1..]);
    var xs := StartsFrom(ns[k], bs[k], pos[k]);
    var next := pos[k := pos[k] + bs[k]];
    var rest := Cross(xs[1..], tail);
    var first := MapAll(leaf, Prefixed(pos[..k + 1], tail));
    var later := MapAll(leaf, Prefixed(pos[..k], rest));
    LaterTurns(ns, bs, leaf, k, pos);
    WhileStep(ns, bs, leaf, k, pos, first, later);
    CrossFirst(pos, k, xs, tail);
    MapAllAppend(leaf, Prefixed(pos[..k + 1], tail), Prefixed(pos[..k], rest));
  }

  /** The turns after the first, restated from `pos`. */
  lemma LaterTurns<B>(ns: seq<nat>, bs: seq<nat>, leaf: seq<nat> -> Result<B>, k: nat, pos: seq<nat>)
    requires ValidBatch(ns, bs) && k < |ns| == |pos| && pos[k] < ns[k]
    requires forall j :: k < j < |ns| ==> pos[j] == 0
    requires var next := pos[k := pos[k] + bs[k]];
      While(ns, bs, leaf, k, next)
      == WithPos(MapAll(leaf, Prefixed(next[..k],
           Cross(StartsFrom(ns[k], bs[k], next[k]), Tuples(StartLists(ns, bs)[k + 1..])))), next[k := 0])
    ensures While(ns, bs, leaf, k, pos[k := pos[k] + bs[k]])
         == WithPos(MapAll(leaf, Prefixed(pos[..k],
              Cross(StartsFrom(ns[k], bs[k], pos[k])[1..], Tuples(StartLists(ns, bs)[k + 1..])))), pos[k := 0])
  {
    var next := pos[k := pos[k] + bs[k]];
    assert StartsFrom(ns[k], bs[k], pos[k])[1..] == StartsFrom(ns[k], bs[k], next[k]);
    assert next[..k] == pos[..k];
    assert next[k := 0] == pos[k := 0];
  }

  /** One turn of level `k`'s loop: the next level's blocks, then those of the remaining turns. */
  lemma WhileStep<B>(ns: seq<nat>, bs: seq<nat>, leaf: seq<nat> -> Result<B>, k: nat, pos: seq<nat>,
                     first: Result<seq<B>>, later: Result<seq<B>>)
    requires ValidBatch(ns, bs) && k < |ns| == |pos| && pos[k] < ns[k]
    requires forall j :: k < j < |ns| ==> pos[j] == 0
    requires Loop(ns, bs, leaf, k + 1, pos) == WithPos(first, pos)
    requires While(ns, bs, leaf, k, pos[k := pos[k] + bs[k]]) == WithPos(later, pos[k := 0])
    ensures While(ns, bs, leaf, k, pos) == WithPos(Then(first, later), pos[k := 0])
  {
    assert pos[k := pos[k] + bs[k]][k := 0] == pos[k := 0];
  }

  /** Prefixing `pos[..k]` to the product of `xs` and `ts`, when `xs` starts with `pos[k]`, splits off the first row. */
  lemma CrossFirst(pos: seq<nat>, k: nat, xs: seq<nat>, ts: seq<seq<nat>>)
    requires k < |pos| && |xs| > 0 && xs[0] == pos[k]
    ensures Prefixed(pos[..k], Cross(xs, ts)) == Prefixed(pos[..k + 1], ts) + Prefixed(pos[..k], Cross(xs[1..], ts))
  {
    assert pos[..k + 1] == pos[..k] + [xs[0]];
    PrefixedAppend(pos[..k], Prefixed([xs[0]], ts), Cross(xs[1..], ts));
    PrefixedTwice(pos[..k], [xs[0]], ts);
  }


  /** The whole loop runs the innermost call once per tuple of batch starts, in lexicographic order, and leaves every position at 0. */
  lemma RunLoopVisits<B>(ns: seq<nat>, bs: seq<nat>, leaf: seq<nat> -> Result<B>)
    requires ValidBatch(ns, bs)
    ensures RunLoop(ns, bs, leaf) == WithPos(MapAll(leaf, Tuples(StartLists(ns, bs))), seq(|ns|, _ => 0))
  {
    var zeros := seq(|ns|, _ => 0);
    var ls := StartLists(ns, bs);
    LoopVisits(ns, bs, leaf, 0, zeros);
    assert ls[0..] == ls;
    var ts := Tuples(ls);
    assert Prefixed(zeros[..0], ts) == ts by {
      forall i | 0 <= i < |ts|
        ensures Prefixed(zeros[..0], ts)[i] == ts[i]
      {
        assert [] + ts[i] == ts[i];
      }
    }
  }

  /** Innermost calls that agree on every tuple give the same blocks. */
  lemma {:induction false} MapAllSameLeaves<B>(leaf: seq<nat> -> Result<B>, other: seq<nat> -> Result<B>, ts: seq<seq<nat>>)
    requires forall i :: 0 <= i < |ts| ==> leaf(ts[i]) == other(ts[i])
    ensures MapAll(leaf, ts) == MapAll(other, ts)
  {
    if |ts| > 0 {
      MapAllSameLeaves(leaf, other, ts[1..]);
    }
  }

  /** Innermost calls that agree on every tuple of batch starts give the same run. */
  lemma RunLoopSameLeaves<B>(ns: seq<nat>, bs: seq<nat>, leaf: seq<nat> -> Result<B>, other: seq<nat> -> Result<B>)
    requires ValidBatch(ns, bs)
    requires forall t :: t in Tuples(StartLists(ns, bs)) ==> leaf(t) == other(t)
    ensures RunLoop(ns, bs, leaf) == RunLoop(ns, bs, other)
  {
    var ts := Tuples(StartLists(ns, bs));
    RunLoopVisits(ns, bs, leaf);
    RunLoopVisits(ns, bs, other);
    MapAllSameLeaves(leaf, other, ts);
  }

  // ---- Batch starts ----

  /** The starts from `p` are exactly the values `p + i * b` below `n`, in increasing order. */
  lemma {:induction false} StartsFromAt(n: nat, b: nat, p: nat, i: nat)
    requires b > 0 && i < |StartsFrom(n, b, p)|
    ensures StartsFrom(n, b, p)[i] == p + i * b && p + i * b < n
    decreases if p < n then n - p else 0
  {
    if i > 0 {
      StartsFromAt(n, b, p + b, i - 1);
    }
  }

  /** `x` is a start from `p` iff it lies in `[p, n)` at a multiple of `b` past `p`. */
  lemma {:induction false} StartsFromMember(n: nat, b: nat, p: nat, x: nat)
    requires b > 0
    ensures x in StartsFrom(n, b, p) <==> p <= x < n && (x - p) % b == 0
    decreases if p < n then n - p else 0
  {
    if p < n {
      StartsFromMember(n, b, p + b, x);
      assert StartsFrom(n, b, p) == [p] + StartsFrom(n, b, p + b);
      if x >= p + b {
        Arith.ModShift(x - (p + b), b);
        assert x - (p + b) + b == x - p;
      } else if p < x {
        Arith.ModSmall(x - p, b);
      }
    }
  }

  /** `x` is a batch start of an axis iff it is a cell below `n` at a multiple of `b`. */
  lemma StartsMember(n: nat, b: nat, x: nat)
    requires b > 0
    ensures x in Starts(n, b) <==> x < n && x % b == 0
  {
    StartsFromMember(n, b, 0, x);
  }

  /** Batch starts are strictly increasing, hence duplicate-free. */
  lemma StartsIncreasing(n: nat, b: nat, p: nat, i: nat, j: nat)
    requires b > 0 && i < j < |StartsFrom(n, b, p)|
    ensures StartsFrom(n, b, p)[i] < StartsFrom(n, b, p)[j]
  {
    StartsFromAt(n, b, p, i);
    StartsFromAt(n, b, p, j);
    assert i * b < j * b;
  }

  lemma StartsNoDup(n: nat, b: nat)
    requires b > 0
    ensures NoDup(Starts(n, b))
  {
    forall i, j | 0 <= i < j < |Starts(n, b)|
      ensures Starts(n, b)[i] != Starts(n, b)[j]
    {
      StartsIncreasing(n, b, 0, i, j);
    }
  }

  /** Cell `c < n` lies in the batch of the start `(c / b) * b`. */
  lemma StartOfCell(n: nat, b: nat, c: nat)
    requires b > 0 && c < n
    ensures (c / b) * b in Starts(n, b) && (c / b) * b <= c < (c / b) * b + b
  {
    var q := (c / b) * b;
    assert c == q + c % b;
    StartsMember(n, b, q);
    assert q % b == 0 by {
      Arith.DivModOfRowMajor(c / b, b, 0);
    }
  }

  /** A start whose batch holds cell `c` is `(c / b) * b`. */
  lemma StartOfCellUnique(n: nat, b: nat, c: nat, x: nat)
    requires b > 0 && c < n && x in Starts(n, b) && x <= c < x + b
    ensures x == (c / b) * b
  {
    StartsMember(n, b, x);
    var k := x / b;
    assert x == k * b by {
      assert x == k * b + x % b;
    }
    Arith.DivModOfRowMajor(k, b, c - x);
    assert c == k * b + (c - x);
  }

  /** Every cell `c < n` lies in the batch of exactly one start: `(c / b) * b`. */
  lemma StartsCover(n: nat, b: nat, c: nat, x: nat)
    requires b > 0 && c < n
    ensures (c / b) * b in Starts(n, b) && (c / b) * b <= c < (c / b) * b + b
    ensures x in Starts(n, b) && x <= c < x + b ==> x == (c / b) * b
  {
    StartOfCell(n, b, c);
    if x in Starts(n, b) && x <= c < x + b {
      StartOfCellUnique(n, b, c, x);
    }
  }

  /** The number of batches of an axis: the ceiling of `n / b`. */
  lemma StartsCount(n: nat, b: nat)
    requires b > 0
    ensures |Starts(n, b)| * b >= n && (|Starts(n, b)| == 0 || (|Starts(n, b)| - 1) * b < n)
  {
    var m := |Starts(n, b)|;
    if m > 0 {
      StartsFromAt(n, b, 0, m - 1);
    }
    StartsFromEnd(n, b, 0);
  }

  lemma {:induction false} StartsFromEnd(n: nat, b: nat, p: nat)
    requires b > 0
    ensures p + |StartsFrom(n, b, p)| * b >= n
    decreases if p < n then n - p else 0
  {
    if p < n {
      StartsFromEnd(n, b, p + b);
      Arith.MulPred(|StartsFrom(n, b, p)|, b);
    }
  }

  // ---- Tuples ----

  /** A tuple is in `Cross(xs, ts)` iff its head is in `xs` and its tail in `ts`. */
  lemma {:induction false} CrossMember(xs: seq<nat>, ts: seq<seq<nat>>, t: seq<nat>)
    ensures t in Cross(xs, ts) <==> |t| > 0 && t[0] in xs && t[1..] in ts
  {
    if |xs| > 0 {
      CrossMember(xs[1..], ts, t);
      var first := Prefixed([xs[0]], ts);
      if t in first {
        var i :| 0 <= i < |first| && first[i] == t;
        assert t[1..] == ts[i];
      }
      if |t| > 0 && t[0] == xs[0] && t[1..] in ts {
        var i :| 0 <= i < |ts| && ts[i] == t[1..];
        assert t == [xs[0]] + ts[i];
        assert first[i] == t;
      }
      if |t| > 0 && t[0] in xs && t[0] != xs[0] {
        assert t[0] in xs[1..];
      }
    }
  }

  /** A tuple is in the product iff it has one entry per list, each from its list. */
  lemma {:induction false} TuplesMember(ls: seq<seq<nat>>, t: seq<nat>)
    ensures t in Tuples(ls) <==> |t| == |ls| && forall d :: 0 <= d < |ls| ==> t[d] in ls[d]
  {
    if |ls| == 0 {
      assert t in [[]] <==> t == [];
    } else {
      CrossMember(ls[0], Tuples(ls[1..]), t);
      if |t| > 0 {
        TuplesMember(ls[1..], t[1..]);
        if |t| == |ls| && forall d :: 0 <= d < |ls| ==> t[d] in ls[d] {
          forall d | 0 <= d < |ls[1..]|
            ensures t[1..][d] in ls[1..][d]
          {
            assert t[d + 1] in ls[d + 1];
          }
        }
        if t[0] in ls[0] && t[1..] in Tuples(ls[1..]) {
          forall d | 0 <= d < |ls|
            ensures t[d] in ls[d]
          {
            if d > 0 {
              assert t[1..][d - 1] in ls[1..][d - 1];
            }
          }
        }
      }
    }
  }

  /** Every tuple of the product has one entry per list. */
  lemma TuplesLength(ls: seq<seq<nat>>, i: nat)
    requires i < |Tuples(ls)|
    ensures |Tuples(ls)[i]| == |ls|
  {
    TuplesMember(ls, Tuples(ls)[i]);
  }

  /** Products of duplicate-free lists are duplicate-free. */
  lemma {:induction false} CrossNoDup(xs: seq<nat>, ts: seq<seq<nat>>)
    requires NoDup(xs) && NoDup(ts)
    ensures NoDup(Cross(xs, ts))
  {
    if |xs| > 0 {
      assert NoDup(xs[1..]) by {
        forall i, j | 0 <= i < j < |xs[1..]|
          ensures xs[1..][i] != xs[1..][j]
        {
          assert xs[1..][i] == xs[i + 1] && xs[1..][j] == xs[j + 1];
        }
      }
      CrossNoDup(xs[1..], ts);
      var first := Prefixed([xs[0]], ts);
      var rest := Cross(xs[1..], ts);
      assert NoDup(first) by {
        forall i, j | 0 <= i < j < |first|
          ensures first[i] != first[j]
        {
          assert first[i][1..] == ts[i] && first[j][1..] == ts[j];
        }
      }
      forall i, j | 0 <= i < |first| && 0 <= j < |rest|
        ensures first[i] != rest[j]
      {
        CrossMember(xs[1..], ts, rest[j]);
        assert rest[j][0] in xs[1..];
        assert first[i][0] == xs[0];
      }
      var c := first + rest;
      forall i, j | 0 <= i < j < |c|
        ensures c[i] != c[j]
      {
        if j < |first| {
        } else if i >= |first| {
          assert c[i] == rest[i - |first|] && c[j] == rest[j - |first|];
        } else {
          assert c[j] == rest[j - |first|];
        }
      }
    }
  }

  lemma {:induction false} TuplesNoDup(ls: seq<seq<nat>>)
    requires forall d :: 0 <= d < |ls| ==> NoDup(ls[d])
    ensures NoDup(Tuples(ls))
  {
    if |ls| > 0 {
      TuplesNoDup(ls[1..]);
      CrossNoDup(ls[0], Tuples(ls[1..]));
    }
  }

  /** Lexicographic order on tuples of equal length. */
  predicate LexLess(a: seq<nat>, b: seq<nat>)
    requires |a| == |b|
  {
    |a| > 0 && (a[0] < b[0] || (a[0] == b[0] && LexLess(a[1..], b[1..])))
  }

  /** A sequence of tuples in strictly increasing lexicographic order. */
  predicate LexSorted(ts: seq<seq<nat>>)
  {
    forall i, j :: 0 <= i < j < |ts| ==> |ts[i]| == |ts[j]| && LexLess(ts[i], ts[j])
  }

  /** A sequence strictly increasing in value. */
  predicate Increasing(xs: seq<nat>)
  {
    forall i, j :: 0 <= i < j < |xs| ==> xs[i] < xs[j]
  }

  lemma {:induction false} CrossSorted(xs: seq<nat>, ts: seq<seq<nat>>, m: nat)
    requires Increasing(xs) && LexSorted(ts)
    requires forall i :: 0 <= i < |ts| ==> |ts[i]| == m
    ensures LexSorted(Cross(xs, ts))
    ensures forall i :: 0 <= i < |Cross(xs, ts)| ==> |Cross(xs, ts)[i]| == m + 1
    ensures forall i :: 0 <= i < |Cross(xs, ts)| ==> Cross(xs, ts)[i][0] in xs
  {
    if |xs| > 0 {
      CrossSorted(xs[1..], ts, m);
      var first := Prefixed([xs[0]], ts);
      var rest := Cross(xs[1..], ts);
      var c := first + rest;
      forall i | 0 <= i < |c|
        ensures |c[i]| == m + 1 && c[i][0] in xs
      {
        if i >= |first| {
          assert c[i] == rest[i - |first|];
          assert rest[i - |first|][0] in xs[1..];
        }
      }
      forall i, j | 0 <= i < j < |c|
        ensures |c[i]| == |c[j]| && LexLess(c[i], c[j])
      {
        if j < |first| {
          assert c[i][1..] == ts[i] && c[j][1..] == ts[j];
        } else if i >= |first| {
          assert c[i] == rest[i - |first|] && c[j] == rest[j - |first|];
        } else {
          assert c[j] == rest[j - |first|];
          var y := c[j][0];
          assert y in xs[1..];
          var k :| 0 <= k < |xs[1..]| && xs[1..][k] == y;
          assert xs[0] < xs[k + 1];
        }
      }
    }
  }

  lemma {:induction false} TuplesSorted(ls: seq<seq<nat>>)
    requires forall d :: 0 <= d < |ls| ==> Increasing(ls[d])
    ensures LexSorted(Tuples(ls))
    ensures forall i :: 0 <= i < |Tuples(ls)| ==> |Tuples(ls)[i]| == |ls|
  {
    if |ls| > 0 {
      TuplesSorted(ls[1..]);
      CrossSorted(ls[0], Tuples(ls[1..]), |ls| - 1);
    }
  }

  /**
   * The innermost call runs on the tuples of batch starts in strictly increasing
   * lexicographic order, each once; a tuple is visited iff every entry is a
   * multiple of its axis' batch size below the axis' cell count.
   */
  lemma VisitOrder(ns: seq<nat>, bs: seq<nat>)
    requires ValidBatch(ns, bs)
    ensures LexSorted(Tuples(StartLists(ns, bs)))
    ensures NoDup(Tuples(StartLists(ns, bs)))
    ensures forall t :: t in Tuples(StartLists(ns, bs)) <==>
      |t| == |ns| && forall d :: 0 <= d < |ns| ==> t[d] < ns[d] && t[d] % bs[d] == 0
  {
    var ls := StartLists(ns, bs);
    forall d | 0 <= d < |ls|
      ensures Increasing(ls[d]) && NoDup(ls[d])
    {
      forall i, j | 0 <= i < j < |ls[d]|
        ensures ls[d][i] < ls[d][j]
      {
        StartsIncreasing(ns[d], bs[d], 0, i, j);
      }
      StartsNoDup(ns[d], bs[d]);
    }
    TuplesSorted(ls);
    TuplesNoDup(ls);
    forall t
      ensures t in Tuples(ls) <==>
        |t| == |ns| && forall d :: 0 <= d < |ns| ==> t[d] < ns[d] && t[d] % bs[d] == 0
    {
      TuplesMember(ls, t);
      if |t| == |ns| {
        forall d | 0 <= d < |ns|
          ensures t[d] in ls[d] <==> t[d] < ns[d] && t[d] % bs[d] == 0
        {
          StartsMember(ns[d], bs[d], t[d]);
        }
      }
    }
  }

  /** No axis without cells: the loop reaches the innermost call iff every axis has a cell. */
  lemma {:induction false} TuplesEmpty(ls: seq<seq<nat>>)
    ensures |Tuples(ls)| == 0 <==> exists d :: 0 <= d < |ls| && |ls[d]| == 0
  {
    if |ls| > 0 {
      TuplesEmpty(ls[1..]);
      CrossLength(ls[0], Tuples(ls[1..]));
      if |Tuples(ls[1..])| == 0 {
        var d :| 0 <= d < |ls[1..]| && |ls[1..][d]| == 0;
        assert |ls[d + 1]| == 0;
      }
      if exists d :: 0 <= d < |ls| && |ls[d]| == 0 {
        var d :| 0 <= d < |ls| && |ls[d]| == 0;
        if d > 0 {
          assert |ls[1..][d - 1]| == 0;
        }
      }
    }
  }

  lemma {:induction false} CrossLength(xs: seq<nat>, ts: seq<seq<nat>>)
    ensures |Cross(xs, ts)| == |xs| * |ts|
  {
    if |xs| > 0 {
      CrossLength(xs[1..], ts);
      Arith.MulPred(|xs|, |ts|);
    }
  }
}
