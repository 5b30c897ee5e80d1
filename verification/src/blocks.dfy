/**
 * The cells a batched quadrature sweep visits. A cell of a grid with `ns[d]` cells
 * on axis `d` is a multi-index; the sweep of `numerical/integration/gauss.py`
 * visits, for every start tuple `t`, the box of cells from `t[d]` up to
 * `t[d] + bs[d]` (cut at `ns[d]`), row-major inside the box.
 */
module Blocks {
  import opened Arith
  import opened Seqs
  import opened Arrays
  import opened LinAlg
  import opened BatchLoop

  /** Number of cells a batch starting at `p` holds on an axis of `n` cells: `len(sum[p:p + b])`. */
  function Span(n: nat, b: nat, p: nat): nat
  {
    if p < n then Min(p + b, n) - p else 0
  }

  /** Per-axis spans of the batch starting at the tuple `t`. */
  function Counts(ns: seq<nat>, bs: seq<nat>, t: seq<nat>): (cnt: seq<nat>)
    requires |t| == |ns| <= |bs|
    ensures |cnt| == |ns|
    ensures forall d :: 0 <= d < |ns| ==> cnt[d] == Span(ns[d], bs[d], t[d])
  {
    seq(|ns|, d requires 0 <= d < |ns| => Span(ns[d], bs[d], t[d]))
  }

  /** The cell at offset `ks` from the corner `t`. */
  function Shift(t: seq<nat>, ks: seq<nat>): (c: seq<nat>)
    requires |t| == |ks|
    ensures |c| == |t|
    ensures forall d :: 0 <= d < |t| ==> c[d] == t[d] + ks[d]
  {
    seq(|t|, d requires 0 <= d < |t| => t[d] + ks[d])
  }

  /** The cells of the batch starting at `t`, in the row-major order of the batch. */
  function Box(ns: seq<nat>, bs: seq<nat>, t: seq<nat>): seq<seq<nat>>
  {
    if |t| == |ns| <= |bs| then
      var cnt := Counts(ns, bs, t);
      seq(Size(cnt), r requires 0 <= r < Size(cnt) => Shift(t, Unravel(cnt, r)))
    else []
  }

  /** Every cell of the grid, in row-major order. */
  function AllCells(ns: seq<nat>): seq<seq<nat>>
  {
    seq(Size(ns), r requires 0 <= r < Size(ns) => Unravel(ns, r))
  }

  /** The batches of the sweep, in visiting order. */
  function Boxes(ns: seq<nat>, bs: seq<nat>): seq<seq<seq<nat>>>
    requires ValidBatch(ns, bs)
  {
    var ts := Tuples(StartLists(ns, bs));
    seq(|ts|, i requires 0 <= i < |ts| => Box(ns, bs, ts[i]))
  }

  /** The row-major listing holds every valid multi-index and nothing else. */
  lemma AllCellsMember(ns: seq<nat>, c: seq<nat>)
    ensures c in AllCells(ns) <==> IsIndex(ns, c)
  {
    if IsIndex(ns, c) {
      RowMajorInside(ns, c);
      var r := RowMajor(ns, c);
      RowMajorInjective(ns, c, Unravel(ns, r));
      assert AllCells(ns)[r] == c;
    }
  }

  /** No cell is listed twice. */
  lemma AllCellsNoDup(ns: seq<nat>)
    ensures NoDup(AllCells(ns))
  {
    var a := AllCells(ns);
    forall i, j | 0 <= i < j < |a|
      ensures a[i] != a[j]
    {
      assert RowMajor(ns, a[i]) == i && RowMajor(ns, a[j]) == j;
    }
  }

  /** `c` lies inside the batch starting at `t`, axis by axis. */
  predicate InBox(ns: seq<nat>, bs: seq<nat>, t: seq<nat>, c: seq<nat>)
    requires |t| == |ns| <= |bs|
  {
    |c| == |ns| && forall d :: 0 <= d < |ns| ==> t[d] <= c[d] < t[d] + Span(ns[d], bs[d], t[d])
  }

  /** `t` is a start tuple of the sweep: every entry a multiple of its batch size below the cell count. */
  predicate IsStart(ns: seq<nat>, bs: seq<nat>, t: seq<nat>)
    requires ValidBatch(ns, bs)
  {
    |t| == |ns| && forall d :: 0 <= d < |ns| ==> t[d] < ns[d] && t[d] % bs[d] == 0
  }

  /** The start tuples the loop visits are exactly the `IsStart` tuples. */
  lemma StartMember(ns: seq<nat>, bs: seq<nat>, t: seq<nat>)
    requires ValidBatch(ns, bs)
    ensures t in Tuples(StartLists(ns, bs)) <==> IsStart(ns, bs, t)
    ensures NoDup(Tuples(StartLists(ns, bs)))
  {
    VisitOrder(ns, bs);
  }

  /** A batch holds exactly the cells inside its per-axis ranges. */
  lemma BoxMember(ns: seq<nat>, bs: seq<nat>, t: seq<nat>, c: seq<nat>)
    requires |t| == |ns| <= |bs|
    ensures c in Box(ns, bs, t) <==> InBox(ns, bs, t, c)
  {
    if c in Box(ns, bs, t) {
      var r :| 0 <= r < |Box(ns, bs, t)| && Box(ns, bs, t)[r] == c;
      BoxRowInBox(ns, bs, t, r);
    }
    if InBox(ns, bs, t, c) {
      InBoxIsRow(ns, bs, t, c);
    }
  }

  /** Every row of a batch lies inside the batch's ranges. */
  lemma BoxRowInBox(ns: seq<nat>, bs: seq<nat>, t: seq<nat>, r: nat)
    requires |t| == |ns| <= |bs| && r < |Box(ns, bs, t)|
    ensures InBox(ns, bs, t, Box(ns, bs, t)[r])
  {
    var cnt := Counts(ns, bs, t);
    var ks := Unravel(cnt, r);
    assert Box(ns, bs, t)[r] == Shift(t, ks);
  }

  /** A cell inside the batch's ranges is the row its offsets from the corner flatten to. */
  lemma InBoxIsRow(ns: seq<nat>, bs: seq<nat>, t: seq<nat>, c: seq<nat>)
    requires |t| == |ns| <= |bs| && InBox(ns, bs, t, c)
    ensures c in Box(ns, bs, t)
  {
    var cnt := Counts(ns, bs, t);
    var ks := seq(|ns|, d requires 0 <= d < |ns| => c[d] - t[d]);
    assert IsIndex(cnt, ks);
    RowMajorInside(cnt, ks);
    var r := RowMajor(cnt, ks);
    RowMajorInjective(cnt, ks, Unravel(cnt, r));
    assert Shift(t, ks) == c by {
      assert forall d :: 0 <= d < |c| ==> Shift(t, ks)[d] == c[d];
    }
    assert Box(ns, bs, t)[r] == c;
  }

  /** No cell is listed twice inside a batch. */
  lemma BoxNoDup(ns: seq<nat>, bs: seq<nat>, t: seq<nat>)
    ensures NoDup(Box(ns, bs, t))
  {
    var a := Box(ns, bs, t);
    if |t| == |ns| <= |bs| {
      var cnt := Counts(ns, bs, t);
      forall i, j | 0 <= i < j < |a|
        ensures a[i] != a[j]
      {
        var ki, kj := Unravel(cnt, i), Unravel(cnt, j);
        assert ki != kj;
        var d :| 0 <= d < |ns| && ki[d] != kj[d];
        assert a[i][d] != a[j][d];
      }
    }
  }

  /** On one axis: the start below a cell, rounded down to the batch size, holds the cell. */
  lemma SpanCover(n: nat, b: nat, c: nat)
    requires b > 0 && c < n
    ensures (c / b) * b < n && ((c / b) * b) % b == 0
    ensures (c / b) * b <= c < (c / b) * b + Span(n, b, (c / b) * b)
  {
    StartsCover(n, b, c, 0);
    StartsMember(n, b, (c / b) * b);
  }

  /** On one axis: at most one start holds a given cell. */
  lemma SpanUnique(n: nat, b: nat, c: nat, p: nat)
    requires b > 0 && p < n && p % b == 0
    requires p <= c < p + Span(n, b, p)
    ensures p == (c / b) * b
  {
    StartsMember(n, b, p);
    StartsCover(n, b, c, p);
  }

  /** The corner of cell `c` rounded down, axis by axis, to a multiple of the batch size. */
  function Corner(ns: seq<nat>, bs: seq<nat>, c: seq<nat>): (t: seq<nat>)
    requires ValidBatch(ns, bs) && |c| == |ns|
    ensures |t| == |ns|
    ensures forall d :: 0 <= d < |ns| ==> t[d] == (c[d] / bs[d]) * bs[d]
  {
    seq(|ns|, d requires 0 <= d < |ns| => (c[d] / bs[d]) * bs[d])
  }

  /** A cell belongs to the batch whose start tuple is its corner rounded down to the batch size. */
  lemma CellInSweep(ns: seq<nat>, bs: seq<nat>, c: seq<nat>)
    requires ValidBatch(ns, bs) && IsIndex(ns, c)
    ensures IsStart(ns, bs, Corner(ns, bs, c)) && InBox(ns, bs, Corner(ns, bs, c), c)
  {
    var t := Corner(ns, bs, c);
    forall d | 0 <= d < |ns|
      ensures t[d] < ns[d] && t[d] % bs[d] == 0
      ensures t[d] <= c[d] < t[d] + Span(ns[d], bs[d], t[d])
    {
      SpanCover(ns[d], bs[d], c[d]);
    }
  }

  /** A cell lies in at most one batch of the sweep. */
  lemma SweepDisjoint(ns: seq<nat>, bs: seq<nat>, t: seq<nat>, u: seq<nat>, c: seq<nat>)
    requires ValidBatch(ns, bs)
    requires IsStart(ns, bs, t) && IsStart(ns, bs, u)
    requires InBox(ns, bs, t, c) && InBox(ns, bs, u, c)
    ensures t == u
  {
    forall d | 0 <= d < |ns|
      ensures t[d] == u[d]
    {
      SpanUnique(ns[d], bs[d], c[d], t[d]);
      SpanUnique(ns[d], bs[d], c[d], u[d]);
    }
  }

  /** Every cell of a batch of the sweep is a cell of the grid. */
  lemma SweepInside(ns: seq<nat>, bs: seq<nat>, t: seq<nat>, c: seq<nat>)
    requires ValidBatch(ns, bs)
    requires IsStart(ns, bs, t) && InBox(ns, bs, t, c)
    ensures IsIndex(ns, c)
  {
    forall d | 0 <= d < |ns|
      ensures c[d] < ns[d]
    {
      assert c[d] < t[d] + Span(ns[d], bs[d], t[d]);
    }
  }

  /** Two different batches of the sweep share no cell. */
  lemma SweepBoxesDisjoint(ns: seq<nat>, bs: seq<nat>, i: nat, j: nat, x: seq<nat>)
    requires ValidBatch(ns, bs)
    requires i < j < |Boxes(ns, bs)| && x in Boxes(ns, bs)[i]
    ensures x !in Boxes(ns, bs)[j]
  {
    var ts := Tuples(StartLists(ns, bs));
    StartMember(ns, bs, ts[i]);
    StartMember(ns, bs, ts[j]);
    BoxMember(ns, bs, ts[i], x);
    BoxMember(ns, bs, ts[j], x);
    if x in Boxes(ns, bs)[j] {
      SweepDisjoint(ns, bs, ts[i], ts[j], x);
    }
  }

  /** Every grid cell is in the batch of the sweep that starts at its rounded-down corner. */
  lemma SweepHolds(ns: seq<nat>, bs: seq<nat>, x: seq<nat>)
    requires ValidBatch(ns, bs) && IsIndex(ns, x)
    ensures exists i :: 0 <= i < |Boxes(ns, bs)| && x in Boxes(ns, bs)[i]
  {
    var ts := Tuples(StartLists(ns, bs));
    CellInSweep(ns, bs, x);
    var t := Corner(ns, bs, x);
    StartMember(ns, bs, t);
    BoxMember(ns, bs, t, x);
    var i :| 0 <= i < |ts| && ts[i] == t;
    assert x in Boxes(ns, bs)[i];
  }

  /** A cell is in some batch of the sweep iff it is a cell of the grid. */
  lemma SweepMember(ns: seq<nat>, bs: seq<nat>, x: seq<nat>)
    requires ValidBatch(ns, bs)
    ensures x in Concat(Boxes(ns, bs)) <==> IsIndex(ns, x)
  {
    var ts := Tuples(StartLists(ns, bs));
    var bx := Boxes(ns, bs);
    ConcatMember(bx, x);
    if x in Concat(bx) {
      var i :| 0 <= i < |bx| && x in bx[i];
      StartMember(ns, bs, ts[i]);
      BoxMember(ns, bs, ts[i], x);
      SweepInside(ns, bs, ts[i], x);
    }
    if IsIndex(ns, x) {
      SweepHolds(ns, bs, x);
    }
  }

  /** The batches of a sweep, put end to end, list every cell of the grid exactly once. */
  lemma SweepCovers(ns: seq<nat>, bs: seq<nat>)
    requires ValidBatch(ns, bs)
    ensures multiset(Concat(Boxes(ns, bs))) == multiset(AllCells(ns))
  {
    var bx := Boxes(ns, bs);
    forall i | 0 <= i < |bx|
      ensures NoDup(bx[i])
    {
      BoxNoDup(ns, bs, Tuples(StartLists(ns, bs))[i]);
    }
    forall i, j, x | 0 <= i < j < |bx| && x in bx[i]
      ensures x !in bx[j]
    {
      SweepBoxesDisjoint(ns, bs, i, j, x);
    }
    ConcatNoDup(bx);
    AllCellsNoDup(ns);
    forall x
      ensures x in Concat(bx) <==> x in AllCells(ns)
    {
      SweepMember(ns, bs, x);
      AllCellsMember(ns, x);
    }
    NoDupSameMembers(Concat(bx), AllCells(ns));
  }

  /** Row `r` of the batch at a start tuple is the corner shifted by the row-major digits of `r`, a grid cell. */
  lemma BoxAt(ns: seq<nat>, bs: seq<nat>, t: seq<nat>, r: nat)
    requires ValidBatch(ns, bs) && IsStart(ns, bs, t)
    requires r < Size(Counts(ns, bs, t))
    ensures |Box(ns, bs, t)| == Size(Counts(ns, bs, t))
    ensures Box(ns, bs, t)[r] == Shift(t, Unravel(Counts(ns, bs, t), r))
    ensures IsIndex(ns, Box(ns, bs, t)[r])
  {
    BoxMember(ns, bs, t, Box(ns, bs, t)[r]);
    SweepInside(ns, bs, t, Box(ns, bs, t)[r]);
  }

  /** Row `r` of the batch at `t` is the cell `cell`. */
  predicate BoxRow(ns: seq<nat>, bs: seq<nat>, t: seq<nat>, r: nat, cell: seq<nat>)
  {
    r < |Box(ns, bs, t)| && Box(ns, bs, t)[r] == cell
  }

  /** Row `r` of a batch is its corner shifted by the multi-index `r` unravels to. */
  lemma BoxRowAt(ns: seq<nat>, bs: seq<nat>, t: seq<nat>, r: nat, ks: seq<nat>)
    requires |t| == |ns| <= |bs|
    requires r < Size(Counts(ns, bs, t)) && Unravel(Counts(ns, bs, t), r) == ks
    ensures BoxRow(ns, bs, t, r, Shift(t, ks))
  {
  }

  /** `BoxRowAt` for one axis, with the shifted corner written out. */
  lemma BoxRowAt1(ns: seq<nat>, bs: seq<nat>, t: seq<nat>, r: nat, i: nat)
    requires |t| == |ns| == 1 <= |bs|
    requires r < Size(Counts(ns, bs, t)) && Unravel(Counts(ns, bs, t), r) == [i]
    ensures BoxRow(ns, bs, t, r, [t[0] + i])
  {
    BoxRowAt(ns, bs, t, r, [i]);
    ShiftAt1(t, i);
  }

  /** `BoxRowAt` for two axes, with the shifted corner written out. */
  lemma BoxRowAt2(ns: seq<nat>, bs: seq<nat>, t: seq<nat>, r: nat, i: nat, j: nat)
    requires |t| == |ns| == 2 <= |bs|
    requires r < Size(Counts(ns, bs, t)) && Unravel(Counts(ns, bs, t), r) == [i, j]
    ensures BoxRow(ns, bs, t, r, [t[0] + i, t[1] + j])
  {
    BoxRowAt(ns, bs, t, r, [i, j]);
    ShiftAt2(t, i, j);
  }

  /** `BoxRowAt` for three axes, with the shifted corner written out. */
  lemma BoxRowAt3(ns: seq<nat>, bs: seq<nat>, t: seq<nat>, r: nat, i: nat, j: nat, m: nat)
    requires |t| == |ns| == 3 <= |bs|
    requires r < Size(Counts(ns, bs, t)) && Unravel(Counts(ns, bs, t), r) == [i, j, m]
    ensures BoxRow(ns, bs, t, r, [t[0] + i, t[1] + j, t[2] + m])
  {
    BoxRowAt(ns, bs, t, r, [i, j, m]);
    ShiftAt3(t, i, j, m);
  }

  /** A cell inside the span of a batch lies inside the axis. */
  lemma SpanInside(n: nat, b: nat, p: nat, i: nat)
    requires i < Span(n, b, p)
    ensures p + i < n
  {
  }

  /** One axis: row `i` of the batch at `t` is the grid cell `t[0] + i`. */
  lemma BoxCell1(ns: seq<nat>, bs: seq<nat>, t: seq<nat>, i: nat)
    requires |t| == |ns| == 1 <= |bs| && i < Counts(ns, bs, t)[0]
    ensures BoxRow(ns, bs, t, i, [t[0] + i]) && IsIndex(ns, [t[0] + i])
  {
    var cnt := Counts(ns, bs, t);
    UnravelAt1(cnt, i);
    BoxRowAt1(ns, bs, t, i, i);
    SpanInside(ns[0], bs[0], t[0], i);
  }

  /** Two axes: row `i * cnt[1] + j` of the batch at `t` is the grid cell `[t[0] + i, t[1] + j]`. */
  lemma BoxCell2(ns: seq<nat>, bs: seq<nat>, t: seq<nat>, i: nat, j: nat)
    requires |t| == |ns| == 2 <= |bs| && i < Counts(ns, bs, t)[0] && j < Counts(ns, bs, t)[1]
    ensures BoxRow(ns, bs, t, Flat(i, Counts(ns, bs, t)[1], j), [t[0] + i, t[1] + j])
    ensures IsIndex(ns, [t[0] + i, t[1] + j])
  {
    var cnt := Counts(ns, bs, t);
    UnravelAt2(cnt, i, j);
    BoxRowAt2(ns, bs, t, Flat(i, cnt[1], j), i, j);
    SpanInside(ns[0], bs[0], t[0], i);
    SpanInside(ns[1], bs[1], t[1], j);
  }

  /** Three axes: row `(i * cnt[1] + j) * cnt[2] + m` of the batch at `t` is the grid cell `[t[0] + i, t[1] + j, t[2] + m]`. */
  lemma BoxCell3(ns: seq<nat>, bs: seq<nat>, t: seq<nat>, i: nat, j: nat, m: nat)
    requires |t| == |ns| == 3 <= |bs|
    requires i < Counts(ns, bs, t)[0] && j < Counts(ns, bs, t)[1] && m < Counts(ns, bs, t)[2]
    ensures var cnt := Counts(ns, bs, t);
      BoxRow(ns, bs, t, Flat(Flat(i, cnt[1], j), cnt[2], m), [t[0] + i, t[1] + j, t[2] + m])
    ensures IsIndex(ns, [t[0] + i, t[1] + j, t[2] + m])
  {
    var cnt := Counts(ns, bs, t);
    UnravelAt3(cnt, i, j, m);
    BoxRowAt3(ns, bs, t, Flat(Flat(i, cnt[1], j), cnt[2], m), i, j, m);
    SpanInside(ns[0], bs[0], t[0], i);
    SpanInside(ns[1], bs[1], t[1], j);
    SpanInside(ns[2], bs[2], t[2], m);
  }

  /** A batch lists `Size(cnt)` cells. */
  lemma BoxLength(ns: seq<nat>, bs: seq<nat>, t: seq<nat>)
    requires |t| == |ns| <= |bs|
    ensures |Box(ns, bs, t)| == Size(Counts(ns, bs, t))
  {
  }

  /** One axis: a table whose row `i` holds `g` of cell `t[0] + i` is `g` over the batch. */
  lemma TableIsBox1(ns: seq<nat>, bs: seq<nat>, t: seq<nat>, g: seq<nat> -> real, vals: seq<real>)
    requires |t| == |ns| == 1 <= |bs|
    requires var cnt := Counts(ns, bs, t);
      && |vals| == Size(cnt)
      && forall i: nat :: i < cnt[0] ==> i < |vals| && vals[i] == g([t[0] + i])
    ensures vals == MapSeq(Box(ns, bs, t), g)
  {
    var cnt := Counts(ns, bs, t);
    Size1(cnt);
    BoxLength(ns, bs, t);
    forall r | 0 <= r < |vals|
      ensures vals[r] == g(Box(ns, bs, t)[r])
    {
      BoxCell1(ns, bs, t, r);
    }
  }

  /** Two axes: a table whose row `i * cnt[1] + j` holds `g` of cell `[t[0] + i, t[1] + j]` is `g` over the batch. */
  lemma TableIsBox2(ns: seq<nat>, bs: seq<nat>, t: seq<nat>, g: seq<nat> -> real, vals: seq<real>)
    requires |t| == |ns| == 2 <= |bs|
    requires var cnt := Counts(ns, bs, t);
      && |vals| == Size(cnt)
      && forall i: nat, j: nat :: i < cnt[0] && j < cnt[1] ==>
           Flat(i, cnt[1], j) < |vals| && vals[Flat(i, cnt[1], j)] == g([t[0] + i, t[1] + j])
    ensures vals == MapSeq(Box(ns, bs, t), g)
  {
    var cnt := Counts(ns, bs, t);
    Size2(cnt);
    BoxLength(ns, bs, t);
    forall r | 0 <= r < |vals|
      ensures vals[r] == g(Box(ns, bs, t)[r])
    {
      var i, j := Split(r, cnt[0], cnt[1]);
      BoxCell2(ns, bs, t, i, j);
    }
  }

  /** Three axes: the table of row `(i * cnt[1] + j) * cnt[2] + m` holding `g` of the shifted cell is `g` over the batch. */
  lemma TableIsBox3(ns: seq<nat>, bs: seq<nat>, t: seq<nat>, g: seq<nat> -> real, vals: seq<real>)
    requires |t| == |ns| == 3 <= |bs|
    requires var cnt := Counts(ns, bs, t);
      && |vals| == Size(cnt)
      && forall i: nat, j: nat, m: nat :: i < cnt[0] && j < cnt[1] && m < cnt[2] ==>
           Flat(Flat(i, cnt[1], j), cnt[2], m) < |vals| &&
           vals[Flat(Flat(i, cnt[1], j), cnt[2], m)] == g([t[0] + i, t[1] + j, t[2] + m])
    ensures vals == MapSeq(Box(ns, bs, t), g)
  {
    BoxLength(ns, bs, t);
    forall r | 0 <= r < |vals|
      ensures vals[r] == g(Box(ns, bs, t)[r])
    {
      var i, j, m := BoxDigits3(ns, bs, t, r);
    }
  }

  /** Three axes: row `r` of the batch at `t` by its digits `i, j, m`. */
  lemma BoxDigits3(ns: seq<nat>, bs: seq<nat>, t: seq<nat>, r: nat) returns (i: nat, j: nat, m: nat)
    requires |t| == |ns| == 3 <= |bs| && r < Size(Counts(ns, bs, t))
    ensures var cnt := Counts(ns, bs, t);
      && i < cnt[0] && j < cnt[1] && m < cnt[2]
      && r == Flat(Flat(i, cnt[1], j), cnt[2], m)
      && BoxRow(ns, bs, t, r, [t[0] + i, t[1] + j, t[2] + m])
  {
    var cnt := Counts(ns, bs, t);
    Size3(cnt);
    var ij;
    ij, m := Split(r, cnt[0] * cnt[1], cnt[2]);
    i, j := Split(ij, cnt[0], cnt[1]);
    BoxCell3(ns, bs, t, i, j, m);
  }

  /** The corner `t` shifted by one offset. */
  lemma ShiftAt1(t: seq<nat>, i: nat)
    requires |t| == 1
    ensures Shift(t, [i]) == [t[0] + i]
  {
  }

  /** The corner `t` shifted by two offsets. */
  lemma ShiftAt2(t: seq<nat>, i: nat, j: nat)
    requires |t| == 2
    ensures Shift(t, [i, j]) == [t[0] + i, t[1] + j]
  {
  }

  /** The corner `t` shifted by three offsets. */
  lemma ShiftAt3(t: seq<nat>, i: nat, j: nat, m: nat)
    requires |t| == 3
    ensures Shift(t, [i, j, m]) == [t[0] + i, t[1] + j, t[2] + m]
  {
  }
}
