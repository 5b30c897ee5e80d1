/**
 * `repeat_args` of `numerical/utils/interpolation.py`: the cartesian product of
 * per-axis argument tables along the last axis. Argument `d` is a
 * `rows x cnt[d]` matrix (one row per query point, one column per node of axis
 * `d`); every output is `rows x (cnt[0] * ... )`, and column `c` of output `d`
 * holds the column of argument `d` that the row-major node index `c` selects on
 * axis `d`. The outputs are the components of the result's new leading axis.
 */
module InterpolationUtils {
  import opened Wrappers
  import opened Arith
  import opened Arrays
  import opened LinAlg

  /** `repeat_args(args, nodes_count)`. */
  function RepeatLast(args: seq<Matrix>, cnt: seq<nat>): (r: Result<seq<Matrix>>)
    ensures r.Failure? <==> |args| == 0 || |args| > 3 || (|args| > 1 && |cnt| < |args|)
    ensures r.Failure? ==> r.error == if |args| == 0 || |args| > 3 then ValueError else IndexError
    ensures r.Success? ==> |r.value| == |args|
    ensures |args| == 1 ==> r == Success(args)
  {
    if |args| == 1 then Success(args)
    else if |args| == 2 then
      if |cnt| < 2 then Failure(IndexError)
      else
        var d1 := RepeatCols(args[0], cnt[1]);
        var d2 := Tile2(args[1], 1, cnt[0]);
        Success([d1, d2])
    else if |args| == 3 then
      if |cnt| < 3 then Failure(IndexError)
      else
        var d1 := RepeatCols(args[0], cnt[1] * cnt[2]);
        var d2 := RepeatCols(Tile2(args[1], 1, cnt[0]), cnt[2]);
        var d3 := Tile2(args[2], 1, cnt[0] * cnt[1]);
        Success([d1, d2, d3])
    else Failure(ValueError)
  }

  /**
   * Two axes: both outputs are `rows x (n0 * n1)`, and column `i * n1 + j` pairs
   * column `i` of the first argument with column `j` of the second, row by row.
   */
  lemma RepeatLast2Product(a: Matrix, b: Matrix, rows: nat, n0: nat, n1: nat, r: nat, i: nat, j: nat)
    requires IsShape(a, rows, n0) && IsShape(b, rows, n1)
    requires r < rows && i < n0 && j < n1
    ensures RepeatLast([a, b], [n0, n1]).Success?
    ensures var out := RepeatLast([a, b], [n0, n1]).value;
      && IsShape(out[0], rows, n0 * n1) && IsShape(out[1], rows, n0 * n1)
      && Flat(i, n1, j) < n0 * n1
      && out[0][r][Flat(i, n1, j)] == a[r][i]
      && out[1][r][Flat(i, n1, j)] == b[r][j]
  {
    RepeatColsShape(a, rows, n0, n1);
    RepeatDigits(a[r], n1, i, j);
    Tile2Digits(b, rows, n1, 1, n0, 0, r, i, j);
    Tile2Shape(b, rows, n1, 1, n0);
    assert n1 * n0 == n0 * n1;
  }

  /**
   * Three axes: all outputs are `rows x (n0 * n1 * n2)`, and column
   * `(i * n1 + j) * n2 + m` takes column `i`, `j` and `m` of the three arguments:
   * a full product, with no index shared between axes.
   */
  lemma RepeatLast3Product(a: Matrix, b: Matrix, z: Matrix, rows: nat, n0: nat, n1: nat, n2: nat,
                           r: nat, i: nat, j: nat, m: nat)
    requires IsShape(a, rows, n0) && IsShape(b, rows, n1) && IsShape(z, rows, n2)
    requires r < rows && i < n0 && j < n1 && m < n2
    ensures RepeatLast([a, b, z], [n0, n1, n2]).Success?
    ensures var out := RepeatLast([a, b, z], [n0, n1, n2]).value;
      && IsShape(out[0], rows, n0 * n1 * n2) && IsShape(out[1], rows, n0 * n1 * n2)
      && IsShape(out[2], rows, n0 * n1 * n2)
      && Flat(Flat(i, n1, j), n2, m) < n0 * n1 * n2
      && out[0][r][Flat(Flat(i, n1, j), n2, m)] == a[r][i]
      && out[1][r][Flat(Flat(i, n1, j), n2, m)] == b[r][j]
      && out[2][r][Flat(Flat(i, n1, j), n2, m)] == z[r][m]
  {
    var c := Flat(Flat(i, n1, j), n2, m);
    MulAssoc(n0, n1, n2);
    assert (n1 * n0) * n2 == n0 * n1 * n2;
    FlatBelow(i, n1, j, n0);
    FlatBelow(Flat(i, n1, j), n2, m, n0 * n1);
    // first axis: each column of `a` repeated `n1 * n2` times
    FlatNest(i, n1, j, n2, m);
    FlatBelow(j, n2, m, n1);
    RepeatColsShape(a, rows, n0, n1 * n2);
    RepeatDigits(a[r], n1 * n2, i, Flat(j, n2, m));
    // second axis: `b` tiled `n0` times, then each column repeated `n2` times
    var t := Tile2(b, 1, n0);
    Tile2Shape(b, rows, n1, 1, n0);
    Tile2Digits(b, rows, n1, 1, n0, 0, r, i, j);
    RepeatColsShape(t, rows, n0 * n1, n2);
    RepeatDigits(t[r], n2, Flat(i, n1, j), m);
    // third axis: `z` tiled `n0 * n1` times
    Tile2Shape(z, rows, n2, 1, n0 * n1);
    Tile2Digits(z, rows, n2, 1, n0 * n1, 0, r, Flat(i, n1, j), m);
  }

  /** Entry `(r, c)` of `out` exists and is entry `(r, k)` of `arg`. */
  predicate Picks(out: Matrix, arg: Matrix, r: nat, c: nat, k: nat)
  {
    r < |out| && c < |out[r]| && At(arg, r, k, out[r][c])
  }

  /**
   * For one to three axes with `cnt` the column counts, every output is
   * `rows x Size(cnt)` and entry `(r, c)` of output `d` is entry
   * `(r, Unravel(cnt, c)[d])` of argument `d`.
   */
  lemma RepeatLastAt(args: seq<Matrix>, cnt: seq<nat>, rows: nat, r: nat, c: nat)
    requires 1 <= |args| <= 3 && |cnt| == |args|
    requires forall d :: 0 <= d < |args| ==> IsShape(args[d], rows, cnt[d])
    requires r < rows && c < Size(cnt)
    ensures RepeatLast(args, cnt).Success?
    ensures var out := RepeatLast(args, cnt).value; var ks := Unravel(cnt, c);
      forall d :: 0 <= d < |args| ==> IsShape(out[d], rows, Size(cnt)) && Picks(out[d], args[d], r, c, ks[d])
  {
    if |args| == 1 {
      Size1(cnt);
      RowMajor1(cnt, Unravel(cnt, c));
    } else if |args| == 2 {
      RepeatLastAtTwo(args, cnt, rows, r, c);
    } else {
      RepeatLastAtThree(args, cnt, rows, r, c);
    }
  }

  lemma RepeatLastAtTwo(args: seq<Matrix>, cnt: seq<nat>, rows: nat, r: nat, c: nat)
    requires |args| == 2 && |cnt| == 2
    requires IsShape(args[0], rows, cnt[0]) && IsShape(args[1], rows, cnt[1])
    requires r < rows && c < Size(cnt)
    ensures RepeatLast(args, cnt).Success?
    ensures var out := RepeatLast(args, cnt).value; var ks := Unravel(cnt, c);
      forall d :: 0 <= d < 2 ==> IsShape(out[d], rows, Size(cnt)) && Picks(out[d], args[d], r, c, ks[d])
  {
    var ks := Unravel(cnt, c);
    Size2(cnt);
    RowMajor2(cnt, ks);
    assert args == [args[0], args[1]] && cnt == [cnt[0], cnt[1]];
    RepeatLast2Product(args[0], args[1], rows, cnt[0], cnt[1], r, ks[0], ks[1]);
  }

  lemma RepeatLastAtThree(args: seq<Matrix>, cnt: seq<nat>, rows: nat, r: nat, c: nat)
    requires |args| == 3 && |cnt| == 3
    requires IsShape(args[0], rows, cnt[0]) && IsShape(args[1], rows, cnt[1]) && IsShape(args[2], rows, cnt[2])
    requires r < rows && c < Size(cnt)
    ensures RepeatLast(args, cnt).Success?
    ensures var out := RepeatLast(args, cnt).value; var ks := Unravel(cnt, c);
      forall d :: 0 <= d < 3 ==> IsShape(out[d], rows, Size(cnt)) && Picks(out[d], args[d], r, c, ks[d])
  {
    var ks := Unravel(cnt, c);
    var n0, n1, n2 := cnt[0], cnt[1], cnt[2];
    assert c == Flat(Flat(ks[0], n1, ks[1]), n2, ks[2]) by { RowMajor3(cnt, ks); }
    assert Size(cnt) == n0 * n1 * n2 by { Size3(cnt); }
    assert args == [args[0], args[1], args[2]] && cnt == [n0, n1, n2];
    RepeatLast3Product(args[0], args[1], args[2], rows, n0, n1, n2, r, ks[0], ks[1], ks[2]);
  }

  /** For one to three axes of `rows` points each, every output is `rows x Size(cnt)`. */
  lemma RepeatLastShape(args: seq<Matrix>, cnt: seq<nat>, rows: nat)
    requires 1 <= |args| <= 3 && |cnt| == |args|
    requires forall d :: 0 <= d < |args| ==> IsShape(args[d], rows, cnt[d])
    ensures RepeatLast(args, cnt).Success?
    ensures forall d :: 0 <= d < |args| ==> IsShape(RepeatLast(args, cnt).value[d], rows, Size(cnt))
  {
    if |args| == 1 {
      Size1(cnt);
    } else if |args| == 2 {
      RepeatLastShape2(args, cnt, rows);
    } else {
      RepeatLastShape3(args, cnt, rows);
    }
  }

  lemma RepeatLastShape2(args: seq<Matrix>, cnt: seq<nat>, rows: nat)
    requires |args| == 2 && |cnt| == 2
    requires IsShape(args[0], rows, cnt[0]) && IsShape(args[1], rows, cnt[1])
    ensures RepeatLast(args, cnt).Success?
    ensures forall d :: 0 <= d < 2 ==> IsShape(RepeatLast(args, cnt).value[d], rows, Size(cnt))
  {
    var n0, n1 := cnt[0], cnt[1];
    var out := RepeatLast(args, cnt).value;
    assert Size(cnt) == n0 * n1 by { Size2(cnt); }
    assert out == RepeatLast([args[0], args[1]], [n0, n1]).value by {
      assert args == [args[0], args[1]] && cnt == [n0, n1];
    }
    RepeatLastShapeOf2(args[0], args[1], rows, n0, n1);
    assert IsShape(out[0], rows, Size(cnt)) && IsShape(out[1], rows, Size(cnt));
  }

  lemma RepeatLastShapeOf2(a: Matrix, b: Matrix, rows: nat, n0: nat, n1: nat)
    requires IsShape(a, rows, n0) && IsShape(b, rows, n1)
    ensures RepeatLast([a, b], [n0, n1]).Success?
    ensures var out := RepeatLast([a, b], [n0, n1]).value;
      IsShape(out[0], rows, n0 * n1) && IsShape(out[1], rows, n0 * n1)
  {
    RepeatColsShape(a, rows, n0, n1);
    Tile2Shape(b, rows, n1, 1, n0);
    assert n1 * n0 == n0 * n1;
  }

  lemma RepeatLastShape3(args: seq<Matrix>, cnt: seq<nat>, rows: nat)
    requires |args| == 3 && |cnt| == 3
    requires IsShape(args[0], rows, cnt[0]) && IsShape(args[1], rows, cnt[1]) && IsShape(args[2], rows, cnt[2])
    ensures RepeatLast(args, cnt).Success?
    ensures forall d :: 0 <= d < 3 ==> IsShape(RepeatLast(args, cnt).value[d], rows, Size(cnt))
  {
    Size3(cnt);
    var n0, n1, n2 := cnt[0], cnt[1], cnt[2];
    var out := RepeatLast(args, cnt).value;
    assert out == RepeatLast([args[0], args[1], args[2]], [n0, n1, n2]).value by {
      assert args == [args[0], args[1], args[2]] && cnt == [n0, n1, n2];
    }
    RepeatLastShapeOf3(args[0], args[1], args[2], rows, n0, n1, n2, Size(cnt));
  }

  lemma RepeatLastShapeOf3(a: Matrix, b: Matrix, z: Matrix, rows: nat, n0: nat, n1: nat, n2: nat, size: nat)
    requires IsShape(a, rows, n0) && IsShape(b, rows, n1) && IsShape(z, rows, n2)
    requires size == n0 * n1 * n2
    ensures RepeatLast([a, b, z], [n0, n1, n2]).Success?
    ensures var out := RepeatLast([a, b, z], [n0, n1, n2]).value;
      IsShape(out[0], rows, size) && IsShape(out[1], rows, size) && IsShape(out[2], rows, size)
  {
    MulAssoc(n0, n1, n2);
    RepeatColsShape(a, rows, n0, n1 * n2);
    Tile2Shape(b, rows, n1, 1, n0);
    assert n1 * n0 == n0 * n1;
    RepeatColsShape(Tile2(b, 1, n0), rows, n0 * n1, n2);
    Tile2Shape(z, rows, n2, 1, n0 * n1);
    assert n2 * (n0 * n1) == n0 * n1 * n2;
  }
}
