/**
 * `repeat_args` of `numerical/integration/utils.py`: the sample block of one leaf
 * of the quadrature loop. Argument `d` is a `cnt[d] x n` matrix of points on axis
 * `d` (one row per cell, one column per root); the result pairs every cell tuple
 * (rows) with root tuples (columns).
 */
module IntegrationUtils {
  import opened Wrappers
  import opened Arith
  import opened Arrays

  /** `repeat_args(f_args, n_roots, cnt_reps)`, as written. */
  function RepeatArgs(args: seq<Matrix>, n: nat, cnt: seq<nat>): (r: Result<seq<Matrix>>)
    ensures r.Failure? <==> |args| == 0 || |args| > 3 || (|args| > 1 && |cnt| < |args|)
    ensures r.Failure? ==> r.error == if |args| == 0 || |args| > 3 then ValueError else IndexError
    ensures r.Success? ==> |r.value| == |args|
    ensures |args| == 1 ==> r == Success(args)
  {
    if |args| == 1 then Success(args)
    else if |args| == 2 then
      if |cnt| < 2 then Failure(IndexError)
      else
        var xx := Repeat(RepeatCols(args[0], n), cnt[1]);
        var yy := Tile2(args[1], cnt[0], n);
        Success([xx, yy])
    else if |args| == 3 then
      if |cnt| < 3 then Failure(IndexError)
      else
        var xx := Repeat(RepeatCols(args[0], n * n), cnt[1] * cnt[2]);
        var yy := Repeat(Tile2(args[1], cnt[0], n * n), cnt[2]);
        var zz := Tile2(args[2], cnt[0] * cnt[1], n * n);
        Success([xx, yy, zz])
    else Failure(ValueError)
  }

  /**
   * Two axes: both outputs are `(c0 * c1) x (n * n)`; entry `(r, c)` takes cell
   * `r / c1` and root `c / n` on the first axis, cell `r % c1` and root `c % n`
   * on the second.
   */
  lemma RepeatArgs2At(a: Matrix, b: Matrix, n: nat, c0: nat, c1: nat, r: nat, c: nat)
    requires IsShape(a, c0, n) && IsShape(b, c1, n)
    requires r < c0 * c1 && c < n * n
    ensures RepeatArgs([a, b], n, [c0, c1]).Success?
    ensures var out := RepeatArgs([a, b], n, [c0, c1]).value;
      && IsShape(out[0], c0 * c1, n * n) && IsShape(out[1], c0 * c1, n * n)
      && c1 > 0 && n > 0 && r / c1 < c0 && c / n < n && r % c1 < c1 && c % n < n
      && out[0][r][c] == a[r / c1][c / n]
      && out[1][r][c] == b[r % c1][c % n]
  {
    var wide := RepeatCols(a, n);
    RepeatColsShape(a, c0, n, n);
    RepeatRowsAt(wide, c0, n * n, c1, r, c);
    RepeatColsAt(a, c0, n, n, r / c1, c);
    Tile2At(b, c1, n, c0, n, r, c);
  }

  /** Two axes, by cell pair `(i, j)` and root pair `(k, l)`: a full cartesian product. */
  lemma RepeatArgs2Product(a: Matrix, b: Matrix, n: nat, c0: nat, c1: nat, i: nat, j: nat, k: nat, l: nat)
    requires IsShape(a, c0, n) && IsShape(b, c1, n)
    requires i < c0 && j < c1 && k < n && l < n
    ensures RepeatArgs([a, b], n, [c0, c1]).Success?
    ensures var out := RepeatArgs([a, b], n, [c0, c1]).value;
      && |out| == 2 && IsShape(out[0], c0 * c1, n * n) && IsShape(out[1], c0 * c1, n * n)
      && At(out[0], Flat(i, c1, j), Flat(k, n, l), a[i][k])
      && At(out[1], Flat(i, c1, j), Flat(k, n, l), b[j][l])
  {
    RowMajorBelow(i, j, c0, c1);
    RowMajorBelow(k, l, n, n);
    DivModOfRowMajor(i, c1, j);
    DivModOfRowMajor(k, n, l);
    RepeatArgs2At(a, b, n, c0, c1, i * c1 + j, k * n + l);
  }

  /**
   * Three axes: all outputs are `(c0 * c1 * c2) x (n * n * n)`; entry `(r, c)` takes
   * cell `r / (c1 * c2)` and root `c / (n * n)` on the first axis, cell
   * `(r / c2) % c1` on the second and `r % c2` on the third, and root `c % n` on
   * BOTH the second and the third axis.
   */
  lemma RepeatArgs3At(a: Matrix, b: Matrix, z: Matrix, n: nat, c0: nat, c1: nat, c2: nat, r: nat, c: nat)
    requires IsShape(a, c0, n) && IsShape(b, c1, n) && IsShape(z, c2, n)
    requires r < c0 * c1 * c2 && c < n * n * n
    ensures RepeatArgs([a, b, z], n, [c0, c1, c2]).Success?
    ensures var out := RepeatArgs([a, b, z], n, [c0, c1, c2]).value;
      && IsShape(out[0], c0 * c1 * c2, n * n * n)
      && IsShape(out[1], c0 * c1 * c2, n * n * n)
      && IsShape(out[2], c0 * c1 * c2, n * n * n)
      && c1 > 0 && c2 > 0 && n > 0
      && r / (c1 * c2) < c0 && c / (n * n) < n && r / c2 % c1 < c1 && r % c2 < c2 && c % n < n
      && out[0][r][c] == a[r / (c1 * c2)][c / (n * n)]
      && out[1][r][c] == b[r / c2 % c1][c % n]
      && out[2][r][c] == z[r % c2][c % n]
  {
    MulAssoc(c0, c1, c2);
    MulAssoc(n, n, n);
    RepeatBothAt(a, c0, n, n * n, c1 * c2, r, c);
    RepeatTileAt(b, c1, n, c0, n * n, c2, r, c);
    Tile2At(z, c2, n, c0 * c1, n * n, r, c);
  }

  /**
   * Three axes, by cell triple `(i, j, m)` and root triple `(k, l, o)`, both in
   * row-major order: the first and third axes take their own cell and root, but the
   * second axis takes root `o` instead of `l`.
   */
  lemma RepeatArgs3Product(a: Matrix, b: Matrix, z: Matrix, n: nat, c0: nat, c1: nat, c2: nat,
                           i: nat, j: nat, m: nat, k: nat, l: nat, o: nat)
    requires IsShape(a, c0, n) && IsShape(b, c1, n) && IsShape(z, c2, n)
    requires i < c0 && j < c1 && m < c2 && k < n && l < n && o < n
    ensures RepeatArgs([a, b, z], n, [c0, c1, c2]).Success?
    ensures var out := RepeatArgs([a, b, z], n, [c0, c1, c2]).value;
      var row, col := Flat(Flat(i, c1, j), c2, m), Flat(Flat(k, n, l), n, o);
      && |out| == 3
      && IsShape(out[0], c0 * c1 * c2, n * n * n)
      && IsShape(out[1], c0 * c1 * c2, n * n * n)
      && IsShape(out[2], c0 * c1 * c2, n * n * n)
      && At(out[0], row, col, a[i][k])
      && At(out[1], row, col, b[j][o])
      && At(out[2], row, col, z[m][o])
  {
    FirstOf3(a, n, c0, c1, c2, i, j, m, k, l, o);
    RowMajorBelow(k, l, n, n);
    RepeatTileDigits(b, c1, n, c0, n * n, c2, i, j, m, k * n + l, o);
    RowMajorBelow(i, j, c0, c1);
    Tile2Digits(z, c2, n, c0 * c1, n * n, i * c1 + j, m, k * n + l, o);
  }

  /** The first output of the three-axis block at cell triple `(i, j, m)` and root triple `(k, l, o)`. */
  lemma FirstOf3(a: Matrix, n: nat, c0: nat, c1: nat, c2: nat, i: nat, j: nat, m: nat, k: nat, l: nat, o: nat)
    requires IsShape(a, c0, n) && i < c0 && j < c1 && m < c2 && k < n && l < n && o < n
    ensures var xx := Repeat(RepeatCols(a, n * n), c1 * c2);
      var row, col := (i * c1 + j) * c2 + m, (k * n + l) * n + o;
      && IsShape(xx, c0 * c1 * c2, n * n * n)
      && 0 <= row < c0 * c1 * c2 && 0 <= col < n * n * n
      && xx[row][col] == a[i][k]
  {
    RowMajorBelow(j, m, c1, c2);
    RowMajorBelow(k, l, n, n);
    assert (i * c1 + j) * c2 + m == i * (c1 * c2) + (j * c2 + m);
    MulAssoc(c0, c1, c2);
    RepeatColsTwice(a, n, n);
    RepeatColsShape(a, c0, n, n);
    RepeatBothDigits(RepeatCols(a, n), c0, n * n, n, c1 * c2, i, j * c2 + m, k * n + l, o);
    RepeatDigits(a[i], n, k, l);
  }

  /**
   * The repetition that makes a full product in three axes: the second axis
   * takes root `(c / n) % n`, matching the weight product.
   */
  function RepeatArgsCorrected(args: seq<Matrix>, n: nat, cnt: seq<nat>): (r: Result<seq<Matrix>>)
    ensures |args| != 3 ==> r == RepeatArgs(args, n, cnt)
    ensures r.Success? <==> RepeatArgs(args, n, cnt).Success?
  {
    if |args| == 3 && |cnt| >= 3 then
      var xx := Repeat(RepeatCols(args[0], n * n), cnt[1] * cnt[2]);
      var yy := Repeat(Tile2(RepeatCols(args[1], n), cnt[0], n), cnt[2]);
      var zz := Tile2(args[2], cnt[0] * cnt[1], n * n);
      Success([xx, yy, zz])
    else RepeatArgs(args, n, cnt)
  }

  /** The corrected three-axis block pairs cells `(i, j, m)` with roots `(k, l, o)` exactly. */
  lemma RepeatArgsCorrected3Product(a: Matrix, b: Matrix, z: Matrix, n: nat, c0: nat, c1: nat, c2: nat,
                                    i: nat, j: nat, m: nat, k: nat, l: nat, o: nat)
    requires IsShape(a, c0, n) && IsShape(b, c1, n) && IsShape(z, c2, n)
    requires i < c0 && j < c1 && m < c2 && k < n && l < n && o < n
    ensures RepeatArgsCorrected([a, b, z], n, [c0, c1, c2]).Success?
    ensures var out := RepeatArgsCorrected([a, b, z], n, [c0, c1, c2]).value;
      var row, col := Flat(Flat(i, c1, j), c2, m), Flat(Flat(k, n, l), n, o);
      && |out| == 3
      && IsShape(out[0], c0 * c1 * c2, n * n * n)
      && IsShape(out[1], c0 * c1 * c2, n * n * n)
      && IsShape(out[2], c0 * c1 * c2, n * n * n)
      && At(out[0], row, col, a[i][k])
      && At(out[1], row, col, b[j][l])
      && At(out[2], row, col, z[m][o])
  {
    RepeatArgs3Product(a, b, z, n, c0, c1, c2, i, j, m, k, l, o);
    SecondCorrected3(b, n, c0, c1, c2, i, j, m, k, l, o);
  }

  /** The corrected second output: cell `j` and root `l` at cell triple `(i, j, m)` and root triple `(k, l, o)`. */
  lemma SecondCorrected3(b: Matrix, n: nat, c0: nat, c1: nat, c2: nat, i: nat, j: nat, m: nat, k: nat, l: nat, o: nat)
    requires IsShape(b, c1, n) && i < c0 && j < c1 && m < c2 && k < n && l < n && o < n
    ensures var yy := Repeat(Tile2(RepeatCols(b, n), c0, n), c2);
      var row, col := (i * c1 + j) * c2 + m, (k * n + l) * n + o;
      && IsShape(yy, c0 * c1 * c2, n * n * n)
      && 0 <= row < c0 * c1 * c2 && 0 <= col < n * n * n
      && yy[row][col] == b[j][l]
  {
    RepeatColsShape(b, c1, n, n);
    RowMajorBelow(l, o, n, n);
    assert (k * n + l) * n + o == k * (n * n) + (l * n + o);
    MulAssoc(n, n, n);
    RepeatTileDigits(RepeatCols(b, n), c1, n * n, c0, n, c2, i, j, m, k, l * n + o);
    RepeatDigits(b[j], n, l, o);
  }

  /** Two axes, for an argument list `args` and counts `cnt`: the full product of `RepeatArgs2Product`. */
  lemma ArgsDigits2(args: seq<Matrix>, n: nat, cnt: seq<nat>, i: nat, j: nat, k: nat, l: nat, x0: real, x1: real)
    requires |args| == 2 && |cnt| == 2
    requires IsShape(args[0], cnt[0], n) && IsShape(args[1], cnt[1], n)
    requires j < cnt[1] && l < n
    requires At(args[0], i, k, x0) && At(args[1], j, l, x1)
    ensures RepeatArgs(args, n, cnt).Success?
    ensures var out := RepeatArgs(args, n, cnt).value;
      var row, col := Flat(i, cnt[1], j), Flat(k, n, l);
      && |out| == 2
      && At(out[0], row, col, x0)
      && At(out[1], row, col, x1)
  {
    assert args == [args[0], args[1]] && cnt == [cnt[0], cnt[1]];
    RepeatArgs2Product(args[0], args[1], n, cnt[0], cnt[1], i, j, k, l);
  }

  /**
   * Three axes, for an argument list `args` and counts `cnt`: the block as written
   * (`tied`) takes root `o` on the second axis, the corrected one root `l`.
   */
  lemma ArgsDigits3(args: seq<Matrix>, n: nat, cnt: seq<nat>, tied: bool,
                    i: nat, j: nat, m: nat, k: nat, l: nat, o: nat, x0: real, x1: real, x2: real)
    requires |args| == 3 && |cnt| == 3
    requires IsShape(args[0], cnt[0], n) && IsShape(args[1], cnt[1], n) && IsShape(args[2], cnt[2], n)
    requires j < cnt[1] && l < n
    requires At(args[0], i, k, x0) && At(args[1], j, if tied then o else l, x1) && At(args[2], m, o, x2)
    ensures var r := if tied then RepeatArgs(args, n, cnt) else RepeatArgsCorrected(args, n, cnt);
      r.Success? &&
      var out, row, col := r.value, Flat(Flat(i, cnt[1], j), cnt[2], m), Flat(Flat(k, n, l), n, o);
      && |out| == 3
      && At(out[0], row, col, x0)
      && At(out[1], row, col, x1)
      && At(out[2], row, col, x2)
  {
    assert args == [args[0], args[1], args[2]] && cnt == [cnt[0], cnt[1], cnt[2]];
    if tied {
      RepeatArgs3Product(args[0], args[1], args[2], n, cnt[0], cnt[1], cnt[2], i, j, m, k, l, o);
    } else {
      RepeatArgsCorrected3Product(args[0], args[1], args[2], n, cnt[0], cnt[1], cnt[2], i, j, m, k, l, o);
    }
  }

  /** Two axes: both blocks, as written and corrected, are `(c0 * c1) x (n * n)`. */
  lemma RepeatArgsShape2(a: Matrix, b: Matrix, n: nat, c0: nat, c1: nat)
    requires IsShape(a, c0, n) && IsShape(b, c1, n)
    ensures RepeatArgs([a, b], n, [c0, c1]).Success?
    ensures RepeatArgsCorrected([a, b], n, [c0, c1]) == RepeatArgs([a, b], n, [c0, c1])
    ensures var out := RepeatArgs([a, b], n, [c0, c1]).value;
      IsShape(out[0], c0 * c1, n * n) && IsShape(out[1], c0 * c1, n * n)
  {
    RepeatColsShape(a, c0, n, n);
    RepeatRowsShape(RepeatCols(a, n), c0, n * n, c1);
    Tile2Shape(b, c1, n, c0, n);
  }

  /** Three axes: all three blocks, as written and corrected, are `(c0 * c1 * c2) x (n * n * n)`. */
  lemma RepeatArgsShape3(a: Matrix, b: Matrix, z: Matrix, n: nat, c0: nat, c1: nat, c2: nat)
    requires IsShape(a, c0, n) && IsShape(b, c1, n) && IsShape(z, c2, n)
    ensures RepeatArgs([a, b, z], n, [c0, c1, c2]).Success?
    ensures RepeatArgsCorrected([a, b, z], n, [c0, c1, c2]).Success?
    ensures var out := RepeatArgs([a, b, z], n, [c0, c1, c2]).value;
      IsShape(out[0], c0 * c1 * c2, n * n * n) && IsShape(out[1], c0 * c1 * c2, n * n * n)
      && IsShape(out[2], c0 * c1 * c2, n * n * n)
    ensures var out := RepeatArgsCorrected([a, b, z], n, [c0, c1, c2]).value;
      IsShape(out[0], c0 * c1 * c2, n * n * n) && IsShape(out[1], c0 * c1 * c2, n * n * n)
      && IsShape(out[2], c0 * c1 * c2, n * n * n)
  {
    MulAssoc(c0, c1, c2);
    MulAssoc(n, n, n);
    RepeatColsShape(a, c0, n, n * n);
    RepeatRowsShape(RepeatCols(a, n * n), c0, n * (n * n), c1 * c2);
    Tile2Shape(b, c1, n, c0, n * n);
    RepeatRowsShape(Tile2(b, c0, n * n), c0 * c1, n * n * n, c2);
    Tile2Shape(z, c2, n, c0 * c1, n * n);
    RepeatColsShape(b, c1, n, n);
    Tile2Shape(RepeatCols(b, n), c1, n * n, c0, n);
    RepeatRowsShape(Tile2(RepeatCols(b, n), c0, n), c0 * c1, n * n * n, c2);
  }
}
