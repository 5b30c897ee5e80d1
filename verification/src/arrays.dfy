/**
 * The NumPy array operations the quadrature and interpolation code relies on:
 * `np.repeat`, `np.tile` and Python slicing, on sequences and on matrices
 * stored as sequences of rows.
 */
module Arrays {
  import opened Arith
  import opened Seqs

  /** A matrix as a sequence of rows. */
  type Matrix = seq<seq<real>>

  /** Every row of `a` has `cols` entries and there are `rows` of them. */
  predicate IsShape(a: Matrix, rows: nat, cols: nat)
  {
    |a| == rows && forall i :: 0 <= i < |a| ==> |a[i]| == cols
  }

  /** Entry `(r, c)` of `m` exists and is `x`. */
  predicate At(m: Matrix, r: int, c: int, x: real)
  {
    0 <= r < |m| && 0 <= c < |m[r]| && m[r][c] == x
  }

  /** `k` copies of every element of `s`, one part per element. */
  function RepeatParts<T>(s: seq<T>, k: nat): seq<seq<T>>
  {
    seq(|s|, i requires 0 <= i < |s| => seq(k, _ => s[i]))
  }

  /** `np.repeat(s, k)` along the first axis: each element `k` times in a row. */
  function Repeat<T>(s: seq<T>, k: nat): seq<T>
  {
    Concat(RepeatParts(s, k))
  }

  /** `k` copies of the whole of `s`. */
  function TileParts<T>(s: seq<T>, k: nat): seq<seq<T>>
  {
    seq(k, _ => s)
  }

  /** The whole of `s`, `k` times over (`np.tile` along one axis). */
  function Tile<T>(s: seq<T>, k: nat): seq<T>
  {
    Concat(TileParts(s, k))
  }

  /** Position `c` of `Repeat(s, k)` holds `s[c / k]`. */
  lemma RepeatAt<T>(s: seq<T>, k: nat, c: nat)
    requires c < |s| * k
    ensures |Repeat(s, k)| == |s| * k
    ensures k > 0 && c / k < |s| && Repeat(s, k)[c] == s[c / k]
  {
    var i, j := Split(c, |s|, k);
    RepeatDigits(s, k, i, j);
  }

  /** `Repeat(s, k)` has `|s| * k` elements. */
  lemma RepeatLength<T>(s: seq<T>, k: nat)
    ensures |Repeat(s, k)| == |s| * k
  {
    ConcatUniformLength(RepeatParts(s, k), k);
  }

  /** Position `c` of `Tile(s, k)` holds `s[c % |s|]`. */
  lemma TileAt<T>(s: seq<T>, k: nat, c: nat)
    requires c < k * |s|
    ensures |Tile(s, k)| == k * |s|
    ensures |s| > 0 && Tile(s, k)[c] == s[c % |s|]
  {
    var u, j := Split(c, k, |s|);
    TileDigits(s, k, u, j);
  }

  /** `Tile(s, k)` has `k * |s|` elements. */
  lemma TileLength<T>(s: seq<T>, k: nat)
    ensures |Tile(s, k)| == k * |s|
  {
    ConcatUniformLength(TileParts(s, k), |s|);
  }

  /** `np.repeat(a, k, axis=1)`: every column `k` times in a row. */
  function RepeatCols(a: Matrix, k: nat): Matrix
  {
    seq(|a|, i requires 0 <= i < |a| => Repeat(a[i], k))
  }

  /** `np.tile(a, (p, q))` of a matrix: `q` copies side by side, `p` copies stacked. */
  function Tile2(a: Matrix, p: nat, q: nat): Matrix
  {
    Tile(seq(|a|, i requires 0 <= i < |a| => Tile(a[i], q)), p)
  }

  /** Entry `(r, c)` of `np.repeat(a, k, axis=1)` is `a[r][c / k]`. */
  lemma RepeatColsAt(a: Matrix, rows: nat, cols: nat, k: nat, r: nat, c: nat)
    requires IsShape(a, rows, cols) && r < rows && c < cols * k
    ensures IsShape(RepeatCols(a, k), rows, cols * k)
    ensures k > 0 && c / k < cols && RepeatCols(a, k)[r][c] == a[r][c / k]
  {
    forall i | 0 <= i < rows
      ensures |RepeatCols(a, k)[i]| == cols * k
    {
      RepeatLength(a[i], k);
    }
    RepeatAt(a[r], k, c);
  }

  /** The shape of `np.repeat(a, k, axis=1)`. */
  lemma RepeatColsShape(a: Matrix, rows: nat, cols: nat, k: nat)
    requires IsShape(a, rows, cols)
    ensures IsShape(RepeatCols(a, k), rows, cols * k)
  {
    forall i | 0 <= i < rows
      ensures |RepeatCols(a, k)[i]| == cols * k
    {
      RepeatLength(a[i], k);
    }
  }

  /** Entry `(r, c)` of `np.repeat(a, k, axis=0)` is `a[r / k][c]`. */
  lemma RepeatRowsAt(a: Matrix, rows: nat, cols: nat, k: nat, r: nat, c: nat)
    requires IsShape(a, rows, cols) && r < rows * k && c < cols
    ensures IsShape(Repeat(a, k), rows * k, cols)
    ensures k > 0 && r / k < rows && Repeat(a, k)[r][c] == a[r / k][c]
  {
    RepeatRowsShape(a, rows, cols, k);
    RepeatAt(a, k, r);
  }

  /** The shape of `np.repeat(a, k, axis=0)`. */
  lemma RepeatRowsShape(a: Matrix, rows: nat, cols: nat, k: nat)
    requires IsShape(a, rows, cols)
    ensures IsShape(Repeat(a, k), rows * k, cols)
  {
    RepeatLength(a, k);
    forall r | 0 <= r < rows * k
      ensures |Repeat(a, k)[r]| == cols
    {
      RepeatAt(a, k, r);
    }
  }

  /** The shape of `np.tile(a, (p, q))`. */
  lemma Tile2Shape(a: Matrix, rows: nat, cols: nat, p: nat, q: nat)
    requires IsShape(a, rows, cols)
    ensures IsShape(Tile2(a, p, q), p * rows, q * cols)
  {
    var wide := seq(|a|, i requires 0 <= i < |a| => Tile(a[i], q));
    TileLength(wide, p);
    forall r | 0 <= r < p * rows
      ensures |Tile2(a, p, q)[r]| == q * cols
    {
      TileAt(wide, p, r);
      TileLength(a[r % rows], q);
    }
  }

  /** Entry `(r, c)` of `np.tile(a, (p, q))` is `a[r % rows][c % cols]`. */
  lemma Tile2At(a: Matrix, rows: nat, cols: nat, p: nat, q: nat, r: nat, c: nat)
    requires IsShape(a, rows, cols) && r < p * rows && c < q * cols
    ensures IsShape(Tile2(a, p, q), p * rows, q * cols)
    ensures rows > 0 && cols > 0 && Tile2(a, p, q)[r][c] == a[r % rows][c % cols]
  {
    Tile2Shape(a, rows, cols, p, q);
    var wide := seq(|a|, i requires 0 <= i < |a| => Tile(a[i], q));
    TileAt(wide, p, r);
    TileAt(a[r % rows], q, c);
  }

  /** Entry `(r, c)` of `np.repeat(np.repeat(a, w, axis=1), k, axis=0)` is `a[r / k][c / w]`. */
  lemma RepeatBothAt(a: Matrix, rows: nat, cols: nat, w: nat, k: nat, r: nat, c: nat)
    requires IsShape(a, rows, cols) && r < rows * k && c < cols * w
    ensures IsShape(Repeat(RepeatCols(a, w), k), rows * k, cols * w)
    ensures k > 0 && w > 0 && r / k < rows && c / w < cols
    ensures Repeat(RepeatCols(a, w), k)[r][c] == a[r / k][c / w]
  {
    RepeatColsShape(a, rows, cols, w);
    RepeatRowsAt(RepeatCols(a, w), rows, cols * w, k, r, c);
    RepeatColsAt(a, rows, cols, w, r / k, c);
  }

  /** Entry `(r, c)` of `np.repeat(np.tile(a, (p, q)), k, axis=0)` is `a[(r / k) % rows][c % cols]`. */
  lemma RepeatTileAt(a: Matrix, rows: nat, cols: nat, p: nat, q: nat, k: nat, r: nat, c: nat)
    requires IsShape(a, rows, cols) && r < p * rows * k && c < q * cols
    ensures IsShape(Repeat(Tile2(a, p, q), k), p * rows * k, q * cols)
    ensures k > 0 && rows > 0 && cols > 0 && (r / k) % rows < rows && c % cols < cols
    ensures Repeat(Tile2(a, p, q), k)[r][c] == a[(r / k) % rows][c % cols]
  {
    Tile2Shape(a, rows, cols, p, q);
    RepeatRowsAt(Tile2(a, p, q), p * rows, q * cols, k, r, c);
    Tile2At(a, rows, cols, p, q, r / k, c);
  }

  /** `np.repeat(s, k)` by digits: copy `t` of element `i` sits at `i * k + t`. */
  lemma RepeatDigits<T>(s: seq<T>, k: nat, i: nat, t: nat)
    requires i < |s| && t < k
    ensures |Repeat(s, k)| == |s| * k
    ensures i * k + t < |Repeat(s, k)| && Repeat(s, k)[i * k + t] == s[i]
  {
    ConcatUniformLength(RepeatParts(s, k), k);
    ConcatUniformAt(RepeatParts(s, k), k, i, t);
  }

  /** `Tile(s, k)` by digits: element `j` of copy `u` sits at `u * |s| + j`. */
  lemma TileDigits<T>(s: seq<T>, k: nat, u: nat, j: nat)
    requires u < k && j < |s|
    ensures |Tile(s, k)| == k * |s|
    ensures u * |s| + j < |Tile(s, k)| && Tile(s, k)[u * |s| + j] == s[j]
  {
    ConcatUniformLength(TileParts(s, k), |s|);
    ConcatUniformAt(TileParts(s, k), |s|, u, j);
  }

  /** `np.repeat(np.repeat(a, w, axis=1), k, axis=0)` by digits: entry `(i * k + t, l * w + v)` is `a[i][l]`. */
  lemma RepeatBothDigits(a: Matrix, rows: nat, cols: nat, w: nat, k: nat, i: nat, t: nat, l: nat, v: nat)
    requires IsShape(a, rows, cols) && i < rows && t < k && l < cols && v < w
    ensures IsShape(Repeat(RepeatCols(a, w), k), rows * k, cols * w)
    ensures i * k + t < rows * k && l * w + v < cols * w
    ensures Repeat(RepeatCols(a, w), k)[i * k + t][l * w + v] == a[i][l]
  {
    RepeatColsShape(a, rows, cols, w);
    RepeatRowsShape(RepeatCols(a, w), rows, cols * w, k);
    RepeatDigits(RepeatCols(a, w), k, i, t);
    RepeatDigits(a[i], w, l, v);
  }

  /** `np.tile(a, (p, q))` by digits: entry `(s * rows + j, u * cols + l)` is `a[j][l]`. */
  lemma Tile2Digits(a: Matrix, rows: nat, cols: nat, p: nat, q: nat, s: nat, j: nat, u: nat, l: nat)
    requires IsShape(a, rows, cols) && s < p && j < rows && u < q && l < cols
    ensures IsShape(Tile2(a, p, q), p * rows, q * cols)
    ensures s * rows + j < p * rows && u * cols + l < q * cols
    ensures Tile2(a, p, q)[s * rows + j][u * cols + l] == a[j][l]
  {
    Tile2Shape(a, rows, cols, p, q);
    var wide := seq(|a|, i requires 0 <= i < |a| => Tile(a[i], q));
    TileDigits(wide, p, s, j);
    TileDigits(a[j], q, u, l);
  }

  /** `np.repeat(np.tile(a, (p, q)), k, axis=0)` by digits: entry `((s * rows + j) * k + t, u * cols + l)` is `a[j][l]`. */
  lemma RepeatTileDigits(a: Matrix, rows: nat, cols: nat, p: nat, q: nat, k: nat,
                         s: nat, j: nat, t: nat, u: nat, l: nat)
    requires IsShape(a, rows, cols) && s < p && j < rows && t < k && u < q && l < cols
    ensures (s * rows + j) * k + t < p * rows * k && u * cols + l < q * cols
    ensures IsShape(Repeat(Tile2(a, p, q), k), p * rows * k, q * cols)
    ensures At(Repeat(Tile2(a, p, q), k), (s * rows + j) * k + t, u * cols + l, a[j][l])
  {
    Tile2Digits(a, rows, cols, p, q, s, j, u, l);
    RepeatRowsShape(Tile2(a, p, q), p * rows, q * cols, k);
    RepeatDigits(Tile2(a, p, q), k, s * rows + j, t);
  }

  /** Repeating `p` times and then `q` times is repeating `p * q` times. */
  lemma RepeatRepeat<T>(s: seq<T>, p: nat, q: nat)
    ensures Repeat(Repeat(s, p), q) == Repeat(s, p * q)
  {
    RepeatLength(s, p);
    RepeatLength(Repeat(s, p), q);
    RepeatLength(s, p * q);
    MulAssoc(|s|, p, q);
    forall c | 0 <= c < |s| * (p * q)
      ensures Repeat(Repeat(s, p), q)[c] == Repeat(s, p * q)[c]
    {
      RepeatRepeatAt(s, p, q, c);
    }
  }

  lemma RepeatRepeatAt<T>(s: seq<T>, p: nat, q: nat, c: nat)
    requires c < |s| * (p * q)
    ensures c < |Repeat(Repeat(s, p), q)| && c < |Repeat(s, p * q)|
    ensures Repeat(Repeat(s, p), q)[c] == Repeat(s, p * q)[c]
  {
    var r := Repeat(s, p);
    assert |r| == |s| * p by { RepeatLength(s, p); }
    assert c < |r| * q by { BelowRegroup(c, |s|, p, q, |r|); }
    var d, e := Split(c, |r|, q);
    var i, j := Split(d, |s|, p);
    // as written: copy `e` of element `d` of `r`, which is copy `j` of `s[i]`
    RepeatDigits(r, q, d, e);
    RepeatDigits(s, p, i, j);
    // at once: copy `j * q + e` of `s[i]`
    assert Flat(d, q, e) == Flat(i, p * q, Flat(j, q, e)) by { FlatNest(i, p, j, q, e); }
    FlatBelow(j, q, e, p);
    RepeatDigits(s, p * q, i, Flat(j, q, e));
  }

  /** `np.repeat(a, p * q, axis=1)` is `np.repeat` by `p` and then by `q`. */
  lemma RepeatColsTwice(a: Matrix, p: nat, q: nat)
    ensures RepeatCols(a, p * q) == RepeatCols(RepeatCols(a, p), q)
  {
    forall i | 0 <= i < |a|
      ensures RepeatCols(a, p * q)[i] == RepeatCols(RepeatCols(a, p), q)[i]
    {
      RepeatRepeat(a[i], p, q);
    }
  }

  /** One copy is the sequence itself. */
  lemma TileOnce<T>(s: seq<T>)
    ensures Tile(s, 1) == s
  {
    var parts := TileParts(s, 1);
    assert parts[1..] == [];
    assert Concat(parts) == s + Concat([]);
  }

  /** `np.tile(np.tile(a, (1, q)), (p, 1))` is `np.tile(a, (p, q))`. */
  lemma Tile2Nested(a: Matrix, p: nat, q: nat)
    ensures Tile2(Tile2(a, 1, q), p, 1) == Tile2(a, p, q)
  {
    var wide := seq(|a|, i requires 0 <= i < |a| => Tile(a[i], q));
    TileOnce(wide);
    forall i | 0 <= i < |wide|
      ensures Tile(wide[i], 1) == wide[i]
    {
      TileOnce(wide[i]);
    }
    assert seq(|wide|, i requires 0 <= i < |wide| => Tile(wide[i], 1)) == wide;
  }

  /** Python slice `s[lo:hi]` for non-negative bounds: both ends are clamped to `|s|`. */
  function Slice<T>(s: seq<T>, lo: nat, hi: nat): (r: seq<T>)
    ensures |r| == if lo < hi && lo < |s| then Min(hi, |s|) - lo else 0
    ensures forall i :: 0 <= i < |r| ==> r[i] == s[lo + i]
  {
    var h := Min(hi, |s|);
    if lo < h then s[lo..h] else []
  }

  /** The smaller of two integers. */
  function Min(a: int, b: int): int
  {
    if a <= b then a else b
  }
}
