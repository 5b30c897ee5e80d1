/** Integer and real arithmetic facts the index maps rely on. */
module Arith {

  /** Ceiling of a real number, the length `np.arange` gives in exact arithmetic. */
  function Ceil(x: real): (c: int)
    ensures c as real - 1.0 < x <= c as real
  {
    if x == x.Floor as real then x.Floor else x.Floor + 1
  }

  /** `k`-th power of a natural number. */
  function Pow(n: nat, k: nat): nat
  {
    if k == 0 then 1 else Pow(n, k - 1) * n
  }

  /** Euclidean division of `q * m + r` by `m` recovers `q` and `r`. */
  lemma DivModOfRowMajor(q: int, m: int, r: int)
    requires m > 0 && 0 <= r < m
    ensures (q * m + r) / m == q
    ensures (q * m + r) % m == r
  {
    var x := q * m + r;
    var q', r' := x / m, x % m;
    assert x == q' * m + r';
    if q' < q {
      MulMonotone(q', q - 1, m);
    } else if q < q' {
      MulMonotone(q, q' - 1, m);
    }
  }

  /** Multiplication by a positive number is monotone. */
  lemma MulMonotone(a: int, b: int, m: int)
    requires a <= b && m > 0
    ensures a * m <= b * m
  {
    assert b * m - a * m == (b - a) * m;
  }

  /** A row-major index `i * m + j` with `i < n`, `j < m` stays below `n * m`. */
  lemma RowMajorBelow(i: nat, j: nat, n: nat, m: nat)
    requires i < n && j < m
    ensures i * m + j < n * m
  {
    assert i * m <= (n - 1) * m;
  }

  /** The row-major position of row `i`, column `j` in rows of width `w`. */
  function Flat(i: nat, w: nat, j: nat): nat
  {
    i * w + j
  }

  /** Moving `p` rows down moves the flat position by `p * w`. */
  lemma FlatShift(p: nat, k: nat, w: nat, j: nat)
    ensures Flat(p + k, w, j) == Flat(p, w, Flat(k, w, j))
  {
    assert (p + k) * w == p * w + k * w;
  }

  /** A run of `s` rows from row `p`, inside `n` rows of width `m`, covers positions `p * m` to `(p + s) * m`. */
  lemma RunBounds(p: nat, s: nat, n: nat, m: nat)
    requires p + s <= n
    ensures p * m <= (p + s) * m <= n * m
    ensures (p + s) * m - p * m == s * m
  {
    assert (p + s) * m == p * m + s * m;
    assert n * m == (p + s) * m + (n - p - s) * m;
  }

  /** One more axis of width `n` below a two-level position: the block width becomes `a * n`. */
  lemma FlatNest(k: nat, a: nat, b: nat, n: nat, j: nat)
    ensures Flat(Flat(k, a, b), n, j) == Flat(k, a * n, Flat(b, n, j))
  {
    assert (k * a + b) * n == k * (a * n) + b * n;
  }

  /** A row below `n` and a column below `w` give a position below `n * w`. */
  lemma FlatBelow(i: nat, w: nat, j: nat, n: nat)
    requires i < n && j < w
    ensures Flat(i, w, j) < n * w
  {
    RowMajorBelow(i, j, n, w);
  }

  /** The row and column of an index below `n * m`. */
  lemma Split(c: nat, n: nat, m: nat) returns (i: nat, j: nat)
    requires c < n * m
    ensures i < n && j < m && c == i * m + j && c == Flat(i, m, j)
    ensures i == c / m && j == c % m
  {
    SplitBelow(c, n, m);
    i, j := c / m, c % m;
  }

  /** Every index below `n * m` splits into a row below `n` and a column below `m`. */
  lemma SplitBelow(c: nat, n: nat, m: nat)
    requires c < n * m
    ensures m > 0
    ensures c / m < n && c % m < m
    ensures c == (c / m) * m + c % m
  {
    if c / m >= n {
      MulMonotone(n, c / m, m);
    }
  }

  /** Multiplying both sides by a non-negative real keeps `<=`. */
  lemma RealMulLe(a: real, b: real, s: real)
    requires a <= b && s >= 0.0
    ensures a * s <= b * s
  {
    assert b * s - a * s == (b - a) * s;
  }

  /** Multiplying both sides by a positive real keeps `<`. */
  lemma RealMulLt(a: real, b: real, s: real)
    requires a < b && s > 0.0
    ensures a * s < b * s
  {
    assert b * s - a * s == (b - a) * s;
  }

  /** Real division undone by multiplication. */
  lemma DivTimes(x: real, y: real)
    requires y != 0.0
    ensures (x / y) * y == x
  {
  }

  /** Peeling one factor off a product. */
  lemma MulPred(a: int, m: int)
    ensures a * m == (a - 1) * m + m
  {
  }

  /** Dividing by `a` and then by `b` is dividing by `a * b`; the remainder picks the middle digit. */
  lemma DivDiv(x: nat, a: nat, b: nat)
    requires a > 0 && b > 0
    ensures x / a / b == x / (a * b)
    ensures x % (a * b) / a == x / a % b
  {
    var q, r1 := x / a, x % a;
    var q2, r2 := q / b, q % b;
    assert x == (q2 * b + r2) * a + r1;
    assert (q2 * b + r2) * a == q2 * (a * b) + r2 * a;
    RowMajorBelow(r2, r1, b, a);
    assert b * a == a * b;
    DivModOfRowMajor(q2, a * b, r2 * a + r1);
    DivModOfRowMajor(r2, a, r1);
  }

  /** A number below the modulus is its own remainder. */
  lemma ModSmall(x: nat, m: nat)
    requires x < m
    ensures x % m == x && x / m == 0
  {
    DivModOfRowMajor(0, m, x);
  }

  /** Multiplication is associative. */
  lemma MulAssoc(a: int, b: int, c: int)
    ensures a * b * c == a * (b * c)
  {
  }

  /** Regrouping the bound `a * (b * q)` as `r * q` with `r == a * b`. */
  lemma BelowRegroup(c: nat, a: nat, b: nat, q: nat, r: nat)
    requires c < a * (b * q) && r == a * b
    ensures c < r * q
  {
    MulAssoc(a, b, q);
  }

  /** Adding the modulus does not change the remainder. */
  lemma ModShift(y: nat, b: nat)
    requires b > 0
    ensures (y + b) % b == y % b
  {
    var q, r := y / b, y % b;
    assert y == q * b + r;
    assert y + b == (q + 1) * b + r;
    DivModOfRowMajor(q + 1, b, r);
  }
}
