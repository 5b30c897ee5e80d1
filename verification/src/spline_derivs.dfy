/**
 * `numerical/spline_derivs.py`: a second copy of the Schoenberg derivative
 * tables, and the decorators that hang a lookup `f.deriv(*key)` on a function.
 * The lookup returns the table entry, a function; `Apply1` and `Apply2` give its
 * value. `spline.schoenberg1d`, which the 2-D entries call, is taken to be
 * `schoenberg` of `numerical/splines/definitions.py`. As there, the tables are
 * stated for one entry of a float64 array.
 */
module SplineDerivs {
  import opened Wrappers
  import opened Splines

  /** `_Schoenberg1d.deriv1(x)`. */
  function Deriv1(x: real): real
  {
    if 0.0 <= x < 1.0 then -x + Pow(x, 3) - (5.0 * Pow(x, 4)) / 12.0
    else if 1.0 <= x < 2.0 then
      0.625 - (7.0 * x) / 2.0 + (15.0 * Pow(x, 2)) / 4.0 - (3.0 * Pow(x, 3)) / 2.0 + (5.0 * Pow(x, 4)) / 24.0
    else if 2.0 <= x < 3.0 then
      -3.375 + (9.0 * x) / 2.0 - (9.0 * Pow(x, 2)) / 4.0 + Pow(x, 3) / 2.0 - Pow(x, 4) / 24.0
    else 0.0
  }

  /** `_Schoenberg1d.deriv2(x)`. */
  function Deriv2(x: real): real
  {
    if 0.0 <= x < 1.0 then -1.0 + 3.0 * Pow(x, 2) - (5.0 * Pow(x, 3)) / 3.0
    else if 1.0 <= x < 2.0 then -3.5 + (15.0 * x) / 2.0 - (9.0 * Pow(x, 2)) / 2.0 + (5.0 * Pow(x, 3)) / 6.0
    else if 2.0 <= x < 3.0 then 4.5 - (9.0 * x) / 2.0 + (3.0 * Pow(x, 2)) / 2.0 - Pow(x, 3) / 6.0
    else 0.0
  }

  /** `_Schoenberg1d.deriv3(x)`. */
  function Deriv3(x: real): real
  {
    if 0.0 <= x < 1.0 then 6.0 * x - 5.0 * Pow(x, 2)
    else if 1.0 <= x < 2.0 then 7.5 - 9.0 * x + (5.0 * Pow(x, 2)) / 2.0
    else if 2.0 <= x < 3.0 then -4.5 + 3.0 * x - Pow(x, 2) / 2.0
    else 0.0
  }

  /** The copies agree with `d1`, `d2` and `d3` of `numerical/splines/derivatives.py` everywhere. */
  lemma DerivsSame(x: real)
    ensures Deriv1(x) == D1(x) && Deriv2(x) == D2(x) && Deriv3(x) == D3(x)
  {
  }

  // ---------------------------------------------------------------------------
  // Lookup tables
  // ---------------------------------------------------------------------------

  /** One element of a lookup key: a variable name or a derivative order. */
  datatype Atom = Var(name: string) | Order(k: int)

  type Key = seq<Atom>

  /** The entries of the `schoenberg1d` table. */
  datatype Entry1 = Deriv1Entry | Deriv2Entry | Deriv3Entry

  /** The entries of the `schoenberg2d` table: `_deriv10`, `_deriv01`, `_deriv11`, `_deriv21`, `_deriv12`. */
  datatype Entry2 = Deriv10 | Deriv01 | Deriv11 | Deriv21 | Deriv12

  /** `_DERIVATIVES[key]`: the entry, or `KeyError`. */
  function Lookup<E>(table: map<Key, E>, key: Key): (r: Result<E>)
    ensures r.Failure? <==> key !in table
    ensures r.Failure? ==> r.error == KeyError
    ensures r.Success? ==> r.value == table[key]
  {
    if key in table then Success(table[key]) else Failure(KeyError)
  }

  /**
   * The `schoenberg1d` table for `active_vars`; reading `active_vars[0]` of an
   * empty tuple raises `IndexError`.
   */
  function Schoenberg1dTable(vars: seq<string>): Result<map<Key, Entry1>>
  {
    if |vars| < 1 then Failure(IndexError)
    else
      var x := Var(vars[0]);
      Success(map[[x, Order(1)] := Deriv1Entry, [x, Order(2)] := Deriv2Entry, [x, Order(3)] := Deriv3Entry])
  }

  /** The value of a `schoenberg1d` entry at `x`. */
  function Apply1(e: Entry1, x: real): real
  {
    match e
    case Deriv1Entry => Deriv1(x)
    case Deriv2Entry => Deriv2(x)
    case Deriv3Entry => Deriv3(x)
  }

  /**
   * `(v, k)` finds an entry exactly when `v` is the active variable and `k` is 1,
   * 2 or 3, and that entry is the derivative of order `k`; every other key,
   * including those of another length, raises `KeyError`.
   */
  lemma Schoenberg1dLookup(vars: seq<string>, key: Key, x: real)
    requires |vars| >= 1
    ensures var r := Lookup(Schoenberg1dTable(vars).value, key);
      && (r.Success? <==> |key| == 2 && key[0] == Var(vars[0]) && key[1].Order? && 1 <= key[1].k <= 3)
      && (r.Failure? ==> r.error == KeyError)
      && (r.Success? ==> Apply1(r.value, x) == DerivOfOrder(key[1].k, x))
  {
    var x0 := Var(vars[0]);
    var t := Schoenberg1dTable(vars).value;
    assert t.Keys == {[x0, Order(1)], [x0, Order(2)], [x0, Order(3)]};
    if |key| == 2 && key[0] == x0 && key[1].Order? && 1 <= key[1].k <= 3 {
      assert key == [x0, Order(key[1].k)];
      DerivsSame(x);
    }
  }

  /**
   * The `schoenberg2d` table for `active_vars`, in the order of the source's dict
   * display; a key written twice keeps its last value.
   */
  function Schoenberg2dTable(vars: seq<string>): Result<map<Key, Entry2>>
  {
    if |vars| < 2 then Failure(IndexError)
    else
      var x, y := Var(vars[0]), Var(vars[1]);
      var one, two := Order(1), Order(2);
      Success(map[
        [x, one] := Deriv10,
        [y, one] := Deriv01,
        [x, one, y, one] := Deriv11,
        [y, one, x, one] := Deriv11,
        [x, two, y, one] := Deriv21,
        [y, one, x, two] := Deriv21,
        [x, one, y, two] := Deriv12,
        [y, two, x, one] := Deriv12])
  }

  /** The factor in `x` of a `schoenberg2d` entry. */
  function FactorX(e: Entry2, x: real): real
  {
    match e
    case Deriv10 => Deriv1(x)
    case Deriv01 => Schoenberg(x)
    case Deriv11 => Deriv1(x)
    case Deriv21 => Deriv2(x)
    case Deriv12 => Deriv1(x)
  }

  /** The factor in `y` of a `schoenberg2d` entry. */
  function FactorY(e: Entry2, y: real): real
  {
    match e
    case Deriv10 => Schoenberg(y)
    case Deriv01 => Deriv1(y)
    case Deriv11 => Deriv1(y)
    case Deriv21 => Deriv1(y)
    case Deriv12 => Deriv2(y)
  }

  /** The value of a `schoenberg2d` entry at `(x, y)`: every entry is a product of one factor per variable. */
  function Apply2(e: Entry2, x: real, y: real): real
  {
    FactorX(e, x) * FactorY(e, y)
  }

  /**
   * A two-atom key `(v, 1)` selects `_deriv01` for the second variable and
   * `_deriv10` for the first; when both variables have the same name the later
   * entry, `_deriv01`, wins.
   */
  lemma Schoenberg2dSingle(vars: seq<string>, v: string, a: int)
    requires |vars| >= 2
    ensures Lookup(Schoenberg2dTable(vars).value, [Var(v), Order(a)])
         == if a == 1 && v == vars[1] then Success(Deriv01)
            else if a == 1 && v == vars[0] then Success(Deriv10)
            else Failure(KeyError)
  {
  }

  /** Mixed keys do not depend on the order of the two (variable, order) pairs, whatever the names. */
  lemma Schoenberg2dSymmetric(vars: seq<string>, u: Atom, a: Atom, w: Atom, b: Atom)
    requires |vars| >= 2
    ensures Lookup(Schoenberg2dTable(vars).value, [u, a, w, b]) == Lookup(Schoenberg2dTable(vars).value, [w, b, u, a])
  {
  }

  /**
   * For two distinct variables `x`, `y`, the mixed key `(x, a, y, b)` selects the
   * product whose factors are the order-`a` derivative in `x` and the order-`b`
   * derivative in `y`, for (a, b) = (1, 1), (2, 1), (1, 2); any other orders raise
   * `KeyError`.
   */
  lemma Schoenberg2dMixed(vars: seq<string>, a: int, b: int, x: real, y: real)
    requires |vars| >= 2 && vars[0] != vars[1]
    ensures var r := Lookup(Schoenberg2dTable(vars).value, [Var(vars[0]), Order(a), Var(vars[1]), Order(b)]);
      && (r.Success? <==> (a, b) in {(1, 1), (2, 1), (1, 2)})
      && (r.Failure? ==> r.error == KeyError)
      && (r.Success? ==> FactorX(r.value, x) == DerivOfOrder(a, x) && FactorY(r.value, y) == DerivOfOrder(b, y))
  {
    var t := Schoenberg2dTable(vars).value;
    var key := [Var(vars[0]), Order(a), Var(vars[1]), Order(b)];
    var r := Lookup(t, key);
    MixedEntry(vars, a, b);
    if r.Success? {
      DerivsSame(x);
      DerivsSame(y);
    }
  }

  /** Which entry a mixed key of two distinct variables selects. */
  lemma MixedEntry(vars: seq<string>, a: int, b: int)
    requires |vars| >= 2 && vars[0] != vars[1]
    ensures Lookup(Schoenberg2dTable(vars).value, [Var(vars[0]), Order(a), Var(vars[1]), Order(b)])
         == if a == 1 && b == 1 then Success(Deriv11)
            else if a == 2 && b == 1 then Success(Deriv21)
            else if a == 1 && b == 2 then Success(Deriv12)
            else Failure(KeyError)
  {
  }

  /**
   * With both active variables named alike the tables collapse: `(v, 1)` is
   * `_deriv01`, and `(v, 2, v, 1)` and `(v, 1, v, 2)` are both `_deriv12`.
   */
  lemma Schoenberg2dSameName(v: string)
    ensures var t := Schoenberg2dTable([v, v]).value;
      && Lookup(t, [Var(v), Order(1)]) == Success(Deriv01)
      && Lookup(t, [Var(v), Order(2), Var(v), Order(1)]) == Success(Deriv12)
      && Lookup(t, [Var(v), Order(1), Var(v), Order(2)]) == Success(Deriv12)
  {
  }
}
