/**
 * Outer products of vectors (`numerical/utils/linalg.py`): `multi_dot` builds the
 * d-fold outer product one axis at a time, `multi_dot2` reshapes it, and
 * `polar2cartesian` maps a polar point to the plane.
 */
module LinAlg {
  import opened Wrappers
  import opened Arith
  import opened Seqs

  /** An n-dimensional array: its shape and its entries in row-major (C) order. */
  datatype Tensor = Tensor(shape: seq<nat>, data: seq<real>)

  /** Number of entries of an array of the given shape. */
  function Size(shape: seq<nat>): nat
  {
    if |shape| == 0 then 1 else Size(shape[..|shape| - 1]) * shape[|shape| - 1]
  }

  /** A 1-D array. */
  function Vector(v: seq<real>): Tensor
  {
    Tensor([|v|], v)
  }

  /** Lengths of a list of vectors: the shape of their outer product. */
  function Lens(vs: seq<seq<real>>): (lens: seq<nat>)
    ensures |lens| == |vs|
    ensures forall d :: 0 <= d < |vs| ==> lens[d] == |vs[d]|
  {
    seq(|vs|, d requires 0 <= d < |vs| => |vs[d]|)
  }

  /** `ks` is a multi-index into an array of shape `lens`. */
  predicate IsIndex(lens: seq<nat>, ks: seq<nat>)
  {
    |ks| == |lens| && forall d :: 0 <= d < |ks| ==> ks[d] < lens[d]
  }

  /** Row-major (C order) flat position of multi-index `ks`. */
  function RowMajor(lens: seq<nat>, ks: seq<nat>): nat
    requires |ks| == |lens|
  {
    if |ks| == 0 then 0
    else RowMajor(lens[..|lens| - 1], ks[..|ks| - 1]) * lens[|lens| - 1] + ks[|ks| - 1]
  }

  /** Multi-index of flat position `c`, the inverse of `RowMajor` (`np.unravel_index`). */
  function Unravel(lens: seq<nat>, c: nat): (ks: seq<nat>)
    requires c < Size(lens)
    ensures IsIndex(lens, ks)
    ensures RowMajor(lens, ks) == c
  {
    if |lens| == 0 then []
    else
      var init, m := lens[..|lens| - 1], lens[|lens| - 1];
      SplitBelow(c, Size(init), m);
      var ks := Unravel(init, c / m) + [c % m];
      assert ks[..|ks| - 1] == Unravel(init, c / m);
      ks
  }

  /** Product of the selected entries `vs[d][ks[d]]`. */
  function ProdAt(vs: seq<seq<real>>, ks: seq<nat>): real
    requires IsIndex(Lens(vs), ks)
  {
    if |ks| == 0 then 1.0
    else ProdAt(vs[..|vs| - 1], ks[..|ks| - 1]) * vs[|vs| - 1][ks[|ks| - 1]]
  }

  /** A valid multi-index lands inside the array. */
  lemma {:induction false} RowMajorInside(lens: seq<nat>, ks: seq<nat>)
    requires IsIndex(lens, ks)
    ensures RowMajor(lens, ks) < Size(lens)
  {
    if |ks| > 0 {
      var n := |ks| - 1;
      RowMajorInside(lens[..n], ks[..n]);
      RowMajorBelow(RowMajor(lens[..n], ks[..n]), ks[n], Size(lens[..n]), lens[n]);
    }
  }

  /** Distinct multi-indices have distinct flat positions. */
  lemma {:induction false} RowMajorInjective(lens: seq<nat>, ks: seq<nat>, js: seq<nat>)
    requires IsIndex(lens, ks) && IsIndex(lens, js)
    requires RowMajor(lens, ks) == RowMajor(lens, js)
    ensures ks == js
  {
    if |ks| > 0 {
      var n := |ks| - 1;
      var a, b := RowMajor(lens[..n], ks[..n]), RowMajor(lens[..n], js[..n]);
      DivModOfRowMajor(a, lens[n], ks[n]);
      DivModOfRowMajor(b, lens[n], js[n]);
      RowMajorInjective(lens[..n], ks[..n], js[..n]);
      assert ks == ks[..n] + [ks[n]] && js == js[..n] + [js[n]];
    }
  }

  /**
   * `np.dot(np.expand_dims(t, -1), np.expand_dims(v, 0))`: a new last axis of
   * length `|v|` whose entry `(.., l)` is `t[..] * v[l]`.
   */
  function Outer(t: Tensor, v: seq<real>): (r: Tensor)
    ensures r.shape == t.shape + [|v|]
  {
    Tensor(t.shape + [|v|],
      Concat(seq(|t.data|, i requires 0 <= i < |t.data| =>
        seq(|v|, l requires 0 <= l < |v| => t.data[i] * v[l]))))
  }

  /** The entries of an outer product, by row and column. */
  lemma OuterAt(t: Tensor, v: seq<real>, i: nat, l: nat)
    requires i < |t.data| && l < |v|
    ensures |Outer(t, v).data| == |t.data| * |v|
    ensures i * |v| + l < |Outer(t, v).data|
    ensures Outer(t, v).data[i * |v| + l] == t.data[i] * v[l]
  {
    var rows := seq(|t.data|, i requires 0 <= i < |t.data| =>
      seq(|v|, l requires 0 <= l < |v| => t.data[i] * v[l]));
    ConcatUniformLength(rows, |v|);
    ConcatUniformAt(rows, |v|, i, l);
  }

  /** The number of entries of an outer product. */
  lemma OuterLength(t: Tensor, v: seq<real>)
    ensures |Outer(t, v).data| == |t.data| * |v|
  {
    var rows := seq(|t.data|, i requires 0 <= i < |t.data| =>
      seq(|v|, l requires 0 <= l < |v| => t.data[i] * v[l]));
    ConcatUniformLength(rows, |v|);
  }

  /**
   * The recursion of `multi_dot` once its first argument is an array `head`:
   * fold the remaining vectors in, one new axis each.
   */
  function MultiDotFrom(head: Tensor, rest: seq<seq<real>>): Tensor
    decreases |rest|
  {
    if |rest| == 0 then head else MultiDotFrom(Outer(head, rest[0]), rest[1..])
  }

  /** `multi_dot(*vectors)`; with no vector, `vectors[0]` raises `IndexError`. */
  function MultiDot(vs: seq<seq<real>>): (r: Result<Tensor>)
    ensures r.Failure? <==> |vs| == 0
    ensures r.Failure? ==> r.error == IndexError
  {
    if |vs| == 0 then Failure(IndexError) else Success(MultiDotFrom(Vector(vs[0]), vs[1..]))
  }

  /** `t` holds the outer product of `vs`: shape `Lens(vs)`, entry `ProdAt(vs, ks)` at `RowMajor(.., ks)`. */
  ghost predicate IsOuterProduct(t: Tensor, vs: seq<seq<real>>)
  {
    && t.shape == Lens(vs)
    && |t.data| == Size(Lens(vs))
    && forall ks :: IsIndex(Lens(vs), ks) ==>
         RowMajor(Lens(vs), ks) < |t.data| && t.data[RowMajor(Lens(vs), ks)] == ProdAt(vs, ks)
  }

  /** The prefix facts the last-axis recursion needs. */
  lemma LensPrefix(vs: seq<seq<real>>, v: seq<real>)
    ensures Lens(vs + [v]) == Lens(vs) + [|v|]
    ensures (vs + [v])[..|vs|] == vs
  {
  }

  /** The entry of `Outer(t, v)` at a multi-index of the longer list. */
  lemma OuterExtendsAt(t: Tensor, vs: seq<seq<real>>, v: seq<real>, ks: seq<nat>)
    requires IsOuterProduct(t, vs)
    requires IsIndex(Lens(vs + [v]), ks)
    ensures RowMajor(Lens(vs + [v]), ks) < |Outer(t, v).data|
    ensures Outer(t, v).data[RowMajor(Lens(vs + [v]), ks)] == ProdAt(vs + [v], ks)
  {
    var ws := vs + [v];
    var n := |vs|;
    LensPrefix(vs, v);
    var init := ks[..n];
    assert Lens(ws)[..n] == Lens(vs);
    assert IsIndex(Lens(vs), init);
    var i := RowMajor(Lens(vs), init);
    OuterAt(t, v, i, ks[n]);
    assert RowMajor(Lens(ws), ks) == i * |v| + ks[n];
    assert ProdAt(ws, ks) == ProdAt(vs, init) * v[ks[n]];
  }

  /** Appending one vector to an outer product with `Outer` gives the outer product of the longer list. */
  lemma OuterExtends(t: Tensor, vs: seq<seq<real>>, v: seq<real>)
    requires IsOuterProduct(t, vs)
    ensures IsOuterProduct(Outer(t, v), vs + [v])
  {
    var ws := vs + [v];
    LensPrefix(vs, v);
    OuterLength(t, v);
    assert Size(Lens(ws)) == Size(Lens(vs)) * |v| by {
      assert Lens(ws)[..|vs|] == Lens(vs);
    }
    forall ks | IsIndex(Lens(ws), ks)
      ensures RowMajor(Lens(ws), ks) < |Outer(t, v).data|
      ensures Outer(t, v).data[RowMajor(Lens(ws), ks)] == ProdAt(ws, ks)
    {
      OuterExtendsAt(t, vs, v, ks);
    }
  }

  /** Folding vectors into an outer product keeps it an outer product of the longer list. */
  lemma {:induction false} MultiDotFromIsOuterProduct(head: Tensor, pre: seq<seq<real>>, rest: seq<seq<real>>)
    requires IsOuterProduct(head, pre)
    ensures IsOuterProduct(MultiDotFrom(head, rest), pre + rest)
    decreases |rest|
  {
    if |rest| > 0 {
      OuterExtends(head, pre, rest[0]);
      MultiDotFromIsOuterProduct(Outer(head, rest[0]), pre + [rest[0]], rest[1..]);
      assert pre + [rest[0]] + rest[1..] == pre + rest;
    } else {
      assert pre + rest == pre;
    }
  }

  /** A vector is the outer product of itself alone. */
  lemma VectorIsOuterProduct(v: seq<real>)
    ensures IsOuterProduct(Vector(v), [v])
  {
    var vs := [v];
    assert Size(Lens(vs)) == |v| by {
      assert Lens(vs)[..0] == [];
    }
    forall ks | IsIndex(Lens(vs), ks)
      ensures RowMajor(Lens(vs), ks) < |v| && v[RowMajor(Lens(vs), ks)] == ProdAt(vs, ks)
    {
      assert ks[..0] == [] && Lens(vs)[..0] == [] && vs[..0] == [];
    }
  }

  /**
   * `multi_dot(v1, .., vd)` has shape `(|v1|, .., |vd|)`, `|v1| * .. * |vd|` entries,
   * and entry `v1[k1] * .. * vd[kd]` at the row-major position of `(k1, .., kd)`.
   */
  lemma MultiDotIsOuterProduct(vs: seq<seq<real>>)
    requires |vs| > 0
    ensures MultiDot(vs).Success? && IsOuterProduct(MultiDot(vs).value, vs)
  {
    VectorIsOuterProduct(vs[0]);
    MultiDotFromIsOuterProduct(Vector(vs[0]), [vs[0]], vs[1..]);
    assert [vs[0]] + vs[1..] == vs;
  }

  /** One vector: `multi_dot(v) = v`. */
  lemma MultiDotSingle(v: seq<real>)
    ensures MultiDot([v]) == Success(Vector(v))
  {
  }

  /** Two vectors: the matrix `u[k] * v[l]`, stored row by row. */
  lemma MultiDotPair(u: seq<real>, v: seq<real>, k: nat, l: nat)
    requires k < |u| && l < |v|
    ensures MultiDot([u, v]).Success?
    ensures MultiDot([u, v]).value.shape == [|u|, |v|]
    ensures |MultiDot([u, v]).value.data| == |u| * |v|
    ensures k * |v| + l < |MultiDot([u, v]).value.data|
    ensures MultiDot([u, v]).value.data[k * |v| + l] == u[k] * v[l]
  {
    assert [u, v][1..] == [v] && [v][1..] == [];
    assert MultiDotFrom(Outer(Vector(u), v), []) == Outer(Vector(u), v);
    assert MultiDot([u, v]).value == MultiDotFrom(Vector(u), [v]);
    OuterAt(Vector(u), v, k, l);
  }

  /** The flat entry `c` of an outer product is the product at the multi-index `Unravel(.., c)`. */
  lemma OuterProductAt(t: Tensor, vs: seq<seq<real>>, c: nat)
    requires IsOuterProduct(t, vs) && c < |t.data|
    ensures t.data[c] == ProdAt(vs, Unravel(Lens(vs), c))
  {
    var ks := Unravel(Lens(vs), c);
    assert RowMajor(Lens(vs), ks) == c;
  }

  /** `multi_dot2(*vectors, flatten, reshape)`: the outer product, raveled and/or made a column. */
  function MultiDot2(vs: seq<seq<real>>, flatten: bool, reshape: bool): (r: Result<Tensor>)
    ensures r.Failure? <==> |vs| == 0
    ensures r.Failure? ==> r.error == IndexError
    ensures r.Success? ==> r.value.data == MultiDot(vs).value.data
    ensures r.Success? && !flatten && !reshape ==> r == MultiDot(vs)
    ensures r.Success? && flatten && !reshape ==> r.value.shape == [|r.value.data|]
    ensures r.Success? && reshape ==> r.value.shape == [|r.value.data|, 1]
  {
    var md :- MultiDot(vs);
    var md := if flatten then Tensor([|md.data|], md.data) else md;
    var md := if reshape then Tensor([|md.data|, 1], md.data) else md;
    Success(md)
  }

  /** Flattening first does not change what the column holds. */
  lemma MultiDot2ColumnSameAsFlat(vs: seq<seq<real>>)
    requires |vs| > 0
    ensures MultiDot2(vs, true, true).value.data == MultiDot2(vs, true, false).value.data
    ensures MultiDot2(vs, true, true).value.data == MultiDot2(vs, false, true).value.data
  {
  }

  /**
   * `polar2cartesian(x) = (x[0] cos x[1], x[0] sin x[1])`, with the trigonometric
   * functions as parameters; a point with fewer than two coordinates raises `IndexError`.
   */
  function Polar2Cartesian(x: seq<real>, cos: real -> real, sin: real -> real): (p: Result<seq<real>>)
    ensures p.Failure? <==> |x| < 2
    ensures p.Failure? ==> p.error == IndexError
    ensures p.Success? ==> |p.value| == 2
  {
    if |x| < 2 then Failure(IndexError) else Success([x[0] * cos(x[1]), x[0] * sin(x[1])])
  }

  /** Both components are linear in the radius: scaling `x[0]` scales the point. */
  lemma Polar2CartesianScales(rho: real, phi: real, a: real, cos: real -> real, sin: real -> real)
    ensures Polar2Cartesian([a * rho, phi], cos, sin).Success?
    ensures var p, q := Polar2Cartesian([a * rho, phi], cos, sin).value, Polar2Cartesian([rho, phi], cos, sin).value;
      p[0] == a * q[0] && p[1] == a * q[1]
  {
  }

  /** Radius 0 is the origin, whatever the angle. */
  lemma Polar2CartesianOrigin(phi: real, cos: real -> real, sin: real -> real)
    ensures Polar2Cartesian([0.0, phi], cos, sin) == Success([0.0, 0.0])
  {
  }

  /** Only the first two coordinates matter. */
  lemma Polar2CartesianIgnoresRest(x: seq<real>, extra: seq<real>, cos: real -> real, sin: real -> real)
    requires |x| >= 2
    ensures Polar2Cartesian(x + extra, cos, sin) == Polar2Cartesian(x, cos, sin)
  {
    var y := x + extra;
    assert |y| >= 2 && y[0] == x[0] && y[1] == x[1];
    assert cos(y[1]) == cos(x[1]) && sin(y[1]) == sin(x[1]);
    var p := Polar2Cartesian(y, cos, sin);
    var q := Polar2Cartesian(x, cos, sin);
    assert p.value[0] == y[0] * cos(y[1]) && p.value[1] == y[0] * sin(y[1]);
    assert q.value[0] == x[0] * cos(x[1]) && q.value[1] == x[0] * sin(x[1]);
    assert p.value[0] == q.value[0] && p.value[1] == q.value[1];
    assert p.value == q.value;
  }

  /** Sizes and row-major positions of one-, two- and three-axis shapes, written out. */
  lemma Size1(lens: seq<nat>)
    requires |lens| == 1
    ensures Size(lens) == lens[0]
  {
    assert lens[..0] == [];
  }

  lemma Size2(lens: seq<nat>)
    requires |lens| == 2
    ensures Size(lens) == lens[0] * lens[1]
  {
    Size1(lens[..1]);
  }

  lemma Size3(lens: seq<nat>)
    requires |lens| == 3
    ensures Size(lens) == lens[0] * lens[1] * lens[2]
  {
    Size2(lens[..2]);
  }

  lemma RowMajor1(lens: seq<nat>, ks: seq<nat>)
    requires |lens| == |ks| == 1
    ensures RowMajor(lens, ks) == ks[0]
  {
    assert lens[..0] == [] && ks[..0] == [];
  }

  lemma RowMajor2(lens: seq<nat>, ks: seq<nat>)
    requires |lens| == |ks| == 2
    ensures RowMajor(lens, ks) == ks[0] * lens[1] + ks[1]
  {
    RowMajor1(lens[..1], ks[..1]);
  }

  lemma RowMajor3(lens: seq<nat>, ks: seq<nat>)
    requires |lens| == |ks| == 3
    ensures RowMajor(lens, ks) == (ks[0] * lens[1] + ks[1]) * lens[2] + ks[2]
  {
    RowMajor2(lens[..2], ks[..2]);
  }

  /** One axis: flat position `i` unravels to `[i]`. */
  lemma UnravelAt1(lens: seq<nat>, i: nat)
    requires |lens| == 1 && i < lens[0]
    ensures i < Size(lens) && Unravel(lens, i) == [i]
  {
    Size1(lens);
    RowMajor1(lens, [i]);
    RowMajorInjective(lens, Unravel(lens, i), [i]);
  }

  /** Two axes: flat position `i * lens[1] + j` unravels to `[i, j]`. */
  lemma UnravelAt2(lens: seq<nat>, i: nat, j: nat)
    requires |lens| == 2 && i < lens[0] && j < lens[1]
    ensures Flat(i, lens[1], j) < Size(lens) && Unravel(lens, Flat(i, lens[1], j)) == [i, j]
  {
    RowMajor2(lens, [i, j]);
    RowMajorInside(lens, [i, j]);
    RowMajorInjective(lens, Unravel(lens, Flat(i, lens[1], j)), [i, j]);
  }

  /** Three axes: flat position `(i * lens[1] + j) * lens[2] + m` unravels to `[i, j, m]`. */
  lemma UnravelAt3(lens: seq<nat>, i: nat, j: nat, m: nat)
    requires |lens| == 3 && i < lens[0] && j < lens[1] && m < lens[2]
    ensures Flat(Flat(i, lens[1], j), lens[2], m) < Size(lens)
    ensures Unravel(lens, Flat(Flat(i, lens[1], j), lens[2], m)) == [i, j, m]
  {
    RowMajor3(lens, [i, j, m]);
    RowMajorInside(lens, [i, j, m]);
    RowMajorInjective(lens, Unravel(lens, Flat(Flat(i, lens[1], j), lens[2], m)), [i, j, m]);
  }

  /** Two vectors: the product of the entries at `[k, l]`. */
  lemma ProdAt2(vs: seq<seq<real>>, k: nat, l: nat)
    requires |vs| == 2 && k < |vs[0]| && l < |vs[1]|
    ensures IsIndex(Lens(vs), [k, l]) && ProdAt(vs, [k, l]) == vs[0][k] * vs[1][l]
  {
    assert vs[..1][..0] == [] && [k, l][..1][..0] == [];
    assert ProdAt(vs[..1], [k]) == 1.0 * vs[0][k];
  }

  /** Three vectors: the product of the entries at `[k, l, o]`. */
  lemma ProdAt3(vs: seq<seq<real>>, k: nat, l: nat, o: nat)
    requires |vs| == 3 && k < |vs[0]| && l < |vs[1]| && o < |vs[2]|
    ensures IsIndex(Lens(vs), [k, l, o]) && ProdAt(vs, [k, l, o]) == vs[0][k] * vs[1][l] * vs[2][o]
  {
    assert [k, l, o][..2] == [k, l];
    ProdAt2(vs[..2], k, l);
  }
}
