/**
 * `utils/linalg.py`: the older copy of `multi_dot` and `multi_dot2`, modelled as
 * written, as a recursion over the whole argument tuple (the running product
 * replaces the first two arguments). The older quadrature's `_multi_dot` is the
 * same function.
 */
module LinAlgLegacy {
  import opened Wrappers
  import opened LinAlg

  /**
   * `multi_dot(*vectors)` over the argument tuple `ts`: one argument is returned
   * as is, otherwise the first two are multiplied out and the call repeats.
   */
  function MultiDotArgs(ts: seq<Tensor>): (r: Result<Tensor>)
    ensures r.Failure? <==> |ts| == 0
    ensures r.Failure? ==> r.error == IndexError
    decreases |ts|
  {
    if |ts| == 0 then Failure(IndexError)
    else if |ts| == 1 then Success(ts[0])
    else MultiDotArgs([Outer(ts[0], ts[1].data)] + ts[2..])
  }

  /** The argument tuple for a list of 1-D arrays. */
  function Vectors(vs: seq<seq<real>>): (ts: seq<Tensor>)
    ensures |ts| == |vs|
    ensures forall i :: 0 <= i < |vs| ==> ts[i] == Vector(vs[i])
  {
    seq(|vs|, i requires 0 <= i < |vs| => Vector(vs[i]))
  }

  /** `multi_dot(*vs)` of the older module. */
  function MultiDotOld(vs: seq<seq<real>>): Result<Tensor>
  {
    MultiDotArgs(Vectors(vs))
  }

  /** Folding a tuple whose head is `head` and whose tail is `rest` is the fold of the live module. */
  lemma {:induction false} ArgsFold(head: Tensor, rest: seq<seq<real>>)
    ensures MultiDotArgs([head] + Vectors(rest)) == Success(MultiDotFrom(head, rest))
    decreases |rest|
  {
    var ts := [head] + Vectors(rest);
    if |rest| == 0 {
      assert ts == [head];
    } else {
      assert ts[1].data == rest[0];
      assert ts[2..] == Vectors(rest[1..]);
      ArgsFold(Outer(head, rest[0]), rest[1..]);
    }
  }

  /** The older `multi_dot` agrees with `numerical/utils/linalg.py` on every input, errors included. */
  lemma MultiDotOldSame(vs: seq<seq<real>>)
    ensures MultiDotOld(vs) == MultiDot(vs)
  {
    if |vs| > 0 {
      assert Vectors(vs) == [Vector(vs[0])] + Vectors(vs[1..]);
      ArgsFold(Vector(vs[0]), vs[1..]);
    }
  }

  /** `multi_dot2` of the older module: the same flags over the older `multi_dot`. */
  function MultiDot2Old(vs: seq<seq<real>>, flatten: bool, reshape: bool): Result<Tensor>
  {
    var md :- MultiDotOld(vs);
    var md := if flatten then Tensor([|md.data|], md.data) else md;
    var md := if reshape then Tensor([|md.data|, 1], md.data) else md;
    Success(md)
  }

  /** The older `multi_dot2` agrees with the live one for every input and every flag. */
  lemma MultiDot2OldSame(vs: seq<seq<real>>, flatten: bool, reshape: bool)
    ensures MultiDot2Old(vs, flatten, reshape) == MultiDot2(vs, flatten, reshape)
  {
    MultiDotOldSame(vs);
  }

  /** One vector comes back unchanged; two give the outer product `u[k] * v[l]`. */
  lemma MultiDotOldSmall(u: seq<real>, v: seq<real>, k: nat, l: nat)
    requires k < |u| && l < |v|
    ensures MultiDotOld([u]) == Success(Vector(u))
    ensures MultiDotOld([u, v]).Success?
    ensures var t := MultiDotOld([u, v]).value;
      && t.shape == [|u|, |v|] && |t.data| == |u| * |v|
      && k * |v| + l < |t.data| && t.data[k * |v| + l] == u[k] * v[l]
  {
    MultiDotOldSame([u]);
    MultiDotSingle(u);
    MultiDotOldSame([u, v]);
    MultiDotPair(u, v, k, l);
  }

  /** The older flattened product holds the product of the chosen entries at every row-major index. */
  lemma MultiDotOldIsOuterProduct(vs: seq<seq<real>>)
    requires |vs| > 0
    ensures MultiDotOld(vs).Success? && IsOuterProduct(MultiDotOld(vs).value, vs)
    ensures |MultiDotOld(vs).value.data| == Size(Lens(vs))
  {
    MultiDotOldSame(vs);
    MultiDotIsOuterProduct(vs);
  }
}
