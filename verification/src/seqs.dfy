/** Sums, concatenation and duplicate-freedom over sequences. */
module Seqs {
  import Arith


  /** Sum of a sequence of reals, left to right. */
  function Sum(s: seq<real>): real
  {
    if |s| == 0 then 0.0 else s[0] + Sum(s[1..])
  }

  /** Sum of `g` over the elements of `s`. */
  function SumOf<T>(s: seq<T>, g: T -> real): real
  {
    if |s| == 0 then 0.0 else g(s[0]) + SumOf(s[1..], g)
  }

  /** Dot product of two sequences of equal length (`np.dot` of 1-D arrays). */
  function Dot(a: seq<real>, b: seq<real>): real
    requires |a| == |b|
  {
    if |a| == 0 then 0.0 else a[0] * b[0] + Dot(a[1..], b[1..])
  }

  /** Concatenation of a list of sequences (`np.concatenate`). */
  function Concat<T>(ss: seq<seq<T>>): seq<T>
  {
    if |ss| == 0 then [] else ss[0] + Concat(ss[1..])
  }

  /** Concatenating a leading part. */
  lemma ConcatCons<T>(b: seq<T>, rest: seq<seq<T>>)
    ensures Concat([b] + rest) == b + Concat(rest)
  {
    assert ([b] + rest)[1..] == rest;
  }

  /** A slice `s[lo..hi]` followed by parts that concatenate to `s[hi..]` concatenates to `s[lo..]`. */
  lemma ConcatSlices<T>(s: seq<T>, b: seq<T>, rest: seq<seq<T>>, lo: nat, hi: nat)
    requires lo <= hi <= |s| && b == s[lo..hi] && Concat(rest) == s[hi..]
    ensures Concat([b] + rest) == s[lo..]
  {
    ConcatCons(b, rest);
    SuffixSplit(s, lo, hi);
  }

  /** A sequence that agrees with `s` at every offset from `lo` is the slice `s[lo..hi]`. */
  lemma SliceIs<T>(out: seq<T>, s: seq<T>, lo: nat, hi: nat)
    requires lo <= hi <= |s| && |out| == hi - lo
    requires forall r :: 0 <= r < |out| ==> out[r] == s[lo + r]
    ensures out == s[lo..hi]
  {
  }

  /** A suffix is the slice up to `j` followed by the suffix from `j`. */
  lemma SuffixSplit<T>(s: seq<T>, i: nat, j: nat)
    requires i <= j <= |s|
    ensures s[i..] == s[i..j] + s[j..]
  {
  }

  /** A sequence of two elements is the display of its elements. */
  lemma PairIs<T>(s: seq<T>, a: T, b: T)
    requires |s| == 2 && s[0] == a && s[1] == b
    ensures s == [a, b]
  {
  }

  /** A sequence of three elements is the display of its elements. */
  lemma ThreeIs<T>(s: seq<T>, a: T, b: T, c: T)
    requires |s| == 3 && s[0] == a && s[1] == b && s[2] == c
    ensures s == [a, b, c]
  {
  }

  /** A sequence of four elements is the display of its elements. */
  lemma FourIs<T>(s: seq<T>, a: T, b: T, c: T, d: T)
    requires |s| == 4 && s[0] == a && s[1] == b && s[2] == c && s[3] == d
    ensures s == [a, b, c, d]
  {
  }

  /** No element occurs twice. */
  ghost predicate NoDup<T>(s: seq<T>)
  {
    forall i, j :: 0 <= i < j < |s| ==> s[i] != s[j]
  }

  lemma {:induction false} SumAppend(a: seq<real>, b: seq<real>)
    ensures Sum(a + b) == Sum(a) + Sum(b)
  {
    if |a| == 0 {
      assert a + b == b;
    } else {
      assert (a + b)[1..] == a[1..] + b;
      SumAppend(a[1..], b);
    }
  }

  lemma {:induction false} SumOfAppend<T>(a: seq<T>, b: seq<T>, g: T -> real)
    ensures SumOf(a + b, g) == SumOf(a, g) + SumOf(b, g)
  {
    if |a| == 0 {
      assert a + b == b;
    } else {
      assert (a + b)[1..] == a[1..] + b;
      SumOfAppend(a[1..], b, g);
    }
  }

  lemma {:induction false} ConcatAppend<T>(a: seq<seq<T>>, b: seq<seq<T>>)
    ensures Concat(a + b) == Concat(a) + Concat(b)
  {
    if |a| == 0 {
      assert a + b == b;
    } else {
      assert (a + b)[1..] == a[1..] + b;
      ConcatAppend(a[1..], b);
    }
  }

  /** An element is in a concatenation iff it is in one of the parts. */
  lemma {:induction false} ConcatMember<T>(ss: seq<seq<T>>, x: T)
    ensures x in Concat(ss) <==> exists i :: 0 <= i < |ss| && x in ss[i]
  {
    if |ss| > 0 {
      ConcatMember(ss[1..], x);
      if x in Concat(ss[1..]) {
        var i :| 0 <= i < |ss[1..]| && x in ss[1..][i];
        assert x in ss[i + 1];
      }
      if exists i :: 0 <= i < |ss| && x in ss[i] {
        var i :| 0 <= i < |ss| && x in ss[i];
        if i > 0 {
          assert x in ss[1..][i - 1];
        }
      }
    }
  }

  /** Concatenating duplicate-free, pairwise disjoint parts gives a duplicate-free sequence. */
  lemma {:induction false} ConcatNoDup<T>(ss: seq<seq<T>>)
    requires forall i :: 0 <= i < |ss| ==> NoDup(ss[i])
    requires forall i, j, x :: 0 <= i < j < |ss| && x in ss[i] ==> x !in ss[j]
    ensures NoDup(Concat(ss))
  {
    if |ss| > 0 {
      ConcatNoDup(ss[1..]);
      var c := Concat(ss);
      var rest := Concat(ss[1..]);
      assert c == ss[0] + rest;
      forall i, j | 0 <= i < j < |c|
        ensures c[i] != c[j]
      {
        if i < |ss[0]| && j >= |ss[0]| {
          var x := c[i];
          assert x in ss[0];
          assert rest[j - |ss[0]|] == c[j];
          ConcatMember(ss[1..], x);
        } else if i >= |ss[0]| {
          assert c[i] == rest[i - |ss[0]|];
          assert c[j] == rest[j - |ss[0]|];
        }
      }
    }
  }

  /** In a duplicate-free sequence every member occurs exactly once. */
  lemma {:induction false} NoDupCount<T>(s: seq<T>, x: T)
    requires NoDup(s)
    ensures multiset(s)[x] == if x in s then 1 else 0
  {
    if |s| > 0 {
      assert s == [s[0]] + s[1..];
      assert NoDup(s[1..]) by {
        forall i, j | 0 <= i < j < |s[1..]|
          ensures s[1..][i] != s[1..][j]
        {
          assert s[1..][i] == s[i + 1] && s[1..][j] == s[j + 1];
        }
      }
      NoDupCount(s[1..], x);
      assert s[0] !in s[1..];
      assert multiset(s) == multiset{s[0]} + multiset(s[1..]);
    }
  }

  /** Two duplicate-free sequences with the same members are permutations of each other. */
  lemma NoDupSameMembers<T>(s: seq<T>, t: seq<T>)
    requires NoDup(s) && NoDup(t)
    requires forall x :: x in s <==> x in t
    ensures multiset(s) == multiset(t)
  {
    forall x
      ensures multiset(s)[x] == multiset(t)[x]
    {
      NoDupCount(s, x);
      NoDupCount(t, x);
    }
  }

  /** Removing from `t` an occurrence of the first element of its permutation `s` leaves a permutation of `s[1..]`. */
  lemma RemoveFirstMatch<T>(s: seq<T>, t: seq<T>, j: nat)
    requires multiset(s) == multiset(t) && |s| > 0 && j < |t| && t[j] == s[0]
    ensures multiset(t[..j] + t[j + 1..]) == multiset(s[1..])
  {
    var t' := t[..j] + t[j + 1..];
    assert t == t[..j] + [s[0]] + t[j + 1..];
    assert s == [s[0]] + s[1..];
    assert multiset(t) == multiset(t[..j]) + multiset([s[0]]) + multiset(t[j + 1..]);
    assert multiset(t') == multiset(t[..j]) + multiset(t[j + 1..]);
    assert multiset(s) == multiset([s[0]]) + multiset(s[1..]);
    forall y
      ensures multiset(t')[y] == multiset(s[1..])[y]
    {
      assert multiset(t)[y] == multiset(t')[y] + multiset([s[0]])[y];
      assert multiset(s)[y] == multiset([s[0]])[y] + multiset(s[1..])[y];
    }
  }

  /** The sum over `t` splits around its entry `j`. */
  lemma SumOfAround<T>(t: seq<T>, j: nat, g: T -> real)
    requires j < |t|
    ensures SumOf(t, g) == SumOf(t[..j], g) + g(t[j]) + SumOf(t[j + 1..], g)
  {
    var a, x, b := t[..j], t[j], t[j + 1..];
    assert t == (a + [x]) + b;
    assert SumOf([x], g) == g(x) by {
      assert [x][1..] == [];
    }
    SumOfAppend(a + [x], b, g);
    SumOfAppend(a, [x], g);
  }

  /** The sum over `t` is its entry `j` plus the sum over the rest. */
  lemma SumOfRemove<T>(t: seq<T>, j: nat, g: T -> real)
    requires j < |t|
    ensures SumOf(t, g) == g(t[j]) + SumOf(t[..j] + t[j + 1..], g)
  {
    SumOfAround(t, j, g);
    SumOfAppend(t[..j], t[j + 1..], g);
  }

  /** A sum over a sequence does not depend on the order of its elements. */
  lemma {:induction false} SumOfPermutation<T>(s: seq<T>, t: seq<T>, g: T -> real)
    requires multiset(s) == multiset(t)
    ensures SumOf(s, g) == SumOf(t, g)
  {
    if |s| == 0 {
      assert |t| == |multiset(t)| == 0;
    } else {
      assert s[0] in multiset(t);
      var j :| 0 <= j < |t| && t[j] == s[0];
      RemoveFirstMatch(s, t, j);
      SumOfPermutation(s[1..], t[..j] + t[j + 1..], g);
      SumOfRemove(t, j, g);
    }
  }

  /** Concatenating `|ss|` parts of length `m` gives `|ss| * m` elements. */
  lemma {:induction false} ConcatUniformLength<T>(ss: seq<seq<T>>, m: nat)
    requires forall i :: 0 <= i < |ss| ==> |ss[i]| == m
    ensures |Concat(ss)| == |ss| * m
  {
    if |ss| > 0 {
      ConcatUniformLength(ss[1..], m);
      Arith.MulPred(|ss|, m);
    }
  }

  /** Part `i`, position `j` of a concatenation of length-`m` parts sits at `i * m + j`. */
  lemma {:induction false} ConcatUniformAt<T>(ss: seq<seq<T>>, m: nat, i: nat, j: nat)
    requires forall k :: 0 <= k < |ss| ==> |ss[k]| == m
    requires i < |ss| && j < m
    ensures i * m + j < |Concat(ss)| && Concat(ss)[i * m + j] == ss[i][j]
  {
    ConcatUniformLength(ss, m);
    Arith.RowMajorBelow(i, j, |ss|, m);
    if i > 0 {
      ConcatUniformAt(ss[1..], m, i - 1, j);
      Arith.MulPred(i, m);
    }
  }

  /** `g` applied to every element of `s`, in order. */
  function MapSeq<T>(s: seq<T>, g: T -> real): (r: seq<real>)
    ensures |r| == |s|
    ensures forall i :: 0 <= i < |s| ==> r[i] == g(s[i])
  {
    seq(|s|, i requires 0 <= i < |s| => g(s[i]))
  }

  /** The point-wise product of two real-valued functions. */
  function Times<T>(a: T -> real, b: T -> real): T -> real
  {
    x => a(x) * b(x)
  }

  /** The dot product of two maps over the same listing is the sum of the products. */
  lemma {:induction false} DotMapSeq<T>(s: seq<T>, a: T -> real, b: T -> real)
    ensures Dot(MapSeq(s, a), MapSeq(s, b)) == SumOf(s, Times(a, b))
  {
    if |s| > 0 {
      assert MapSeq(s, a)[1..] == MapSeq(s[1..], a);
      assert MapSeq(s, b)[1..] == MapSeq(s[1..], b);
      DotMapSeq(s[1..], a, b);
    }
  }

  /** Mapping a concatenation is concatenating the mapped parts. */
  lemma {:induction false} ConcatMapSeq<T>(ss: seq<seq<T>>, g: T -> real)
    ensures Concat(MapParts(ss, g)) == MapSeq(Concat(ss), g)
  {
    if |ss| > 0 {
      assert MapParts(ss, g)[1..] == MapParts(ss[1..], g);
      ConcatMapSeq(ss[1..], g);
    }
  }

  /** Every part of `ss` mapped by `g`. */
  function MapParts<T>(ss: seq<seq<T>>, g: T -> real): (r: seq<seq<real>>)
    ensures |r| == |ss|
    ensures forall i :: 0 <= i < |ss| ==> r[i] == MapSeq(ss[i], g)
  {
    seq(|ss|, i requires 0 <= i < |ss| => MapSeq(ss[i], g))
  }

  /** A sum over a concatenation is the sum of the sums over the parts. */
  lemma {:induction false} SumOfConcat<T>(ss: seq<seq<T>>, g: T -> real)
    ensures SumOf(Concat(ss), g) == Sum(seq(|ss|, i requires 0 <= i < |ss| => SumOf(ss[i], g)))
  {
    if |ss| > 0 {
      SumOfAppend(ss[0], Concat(ss[1..]), g);
      SumOfConcat(ss[1..], g);
      assert seq(|ss|, i requires 0 <= i < |ss| => SumOf(ss[i], g))[1..]
        == seq(|ss[1..]|, i requires 0 <= i < |ss[1..]| => SumOf(ss[1..][i], g));
    }
  }

  /** Against a vector of zeros the dot product is 0. */
  lemma {:induction false} DotZero(b: seq<real>, v: seq<real>)
    requires |b| == |v| && forall c :: 0 <= c < |b| ==> b[c] == 0.0
    ensures Dot(b, v) == 0.0
  {
    if |b| > 0 {
      DotZero(b[1..], v[1..]);
    }
  }

  /** Against a vector that is zero except at `k` the dot product picks out entry `k`. */
  lemma {:induction false} DotOne(b: seq<real>, v: seq<real>, k: nat)
    requires |b| == |v| && k < |b|
    requires forall c :: 0 <= c < |b| && c != k ==> b[c] == 0.0
    ensures Dot(b, v) == b[k] * v[k]
  {
    if k == 0 {
      DotZero(b[1..], v[1..]);
    } else {
      DotOne(b[1..], v[1..], k - 1);
    }
  }

  /** Against a vector that is zero except at `j` and `j + 1` the dot product is the two-term sum. */
  lemma {:induction false} DotTwo(b: seq<real>, v: seq<real>, j: nat)
    requires |b| == |v| && j + 1 < |b|
    requires forall c :: 0 <= c < |b| && c != j && c != j + 1 ==> b[c] == 0.0
    ensures Dot(b, v) == b[j] * v[j] + b[j + 1] * v[j + 1]
  {
    if j == 0 {
      DotOne(b[1..], v[1..], 0);
    } else {
      DotTwo(b[1..], v[1..], j - 1);
    }
  }

  /** The point `θ` of the way from `a` to `b`. */
  function Lerp(theta: real, a: real, b: real): real
  {
    (1.0 - theta) * a + theta * b
  }

  /**
   * A quantity `d` known to be the dot product with weights `1 - θ` at `j`, `θ` at
   * `j + 1` and zero elsewhere is the point `θ` of the way from `v[j]` to `v[j + 1]`.
   */
  lemma DotLerp(d: real, b: seq<real>, v: seq<real>, j: nat, theta: real)
    requires |b| == |v| && d == Dot(b, v)
    requires j + 1 < |b| && b[j] == 1.0 - theta && b[j + 1] == theta
    requires forall c :: 0 <= c < |b| && c != j && c != j + 1 ==> b[c] == 0.0
    ensures d == Lerp(theta, v[j], v[j + 1])
  {
    DotTwo(b, v, j);
    LerpOfWeights(d, b[j], b[j + 1], v[j], v[j + 1], theta);
  }

  /** Two terms weighted `1 - θ` and `θ` are the point `θ` of the way between them. */
  lemma LerpOfWeights(d: real, w0: real, w1: real, x0: real, x1: real, theta: real)
    requires d == w0 * x0 + w1 * x1 && w0 == 1.0 - theta && w1 == theta
    ensures d == Lerp(theta, x0, x1)
  {
    MulLeft(w0, 1.0 - theta, x0);
    MulLeft(w1, theta, x1);
  }

  /** Equal left factors give equal products. */
  lemma MulLeft(a: real, b: real, x: real)
    requires a == b
    ensures a * x == b * x
  {
  }
}
