/**
 * Shared vocabulary of the model: optional values, the outcome of a call
 * that may raise, the values stored in the dictionaries the program builds,
 * and sums and counts over sequences.
 */
module Common {

  datatype Option<+T> = None | Some(value: T)

  /**
   * The outcome of a call that may raise. A Python exception becomes
   * `Raised(str(e))`; a normal return becomes `Ok(value)`.
   */
  datatype Attempt<+T> = Ok(value: T) | Raised(message: string)

  /** A value held by one of the dictionaries built by a `to_dict` method. */
  datatype Value = VNone | VBool(b: bool) | VInt(i: int) | VReal(r: real) | VStr(s: string)

  /** A Python `x if x is not None else None` rendering of an optional real. */
  function RealOrNone(x: Option<real>): (v: Value)
    ensures x.None? <==> v == VNone
    ensures x.Some? ==> v == VReal(x.value)
  {
    match x
    case None => VNone
    case Some(r) => VReal(r)
  }

  /** `int(x)`: truncation toward zero. */
  function Trunc(x: real): (i: int)
    ensures x >= 0.0 ==> i == x.Floor
    ensures x < 0.0 ==> i == -((-x).Floor)
  {
    if x >= 0.0 then x.Floor else -((-x).Floor)
  }

  /** `c / n` reaches `rate` once `c` reaches `n * rate`. */
  lemma ShareAtLeast(c: real, n: real, rate: real)
    requires n > 0.0 && c >= n * rate
    ensures c / n >= rate
  {
    assert c / n - rate == (c - n * rate) / n;
  }

  /** Dividing by a positive number keeps the order. */
  lemma DivMonotone(a: real, b: real, n: real)
    requires a <= b && n > 0.0
    ensures a / n <= b / n
  {
    assert b / n - a / n == (b - a) / n;
  }

  /** A part of a positive whole is a fraction, positive when the part is. */
  lemma Fraction(c: real, n: real)
    requires 0.0 <= c <= n && n > 0.0
    ensures 0.0 <= c / n <= 1.0
    ensures c > 0.0 ==> c / n > 0.0
  {
    assert c > 0.0 ==> c / n > 0.0;
    DivMonotone(c, n, n);
    DivMonotone(0.0, c, n);
    assert n / n == 1.0;
  }

  /** `sum(xs)` */
  function Sum(xs: seq<real>): real
  {
    if xs == [] then 0.0 else Sum(xs[..|xs| - 1]) + xs[|xs| - 1]
  }

  lemma {:induction false} SumAppend(xs: seq<real>, ys: seq<real>)
    ensures Sum(xs + ys) == Sum(xs) + Sum(ys)
    decreases |ys|
  {
    if ys == [] {
      assert xs + ys == xs;
    } else {
      var zs := xs + ys;
      assert zs[..|zs| - 1] == xs + ys[..|ys| - 1];
      SumAppend(xs, ys[..|ys| - 1]);
    }
  }

  /** Every element lies in [lo, hi], so the sum lies in [n*lo, n*hi]. */
  lemma {:induction false} SumBounds(xs: seq<real>, lo: real, hi: real)
    requires forall i :: 0 <= i < |xs| ==> lo <= xs[i] <= hi
    ensures |xs| as real * lo <= Sum(xs) <= |xs| as real * hi
    decreases |xs|
  {
    if xs != [] {
      SumBounds(xs[..|xs| - 1], lo, hi);
    }
  }

  /** The arithmetic mean of a non-empty sequence. */
  function Mean(xs: seq<real>): real
    requires |xs| > 0
  {
    Sum(xs) / |xs| as real
  }

  /** The arithmetic mean of a non-empty sequence lies between its bounds. */
  lemma MeanBounds(xs: seq<real>, lo: real, hi: real)
    requires |xs| > 0
    requires forall i :: 0 <= i < |xs| ==> lo <= xs[i] <= hi
    ensures lo <= Mean(xs) <= hi
  {
    SumBounds(xs, lo, hi);
    var n := |xs| as real;
    assert n * lo <= Sum(xs) <= n * hi;
    assert Sum(xs) / n >= lo by {
      assert (Sum(xs) / n) * n == Sum(xs);
    }
    assert Sum(xs) / n <= hi by {
      assert (Sum(xs) / n) * n == Sum(xs);
    }
  }

  /** `max(xs)` */
  function MaxOf(xs: seq<real>): (m: real)
    requires |xs| > 0
    ensures m in xs
    ensures forall i :: 0 <= i < |xs| ==> xs[i] <= m
  {
    if |xs| == 1 then xs[0]
    else
      var m' := MaxOf(xs[..|xs| - 1]);
      assert forall i :: 0 <= i < |xs| - 1 ==> xs[i] == xs[..|xs| - 1][i];
      if xs[|xs| - 1] > m' then xs[|xs| - 1] else m'
  }

  /** `min(xs)` */
  function MinOf(xs: seq<real>): (m: real)
    requires |xs| > 0
    ensures m in xs
    ensures forall i :: 0 <= i < |xs| ==> m <= xs[i]
  {
    if |xs| == 1 then xs[0]
    else
      var m' := MinOf(xs[..|xs| - 1]);
      assert forall i :: 0 <= i < |xs| - 1 ==> xs[i] == xs[..|xs| - 1][i];
      if xs[|xs| - 1] < m' then xs[|xs| - 1] else m'
  }

  /** `[y for x in xs for y in f(x)]`: the pieces `f` gives for each element, concatenated in order. */
  function Gather<X, Y>(xs: seq<X>, f: X -> seq<Y>): seq<Y>
  {
    if xs == [] then [] else Gather(xs[..|xs| - 1], f) + f(xs[|xs| - 1])
  }

  lemma {:induction false} GatherAppend<X, Y>(a: seq<X>, b: seq<X>, f: X -> seq<Y>)
    ensures Gather(a + b, f) == Gather(a, f) + Gather(b, f)
    decreases |b|
  {
    if b == [] {
      assert a + b == a;
    } else {
      assert (a + b)[..|a + b| - 1] == a + b[..|b| - 1];
      GatherAppend(a, b[..|b| - 1], f);
    }
  }

  /** Gathering over a permutation gives a permutation of the pieces. */
  lemma {:induction false} GatherPermutation<X, Y>(a: seq<X>, b: seq<X>, f: X -> seq<Y>)
    requires multiset(a) == multiset(b)
    ensures multiset(Gather(a, f)) == multiset(Gather(b, f))
    decreases |a|
  {
    if a != [] {
      var x := a[|a| - 1];
      var a' := a[..|a| - 1];
      assert x in multiset(b);
      var p :| 0 <= p < |b| && b[p] == x;
      var b' := b[..p] + b[p + 1..];
      RemoveAtMultiset(a, |a| - 1);
      RemoveAtMultiset(b, p);
      assert a[..|a| - 1] + a[|a|..] == a';
      GatherPermutation(a', b', f);
      GatherSplice(a, |a| - 1, f);
      GatherSplice(b, p, f);
    }
  }

  lemma RemoveAtMultiset<X>(s: seq<X>, p: nat)
    requires p < |s|
    ensures multiset(s[..p] + s[p + 1..]) == multiset(s) - multiset{s[p]}
  {
    assert s == s[..p] + [s[p]] + s[p + 1..];
  }

  /** Gathering around one element: its own piece between those of its neighbours. */
  lemma GatherSplice<X, Y>(s: seq<X>, p: nat, f: X -> seq<Y>)
    requires p < |s|
    ensures multiset(Gather(s, f)) == multiset(Gather(s[..p] + s[p + 1..], f)) + multiset(f(s[p]))
  {
    var l, x, r := s[..p], s[p], s[p + 1..];
    assert s == (l + [x]) + r;
    GatherAppend(l + [x], r, f);
    GatherAppend(l, [x], f);
    GatherAppend(l, r, f);
    assert Gather([x], f) == f(x) by {
      assert [x][..0] == [];
    }
    var gl, gr := Gather(l, f), Gather(r, f);
    assert Gather(s, f) == gl + f(x) + gr;
    assert Gather(l + r, f) == gl + gr;
    assert multiset(gl + f(x) + gr) == multiset(gl) + multiset(f(x)) + multiset(gr);
  }

  /** Each element's piece is part of the gathered whole. */
  lemma GatherMember<X, Y>(s: seq<X>, p: nat, f: X -> seq<Y>)
    requires p < |s|
    ensures forall y :: y in f(s[p]) ==> y in Gather(s, f)
  {
    GatherSplice(s, p, f);
    forall y | y in f(s[p])
      ensures y in Gather(s, f)
    {
      assert y in multiset(f(s[p]));
      assert y in multiset(Gather(s, f));
    }
  }
}
