/** Sums of a natural-valued measure over a sequence, sequences from their end, and integer division. */
module Sums {

  function Min(a: int, b: int): int { if a <= b then a else b }

  function Max(a: int, b: int): int { if a >= b then a else b }

  function Last<T>(s: seq<T>): T
    requires s != []
  {
    s[|s| - 1]
  }

  function Front<T>(s: seq<T>): seq<T>
    requires s != []
  {
    s[..|s| - 1]
  }

  function SumBy<T>(s: seq<T>, f: T -> nat): nat {
    if s == [] then 0 else f(s[0]) + SumBy(s[1..], f)
  }

  lemma {:induction false} SumByConcat<T>(s: seq<T>, t: seq<T>, f: T -> nat)
    ensures SumBy(s + t, f) == SumBy(s, f) + SumBy(t, f)
  {
    if s == [] {
      assert s + t == t;
    } else {
      SumByConcat(s[1..], t, f);
      assert (s + t)[1..] == s[1..] + t;
    }
  }

  lemma SumByAppend<T>(s: seq<T>, x: T, f: T -> nat)
    ensures SumBy(s + [x], f) == SumBy(s, f) + f(x)
  {
    SumByConcat(s, [x], f);
    assert SumBy([x], f) == f(x) + SumBy([x][1..], f);
  }

  /** Splitting a sum at position k. */
  lemma SumBySplit<T>(s: seq<T>, k: nat, f: T -> nat)
    requires k < |s|
    ensures SumBy(s, f) == SumBy(s[..k], f) + f(s[k]) + SumBy(s[k + 1..], f)
  {
    assert s == s[..k] + [s[k]] + s[k + 1..];
    SumByConcat(s[..k] + [s[k]], s[k + 1..], f);
    SumByAppend(s[..k], s[k], f);
  }

  lemma SumByUpdate<T>(s: seq<T>, k: nat, x: T, f: T -> nat)
    requires k < |s|
    ensures SumBy(s[k := x], f) + f(s[k]) == SumBy(s, f) + f(x)
  {
    var t := s[k := x];
    SumBySplit(s, k, f);
    SumBySplit(t, k, f);
    assert t[..k] == s[..k] && t[k + 1..] == s[k + 1..];
  }

  /** A pointwise comparison carries over to the sums. */
  lemma {:induction false} SumByLe<S, T>(s: seq<S>, f: S -> nat, t: seq<T>, g: T -> nat)
    requires |s| == |t|
    requires forall i :: 0 <= i < |s| ==> f(s[i]) <= g(t[i])
    ensures SumBy(s, f) <= SumBy(t, g)
  {
    if s != [] {
      SumByLe(s[1..], f, t[1..], g);
    }
  }

  lemma SumByEq<S, T>(s: seq<S>, f: S -> nat, t: seq<T>, g: T -> nat)
    requires |s| == |t|
    requires forall i :: 0 <= i < |s| ==> f(s[i]) == g(t[i])
    ensures SumBy(s, f) == SumBy(t, g)
  {
    SumByLe(s, f, t, g);
    SumByLe(t, g, s, f);
  }

  /** Pointwise sums of two measures. */
  lemma {:induction false} SumByAdd<S, T>(s: seq<S>, f: S -> nat, t: seq<T>, g: T -> nat, h: T -> nat)
    requires |s| == |t|
    requires forall i :: 0 <= i < |s| ==> f(s[i]) == g(t[i]) + h(t[i])
    ensures SumBy(s, f) == SumBy(t, g) + SumBy(t, h)
  {
    if s != [] {
      SumByAdd(s[1..], f, t[1..], g, h);
    }
  }

  /** A pointwise gain of at most p for each unit of h; exact when every gain is. */
  lemma {:induction false} SumByGain<T>(s: seq<T>, f: T -> nat, t: seq<T>, h: T -> nat, p: nat)
    requires |s| == |t|
    requires forall i :: 0 <= i < |s| ==> f(t[i]) <= f(s[i]) + p * h(s[i])
    ensures SumBy(t, f) <= SumBy(s, f) + p * SumBy(s, h)
    ensures (forall i :: 0 <= i < |s| ==> f(t[i]) == f(s[i]) + p * h(s[i])) ==>
              SumBy(t, f) == SumBy(s, f) + p * SumBy(s, h)
  {
    if s != [] {
      SumByGain(s[1..], f, t[1..], h, p);
      Distribute(p, h(s[0]), SumBy(s[1..], h));
    }
  }

  lemma {:induction false} SumByMember<T>(s: seq<T>, k: nat, f: T -> nat)
    requires k < |s|
    ensures f(s[k]) <= SumBy(s, f)
  {
    SumBySplit(s, k, f);
  }

  lemma Distribute(p: nat, a: nat, b: nat)
    ensures p * (a + b) == p * a + p * b
  {
  }

  // ---- integer division ----

  lemma DivBounds(n: int, d: int)
    requires d > 0
    ensures d * (n / d) <= n < d * (n / d) + d
  {
  }

  lemma MulLe(a: nat, b: nat, c: nat)
    requires a <= b
    ensures a * c <= b * c
  {
    assert (b - a) * c >= 0;
    assert (b - a) * c == b * c - a * c;
  }

  lemma MulGap(p: int, q: int, d: int)
    requires d > 0 && p < q
    ensures p * d + d <= q * d
  {
    assert (q - p - 1) * d >= 0;
    assert (q - p - 1) * d == q * d - p * d - d;
  }

  /** q is the quotient as soon as q * d <= n < (q + 1) * d. */
  lemma DivUnique(n: int, d: int, q: int)
    requires d > 0
    requires q * d <= n < q * d + d
    ensures n / d == q
  {
    DivBounds(n, d);
    var p := n / d;
    assert d * p == p * d;
    if p < q {
      MulGap(p, q, d);
    } else if q < p {
      MulGap(q, p, d);
    }
  }
}
