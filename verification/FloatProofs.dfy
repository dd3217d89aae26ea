/** What is printed of a float, and what stof makes of it. */
module FloatProofs {
  import Sums
  import opened Decimal
  import opened Floats

  // ---- rounding to six digits ----

  lemma {:induction false} SizeBounds(m: nat)
    ensures Size(m) > 0 && m < Pow10(Size(m))
    ensures m > 0 ==> Pow10(Size(m) - 1) <= m
  {
    if m >= 10 {
      SizeBounds(m / 10);
      assert NatText(m) == NatText(m / 10) + [Digit(m % 10)];
      assert Size(m) == Size(m / 10) + 1;
      assert m == 10 * (m / 10) + m % 10;
    } else {
      assert NatText(m) == [Digit(m)];
      assert Size(m) == 1 && Pow10(1) == 10 * Pow10(0);
    }
  }

  lemma {:induction false} PowSum(a: nat, b: nat)
    ensures Pow10(a + b) == Pow10(a) * Pow10(b)
  {
    if a > 0 {
      PowSum(a - 1, b);
      assert Pow10(a) == 10 * Pow10(a - 1);
      assert (10 * Pow10(a - 1)) * Pow10(b) == 10 * (Pow10(a - 1) * Pow10(b));
    }
  }

  lemma {:induction false} PowMonotone(a: nat, b: nat)
    requires a <= b
    ensures Pow10(a) <= Pow10(b)
  {
    if a < b {
      PowMonotone(a, b - 1);
    }
  }

  lemma PowSix()
    ensures Pow10(5) == 100_000 && Pow10(6) == SIX
  {
    assert Pow10(1) == 10;
    assert Pow10(2) == 100;
    assert Pow10(3) == 1_000;
    assert Pow10(4) == 10_000;
    assert Pow10(5) == 100_000;
  }

  lemma SizeSix(m: nat)
    ensures m < SIX <==> Size(m) <= 6
  {
    PowSix();
    SizeBounds(m);
    if Size(m) <= 6 {
      PowMonotone(Size(m), 6);
    } else {
      PowMonotone(6, Size(m) - 1);
    }
  }

  lemma NearestIsNearest(m: nat, p: nat)
    requires p > 0
    ensures 0 - p <= 2 * (Nearest(m, p) * p - m) <= p
    ensures m / p <= Nearest(m, p) <= m / p + 1
  {
    var q, r := m / p, m % p;
    assert m == q * p + r;
    assert (q + 1) * p == q * p + p;
  }

  lemma Quotient(m: nat, p: nat, low: nat, high: nat)
    requires p > 0 && low * p <= m < high * p
    ensures low <= m / p < high
  {
    var q := m / p;
    Sums.DivBounds(m, p);
    if q < low {
      Sums.MulLe(q + 1, low, p);
      assert false;
    }
    if high <= q {
      Sums.MulLe(high, q, p);
      assert false;
    }
  }

  /** A float of more than six digits is rounded to a multiple n of its sixth digit's unit, no further
      than half of it away. */
  lemma RoundedNearest(x: Single) returns (n: nat, d: nat)
    requires x.Finite? && x.m >= SIX
    ensures 100_000 <= n <= SIX && Rounded(x) == Reduce(x.negative, n, x.e + d)
    ensures 0 - Pow10(d) <= 2 * (n * Pow10(d) - x.m) <= Pow10(d)
  {
    hide Nearest, Pow10;
    SizeSix(x.m);
    SizeBounds(x.m);
    PowSix();
    d := Size(x.m) - 6;
    n := Nearest(x.m, Pow10(d));
    PowSum(5, d);
    PowSum(6, d);
    Quotient(x.m, Pow10(d), 100_000, SIX);
    NearestIsNearest(x.m, Pow10(d));
  }

  /** Rounding leaves at most six digits, and floats of six digits as they are. */
  lemma RoundedShort(x: Single)
    requires x.Finite?
    ensures Rounded(x).Finite? && Rounded(x).m < SIX && Rounded(x).negative == x.negative
    ensures Rounded(x) == x <==> x.m < SIX
  {
    if x.m >= SIX {
      var n, d := RoundedNearest(x);
      if n == SIX {
        var half := Reduce(x.negative, SIX / 10, x.e + d + 1);
        assert Reduce(x.negative, SIX, x.e + d) == half;
      }
    }
  }

  // ---- reading digits ----

  predicate Digits(s: string) { forall k :: 0 <= k < |s| ==> IsDigit(s[k]) }

  predicate NoDigit(s: string) { s == "" || !IsDigit(s[0]) }

  lemma {:induction false} RunOf(w: string, rest: string)
    requires Digits(w) && NoDigit(rest)
    ensures Run(w + rest) == |w|
  {
    if w == "" {
      assert w + rest == rest;
    } else {
      assert (w + rest)[1..] == w[1..] + rest;
      RunOf(w[1..], rest);
    }
  }

  lemma {:induction false} HornerZeros(n: nat, k: nat)
    ensures Horner(n, Zeros(k)) == n * Pow10(k)
    decreases k
  {
    if k > 0 {
      assert Zeros(k)[1..] == Zeros(k - 1);
      HornerZeros(n * 10, k - 1);
      assert (n * 10) * Pow10(k - 1) == n * (10 * Pow10(k - 1));
    }
  }

  lemma {:induction false} HornerPadded(k: nat, s: string)
    ensures Horner(0, Zeros(k) + s) == Horner(0, s)
  {
    if k == 0 {
      assert Zeros(0) + s == s;
    } else {
      assert (Zeros(k) + s)[1..] == Zeros(k - 1) + s;
      HornerPadded(k - 1, s);
    }
  }

  lemma HornerNat(m: nat)
    ensures Horner(0, NatText(m)) == m
  {
    HornerText(m, "");
    assert NatText(m) + "" == NatText(m);
  }

  lemma ExponentRead(n: int)
    ensures ScanExponent("e" + ExponentText(n)) == n
  {
    hide NatText, Horner;
    var a := if n < 0 then -n else n;
    var pad := if a < 10 then "0" else "";
    var u := ("e" + ExponentText(n))[1..];
    assert u == ExponentText(n);
    assert u[1..] == pad + NatText(a);
    HornerNat(a);
    HornerPadded(1, NatText(a));
    assert Zeros(1) == "0" by { assert Zeros(0) == ""; }
    assert "" + NatText(a) == NatText(a);
  }

  /** A text with a point, or without. */
  lemma DecimalParts(negative: bool, whole: string, fraction: string, rest: string)
    requires Digits(whole) && whole != "" && Digits(fraction) && NoDigit(rest)
    ensures ScanDecimal(negative, whole + ("." + (fraction + rest)))
         == Scanned(Reduce(negative, Horner(0, whole + fraction), ScanExponent(rest) - |fraction|))
    ensures rest == "" || rest[0] != '.' ==>
              ScanDecimal(negative, whole + rest) == Scanned(Reduce(negative, Horner(0, whole), ScanExponent(rest)))
  {
    hide Horner, Reduce, ScanExponent;
    var tail := "." + (fraction + rest);
    var t := whole + tail;
    RunOf(whole, tail);
    RunOf(whole, rest);
    RunOf(fraction, rest);
    var i := |whole|;
    assert t[..i] == whole && t[i + 1..] == fraction + rest;
    assert t[i + 1..i + 1 + |fraction|] == fraction && t[i + 1 + |fraction|..] == rest;
    assert (whole + rest)[..i] == whole && (whole + rest)[i..] == rest && whole + "" == whole;
  }

  // ---- reading what was printed ----

  lemma NatDigits(m: nat)
    ensures Digits(NatText(m)) && NatText(m) != ""
  {
  }

  /** The digits of a reduced float, as they are printed, give it back. */
  lemma MagnitudeRead(x: Single)
    requires x.Finite?
    ensures ScanDecimal(x.negative, MagnitudeText(x.m, x.e)) == Scanned(x)
  {
    hide Horner, Reduce, ScanExponent, ScanDecimal, NatText, Zeros, ExponentText;
    var ds, exponent := NatText(x.m), Exponent(x.m, x.e);
    NatDigits(x.m);
    HornerNat(x.m);
    ReduceReduced(x);
    if !IsFixed(x.m, x.e) {
      ScientificRead(x, ds, exponent);
    } else if x.e >= 0 {
      WholeRead(x, ds);
    } else if exponent >= 0 {
      PointRead(x, ds, exponent + 1);
    } else {
      SmallRead(x, ds, -exponent - 1);
    }
  }

  lemma NoExponent()
    ensures ScanExponent("") == 0
  {
  }

  lemma ScientificRead(x: Single, ds: string, exponent: int)
    requires x.Finite? && ds == NatText(x.m) && exponent == |ds| - 1 + x.e && !IsFixed(x.m, x.e)
    requires Digits(ds) && ds != "" && Horner(0, ds) == x.m && Reduce(x.negative, x.m, x.e) == x
    ensures ScanDecimal(x.negative, MagnitudeText(x.m, x.e)) == Scanned(x)
  {
    hide Horner, Reduce, ScanExponent, ScanDecimal, NatText, ExponentText, IsFixed;
    var rest := "e" + ExponentText(exponent);
    ExponentRead(exponent);
    DecimalParts(x.negative, ds[..1], ds[1..], rest);
    assert ds[..1] + ds[1..] == ds;
    ScientificText(x.m, x.e, ds, rest);
    assert |ds| == 1 ==> ds[..1] == ds;
  }

  lemma ScientificText(m: nat, e: int, ds: string, rest: string)
    requires ds == NatText(m) && rest == "e" + ExponentText(Exponent(m, e)) && !IsFixed(m, e)
    ensures |ds| > 1 ==> MagnitudeText(m, e) == ds[..1] + ("." + (ds[1..] + rest))
    ensures |ds| == 1 ==> MagnitudeText(m, e) == ds + rest
  {
    hide NatText, ExponentText, IsFixed;
    var exponent := ExponentText(Exponent(m, e));
    if |ds| > 1 {
      assert MagnitudeText(m, e) == ds[..1] + ("." + ds[1..]) + "e" + exponent;
      assert ds[..1] + ("." + ds[1..]) + "e" + exponent == ds[..1] + ("." + (ds[1..] + rest));
    } else if |ds| == 1 {
      assert ds[..1] == ds;
    }
  }

  lemma WholeRead(x: Single, ds: string)
    requires x.Finite? && ds == NatText(x.m) && IsFixed(x.m, x.e) && x.e >= 0 && Digits(ds) && ds != ""
    requires Reduce(x.negative, x.m, x.e) == x
    ensures ScanDecimal(x.negative, MagnitudeText(x.m, x.e)) == Scanned(x)
  {
    hide Horner, Reduce, ScanExponent, ScanDecimal, NatText, IsFixed, Pow10;
    var t := ds + Zeros(x.e);
    DecimalParts(x.negative, t, "", "");
    NoExponent();
    HornerText(x.m, Zeros(x.e));
    HornerZeros(x.m, x.e);
    ReduceScaled(x.negative, x.m, x.e, x.e);
    assert t + "" == t;
  }

  lemma PointRead(x: Single, ds: string, k: nat)
    requires x.Finite? && ds == NatText(x.m) && IsFixed(x.m, x.e) && x.e < 0 && k == |ds| + x.e > 0
    requires Digits(ds) && Horner(0, ds) == x.m && Reduce(x.negative, x.m, x.e) == x
    ensures ScanDecimal(x.negative, MagnitudeText(x.m, x.e)) == Scanned(x)
  {
    hide Horner, Reduce, ScanExponent, ScanDecimal, NatText, IsFixed;
    DecimalParts(x.negative, ds[..k], ds[k..], "");
    NoExponent();
    assert ds[..k] + ds[k..] == ds;
    assert MagnitudeText(x.m, x.e) == ds[..k] + ("." + (ds[k..] + ""));
  }

  lemma SmallRead(x: Single, ds: string, k: nat)
    requires x.Finite? && ds == NatText(x.m) && IsFixed(x.m, x.e) && x.e < 0 && k == -(|ds| + x.e)
    requires Digits(ds) && Horner(0, ds) == x.m && Reduce(x.negative, x.m, x.e) == x
    ensures ScanDecimal(x.negative, MagnitudeText(x.m, x.e)) == Scanned(x)
  {
    hide Horner, Reduce, ScanExponent, ScanDecimal, NatText, IsFixed;
    var fraction := Zeros(k) + ds;
    DecimalParts(x.negative, "0", fraction, "");
    NoExponent();
    HornerPadded(k + 1, ds);
    assert "0" + fraction == Zeros(k + 1) + ds;
    assert MagnitudeText(x.m, x.e) == "0" + ("." + (fraction + ""));
  }

  // ---- the characters of a printed float ----

  predicate Plausible(c: char) {
    || IsDigit(c) || c == '.' || c == 'e' || c == '+' || c == '-'
    || c == 'i' || c == 'n' || c == 'f' || c == 'a'
  }

  lemma MagnitudeChars(m: nat, e: int)
    ensures var t := MagnitudeText(m, e);
      && t != "" && IsDigit(t[0])
      && (forall k :: 0 <= k < |t| ==> Plausible(t[k]))
      && ('.' in t <==> if IsFixed(m, e) then e < 0 else m >= 10)
  {
    NatDigits(m);
    NatDigits(if Exponent(m, e) < 0 then -Exponent(m, e) else Exponent(m, e));
    SizeBounds(m);
    assert |NatText(m)| > 1 <==> m >= 10;
    hide NatText, Zeros;
    assert forall k :: 0 <= k < |ExponentText(Exponent(m, e))| ==>
      Plausible(ExponentText(Exponent(m, e))[k]) && ExponentText(Exponent(m, e))[k] != '.';
    hide ExponentText;
  }

  lemma SignRead(negative: bool, t: string)
    requires t != "" && (IsDigit(t[0]) || t[0] == 'i' || t[0] == 'n')
    ensures ScanFloat(SignText(negative) + t) == ScanMagnitude(negative, t)
  {
    hide ScanMagnitude;
    if negative {
      assert SignText(negative) + t == "-" + t;
      assert ("-" + t)[0] == '-' && ("-" + t)[1..] == t;
    } else {
      assert SignText(negative) + t == t;
    }
  }

  lemma DigitsRead(negative: bool, t: string)
    requires t != "" && IsDigit(t[0]) && (|t| > 1 ==> Plausible(t[1]))
    ensures ScanMagnitude(negative, t) == ScanDecimal(negative, t)
  {
    hide ScanDecimal, ScanHex;
  }

  lemma SignHasNoPoint(negative: bool, t: string)
    ensures '.' in SignText(negative) + t <==> '.' in t
  {
  }

  /** stof reads of a printed float its six digits. */
  lemma PrintedRead(x: Single)
    ensures ScanFloat(FloatText(x)) == Scanned(Rounded(x))
    ensures '.' in FloatText(x) <==> HasPoint(Rounded(x))
  {
    hide MagnitudeText, ScanDecimal, ScanMagnitude, ScanFloat, SignText;
    if x.Finite? {
      RoundedShort(x);
      hide Rounded;
      var y := Rounded(x);
      var t := MagnitudeText(y.m, y.e);
      MagnitudeRead(y);
      MagnitudeChars(y.m, y.e);
      SignRead(x.negative, t);
      DigitsRead(x.negative, t);
      SignHasNoPoint(x.negative, t);
    } else {
      var t := if x.Infinite? then "inf" else "nan";
      SignRead(x.negative, t);
      SignHasNoPoint(x.negative, t);
      SpecialRead(x.negative);
    }
  }

  lemma SpecialRead(negative: bool)
    ensures ScanMagnitude(negative, "inf") == Scanned(Infinite(negative))
    ensures ScanMagnitude(negative, "nan") == Scanned(NotANumber(negative))
  {
    InfinityRead(negative, "inf");
    NanRead(negative, "nan");
  }

  lemma InfinityRead(negative: bool, t: string)
    requires |t| > 2 && t[0] == 'i' && t[1] == 'n' && t[2] == 'f'
    ensures ScanMagnitude(negative, t) == Scanned(Infinite(negative))
  {
    hide ScanDecimal, ScanHex;
  }

  lemma NanRead(negative: bool, t: string)
    requires |t| > 2 && t[0] == 'n' && t[1] == 'a' && t[2] == 'n'
    ensures ScanMagnitude(negative, t) == Scanned(NotANumber(negative))
  {
    hide ScanDecimal, ScanHex;
    assert 'n' !in ['i', 'I'];
  }

  /** Characters of a printed float: none of them ends a token or starts a number's sign twice. */
  lemma PrintedChars(x: Single)
    ensures FloatText(x) != "" && (IsDigit(FloatText(x)[0]) || FloatText(x)[0] in "-in")
    ensures forall k :: 0 <= k < |FloatText(x)| ==> Plausible(FloatText(x)[k])
  {
    hide MagnitudeText, Rounded;
    var y := Rounded(x);
    if y.Finite? {
      MagnitudeChars(y.m, y.e);
    }
  }

  /** A whole float is printed without its point. */
  lemma WholeExample()
    ensures FloatText(Finite(false, 1, 0)) == "1"
  {
    assert NatText(1) == "1" && Zeros(0) == "";
  }

  lemma NextDigit(m: nat, d: nat)
    requires m > 0 && d < 10
    ensures NatText(10 * m + d) == NatText(m) + [Digit(d)]
  {
  }

  /** 3.14159265 loses its last three digits. */
  lemma LongExample()
    ensures Rounded(Finite(false, 314_159_265, -8)) == Finite(false, 314_159, -5)
    ensures FloatText(Finite(false, 314_159_265, -8)) == "3.14159"
  {
    assert NatText(3) == "3" && Pow10(1) == 10 && Pow10(2) == 100 && Pow10(3) == 1_000;
    NextDigit(3, 1);
    NextDigit(31, 4);
    NextDigit(314, 1);
    NextDigit(3141, 5);
    NextDigit(31_415, 9);
    NextDigit(314_159, 2);
    NextDigit(3_141_592, 6);
    NextDigit(31_415_926, 5);
    hide NatText, Pow10;
    assert NatText(314_159) == "314159";
    assert Size(314_159_265) == 9;
  }
}
