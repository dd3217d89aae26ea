/** What becomes of every number that is printed and read again. */
module TomlNumbers {
  import Sums
  import opened Decimal
  import opened Floats
  import opened FloatProofs
  import opened Pieces
  import opened SingleDelimiters
  import opened Tokenization
  import opened TomlModel
  import opened TomlPrinting
  import opened TomlProofs
  import opened TomlExactness

  /** A word is read as the value it stands for. */
  lemma WordReadsAs(w: string, v: Value)
    requires Word(D, w)
    ensures ReadsAs(w, v) <==> AtomOf(Token(w, 1)).Ok? && AtomOf(Token(w, 1)).value == v
  {
    TextOfContent(w);
    hide Cut, Word, NextToken, ParseValue, AtomOf, Visible, OpeningOf;
    NewlineBounded();
    TomlDelimiters();
    CutWord(D, w, "\n");
    CutNewline();
    var ps := Cut(D, w + "\n");
    assert ps == [w, "\n"];
    WordOpens(w);
    NextVisible(ps, 0);
    ValueUnfold(ps, 0);
  }

  /** An integer comes back modulo 2^32, in the signed range. */
  lemma IntReadBack(n: int)
    ensures ReadsAs(DumpItem(Int(n)), Int(Wrapped(n)))
    ensures -0x8000_0000 <= Wrapped(n) < 0x8000_0000 && (Wrapped(n) - n) % 0x1_0000_0000 == 0
  {
    hide ReadsAs, IntText;
    ItemExact(Int(Wrapped(n)));
    Unwrapped(Wrapped(n));
  }

  function Signed(negative: bool, n: nat): int { if negative then 0 - n else n }

  /** The digits in front of the point or of the exponent. */
  function Whole(y: Single): nat
    requires y.Finite?
  {
    if IsFixed(y.m, y.e) && y.e >= 0 then y.m * Pow10(y.e) else y.m
  }

  /** A float comes back as its six digits if these are printed with a point. Otherwise it becomes an
      integer: a whole number of up to six digits becomes itself, but in scientific notation only the
      first digit is read. Without digits, or rounded out of range, it is an error. */
  lemma FloatReadBack(x: Single)
    ensures var y := Rounded(x);
      if !x.Finite? then forall v :: !ReadsAs(DumpItem(Float(x)), v)
      else if !HasPoint(y) then ReadsAs(DumpItem(Float(x)), Int(Signed(x.negative, Whole(y))))
      else if InRange(y) then ReadsAs(DumpItem(Float(x)), Float(y))
      else forall v :: !ReadsAs(DumpItem(Float(x)), v)
  {
    hide ReadsAs, FloatText, Rounded, InRange;
    if x.Finite? {
      RoundedShort(x);
      if HasPoint(Rounded(x)) {
        RoundedShort(Rounded(x));
        SameText(x, Rounded(x));
        ItemExact(Float(Rounded(x)));
        if !InRange(Rounded(x)) {
          OutOfRangeLost(x);
        }
      } else {
        PointlessRead(x);
      }
    } else {
      SpecialLost(x);
    }
  }

  lemma SameText(x: Single, y: Single)
    requires x.Finite? && y == Rounded(x) && Rounded(y) == y && x.negative == y.negative
    ensures FloatText(x) == FloatText(y)
  {
    hide Rounded;
  }

  lemma OutOfRangeLost(x: Single)
    requires x.Finite? && HasPoint(Rounded(x)) && !InRange(Rounded(x))
    ensures forall v :: !ReadsAs(DumpItem(Float(x)), v)
  {
    hide InRange, FloatText, HasPoint, Rounded, ScanFloat;
    FloatIsWord(x);
    PrintedRead(x);
    var w := FloatText(x);
    assert w != "true" && w != "false";
    assert AtomOf(Token(w, 1)).Err?;
    hide ReadsAs, AtomOf, Word;
    forall v ensures !ReadsAs(w, v) {
      WordReadsAs(w, v);
    }
  }

  lemma SpecialLost(x: Single)
    requires !x.Finite?
    ensures forall v :: !ReadsAs(DumpItem(Float(x)), v)
  {
    var w := FloatText(x);
    FloatIsWord(x);
    assert AtomOf(Token(w, 1)).Err? by {
      PrintedRead(x);
      NoDigits(x.negative, if x.Infinite? then "inf" else "nan");
    }
    hide ReadsAs, AtomOf, FloatText;
    forall v ensures !ReadsAs(w, v) {
      WordReadsAs(w, v);
    }
  }

  lemma NoDigits(negative: bool, t: string)
    requires t == "inf" || t == "nan"
    ensures ScanInt(SignText(negative) + t) == NoNumber
  {
    assert ("-" + t)[1..] == t && "" + t == t;
  }

  /** The text of a float without a point: its whole part, then nothing or an exponent. */
  lemma PointlessText(y: Single)
    requires y.Finite? && y.m < SIX && !HasPoint(y)
    ensures MagnitudeText(y.m, y.e) != "" && IsDigit(MagnitudeText(y.m, y.e)[0])
    ensures Horner(0, MagnitudeText(y.m, y.e)) == Whole(y) && Whole(y) < SIX
  {
    hide Horner, NatText, Zeros, ExponentText;
    NatDigits(y.m);
    HornerNat(y.m);
    MagnitudeChars(y.m, y.e);
    if IsFixed(y.m, y.e) {
      HornerText(y.m, Zeros(y.e));
      HornerZeros(y.m, y.e);
      WholeBound(y.m, y.e);
    } else {
      var rest := "e" + ExponentText(Exponent(y.m, y.e));
      OneDigit(y.m);
      HornerText(y.m, rest);
      HornerStops(y.m, rest);
      assert NatText(y.m)[..1] == NatText(y.m);
      assert MagnitudeText(y.m, y.e) == NatText(y.m) + rest;
    }
  }

  lemma OneDigit(m: nat)
    requires m < 10
    ensures |NatText(m)| == 1
  {
  }

  lemma HornerStops(n: nat, s: string)
    requires s != "" && !IsDigit(s[0])
    ensures Horner(n, s) == n
  {
  }

  lemma WholeBound(m: nat, e: nat)
    requires IsFixed(m, e)
    ensures m * Pow10(e) < SIX
  {
    hide Pow10, NatText;
    SizeBounds(m);
    PowSum(Size(m), e);
    PowMonotone(Size(m) + e, 6);
    PowSix();
    Sums.MulLe(m + 1, Pow10(Size(m)), Pow10(e));
    assert (m + 1) * Pow10(e) == m * Pow10(e) + Pow10(e);
  }

  lemma PointlessRead(x: Single)
    requires x.Finite? && !HasPoint(Rounded(x))
    ensures ReadsAs(DumpItem(Float(x)), Int(Signed(x.negative, Whole(Rounded(x)))))
  {
    hide ReadsAs, MagnitudeText, Rounded, Word, Horner, ScanInt, HasPoint, Whole;
    var y, w := Rounded(x), FloatText(x);
    RoundedShort(x);
    FloatIsWord(x);
    PrintedRead(x);
    PointlessText(y);
    var t := MagnitudeText(y.m, y.e);
    ScanDigits(t);
    assert "" + t == t;
    assert w == if x.negative then "-" + t else t;
    assert w[0] == '-' || IsDigit(w[0]);
    assert w[0] != 't' && w[0] != 'f';
    WordReadsAs(w, Int(Signed(x.negative, Whole(y))));
  }
}
