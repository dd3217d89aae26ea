/** Floats as exact decimals: how a stream prints them with its six significant digits, and what stof
    reads. */
module Floats {
  import opened Decimal

  /** A sign and m * 10^e, or one of the values without digits. */
  datatype Number =
    | Finite(negative: bool, m: nat, e: int)
    | Infinite(negative: bool)
    | NotANumber(negative: bool)

  predicate Reduced(x: Number) {
    x.Finite? ==> if x.m == 0 then x.e == 0 else x.m % 10 != 0
  }

  /** Every value has one representation: the last digit of m is not 0. */
  type Single = x: Number | Reduced(x) witness Infinite(false)

  function Pow(base: nat, n: nat): nat { if n == 0 then 1 else base * Pow(base, n - 1) }

  function Pow10(n: nat): (p: nat)
    ensures p > 0
  {
    if n == 0 then 1 else 10 * Pow10(n - 1)
  }

  /** The float m * 10^e. */
  function Reduce(negative: bool, m: nat, e: int): (x: Single)
    ensures x.Finite? && x.negative == negative && x.m <= m
    decreases m
  {
    if m == 0 then Finite(negative, 0, 0)
    else if m % 10 == 0 then Reduce(negative, m / 10, e + 1)
    else Finite(negative, m, e)
  }

  // ---- printing ----

  /** One more than the largest number of six digits. */
  const SIX := 1_000_000

  /** Number of digits. */
  function Size(m: nat): nat { |NatText(m)| }

  /** m / p rounded to the nearest integer, halves to the even one. */
  function Nearest(m: nat, p: nat): nat
    requires p > 0
  {
    var q, r := m / p, m % p;
    if 2 * r > p || (2 * r == p && q % 2 == 1) then q + 1 else q
  }

  /** The nearest float with at most six significant digits. */
  function Rounded(x: Single): Single {
    if !x.Finite? || x.m < SIX then x
    else
      var d := if Size(x.m) > 6 then Size(x.m) - 6 else 0;
      Reduce(x.negative, Nearest(x.m, Pow10(d)), x.e + d)
  }

  function Zeros(n: nat): (s: string)
    ensures |s| == n && forall k :: 0 <= k < n ==> s[k] == '0'
  {
    if n == 0 then "" else "0" + Zeros(n - 1)
  }

  function SignText(negative: bool): string { if negative then "-" else "" }

  function ExponentText(exponent: int): string {
    var n := if exponent < 0 then -exponent else exponent;
    (if exponent < 0 then "-" else "+") + (if n < 10 then "0" else "") + NatText(n)
  }

  /** The decimal exponent of the first digit. */
  function Exponent(m: nat, e: int): int { Size(m) - 1 + e }

  predicate IsFixed(m: nat, e: int) { -4 <= Exponent(m, e) < 6 }

  /** The digits of a number, in fixed or in scientific notation. */
  function MagnitudeText(m: nat, e: int): string {
    var ds, exponent := NatText(m), Exponent(m, e);
    if !IsFixed(m, e) then
      ds[..1] + (if |ds| > 1 then "." + ds[1..] else "") + "e" + ExponentText(exponent)
    else if e >= 0 then ds + Zeros(e)
    else if exponent >= 0 then ds[..exponent + 1] + "." + ds[exponent + 1..]
    else "0." + Zeros(-exponent - 1) + ds
  }

  function FloatText(x: Single): string {
    var y := Rounded(x);
    SignText(x.negative)
    + match y
      case Finite(_, m, e) => MagnitudeText(m, e)
      case Infinite(_) => "inf"
      case NotANumber(_) => "nan"
  }

  /** Whether a float of six digits is printed with a point. */
  predicate HasPoint(x: Single) {
    x.Finite? && if IsFixed(x.m, x.e) then x.e < 0 else x.m >= 10
  }

  // ---- reading ----

  /** How many digits the text begins with. */
  function Run(s: string): (n: nat)
    ensures n <= |s|
  {
    if s == "" || !IsDigit(s[0]) then 0 else 1 + Run(s[1..])
  }

  /** The exponent at the beginning of the text, 0 if there is none. */
  function ScanExponent(s: string): int {
    if s == "" || s[0] !in "eE" then 0
    else
      var u := s[1..];
      var w := if u != "" && u[0] in "+-" then u[1..] else u;
      if u != "" && u[0] == '-' then 0 - Horner(0, w) else Horner(0, w)
  }

  predicate IsHex(c: char) { IsDigit(c) || 'a' <= c <= 'f' || 'A' <= c <= 'F' }

  function HexDigit(c: char): nat
    requires IsHex(c)
  {
    if IsDigit(c) then c as int - '0' as int
    else if c <= 'F' then c as int - 'A' as int + 10
    else c as int - 'a' as int + 10
  }

  function HexRun(s: string): (n: nat)
    ensures n <= |s|
  {
    if s == "" || !IsHex(s[0]) then 0 else 1 + HexRun(s[1..])
  }

  function HexHorner(n: nat, s: string): nat
    decreases |s|
  {
    if s == "" || !IsHex(s[0]) then n else HexHorner(16 * n + HexDigit(s[0]), s[1..])
  }

  /** The binary exponent of a hexadecimal number. */
  function ScanBinary(s: string): int {
    if s == "" || s[0] !in "pP" then 0 else ScanExponent("e" + s[1..])
  }

  datatype FloatScan = NoFloat | Scanned(x: Single)

  /** After "0x": hexadecimal digits with a point, times a power of two. */
  function ScanHex(negative: bool, t: string): FloatScan {
    var i := HexRun(t);
    var point := i < |t| && t[i] == '.';
    var f := if point then HexRun(t[i + 1..]) else 0;
    var rest := if point then t[i + 1 + f..] else t[i..];
    var m := HexHorner(0, t[..i] + if point then t[i + 1..i + 1 + f] else "");
    var q := ScanBinary(rest) - 4 * f;
    if i + f == 0 then Scanned(Reduce(negative, 0, 0))
    else Scanned(if q >= 0 then Reduce(negative, m * Pow(2, q), 0) else Reduce(negative, m * Pow(5, -q), q))
  }

  /** Digits with a point, times a power of ten. */
  function ScanDecimal(negative: bool, t: string): FloatScan {
    var i := Run(t);
    var point := i < |t| && t[i] == '.';
    var f := if point then Run(t[i + 1..]) else 0;
    var rest := if point then t[i + 1 + f..] else t[i..];
    if i + f == 0 then NoFloat
    else
      Scanned(Reduce(negative, Horner(0, t[..i] + if point then t[i + 1..i + 1 + f] else ""),
                     ScanExponent(rest) - f))
  }

  /** Without a sign. */
  function ScanMagnitude(negative: bool, t: string): FloatScan {
    if |t| > 2 && t[0] in "iI" && t[1] in "nN" && t[2] in "fF" then Scanned(Infinite(negative))
    else if |t| > 2 && t[0] in "nN" && t[1] in "aA" && t[2] in "nN" then Scanned(NotANumber(negative))
    else if |t| > 1 && t[0] == '0' && t[1] in "xX" then ScanHex(negative, t[2..])
    else ScanDecimal(negative, t)
  }

  /** The number at the beginning of a text: spaces, a sign, digits; whatever follows is ignored. */
  function ScanFloat(s: string): FloatScan {
    if s == "" then NoFloat
    else if IsSpace(s[0]) then ScanFloat(s[1..])
    else if s[0] == '-' then ScanMagnitude(true, s[1..])
    else if s[0] == '+' then ScanMagnitude(false, s[1..])
    else ScanMagnitude(false, s)
  }

  /** The least number that rounds to no finite float, 2^128 - 2^103. */
  const TOO_LARGE: nat := 0xFFFF_FF80_0000_0000_0000_0000_0000_0000

  /** The reciprocal of the smallest normal float, 2^126. */
  const SMALLEST: nat := 0x4000_0000_0000_0000_0000_0000_0000_0000

  /** stof throws on numbers beyond the largest float and closer to 0 than the smallest normal one. */
  predicate InRange(x: Single) {
    x.Finite? && x.m > 0 ==>
      if x.e >= 0 then x.m * Pow10(x.e) < TOO_LARGE
      else x.m < TOO_LARGE * Pow10(-x.e) && x.m * SMALLEST >= Pow10(-x.e)
  }

  /** The floats that printing and reading keep: six digits, a point, and in range. */
  predicate Survives(x: Single) { x.Finite? && x.m < SIX && HasPoint(x) && InRange(x) }

  // ---- representation ----

  /** Shifting the point does not change the value. */
  lemma {:induction false} ReduceScaled(negative: bool, m: nat, e: int, k: nat)
    ensures Reduce(negative, m * Pow10(k), e - k) == Reduce(negative, m, e)
    decreases k
  {
    if k > 0 {
      var n := m * Pow10(k - 1);
      assert m * Pow10(k) == 10 * n by { Swap(m, Pow10(k - 1)); }
      ReduceScaled(negative, m, e, k - 1);
      assert (10 * n) / 10 == n && (10 * n) % 10 == 0;
    }
  }

  lemma Swap(m: nat, p: nat)
    ensures m * (10 * p) == 10 * (m * p)
  {
  }

  /** Two decimals are the same float exactly when they are the same number. */
  lemma ReduceExact(negative: bool, m: nat, n: nat, e: int, k: nat)
    ensures Reduce(negative, m, e) == Reduce(negative, n, e - k) <==> m * Pow10(k) == n
  {
    ReduceScaled(negative, m, e, k);
    ReduceInjective(negative, m * Pow10(k), n, e - k);
  }

  /** How many zeros Reduce strips. */
  lemma {:induction false} ReduceValue(negative: bool, m: nat, e: int)
    requires m > 0
    ensures var x := Reduce(negative, m, e);
            x.m > 0 && x.e >= e && x.m * Pow10(x.e - e) == m
    decreases m
  {
    if m % 10 == 0 {
      ReduceValue(negative, m / 10, e + 1);
      var x := Reduce(negative, m, e);
      Swap(x.m, Pow10(x.e - e - 1));
    }
  }

  lemma ReduceInjective(negative: bool, m: nat, n: nat, e: int)
    ensures Reduce(negative, m, e) == Reduce(negative, n, e) <==> m == n
  {
    if m > 0 { ReduceValue(negative, m, e); }
    if n > 0 { ReduceValue(negative, n, e); }
  }

  lemma ReduceReduced(x: Single)
    requires x.Finite?
    ensures Reduce(x.negative, x.m, x.e) == x
  {
  }
}
