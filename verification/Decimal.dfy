/** Decimal numbers as the streams print them and as stoi and atoi read them. */
module Decimal {

  function Digit(d: nat): char
    requires d < 10
  {
    ('0' as int + d) as char
  }

  predicate IsDigit(c: char) { '0' <= c <= '9' }

  function NatText(n: nat): (s: string)
    ensures s != "" && forall i :: 0 <= i < |s| ==> IsDigit(s[i])
  {
    if n < 10 then [Digit(n)] else NatText(n / 10) + [Digit(n % 10)]
  }

  function IntText(n: int): (s: string)
    ensures s != "" && forall i :: 0 <= i < |s| ==> IsDigit(s[i]) || s[i] == '-'
  {
    if n < 0 then "-" + NatText(-n) else NatText(n)
  }

  /** The value of the digits at the beginning of the text, appended to n. */
  function Horner(n: nat, s: string): nat
    decreases |s|
  {
    if s == "" || !IsDigit(s[0]) then n
    else Horner(n * 10 + (s[0] as int - '0' as int), s[1..])
  }

  predicate IsSpace(c: char) { c == ' ' || ('\t' <= c <= '\r') }

  datatype Scan = NoNumber | Number(n: int)

  /** Spaces, a sign, digits; whatever follows is ignored. */
  function ScanInt(s: string): Scan {
    if s == "" then NoNumber
    else if IsSpace(s[0]) then ScanInt(s[1..])
    else
      var signed := s[0] == '-' || s[0] == '+';
      var t := if signed then s[1..] else s;
      if t == "" || !IsDigit(t[0]) then NoNumber
      else if s[0] == '-' then Number(0 - Horner(0, t))
      else Number(Horner(0, t))
  }

  lemma DigitValue(d: nat)
    requires d < 10
    ensures IsDigit(Digit(d)) && Digit(d) as int - '0' as int == d
  {
  }

  lemma {:induction false} HornerText(n: nat, t: string)
    ensures Horner(0, NatText(n) + t) == Horner(n, t)
  {
    DigitValue(n % 10);
    hide Digit, IsDigit;
    var d := [Digit(n % 10)];
    assert (d + t)[1..] == t;
    if n >= 10 {
      assert NatText(n) + t == NatText(n / 10) + (d + t);
      HornerText(n / 10, d + t);
      assert n / 10 * 10 + n % 10 == n;
    }
  }

  lemma ScanDigits(s: string)
    requires s != "" && IsDigit(s[0])
    ensures ScanInt(s) == Number(Horner(0, s))
    ensures ScanInt("-" + s) == Number(0 - Horner(0, s))
  {
    assert ("-" + s)[1..] == s;
  }

  /** Reading what was printed gives the number back, whatever follows it. */
  lemma ScanText(n: int, t: string)
    requires t == "" || !IsDigit(t[0])
    ensures ScanInt(IntText(n) + t) == Number(n)
  {
    hide NatText, ScanInt;
    var m := if n < 0 then -n else n;
    HornerText(m, t);
    ScanDigits(NatText(m) + t);
    assert ("-" + NatText(m)) + t == "-" + (NatText(m) + t);
  }
}
