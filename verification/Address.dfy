/** Internet addresses: packing, printing, and reading with the tokenizer. */
module Address {
  import opened Decimal
  import opened Pieces
  import opened SingleDelimiters
  import opened Tokenization

  type Byte = n: int | 0 <= n < 0x100
  type Port = n: int | 0 <= n < 0x1_0000

  datatype Ipv4Address = Ipv4Address(a: Byte, b: Byte, c: Byte, d: Byte)
  datatype SockAddrV4 = SockAddrV4(ip: Ipv4Address, port: Port)

  // ---- packing ----

  /** The four bytes in memory, read as an unsigned number: the first byte is the lowest. */
  function ToN(ip: Ipv4Address): (n: int)
    ensures 0 <= n < 0x1_0000_0000
  {
    ip.a + 0x100 * ip.b + 0x1_0000 * ip.c + 0x100_0000 * ip.d
  }

  /** A signed number is stored modulo 2^32. */
  function FromInt(full: int): Ipv4Address {
    var n := full % 0x1_0000_0000;
    Ipv4Address(n % 0x100, n / 0x100 % 0x100, n / 0x1_0000 % 0x100, n / 0x100_0000)
  }

  lemma PackRoundTrip(ip: Ipv4Address)
    ensures FromInt(ToN(ip)) == ip
  {
    var m := ip.c + 0x100 * ip.d;
    var l := ip.b + 0x100 * m;
    LowByte(ip.a, l);
    LowByte(ip.b, m);
    LowByte(ip.c, ip.d);
    assert ToN(ip) == ip.a + 0x100 * l;
    hide ToN, FromInt;
    Shifts(ToN(ip));
    Unpacked(ToN(ip), l, m, ip);
  }

  lemma Unpacked(n: nat, l: nat, m: nat, ip: Ipv4Address)
    requires n < 0x1_0000_0000 && n / 0x1_0000 == m && n / 0x100_0000 == ip.d
    requires n % 0x100 == ip.a && n / 0x100 == l && l % 0x100 == ip.b && m % 0x100 == ip.c
    ensures FromInt(n) == ip
  {
  }

  lemma LowByte(b: Byte, n: nat)
    ensures (b + 0x100 * n) % 0x100 == b && (b + 0x100 * n) / 0x100 == n
  {
  }

  lemma Shifts(n: nat)
    ensures n / 0x1_0000 == n / 0x100 / 0x100 && n / 0x100_0000 == n / 0x1_0000 / 0x100
  {
  }

  lemma UnpackRoundTrip(full: int)
    ensures ToN(FromInt(full)) == full % 0x1_0000_0000
  {
    var n := full % 0x1_0000_0000;
    var m := n / 0x100;
    var l := m / 0x100;
    Shifts(n);
    assert n == m * 0x100 + n % 0x100 && m == l * 0x100 + m % 0x100 && l == l / 0x100 * 0x100 + l % 0x100;
  }

  /** The documented order of the bytes, the first one highest. */
  function NetworkOrder(ip: Ipv4Address): int {
    ip.a * 0x100_0000 + ip.b * 0x1_0000 + ip.c * 0x100 + ip.d
  }

  /** The packed number is the documented one only for addresses that read the same backwards. */
  lemma ByteOrder(ip: Ipv4Address)
    ensures ToN(ip) == NetworkOrder(ip) <==> ip.a == ip.d && ip.b == ip.c
  {
    if ToN(ip) == NetworkOrder(ip) {
      PackRoundTrip(ip);
      PackRoundTrip(Ipv4Address(ip.d, ip.c, ip.b, ip.a));
    }
  }

  // ---- printing and reading ----

  function ShowIp(ip: Ipv4Address): string {
    IntText(ip.a) + "." + IntText(ip.b) + "." + IntText(ip.c) + "." + IntText(ip.d)
  }

  function Show(s: SockAddrV4): string { ShowIp(s.ip) + ":" + IntText(s.port) }

  const ADDRESS := Lexicon([".", ":", " "], [" "], [])

  datatype Reading = Ok(value: SockAddrV4) | Malformed(text: string)

  /** std::atoi: 0 if there is no number. */
  function Atoi(s: string): int {
    match ScanInt(s)
    case NoNumber => 0
    case Number(n) => n
  }

  /** atoi, converted to an unsigned char. */
  function Octet(s: string): Byte { Atoi(s) % 0x100 }

  /** atoi, converted to an unsigned short. */
  function PortOf(s: string): Port { Atoi(s) % 0x1_0000 }

  /** The next n tokens. */
  function Tokens(ps: seq<string>, i: nat, n: nat): (ts: seq<string>)
    requires i <= |ps|
    ensures |ts| == n
    decreases n
  {
    if n == 0 then []
    else
      var t := NextToken(ADDRESS, ps, i, true);
      [t.text] + Tokens(ps, t.next, n - 1)
  }

  /** The address made of nine tokens. */
  function Assemble(ts: seq<string>, text: string): Reading
    requires |ts| == 9
  {
    if ts[1] != "." || ts[3] != "." || ts[5] != "." || ts[7] != ":" then Malformed(text)
    else
      Ok(SockAddrV4(
           Ipv4Address(Octet(ts[0]), Octet(ts[2]), Octet(ts[4]), Octet(ts[6])),
           PortOf(ts[8])))
  }

  lemma AddressDelimiters()
    ensures Singles(ADDRESS.tokens) && Solid(ADDRESS.tokens) && ADDRESS.Valid()
    ensures forall c :: IsDelimiter(ADDRESS.tokens, c) <==> c in {'.', ':', ' '}
  {
    var ts := ADDRESS.tokens;
    assert ts[0] == ['.'] && ts[1] == [':'] && ts[2] == [' '];
  }

  function Read(text: string): Reading {
    AddressDelimiters();
    Assemble(Tokens(Cut(ADDRESS.tokens, text + "\n"), 0, 9), text)
  }

  /** The pieces that are not spaces. */
  function Spaceless(ps: seq<string>): seq<string> {
    if ps == [] then [] else (if ps[0] == " " then [] else [ps[0]]) + Spaceless(ps[1..])
  }

  /** The first n of them; where there are no more, the empty token. */
  function Padded(xs: seq<string>, n: nat): (ts: seq<string>)
    ensures |ts| == n && forall k :: 0 <= k < n ==> ts[k] == if k < |xs| then xs[k] else ""
  {
    seq(n, k requires 0 <= k < n => if k < |xs| then xs[k] else "")
  }

  lemma PaddedStep(xs: seq<string>, n: nat)
    requires n > 0
    ensures Padded(xs, n) == if xs == [] then [""] + Padded([], n - 1) else [xs[0]] + Padded(xs[1..], n - 1)
  {
  }

  /** The tokens are the pieces without the spaces. */
  lemma {:induction false} TokensSpaceless(ps: seq<string>, i: nat, n: nat)
    requires i <= |ps| && forall k :: 0 <= k < |ps| ==> ps[k] != ""
    ensures Tokens(ps, i, n) == Padded(Spaceless(ps[i..]), n)
    decreases |ps| - i, n
  {
    hide *;
    if n == 0 {
      NoTokens(ps, i);
    } else if i == |ps| {
      TokensSpaceless(ps, i, n - 1);
      TokensAtEnd(ps, n);
      PaddedStep([], n);
    } else if ps[i] == " " {
      OnePiece(ps, i, n);
      TokensSpaceless(ps, i + 1, n);
    } else {
      OnePiece(ps, i, n);
      TokensSpaceless(ps, i + 1, n - 1);
      var rest := Spaceless(ps[i + 1..]);
      PaddedStep([ps[i]] + rest, n);
      assert ([ps[i]] + rest)[1..] == rest;
    }
  }

  lemma NoTokens(ps: seq<string>, i: nat)
    requires i <= |ps|
    ensures Tokens(ps, i, 0) == Padded(Spaceless(ps[i..]), 0)
  {
  }

  lemma TokensAtEnd(ps: seq<string>, n: nat)
    requires n > 0
    ensures Spaceless(ps[|ps|..]) == [] && Tokens(ps, |ps|, n) == [""] + Tokens(ps, |ps|, n - 1)
  {
  }

  lemma OnePiece(ps: seq<string>, i: nat, n: nat)
    requires i < |ps| && ps[i] != "" && n > 0
    ensures Spaceless(ps[i..]) == (if ps[i] == " " then [] else [ps[i]]) + Spaceless(ps[i + 1..])
    ensures ps[i] == " " ==> Spaceless(ps[i..]) == Spaceless(ps[i + 1..]) && Tokens(ps, i, n) == Tokens(ps, i + 1, n)
    ensures ps[i] != " " ==> Tokens(ps, i, n) == [ps[i]] + Tokens(ps, i + 1, n - 1)
  {
    FirstToken(ps, i);
    hide NextToken;
    assert ps[i..][0] == ps[i] && ps[i..][1..] == ps[i + 1..];
    assert [] + Spaceless(ps[i + 1..]) == Spaceless(ps[i + 1..]);
  }

  lemma FirstToken(ps: seq<string>, i: nat)
    requires i < |ps| && ps[i] != ""
    ensures if ps[i] == " " then NextToken(ADDRESS, ps, i, true) == NextToken(ADDRESS, ps, i + 1, true)
            else NextToken(ADDRESS, ps, i, true) == Token(ps[i], i + 1)
  {
    assert ADDRESS.skips[0] == " ";
  }

  /** Three dots and a colon between five fields: what the pieces of an address look like. The fields
      themselves can be anything, even separators, and whatever follows the fifth is ignored. */
  predicate WellFormed(xs: seq<string>) {
    |xs| > 7 && xs[1] == "." && xs[3] == "." && xs[5] == "." && xs[7] == ":"
  }

  /** A text is an address exactly when its pieces are well formed; every other text is reported as a
      whole. */
  lemma ReadExact(text: string)
    ensures Solid(ADDRESS.tokens)
    ensures var xs := Spaceless(Cut(ADDRESS.tokens, text + "\n"));
      if WellFormed(xs)
      then Read(text)
        == Ok(SockAddrV4(
                Ipv4Address(Octet(xs[0]), Octet(xs[2]), Octet(xs[4]), Octet(xs[6])),
                PortOf(if |xs| > 8 then xs[8] else "")))
      else Read(text) == Malformed(text)
  {
    AddressDelimiters();
    CutJoins(ADDRESS.tokens, text + "\n");
    hide Cut, Octet, PortOf, Tokens;
    var ps := Cut(ADDRESS.tokens, text + "\n");
    TokensSpaceless(ps, 0, 9);
    assert ps[0..] == ps;
  }

  /** Texts of five fields are read, whatever the fields are; those that are not numbers count as 0. */
  lemma ReadsFields(f: seq<string>, port: string)
    requires |f| == 4 && forall k :: 0 <= k < 4 ==> Word(ADDRESS.tokens, f[k])
    requires forall k :: 0 <= k < |port| ==> !IsDelimiter(ADDRESS.tokens, port[k])
    ensures Read(f[0] + "." + f[1] + "." + f[2] + "." + f[3] + ":" + port)
         == Ok(SockAddrV4(
                 Ipv4Address(Octet(f[0]), Octet(f[1]), Octet(f[2]), Octet(f[3])),
                 PortOf(port + "\n")))
  {
    AddressDelimiters();
    hide Cut, Word, Atoi, Tokens;
    var last := port + "\n";
    var text := f[0] + "." + f[1] + "." + f[2] + "." + f[3] + ":" + port;
    var ps := [f[0], ".", f[1], ".", f[2], ".", f[3], ":", last];
    CutsFields(f, port);
    assert last[|last| - 1] == '\n';
    forall k | 0 <= k < |ps| ensures ps[k] != "" && ps[k] !in ADDRESS.skips {
      NotSkipped(f, last);
    }
    AllTokens(ps, 0);
    assert ps[0..] == ps;
  }

  lemma NotSkipped(f: seq<string>, last: string)
    requires |f| == 4 && (forall k :: 0 <= k < 4 ==> Word(ADDRESS.tokens, f[k])) && last != "" && last != " "
    ensures forall p :: p in [f[0], ".", f[1], ".", f[2], ".", f[3], ":", last] ==> p != "" && p !in ADDRESS.skips
  {
    AddressDelimiters();
    forall k | 0 <= k < 4 ensures f[k] != "" && f[k] !in ADDRESS.skips {
      assert !IsDelimiter(ADDRESS.tokens, f[k][0]);
    }
  }

  /** Where nothing is skipped, the tokens are the pieces. */
  lemma {:induction false} AllTokens(ps: seq<string>, i: nat)
    requires i <= |ps| && forall k :: 0 <= k < |ps| ==> ps[k] != "" && ps[k] !in ADDRESS.skips
    ensures Tokens(ps, i, |ps| - i) == ps[i..]
    decreases |ps| - i
  {
    if i < |ps| {
      AllTokens(ps, i + 1);
    }
  }

  lemma NumberField(n: nat)
    ensures Word(ADDRESS.tokens, IntText(n)) && Atoi(IntText(n)) == n && Atoi(IntText(n) + "\n") == n
  {
    AddressDelimiters();
    hide IntText, ScanInt;
    assert IntText(n) + "" == IntText(n);
    ScanText(n, "");
    ScanText(n, "\n");
    assert forall k :: 0 <= k < |IntText(n)| ==> IsDigit(IntText(n)[k]) || IntText(n)[k] == '-';
  }

  /** Reading the printed form gives the address back. */
  lemma RoundTrip(s: SockAddrV4)
    ensures Read(Show(s)) == Ok(s)
  {
    hide Read, Atoi, IntText, Word;
    var f := [IntText(s.ip.a), IntText(s.ip.b), IntText(s.ip.c), IntText(s.ip.d)];
    var port := IntText(s.port);
    NumberField(s.ip.a);
    NumberField(s.ip.b);
    NumberField(s.ip.c);
    NumberField(s.ip.d);
    NumberField(s.port);
    assert forall k :: 0 <= k < |port| ==> !IsDelimiter(ADDRESS.tokens, port[k]) by { WordHasNone(port); }
    ReadsFields(f, port);
  }

  lemma WordHasNone(w: string)
    requires Word(ADDRESS.tokens, w)
    ensures forall k :: 0 <= k < |w| ==> !IsDelimiter(ADDRESS.tokens, w[k])
  {
  }

  // ---- cutting a printed address ----

  lemma CutField(w: string, c: char, s: string)
    requires Singles(ADDRESS.tokens) && Word(ADDRESS.tokens, w) && IsDelimiter(ADDRESS.tokens, c)
    ensures Solid(ADDRESS.tokens)
    ensures Cut(ADDRESS.tokens, w + ([c] + s)) == [w, [c]] + Cut(ADDRESS.tokens, s)
  {
    hide Cut, Word;
    CutWord(ADDRESS.tokens, w, [c] + s);
    CutDelimiter(ADDRESS.tokens, c, s);
  }

  lemma Regroup(a: string, b: string, c: string, d: string, e: string)
    ensures a + "." + b + "." + c + "." + d + ":" + e + "\n"
         == a + (['.'] + (b + (['.'] + (c + (['.'] + (d + ([':'] + (e + "\n"))))))))
  {
    var last := [':'] + (e + "\n");
    assert a + "." + b + "." + c + "." + d + ":" + e + "\n" == a + "." + b + "." + c + "." + d + last;
    assert a + "." + b + "." + c + "." + d + last == a + "." + b + "." + (c + (['.'] + (d + last)));
  }

  lemma CutsFields(f: seq<string>, port: string)
    requires |f| == 4 && forall k :: 0 <= k < 4 ==> Word(ADDRESS.tokens, f[k])
    requires forall k :: 0 <= k < |port| ==> !IsDelimiter(ADDRESS.tokens, port[k])
    ensures Solid(ADDRESS.tokens)
    ensures Cut(ADDRESS.tokens, f[0] + "." + f[1] + "." + f[2] + "." + f[3] + ":" + port + "\n")
         == [f[0], ".", f[1], ".", f[2], ".", f[3], ":", port + "\n"]
  {
    assert Word(ADDRESS.tokens, port + "\n") by { AddressDelimiters(); }
    hide *;
    CutsNested(f[0], f[1], f[2], f[3], port + "\n");
    Regroup(f[0], f[1], f[2], f[3], port);
  }

  lemma Separators()
    ensures Singles(ADDRESS.tokens) && Solid(ADDRESS.tokens) && Bounded(ADDRESS.tokens, "")
    ensures IsDelimiter(ADDRESS.tokens, '.') && IsDelimiter(ADDRESS.tokens, ':')
  {
    AddressDelimiters();
  }

  lemma CutsNested(a: string, b: string, c: string, d: string, last: string)
    requires Word(ADDRESS.tokens, a) && Word(ADDRESS.tokens, b) && Word(ADDRESS.tokens, c)
    requires Word(ADDRESS.tokens, d) && Word(ADDRESS.tokens, last)
    ensures Solid(ADDRESS.tokens)
    ensures Cut(ADDRESS.tokens, a + (['.'] + (b + (['.'] + (c + (['.'] + (d + ([':'] + last))))))))
         == [a, ".", b, ".", c, ".", d, ":", last]
  {
    hide *;
    Separators();
    var third := d + ([':'] + last);
    var second := c + (['.'] + third);
    CutWord(ADDRESS.tokens, last, "");
    CutEmpty(ADDRESS.tokens);
    assert last + "" == last;
    CutField(d, ':', last);
    CutField(c, '.', third);
    assert Cut(ADDRESS.tokens, second) == [c, ".", d, ":", last];
    CutField(b, '.', second);
    CutField(a, '.', b + (['.'] + second));
  }

  // ---- the constructor ----

  /** Token k of the tokens ts. */
  method Take(tok: Tokenizer, ghost ts: seq<string>, ghost k: nat) returns (x: string)
    requires tok.lx == ADDRESS && tok.Valid() && tok.doSkip && k < |ts|
    requires Tokens(tok.Pieces(), tok.Position(), |ts| - k) == ts[k..]
    modifies tok`cursor, tok`lastLocs
    ensures tok.Valid() && x == ts[k]
    ensures Tokens(tok.Pieces(), tok.Position(), |ts| - (k + 1)) == ts[k + 1..]
  {
    hide Cut, NextToken;
    x := tok.Next();
  }

  /** Step the tokenizer through the nine tokens. */
  method ReadAddress(addr: string) returns (r: Reading)
    ensures r == Read(addr)
  {
    AddressDelimiters();
    hide Cut, Tokens, Octet, PortOf;
    var tok := new Tokenizer(addr, ADDRESS);
    ghost var ts := Tokens(tok.Pieces(), 0, 9);
    assert ts[0..] == ts;
    var fst := Take(tok, ts, 0);
    var dot := Take(tok, ts, 1);
    if dot != "." { return Malformed(addr); }
    var scd := Take(tok, ts, 2);
    dot := Take(tok, ts, 3);
    if dot != "." { return Malformed(addr); }
    var thd := Take(tok, ts, 4);
    dot := Take(tok, ts, 5);
    if dot != "." { return Malformed(addr); }
    var fth := Take(tok, ts, 6);
    var colon := Take(tok, ts, 7);
    if colon != ":" { return Malformed(addr); }
    var port := Take(tok, ts, 8);
    return Ok(SockAddrV4(
                Ipv4Address(Octet(fst), Octet(scd), Octet(thd), Octet(fth)),
                PortOf(port)));
  }
}
