/** A text for every configuration that can be written, its pieces, and when the printer writes it. */
module TomlPrinting {
  import opened Decimal
  import opened Floats
  import opened Pieces
  import opened SingleDelimiters
  import opened TomlModel
  import opened FloatProofs

  const D := TOML.tokens

  // ---- names and order ----

  /** A piece that is neither skipped nor opens a comment. */
  predicate Visible(p: string) { p != "" && p != "#" && p !in TOML.skips }

  /** What can name a section: a word, or one visible delimiter. */
  predicate Name(p: string) { Word(D, p) || (p in D && Visible(p)) }

  /** What can name an entry: an opening bracket would end the section. */
  predicate LineKey(p: string) { Name(p) && p != "[" }

  /** Keys in increasing order. */
  ghost predicate Sorted(d: Dict) {
    forall i, j :: 0 <= i < j < |d| ==> Less(d[i].key, d[j].key)
  }

  // ---- what can be written ----

  /** A string that does not hold a hash sign, nor both quotes. */
  predicate Sayable(s: string) { '#' !in s && ('"' !in s || '\'' !in s) }

  /** What the language has a text for: integers of 32 bits, floats in range, booleans, sayable strings,
      and arrays and inline dictionaries of these, nested to any depth; a dictionary is sorted and has
      at least one entry. */
  ghost predicate Expressible(v: Value) {
    match v
    case Int(n) => -0x8000_0000 <= n < 0x8000_0000
    case Float(x) => InRange(x)
    case Bool(_) => true
    case Str(s) => Sayable(s)
    case Arr(items) => forall k :: 0 <= k < |items| ==> Expressible(items[k])
    case Table(es) =>
      && es != [] && Sorted(es)
      && forall k :: 0 <= k < |es| ==> LineKey(es[k].key) && Expressible(es[k].value)
  }

  /** A boolean, where booleans are passed over in silence. */
  predicate Silent(v: Value, quiet: bool) { quiet && v.Bool? }

  ghost predicate Lines(es: Dict, quiet: bool) {
    forall k :: 0 <= k < |es| ==> LineKey(es[k].key) && (Silent(es[k].value, quiet) || Expressible(es[k].value))
  }

  ghost predicate Sections(c: Dict, quiet: bool) {
    forall k :: 0 <= k < |c| ==>
      && Name(c[k].key) && c[k].value.Table?
      && Sorted(c[k].value.entries) && Lines(c[k].value.entries, quiet)
  }

  /** The lines that are not silent. */
  function Kept(es: Dict, quiet: bool): Dict {
    if es == [] then []
    else (if Silent(es[0].value, quiet) then [] else [es[0]]) + Kept(es[1..], quiet)
  }

  /** The sections with these lines. */
  function KeptIn(c: Dict, quiet: bool): Dict {
    if c == [] then []
    else
      [if c[0].value.Table? then Entry(c[0].key, Table(Kept(c[0].value.entries, quiet))) else c[0]]
      + KeptIn(c[1..], quiet)
  }

  // ---- its text ----

  /** The printed form of a float if it survives, otherwise all its digits with a point. */
  function FloatLiteral(x: Single): string {
    if Survives(x) then FloatText(x)
    else
      SignText(x.negative)
      + match x
        case Finite(_, m, e) => NatText(m) + ".e" + ExponentText(e)
        case Infinite(_) => "inf."
        case NotANumber(_) => "nan."
  }

  function BoolText(b: bool): string { if b then "true" else "false" }

  /** Single quotes only where they are needed. */
  function QuoteFor(s: string): char { if '"' in s then '\'' else '"' }

  function WriteItem(v: Value): string {
    match v
    case Int(n) => IntText(n)
    case Float(x) => FloatLiteral(x)
    case Bool(b) => BoolText(b)
    case Str(s) => [QuoteFor(s)] + s + [QuoteFor(s)]
    case Arr(items) => "[" + WriteItems(items) + "]"
    case Table(es) => "{" + WriteFields(es) + "}"
  }

  function WriteItems(vs: seq<Value>): string {
    if vs == [] then "" else WriteItem(vs[0]) + if |vs| == 1 then "" else ", " + WriteItems(vs[1..])
  }

  function WriteFields(es: Dict): string {
    if es == [] then ""
    else es[0].key + " = " + (WriteItem(es[0].value) + if |es| == 1 then "" else ", " + WriteFields(es[1..]))
  }

  function WriteLines(es: Dict, quiet: bool): string {
    if es == [] then ""
    else if Silent(es[0].value, quiet) then "\n" + WriteLines(es[1..], quiet)
    else es[0].key + " = " + (WriteItem(es[0].value) + ("\n" + WriteLines(es[1..], quiet)))
  }

  function Write(c: Dict, quiet: bool): string {
    if c == [] then ""
    else
      "\n[" + c[0].key + "]\n"
      + ((if c[0].value.Table? then WriteLines(c[0].value.entries, quiet) else "") + Write(c[1..], quiet))
  }

  // ---- its pieces ----

  ghost function PiecesOf(v: Value): seq<string> {
    match v
    case Int(n) => [IntText(n)]
    case Float(x) => [FloatLiteral(x)]
    case Bool(b) => [BoolText(b)]
    case Str(s) => TomlDelimiters(); [[QuoteFor(s)]] + Cut(D, s) + [[QuoteFor(s)]]
    case Arr(items) => ["["] + PiecesOfItems(items) + ["]"]
    case Table(es) => ["{"] + PiecesOfFields(es) + ["}"]
  }

  ghost function PiecesOfItems(vs: seq<Value>): seq<string> {
    if vs == [] then []
    else PiecesOf(vs[0]) + if |vs| == 1 then [] else [",", " "] + PiecesOfItems(vs[1..])
  }

  ghost function PiecesOfFields(es: Dict): seq<string> {
    if es == [] then []
    else [es[0].key, " ", "=", " "] + PiecesOf(es[0].value)
         + if |es| == 1 then [] else [",", " "] + PiecesOfFields(es[1..])
  }

  ghost function PiecesOfLines(es: Dict, quiet: bool): seq<string> {
    if es == [] then []
    else if Silent(es[0].value, quiet) then ["\n"] + PiecesOfLines(es[1..], quiet)
    else [es[0].key, " ", "=", " "] + PiecesOf(es[0].value) + ["\n"] + PiecesOfLines(es[1..], quiet)
  }

  ghost function PiecesOfSections(c: Dict, quiet: bool): seq<string> {
    if c == [] then []
    else ["\n", "[", c[0].key, "]", "\n"]
         + (if c[0].value.Table? then PiecesOfLines(c[0].value.entries, quiet) else [])
         + PiecesOfSections(c[1..], quiet)
  }

  // ---- cutting ----

  lemma NumberIsWord(n: int)
    ensures Word(D, IntText(n)) && '.' !in IntText(n)
  {
    TomlDelimiters();
    hide IntText;
    var s := IntText(n);
    forall k | 0 <= k < |s| ensures !IsDelimiter(D, s[k]) {
      assert IsDigit(s[k]) || s[k] == '-';
    }
  }

  lemma FloatIsWord(x: Single)
    ensures Word(D, FloatText(x))
  {
    hide FloatText, Plausible, IsDelimiter;
    PrintedChars(x);
    var s := FloatText(x);
    forall k | 0 <= k < |s| ensures !IsDelimiter(D, s[k]) {
      PlausibleInWords(s[k]);
    }
  }

  lemma PlausibleInWords(c: char)
    requires Plausible(c)
    ensures !IsDelimiter(D, c)
  {
    TomlDelimiters();
  }

  lemma Unwrapped(n: int)
    requires -0x8000_0000 <= n < 0x8000_0000
    ensures Wrapped(n) == n
  {
  }

  lemma CutChar(c: char, s: string)
    requires IsDelimiter(D, c)
    ensures Solid(D) && Cut(D, [c] + s) == [[c]] + Cut(D, s)
  {
    TomlDelimiters();
    CutDelimiter(D, c, s);
  }

  /** A key is one piece. */
  lemma CutName(key: string, s: string)
    requires Name(key) && Bounded(D, s)
    ensures Solid(D) && Cut(D, key + s) == [key] + Cut(D, s)
  {
    TomlDelimiters();
    hide Cut, Word, Visible;
    if Word(D, key) {
      CutWord(D, key, s);
    } else {
      assert key == [key[0]];
      CutChar(key[0], s);
    }
  }

  lemma LiteralIsWord(x: Single)
    ensures Word(D, FloatLiteral(x)) && '.' in FloatLiteral(x)
  {
    hide Word, IsDelimiter;
    if Survives(x) {
      FloatIsWord(x);
      PrintedRead(x);
      RoundedShort(x);
    } else {
      hide Survives;
      LiteralChars(x);
      forall k | 0 <= k < |FloatLiteral(x)| ensures !IsDelimiter(D, FloatLiteral(x)[k]) {
        PlausibleInWords(FloatLiteral(x)[k]);
      }
      WordIs(FloatLiteral(x));
    }
  }

  lemma WordIs(w: string)
    requires w != "" && forall k :: 0 <= k < |w| ==> !IsDelimiter(D, w[k])
    ensures Word(D, w)
  {
  }

  predicate AllPlausible(s: string) { forall k :: 0 <= k < |s| ==> Plausible(s[k]) }

  lemma PlausibleParts(a: string, b: string)
    requires AllPlausible(a) && AllPlausible(b)
    ensures AllPlausible(a + b)
  {
    hide Plausible;
  }

  lemma DigitsPlausible(n: nat)
    ensures AllPlausible(NatText(n)) && NatText(n) != ""
  {
    NatDigits(n);
    hide NatText;
  }

  lemma MarksPlausible(negative: bool)
    ensures AllPlausible(SignText(negative)) && AllPlausible(".e") && AllPlausible("inf.") && AllPlausible("nan.")
    ensures AllPlausible("+") && AllPlausible("-") && AllPlausible("0") && AllPlausible("")
  {
  }

  lemma ExponentPlausible(e: int)
    ensures AllPlausible(ExponentText(e))
  {
    hide AllPlausible, NatText;
    var n := if e < 0 then -e else e;
    MarksPlausible(false);
    DigitsPlausible(n);
    PlausibleParts(if e < 0 then "-" else "+", if n < 10 then "0" else "");
    PlausibleParts((if e < 0 then "-" else "+") + if n < 10 then "0" else "", NatText(n));
  }

  lemma LiteralChars(x: Single)
    requires !Survives(x)
    ensures '.' in FloatLiteral(x) && FloatLiteral(x) != "" && AllPlausible(FloatLiteral(x))
  {
    hide Survives, AllPlausible, NatText, ExponentText;
    var sign, t := SignText(x.negative), FloatLiteral(x);
    MarksPlausible(x.negative);
    if x.Finite? {
      var ds, exponent := NatText(x.m), ExponentText(x.e);
      DigitsPlausible(x.m);
      ExponentPlausible(x.e);
      PlausibleParts(ds, ".e");
      PlausibleParts(ds + ".e", exponent);
      PlausibleParts(sign, ds + ".e" + exponent);
      assert t == sign + (ds + ".e" + exponent);
      assert t[|sign| + |ds|] == '.';
    } else {
      var word := if x.Infinite? then "inf." else "nan.";
      PlausibleParts(sign, word);
      assert t == sign + word;
      assert t[|t| - 1] == '.';
    }
  }

  lemma BoolIsWord(b: bool)
    ensures Word(D, BoolText(b))
  {
    hide Word, IsDelimiter;
    forall k | 0 <= k < |BoolText(b)| ensures !IsDelimiter(D, BoolText(b)[k]) {
      LetterInWords(BoolText(b)[k]);
    }
    WordIs(BoolText(b));
  }

  lemma LetterInWords(c: char)
    requires 'a' <= c <= 'z'
    ensures !IsDelimiter(D, c)
  {
    TomlDelimiters();
  }

  lemma SolidTokens()
    ensures Solid(D)
  {
    TomlDelimiters();
  }

  lemma Regroup(a: string, b: string, c: string)
    ensures (a + b) + c == a + (b + c)
  {
  }

  lemma CutComma(s: string)
    ensures Solid(D) && Cut(D, ", " + s) == [",", " "] + Cut(D, s)
  {
    TomlDelimiters();
    hide Cut;
    assert ", " + s == [','] + ([' '] + s);
    CutChar(',', [' '] + s);
    CutChar(' ', s);
  }

  lemma KeyPieces(key: string, s: string)
    requires Name(key)
    ensures Solid(D) && Cut(D, key + " = " + s) == [key, " ", "=", " "] + Cut(D, s)
  {
    TomlDelimiters();
    hide Cut, Name;
    var third := [' '] + s;
    var second := ['='] + third;
    assert key + " = " + s == key + ([' '] + second);
    CutName(key, [' '] + second);
    CutChar(' ', second);
    CutChar('=', third);
    CutChar(' ', s);
  }

  /** All keys at any depth are single tokens. */
  predicate Named(v: Value) {
    match v
    case Arr(items) => forall k :: 0 <= k < |items| ==> Named(items[k])
    case Table(es) => forall k :: 0 <= k < |es| ==> Name(es[k].key) && Named(es[k].value)
    case _ => true
  }

  lemma StringPieces(t: string, s: string)
    ensures Solid(D)
    ensures Cut(D, ([QuoteFor(t)] + t + [QuoteFor(t)]) + s)
         == [[QuoteFor(t)]] + Cut(D, t) + [[QuoteFor(t)]] + Cut(D, s)
  {
    TomlDelimiters();
    hide Cut;
    var q := QuoteFor(t);
    var rest := [q] + s;
    assert ([q] + t + [q]) + s == [q] + (t + rest);
    CutChar(q, t + rest);
    CutText(D, t, rest);
    CutChar(q, s);
  }

  lemma WordPieces(w: string, s: string)
    requires Word(D, w) && Bounded(D, s)
    ensures Solid(D) && Cut(D, w + s) == [w] + Cut(D, s)
  {
    TomlDelimiters();
    hide Cut, Word;
    CutWord(D, w, s);
  }

  lemma EnclosedPieces(open: char, inner: string, close: char, xs: seq<string>, s: string)
    requires IsDelimiter(D, open) && IsDelimiter(D, close) && Solid(D)
    requires Cut(D, inner + ([close] + s)) == xs + Cut(D, [close] + s)
    ensures Cut(D, ([open] + inner + [close]) + s) == [[open]] + xs + [[close]] + Cut(D, s)
  {
    hide Cut, IsDelimiter;
    assert ([open] + inner + [close]) + s == [open] + (inner + ([close] + s));
    CutChar(open, inner + ([close] + s));
    CutChar(close, s);
  }

  lemma {:induction false} ItemPieces(v: Value, s: string)
    requires Named(v) && Bounded(D, s)
    ensures Solid(D) && Cut(D, WriteItem(v) + s) == PiecesOf(v) + Cut(D, s)
    decreases v, 0
  {
    TomlDelimiters();
    hide Cut, Word, IntText, FloatLiteral, BoolText, QuoteFor, WriteItems, WriteFields, PiecesOfItems, PiecesOfFields;
    match v {
      case Int(n) =>
        NumberIsWord(n);
        WordPieces(IntText(n), s);
      case Float(x) =>
        LiteralIsWord(x);
        WordPieces(FloatLiteral(x), s);
      case Bool(b) =>
        BoolIsWord(b);
        WordPieces(BoolText(b), s);
      case Str(t) =>
        StringPieces(t, s);
      case Arr(items) =>
        ItemsPieces(items, [']'] + s);
        EnclosedPieces('[', WriteItems(items), ']', PiecesOfItems(items), s);
      case Table(es) =>
        FieldsPieces(es, ['}'] + s);
        EnclosedPieces('{', WriteFields(es), '}', PiecesOfFields(es), s);
    }
  }

  lemma {:induction false} ItemsPieces(vs: seq<Value>, s: string)
    requires (forall k :: 0 <= k < |vs| ==> Named(vs[k])) && Bounded(D, s)
    ensures Solid(D) && Cut(D, WriteItems(vs) + s) == PiecesOfItems(vs) + Cut(D, s)
    decreases vs, 1
  {
    hide *;
    SolidTokens();
    ItemsInParts(vs, s);
    if vs == [] {
      assert [] + Cut(D, s) == Cut(D, s);
    } else if |vs| == 1 {
      ItemPieces(vs[0], s);
    } else {
      var more := WriteItems(vs[1..]) + s;
      CommaBounds(more);
      ItemPieces(vs[0], ", " + more);
      CutComma(more);
      ItemsPieces(vs[1..], s);
    }
  }

  lemma ItemsInParts(vs: seq<Value>, s: string)
    ensures vs == [] ==> WriteItems(vs) + s == s && PiecesOfItems(vs) == []
    ensures |vs| == 1 ==> WriteItems(vs) == WriteItem(vs[0]) && PiecesOfItems(vs) == PiecesOf(vs[0])
    ensures |vs| > 1 ==>
              && WriteItems(vs) + s == WriteItem(vs[0]) + (", " + (WriteItems(vs[1..]) + s))
              && PiecesOfItems(vs) == PiecesOf(vs[0]) + ([",", " "] + PiecesOfItems(vs[1..]))
  {
    hide WriteItem, PiecesOf;
    if |vs| > 1 {
      ItemsStep(vs);
      hide WriteItems, PiecesOfItems;
      Regroup(WriteItem(vs[0]), ", " + WriteItems(vs[1..]), s);
      Regroup(", ", WriteItems(vs[1..]), s);
    }
  }

  lemma ItemsStep(vs: seq<Value>)
    requires |vs| > 1
    ensures WriteItems(vs) == WriteItem(vs[0]) + (", " + WriteItems(vs[1..]))
    ensures PiecesOfItems(vs) == PiecesOf(vs[0]) + ([",", " "] + PiecesOfItems(vs[1..]))
  {
    hide WriteItem, PiecesOf;
  }

  lemma {:induction false} FieldsPieces(es: Dict, s: string)
    requires NamedLines(es) && Bounded(D, s)
    ensures Solid(D) && Cut(D, WriteFields(es) + s) == PiecesOfFields(es) + Cut(D, s)
    decreases es, 1
  {
    hide *;
    NamedEntries(es);
    SolidTokens();
    FieldsInParts(es, s);
    if es == [] {
      assert [] + Cut(D, s) == Cut(D, s);
    } else {
      var key, item := es[0].key, WriteItem(es[0].value);
      if |es| == 1 {
        KeyPieces(key, item + s);
        ItemPieces(es[0].value, s);
      } else {
        var more := WriteFields(es[1..]) + s;
        CommaBounds(more);
        KeyPieces(key, item + (", " + more));
        ItemPieces(es[0].value, ", " + more);
        CutComma(more);
        FieldsPieces(es[1..], s);
      }
    }
  }

  lemma CommaBounds(s: string)
    ensures Bounded(D, ", " + s)
  {
    TomlDelimiters();
    assert (", " + s)[0] == ',';
  }

  lemma FieldsInParts(es: Dict, s: string)
    ensures es == [] ==> WriteFields(es) + s == s && PiecesOfFields(es) == []
    ensures |es| == 1 ==>
              && WriteFields(es) + s == es[0].key + " = " + (WriteItem(es[0].value) + s)
              && PiecesOfFields(es) == [es[0].key, " ", "=", " "] + PiecesOf(es[0].value)
    ensures |es| > 1 ==>
              && WriteFields(es) + s
                 == es[0].key + " = " + (WriteItem(es[0].value) + (", " + (WriteFields(es[1..]) + s)))
              && PiecesOfFields(es)
                 == [es[0].key, " ", "=", " "] + (PiecesOf(es[0].value) + ([",", " "] + PiecesOfFields(es[1..])))
  {
    hide WriteItem, PiecesOf;
    if es == [] {
      assert "" + s == s;
    } else if |es| == 1 {
      var key, item := es[0].key + " = ", WriteItem(es[0].value);
      Regroup(key, item, s);
      assert WriteFields(es) == key + item;
    } else {
      FieldsStep(es);
      FieldPiecesStep(es);
      hide WriteFields, PiecesOfFields;
      var key, item, more := es[0].key + " = ", WriteItem(es[0].value), WriteFields(es[1..]);
      Regroup(key, item + (", " + more), s);
      Regroup(item, ", " + more, s);
      Regroup(", ", more, s);
    }
  }

  lemma FieldsStep(es: Dict)
    requires |es| > 1
    ensures WriteFields(es) == es[0].key + " = " + (WriteItem(es[0].value) + (", " + WriteFields(es[1..])))
  {
    hide WriteItem;
  }

  lemma FieldPiecesStep(es: Dict)
    requires |es| > 1
    ensures PiecesOfFields(es)
         == [es[0].key, " ", "=", " "] + (PiecesOf(es[0].value) + ([",", " "] + PiecesOfFields(es[1..])))
  {
    hide PiecesOf;
  }

  lemma {:induction false} ExpressibleNamed(v: Value)
    requires Expressible(v)
    ensures Named(v)
  {
    if v.Arr? {
      forall k | 0 <= k < |v.items| ensures Named(v.items[k]) {
        ExpressibleNamed(v.items[k]);
      }
    } else if v.Table? {
      forall k | 0 <= k < |v.entries| ensures Named(v.entries[k].value) {
        ExpressibleNamed(v.entries[k].value);
      }
    }
  }

  predicate NamedLines(es: Dict) {
    forall k :: 0 <= k < |es| ==> Name(es[k].key) && Named(es[k].value)
  }

  lemma NamedEntries(es: Dict)
    requires NamedLines(es)
    ensures es != [] ==> Name(es[0].key) && Named(es[0].value) && NamedLines(es[1..])
  {
    hide Name, Named;
  }

  /** The lines one by one; no lines, no text. */
  lemma LineText(es: Dict, quiet: bool, s: string)
    ensures es == [] ==> WriteLines(es, quiet) + s == s
    ensures es != [] && Silent(es[0].value, quiet) ==>
              WriteLines(es, quiet) + s == ['\n'] + (WriteLines(es[1..], quiet) + s)
    ensures es != [] && !Silent(es[0].value, quiet) ==>
              WriteLines(es, quiet) + s
              == es[0].key + " = " + (WriteItem(es[0].value) + (['\n'] + (WriteLines(es[1..], quiet) + s)))
  {
    hide WriteItem, Silent;
    if es == [] {
      assert "" + s == s;
    } else {
      var more := WriteLines(es[1..], quiet);
      Regroup("\n", more, s);
      if !Silent(es[0].value, quiet) {
        var key, item := es[0].key + " = ", WriteItem(es[0].value);
        assert WriteLines(es, quiet) == key + (item + ("\n" + more));
        hide WriteLines;
        Regroup(key, item + ("\n" + more), s);
        Regroup(item, "\n" + more, s);
      }
    }
  }

  lemma LineInPieces(es: Dict, quiet: bool)
    requires es != []
    ensures PiecesOfLines(es, quiet)
         == if Silent(es[0].value, quiet) then ["\n"] + PiecesOfLines(es[1..], quiet)
            else [es[0].key, " ", "=", " "] + (PiecesOf(es[0].value) + (["\n"] + PiecesOfLines(es[1..], quiet)))
  {
    hide PiecesOf, Silent;
  }

  lemma NoLinePieces(quiet: bool)
    ensures PiecesOfLines([], quiet) == []
  {
  }

  lemma {:induction false} LinesPieces(es: Dict, quiet: bool, s: string)
    requires NamedLines(es)
    ensures Solid(D) && Cut(D, WriteLines(es, quiet) + s) == PiecesOfLines(es, quiet) + Cut(D, s)
  {
    hide *;
    SolidTokens();
    LineText(es, quiet, s);
    NamedEntries(es);
    if es == [] {
      NoLinePieces(quiet);
      assert [] + Cut(D, s) == Cut(D, s);
    } else {
      var more := WriteLines(es[1..], quiet) + s;
      LineInPieces(es, quiet);
      LinesPieces(es[1..], quiet, s);
      BreakBounds(more);
      CutChar('\n', more);
      if !Silent(es[0].value, quiet) {
        KeyPieces(es[0].key, WriteItem(es[0].value) + (['\n'] + more));
        ItemPieces(es[0].value, ['\n'] + more);
      }
    }
  }

  lemma BreakBounds(s: string)
    ensures IsDelimiter(D, '\n') && Bounded(D, ['\n'] + s)
  {
    TomlDelimiters();
  }

  lemma HeaderPieces(key: string, s: string)
    requires Name(key)
    ensures Solid(D) && Cut(D, "\n[" + key + "]\n" + s) == ["\n", "[", key, "]", "\n"] + Cut(D, s)
  {
    TomlDelimiters();
    hide Cut, Name;
    var last := ['\n'] + s;
    var close := [']'] + last;
    assert "\n[" + key + "]\n" + s == ['\n'] + (['['] + (key + close));
    CutChar('\n', ['['] + (key + close));
    CutChar('[', key + close);
    CutName(key, close);
    CutChar(']', last);
    CutChar('\n', s);
  }

  predicate NamedSections(c: Dict) {
    forall k :: 0 <= k < |c| ==> Name(c[k].key) && c[k].value.Table? && NamedLines(c[k].value.entries)
  }

  lemma SectionText(c: Dict, quiet: bool, s: string)
    ensures c == [] ==> Write(c, quiet) + s == s
    ensures c != [] && c[0].value.Table? ==>
              Write(c, quiet) + s
              == "\n[" + c[0].key + "]\n" + (WriteLines(c[0].value.entries, quiet) + (Write(c[1..], quiet) + s))
  {
    if c == [] {
      assert "" + s == s;
    } else if c[0].value.Table? {
      var head, lines, rest := "\n[" + c[0].key + "]\n", WriteLines(c[0].value.entries, quiet), Write(c[1..], quiet);
      assert Write(c, quiet) == head + (lines + rest);
      hide Write, WriteLines;
      Regroup(head, lines + rest, s);
      Regroup(lines, rest, s);
    }
  }

  lemma {:induction false} SectionsPieces(c: Dict, quiet: bool, s: string)
    requires NamedSections(c)
    ensures Solid(D) && Cut(D, Write(c, quiet) + s) == PiecesOfSections(c, quiet) + Cut(D, s)
  {
    TomlDelimiters();
    SectionText(c, quiet, s);
    hide Cut, Write, WriteLines, PiecesOfLines, Name, NamedLines;
    if c != [] {
      var key, lines := c[0].key, c[0].value.entries;
      var more := Write(c[1..], quiet) + s;
      HeaderPieces(key, WriteLines(lines, quiet) + more);
      LinesPieces(lines, quiet, more);
      SectionsPieces(c[1..], quiet, s);
    }
  }

  // ---- the printer ----

  predicate Plain(s: string) { '"' !in s && '#' !in s }

  /** What the printer writes as an element: numbers of 32 bits, floats that survive, strings without
      double quotes and hash signs, and arrays of these, nested to any depth. */
  predicate PrintableItem(v: Value) {
    match v
    case Int(n) => -0x8000_0000 <= n < 0x8000_0000
    case Float(x) => Survives(x)
    case Str(s) => Plain(s)
    case Arr(items) => forall k :: 0 <= k < |items| ==> PrintableItem(items[k])
    case Bool(_) => false
    case Table(_) => false
  }

  /** Entries that it writes as an inline dictionary. */
  predicate Fields(es: Dict) {
    forall k :: 0 <= k < |es| ==> LineKey(es[k].key) && PrintableItem(es[k].value)
  }

  /** What it writes on a line: an item, or one level of inline dictionary. */
  predicate Shown(v: Value) { PrintableItem(v) || (v.Table? && Fields(v.entries)) }

  /** What can be read back from a line: an inline dictionary needs at least one entry. */
  ghost predicate Setting(v: Value) { Shown(v) && (v.Table? ==> v.entries != [] && Sorted(v.entries)) }

  /** The lines of a section; a boolean only leaves an empty line. */
  predicate ShownLines(es: Dict) {
    forall k :: 0 <= k < |es| ==> LineKey(es[k].key) && (es[k].value.Bool? || Shown(es[k].value))
  }

  predicate ShownSections(c: Dict) {
    forall k :: 0 <= k < |c| ==> Name(c[k].key) && c[k].value.Table? && ShownLines(c[k].value.entries)
  }

  ghost predicate WritableLines(es: Dict) {
    ShownLines(es) && forall k :: 0 <= k < |es| && es[k].value.Table? ==> Setting(es[k].value)
  }

  /** Sorted sections of lines that can be read back, or of booleans. */
  ghost predicate WritableSections(c: Dict) {
    && ShownSections(c)
    && forall k :: 0 <= k < |c| ==>
         c[k].value.Table? && Sorted(c[k].value.entries) && WritableLines(c[k].value.entries)
  }

  ghost predicate Writable(c: Dict) { Sorted(c) && WritableSections(c) }

  ghost predicate HasBooleans(c: Dict) {
    exists k, j :: 0 <= k < |c| && c[k].value.Table? && 0 <= j < |c[k].value.entries|
                   && c[k].value.entries[j].value.Bool?
  }

  function DumpSetting(v: Value): string {
    if v.Table? then DumpInline(v.entries) else DumpItem(v)
  }

  lemma DumpItemsStep(vs: seq<Value>)
    requires vs != []
    ensures DumpItems(vs, true)
         == DumpItem(vs[0]) + if |vs| == 1 then "" else ", " + DumpItems(vs[1..], true)
  {
    hide DumpItem;
    DumpItemsTail(vs[1..]);
    assert "" + DumpItem(vs[0]) == DumpItem(vs[0]);
  }

  lemma DumpItemsTail(vs: seq<Value>)
    ensures DumpItems(vs, false) == if vs == [] then "" else ", " + DumpItems(vs, true)
  {
    hide DumpItem;
    if vs != [] {
      assert "" + DumpItem(vs[0]) == DumpItem(vs[0]);
      Regroup(", ", DumpItem(vs[0]), DumpItems(vs[1..], false));
    }
  }

  lemma DumpFieldsStep(es: Dict)
    requires es != [] && !es[0].value.Bool?
    ensures DumpFields(es, true)
         == es[0].key + " = " + (DumpItem(es[0].value) + if |es| == 1 then "" else ", " + DumpFields(es[1..], true))
  {
    FirstField(es);
    DumpFieldsTail(es[1..]);
    FieldText(es[0]);
    hide DumpField, DumpFields, DumpItem;
    Regroup(es[0].key + " = ", DumpItem(es[0].value), DumpFields(es[1..], false));
  }

  lemma FirstField(es: Dict)
    requires es != []
    ensures DumpFields(es, true) == DumpField(es[0]) + DumpFields(es[1..], false)
  {
    hide DumpField;
    assert "" + DumpField(es[0]) == DumpField(es[0]);
  }

  lemma FieldText(e: Entry)
    requires !e.value.Bool?
    ensures DumpField(e) == e.key + " = " + DumpItem(e.value)
  {
  }

  lemma DumpFieldsTail(es: Dict)
    ensures DumpFields(es, false) == if es == [] then "" else ", " + DumpFields(es, true)
  {
    hide DumpField;
  }

  lemma {:induction false} PrintableExpressible(v: Value)
    requires PrintableItem(v)
    ensures Expressible(v)
  {
    if v.Arr? {
      forall k | 0 <= k < |v.items| ensures Expressible(v.items[k]) {
        PrintableExpressible(v.items[k]);
      }
    }
  }

  /** The printer writes a printable item as it should be written. */
  lemma {:induction false} ItemAsWritten(v: Value)
    requires PrintableItem(v)
    ensures DumpItem(v) == WriteItem(v)
    decreases v, 0
  {
    hide IntText, FloatText, Survives, DumpItems, WriteItems;
    match v {
      case Int(n) => Unwrapped(n);
      case Arr(items) => ItemsAsWritten(items);
      case _ =>
    }
  }

  lemma {:induction false} ItemsAsWritten(vs: seq<Value>)
    requires forall k :: 0 <= k < |vs| ==> PrintableItem(vs[k])
    ensures DumpItems(vs, true) == WriteItems(vs)
    decreases vs, 1
  {
    if vs != [] {
      DumpItemsStep(vs);
      hide DumpItem, DumpItems, WriteItem, PrintableItem;
      ItemAsWritten(vs[0]);
      ItemsAsWritten(vs[1..]);
    }
  }

  lemma {:induction false} FieldsAsWritten(es: Dict)
    requires Fields(es)
    ensures DumpFields(es, true) == WriteFields(es)
  {
    if es != [] {
      DumpFieldsStep(es);
      hide DumpItem, DumpFields, WriteItem, PrintableItem, LineKey;
      ItemAsWritten(es[0].value);
      FieldsAsWritten(es[1..]);
    }
  }

  lemma SettingAsWritten(v: Value)
    requires Shown(v)
    ensures DumpSetting(v) == WriteItem(v)
  {
    assert v.Table? ==> Fields(v.entries);
    hide DumpItem, DumpFields, WriteFields, PrintableItem, Fields;
    if v.Table? {
      FieldsAsWritten(v.entries);
    } else {
      ItemAsWritten(v);
    }
  }

  lemma {:induction false} LinesAsWritten(es: Dict)
    requires ShownLines(es)
    ensures DumpGlobal(es, false) == WriteLines(es, true)
  {
    hide DumpItem, DumpInline, WriteItem, Shown, LineKey;
    if es != [] {
      LinesAsWritten(es[1..]);
      var key, v, rest := es[0].key, es[0].value, DumpGlobal(es[1..], false);
      if !v.Bool? {
        SettingAsWritten(v);
        assert DumpLine(es[0], false) == key + " = " + DumpSetting(v) + "\n";
        Regroup(key + " = " + DumpSetting(v), "\n", rest);
        Regroup(key + " = ", DumpSetting(v), "\n" + rest);
      }
    }
  }

  /** The printer writes the sections it can express as they should be written, in silence about
      booleans. */
  lemma {:induction false} DumpAsWritten(c: Dict)
    requires ShownSections(c)
    ensures Dump(c) == Write(c, true)
  {
    hide ShownLines, Name;
    if c != [] {
      DumpAsWritten(c[1..]);
      LinesAsWritten(c[0].value.entries);
      var head, lines := "\n[" + c[0].key + "]\n", DumpGlobal(c[0].value.entries, false);
      assert DumpLine(c[0], true) == head + lines;
      assert Dump(c) == DumpLine(c[0], true) + Dump(c[1..]);
      hide Dump, DumpLine, DumpGlobal, WriteLines;
      Regroup(head, lines, Dump(c[1..]));
    }
  }

  /** And what it writes can be read. */
  lemma SettingExpressible(v: Value)
    requires Setting(v)
    ensures Expressible(v)
  {
    assert v.Table? ==> Fields(v.entries);
    hide PrintableItem, LineKey, Sorted;
    if v.Table? {
      forall k | 0 <= k < |v.entries| ensures Expressible(v.entries[k].value) {
        PrintableExpressible(v.entries[k].value);
      }
    } else {
      PrintableExpressible(v);
    }
  }

  lemma LinesExpressible(es: Dict)
    requires WritableLines(es)
    ensures Lines(es, true)
  {
    hide Expressible, PrintableItem, Fields, LineKey, Sorted;
    forall k | 0 <= k < |es| ensures Silent(es[k].value, true) || Expressible(es[k].value) {
      if !es[k].value.Bool? {
        SettingExpressible(es[k].value);
      }
    }
  }
}
