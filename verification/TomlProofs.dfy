/** Reading what was written. */
module TomlProofs {
  import opened Decimal
  import opened Floats
  import opened FloatProofs
  import opened Pieces
  import opened SingleDelimiters
  import opened Tokenization
  import opened TomlModel
  import opened TomlPrinting

  // ---- positions in a text ----

  /** The pieces xs stand at position i. */
  ghost predicate At(ps: seq<string>, i: nat, xs: seq<string>) {
    i + |xs| <= |ps| && forall k :: 0 <= k < |xs| ==> ps[i + k] == xs[k]
  }

  lemma AtSplit(ps: seq<string>, i: nat, a: seq<string>, b: seq<string>)
    requires At(ps, i, a + b)
    ensures At(ps, i, a) && At(ps, i + |a|, b)
    ensures |a| > 0 ==> ps[i] == a[0]
    ensures |b| > 0 ==> ps[i + |a|] == b[0]
  {
    forall k | 0 <= k < |a| ensures ps[i + k] == a[k] {
      assert (a + b)[k] == a[k];
    }
    forall k | 0 <= k < |b| ensures ps[i + |a| + k] == b[k] {
      assert (a + b)[|a| + k] == b[k];
    }
  }

  lemma NextVisible(ps: seq<string>, i: nat)
    requires i < |ps| && Visible(ps[i])
    ensures Next(ps, i) == Token(ps[i], i + 1)
  {
  }

  lemma NextSkipped(ps: seq<string>, i: nat)
    requires i < |ps| && ps[i] in TOML.skips
    ensures Next(ps, i) == Next(ps, i + 1)
  {
  }

  lemma Punctuation()
    ensures forall p :: p in ["[", "]", "{", "}", "=", ","] ==> Visible(p)
    ensures forall p :: p in [" ", "\n"] ==> p in TOML.skips
  {
    assert TOML.skips[0] == " " && TOML.skips[2] == "\n";
  }

  lemma WordVisible(w: string)
    requires Word(D, w)
    ensures Visible(w) && w !in D
  {
    TomlDelimiters();
    assert [w[0]] !in D;
    assert |w| == 1 ==> w == [w[0]];
    assert D[8] == " " && D[9] == "\n" && D[10] == "\t" && D[11] == "\r" && D[12] == "#";
  }

  lemma NameVisible(key: string)
    requires Name(key)
    ensures Visible(key)
  {
    if Word(D, key) {
      WordVisible(key);
    }
  }

  /** The parsers see of a position only its next token. */
  lemma SameValue(ps: seq<string>, i: nat, j: nat)
    requires Text(ps) && i < |ps| && j < |ps| && Next(ps, i) == Next(ps, j)
    ensures ParseValue(ps, i) == ParseValue(ps, j)
  {
    hide NextToken, ParseArray, ParseDict, ParseString, ParseInt, ParseFloat;
  }

  lemma SameArray(ps: seq<string>, i: nat, j: nat, acc: seq<Value>)
    requires Text(ps) && i < |ps| && j < |ps| && Next(ps, i) == Next(ps, j)
    ensures ParseArray(ps, i, acc) == ParseArray(ps, j, acc)
  {
    hide NextToken, ParseValue;
  }

  lemma SameDict(ps: seq<string>, i: nat, j: nat, glob: bool, acc: Dict)
    requires Text(ps) && i < |ps| && j < |ps| && Next(ps, i) == Next(ps, j)
    ensures ParseDict(ps, i, glob, acc) == ParseDict(ps, j, glob, acc)
  {
    hide NextToken, ParseValue;
  }

  lemma SameSections(ps: seq<string>, i: nat, j: nat, acc: Dict)
    requires Text(ps) && i < |ps| && j < |ps| && Next(ps, i) == Next(ps, j)
    ensures ParseSections(ps, i, acc) == ParseSections(ps, j, acc)
  {
    hide NextToken, ParseDict;
  }

  lemma PassComma(ps: seq<string>, i: nat, rest: seq<string>)
    requires At(ps, i, [",", " "] + rest)
    ensures At(ps, i + 2, rest)
    ensures Next(ps, i) == Token(",", i + 1) && Next(ps, i + 1) == Next(ps, i + 2)
  {
    AtSplit(ps, i, [",", " "], rest);
    assert ps[i + 1] == [",", " "][1];
    NextVisible(ps, i);
    assert TOML.skips[0] == " ";
    NextSkipped(ps, i + 1);
  }

  // ---- order of keys ----

  lemma {:induction false} LessIsStrict(a: string, b: string)
    requires Less(a, b)
    ensures a != b && !Less(b, a)
  {
    if a != "" && a[0] == b[0] {
      LessIsStrict(a[1..], b[1..]);
    }
  }

  /** A key beyond all others goes to the end. */
  lemma {:induction false} InsertLast(d: Dict, e: Entry)
    requires forall k :: 0 <= k < |d| ==> Less(d[k].key, e.key)
    ensures Insert(d, e.key, e.value) == d + [e]
  {
    if d != [] {
      LessIsStrict(d[0].key, e.key);
      InsertLast(d[1..], e);
    }
  }

  // ---- values ----

  lemma {:induction false} ReadString(ps: seq<string>, i: nat, xs: seq<string>, end: char, acc: string)
    requires At(ps, i, xs + [[end]]) && end != '#'
    requires forall k :: 0 <= k < |xs| ==> xs[k] !in ["", "#", [end]]
    ensures ParseString(ps, i, end, acc) == Ok(acc + Join(xs), i + |xs| + 1)
    decreases |xs|
  {
    AtSplit(ps, i, xs, [[end]]);
    if xs == [] {
      assert acc + Join(xs) == acc;
    } else {
      assert xs + [[end]] == [xs[0]] + (xs[1..] + [[end]]);
      AtSplit(ps, i, [xs[0]], xs[1..] + [[end]]);
      assert ps[i] == xs[0];
      ReadString(ps, i + 1, xs[1..], end, acc + xs[0]);
      assert acc + xs[0] + Join(xs[1..]) == acc + Join(xs);
    }
  }

  lemma ReadQuoted(ps: seq<string>, i: nat, s: string)
    requires Text(ps) && Sayable(s) && At(ps, i, PiecesOf(Str(s))) && i + |PiecesOf(Str(s))| < |ps|
    ensures ParseValue(ps, i) == Ok(Str(s), i + |PiecesOf(Str(s))|)
  {
    QuotedInParts(s);
    QuoteVisible(QuoteFor(s));
    hide *;
    ReadBetween(ps, i, QuoteFor(s), Cut(D, s), s);
  }

  lemma ReadBetween(ps: seq<string>, i: nat, q: char, xs: seq<string>, s: string)
    requires Text(ps) && At(ps, i, [[q]] + (xs + [[q]])) && i + |xs| + 2 < |ps|
    requires Visible([q]) && OpeningOf([q]) == Quote(q) && q != '#'
    requires Join(xs) == s && forall k :: 0 <= k < |xs| ==> xs[k] !in ["", "#", [q]]
    ensures ParseValue(ps, i) == Ok(Str(s), i + |xs| + 2)
  {
    hide *;
    AtSplit(ps, i, [[q]], xs + [[q]]);
    ReadString(ps, i + 1, xs, q, "");
    assert "" + s == s;
    OpensString(ps, i, q, s, i + |xs| + 2);
  }

  lemma QuotedInParts(s: string)
    requires Sayable(s)
    ensures Solid(D) && Join(Cut(D, s)) == s
    ensures PiecesOf(Str(s)) == [[QuoteFor(s)]] + (Cut(D, s) + [[QuoteFor(s)]])
    ensures |PiecesOf(Str(s))| == |Cut(D, s)| + 2
    ensures forall k :: 0 <= k < |Cut(D, s)| ==> Cut(D, s)[k] !in ["", "#", [QuoteFor(s)]]
  {
    TomlDelimiters();
    hide Cut;
    var xs, q := Cut(D, s), QuoteFor(s);
    CutJoins(D, s);
    assert q !in s && '#' !in s;
    forall k | 0 <= k < |xs| ensures xs[k] != "" && xs[k] != "#" && xs[k] != [q] {
      PieceKinds(D, s, k);
      assert xs[k][0] in s;
    }
  }

  lemma OpensString(ps: seq<string>, i: nat, q: char, s: string, p: nat)
    requires Text(ps) && i + 1 < |ps| && ps[i] == [q] && Visible([q]) && OpeningOf([q]) == Quote(q)
    requires ParseString(ps, i + 1, q, "") == Ok(s, p)
    ensures ParseValue(ps, i) == Ok(Str(s), p)
  {
    hide NextToken, ParseString, ParseValue, OpeningOf, Visible;
    NextVisible(ps, i);
    ValueUnfold(ps, i);
  }

  lemma QuoteVisible(q: char)
    requires q == '\'' || q == '"'
    ensures Visible([q]) && OpeningOf([q]) == Quote(q) && q != '#'
  {
  }

  /** All digits of a float, and the words for the values without digits, are read back. */
  lemma LiteralRead(x: Single)
    ensures ScanFloat(FloatLiteral(x)) == Scanned(x)
  {
    if Survives(x) {
      PrintedRead(x);
      RoundedShort(x);
    } else {
      hide Survives, ScanFloat, ScanMagnitude, SignText;
      var t := match x
        case Finite(_, m, e) => NatText(m) + ".e" + ExponentText(e)
        case Infinite(_) => "inf."
        case NotANumber(_) => "nan.";
      assert FloatLiteral(x) == SignText(x.negative) + t;
      if x.Finite? {
        DigitsLiteralRead(x);
      } else {
        SpecialLiteralRead(x.negative);
      }
      SignRead(x.negative, t);
    }
  }

  lemma DigitsLiteralRead(x: Single)
    requires x.Finite?
    ensures var t := NatText(x.m) + ".e" + ExponentText(x.e);
      t != "" && IsDigit(t[0]) && ScanMagnitude(x.negative, t) == Scanned(x)
  {
    hide ScanExponent, ScanDecimal, ScanMagnitude, NatText, Horner, ExponentText, Reduce;
    var ds, rest := NatText(x.m), "e" + ExponentText(x.e);
    NatDigits(x.m);
    HornerNat(x.m);
    ExponentRead(x.e);
    DecimalParts(x.negative, ds, "", rest);
    ReduceReduced(x);
    assert ds + "" == ds;
    var t := ds + ("." + ("" + rest));
    assert t == ds + ".e" + ExponentText(x.e);
    DigitsRead(x.negative, t);
  }

  lemma SpecialLiteralRead(negative: bool)
    ensures ScanMagnitude(negative, "inf.") == Scanned(Infinite(negative))
    ensures ScanMagnitude(negative, "nan.") == Scanned(NotANumber(negative))
  {
    InfinityRead(negative, "inf.");
    NanRead(negative, "nan.");
  }

  /** Numbers and booleans are single tokens. */
  predicate Atomic(v: Value) { v.Int? || v.Float? || v.Bool? }

  /** A number or a boolean is read from the word that stands for it. */
  lemma AtomRead(v: Value, p: nat)
    requires Expressible(v) && Atomic(v)
    ensures Word(D, WriteItem(v)) && AtomOf(Token(WriteItem(v), p)) == Ok(v, p)
  {
    hide ScanInt, ScanFloat, IntText, FloatLiteral, InRange, Word;
    match v {
      case Int(n) =>
        NumberIsWord(n);
        ScanText(n, "");
        var w := IntText(n);
        assert w + "" == w;
        assert IsDigit(w[0]) || w[0] == '-';
        assert w[0] != 't' && w[0] != 'f';
      case Float(x) =>
        LiteralIsWord(x);
        LiteralRead(x);
      case Bool(b) =>
        BoolIsWord(b);
    }
  }

  lemma WordOpens(w: string)
    requires Word(D, w)
    ensures Visible(w) && w != "]" && OpeningOf(w) == Atom
  {
    WordVisible(w);
    assert "]" == D[1] && "{" == D[2] && "[" == D[0] && "'" == D[6] && "\"" == D[7];
  }

  lemma ReadWord(ps: seq<string>, i: nat, v: Value)
    requires Text(ps) && Expressible(v) && Atomic(v) && At(ps, i, [WriteItem(v)]) && i + 1 < |ps|
    ensures ParseValue(ps, i) == Ok(v, i + 1)
  {
    hide NextToken, WriteItem, AtomOf, ParseValue, Word, Expressible, Visible, OpeningOf;
    assert ps[i] == [WriteItem(v)][0];
    AtomRead(v, i + 1);
    WordOpens(WriteItem(v));
    NextVisible(ps, i);
    ValueUnfold(ps, i);
  }

  lemma FirstIsVisible(v: Value)
    requires Expressible(v)
    ensures PiecesOf(v) != [] && Visible(PiecesOf(v)[0]) && PiecesOf(v)[0] != "]"
  {
    if Atomic(v) {
      AtomPieces(v);
      AtomRead(v, 0);
      hide *;
      WordOpens(WriteItem(v));
    } else {
      hide Cut, PiecesOfItems, PiecesOfFields, Expressible;
    }
  }

  lemma AtomPieces(v: Value)
    requires Atomic(v)
    ensures PiecesOf(v) == [WriteItem(v)]
  {
    hide IntText, FloatLiteral;
  }

  lemma OpensArray(ps: seq<string>, i: nat, vs: seq<Value>, p: nat)
    requires Text(ps) && i + 1 < |ps| && ps[i] == "[" && ParseArray(ps, i + 1, []) == Ok(vs, p)
    ensures ParseValue(ps, i) == Ok(Arr(vs), p)
  {
    hide NextToken, ParseArray;
    NextVisible(ps, i);
  }

  lemma OpensTable(ps: seq<string>, i: nat, es: Dict, p: nat)
    requires Text(ps) && i + 1 < |ps| && ps[i] == "{" && ParseDict(ps, i + 1, false, []) == Ok(es, p)
    ensures ParseValue(ps, i) == Ok(Table(es), p)
  {
    hide NextToken, ParseDict;
    NextVisible(ps, i);
  }

  lemma {:induction false} ReadItem(ps: seq<string>, i: nat, v: Value)
    requires Text(ps) && Expressible(v) && At(ps, i, PiecesOf(v)) && i + |PiecesOf(v)| < |ps|
    ensures ParseValue(ps, i) == Ok(v, i + |PiecesOf(v)|)
    decreases v, 0
  {
    hide Cut, NextToken, WriteItem, IntText, FloatLiteral, BoolText, QuoteFor, Sorted, LineKey, InRange, Sayable;
    hide PiecesOfItems, PiecesOfFields, ParseValue, ParseArray, ParseDict, Text, At;
    match v {
      case Str(s) => ReadQuoted(ps, i, s);
      case Arr(items) =>
        var xs := PiecesOfItems(items);
        assert PiecesOf(v) == ["["] + (xs + ["]"]);
        AtSplit(ps, i, ["["], xs + ["]"]);
        ReadItems(ps, i + 1, items, []);
        assert [] + items == items;
        OpensArray(ps, i, items, i + |PiecesOf(v)|);
      case Table(es) =>
        var xs := PiecesOfFields(es);
        assert PiecesOf(v) == ["{"] + (xs + ["}"]);
        AtSplit(ps, i, ["{"], xs + ["}"]);
        assert [] + es == es;
        ReadFields(ps, i + 1, es, []);
        OpensTable(ps, i, es, i + |PiecesOf(v)|);
      case _ =>
        AtomPieces(v);
        ReadWord(ps, i, v);
    }
  }

  lemma ArrayStep(ps: seq<string>, i: nat, acc: seq<Value>, v: Value, p: nat)
    requires Text(ps) && i < |ps| && Next(ps, i).text != "]"
    requires ParseValue(ps, Next(ps, i).next - 1) == Ok(v, p)
    ensures i < p < |ps|
    ensures Next(ps, p).text == "]" ==> ParseArray(ps, i, acc) == Ok(acc + [v], Next(ps, p).next)
    ensures Next(ps, p).text == "," ==> ParseArray(ps, i, acc) == ParseArray(ps, Next(ps, p).next, acc + [v])
  {
    hide NextToken, ParseValue;
  }

  lemma {:induction false} ReadItems(ps: seq<string>, i: nat, vs: seq<Value>, acc: seq<Value>)
    requires Text(ps) && (forall k :: 0 <= k < |vs| ==> Expressible(vs[k]))
    requires At(ps, i, PiecesOfItems(vs) + ["]"]) && i + |PiecesOfItems(vs)| + 1 < |ps|
    ensures ParseArray(ps, i, acc) == Ok(acc + vs, i + |PiecesOfItems(vs)| + 1)
    decreases vs, 1
  {
    hide NextToken, PiecesOf, PiecesOfItems, Expressible, ParseArray, ParseValue, Visible, Text, At;
    Punctuation();
    if vs == [] {
      assert PiecesOfItems(vs) == [] by { NoItems(); }
      assert [] + ["]"] == ["]"] && acc + vs == acc;
      EmptyArray(ps, i, acc);
    } else {
      FirstIsVisible(vs[0]);
      FirstItem(ps, i, vs);
      var next := i + |PiecesOf(vs[0])|;
      NextVisible(ps, i);
      ReadItem(ps, i, vs[0]);
      NextVisible(ps, next);
      ArrayStep(ps, i, acc, vs[0], next);
      if |vs| == 1 {
        assert acc + [vs[0]] == acc + vs;
      } else {
        PassComma(ps, next, PiecesOfItems(vs[1..]) + ["]"]);
        ReadItems(ps, next + 2, vs[1..], acc + [vs[0]]);
        SameArray(ps, next + 1, next + 2, acc + [vs[0]]);
        assert acc + [vs[0]] + vs[1..] == acc + vs;
      }
    }
  }

  lemma NoItems()
    ensures PiecesOfItems([]) == []
  {
  }

  lemma FirstItem(ps: seq<string>, i: nat, vs: seq<Value>)
    requires vs != [] && At(ps, i, PiecesOfItems(vs) + ["]"]) && PiecesOf(vs[0]) != []
    ensures At(ps, i, PiecesOf(vs[0])) && ps[i] == PiecesOf(vs[0])[0]
    ensures var next := i + |PiecesOf(vs[0])|;
      if |vs| == 1
      then |PiecesOfItems(vs)| == |PiecesOf(vs[0])| && ps[next] == "]"
      else |PiecesOfItems(vs)| == |PiecesOf(vs[0])| + 2 + |PiecesOfItems(vs[1..])| && ps[next] == ","
           && At(ps, next, [",", " "] + (PiecesOfItems(vs[1..]) + ["]"]))
  {
    hide PiecesOf, At;
    var first := PiecesOf(vs[0]);
    if |vs| == 1 {
      assert PiecesOfItems(vs) == first;
      AtSplit(ps, i, first, ["]"]);
    } else {
      var more := PiecesOfItems(vs[1..]);
      assert PiecesOfItems(vs) + ["]"] == first + ([",", " "] + (more + ["]"]));
      AtSplit(ps, i, first, [",", " "] + (more + ["]"]));
    }
  }

  lemma EmptyArray(ps: seq<string>, i: nat, acc: seq<Value>)
    requires Text(ps) && At(ps, i, ["]"])
    ensures ParseArray(ps, i, acc) == Ok(acc, i + 1)
  {
    assert ps[i] == ["]"][0];
    NextVisible(ps, i);
  }

  // ---- dictionaries ----

  /** The pieces before the value of an entry. */
  function Key(key: string): seq<string> { [key, " ", "=", " "] }

  lemma DictKey(ps: seq<string>, i: nat, key: string)
    requires Text(ps) && LineKey(key) && At(ps, i, Key(key)) && i + 4 < |ps|
    ensures key != "[" && Next(ps, i) == Token(key, i + 1)
    ensures Next(ps, i + 1) == Token("=", i + 3)
    ensures ParseValue(ps, i + 3) == ParseValue(ps, i + 4)
  {
    hide ParseValue, NextToken;
    var xs := Key(key);
    assert ps[i] == xs[0] && ps[i + 1] == xs[1] && ps[i + 2] == xs[2] && ps[i + 3] == xs[3];
    Punctuation();
    NameVisible(key);
    NextVisible(ps, i);
    NextSkipped(ps, i + 1);
    NextVisible(ps, i + 2);
    NextSkipped(ps, i + 3);
    SameValue(ps, i + 3, i + 4);
  }

  lemma DictStep(ps: seq<string>, i: nat, acc: Dict, e: Entry, p: nat)
    requires Text(ps) && LineKey(e.key) && At(ps, i, Key(e.key)) && i + 4 < |ps|
    requires ParseValue(ps, i + 4) == Ok(e.value, p)
    requires forall k :: 0 <= k < |acc| ==> Less(acc[k].key, e.key)
    ensures i < p < |ps|
    ensures ParseDict(ps, i, true, acc) == ParseDict(ps, p, true, acc + [e])
    ensures Next(ps, p).text == "}" ==> ParseDict(ps, i, false, acc) == Ok(acc + [e], Next(ps, p).next)
    ensures Next(ps, p).text == "," ==>
              ParseDict(ps, i, false, acc) == ParseDict(ps, Next(ps, p).next, false, acc + [e])
  {
    hide NextToken, ParseValue, At, Less, Insert;
    DictKey(ps, i, e.key);
    InsertLast(acc, e);
  }

  lemma FirstFieldAt(ps: seq<string>, i: nat, es: Dict)
    requires es != [] && At(ps, i, PiecesOfFields(es) + ["}"])
    ensures At(ps, i, Key(es[0].key)) && At(ps, i + 4, PiecesOf(es[0].value))
    ensures var next := i + 4 + |PiecesOf(es[0].value)|;
      if |es| == 1
      then |PiecesOfFields(es)| == 4 + |PiecesOf(es[0].value)| && At(ps, next, ["}"])
      else |PiecesOfFields(es)| == 6 + |PiecesOf(es[0].value)| + |PiecesOfFields(es[1..])|
           && At(ps, next, [",", " "] + (PiecesOfFields(es[1..]) + ["}"]))
  {
    hide PiecesOf, At;
    var item := PiecesOf(es[0].value);
    var tail := if |es| == 1 then ["}"] else [",", " "] + (PiecesOfFields(es[1..]) + ["}"]);
    assert PiecesOfFields(es) + ["}"] == Key(es[0].key) + (item + tail);
    AtSplit(ps, i, Key(es[0].key), item + tail);
    AtSplit(ps, i + 4, item, tail);
  }

  lemma {:induction false} ReadFields(ps: seq<string>, i: nat, es: Dict, acc: Dict)
    requires Text(ps) && es != [] && Sorted(acc + es)
    requires forall k :: 0 <= k < |es| ==> LineKey(es[k].key) && Expressible(es[k].value)
    requires At(ps, i, PiecesOfFields(es) + ["}"]) && i + |PiecesOfFields(es)| + 1 < |ps|
    ensures ParseDict(ps, i, false, acc) == Ok(acc + es, i + |PiecesOfFields(es)| + 1)
    decreases es, 1
  {
    hide NextToken, PiecesOf, PiecesOfFields, Expressible, ParseDict, Text, At, LineKey, Sorted, Less;
    KeysBefore(acc, es);
    FieldStep(ps, i, es, acc);
    if |es| > 1 {
      ReadFields(ps, i + 6 + |PiecesOf(es[0].value)|, es[1..], acc + [es[0]]);
    } else {
      assert acc + [es[0]] == acc + es;
    }
  }

  lemma FieldStep(ps: seq<string>, i: nat, es: Dict, acc: Dict)
    requires Text(ps) && es != [] && LineKey(es[0].key) && Expressible(es[0].value)
    requires forall k :: 0 <= k < |acc| ==> Less(acc[k].key, es[0].key)
    requires At(ps, i, PiecesOfFields(es) + ["}"]) && i + |PiecesOfFields(es)| + 1 < |ps|
    ensures var next := i + 4 + |PiecesOf(es[0].value)|;
      if |es| == 1
      then ParseDict(ps, i, false, acc) == Ok(acc + [es[0]], i + |PiecesOfFields(es)| + 1)
      else next + 2 < |ps|
           && ParseDict(ps, i, false, acc) == ParseDict(ps, next + 2, false, acc + [es[0]])
           && |PiecesOfFields(es)| == 6 + |PiecesOf(es[0].value)| + |PiecesOfFields(es[1..])|
           && At(ps, next + 2, PiecesOfFields(es[1..]) + ["}"])
    decreases es, 0
  {
    hide NextToken, PiecesOf, PiecesOfFields, Expressible, ParseDict, ParseValue, Visible, Text, At, Less, Name;
    Punctuation();
    var v, next := es[0].value, i + 4 + |PiecesOf(es[0].value)|;
    FirstFieldAt(ps, i, es);
    ReadItem(ps, i + 4, v);
    DictStep(ps, i, acc, es[0], next);
    if |es| == 1 {
      Last(ps, next, "}");
    } else {
      PassComma(ps, next, PiecesOfFields(es[1..]) + ["}"]);
      SameDict(ps, next + 1, next + 2, false, acc + [es[0]]);
    }
  }

  lemma Last(ps: seq<string>, i: nat, p: string)
    requires At(ps, i, [p]) && Visible(p)
    ensures Next(ps, i) == Token(p, i + 1)
  {
    assert ps[i] == [p][0];
    NextVisible(ps, i);
  }

  lemma KeysBefore(acc: Dict, es: Dict)
    requires es != [] && Sorted(acc + es)
    ensures forall k :: 0 <= k < |acc| ==> Less(acc[k].key, es[0].key)
    ensures acc + [es[0]] + es[1..] == acc + es
  {
    var all := acc + es;
    forall k | 0 <= k < |acc| ensures Less(acc[k].key, es[0].key) {
      assert Less(all[k].key, all[|acc|].key);
    }
  }

  lemma LineInParts(es: Dict, quiet: bool)
    requires es != [] && !Silent(es[0].value, quiet)
    ensures PiecesOfLines(es, quiet)
         == Key(es[0].key) + (PiecesOf(es[0].value) + (["\n"] + PiecesOfLines(es[1..], quiet)))
    ensures |Key(es[0].key)| == 4
  {
    hide PiecesOf;
  }

  lemma FirstLineAt(ps: seq<string>, i: nat, es: Dict, quiet: bool)
    requires es != [] && !Silent(es[0].value, quiet) && At(ps, i, PiecesOfLines(es, quiet))
    ensures At(ps, i, Key(es[0].key)) && At(ps, i + 4, PiecesOf(es[0].value))
    ensures var next := i + 4 + |PiecesOf(es[0].value)|;
      |PiecesOfLines(es, quiet)| == 5 + |PiecesOf(es[0].value)| + |PiecesOfLines(es[1..], quiet)|
      && next < |ps| && ps[next] == "\n" && At(ps, next + 1, PiecesOfLines(es[1..], quiet))
  {
    hide *;
    var item := PiecesOf(es[0].value);
    var tail := PiecesOfLines(es[1..], quiet);
    LineInParts(es, quiet);
    AtSplit(ps, i, Key(es[0].key), item + (["\n"] + tail));
    AtSplit(ps, i + 4, item, ["\n"] + tail);
    AtSplit(ps, i + 4 + |item|, ["\n"], tail);
  }

  /** The lines of a section end where the next section or the end of the text is. */
  lemma {:induction false} ReadLines(ps: seq<string>, i: nat, es: Dict, acc: Dict, quiet: bool)
    requires Text(ps) && Lines(es, quiet) && Sorted(acc + es)
    requires At(ps, i, PiecesOfLines(es, quiet)) && i + |PiecesOfLines(es, quiet)| < |ps|
    requires Next(ps, i + |PiecesOfLines(es, quiet)|).text in ["", "["]
    ensures ParseDict(ps, i, true, acc)
         == Ok(acc + Kept(es, quiet), Next(ps, i + |PiecesOfLines(es, quiet)|).next - 1)
    decreases |es|
  {
    hide Lines, NextToken, PiecesOfLines, Kept, ParseDict, Text, At, Sorted;
    if es == [] {
      NothingToRead(ps, i, acc, quiet);
    } else {
      var next, acc' := OneLine(ps, i, es, acc, quiet);
      ReadLines(ps, next, es[1..], acc', quiet);
    }
  }

  lemma NothingToRead(ps: seq<string>, i: nat, acc: Dict, quiet: bool)
    requires Text(ps) && i + |PiecesOfLines([], quiet)| < |ps|
    requires Next(ps, i + |PiecesOfLines([], quiet)|).text in ["", "["]
    ensures ParseDict(ps, i, true, acc)
         == Ok(acc + Kept([], quiet), Next(ps, i + |PiecesOfLines([], quiet)|).next - 1)
  {
    hide NextToken, ParseDict;
    NoLines(ps, i, acc);
    assert acc + Kept([], quiet) == acc;
  }

  lemma OneLine(ps: seq<string>, i: nat, es: Dict, acc: Dict, quiet: bool) returns (next: nat, acc': Dict)
    requires Text(ps) && Lines(es, quiet) && es != [] && Sorted(acc + es)
    requires At(ps, i, PiecesOfLines(es, quiet)) && i + |PiecesOfLines(es, quiet)| < |ps|
    ensures Lines(es[1..], quiet) && Sorted(acc' + es[1..]) && acc' + Kept(es[1..], quiet) == acc + Kept(es, quiet)
    ensures At(ps, next, PiecesOfLines(es[1..], quiet))
    ensures next + |PiecesOfLines(es[1..], quiet)| == i + |PiecesOfLines(es, quiet)|
    ensures ParseDict(ps, i, true, acc) == ParseDict(ps, next, true, acc')
  {
    hide *;
    FirstLine(es, quiet);
    KeptStep(es, quiet);
    if Silent(es[0].value, quiet) {
      next, acc' := i + 1, acc;
      EmptyLine(ps, i, es, acc, quiet);
    } else {
      next, acc' := i + 5 + |PiecesOf(es[0].value)|, acc + [es[0]];
      KeysBefore(acc, es);
      LineStep(ps, i, es, acc, quiet);
    }
  }

  lemma FirstLine(es: Dict, quiet: bool)
    requires Lines(es, quiet)
    ensures es != [] ==>
              && LineKey(es[0].key) && Lines(es[1..], quiet)
              && (Silent(es[0].value, quiet) || Expressible(es[0].value))
  {
    hide Expressible, LineKey;
  }

  lemma KeptStep(es: Dict, quiet: bool)
    ensures Kept(es, quiet)
         == if es == [] then []
            else if Silent(es[0].value, quiet) then Kept(es[1..], quiet)
            else [es[0]] + Kept(es[1..], quiet)
  {
  }

  lemma EmptyLine(ps: seq<string>, i: nat, es: Dict, acc: Dict, quiet: bool)
    requires Text(ps) && es != [] && Silent(es[0].value, quiet) && Sorted(acc + es)
    requires At(ps, i, PiecesOfLines(es, quiet)) && i + |PiecesOfLines(es, quiet)| < |ps|
    ensures Sorted(acc + es[1..]) && |PiecesOfLines(es, quiet)| == 1 + |PiecesOfLines(es[1..], quiet)|
    ensures At(ps, i + 1, PiecesOfLines(es[1..], quiet))
    ensures ParseDict(ps, i, true, acc) == ParseDict(ps, i + 1, true, acc)
  {
    SortedWithout(acc, es);
    hide NextToken, ParseDict, At, Sorted;
    AtSplit(ps, i, ["\n"], PiecesOfLines(es[1..], quiet));
    Punctuation();
    NextSkipped(ps, i);
    SameDict(ps, i, i + 1, true, acc);
  }

  lemma SortedWithout(acc: Dict, es: Dict)
    requires es != [] && Sorted(acc + es)
    ensures Sorted(acc + es[1..])
  {
    hide Less;
    var all, r := acc + es, acc + es[1..];
    forall i, j | 0 <= i < j < |r| ensures Less(r[i].key, r[j].key) {
      assert r[i] == all[if i < |acc| then i else i + 1];
      assert r[j] == all[if j < |acc| then j else j + 1];
    }
  }

  lemma NoLines(ps: seq<string>, i: nat, acc: Dict)
    requires Text(ps) && i < |ps| && Next(ps, i).text in ["", "["]
    ensures ParseDict(ps, i, true, acc) == Ok(acc, Next(ps, i).next - 1)
  {
    hide NextToken;
  }

  lemma LineStep(ps: seq<string>, i: nat, es: Dict, acc: Dict, quiet: bool)
    requires Text(ps) && es != [] && LineKey(es[0].key) && Expressible(es[0].value) && !Silent(es[0].value, quiet)
    requires forall k :: 0 <= k < |acc| ==> Less(acc[k].key, es[0].key)
    requires At(ps, i, PiecesOfLines(es, quiet)) && i + |PiecesOfLines(es, quiet)| < |ps|
    ensures |PiecesOfLines(es, quiet)| == 5 + |PiecesOf(es[0].value)| + |PiecesOfLines(es[1..], quiet)|
    ensures var next := i + 5 + |PiecesOf(es[0].value)|;
      && next < |ps| && At(ps, next, PiecesOfLines(es[1..], quiet))
      && ParseDict(ps, i, true, acc) == ParseDict(ps, next, true, acc + [es[0]])
  {
    hide NextToken, PiecesOf, PiecesOfLines, ParseDict, ParseValue, Visible, Text, At, Less, Name, Expressible;
    Punctuation();
    var v, next := es[0].value, i + 4 + |PiecesOf(es[0].value)|;
    FirstLineAt(ps, i, es, quiet);
    ReadItem(ps, i + 4, v);
    DictStep(ps, i, acc, es[0], next);
    NextSkipped(ps, next);
    SameDict(ps, next, next + 1, true, acc + [es[0]]);
  }

  // ---- sections ----

  /** The pieces of the head of a section. */
  function Head(key: string): seq<string> { ["\n", "[", key, "]", "\n"] }

  lemma HeadTokens(ps: seq<string>, i: nat, key: string)
    requires Text(ps) && Name(key) && At(ps, i, Head(key)) && i + 5 < |ps|
    ensures Next(ps, i) == Token("[", i + 2) && Next(ps, i + 2) == Token(key, i + 3)
    ensures Next(ps, i + 3) == Token("]", i + 4)
    ensures ParseDict(ps, i + 4, true, []) == ParseDict(ps, i + 5, true, [])
  {
    hide ParseDict, NextToken, Name;
    var xs := Head(key);
    assert ps[i] == xs[0] && ps[i + 1] == xs[1] && ps[i + 2] == xs[2] && ps[i + 3] == xs[3] && ps[i + 4] == xs[4];
    Punctuation();
    NameVisible(key);
    NextSkipped(ps, i);
    NextVisible(ps, i + 1);
    NextVisible(ps, i + 2);
    NextVisible(ps, i + 3);
    NextSkipped(ps, i + 4);
    SameDict(ps, i + 4, i + 5, true, []);
  }

  lemma ReadHead(ps: seq<string>, i: nat, key: string, d: Dict, p: nat, acc: Dict)
    requires Text(ps) && Name(key) && At(ps, i, Head(key)) && i + 5 < |ps|
    requires ParseDict(ps, i + 5, true, []) == Ok(d, p)
    requires forall k :: 0 <= k < |acc| ==> Less(acc[k].key, key)
    ensures i < p < |ps| && ParseSections(ps, i, acc) == ParseSections(ps, p, acc + [Entry(key, Table(d))])
  {
    hide ParseDict, NextToken, Less, Insert, Name, At;
    HeadTokens(ps, i, key);
    InsertLast(acc, Entry(key, Table(d)));
  }

  lemma FailHead(ps: seq<string>, i: nat, key: string, acc: Dict)
    requires Text(ps) && Name(key) && At(ps, i, Head(key)) && i + 5 < |ps|
    requires ParseDict(ps, i + 5, true, []).Err?
    ensures ParseSections(ps, i, acc).Err?
  {
    hide ParseDict, NextToken, Name, At;
    HeadTokens(ps, i, key);
  }

  lemma SectionInParts(c: Dict, quiet: bool)
    requires c != [] && c[0].value.Table?
    ensures PiecesOfSections(c, quiet)
         == Head(c[0].key) + (PiecesOfLines(c[0].value.entries, quiet) + PiecesOfSections(c[1..], quiet))
    ensures |Head(c[0].key)| == 5
  {
    hide PiecesOfLines;
  }

  lemma FirstSectionAt(ps: seq<string>, i: nat, c: Dict, quiet: bool)
    requires c != [] && c[0].value.Table? && At(ps, i, PiecesOfSections(c, quiet))
    ensures At(ps, i, Head(c[0].key)) && At(ps, i + 5, PiecesOfLines(c[0].value.entries, quiet))
    ensures var next := i + 5 + |PiecesOfLines(c[0].value.entries, quiet)|;
      && |PiecesOfSections(c, quiet)|
         == 5 + |PiecesOfLines(c[0].value.entries, quiet)| + |PiecesOfSections(c[1..], quiet)|
      && At(ps, next, PiecesOfSections(c[1..], quiet))
  {
    hide *;
    SectionInParts(c, quiet);
    var lines := PiecesOfLines(c[0].value.entries, quiet);
    var tail := PiecesOfSections(c[1..], quiet);
    AtSplit(ps, i, Head(c[0].key), lines + tail);
    AtSplit(ps, i + 5, lines, tail);
  }

  lemma SectionBegins(ps: seq<string>, i: nat, c: Dict, quiet: bool)
    requires Text(ps) && NamedSections(c) && At(ps, i, PiecesOfSections(c, quiet))
    requires i + |PiecesOfSections(c, quiet)| + 1 == |ps|
    ensures Next(ps, i).text == if c == [] then "" else "["
  {
    Punctuation();
    hide PiecesOfLines, Name, NamedLines, NextToken;
    if c == [] {
      RewindAtEnd(TOML, ps);
    } else {
      FirstSectionAt(ps, i, c, quiet);
      var xs := Head(c[0].key);
      assert ps[i] == xs[0] && ps[i + 1] == xs[1];
      NextSkipped(ps, i);
      NextVisible(ps, i + 1);
    }
  }

  lemma {:induction false} ReadSections(ps: seq<string>, i: nat, c: Dict, acc: Dict, quiet: bool)
    requires Text(ps) && Sections(c, quiet) && Sorted(acc + c)
    requires At(ps, i, PiecesOfSections(c, quiet)) && i + |PiecesOfSections(c, quiet)| + 1 == |ps|
    ensures ParseSections(ps, i, acc) == Ok(acc + KeptIn(c, quiet), |ps|)
    decreases |c|
  {
    hide *;
    if c == [] {
      NoSections(ps, i, acc, quiet);
    } else {
      var next, acc' := OneSection(ps, i, c, acc, quiet);
      ReadSections(ps, next, c[1..], acc', quiet);
    }
  }

  lemma OneSection(ps: seq<string>, i: nat, c: Dict, acc: Dict, quiet: bool) returns (next: nat, acc': Dict)
    requires Text(ps) && Sections(c, quiet) && c != [] && Sorted(acc + c)
    requires At(ps, i, PiecesOfSections(c, quiet)) && i + |PiecesOfSections(c, quiet)| + 1 == |ps|
    ensures Sections(c[1..], quiet) && Sorted(acc' + c[1..])
    ensures acc' + KeptIn(c[1..], quiet) == acc + KeptIn(c, quiet)
    ensures At(ps, next, PiecesOfSections(c[1..], quiet)) && next + |PiecesOfSections(c[1..], quiet)| + 1 == |ps|
    ensures ParseSections(ps, i, acc) == ParseSections(ps, next, acc')
  {
    hide *;
    FirstSection(c, quiet);
    var first := Entry(c[0].key, Table(Kept(c[0].value.entries, quiet)));
    next, acc' := i + 5 + |PiecesOfLines(c[0].value.entries, quiet)|, acc + [first];
    KeysBefore(acc, c);
    SameKeys(acc, c, first);
    SectionStep(ps, i, c, acc, quiet);
  }

  lemma FirstSection(c: Dict, quiet: bool)
    requires Sections(c, quiet) && c != []
    ensures c[0].value.Table? && Sections(c[1..], quiet) && NamedSections(c)
    ensures Sorted(c[0].value.entries) && Lines(c[0].value.entries, quiet)
    ensures KeptIn(c, quiet) == [Entry(c[0].key, Table(Kept(c[0].value.entries, quiet)))] + KeptIn(c[1..], quiet)
  {
    SectionsNamed(c, quiet);
    hide Lines, NamedSections, Name, Sorted;
  }

  lemma LinesNamed(es: Dict, quiet: bool)
    requires Lines(es, quiet)
    ensures NamedLines(es)
  {
    hide Expressible, Name;
    forall k | 0 <= k < |es| ensures Named(es[k].value) {
      if Expressible(es[k].value) {
        ExpressibleNamed(es[k].value);
      }
    }
  }

  lemma SectionsNamed(c: Dict, quiet: bool)
    requires Sections(c, quiet)
    ensures NamedSections(c)
  {
    hide Lines, NamedLines, Name, Sorted;
    forall k | 0 <= k < |c| ensures NamedLines(c[k].value.entries) {
      LinesNamed(c[k].value.entries, quiet);
    }
  }

  lemma SameKeys(acc: Dict, c: Dict, first: Entry)
    requires c != [] && Sorted(acc + c) && first.key == c[0].key
    ensures Sorted(acc + [first] + c[1..])
  {
    hide Less;
    var all, r := acc + c, acc + [first] + c[1..];
    assert forall k :: 0 <= k < |all| ==> r[k].key == all[k].key;
  }

  lemma NoSections(ps: seq<string>, i: nat, acc: Dict, quiet: bool)
    requires Text(ps) && i + |PiecesOfSections([], quiet)| + 1 == |ps|
    ensures ParseSections(ps, i, acc) == Ok(acc + KeptIn([], quiet), |ps|)
  {
    hide NextToken;
    RewindAtEnd(TOML, ps) by { LastIsSkipped(); }
    assert acc + KeptIn([], quiet) == acc;
  }

  lemma SectionStep(ps: seq<string>, i: nat, c: Dict, acc: Dict, quiet: bool)
    requires Text(ps) && NamedSections(c) && c != []
    requires Sorted(c[0].value.entries) && Lines(c[0].value.entries, quiet)
    requires forall k :: 0 <= k < |acc| ==> Less(acc[k].key, c[0].key)
    requires At(ps, i, PiecesOfSections(c, quiet)) && i + |PiecesOfSections(c, quiet)| + 1 == |ps|
    ensures var next := i + 5 + |PiecesOfLines(c[0].value.entries, quiet)|;
      && At(ps, next, PiecesOfSections(c[1..], quiet)) && next + |PiecesOfSections(c[1..], quiet)| + 1 == |ps|
      && ParseSections(ps, i, acc)
         == ParseSections(ps, next, acc + [Entry(c[0].key, Table(Kept(c[0].value.entries, quiet)))])
  {
    hide NextToken, ParseDict, ParseSections, PiecesOfLines, PiecesOfSections, At, Less, Name, Sorted, Lines, Text;
    var lines := c[0].value.entries;
    var next := i + 5 + |PiecesOfLines(lines, quiet)|;
    FirstSectionAt(ps, i, c, quiet);
    SectionBegins(ps, next, c[1..], quiet);
    assert [] + lines == lines && [] + Kept(lines, quiet) == Kept(lines, quiet);
    ReadLines(ps, i + 5, lines, [], quiet);
    RewindWord(ps, next);
    var p := Next(ps, next).next - 1;
    ReadHead(ps, i, c[0].key, Kept(lines, quiet), p, acc);
    SameSections(ps, p, next, acc + [Entry(c[0].key, Table(Kept(lines, quiet)))]);
  }

  /** What was written is read back, without the lines on which it was silent. */
  lemma WriteBack(c: Dict, quiet: bool)
    requires Sorted(c) && Sections(c, quiet)
    ensures Parse(Write(c, quiet)).Ok? && Parse(Write(c, quiet)).value == KeptIn(c, quiet)
  {
    hide Cut, Text, At, Sorted, Sections, NamedSections, PiecesOfSections, ParseSections, Write, KeptIn;
    SectionsNamed(c, quiet);
    TextOf(c, quiet);
    assert [] + c == c && [] + KeptIn(c, quiet) == KeptIn(c, quiet);
    ReadSections(Cut(D, Write(c, quiet) + "\n"), 0, c, [], quiet);
  }

  lemma TextOf(c: Dict, quiet: bool)
    requires NamedSections(c)
    ensures Solid(D) && Text(Cut(D, Write(c, quiet) + "\n"))
    ensures At(Cut(D, Write(c, quiet) + "\n"), 0, PiecesOfSections(c, quiet))
    ensures |PiecesOfSections(c, quiet)| + 1 == |Cut(D, Write(c, quiet) + "\n")|
  {
    hide Cut, NamedSections, PiecesOfSections, Write;
    TextOfContent(Write(c, quiet));
    SectionsPieces(c, quiet, "\n");
    CutNewline();
  }

  /** Every configuration that can be expressed has a text, and reading it gives the configuration: each
      boolean from its word and each string from between its quotes, on lines, in arrays and in inline
      dictionaries. */
  lemma WrittenRead(c: Dict)
    requires Sorted(c) && Sections(c, false)
    ensures Parse(Write(c, false)).Ok? && Parse(Write(c, false)).value == c
  {
    hide *;
    WriteBack(c, false);
    KeptWhole(c);
  }

  /** A section of one boolean, spelled out. */
  lemma BooleanLine(name: string, key: string, b: bool)
    requires Name(name) && LineKey(key)
    ensures var r := Parse("\n[" + name + "]\n" + (key + " = " + (if b then "true\n" else "false\n")));
      r.Ok? && r.value == [Entry(name, Table([Entry(key, Bool(b))]))]
  {
    hide Parse, Name;
    var lines := [Entry(key, Bool(b))];
    var c := [Entry(name, Table(lines))];
    assert Sorted(c) && Sections(c, false);
    WrittenRead(c);
    OneBoolean(key, b);
    assert WriteLines(lines, false) + "" == WriteLines(lines, false);
    assert Write(c[1..], false) == "";
  }

  lemma OneBoolean(key: string, b: bool)
    ensures WriteLines([Entry(key, Bool(b))], false) == key + " = " + (if b then "true\n" else "false\n")
  {
    assert WriteLines([], false) == "" && "\n" + "" == "\n";
    assert "true" + "\n" == "true\n" && "false" + "\n" == "false\n";
  }

  /** What was printed is read back, except for booleans: the configuration itself comes back exactly
      when it has none. */
  lemma RoundTrip(c: Dict)
    requires Writable(c)
    ensures Parse(Dump(c)).Ok? && Parse(Dump(c)).value == KeptIn(c, true)
    ensures Parse(Dump(c)).value == c <==> !HasBooleans(c)
  {
    assert Sorted(c) && WritableSections(c) && ShownSections(c);
    assert forall k :: 0 <= k < |c| ==> c[k].value.Table?;
    hide *;
    KeptAll(c);
    DumpAsWritten(c);
    WritableExpressible(c);
    WriteBack(c, true);
  }

  lemma WritableExpressible(c: Dict)
    requires WritableSections(c)
    ensures Sections(c, true)
  {
    hide WritableLines, Lines, ShownSections, Sorted;
    forall k | 0 <= k < |c| ensures Lines(c[k].value.entries, true) {
      LinesExpressible(c[k].value.entries);
    }
    ShownNames(c);
  }

  lemma ShownNames(c: Dict)
    requires ShownSections(c)
    ensures forall k :: 0 <= k < |c| ==> Name(c[k].key)
  {
    hide Name, ShownLines;
  }

  lemma CutNewline()
    ensures Solid(D) && Cut(D, "\n") == ["\n"]
  {
    TomlDelimiters();
    CutChar('\n', "");
    assert ['\n'] + "" == "\n";
  }

  lemma {:induction false} KeptWhole(c: Dict)
    ensures KeptIn(c, false) == c
  {
    if c != [] {
      KeptWhole(c[1..]);
      assert c == [c[0]] + c[1..];
      if c[0].value.Table? {
        AllKept(c[0].value.entries);
      }
    }
  }

  lemma {:induction false} AllKept(es: Dict)
    ensures Kept(es, false) == es
  {
    if es != [] {
      AllKept(es[1..]);
    }
  }

  lemma {:induction false} KeptLines(es: Dict)
    ensures |Kept(es, true)| <= |es|
    ensures Kept(es, true) == es <==> forall j :: 0 <= j < |es| ==> !es[j].value.Bool?
  {
    if es != [] {
      KeptLines(es[1..]);
      assert es == [es[0]] + es[1..];
      if es[0].value.Bool? {
        assert |Kept(es, true)| < |es|;
      } else {
        assert Kept(es, true)[1..] == Kept(es[1..], true);
      }
    }
  }

  lemma {:induction false} KeptAll(c: Dict)
    requires forall k :: 0 <= k < |c| ==> c[k].value.Table?
    ensures KeptIn(c, true) == c <==> !HasBooleans(c)
  {
    if c != [] {
      KeptAll(c[1..]);
      KeptLines(c[0].value.entries);
      assert c == [c[0]] + c[1..];
      assert KeptIn(c, true)[0] == Entry(c[0].key, Table(Kept(c[0].value.entries, true)));
      assert KeptIn(c, true)[1..] == KeptIn(c[1..], true);
      BooleansInside(c);
    }
  }

  lemma BooleansInside(c: Dict)
    requires c != [] && c[0].value.Table?
    ensures HasBooleans(c)
       <==> (exists j :: 0 <= j < |c[0].value.entries| && c[0].value.entries[j].value.Bool?) || HasBooleans(c[1..])
  {
    if HasBooleans(c[1..]) {
      var k, j :| 0 <= k < |c[1..]| && c[1..][k].value.Table? && 0 <= j < |c[1..][k].value.entries|
                  && c[1..][k].value.entries[j].value.Bool?;
      assert c[k + 1].value.entries[j].value.Bool?;
    }
    if HasBooleans(c) {
      var k, j :| 0 <= k < |c| && c[k].value.Table? && 0 <= j < |c[k].value.entries|
                  && c[k].value.entries[j].value.Bool?;
      assert k > 0 ==> c[1..][k - 1].value.entries[j].value.Bool?;
    }
  }
}
