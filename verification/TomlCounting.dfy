/** A measure on texts that settles what can come back: reading a value uses up at least as much of a
    text as the value is worth, and printing it writes at most that much, less if a part of it is spoiled. */
module TomlCounting {
  import opened Decimal
  import opened Floats
  import opened FloatProofs
  import opened Pieces
  import opened SingleDelimiters
  import opened Tokenization
  import opened TomlModel
  import opened TomlPrinting
  import opened TomlProofs
  import opened TomlImage

  // ---- weights ----

  /** A text that reads as a float of more than six digits. */
  predicate LongText(p: string) {
    match ScanFloat(p)
    case NoFloat => false
    case Scanned(x) => x.Finite? && x.m >= SIX
  }

  /** Single quotes, opening braces, words, words with a point and long floats count. */
  function Weight(p: string): nat {
    if p == "'" || p == "{" then 1
    else if p in D then 0
    else if '.' !in p then 1
    else if LongText(p) then 3
    else 2
  }

  function Load(ps: seq<string>): nat {
    if ps == [] then 0 else Weight(ps[0]) + Load(ps[1..])
  }

  /** What the pieces of a text weigh. */
  function Worth(s: string): nat {
    TomlDelimiters();
    Load(Cut(D, s))
  }

  lemma WorthOfDelimiter(c: char, s: string)
    requires IsDelimiter(D, c)
    ensures Worth([c] + s) == Weight([c]) + Worth(s)
  {
    hide Cut, Weight;
    CutChar(c, s);
  }

  lemma WorthOfWord(w: string, s: string)
    requires Word(D, w) && Bounded(D, s)
    ensures Worth(w + s) == Weight(w) + Worth(s)
  {
    TomlDelimiters();
    hide Cut, Weight, Word;
    CutWord(D, w, s);
  }

  lemma WorthOfNothing()
    ensures Worth("") == 0
  {
    TomlDelimiters();
  }

  lemma WorthOfPiece(p: string)
    requires p in D || Word(D, p)
    ensures Worth(p) == Weight(p)
  {
    TomlDelimiters();
    hide Weight, Worth, Word;
    WorthOfNothing();
    assert p + "" == p;
    if Word(D, p) {
      WorthOfWord(p, "");
    } else {
      assert p == [p[0]];
      WorthOfDelimiter(p[0], "");
    }
  }

  lemma WordWeight(w: string)
    requires Word(D, w)
    ensures w !in D && Weight(w) == if '.' !in w then 1 else if LongText(w) then 3 else 2
  {
    hide LongText;
    WordVisible(w);
    assert D[2] == "{" && D[6] == "'";
  }

  lemma Merge(u: string, v: string)
    requires Word(D, u) && Word(D, v)
    ensures Word(D, u + v) && Weight(u + v) <= Weight(u) + Weight(v)
  {
    WordWeight(u);
    WordWeight(v);
    WordWeight(u + v);
    hide LongText, Word;
    assert '.' in u + v <==> '.' in u || '.' in v;
  }

  /** Joining texts merges words, and that only makes them lighter. */
  lemma {:induction false} Subadditive(a: string, b: string)
    ensures Worth(a + b) <= Worth(a) + Worth(b)
    decreases |a|
  {
    hide Worth, Weight, Word;
    if a == "" {
      assert a + b == b;
    } else if IsDelimiter(D, a[0]) {
      assert a == [a[0]] + a[1..] && a + b == [a[0]] + (a[1..] + b);
      WorthOfDelimiter(a[0], a[1..]);
      WorthOfDelimiter(a[0], a[1..] + b);
      Subadditive(a[1..], b);
    } else {
      var n := Span(D, a);
      var w, u := a[..n], a[n..];
      assert a == w + u && a + b == w + (u + b);
      SpanWord(D, a);
      WorthOfWord(w, u);
      if u != "" {
        WorthOfWord(w, u + b);
        Subadditive(u, b);
      } else {
        WorthOfNothing();
        WorthOfWord(w, "");
        assert a == w && w + "" == w;
        WordBefore(w, b);
      }
    }
  }

  lemma WordBefore(w: string, b: string)
    requires Word(D, w)
    ensures Worth(w + b) <= Weight(w) + Worth(b)
  {
    hide Worth, Weight, Word;
    if b == "" || IsDelimiter(D, b[0]) {
      WorthOfWord(w, b);
    } else {
      var n := Span(D, b);
      var v, r := b[..n], b[n..];
      assert b == v + r && w + b == (w + v) + r;
      SpanWord(D, b);
      Merge(w, v);
      WorthOfWord(w + v, r);
      WorthOfWord(v, r);
    }
  }

  lemma Subadditive3(a: string, b: string, c: string)
    ensures Worth(a + b + c) <= Worth(a) + Worth(b) + Worth(c)
  {
    hide Worth;
    Subadditive(a, b);
    Subadditive(a + b, c);
  }

  lemma WorthOfPunctuation()
    ensures Worth("") == Worth("[") == Worth("]") == Worth("}") == Worth("\"") == Worth("\n") == 0
    ensures Worth(", ") == Worth(" = ") == Worth("\n[") == Worth("]\n") == 0
    ensures Worth("{") == 1
  {
    hide *;
    WorthOfNothing();
    WorthOfMarks();
    assert ", " == "," + " " && " = " == " " + "=" + " " && "\n[" == "\n" + "[" && "]\n" == "]" + "\n";
    Subadditive(",", " ");
    Subadditive3(" ", "=", " ");
    Subadditive("\n", "[");
    Subadditive("]", "\n");
  }

  lemma WorthOfMarks()
    ensures Worth("[") == Worth("]") == Worth("}") == Worth("=") == Worth(",") == 0
    ensures Worth("\"") == Worth(" ") == Worth("\n") == 0 && Worth("{") == 1
  {
    hide Worth, Weight, Word;
    WeightOfPunctuation();
    assert D[0] == "[" && D[1] == "]" && D[2] == "{" && D[3] == "}" && D[4] == "=" && D[5] == ","
           && D[7] == "\"" && D[8] == " " && D[9] == "\n";
    hide *;
    WorthOfPiece("[");
    WorthOfPiece("]");
    WorthOfPiece("{");
    WorthOfPiece("}");
    WorthOfPiece("=");
    WorthOfPiece(",");
    WorthOfPiece("\"");
    WorthOfPiece(" ");
    WorthOfPiece("\n");
  }

  lemma WeightOfPunctuation()
    ensures forall p :: p in ["[", "]", "}", "=", ",", "\"", " ", "\n"] ==> Weight(p) == 0
    ensures Weight("{") == Weight("'") == 1
  {
    assert D[0] == "[" && D[1] == "]" && D[3] == "}" && D[4] == "=" && D[5] == ","
           && D[7] == "\"" && D[8] == " " && D[9] == "\n";
  }

  // ---- what a value is worth ----

  function Need(v: Value): nat {
    match v
    case Int(_) => 1
    case Bool(_) => 1
    case Float(x) => if x.Finite? && x.m >= SIX then 3 else 2
    case Str(s) => Worth(s) + if '"' in s then 1 else 0
    case Arr(items) => NeedItems(items)
    case Table(es) => 1 + NeedEntries(es)
  }

  function NeedItems(vs: seq<Value>): nat {
    if vs == [] then 0 else Need(vs[0]) + NeedItems(vs[1..])
  }

  function NeedEntries(es: Dict): nat {
    if es == [] then 0 else Worth(es[0].key) + Need(es[0].value) + NeedEntries(es[1..])
  }

  /** The braces of a section are not printed. */
  function NeedSections(c: Dict): nat {
    if c == [] then 0
    else Worth(c[0].key) + (if c[0].value.Table? then NeedEntries(c[0].value.entries) else 0) + NeedSections(c[1..])
  }

  lemma {:induction false} NeedItemsAppend(vs: seq<Value>, v: Value)
    ensures NeedItems(vs + [v]) == NeedItems(vs) + Need(v)
  {
    hide Need;
    if vs == [] {
      assert vs + [v] == [v] && [v][1..] == [];
    } else {
      assert (vs + [v])[1..] == vs[1..] + [v];
      NeedItemsAppend(vs[1..], v);
    }
  }

  lemma {:induction false} NeedInsert(d: Dict, key: string, value: Value)
    ensures NeedEntries(Insert(d, key, value)) <= NeedEntries(d) + Worth(key) + Need(value)
  {
    hide Need, Worth, Less;
    if d != [] {
      NeedInsert(d[1..], key, value);
    }
  }

  lemma {:induction false} NeedInsertSection(c: Dict, key: string, es: Dict)
    ensures NeedSections(Insert(c, key, Table(es))) <= NeedSections(c) + Worth(key) + NeedEntries(es)
  {
    hide NeedEntries, Worth, Less;
    if c != [] {
      NeedInsertSection(c[1..], key, es);
    }
  }

  // ---- reading ----

  /** The weight of the pieces before position i. */
  function Before(ps: seq<string>, i: nat): nat
    requires i <= |ps|
  {
    if i == 0 then 0 else Before(ps, i - 1) + Weight(ps[i - 1])
  }

  lemma {:induction false} BeforeMonotone(ps: seq<string>, i: nat, j: nat)
    requires i <= j <= |ps|
    ensures Before(ps, i) <= Before(ps, j)
    decreases j
  {
    hide Weight;
    if i < j {
      BeforeMonotone(ps, i, j - 1);
    }
  }

  lemma {:induction false} BeforeAll(ps: seq<string>, i: nat)
    requires i <= |ps|
    ensures Before(ps, |ps|) == Before(ps, i) + Load(ps[i..])
    decreases |ps| - i
  {
    hide Weight;
    if i < |ps| {
      BeforeAll(ps, i + 1);
      assert ps[i..][1..] == ps[i + 1..];
    }
  }

  /** Taking a token uses up its weight. */
  lemma TokenWeight(ps: seq<string>, i: nat, skip: bool)
    requires i <= |ps|
    ensures var t := NextToken(TOML, ps, i, skip);
      && Before(ps, i) <= Before(ps, t.next)
      && (t.text != "" ==> Before(ps, i) <= Before(ps, t.next - 1)
                           && Before(ps, i) + Weight(t.text) <= Before(ps, t.next))
  {
    hide Weight, NextToken;
    var t := NextToken(TOML, ps, i, skip);
    BeforeMonotone(ps, i, t.next);
    if t.text != "" {
      BeforeMonotone(ps, i, t.next - 1);
    }
  }

  lemma {:induction false} StringNeeds(ps: seq<string>, i: nat, end: char, acc: string)
    requires i <= |ps| && Cleanly(ps) && ParseString(ps, i, end, acc).Ok?
    ensures var r := ParseString(ps, i, end, acc);
      Worth(r.value) + Weight([end]) + Before(ps, i) <= Worth(acc) + Before(ps, r.pos)
    decreases |ps| - i
  {
    hide Word, NextToken, Worth, Weight, Before;
    var t := NextToken(TOML, ps, i, false);
    TokenWeight(ps, i, false);
    if t.text != [end] {
      WorthOfPiece(t.text);
      Subadditive(acc, t.text);
      StringNeeds(ps, t.next, end, acc + t.text);
    }
  }

  /** A number or a boolean is read from a word; a float from one with a point, as long as the float. */
  lemma WordNeeds(ps: seq<string>, i: nat)
    requires Text(ps) && i < |ps| && Cleanly(ps) && ParseValue(ps, i).Ok?
    requires IsAtom(ParseValue(ps, i).value)
    ensures Next(ps, i).text != "" && Need(ParseValue(ps, i).value) <= Weight(Next(ps, i).text)
    ensures ParseValue(ps, i).pos == Next(ps, i).next
  {
    var t := Next(ps, i);
    AtomText(ps, i);
    hide ParseValue, NextToken, Word, Weight, LongText, ScanFloat;
    assert t.text in D || Word(D, t.text);
    if Word(D, t.text) {
      WordWeight(t.text);
      LongFloat(t.text, ParseValue(ps, i).value);
    } else {
      DelimitersPointless(t.text);
      NoNumbers();
    }
  }

  /** What an atom was read from. */
  lemma AtomText(ps: seq<string>, i: nat)
    requires Text(ps) && i < |ps| && ParseValue(ps, i).Ok? && IsAtom(ParseValue(ps, i).value)
    ensures var t, v := Next(ps, i), ParseValue(ps, i).value;
      && ParseValue(ps, i).pos == t.next && t.text != ""
      && (v.Int? ==> ScanInt(t.text) != NoNumber)
      && (v.Bool? ==> t.text == "true" || t.text == "false")
      && (v.Float? ==> '.' in t.text && ScanFloat(t.text) == Scanned(v.x))
  {
    hide NextToken, ParseArray, ParseDict, ParseString, ScanInt, ScanFloat, InRange;
    RewindWord(ps, i);
    NoNumbers();
  }

  lemma LongFloat(p: string, v: Value)
    requires v.Float? ==> '.' in p && ScanFloat(p) == Scanned(v.x)
    requires IsAtom(v)
    ensures v.Float? && LongText(p) ==> Need(v) == 3
    ensures !(v.Float? && LongText(p)) ==> Need(v) == if v.Float? then 2 else 1
  {
    hide ScanFloat;
  }

  lemma DelimitersPointless(p: string)
    requires p in D
    ensures '.' !in p && p != "true" && p != "false"
  {
    TomlDelimiters();
    assert p == [p[0]];
  }

  lemma NoNumbers()
    ensures ScanInt("") == NoNumber && forall p :: p in D ==> ScanInt(p) == NoNumber
  {
    TomlDelimiters();
    forall p | p in D ensures ScanInt(p) == NoNumber {
      assert p == [p[0]] && p[1..] == "";
    }
  }

  /** Reading a value uses up at least what it is worth; a double quote in a string was read between
      single ones. */
  lemma {:induction false} ValueNeeds(ps: seq<string>, i: nat)
    requires Text(ps) && Cleanly(ps) && i < |ps| && ParseValue(ps, i).Ok?
    ensures Need(ParseValue(ps, i).value) + Before(ps, i) <= Before(ps, ParseValue(ps, i).pos)
    decreases |ps| - i, 0
  {
    hide NextToken, ParseArray, ParseDict, ParseString, ParseInt, ParseFloat, Weight, Before, Worth, Cleanly;
    var t := Next(ps, i);
    TokenWeight(ps, i, true);
    RewindWord(ps, i);
    if t.text == "{" {
      WeightOfPunctuation();
      DictNeeds(ps, t.next, false, []);
    } else if t.text == "[" {
      ArrayNeeds(ps, t.next, []);
    } else if t.text == "'" || t.text == "\"" {
      QuotedNeeds(ps, t.next, t.text[0]);
    } else {
      WordNeeds(ps, i) by { assert IsAtom(ParseValue(ps, i).value) by { AtomsElsewhere(ps, i); } }
    }
  }

  predicate IsAtom(v: Value) { v.Int? || v.Bool? || v.Float? }

  lemma AtomsElsewhere(ps: seq<string>, i: nat)
    requires Text(ps) && i < |ps| && ParseValue(ps, i).Ok?
    requires Next(ps, i).text !in {"{", "[", "'", "\""}
    ensures IsAtom(ParseValue(ps, i).value)
  {
    hide NextToken, ParseArray, ParseDict, ParseString, ScanInt, ScanFloat, InRange;
  }

  lemma QuotedNeeds(ps: seq<string>, i: nat, end: char)
    requires i <= |ps| && Cleanly(ps) && (end == '\'' || end == '"') && ParseString(ps, i, end, "").Ok?
    ensures var r := ParseString(ps, i, end, "");
      Need(Str(r.value)) + Before(ps, i) <= Before(ps, r.pos)
  {
    hide Cleanly, ParseString, Weight, Before, Worth;
    assert IsDelimiter(D, end) by { TomlDelimiters(); }
    WorthOfNothing();
    WeightOfPunctuation();
    StringNeeds(ps, i, end, "");
    StringLegible(ps, i, end, "");
  }

  lemma {:induction false} ArrayNeeds(ps: seq<string>, i: nat, acc: seq<Value>)
    requires Text(ps) && Cleanly(ps) && i < |ps| && ParseArray(ps, i, acc).Ok?
    ensures var r := ParseArray(ps, i, acc);
      NeedItems(r.value) + Before(ps, i) <= NeedItems(acc) + Before(ps, r.pos)
    decreases |ps| - i, 1
  {
    hide NextToken, ParseValue, Weight, Before, Need, NeedItems, Cleanly;
    RewindWord(ps, i);
    TokenWeight(ps, i, true);
    var t := Next(ps, i);
    if t.text != "]" {
      ValueNeeds(ps, t.next - 1);
      var first := ParseValue(ps, t.next - 1);
      NeedItemsAppend(acc, first.value);
      RewindWord(ps, first.pos);
      TokenWeight(ps, first.pos, true);
      BeforeMonotone(ps, i, t.next - 1);
      var u := Next(ps, first.pos);
      if u.text == "," {
        ArrayNeeds(ps, u.next, acc + [first.value]);
      }
    }
  }

  lemma {:induction false} DictNeeds(ps: seq<string>, i: nat, glob: bool, acc: Dict)
    requires Text(ps) && Cleanly(ps) && i < |ps| && ParseDict(ps, i, glob, acc).Ok?
    ensures var r := ParseDict(ps, i, glob, acc);
      NeedEntries(r.value) + Before(ps, i) <= NeedEntries(acc) + Before(ps, r.pos)
    decreases |ps| - i, 1
  {
    hide NextToken, ParseValue, Weight, Worth, Before, Need, NeedEntries, Insert, Cleanly, Word;
    RewindWord(ps, i);
    TokenWeight(ps, i, true);
    var name := Next(ps, i);
    BeforeMonotone(ps, i, name.next - 1);
    if name.text != "" && name.text != "[" {
      KeyWorth(ps, i);
      RewindWord(ps, name.next);
      TokenWeight(ps, name.next, true);
      var eq := Next(ps, name.next);
      ValueNeeds(ps, eq.next);
      var value := ParseValue(ps, eq.next);
      var d := Insert(acc, name.text, value.value);
      NeedInsert(acc, name.text, value.value);
      if glob {
        DictNeeds(ps, value.pos, glob, d);
      } else {
        RewindWord(ps, value.pos);
        TokenWeight(ps, value.pos, true);
        var u := Next(ps, value.pos);
        if u.text == "," {
          DictNeeds(ps, u.next, glob, d);
        }
      }
    }
  }

  lemma KeyWorth(ps: seq<string>, i: nat)
    requires i <= |ps| && Cleanly(ps) && Next(ps, i).text != ""
    ensures Worth(Next(ps, i).text) == Weight(Next(ps, i).text)
  {
    hide NextToken, Weight, Worth, Word;
    WorthOfPiece(Next(ps, i).text);
  }

  lemma {:induction false} SectionsNeed(ps: seq<string>, i: nat, acc: Dict)
    requires Text(ps) && Cleanly(ps) && i < |ps| && ParseSections(ps, i, acc).Ok?
    ensures var r := ParseSections(ps, i, acc);
      NeedSections(r.value) + Before(ps, i) <= NeedSections(acc) + Before(ps, |ps|)
    decreases |ps| - i
  {
    hide NextToken, ParseDict, Weight, Worth, Before, NeedSections, NeedEntries, Insert, Cleanly;
    RewindWord(ps, i);
    TokenWeight(ps, i, true);
    BeforeMonotone(ps, i, |ps|);
    var t := Next(ps, i);
    if t.text == "[" {
      var name := Next(ps, t.next);
      var close := Next(ps, name.next);
      RewindWord(ps, t.next);
      KeyWorth(ps, t.next);
      TokenWeight(ps, t.next, true);
      TokenWeight(ps, name.next, true);
      DictNeeds(ps, close.next, true, []);
      var d := ParseDict(ps, close.next, true, []);
      NothingNeeded();
      NeedInsertSection(acc, name.text, d.value);
      SectionsNeed(ps, d.pos, Insert(acc, name.text, Table(d.value)));
    }
  }

  lemma NothingNeeded()
    ensures NeedEntries([]) == 0 && NeedSections([]) == 0 && NeedItems([]) == 0
  {
  }

  // ---- printing ----

  /** An item that cannot come back: it holds a boolean, a float that loses its point or its digits, a
      double quote, or a dictionary. */
  predicate Spoiled(v: Value) {
    match v
    case Int(_) => false
    case Bool(_) => true
    case Float(x) => !(x.Finite? && x.m < SIX && HasPoint(x))
    case Str(s) => '"' in s
    case Arr(items) => exists k :: 0 <= k < |items| && Spoiled(items[k])
    case Table(_) => true
  }

  /** On a line one level of inline dictionary is fine. */
  predicate SpoiledLine(v: Value) {
    if v.Table? then exists k :: 0 <= k < |v.entries| && Spoiled(v.entries[k].value) else Spoiled(v)
  }

  lemma FloatWorth(x: Single)
    ensures Worth(FloatText(x)) <= Need(Float(x))
    ensures Spoiled(Float(x)) ==> Worth(FloatText(x)) < Need(Float(x))
  {
    hide FloatText, ScanFloat, HasPoint, Word, Worth, Weight, Rounded;
    FloatIsWord(x);
    WorthOfPiece(FloatText(x));
    WordWeight(FloatText(x));
    PrintedRead(x);
    if x.Finite? {
      RoundedShort(x);
    } else {
      assert Rounded(x) == x by { RoundedSpecial(x); }
      assert !HasPoint(x) by { RoundedSpecial(x); }
    }
  }

  lemma RoundedSpecial(x: Single)
    requires !x.Finite?
    ensures Rounded(x) == x && !HasPoint(x)
  {
  }

  /** A printed item weighs at most what it is worth, and less if it is spoiled. */
  lemma {:induction false} ItemWorth(v: Value)
    ensures Worth(DumpItem(v)) <= Need(v)
    ensures Spoiled(v) ==> Worth(DumpItem(v)) < Need(v)
    decreases v, 0
  {
    hide Worth, IntText, FloatText, HasPoint, NeedItems, NeedEntries, DumpGlobal, DumpItems;
    WorthOfPunctuation();
    match v {
      case Int(n) =>
        NumberIsWord(Wrapped(n));
        WorthOfPiece(IntText(Wrapped(n)));
        WordWeight(IntText(Wrapped(n)));
      case Float(x) => FloatWorth(x);
      case Str(s) => Subadditive3("\"", s, "\"");
      case Arr(items) =>
        ItemsWorth(items, true);
        Subadditive3("[", DumpItems(items, true), "]");
      case Table(es) => LinesWorth(es);
      case Bool(_) =>
    }
  }

  lemma {:induction false} ItemsWorth(vs: seq<Value>, first: bool)
    ensures Worth(DumpItems(vs, first)) <= NeedItems(vs)
    ensures (exists k :: 0 <= k < |vs| && Spoiled(vs[k])) ==> Worth(DumpItems(vs, first)) < NeedItems(vs)
    decreases vs, 1
  {
    hide Worth, Need, DumpItem, Spoiled;
    WorthOfPunctuation();
    if vs != [] {
      ItemWorth(vs[0]);
      ItemsWorth(vs[1..], false);
      Subadditive3(if first then "" else ", ", DumpItem(vs[0]), DumpItems(vs[1..], false));
      if k :| 0 <= k < |vs| && Spoiled(vs[k]) {
        assert k > 0 ==> Spoiled(vs[1..][k - 1]);
      }
    }
  }

  /** An entry with its key. */
  lemma {:induction false} FieldWorth(e: Entry)
    ensures Worth(DumpField(e)) <= Worth(e.key) + Need(e.value)
    ensures Spoiled(e.value) ==> Worth(DumpField(e)) < Worth(e.key) + Need(e.value)
    decreases e, 1
  {
    hide Worth, DumpItem;
    WorthOfPunctuation();
    ItemWorth(e.value);
    Subadditive3(e.key, " = ", DumpItem(e.value));
  }

  lemma {:induction false} FieldsWorth(es: Dict, first: bool)
    ensures Worth(DumpFields(es, first)) <= NeedEntries(es)
    ensures (exists k :: 0 <= k < |es| && Spoiled(es[k].value)) ==> Worth(DumpFields(es, first)) < NeedEntries(es)
    decreases es, 2
  {
    hide Worth, Need, DumpField, Spoiled;
    WorthOfPunctuation();
    if es != [] {
      FieldWorth(es[0]);
      FieldsWorth(es[1..], false);
      Subadditive3(if first then "" else ", ", DumpField(es[0]), DumpFields(es[1..], false));
      if k :| 0 <= k < |es| && Spoiled(es[k].value) {
        assert k > 0 ==> Spoiled(es[1..][k - 1].value);
      }
    }
  }

  /** What stands on a line. */
  lemma {:induction false} SettingWorth(v: Value)
    ensures Worth(DumpSetting(v)) <= Need(v)
    ensures SpoiledLine(v) ==> Worth(DumpSetting(v)) < Need(v)
    decreases v, 3
  {
    hide Worth, DumpItem, DumpFields, Spoiled;
    WorthOfPunctuation();
    if v.Table? {
      FieldsWorth(v.entries, true);
      Subadditive3("{", DumpFields(v.entries, true), "}");
    } else {
      ItemWorth(v);
    }
  }

  lemma {:induction false} LineWorth(e: Entry)
    ensures Worth(DumpLine(e, false)) <= Worth(e.key) + Need(e.value)
    ensures SpoiledLine(e.value) ==> Worth(DumpLine(e, false)) < Worth(e.key) + Need(e.value)
    decreases e, 4
  {
    hide Worth, DumpItem, DumpInline, SpoiledLine;
    WorthOfPunctuation();
    SettingWorth(e.value);
    if !e.value.Bool? {
      Subadditive3(e.key, " = ", DumpSetting(e.value));
      Subadditive(e.key + " = " + DumpSetting(e.value), "\n");
    }
  }

  lemma {:induction false} LinesWorth(es: Dict)
    ensures Worth(DumpGlobal(es, false)) <= NeedEntries(es)
    ensures (exists k :: 0 <= k < |es| && SpoiledLine(es[k].value)) ==>
              Worth(DumpGlobal(es, false)) < NeedEntries(es)
    decreases es, 5
  {
    hide Worth, Need, DumpLine, SpoiledLine;
    WorthOfPunctuation();
    if es != [] {
      LineWorth(es[0]);
      LinesWorth(es[1..]);
      Subadditive(DumpLine(es[0], false), DumpGlobal(es[1..], false));
      if k :| 0 <= k < |es| && SpoiledLine(es[k].value) {
        assert k > 0 ==> SpoiledLine(es[1..][k - 1].value);
      }
    }
  }

  predicate SpoiledSection(es: Dict) {
    exists k :: 0 <= k < |es| && SpoiledLine(es[k].value)
  }

  lemma SectionWorth(e: Entry)
    requires e.value.Table?
    ensures Worth(DumpLine(e, true)) <= Worth(e.key) + NeedEntries(e.value.entries)
    ensures SpoiledSection(e.value.entries) ==>
              Worth(DumpLine(e, true)) < Worth(e.key) + NeedEntries(e.value.entries)
  {
    hide Worth, NeedEntries, DumpGlobal, SpoiledLine;
    WorthOfPunctuation();
    LinesWorth(e.value.entries);
    Subadditive3("\n[", e.key, "]\n");
    Subadditive("\n[" + e.key + "]\n", DumpGlobal(e.value.entries, false));
  }

  lemma {:induction false} SectionsWorth(c: Dict)
    requires forall k :: 0 <= k < |c| ==> c[k].value.Table?
    ensures Worth(Dump(c)) <= NeedSections(c)
    ensures (exists k :: 0 <= k < |c| && SpoiledSection(c[k].value.entries)) ==> Worth(Dump(c)) < NeedSections(c)
  {
    hide Worth, NeedEntries, DumpLine, SpoiledSection;
    WorthOfPunctuation();
    if c != [] {
      SectionWorth(c[0]);
      SectionsWorth(c[1..]);
      Subadditive(DumpLine(c[0], true), Dump(c[1..]));
      if k :| 0 <= k < |c| && SpoiledSection(c[k].value.entries) {
        assert k > 0 ==> SpoiledSection(c[1..][k - 1].value.entries);
      }
    }
  }
}
