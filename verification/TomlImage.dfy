/** What the parser can return at all, whatever the text. */
module TomlImage {
  import opened Decimal
  import opened Floats
  import opened Pieces
  import opened SingleDelimiters
  import opened Tokenization
  import opened TomlModel
  import opened TomlPrinting
  import opened TomlOrder

  /** Every piece is a delimiter or a word. */
  ghost predicate Cleanly(ps: seq<string>) {
    forall k :: 0 <= k < |ps| ==> ps[k] in D || Word(D, ps[k])
  }

  /** Integers of 32 bits, floats in range, strings without a hash sign and without one of the quotes,
      dictionaries sorted and with single tokens for keys, at every depth. */
  ghost predicate Legible(v: Value) {
    match v
    case Int(n) => -0x8000_0000 <= n < 0x8000_0000
    case Float(x) => InRange(x)
    case Bool(_) => true
    case Str(s) => Sayable(s)
    case Arr(items) => forall k :: 0 <= k < |items| ==> Legible(items[k])
    case Table(es) => LegibleEntries(es)
  }

  ghost predicate LegibleEntries(es: Dict) {
    Sorted(es) && forall k :: 0 <= k < |es| ==> LineKey(es[k].key) && Legible(es[k].value)
  }

  /** At the top only sections. */
  ghost predicate LegibleSections(c: Dict) {
    && Sorted(c)
    && forall k :: 0 <= k < |c| ==>
         Name(c[k].key) && c[k].value.Table? && LegibleEntries(c[k].value.entries)
  }

  lemma CleanText(content: string)
    ensures Solid(D) && Cleanly(Cut(D, content))
  {
    TomlDelimiters();
    hide Cut, Word;
    forall k | 0 <= k < |Cut(D, content)| ensures Cut(D, content)[k] in D || Word(D, Cut(D, content)[k]) {
      PieceKinds(D, content, k);
    }
  }

  lemma NextIsName(ps: seq<string>, i: nat)
    requires i <= |ps| && Cleanly(ps) && Next(ps, i).text != ""
    ensures Name(Next(ps, i).text)
  {
    hide NextToken, Word;
    assert TOML.comments[0] == "#";
  }

  /** A piece holds a delimiter only if it is that delimiter. */
  lemma PieceWithout(p: string, c: char)
    requires (p in D || Word(D, p)) && IsDelimiter(D, c) && p != [c]
    ensures c !in p
  {
    TomlDelimiters();
    if p in D {
      assert p == [p[0]];
    }
  }

  /** A string read holds neither a hash sign nor the quote that ends it. */
  lemma {:induction false} StringLegible(ps: seq<string>, i: nat, end: char, acc: string)
    requires i <= |ps| && Cleanly(ps) && IsDelimiter(D, end) && ParseString(ps, i, end, acc).Ok?
    requires '#' !in acc && end !in acc
    ensures '#' !in ParseString(ps, i, end, acc).value && end !in ParseString(ps, i, end, acc).value
    decreases |ps| - i
  {
    hide Word, NextToken, IsDelimiter;
    var t := NextToken(TOML, ps, i, false);
    if t.text != [end] {
      assert TOML.comments[0] == "#" && IsDelimiter(D, '#') by { TomlDelimiters(); }
      PieceWithout(t.text, '#');
      PieceWithout(t.text, end);
      StringLegible(ps, t.next, end, acc + t.text);
    }
  }

  lemma InsertLegible(d: Dict, key: string, value: Value)
    requires LegibleEntries(d) && LineKey(key) && Legible(value)
    ensures LegibleEntries(Insert(d, key, value))
  {
    hide Insert, Less, LineKey, Legible;
    InsertUpdates(d, key, value);
    var r := Insert(d, key, value);
    forall k | 0 <= k < |r| ensures LineKey(r[k].key) && Legible(r[k].value) {
    }
  }

  lemma InsertSection(c: Dict, key: string, es: Dict)
    requires LegibleSections(c) && Name(key) && LegibleEntries(es)
    ensures LegibleSections(Insert(c, key, Table(es)))
  {
    hide Insert, Less, Name, LegibleEntries;
    InsertUpdates(c, key, Table(es));
    var r := Insert(c, key, Table(es));
    forall k | 0 <= k < |r| ensures Name(r[k].key) && r[k].value.Table? && LegibleEntries(r[k].value.entries) {
    }
  }

  lemma NothingLegible()
    ensures LegibleEntries([]) && LegibleSections([])
  {
  }

  lemma {:induction false} ValueLegible(ps: seq<string>, i: nat)
    requires Text(ps) && Cleanly(ps) && i < |ps| && ParseValue(ps, i).Ok?
    ensures Legible(ParseValue(ps, i).value)
    decreases |ps| - i, 0
  {
    TomlDelimiters();
    hide NextToken, ParseArray, ParseDict, ParseString, LegibleEntries, Cleanly, InRange, ScanInt, ScanFloat;
    var t := Next(ps, i);
    RewindWord(ps, i);
    if t.text == "{" {
      NothingLegible();
      DictLegible(ps, t.next, false, []);
    } else if t.text == "[" {
      ArrayLegible(ps, t.next, []);
    } else if t.text == "'" || t.text == "\"" {
      StringLegible(ps, t.next, t.text[0], "");
    }
  }

  lemma {:induction false} ArrayLegible(ps: seq<string>, i: nat, acc: seq<Value>)
    requires Text(ps) && Cleanly(ps) && i < |ps| && ParseArray(ps, i, acc).Ok?
    requires forall k :: 0 <= k < |acc| ==> Legible(acc[k])
    ensures forall k :: 0 <= k < |ParseArray(ps, i, acc).value| ==> Legible(ParseArray(ps, i, acc).value[k])
    decreases |ps| - i, 1
  {
    hide NextToken, ParseValue, Legible, Cleanly;
    RewindWord(ps, i);
    var t := Next(ps, i);
    if t.text != "]" {
      ValueLegible(ps, t.next - 1);
      var first := ParseValue(ps, t.next - 1);
      RewindWord(ps, first.pos);
      var u := Next(ps, first.pos);
      if u.text == "," {
        ArrayLegible(ps, u.next, acc + [first.value]);
      }
    }
  }

  lemma {:induction false} DictLegible(ps: seq<string>, i: nat, glob: bool, acc: Dict)
    requires Text(ps) && Cleanly(ps) && i < |ps| && ParseDict(ps, i, glob, acc).Ok? && LegibleEntries(acc)
    ensures LegibleEntries(ParseDict(ps, i, glob, acc).value)
    decreases |ps| - i, 1
  {
    hide NextToken, ParseValue, LegibleEntries, Legible, Insert, Name, Cleanly;
    RewindWord(ps, i);
    var name := Next(ps, i);
    if name.text != "" && name.text != "[" {
      NextIsName(ps, i);
      RewindWord(ps, name.next);
      var eq := Next(ps, name.next);
      ValueLegible(ps, eq.next);
      var value := ParseValue(ps, eq.next);
      var d := Insert(acc, name.text, value.value);
      InsertLegible(acc, name.text, value.value);
      if glob {
        DictLegible(ps, value.pos, glob, d);
      } else {
        RewindWord(ps, value.pos);
        var u := Next(ps, value.pos);
        if u.text == "," {
          DictLegible(ps, u.next, glob, d);
        }
      }
    }
  }

  lemma {:induction false} SectionsLegible(ps: seq<string>, i: nat, acc: Dict)
    requires Text(ps) && Cleanly(ps) && i < |ps| && ParseSections(ps, i, acc).Ok? && LegibleSections(acc)
    ensures LegibleSections(ParseSections(ps, i, acc).value)
    decreases |ps| - i
  {
    hide NextToken, ParseDict, LegibleEntries, LegibleSections, Insert, Name, Cleanly;
    RewindWord(ps, i);
    var t := Next(ps, i);
    if t.text == "[" {
      var name := Next(ps, t.next);
      var close := Next(ps, name.next);
      RewindWord(ps, t.next);
      NextIsName(ps, t.next);
      NothingLegible();
      DictLegible(ps, close.next, true, []);
      var d := ParseDict(ps, close.next, true, []);
      InsertSection(acc, name.text, d.value);
      SectionsLegible(ps, d.pos, Insert(acc, name.text, Table(d.value)));
    }
  }

  /** Every configuration read from a text is legible. */
  lemma ParsedLegible(content: string)
    requires Parse(content).Ok?
    ensures LegibleSections(Parse(content).value)
  {
    hide Cut, ParseSections, LegibleSections;
    TextOfContent(content);
    CleanText(content + "\n");
    NothingLegible();
    SectionsLegible(Cut(D, content + "\n"), 0, []);
  }
}
