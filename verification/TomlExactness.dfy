/** Exactly which items, lines and configurations come back from their printed form. */
module TomlExactness {
  import opened Floats
  import opened Pieces
  import opened Tokenization
  import opened TomlModel
  import opened TomlPrinting
  import opened TomlProofs
  import opened TomlImage
  import opened TomlCounting

  /** The text is read as the value v. */
  ghost predicate ReadsAs(text: string, v: Value) {
    TextOfContent(text);
    var r := ParseValue(Cut(D, text + "\n"), 0);
    r.Ok? && r.value == v
  }

  // ---- a value that comes back is not spoiled ----

  lemma WorthOfLine(text: string)
    ensures Worth(text + "\n") <= Worth(text)
  {
    hide Worth;
    WorthOfPunctuation();
    Subadditive(text, "\n");
  }

  lemma ReadWorth(text: string, v: Value)
    requires ReadsAs(text, v)
    ensures Legible(v) && Need(v) <= Worth(text)
  {
    TextOfContent(text);
    CleanText(text + "\n");
    WorthOfLine(text);
    hide Cut, Load, Before, Weight, Need, Legible, ParseValue, Cleanly;
    var ps := Cut(D, text + "\n");
    ValueLegible(ps, 0);
    ValueNeeds(ps, 0);
    BeforeMonotone(ps, ParseValue(ps, 0).pos, |ps|);
    AllPieces(ps);
  }

  lemma AllPieces(ps: seq<string>)
    ensures Before(ps, 0) == 0 && Before(ps, |ps|) == Load(ps)
  {
    hide Load, Weight;
    BeforeAll(ps, 0);
    assert ps[0..] == ps;
  }

  lemma {:induction false} Unspoiled(v: Value)
    requires Legible(v) && !Spoiled(v)
    ensures PrintableItem(v)
  {
    if v.Arr? {
      forall k | 0 <= k < |v.items| ensures PrintableItem(v.items[k]) {
        Unspoiled(v.items[k]);
      }
    }
  }

  lemma UnspoiledFields(es: Dict)
    requires LegibleEntries(es) && forall k :: 0 <= k < |es| ==> !Spoiled(es[k].value)
    ensures Fields(es)
  {
    hide Legible, Spoiled, LineKey, PrintableItem, Sorted;
    forall k | 0 <= k < |es| ensures PrintableItem(es[k].value) {
      Unspoiled(es[k].value);
    }
  }

  lemma UnspoiledLine(v: Value)
    requires Legible(v) && !SpoiledLine(v)
    ensures Shown(v) && !v.Bool? && (v.Table? ==> Sorted(v.entries))
  {
    hide LineKey, Less;
    if v.Table? {
      UnspoiledFields(v.entries);
    } else {
      Unspoiled(v);
    }
  }

  // ---- items and lines ----

  /** As an element or a field, exactly the printable items come back. */
  lemma ItemExact(v: Value)
    ensures ReadsAs(DumpItem(v), v) <==> PrintableItem(v)
  {
    hide ReadsAs, PrintableItem, Spoiled, Legible, DumpItem, Need, Worth;
    if PrintableItem(v) {
      ItemReadBack(v);
    } else if ReadsAs(DumpItem(v), v) {
      ReadWorth(DumpItem(v), v);
      ItemWorth(v);
      Unspoiled(v);
    }
  }

  lemma ItemReadBack(v: Value)
    requires PrintableItem(v)
    ensures ReadsAs(DumpItem(v), v)
  {
    hide Cut, PrintableItem, Expressible, Named, DumpItem, WriteItem, PiecesOf, ParseValue;
    ItemAsWritten(v);
    PrintableExpressible(v);
    ExpressibleNamed(v);
    TextOfContent(DumpItem(v));
    NewlineBounded();
    ItemPieces(v, "\n");
    CutNewline();
    ReadItem(Cut(D, DumpItem(v) + "\n"), 0, v);
  }

  lemma NewlineBounded()
    ensures SingleDelimiters.Bounded(D, "\n")
  {
    TomlDelimiters();
  }

  /** On a line of a section, exactly the printable items and the inline dictionaries of such items
      with at least one entry come back. */
  lemma LineExact(v: Value)
    ensures ReadsAs(DumpSetting(v), v) <==> Setting(v)
  {
    hide ReadsAs, Shown, SpoiledLine, Legible, DumpSetting, Need, Worth, Sorted;
    if Setting(v) {
      LineReadBack(v);
    } else if ReadsAs(DumpSetting(v), v) {
      ReadWorth(DumpSetting(v), v);
      SettingWorth(v);
      UnspoiledLine(v);
      EmptyLost(v);
    }
  }

  lemma LineReadBack(v: Value)
    requires Setting(v)
    ensures ReadsAs(DumpSetting(v), v)
  {
    assert Shown(v);
    hide Cut, Setting, Shown, Expressible, Named, DumpSetting, WriteItem, PiecesOf, ParseValue;
    SettingAsWritten(v);
    SettingExpressible(v);
    ExpressibleNamed(v);
    TextOfContent(DumpSetting(v));
    NewlineBounded();
    ItemPieces(v, "\n");
    CutNewline();
    ReadItem(Cut(D, DumpSetting(v) + "\n"), 0, v);
  }

  // ---- inline dictionaries without entries ----

  /** The closing brace is taken for a key. If an equal sign follows, it is itself a key, and no value
      follows it. */
  lemma EmptyInline(ps: seq<string>, i: nat)
    requires Text(ps) && At(ps, i, ["{", "}"]) && i + 2 < |ps|
    requires Next(ps, i + 2).text != "=" || Next(ps, Next(ps, i + 2).next).text == "="
    ensures ParseValue(ps, i).Err?
  {
    hide NextToken;
    Punctuation();
    assert ps[i] == ["{", "}"][0] && ps[i + 1] == ["{", "}"][1];
    NextVisible(ps, i);
    NextVisible(ps, i + 1);
    if Next(ps, i + 2).text == "=" {
      NoValue(ps, Next(ps, i + 2).next);
    }
    assert ParseAssigned(ps, i + 2).Err?;
    assert ParseDict(ps, i + 1, false, []).Err?;
  }

  lemma NoValue(ps: seq<string>, i: nat)
    requires Text(ps) && i < |ps| && Next(ps, i).text == "="
    ensures ParseValue(ps, i).Err?
  {
    hide NextToken, ParseArray, ParseDict, ParseString;
    RewindWord(ps, i);
  }

  lemma EmptyLost(v: Value)
    requires v == Table([])
    ensures !ReadsAs(DumpSetting(v), v)
  {
    hide Cut, NextToken, ParseValue;
    TextOfContent("{}");
    NewlineBounded();
    NothingWritten(v);
    ItemPieces(v, "\n");
    CutNewline();
    var ps := Cut(D, "{}" + "\n");
    assert ps == ["{", "}", "\n"];
    Punctuation();
    NextSkipped(ps, 2);
    EmptyInline(ps, 0);
  }

  lemma NothingWritten(v: Value)
    requires v == Table([])
    ensures DumpSetting(v) == "{}" && WriteItem(v) == "{}" && PiecesOf(v) == ["{", "}"] && Named(v)
  {
    assert WriteFields([]) == "" && PiecesOfFields([]) == [];
    assert DumpFields([], true) == "";
    assert "{" + "" + "}" == "{}";
    assert ["{"] + [] + ["}"] == ["{", "}"];
  }

  predicate Broken(es: Dict) {
    exists k :: 0 <= k < |es| && es[k].value == Table([])
  }

  /** Lines whose inline dictionaries are sorted. */
  ghost predicate TidyLines(es: Dict) {
    ShownLines(es) && forall k :: 0 <= k < |es| && es[k].value.Table? ==> Sorted(es[k].value.entries)
  }

  /** What can follow an empty inline dictionary: no equal sign, or one that is a key. */
  lemma {:induction false} AfterLine(ps: seq<string>, i: nat, es: Dict)
    requires Text(ps) && ShownLines(es) && At(ps, i, PiecesOfLines(es, true)) && i + |PiecesOfLines(es, true)| < |ps|
    requires Next(ps, i + |PiecesOfLines(es, true)|).text in ["", "["]
    ensures Next(ps, i).text != "=" || Next(ps, Next(ps, i).next).text == "="
    decreases |es|
  {
    hide *;
    if es == [] {
      NoLinePieces(true);
      NotEqualSign(Next(ps, i).text);
    } else {
      FirstShown(es);
      LineInPieces(es, true);
      if Silent(es[0].value, true) {
        AtSplit(ps, i, ["\n"], PiecesOfLines(es[1..], true));
        LineEnds(ps, i);
        AfterLine(ps, i + 1, es[1..]);
      } else {
        FirstLineAt(ps, i, es, true);
        DictKey(ps, i, es[0].key);
      }
    }
  }

  lemma NotEqualSign(t: string)
    requires t in ["", "["]
    ensures t != "="
  {
  }

  lemma FirstShown(es: Dict)
    requires ShownLines(es) && es != []
    ensures LineKey(es[0].key) && ShownLines(es[1..])
  {
    hide Shown, LineKey;
  }

  lemma {:induction false} ReadBroken(ps: seq<string>, i: nat, es: Dict, acc: Dict)
    requires Text(ps) && TidyLines(es) && Sorted(acc + es) && Broken(es)
    requires At(ps, i, PiecesOfLines(es, true)) && i + |PiecesOfLines(es, true)| < |ps|
    requires Next(ps, i + |PiecesOfLines(es, true)|).text in ["", "["]
    ensures ParseDict(ps, i, true, acc).Err?
    decreases |es|
  {
    hide *;
    FirstTidy(es);
    if es[0].value.Bool? {
      EmptyLine(ps, i, es, acc, true);
      ReadBroken(ps, i + 1, es[1..], acc);
    } else if es[0].value == Table([]) {
      BreaksHere(ps, i, es, acc);
    } else {
      KeysBefore(acc, es);
      SettingExpressible(es[0].value);
      LineStep(ps, i, es, acc, true);
      ReadBroken(ps, i + 5 + |PiecesOf(es[0].value)|, es[1..], acc + [es[0]]);
    }
  }

  lemma FirstTidy(es: Dict)
    requires TidyLines(es) && Broken(es)
    ensures es != [] && ShownLines(es) && LineKey(es[0].key) && TidyLines(es[1..])
    ensures Silent(es[0].value, true) <==> es[0].value.Bool?
    ensures es[0].value != Table([]) ==> Broken(es[1..]) && (es[0].value.Bool? || Setting(es[0].value))
  {
    hide Fields, PrintableItem, LineKey, Sorted;
    var k :| 0 <= k < |es| && es[k].value == Table([]);
    assert k > 0 ==> es[1..][k - 1].value == Table([]);
  }

  lemma BreaksHere(ps: seq<string>, i: nat, es: Dict, acc: Dict)
    requires Text(ps) && ShownLines(es) && es != [] && es[0].value == Table([]) && LineKey(es[0].key)
    requires At(ps, i, PiecesOfLines(es, true)) && i + |PiecesOfLines(es, true)| < |ps|
    requires Next(ps, i + |PiecesOfLines(es, true)|).text in ["", "["]
    ensures ParseDict(ps, i, true, acc).Err?
  {
    hide *;
    PiecesOfEmpty(es);
    FirstLineAt(ps, i, es, true);
    LineEnds(ps, i + 6);
    AfterLine(ps, i + 7, es[1..]);
    EmptyInline(ps, i + 4);
    FailEntry(ps, i, es[0].key, acc);
  }

  lemma PiecesOfEmpty(es: Dict)
    requires ShownLines(es) && es != [] && es[0].value == Table([])
    ensures PiecesOf(es[0].value) == ["{", "}"] && |PiecesOf(es[0].value)| == 2
    ensures ShownLines(es[1..]) && !Silent(es[0].value, true)
  {
    hide LineKey, Shown;
  }

  lemma LineEnds(ps: seq<string>, i: nat)
    requires i < |ps| && ps[i] == "\n"
    ensures Next(ps, i) == Next(ps, i + 1)
  {
    Punctuation();
    NextSkipped(ps, i);
  }

  lemma FailEntry(ps: seq<string>, i: nat, key: string, acc: Dict)
    requires Text(ps) && LineKey(key) && At(ps, i, Key(key)) && i + 4 < |ps| && ParseValue(ps, i + 4).Err?
    ensures ParseDict(ps, i, true, acc).Err?
  {
    hide NextToken, ParseValue, ErrorAt, At, LineKey;
    DictKey(ps, i, key);
    assert ParseAssigned(ps, i + 1).Err?;
  }

  ghost predicate Tidy(c: Dict) {
    && ShownSections(c)
    && forall k :: 0 <= k < |c| ==> Sorted(c[k].value.entries) && TidyLines(c[k].value.entries)
  }

  ghost predicate BrokenSections(c: Dict)
    requires Tidy(c)
  {
    exists k :: 0 <= k < |c| && Broken(c[k].value.entries)
  }

  lemma {:induction false} ReadBrokenSections(ps: seq<string>, i: nat, c: Dict, acc: Dict)
    requires Text(ps) && Tidy(c) && Sorted(acc + c) && BrokenSections(c)
    requires At(ps, i, PiecesOfSections(c, true)) && i + |PiecesOfSections(c, true)| + 1 == |ps|
    ensures ParseSections(ps, i, acc).Err?
    decreases |c|
  {
    hide *;
    FirstTidySection(c);
    var lines := c[0].value.entries;
    var next := i + 5 + |PiecesOfLines(lines, true)|;
    if Broken(lines) {
      FirstSectionAt(ps, i, c, true);
      SectionBegins(ps, next, c[1..], true);
      SameNothing(lines);
      EndOfSection(ps, next, c[1..]);
      ReadBroken(ps, i + 5, lines, []);
      FailHead(ps, i, c[0].key, acc);
    } else {
      var first := Entry(c[0].key, Table(Kept(lines, true)));
      KeysBefore(acc, c);
      SameKeys(acc, c, first);
      SectionStep(ps, i, c, acc, true);
      ReadBrokenSections(ps, next, c[1..], acc + [first]);
    }
  }

  lemma SameNothing(es: Dict)
    ensures [] + es == es
  {
  }

  lemma EndOfSection(ps: seq<string>, i: nat, c: Dict)
    requires i < |ps| && Next(ps, i).text == if c == [] then "" else "["
    ensures Next(ps, i).text in ["", "["]
  {
  }

  lemma FirstTidySection(c: Dict)
    requires Tidy(c) && BrokenSections(c)
    ensures c != [] && ShownSections(c) && Name(c[0].key) && c[0].value.Table?
    ensures ShownSections(c[1..]) && Tidy(c[1..])
    ensures NamedSections(c) && NamedSections(c[1..]) && Sorted(c[0].value.entries) && TidyLines(c[0].value.entries)
    ensures !Broken(c[0].value.entries) ==> Lines(c[0].value.entries, true) && BrokenSections(c[1..])
  {
    ShownNamed(c);
    ShownNamed(c[1..]);
    hide ShownLines, NamedSections, Name, Sorted, Shown;
    var k :| 0 <= k < |c| && Broken(c[k].value.entries);
    assert k > 0 ==> Broken(c[1..][k - 1].value.entries);
    if !Broken(c[0].value.entries) {
      WholeLines(c[0].value.entries);
    }
  }

  lemma WholeLines(es: Dict)
    requires TidyLines(es) && !Broken(es)
    ensures WritableLines(es) && Lines(es, true)
  {
    hide Fields, PrintableItem, LineKey, Sorted, Lines;
    assert WritableLines(es);
    LinesExpressible(es);
  }

  lemma ShownNamed(c: Dict)
    requires ShownSections(c)
    ensures NamedSections(c)
  {
    hide ShownLines, NamedLines, Name;
    forall k | 0 <= k < |c| ensures NamedLines(c[k].value.entries) {
      ShownLinesNamed(c[k].value.entries);
    }
  }

  lemma ShownLinesNamed(es: Dict)
    requires ShownLines(es)
    ensures NamedLines(es)
  {
    hide Shown, Named, Name;
    forall k | 0 <= k < |es| ensures Named(es[k].value) {
      ShownIsNamed(es[k].value);
    }
  }

  lemma ShownIsNamed(v: Value)
    requires Shown(v) || v.Bool?
    ensures Named(v)
  {
    assert v.Table? ==> Fields(v.entries);
    hide PrintableItem, Name;
    if v.Table? {
      forall k | 0 <= k < |v.entries| ensures Named(v.entries[k].value) {
        PrintableExpressible(v.entries[k].value);
        ExpressibleNamed(v.entries[k].value);
      }
    } else if !v.Bool? {
      PrintableExpressible(v);
      ExpressibleNamed(v);
    }
  }

  // ---- configurations ----

  lemma ParsedWorth(content: string)
    requires Parse(content).Ok?
    ensures NeedSections(Parse(content).value) <= Worth(content)
  {
    TextOfContent(content);
    CleanText(content + "\n");
    WorthOfLine(content);
    hide Cut, Load, Before, Weight, ParseSections, NeedSections, Cleanly;
    var ps := Cut(D, content + "\n");
    NothingNeeded();
    SectionsNeed(ps, 0, []);
    AllPieces(ps);
  }

  /** Nothing in a configuration that comes back is spoiled. */
  lemma RestoredTidy(c: Dict)
    requires Parse(Dump(c)).Ok? && Parse(Dump(c)).value == c
    ensures Sorted(c) && Tidy(c) && !HasBooleans(c)
  {
    hide Parse, Dump, Worth, NeedSections, LegibleEntries, SpoiledSection, ShownLines, Name, Sorted, TidyLines;
    ParsedLegible(Dump(c));
    ParsedWorth(Dump(c));
    SectionsWorth(c);
    forall k | 0 <= k < |c|
      ensures Sorted(c[k].value.entries) && TidyLines(c[k].value.entries) && ShownLines(c[k].value.entries)
      ensures forall j :: 0 <= j < |c[k].value.entries| ==> !c[k].value.entries[j].value.Bool?
    {
      UnspoiledLines(c[k].value.entries);
    }
  }

  lemma UnspoiledLines(es: Dict)
    requires LegibleEntries(es) && !SpoiledSection(es)
    ensures Sorted(es) && TidyLines(es) && ShownLines(es)
    ensures forall j :: 0 <= j < |es| ==> !es[j].value.Bool?
  {
    hide Legible, SpoiledLine, Shown, LineKey, Less;
    forall j | 0 <= j < |es|
      ensures Shown(es[j].value) && !es[j].value.Bool?
      ensures es[j].value.Table? ==> Sorted(es[j].value.entries)
    {
      UnspoiledLine(es[j].value);
    }
  }

  /** Exactly the writable configurations without booleans come back. */
  lemma ConfigExact(c: Dict)
    ensures Parse(Dump(c)).Ok? && Parse(Dump(c)).value == c <==> Writable(c) && !HasBooleans(c)
  {
    hide Parse, Dump, WritableSections, Sorted, Tidy, HasBooleans, KeptIn;
    if Writable(c) {
      RoundTrip(c);
    } else if Parse(Dump(c)).Ok? && Parse(Dump(c)).value == c {
      RestoredTidy(c);
      NotBroken(c);
      Assembled(c);
    }
  }

  lemma NotBroken(c: Dict)
    requires Sorted(c) && Tidy(c) && Parse(Dump(c)).Ok?
    ensures !BrokenSections(c)
  {
    if BrokenSections(c) {
      assert ShownSections(c);
      hide Cut, Text, At, Sorted, Tidy, BrokenSections, ShownSections;
      hide NamedSections, PiecesOfSections, ParseSections, Dump, Write;
      DumpAsWritten(c);
      ShownNamed(c);
      TextOf(c, true);
      SameNothing(c);
      ReadBrokenSections(Cut(D, Write(c, true) + "\n"), 0, c, []);
    }
  }

  lemma Assembled(c: Dict)
    requires Tidy(c) && !BrokenSections(c)
    ensures WritableSections(c)
  {
    hide ShownLines, Name, Sorted, Broken, TidyLines, WritableLines, Lines;
    forall k | 0 <= k < |c| ensures WritableLines(c[k].value.entries) {
      WholeLines(c[k].value.entries);
    }
  }

  /** So what was read from any text is stable under printing and reading if and only if it is
      writable and has no booleans. */
  lemma ParsedStable(content: string)
    requires Parse(content).Ok?
    ensures var c := Parse(content).value;
      LegibleSections(c)
      && (Parse(Dump(c)).Ok? && Parse(Dump(c)).value == c <==> WritableSections(c) && !HasBooleans(c))
  {
    hide Parse, Dump, WritableSections, HasBooleans;
    ParsedLegible(content);
    ConfigExact(Parse(content).value);
  }

  // ---- what can be read at all ----

  /** No inline dictionary is empty. */
  predicate Filled(v: Value) {
    match v
    case Arr(items) => forall k :: 0 <= k < |items| ==> Filled(items[k])
    case Table(es) => es != [] && FilledLines(es)
    case _ => true
  }

  predicate FilledLines(es: Dict) { forall k :: 0 <= k < |es| ==> Filled(es[k].value) }

  lemma {:induction false} LegibleExpressible(v: Value)
    requires Legible(v) && Filled(v)
    ensures Expressible(v)
  {
    if v.Arr? {
      forall k | 0 <= k < |v.items| ensures Expressible(v.items[k]) {
        LegibleExpressible(v.items[k]);
      }
    } else if v.Table? {
      forall k | 0 <= k < |v.entries| ensures Expressible(v.entries[k].value) {
        LegibleExpressible(v.entries[k].value);
      }
    }
  }

  lemma {:induction false} ExpressibleFilled(v: Value)
    requires Expressible(v)
    ensures Filled(v)
  {
    if v.Arr? {
      forall k | 0 <= k < |v.items| ensures Filled(v.items[k]) {
        ExpressibleFilled(v.items[k]);
      }
    } else if v.Table? {
      forall k | 0 <= k < |v.entries| ensures Filled(v.entries[k].value) {
        ExpressibleFilled(v.entries[k].value);
      }
    }
  }

  lemma LinesFilled(es: Dict)
    requires LegibleEntries(es)
    ensures FilledLines(es) <==> Lines(es, false)
  {
    hide Legible, Filled, Expressible, LineKey, Sorted;
    forall k | 0 <= k < |es| ensures Filled(es[k].value) <==> Expressible(es[k].value) {
      if Filled(es[k].value) {
        LegibleExpressible(es[k].value);
      } else if Expressible(es[k].value) {
        ExpressibleFilled(es[k].value);
      }
    }
  }

  predicate FilledSections(c: Dict) {
    forall k :: 0 <= k < |c| && c[k].value.Table? ==> FilledLines(c[k].value.entries)
  }

  /** The configurations that some text is read as, leaving empty inline dictionaries aside, are those
      that can be expressed. */
  lemma ImageExact(c: Dict)
    ensures (exists content :: Parse(content).Ok? && Parse(content).value == c) && FilledSections(c)
       <==> Sorted(c) && Sections(c, false)
  {
    hide Parse, Sorted, Write;
    if content: string :| Parse(content).Ok? && Parse(content).value == c && FilledSections(c) {
      ParsedLegible(content);
      FilledExpressible(c);
    }
    if Sorted(c) && Sections(c, false) {
      WrittenRead(c);
      ExpressibleSectionsFilled(c);
    }
  }

  lemma FilledExpressible(c: Dict)
    requires LegibleSections(c) && FilledSections(c)
    ensures Sorted(c) && Sections(c, false)
  {
    hide LegibleEntries, FilledLines, Lines, Name, Less;
    forall k | 0 <= k < |c| ensures Sorted(c[k].value.entries) && Lines(c[k].value.entries, false) {
      LinesFilled(c[k].value.entries);
      EntriesSorted(c[k].value.entries);
    }
  }

  lemma EntriesSorted(es: Dict)
    requires LegibleEntries(es)
    ensures Sorted(es)
  {
  }

  lemma ExpressibleSectionsFilled(c: Dict)
    requires Sections(c, false)
    ensures FilledSections(c)
  {
    hide Expressible, Filled, Name, Sorted, LineKey;
    forall k, j | 0 <= k < |c| && 0 <= j < |c[k].value.entries| ensures Filled(c[k].value.entries[j].value) {
      ExpressibleFilled(c[k].value.entries[j].value);
    }
  }

  /** 1.0 is printed as an integer, and 3.14159265 with six digits: neither comes back. */
  lemma FloatsLost(text: string, x: Single)
    requires x == Finite(false, 1, 0) || x == Finite(false, 314_159_265, -8)
    ensures !ReadsAs(DumpItem(Float(x)), Float(x))
    ensures var c := [Entry("a", Table([Entry(text, Float(x))]))];
      !(Parse(Dump(c)).Ok? && Parse(Dump(c)).value == c)
  {
    var v := Float(x);
    var lines := [Entry(text, v)];
    var c := [Entry("a", Table(lines))];
    assert !Survives(x) && !PrintableItem(v) && !Shown(v);
    ItemExact(v);
    assert !ShownLines(lines) by { assert lines[0].value == v; }
    assert !ShownSections(c) by { assert c[0].value.entries == lines; }
    hide Parse, Dump;
    ConfigExact(c);
  }
}
