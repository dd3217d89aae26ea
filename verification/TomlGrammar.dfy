/** The grammar of the configuration language: which texts are read, and as what. */
module TomlGrammar {
  import opened Tokenization
  import opened TomlModel
  import opened TomlProofs

  /** A value as it stands in the text. A comma may follow the last element of an array; an inline
      dictionary may also be left open after a comma, or before its first entry. */
  datatype Syntax =
    | Word(text: string)
    | Quoted(quote: char, pieces: seq<string>)
    | Listed(elements: seq<Syntax>, comma: bool)
    | Braced(fields: seq<Field>, open: bool)

  datatype Field = Field(key: string, value: Syntax)

  datatype Section = Section(name: string, lines: seq<Field>)

  // ---- spelling ----

  /** The next token from i on is this one, and j is behind it. */
  predicate Sees(ps: seq<string>, i: nat, text: string, j: nat) {
    i <= |ps| && Next(ps, i) == Token(text, j)
  }

  /** A word that stands for a number or a boolean. */
  predicate Literal(w: string) { OpeningOf(w) == Atom && AtomOf(Token(w, 0)).Ok? }

  /** What an open dictionary and a section end before: a bracket, or the end of the text. */
  predicate Ends(ps: seq<string>, i: nat, p: nat) {
    i <= |ps| && Next(ps, i).text in {"", "["} && p + 1 == Next(ps, i).next
  }

  /** The text from i to p spells a value. */
  ghost predicate Spells(ps: seq<string>, i: nat, t: Syntax, p: nat)
    decreases t, 0
  {
    match t
    case Word(w) => Literal(w) && Sees(ps, i, w, p)
    case Quoted(q, xs) => q in {'\'', '"'} && exists j :: Sees(ps, i, [q], j) && SpellsString(ps, j, q, xs, p)
    case Listed(ts, comma) => exists j :: Sees(ps, i, "[", j) && SpellsElements(ps, j, ts, comma, p)
    case Braced(fs, open) => exists j :: Sees(ps, i, "{", j) && SpellsFields(ps, j, fs, open, p)
  }

  /** The pieces of a string, up to the first closing quote that is not inside a comment. */
  ghost predicate SpellsString(ps: seq<string>, i: nat, q: char, xs: seq<string>, p: nat)
    decreases |xs|
  {
    && i <= |ps|
    && if xs == [] then NextToken(TOML, ps, i, false) == Token([q], p)
       else
         xs[0] !in ["", [q]]
         && exists j :: NextToken(TOML, ps, i, false) == Token(xs[0], j) && SpellsString(ps, j, q, xs[1..], p)
  }

  ghost predicate SpellsElements(ps: seq<string>, i: nat, ts: seq<Syntax>, comma: bool, p: nat)
    decreases ts, 1
  {
    if ts == [] then Sees(ps, i, "]", p)
    else
      exists j ::
        && Spells(ps, i, ts[0], j)
        && if |ts| == 1 && !comma then Sees(ps, j, "]", p)
           else exists k :: Sees(ps, j, ",", k) && SpellsElements(ps, k, ts[1..], comma, p)
  }

  /** A key, an equal sign and a value. */
  ghost predicate SpellsField(ps: seq<string>, i: nat, f: Field, p: nat)
    decreases f, 0
  {
    && f.key !in {"", "["}
    && exists j, k :: Sees(ps, i, f.key, j) && Sees(ps, j, "=", k) && Spells(ps, k, f.value, p)
  }

  ghost predicate SpellsFields(ps: seq<string>, i: nat, fs: seq<Field>, open: bool, p: nat)
    decreases fs, 1
  {
    if fs == [] then open && Ends(ps, i, p)
    else
      exists j ::
        && SpellsField(ps, i, fs[0], j)
        && if |fs| == 1 && !open then Sees(ps, j, "}", p)
           else exists k :: Sees(ps, j, ",", k) && SpellsFields(ps, k, fs[1..], open, p)
  }

  ghost predicate SpellsLines(ps: seq<string>, i: nat, fs: seq<Field>, p: nat)
    decreases |fs|
  {
    if fs == [] then Ends(ps, i, p)
    else exists j :: SpellsField(ps, i, fs[0], j) && SpellsLines(ps, j, fs[1..], p)
  }

  /** Sections up to the end of the text. */
  ghost predicate SpellsSections(ps: seq<string>, i: nat, ss: seq<Section>)
    decreases |ss|
  {
    if ss == [] then i <= |ps| && Next(ps, i).text == ""
    else exists j :: SpellsSection(ps, i, ss[0], j) && SpellsSections(ps, j, ss[1..])
  }

  ghost predicate SpellsSection(ps: seq<string>, i: nat, s: Section, p: nat) {
    exists j, k, n ::
      Sees(ps, i, "[", j) && Sees(ps, j, s.name, k) && Sees(ps, k, "]", n) && SpellsLines(ps, n, s.lines, p)
  }

  // ---- meaning ----

  function Meaning(t: Syntax): Value
    decreases t, 0
  {
    match t
    case Word(w) => var r := AtomOf(Token(w, 0)); if r.Ok? then r.value else Bool(false)
    case Quoted(_, xs) => Str(Pieces.Join(xs))
    case Listed(ts, _) => Arr(MeaningOfAll(ts))
    case Braced(fs, _) => Table(Collected([], fs))
  }

  function MeaningOfAll(ts: seq<Syntax>): (vs: seq<Value>)
    decreases ts, 1
  {
    if ts == [] then [] else [Meaning(ts[0])] + MeaningOfAll(ts[1..])
  }

  /** Entries are set one after the other. */
  function Collected(d: Dict, fs: seq<Field>): Dict
    decreases fs, 1
  {
    if fs == [] then d else Collected(Insert(d, fs[0].key, Meaning(fs[0].value)), fs[1..])
  }

  function CollectedSections(c: Dict, ss: seq<Section>): Dict
    decreases |ss|
  {
    if ss == [] then c
    else CollectedSections(Insert(c, ss[0].name, Table(Collected([], ss[0].lines))), ss[1..])
  }

  // ---- what is read is spelled ----

  lemma AtomSpelled(ps: seq<string>, i: nat) returns (t: Syntax)
    requires Text(ps) && i < |ps| && OpeningOf(Next(ps, i).text) == Atom && AtomOf(Next(ps, i)).Ok?
    ensures var r := AtomOf(Next(ps, i)); Spells(ps, i, t, r.pos) && Meaning(t) == r.value
  {
    hide NextToken, StoI, StoF;
    t := Word(Next(ps, i).text);
  }

  lemma {:induction false} StringSpelled(ps: seq<string>, i: nat, q: char, acc: string) returns (xs: seq<string>)
    requires i <= |ps| && ParseString(ps, i, q, acc).Ok?
    ensures var r := ParseString(ps, i, q, acc);
      SpellsString(ps, i, q, xs, r.pos) && r.value == acc + Pieces.Join(xs)
    decreases |ps| - i
  {
    hide NextToken;
    var t := NextToken(TOML, ps, i, false);
    if t.text == [q] {
      xs := [];
      assert acc + Pieces.Join([]) == acc;
    } else {
      var rest := StringSpelled(ps, t.next, q, acc + t.text);
      xs := [t.text] + rest;
      assert xs[1..] == rest;
      assert acc + t.text + Pieces.Join(rest) == acc + Pieces.Join(xs);
    }
  }

  lemma {:induction false} ValueSpelled(ps: seq<string>, i: nat) returns (t: Syntax)
    requires Text(ps) && i < |ps| && ParseValue(ps, i).Ok?
    ensures Spells(ps, i, t, ParseValue(ps, i).pos) && Meaning(t) == ParseValue(ps, i).value
    decreases |ps| - i, 0
  {
    ValueUnfold(ps, i);
    hide NextToken, ParseValue, ParseArray, ParseDict, ParseString, AtomOf, Text;
    hide SpellsString, SpellsElements, SpellsFields, Collected, MeaningOfAll, Literal;
    var first := Next(ps, i);
    match OpeningOf(first.text) {
      case Atom =>
        t := AtomSpelled(ps, i);
      case Quote(q) =>
        var xs := StringSpelled(ps, first.next, q, "");
        t := Quoted(q, xs);
        QuoteSeen(ps, i, q);
        assert "" + Pieces.Join(xs) == Pieces.Join(xs);
      case Bracket =>
        var ts, comma := ElementsSpelled(ps, first.next, []);
        t := Listed(ts, comma);
        assert Sees(ps, i, "[", first.next);
        assert [] + MeaningOfAll(ts) == MeaningOfAll(ts);
      case Brace =>
        var fs, open := FieldsSpelled(ps, first.next, []);
        t := Braced(fs, open);
        assert Sees(ps, i, "{", first.next);
    }
  }

  lemma QuoteSeen(ps: seq<string>, i: nat, q: char)
    requires i <= |ps| && OpeningOf(Next(ps, i).text) == Quote(q)
    ensures Sees(ps, i, [q], Next(ps, i).next) && q in {'\'', '"'}
  {
    hide NextToken;
  }

  /** One step through an array. */
  lemma ArrayOnce(ps: seq<string>, i: nat, acc: seq<Value>)
    requires Text(ps) && i < |ps|
    ensures Next(ps, i).text == "]" ==> ParseArray(ps, i, acc) == Ok(acc, Next(ps, i).next)
    ensures Next(ps, i).text != "]" ==>
              ParseArray(ps, i, acc) == AfterElement(ps, acc, Element(ps, i))
  {
    hide *;
    ArrayUnfold(ps, i, acc);
    RewindWord(ps, i);
    SameElement(ps, i, Next(ps, i).next - 1);
  }

  lemma SameElement(ps: seq<string>, i: nat, j: nat)
    requires Text(ps) && i < |ps| && j < |ps| && Next(ps, i) == Next(ps, j)
    ensures Element(ps, i) == Element(ps, j)
  {
    hide NextToken, ParseValue, ErrorAt;
    SameValue(ps, i, j);
  }

  lemma LastElement(ps: seq<string>, i: nat, t: Syntax, j: nat, p: nat)
    requires Spells(ps, i, t, j) && Sees(ps, j, "]", p)
    ensures SpellsElements(ps, i, [t], false, p) && MeaningOfAll([t]) == [Meaning(t)]
  {
    hide Spells, Sees, Meaning;
  }

  lemma MoreElements(ps: seq<string>, i: nat, t: Syntax, j: nat, k: nat, ts: seq<Syntax>, comma: bool, p: nat)
    requires Spells(ps, i, t, j) && Sees(ps, j, ",", k) && SpellsElements(ps, k, ts, comma, p)
    ensures SpellsElements(ps, i, [t] + ts, comma || ts == [], p)
    ensures MeaningOfAll([t] + ts) == [Meaning(t)] + MeaningOfAll(ts)
  {
    hide Spells, Sees, Meaning;
    var all := [t] + ts;
    assert all[0] == t && all[1..] == ts;
    assert SpellsElements(ps, k, ts, comma || ts == [], p);
  }

  /** An element was read, and its separator. */
  lemma OneElement(ps: seq<string>, i: nat, acc: seq<Value>, v: Parsed<Value>, u: Token)
    requires Text(ps) && i < |ps| && ParseArray(ps, i, acc).Ok? && Next(ps, i).text != "]"
    requires v == ParseValue(ps, i) && (v.Ok? ==> u == Next(ps, v.pos))
    ensures v.Ok? && i < v.pos && i < u.next && u.next < |ps|
    ensures Sees(ps, v.pos, u.text, u.next)
    ensures u.text == "]" ==> ParseArray(ps, i, acc) == Ok(acc + [v.value], u.next)
    ensures u.text != "]" ==>
              u.text == "," && ParseArray(ps, i, acc) == ParseArray(ps, u.next, acc + [v.value])
  {
    ArrayOnce(ps, i, acc);
    hide NextToken, ParseValue, ParseArray, ErrorAt;
  }

  lemma Regroup(acc: seq<Value>, v: Value, vs: seq<Value>)
    ensures acc + [v] + vs == acc + ([v] + vs)
  {
  }

  lemma {:induction false} ElementsSpelled(ps: seq<string>, i: nat, acc: seq<Value>)
    returns (ts: seq<Syntax>, comma: bool)
    requires Text(ps) && i < |ps| && ParseArray(ps, i, acc).Ok?
    ensures SpellsElements(ps, i, ts, comma, ParseArray(ps, i, acc).pos)
    ensures ParseArray(ps, i, acc).value == acc + MeaningOfAll(ts)
    decreases |ps| - i, 1
  {
    hide *;
    if Next(ps, i).text == "]" {
      ts, comma := [], false;
      EmptyElements(ps, i, acc);
    } else {
      var v := ParseValue(ps, i);
      var u := if v.Ok? then Next(ps, v.pos) else Token("", 0);
      OneElement(ps, i, acc, v, u);
      var t := ValueSpelled(ps, i);
      if u.text == "]" {
        ts, comma := [t], false;
        LastElement(ps, i, t, v.pos, u.next);
      } else {
        var rest, more := ElementsSpelled(ps, u.next, acc + [v.value]);
        ts, comma := [t] + rest, more || rest == [];
        MoreElements(ps, i, t, v.pos, u.next, rest, more, ParseArray(ps, i, acc).pos);
        Regroup(acc, v.value, MeaningOfAll(rest));
      }
    }
  }

  lemma EmptyElements(ps: seq<string>, i: nat, acc: seq<Value>)
    requires Text(ps) && i < |ps| && Next(ps, i).text == "]"
    ensures SpellsElements(ps, i, [], false, ParseArray(ps, i, acc).pos)
    ensures ParseArray(ps, i, acc) == Ok(acc + MeaningOfAll([]), Next(ps, i).next)
  {
    ArrayOnce(ps, i, acc);
    hide NextToken, ParseArray, AfterElement, Element;
    NoElements(ps, i, Next(ps, i).next);
    assert acc + [] == acc;
  }

  lemma NoElements(ps: seq<string>, i: nat, p: nat)
    requires Sees(ps, i, "]", p)
    ensures SpellsElements(ps, i, [], false, p) && MeaningOfAll([]) == []
  {
  }

  lemma LastField(ps: seq<string>, i: nat, f: Field, j: nat, p: nat, d: Dict)
    requires SpellsField(ps, i, f, j) && Sees(ps, j, "}", p)
    ensures SpellsFields(ps, i, [f], false, p) && Collected(d, [f]) == Insert(d, f.key, Meaning(f.value))
  {
    hide SpellsField, Sees, Meaning, Insert;
  }

  lemma MoreFields(
    ps: seq<string>, i: nat, f: Field, j: nat, k: nat, fs: seq<Field>, open: bool, p: nat, d: Dict)
    requires SpellsField(ps, i, f, j) && Sees(ps, j, ",", k) && SpellsFields(ps, k, fs, open, p)
    ensures SpellsFields(ps, i, [f] + fs, open, p)
    ensures Collected(d, [f] + fs) == Collected(Insert(d, f.key, Meaning(f.value)), fs)
  {
    hide SpellsField, Sees, Meaning, Insert;
    var all := [f] + fs;
    assert all[0] == f && all[1..] == fs;
  }

  lemma NoFields(ps: seq<string>, i: nat, p: nat, d: Dict)
    requires Ends(ps, i, p)
    ensures SpellsFields(ps, i, [], true, p) && Collected(d, []) == d
  {
    hide Ends;
  }

  lemma {:induction false} FieldsSpelled(ps: seq<string>, i: nat, acc: Dict) returns (fs: seq<Field>, open: bool)
    requires Text(ps) && i < |ps| && ParseDict(ps, i, false, acc).Ok?
    ensures var r := ParseDict(ps, i, false, acc);
      SpellsFields(ps, i, fs, open, r.pos) && r.value == Collected(acc, fs)
    decreases |ps| - i, 1
  {
    DictUnfold(ps, i, false, acc);
    RewindWord(ps, i);
    hide NextToken, ParseValue, ParseAssigned, ParseDict, SpellsField, SpellsFields, Collected, Meaning;
    hide Text, ErrorAt, Insert;
    var name := Next(ps, i);
    if name.text in {"", "["} {
      fs, open := [], true;
      NoFields(ps, i, name.next - 1, acc);
    } else {
      var v := ParseAssigned(ps, name.next);
      var f := FieldSpelled(ps, i);
      var u := Next(ps, v.pos);
      if u.text == "}" {
        fs, open := [f], false;
        LastField(ps, i, f, v.pos, u.next, acc);
      } else {
        var rest;
        rest, open := FieldsSpelled(ps, u.next, Insert(acc, name.text, v.value));
        fs := [f] + rest;
        MoreFields(ps, i, f, v.pos, u.next, rest, open, ParseDict(ps, i, false, acc).pos, acc);
      }
    }
  }

  lemma {:induction false} FieldSpelled(ps: seq<string>, i: nat) returns (f: Field)
    requires Text(ps) && i < |ps| && Next(ps, i).text !in {"", "["} && ParseAssigned(ps, Next(ps, i).next).Ok?
    ensures var r := ParseAssigned(ps, Next(ps, i).next);
      SpellsField(ps, i, f, r.pos) && f.key == Next(ps, i).text && Meaning(f.value) == r.value
    decreases |ps| - i, 0
  {
    hide NextToken, ParseValue, Spells, Meaning, Text, ErrorAt;
    var name := Next(ps, i);
    RewindWord(ps, i);
    var eq := Next(ps, name.next);
    var t := ValueSpelled(ps, eq.next);
    f := Field(name.text, t);
    assert Sees(ps, i, f.key, name.next) && Sees(ps, name.next, "=", eq.next);
  }

  lemma {:induction false} LinesSpelled(ps: seq<string>, i: nat, acc: Dict) returns (fs: seq<Field>)
    requires Text(ps) && i < |ps| && ParseDict(ps, i, true, acc).Ok?
    ensures var r := ParseDict(ps, i, true, acc); SpellsLines(ps, i, fs, r.pos) && r.value == Collected(acc, fs)
    decreases |ps| - i
  {
    DictUnfold(ps, i, true, acc);
    RewindWord(ps, i);
    hide NextToken, ParseValue, ParseAssigned, ParseDict, SpellsField, Meaning, Text, ErrorAt, Insert;
    var name := Next(ps, i);
    if name.text in {"", "["} {
      fs := [];
    } else {
      var v := ParseAssigned(ps, name.next);
      var f := FieldSpelled(ps, i);
      var rest := LinesSpelled(ps, v.pos, Insert(acc, name.text, v.value));
      fs := [f] + rest;
      assert fs[1..] == rest;
    }
  }

  lemma {:induction false} SectionsSpelled(ps: seq<string>, i: nat, acc: Dict) returns (ss: seq<Section>)
    requires Text(ps) && i < |ps| && ParseSections(ps, i, acc).Ok?
    ensures SpellsSections(ps, i, ss) && ParseSections(ps, i, acc).value == CollectedSections(acc, ss)
    decreases |ps| - i
  {
    hide NextToken, ParseDict, SpellsLines, Collected, ErrorAt, Insert;
    var t := Next(ps, i);
    if t.text == "" {
      ss := [];
    } else {
      NotComment(ps, i);
      var name := Next(ps, t.next);
      var close := Next(ps, name.next);
      var lines := LinesSpelled(ps, close.next, []);
      var d := ParseDict(ps, close.next, true, []);
      var rest := SectionsSpelled(ps, d.pos, Insert(acc, name.text, Table(d.value)));
      var s := Section(name.text, lines);
      ss := [s] + rest;
      assert Sees(ps, i, "[", t.next) && Sees(ps, t.next, s.name, name.next) && Sees(ps, name.next, "]", close.next);
      assert SpellsSection(ps, i, s, d.pos);
      assert ss[1..] == rest;
    }
  }

  lemma NotComment(ps: seq<string>, i: nat)
    requires i <= |ps|
    ensures Next(ps, i).text != "#"
  {
    assert TOML.comments[0] == "#";
  }

  // ---- what is spelled is read ----

  lemma {:induction false} SpelledString(ps: seq<string>, i: nat, q: char, xs: seq<string>, p: nat, acc: string)
    requires i <= |ps| && SpellsString(ps, i, q, xs, p)
    ensures ParseString(ps, i, q, acc) == Ok(acc + Pieces.Join(xs), p)
    decreases |xs|
  {
    hide NextToken;
    if xs == [] {
      assert acc + Pieces.Join([]) == acc;
    } else {
      var t := NextToken(TOML, ps, i, false);
      SpelledString(ps, t.next, q, xs[1..], p, acc + t.text);
      assert acc + t.text + Pieces.Join(xs[1..]) == acc + Pieces.Join(xs);
    }
  }

  lemma SpelledAtom(ps: seq<string>, i: nat, w: string, p: nat)
    requires Text(ps) && i < |ps| && Literal(w) && Sees(ps, i, w, p)
    ensures OpeningOf(Next(ps, i).text) == Atom && AtomOf(Next(ps, i)) == Ok(Meaning(Word(w)), p)
  {
    hide NextToken, StoI, StoF;
  }

  lemma {:induction false} SpelledValue(ps: seq<string>, i: nat, t: Syntax, p: nat)
    requires Text(ps) && i < |ps| && Spells(ps, i, t, p)
    ensures ParseValue(ps, i) == Ok(Meaning(t), p)
    decreases t, 0
  {
    ValueUnfold(ps, i);
    hide NextToken, ParseValue, ParseArray, ParseDict, ParseString, AtomOf, Text;
    hide SpellsString, SpellsElements, SpellsFields, Collected, MeaningOfAll, Literal;
    var first := Next(ps, i);
    match t {
      case Word(w) =>
        SpelledAtom(ps, i, w, p);
      case Quoted(q, xs) =>
        SpelledString(ps, first.next, q, xs, p, "");
        assert "" + Pieces.Join(xs) == Pieces.Join(xs);
      case Listed(ts, comma) =>
        SpelledElements(ps, first.next, ts, comma, p, []);
        assert [] + MeaningOfAll(ts) == MeaningOfAll(ts);
      case Braced(fs, open) =>
        SpelledFields(ps, first.next, fs, open, p, []);
    }
  }

  /** The first element and what follows it. */
  lemma FirstElement(ps: seq<string>, i: nat, ts: seq<Syntax>, comma: bool, p: nat) returns (j: nat, k: nat)
    requires SpellsElements(ps, i, ts, comma, p) && ts != []
    ensures Spells(ps, i, ts[0], j)
    ensures if |ts| == 1 && !comma then Sees(ps, j, "]", p)
            else Sees(ps, j, ",", k) && SpellsElements(ps, k, ts[1..], comma, p)
    ensures MeaningOfAll(ts) == [Meaning(ts[0])] + MeaningOfAll(ts[1..])
  {
    hide Spells, Sees, Meaning;
    j :| Spells(ps, i, ts[0], j)
      && if |ts| == 1 && !comma then Sees(ps, j, "]", p)
         else exists k :: Sees(ps, j, ",", k) && SpellsElements(ps, k, ts[1..], comma, p);
    if !(|ts| == 1 && !comma) {
      k :| Sees(ps, j, ",", k) && SpellsElements(ps, k, ts[1..], comma, p);
    } else {
      k := j;
    }
  }

  lemma {:induction false} SpelledElements(
    ps: seq<string>, i: nat, ts: seq<Syntax>, comma: bool, p: nat, acc: seq<Value>)
    requires Text(ps) && i < |ps| && SpellsElements(ps, i, ts, comma, p)
    ensures ParseArray(ps, i, acc) == Ok(acc + MeaningOfAll(ts), p)
    decreases ts, 1
  {
    hide *;
    if ts == [] {
      SpelledNothing(ps, i, comma, p, acc);
    } else {
      var j, k := FirstElement(ps, i, ts, comma, p);
      SpelledValue(ps, i, ts[0], j);
      OnceMore(ps, i, acc, Meaning(ts[0]), j);
      if |ts| == 1 && !comma {
        Seen(ps, j, "]", p);
        NothingMeant(ts[1..]);
        assert [Meaning(ts[0])] + [] == [Meaning(ts[0])];
      } else {
        Seen(ps, j, ",", k);
        SpelledElements(ps, k, ts[1..], comma, p, acc + [Meaning(ts[0])]);
        Regroup(acc, Meaning(ts[0]), MeaningOfAll(ts[1..]));
      }
    }
  }

  lemma SpelledNothing(ps: seq<string>, i: nat, comma: bool, p: nat, acc: seq<Value>)
    requires Text(ps) && i < |ps| && SpellsElements(ps, i, [], comma, p)
    ensures ParseArray(ps, i, acc) == Ok(acc + MeaningOfAll([]), p)
  {
    ArrayOnce(ps, i, acc);
    hide NextToken, ParseArray, AfterElement, Element;
    assert acc + [] == acc;
  }

  lemma Seen(ps: seq<string>, i: nat, text: string, j: nat)
    requires Text(ps) && Sees(ps, i, text, j)
    ensures i <= |ps| && Next(ps, i) == Token(text, j) && (text != "" ==> j < |ps|)
  {
    hide NextToken;
  }

  lemma OnceMore(ps: seq<string>, i: nat, acc: seq<Value>, v: Value, j: nat)
    requires Text(ps) && i < |ps| && ParseValue(ps, i) == Ok(v, j)
    ensures j < |ps|
    ensures Next(ps, j).text == "]" ==> ParseArray(ps, i, acc) == Ok(acc + [v], Next(ps, j).next)
    ensures Next(ps, j).text == "," ==>
              Next(ps, j).next < |ps| && ParseArray(ps, i, acc) == ParseArray(ps, Next(ps, j).next, acc + [v])
  {
    NoBracket(ps, i);
    ArrayOnce(ps, i, acc);
    hide NextToken, ParseValue, ParseArray, ErrorAt;
  }

  lemma NothingMeant(ts: seq<Syntax>)
    requires ts == []
    ensures MeaningOfAll(ts) == []
  {
  }

  /** A bracket does not begin a value. */
  lemma NoBracket(ps: seq<string>, i: nat)
    requires Text(ps) && i < |ps| && ParseValue(ps, i).Ok?
    ensures Next(ps, i).text != "]"
  {
    ValueUnfold(ps, i);
    hide NextToken, ParseValue;
  }

  lemma {:induction false} SpelledField(ps: seq<string>, i: nat, f: Field, p: nat)
    requires Text(ps) && i < |ps| && SpellsField(ps, i, f, p)
    ensures Next(ps, i).text == f.key && f.key !in {"", "["}
    ensures ParseAssigned(ps, Next(ps, i).next) == Ok(Meaning(f.value), p)
    decreases f, 0
  {
    hide NextToken, ParseValue, Spells, Meaning, Text, ErrorAt;
    var j, k :| Sees(ps, i, f.key, j) && Sees(ps, j, "=", k) && Spells(ps, k, f.value, p);
    RewindWord(ps, i);
    RewindWord(ps, j);
    SpelledValue(ps, k, f.value, p);
  }

  lemma {:induction false} SpelledFields(
    ps: seq<string>, i: nat, fs: seq<Field>, open: bool, p: nat, acc: Dict)
    requires Text(ps) && i < |ps| && SpellsFields(ps, i, fs, open, p)
    ensures ParseDict(ps, i, false, acc) == Ok(Collected(acc, fs), p)
    decreases fs, 1
  {
    DictUnfold(ps, i, false, acc);
    hide NextToken, ParseValue, ParseAssigned, ParseDict, SpellsField, Meaning, Text, ErrorAt, Insert;
    if fs != [] {
      var j :| SpellsField(ps, i, fs[0], j)
        && if |fs| == 1 && !open then Sees(ps, j, "}", p)
           else exists k :: Sees(ps, j, ",", k) && SpellsFields(ps, k, fs[1..], open, p);
      SpelledField(ps, i, fs[0], j);
      if !(|fs| == 1 && !open) {
        SpelledFields(ps, Next(ps, j).next, fs[1..], open, p, Insert(acc, fs[0].key, Meaning(fs[0].value)));
      }
    }
  }

  lemma {:induction false} SpelledLines(ps: seq<string>, i: nat, fs: seq<Field>, p: nat, acc: Dict)
    requires Text(ps) && i < |ps| && SpellsLines(ps, i, fs, p)
    ensures ParseDict(ps, i, true, acc) == Ok(Collected(acc, fs), p)
    decreases |fs|
  {
    DictUnfold(ps, i, true, acc);
    hide NextToken, ParseValue, ParseAssigned, ParseDict, SpellsField, Meaning, Text, ErrorAt, Insert;
    if fs != [] {
      var j :| SpellsField(ps, i, fs[0], j) && SpellsLines(ps, j, fs[1..], p);
      SpelledField(ps, i, fs[0], j);
      SpelledLines(ps, j, fs[1..], p, Insert(acc, fs[0].key, Meaning(fs[0].value)));
    }
  }

  lemma {:induction false} SpelledSections(ps: seq<string>, i: nat, ss: seq<Section>, acc: Dict)
    requires Text(ps) && i < |ps| && SpellsSections(ps, i, ss)
    ensures ParseSections(ps, i, acc) == Ok(CollectedSections(acc, ss), |ps|)
    decreases |ss|
  {
    hide NextToken, ParseDict, SpellsLines, Collected, ErrorAt, Insert;
    if ss != [] {
      var p :| SpellsSection(ps, i, ss[0], p) && SpellsSections(ps, p, ss[1..]);
      var j, k, n :|
        Sees(ps, i, "[", j) && Sees(ps, j, ss[0].name, k) && Sees(ps, k, "]", n)
        && SpellsLines(ps, n, ss[0].lines, p);
      SpelledLines(ps, n, ss[0].lines, p, []);
      SpelledSections(ps, p, ss[1..], Insert(acc, ss[0].name, Table(Collected([], ss[0].lines))));
    }
  }

  // ---- the language ----

  /** A text spells these sections. */
  ghost predicate Grammatical(content: string, ss: seq<Section>) {
    TextOfContent(content);
    SpellsSections(Pieces.Cut(TOML.tokens, content + "\n"), 0, ss)
  }

  /** A text is read as a configuration exactly when the grammar spells it that way; everything else is
      an error. */
  lemma LanguageExact(content: string, c: Dict)
    ensures Parse(content).Ok? && Parse(content).value == c
       <==> exists ss :: Grammatical(content, ss) && CollectedSections([], ss) == c
  {
    TextOfContent(content);
    hide Pieces.Cut, Text, ParseSections, SpellsSections, CollectedSections;
    var ps := Pieces.Cut(TOML.tokens, content + "\n");
    if Parse(content).Ok? && Parse(content).value == c {
      var ss := SectionsSpelled(ps, 0, []);
      assert Grammatical(content, ss);
    }
    if ss :| Grammatical(content, ss) && CollectedSections([], ss) == c {
      SpelledSections(ps, 0, ss, []);
    }
  }
}
