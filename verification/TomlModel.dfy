/** The configuration language on values: what the parser reads from a text and what the printer
    writes for a configuration. */
module TomlModel {
  import opened Decimal
  import opened Floats
  import opened Pieces
  import opened SingleDelimiters
  import opened Tokenization

  datatype Value =
    | Int(n: int)
    | Float(x: Single)
    | Bool(b: bool)
    | Str(s: string)
    | Arr(items: seq<Value>)
    | Table(entries: seq<Entry>)

  datatype Entry = Entry(key: string, value: Value)

  /** A dictionary is kept in the order of its keys. */
  type Dict = seq<Entry>

  const TOML := Lexicon(
    ["[", "]", "{", "}", "=", ",", "'", "\"", " ", "\n", "\t", "\r", "#"],
    [" ", "\t", "\n", "\r"],
    ["#"])

  predicate Less(a: string, b: string) {
    b != "" && (a == "" || a[0] < b[0] || (a[0] == b[0] && Less(a[1..], b[1..])))
  }

  /** Set a key: a new key goes to its place in the order, an existing one gets the new value. */
  function Insert(d: Dict, key: string, value: Value): Dict {
    if d == [] then [Entry(key, value)]
    else if d[0].key == key then [Entry(key, value)] + d[1..]
    else if Less(key, d[0].key) then [Entry(key, value)] + d
    else [d[0]] + Insert(d[1..], key, value)
  }

  // ---- the printer ----

  /** get<long> goes through int: a number is printed modulo 2^32, in the signed range. */
  function Wrapped(n: int): int { (n + 0x8000_0000) % 0x1_0000_0000 - 0x8000_0000 }

  function Quoted(s: string): string { "\"" + s + "\"" }

  /** An array element; booleans print nothing, and a dictionary prints its global form. */
  function DumpItem(v: Value): string {
    match v
    case Float(x) => FloatText(x)
    case Int(n) => IntText(Wrapped(n))
    case Str(s) => Quoted(s)
    case Arr(items) => "[" + DumpItems(items, true) + "]"
    case Table(entries) => DumpGlobal(entries, false)
    case Bool(_) => ""
  }

  function DumpItems(vs: seq<Value>, first: bool): string {
    if vs == [] then ""
    else (if first then "" else ", ") + DumpItem(vs[0]) + DumpItems(vs[1..], false)
  }

  /** An entry of an inline dictionary; a boolean prints not even its key. */
  function DumpField(e: Entry): string {
    if e.value.Bool? then "" else e.key + " = " + DumpItem(e.value)
  }

  function DumpFields(es: Dict, first: bool): string {
    if es == [] then ""
    else (if first then "" else ", ") + DumpField(es[0]) + DumpFields(es[1..], false)
  }

  function DumpInline(es: Dict): string { "{" + DumpFields(es, true) + "}" }

  /** An entry of the global form: a section, or a line. */
  function DumpLine(e: Entry, isSuper: bool): string {
    match e.value
    case Table(entries) =>
      if isSuper then "\n[" + e.key + "]\n" + DumpGlobal(entries, false)
      else e.key + " = " + DumpInline(entries) + "\n"
    case Bool(_) => "\n"
    case _ => e.key + " = " + DumpItem(e.value) + "\n"
  }

  function DumpGlobal(es: Dict, isSuper: bool): string {
    if es == [] then "" else DumpLine(es[0], isSuper) + DumpGlobal(es[1..], isSuper)
  }

  function Dump(c: Dict): string { DumpGlobal(c, true) }

  // ---- the parser ----

  /** A config_error carries the line, and one of its own stands for a string that does not end; stoi and
      stof throw their own two errors. */
  datatype Error = ConfigError(line: nat) | Unterminated(line: nat) | InvalidArgument | OutOfRange

  datatype Parsed<T> = Ok(value: T, pos: nat) | Err(error: Error)

  /** The pieces of a whole text: it ends with the appended line break. */
  predicate Text(ps: seq<string>) {
    ps != [] && ps[|ps| - 1] == "\n" && forall k :: 0 <= k < |ps| ==> ps[k] != ""
  }

  function Next(ps: seq<string>, i: nat): (t: Token)
    requires i <= |ps|
    ensures i <= t.next <= |ps|
    ensures Text(ps) && t.text != "" ==> i < t.next < |ps|
  {
    LastIsSkipped();
    NextToken(TOML, ps, i, true)
  }

  lemma LastIsSkipped()
    ensures "\n" in TOML.skips
  {
    assert TOML.skips[2] == "\n";
  }

  /** The line reported with the cursor before piece i. */
  function Reported(ps: seq<string>, i: nat): nat
    requires i <= |ps|
  {
    Line(Join(ps), |Join(ps[..i])|)
  }

  function ErrorAt(ps: seq<string>, i: nat): Error
    requires i <= |ps|
  {
    ConfigError(Reported(ps, i))
  }

  /** std::stoi. */
  function StoI(s: string): Parsed<int> {
    match ScanInt(s)
    case NoNumber => Err(InvalidArgument)
    case Number(n) => if -0x8000_0000 <= n < 0x8000_0000 then Ok(n, 0) else Err(OutOfRange)
  }

  function ParseInt(ps: seq<string>, i: nat): Parsed<Value>
    requires i <= |ps|
  {
    var t := Next(ps, i);
    match StoI(t.text)
    case Ok(n, _) => Ok(Int(n), t.next)
    case Err(e) => Err(e)
  }

  /** std::stof. */
  function StoF(s: string): Parsed<Single> {
    match ScanFloat(s)
    case NoFloat => Err(InvalidArgument)
    case Scanned(x) => if InRange(x) then Ok(x, 0) else Err(OutOfRange)
  }

  function ParseFloat(ps: seq<string>, i: nat): Parsed<Value>
    requires i <= |ps|
  {
    var t := Next(ps, i);
    match StoF(t.text)
    case Ok(x, _) => Ok(Float(x), t.next)
    case Err(e) => Err(e)
  }

  /** The pieces up to the closing quote, nothing skipped. */
  function ParseString(ps: seq<string>, i: nat, end: char, acc: string): (r: Parsed<string>)
    requires i <= |ps|
    ensures r.Ok? ==> i < r.pos <= |ps| && ps[r.pos - 1] == [end]
    decreases |ps| - i
  {
    var t := NextToken(TOML, ps, i, false);
    if t.text == "" then Err(Unterminated(Reported(ps, t.next)))
    else if t.text == [end] then Ok(acc, t.next)
    else ParseString(ps, t.next, end, acc + t.text)
  }

  function ParseValue(ps: seq<string>, i: nat): (r: Parsed<Value>)
    requires Text(ps) && i < |ps|
    ensures r.Ok? ==> i < r.pos < |ps|
    decreases |ps| - i, 0
  {
    var t := Next(ps, i);
    if t.text == "{" then
      match ParseDict(ps, t.next, false, [])
      case Ok(d, p) => Ok(Table(d), p)
      case Err(e) => Err(e)
    else if t.text == "[" then
      match ParseArray(ps, t.next, [])
      case Ok(vs, p) => Ok(Arr(vs), p)
      case Err(e) => Err(e)
    else if t.text == "'" || t.text == "\"" then
      match ParseString(ps, t.next, t.text[0], "")
      case Ok(s, p) => Ok(Str(s), p)
      case Err(e) => Err(e)
    else if t.text == "false" then Ok(Bool(false), t.next)
    else if t.text == "true" then Ok(Bool(true), t.next)
    else
      RewindWord(ps, i);
      if '.' in t.text then ParseFloat(ps, t.next - 1) else ParseInt(ps, t.next - 1)
  }

  function ParseArray(ps: seq<string>, i: nat, acc: seq<Value>): (r: Parsed<seq<Value>>)
    requires Text(ps) && i < |ps|
    ensures r.Ok? ==> i < r.pos < |ps|
    decreases |ps| - i, 1
  {
    var t := Next(ps, i);
    if t.text == "]" then Ok(acc, t.next)
    else
      match ParseValue(ps, t.next - 1)
      case Err(e) => Err(e)
      case Ok(v, p) =>
        var u := Next(ps, p);
        if u.text == "]" then Ok(acc + [v], u.next)
        else if u.text == "," then ParseArray(ps, u.next, acc + [v])
        else Err(ErrorAt(ps, u.next - 1))
  }

  function ParseDict(ps: seq<string>, i: nat, glob: bool, acc: Dict): (r: Parsed<Dict>)
    requires Text(ps) && i < |ps|
    ensures r.Ok? ==> i <= r.pos < |ps|
    decreases |ps| - i, 1
  {
    hide NextToken, Insert;
    RewindWord(ps, i);
    var name := Next(ps, i);
    if name.text == "" || name.text == "[" then Ok(acc, name.next - 1)
    else
      match ParseAssigned(ps, name.next)
      case Err(e) => Err(e)
      case Ok(v, p) =>
        var d := Insert(acc, name.text, v);
        if glob then ParseDict(ps, p, glob, d)
        else
          var u := Next(ps, p);
          if u.text == "}" then Ok(d, u.next)
          else if u.text == "," then ParseDict(ps, u.next, glob, d)
          else Err(ErrorAt(ps, u.next - 1))
  }

  /** The equal sign and the value of an entry. */
  function ParseAssigned(ps: seq<string>, i: nat): (r: Parsed<Value>)
    requires Text(ps) && i <= |ps|
    ensures r.Ok? ==> i < r.pos < |ps|
    decreases |ps| - i, 1
  {
    hide NextToken;
    var eq := Next(ps, i);
    if eq.text != "=" then Err(ErrorAt(ps, eq.next - 1))
    else ParseValue(ps, eq.next)
  }

  /** A word that is read again after a rewind is the same word; at the end of the text nothing is. */
  lemma RewindWord(ps: seq<string>, i: nat)
    requires Text(ps) && i < |ps|
    ensures var t := Next(ps, i);
      && t.next > i
      && Next(ps, t.next - 1) == t
      && (t.text != "" ==> t.next < |ps|)
      && (t.text == "" ==> t.next == |ps| && '.' !in t.text)
  {
    var t := Next(ps, i);
    if t.text == "" {
      RewindAtEnd(TOML, ps);
    } else {
      RewindRepeats(TOML, ps, i, true);
      assert t.text != "\n";
    }
  }

  function ParseSections(ps: seq<string>, i: nat, acc: Dict): Parsed<Dict>
    requires Text(ps) && i < |ps|
    decreases |ps| - i
  {
    var t := Next(ps, i);
    if t.text == "" || t.text == "#" then Ok(acc, t.next)
    else if t.text != "[" then Err(ErrorAt(ps, t.next - 1))
    else
      var name := Next(ps, t.next);
      var close := Next(ps, name.next);
      if close.text != "]" then Err(ErrorAt(ps, close.next - 1))
      else
        match ParseDict(ps, close.next, true, [])
        case Err(e) => Err(e)
        case Ok(d, p) => ParseSections(ps, p, Insert(acc, name.text, Table(d)))
  }

  // ---- the parser, one step at a time ----

  /** What is left to read of a dictionary once the value of its next key is known. */
  function AfterEntry(ps: seq<string>, glob: bool, acc: Dict, name: string, value: Parsed<Value>): Parsed<Dict>
    requires Text(ps) && (value.Ok? ==> value.pos < |ps|)
  {
    match value
    case Err(e) => Err(e)
    case Ok(v, p) =>
      var d := Insert(acc, name, v);
      if glob then ParseDict(ps, p, glob, d)
      else
        var u := Next(ps, p);
        if u.text == "}" then Ok(d, u.next)
        else if u.text == "," then ParseDict(ps, u.next, glob, d)
        else Err(ErrorAt(ps, u.next - 1))
  }

  lemma DictUnfold(ps: seq<string>, i: nat, glob: bool, acc: Dict)
    requires Text(ps) && i < |ps|
    ensures Next(ps, i).text in {"", "["} ==> ParseDict(ps, i, glob, acc) == Ok(acc, Next(ps, i).next - 1)
    ensures Next(ps, i).text !in {"", "["} ==>
              ParseDict(ps, i, glob, acc)
              == AfterEntry(ps, glob, acc, Next(ps, i).text, ParseAssigned(ps, Next(ps, i).next))
  {
    hide NextToken, ErrorAt, Insert;
  }

  /** An element, and whether the bracket closes after it. */
  function Element(ps: seq<string>, i: nat): (r: Parsed<(Value, bool)>)
    requires Text(ps) && i < |ps|
    ensures r.Ok? ==> i < r.pos < |ps|
  {
    match ParseValue(ps, i)
    case Err(e) => Err(e)
    case Ok(v, p) =>
      var u := Next(ps, p);
      if u.text == "]" then Ok((v, true), u.next)
      else if u.text == "," then Ok((v, false), u.next)
      else Err(ErrorAt(ps, u.next - 1))
  }

  /** What is left to read of an array once its next element is known. */
  function AfterElement(ps: seq<string>, acc: seq<Value>, first: Parsed<(Value, bool)>): Parsed<seq<Value>>
    requires Text(ps) && (first.Ok? ==> first.pos < |ps|)
  {
    match first
    case Err(e) => Err(e)
    case Ok((v, true), p) => Ok(acc + [v], p)
    case Ok((v, false), p) => ParseArray(ps, p, acc + [v])
  }

  lemma ArrayUnfold(ps: seq<string>, i: nat, acc: seq<Value>)
    requires Text(ps) && i < |ps|
    ensures Next(ps, i).text == "]" ==> ParseArray(ps, i, acc) == Ok(acc, Next(ps, i).next)
    ensures Next(ps, i).text != "]" ==>
              ParseArray(ps, i, acc) == AfterElement(ps, acc, Element(ps, Next(ps, i).next - 1))
  {
    hide NextToken, ErrorAt;
  }

  function TableOf(r: Parsed<Dict>): Parsed<Value> {
    match r
    case Ok(d, p) => Ok(Table(d), p)
    case Err(e) => Err(e)
  }

  function ArrOf(r: Parsed<seq<Value>>): Parsed<Value> {
    match r
    case Ok(vs, p) => Ok(Arr(vs), p)
    case Err(e) => Err(e)
  }

  function StrOf(r: Parsed<string>): Parsed<Value> {
    match r
    case Ok(s, p) => Ok(Str(s), p)
    case Err(e) => Err(e)
  }

  /** A value that is one token. */
  function AtomOf(t: Token): Parsed<Value> {
    if t.text == "false" then Ok(Bool(false), t.next)
    else if t.text == "true" then Ok(Bool(true), t.next)
    else if '.' in t.text then
      match StoF(t.text)
      case Ok(x, _) => Ok(Float(x), t.next)
      case Err(e) => Err(e)
    else
      match StoI(t.text)
      case Ok(n, _) => Ok(Int(n), t.next)
      case Err(e) => Err(e)
  }

  datatype Opening = Brace | Bracket | Quote(c: char) | Atom

  /** What a value begins with. */
  function OpeningOf(p: string): Opening {
    if p == "{" then Brace
    else if p == "[" then Bracket
    else if p == "'" || p == "\"" then Quote(p[0])
    else Atom
  }

  lemma ValueUnfold(ps: seq<string>, i: nat)
    requires Text(ps) && i < |ps|
    ensures
      ParseValue(ps, i)
      == match OpeningOf(Next(ps, i).text)
         case Brace => TableOf(ParseDict(ps, Next(ps, i).next, false, []))
         case Bracket => ArrOf(ParseArray(ps, Next(ps, i).next, []))
         case Quote(c) => StrOf(ParseString(ps, Next(ps, i).next, c, ""))
         case Atom => AtomOf(Next(ps, i))
    ensures OpeningOf(Next(ps, i).text) != Atom ==> Next(ps, i).next < |ps|
    ensures forall c :: OpeningOf(Next(ps, i).text) == Quote(c) ==> c == '\'' || c == '"'
  {
    hide NextToken, ParseArray, ParseDict, ParseString, StoI, StoF;
    RewindWord(ps, i);
  }

  lemma TextOfContent(content: string)
    ensures TOML.Valid() && Text(Cut(TOML.tokens, content + "\n"))
    ensures Cut(TOML.tokens, content + "\n") == Cut(TOML.tokens, content) + ["\n"]
  {
    TomlDelimiters();
    hide Cut;
    CutText(TOML.tokens, content, "\n");
    CutDelimiter(TOML.tokens, '\n', "");
    CutEmpty(TOML.tokens);
    assert ['\n'] + "" == "\n";
  }

  /** The delimiters are single characters. */
  lemma TomlDelimiters()
    ensures Singles(TOML.tokens) && Solid(TOML.tokens)
    ensures forall c :: IsDelimiter(TOML.tokens, c) <==>
              c in {'[', ']', '{', '}', '=', ',', '\'', '"', ' ', '\n', '\t', '\r', '#'}
  {
    forall c
      ensures IsDelimiter(TOML.tokens, c) <==>
              c in {'[', ']', '{', '}', '=', ',', '\'', '"', ' ', '\n', '\t', '\r', '#'}
    {
      var ts := TOML.tokens;
      assert ts[0] == ['['] && ts[1] == [']'] && ts[2] == ['{'] && ts[3] == ['}'] && ts[4] == ['='];
      assert ts[5] == [','] && ts[6] == ['\''] && ts[7] == ['"'] && ts[8] == [' '] && ts[9] == ['\n'];
      assert ts[10] == ['\t'] && ts[11] == ['\r'] && ts[12] == ['#'];
    }
  }

  function Parse(content: string): Parsed<Dict> {
    TextOfContent(content);
    ParseSections(Cut(TOML.tokens, content + "\n"), 0, [])
  }
}
