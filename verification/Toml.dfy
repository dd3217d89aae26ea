/** The parser, driving a tokenizer, and the printer, filling a text. */
module Toml {
  import opened Decimal
  import opened Floats
  import opened Pieces
  import opened Tokenization
  import opened TomlModel

  /** A returned value, or the exception thrown instead. */
  datatype Outcome<T> = Success(value: T) | Failure(error: Error) {
    predicate IsFailure() { Failure? }

    function PropagateFailure<U>(): Outcome<U>
      requires Failure?
    {
      Failure(error)
    }

    function Extract(): T
      requires Success?
    {
      value
    }
  }

  /** The outcome is the specified one, and the tokenizer stands where the specification says. */
  predicate Meets<T(==)>(r: Outcome<T>, spec: Parsed<T>, pos: nat) {
    match spec
    case Ok(v, p) => r == Success(v) && pos == p
    case Err(e) => r == Failure(e)
  }

  /** A tokenizer over a text of the configuration language, between two values. */
  ghost predicate Ready(tok: Tokenizer)
    reads tok
  {
    tok.lx == TOML && tok.Valid() && Text(tok.Pieces()) && tok.doSkip
  }

  ghost function ToGo(tok: Tokenizer): nat
    requires Ready(tok)
    reads tok
  {
    |tok.Pieces()| - tok.Position()
  }

  lemma LineAt(tok: Tokenizer)
    requires tok.lx == TOML && tok.Valid()
    ensures Line(tok.content, tok.cursor) == Reported(tok.Pieces(), tok.Position())
  {
    hide Cut, Line;
    CutJoins(TOML.tokens, tok.content);
  }

  /** The next token, which can be read again after a rewind. */
  method Take(tok: Tokenizer) returns (x: string)
    requires Ready(tok)
    modifies tok`cursor, tok`lastLocs
    ensures Ready(tok) && Token(x, tok.Position()) == Next(tok.Pieces(), old(tok.Position()))
    ensures old(ToGo(tok)) > 0 ==>
              && old(tok.Position()) < tok.Position()
              && Next(tok.Pieces(), tok.Position() - 1) == Next(tok.Pieces(), old(tok.Position()))
    ensures x != "" ==> ToGo(tok) > 0
  {
    hide Cut, Text;
    if ToGo(tok) > 0 {
      RewindWord(tok.Pieces(), tok.Position());
    }
    hide NextToken;
    x := tok.Next();
  }

  method Back(tok: Tokenizer)
    requires Ready(tok) && tok.Position() > 0
    modifies tok`cursor, tok`lastLocs
    ensures Ready(tok) && tok.Position() == old(tok.Position()) - 1
  {
    hide Cut, Text;
    tok.Rewind();
  }

  method AssertMsg(test: bool, tok: Tokenizer) returns (r: Outcome<()>)
    requires Ready(tok) && tok.Position() > 0
    modifies tok`cursor, tok`lastLocs
    ensures Ready(tok)
    ensures test ==> r == Success(()) && tok.Position() == old(tok.Position())
    ensures !test ==> r == Failure(ErrorAt(tok.Pieces(), old(tok.Position()) - 1))
  {
    hide Cut, Line, Reported, Text;
    if !test {
      tok.Rewind();
      var line := tok.GetLineNumber();
      LineAt(tok);
      return Failure(ConfigError(line));
    }
    return Success(());
  }

  /** The next token, which has to be one of the two. */
  method Expect(tok: Tokenizer, one: string, other: string) returns (r: Outcome<string>)
    requires Ready(tok) && tok.Position() > 0 && one != "" && other != ""
    modifies tok`cursor, tok`lastLocs
    ensures Ready(tok)
    ensures r == (if Next(tok.Pieces(), old(tok.Position())).text in {one, other}
                  then Success(Next(tok.Pieces(), old(tok.Position())).text)
                  else Failure(ErrorAt(tok.Pieces(), Next(tok.Pieces(), old(tok.Position())).next - 1)))
    ensures r.Success? ==> ToGo(tok) > 0 && tok.Position() == Next(tok.Pieces(), old(tok.Position())).next
  {
    hide Cut, NextToken, Text, ErrorAt;
    var next := Take(tok);
    var _ :- AssertMsg(next == one || next == other, tok);
    return Success(next);
  }

  // ---- dictionaries ----

  method ParseSetting(tok: Tokenizer) returns (r: Outcome<Value>)
    requires Ready(tok) && tok.Position() > 0
    modifies tok`cursor, tok`lastLocs, tok`doSkip
    ensures Meets(r, ParseAssigned(tok.Pieces(), old(tok.Position())), tok.Position())
    ensures r.Success? ==> Ready(tok)
    decreases ToGo(tok), 1
  {
    hide Cut, NextToken, Text, ErrorAt, ParseValue;
    var _ :- Expect(tok, "=", "=");
    r := ParseAny(tok);
  }

  method ParseDictionary(tok: Tokenizer, glob: bool) returns (r: Outcome<Dict>)
    requires Ready(tok) && ToGo(tok) > 0
    modifies tok`cursor, tok`lastLocs, tok`doSkip
    ensures Meets(r, ParseDict(tok.Pieces(), old(tok.Position()), glob, []), tok.Position())
    ensures r.Success? ==> Ready(tok)
    decreases ToGo(tok), 1
  {
    hide Cut, NextToken, Text, ErrorAt, Insert, ParseDict, ParseValue, ParseAssigned;
    var dic: Dict := [];
    while true
      invariant Ready(tok) && 0 < ToGo(tok) <= old(ToGo(tok))
      invariant ParseDict(tok.Pieces(), tok.Position(), glob, dic)
             == ParseDict(tok.Pieces(), old(tok.Position()), glob, [])
      decreases ToGo(tok)
    {
      DictUnfold(tok.Pieces(), tok.Position(), glob, dic);
      var name := Take(tok);
      if name == "" || name == "[" {
        Back(tok);
        break;
      }
      var value :- ParseSetting(tok);
      dic := Insert(dic, name, value);
      if !glob {
        var next :- Expect(tok, "}", ",");
        if next == "}" {
          break;
        }
      }
    }
    return Success(dic);
  }

  // ---- arrays ----

  method ParseElement(tok: Tokenizer) returns (r: Outcome<(Value, bool)>)
    requires Ready(tok) && ToGo(tok) > 0
    modifies tok`cursor, tok`lastLocs, tok`doSkip
    ensures Meets(r, Element(tok.Pieces(), old(tok.Position())), tok.Position())
    ensures r.Success? ==> Ready(tok)
    decreases ToGo(tok), 1
  {
    hide Cut, NextToken, Text, ErrorAt, ParseValue;
    var value :- ParseAny(tok);
    var t :- Expect(tok, ",", "]");
    return Success((value, t == "]"));
  }

  method ParseList(tok: Tokenizer) returns (r: Outcome<seq<Value>>)
    requires Ready(tok) && ToGo(tok) > 0
    modifies tok`cursor, tok`lastLocs, tok`doSkip
    ensures Meets(r, ParseArray(tok.Pieces(), old(tok.Position()), []), tok.Position())
    ensures r.Success? ==> Ready(tok)
    decreases ToGo(tok), 2
  {
    hide Cut, NextToken, Text, ErrorAt, ParseArray, ParseValue, Element;
    var arr: seq<Value> := [];
    while true
      invariant Ready(tok) && 0 < ToGo(tok) <= old(ToGo(tok))
      invariant ParseArray(tok.Pieces(), tok.Position(), arr)
             == ParseArray(tok.Pieces(), old(tok.Position()), [])
      decreases ToGo(tok)
    {
      ArrayUnfold(tok.Pieces(), tok.Position(), arr);
      var first := Take(tok);
      if first != "]" {
        Back(tok);
        var element :- ParseElement(tok);
        arr := arr + [element.0];
        if element.1 {
          break;
        }
      } else {
        break;
      }
    }
    return Success(arr);
  }

  // ---- values ----

  method ParseNumber(tok: Tokenizer) returns (r: Outcome<Value>)
    requires Ready(tok) && ToGo(tok) > 0
    modifies tok`cursor, tok`lastLocs
    ensures Ready(tok)
    ensures Meets(r, ParseInt(tok.Pieces(), old(tok.Position())), tok.Position())
  {
    hide Cut, NextToken, Text, ScanInt;
    var x := Take(tok);
    match StoI(x)
    case Ok(n, _) => r := Success(Int(n));
    case Err(e) => r := Failure(e);
  }

  method ParseDecimal(tok: Tokenizer) returns (r: Outcome<Value>)
    requires Ready(tok) && ToGo(tok) > 0
    modifies tok`cursor, tok`lastLocs
    ensures Ready(tok)
    ensures Meets(r, ParseFloat(tok.Pieces(), old(tok.Position())), tok.Position())
  {
    hide Cut, NextToken, Text;
    var x := Take(tok);
    match StoF(x)
    case Ok(y, _) => r := Success(Float(y));
    case Err(e) => r := Failure(e);
  }

  method ParseLiteral(tok: Tokenizer, end: char) returns (r: Outcome<string>)
    requires Ready(tok) && ToGo(tok) > 0
    modifies tok`cursor, tok`lastLocs, tok`doSkip
    ensures Meets(r, ParseString(tok.Pieces(), old(tok.Position()), end, ""), tok.Position())
    ensures r.Success? ==> Ready(tok)
  {
    hide Cut, NextToken, Text, ErrorAt, Reported, Line;
    tok.Skip(false);
    var ss := "";
    while true
      invariant tok.lx == TOML && tok.Valid() && !tok.doSkip
      invariant ParseString(tok.Pieces(), tok.Position(), end, ss)
             == ParseString(tok.Pieces(), old(tok.Position()), end, "")
      decreases |tok.Pieces()| - tok.Position()
    {
      var next := tok.Next();
      if next == "" {
        var line := tok.GetLineNumber();
        LineAt(tok);
        return Failure(Unterminated(line));
      } else if |next| == 1 && next[0] == end {
        break;
      }
      ss := ss + next;
    }
    tok.Skip(true);
    return Success(ss);
  }

  method ParseAny(tok: Tokenizer) returns (r: Outcome<Value>)
    requires Ready(tok) && ToGo(tok) > 0
    modifies tok`cursor, tok`lastLocs, tok`doSkip
    ensures Meets(r, ParseValue(tok.Pieces(), old(tok.Position())), tok.Position())
    ensures r.Success? ==> Ready(tok)
    decreases ToGo(tok), 0
  {
    hide Cut, NextToken, Text, ParseArray, ParseDict, ParseString, ParseInt, ParseFloat;
    var begin := Take(tok);
    if begin == "{" {
      var d :- ParseDictionary(tok, false);
      return Success(Table(d));
    } else if begin == "[" {
      var vs :- ParseList(tok);
      return Success(Arr(vs));
    } else if begin == "'" || begin == "\"" {
      var s :- ParseLiteral(tok, begin[0]);
      return Success(Str(s));
    } else if begin == "false" {
      return Success(Bool(false));
    } else if begin == "true" {
      return Success(Bool(true));
    } else {
      Back(tok);
      if '.' in begin {
        r := ParseDecimal(tok);
      } else {
        r := ParseNumber(tok);
      }
    }
  }

  /** Parse a whole configuration. */
  method ParseConfig(content: string) returns (r: Outcome<Dict>)
    ensures Parse(content).Ok? ==> r == Success(Parse(content).value)
    ensures Parse(content).Err? ==> r == Failure(Parse(content).error)
  {
    hide Cut, NextToken, Text, ErrorAt, ParseDict, Insert;
    TextOfContent(content);
    var tok := new Tokenizer(content, TOML);
    var dic: Dict := [];
    while true
      invariant Ready(tok) && ToGo(tok) > 0
      invariant tok.content == content + "\n"
      invariant ParseSections(tok.Pieces(), tok.Position(), dic) == Parse(content)
      decreases ToGo(tok)
    {
      var next := Take(tok);
      var _ :- AssertMsg(next == "[" || next == "" || next == "#", tok);
      if next == "[" {
        var name := Take(tok);
        var _ :- Expect(tok, "]", "]");
        var entries :- ParseDictionary(tok, true);
        dic := Insert(dic, name, Table(entries));
      } else {
        break;
      }
    }
    return Success(dic);
  }

  // ---- the printer ----

  method DumpElement(v: Value) returns (s: string)
    ensures s == DumpItem(v)
    decreases v, 0
  {
    match v
    case Float(x) => s := FloatText(x);
    case Int(n) => s := IntText(Wrapped(n));
    case Str(t) => s := "\"" + t + "\"";
    case Arr(items) => s := DumpArray(items);
    case Table(entries) => s := DumpDictionary(entries, false, true);
    case Bool(_) => s := "";
  }

  method DumpArray(items: seq<Value>) returns (ss: string)
    ensures ss == DumpItem(Arr(items))
    decreases items, 1
  {
    hide DumpItem, DumpItems;
    ss := "[";
    for it := 0 to |items|
      invariant ss + DumpItems(items[it..], it == 0) == "[" + DumpItems(items, true)
    {
      ItemsSuffix(items, it);
      if it != 0 {
        ss := ss + ", ";
      }
      var s := DumpElement(items[it]);
      ss := ss + s;
    }
    ItemsSuffix(items, |items|);
    ss := ss + "]";
  }

  lemma ItemsSuffix(items: seq<Value>, it: nat)
    requires it <= |items|
    ensures DumpItems(items[it..], it == 0)
         == if it == |items| then ""
            else (if it == 0 then "" else ", ") + DumpItem(items[it]) + DumpItems(items[it + 1..], false)
    ensures DumpItem(Arr(items)) == "[" + DumpItems(items, true) + "]"
  {
    if it < |items| {
      assert items[it..][1..] == items[it + 1..];
    }
  }

  /** The text of an entry with its key. */
  method DumpEntry(e: Entry) returns (s: string)
    ensures s == DumpField(e)
    decreases e, 1
  {
    hide DumpItem;
    if e.value.Bool? {
      s := "";
    } else {
      var item := DumpElement(e.value);
      s := e.key + " = " + item;
    }
  }

  method DumpDictionary(cfg: Dict, isSuper: bool, isGlobal: bool) returns (ss: string)
    ensures ss == if isGlobal then DumpGlobal(cfg, isSuper) else DumpInline(cfg)
    decreases cfg, 2
  {
    hide DumpField, DumpFields, DumpLine, DumpGlobal;
    ss := "";
    if !isGlobal {
      ss := ss + "{";
      for i := 0 to |cfg|
        invariant ss + DumpFields(cfg[i..], i == 0) == "{" + DumpFields(cfg, true)
      {
        FieldsSuffix(cfg, i);
        if i != 0 {
          ss := ss + ", ";
        }
        var s := DumpEntry(cfg[i]);
        ss := ss + s;
      }
      FieldsSuffix(cfg, |cfg|);
      ss := ss + "}";
    } else {
      for i := 0 to |cfg|
        invariant ss + DumpGlobal(cfg[i..], isSuper) == DumpGlobal(cfg, isSuper)
      {
        LinesSuffix(cfg, i, isSuper);
        ghost var before, rest := ss, DumpGlobal(cfg[i + 1..], isSuper);
        var it := cfg[i];
        if it.value.Table? && isSuper {
          ss := ss + "\n[" + it.key + "]\n";
          var s := DumpDictionary(it.value.entries, false, true);
          ss := ss + s;
          Joined(before, "\n[" + it.key + "]\n", s);
        } else {
          if it.value.Table? {
            var s := DumpDictionary(it.value.entries, false, false);
            ss := ss + it.key + " = " + s;
            assert ss == before + (it.key + " = " + s);
            Joined(before, it.key + " = " + s, "\n");
          } else {
            var s := DumpEntry(it);
            ss := ss + s;
            Joined(before, s, "\n");
          }
          ss := ss + "\n";
        }
        assert ss == before + LineText(it, isSuper);
        Joined(before, LineText(it, isSuper), rest);
      }
      LinesSuffix(cfg, |cfg|, isSuper);
    }
  }

  lemma Joined(a: string, b: string, c: string)
    ensures (a + b) + c == a + (b + c)
  {
  }

  lemma FieldsSuffix(es: Dict, i: nat)
    requires i <= |es|
    ensures DumpFields(es[i..], i == 0)
         == if i == |es| then ""
            else (if i == 0 then "" else ", ") + DumpField(es[i]) + DumpFields(es[i + 1..], false)
  {
    hide DumpField;
    if i < |es| {
      assert es[i..][1..] == es[i + 1..];
    }
  }

  /** A line or a section, by what it is made of. */
  function LineText(e: Entry, isSuper: bool): string {
    if !e.value.Table? then DumpField(e) + "\n"
    else if isSuper then "\n[" + e.key + "]\n" + DumpGlobal(e.value.entries, false)
    else e.key + " = " + DumpInline(e.value.entries) + "\n"
  }

  lemma LinesSuffix(es: Dict, i: nat, isSuper: bool)
    requires i <= |es|
    ensures DumpGlobal(es[i..], isSuper)
         == if i == |es| then "" else DumpLine(es[i], isSuper) + DumpGlobal(es[i + 1..], isSuper)
    ensures i < |es| ==>
              DumpLine(es[i], isSuper) == LineText(es[i], isSuper)
  {
    hide DumpInline, DumpItem;
    if i < |es| {
      assert es[i..][1..] == es[i + 1..];
    }
  }
}
