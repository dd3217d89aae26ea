/** Comments do not matter: a text with a comment at the end of a line is read as the text without it,
    unless the comment stands in a string. */
module TomlComments {
  import opened Pieces
  import opened SingleDelimiters
  import opened Tokenization
  import opened TomlModel
  import opened TomlPrinting

  /** A text with a comment and without: pieces before the comment, in it, and after its line. */
  datatype Splice = Splice(front: seq<string>, comment: seq<string>, back: seq<string>) {
    function With(): seq<string> { front + ["#"] + comment + ["\n"] + back }

    function Without(): seq<string> { front + ["\n"] + back }

    /** The text that ends where the comment begins. */
    function Before(): seq<string> { front + ["\n"] }

    /** The line break after the comment. */
    function End(): nat { |front| + 1 + |comment| }

    predicate Fits() {
      && (forall k :: 0 <= k < |front| ==> front[k] != "")
      && (forall k :: 0 <= k < |comment| ==> comment[k] != "" && comment[k] != "\n")
      && (forall k :: 0 <= k < |back| ==> back[k] != "")
      && (back == [] || back[|back| - 1] == "\n")
    }

    /** The same place in both texts: before the comment, or at the end of its line or after. */
    predicate Matches(i: nat, j: nat) {
      || (i == j && i <= |front|)
      || (End() <= i && j == i - End() + |front|)
    }
  }

  lemma Shape(sp: Splice)
    requires sp.Fits()
    ensures Text(sp.With()) && Text(sp.Without()) && Text(sp.Before())
    ensures |sp.With()| == sp.End() + 1 + |sp.back| && |sp.Without()| == |sp.front| + 1 + |sp.back|
    ensures |sp.Before()| == |sp.front| + 1
    ensures forall k :: 0 <= k < |sp.front| ==>
              sp.With()[k] == sp.front[k] && sp.Without()[k] == sp.front[k] && sp.Before()[k] == sp.front[k]
    ensures sp.With()[|sp.front|] == "#" && sp.With()[sp.End()] == "\n"
    ensures forall k :: |sp.front| <= k < sp.End() ==> sp.With()[k] != "\n"
    ensures sp.Without()[|sp.front|] == "\n" && sp.Before()[|sp.front|] == "\n"
    ensures forall k :: sp.End() <= k < |sp.With()| ==> sp.With()[k] == sp.Without()[k - sp.End() + |sp.front|]
  {
  }

  lemma Sizes(sp: Splice)
    requires sp.Fits()
    ensures Text(sp.With()) && Text(sp.Without()) && Text(sp.Before())
    ensures |sp.With()| == sp.End() + 1 + |sp.back| && |sp.Without()| == |sp.front| + 1 + |sp.back|
    ensures |sp.Before()| == |sp.front| + 1 && |sp.front| < sp.End()
  {
    Shape(sp);
  }

  lemma FrontAt(sp: Splice, i: nat)
    requires sp.Fits() && i < |sp.front|
    ensures i < |sp.With()| && i < |sp.Without()| && i < |sp.Before()|
    ensures sp.With()[i] == sp.Without()[i] == sp.Before()[i] == sp.front[i]
  {
    Shape(sp);
  }

  lemma BackAt(sp: Splice, i: nat, j: nat)
    requires sp.Fits() && sp.End() <= i < |sp.With()| && j == i - sp.End() + |sp.front|
    ensures j < |sp.Without()| && sp.With()[i] == sp.Without()[j]
  {
    Shape(sp);
  }

  // ---- tokens ----

  /** After the comment both texts go on alike. */
  lemma {:induction false} CommentAfter(sp: Splice, i: nat, j: nat)
    requires sp.Fits() && sp.End() <= i < |sp.With()| && sp.Matches(i, j) && j == i - sp.End() + |sp.front|
    ensures j < |sp.Without()|
    ensures AfterComment(sp.With(), i) == AfterComment(sp.Without(), j) - |sp.front| + sp.End()
    decreases |sp.With()| - i
  {
    Shape(sp);
    if sp.With()[i] != "\n" && i + 1 < |sp.With()| {
      CommentAfter(sp, i + 1, j + 1);
    }
  }

  /** A comment before this one ends before it, or on the same line. */
  lemma {:induction false} CommentBefore(sp: Splice, i: nat)
    requires sp.Fits() && i < |sp.front|
    ensures var n := AfterComment(sp.Without(), i);
      && sp.Matches(AfterComment(sp.With(), i), n)
      && (n <= |sp.front| ==> AfterComment(sp.With(), i) == n && AfterComment(sp.Before(), i) == n)
      && (n > |sp.front| ==> n == |sp.front| + 1 && AfterComment(sp.With(), i) == sp.End() + 1
                             && AfterComment(sp.Before(), i) == |sp.front| + 1)
    decreases |sp.front| - i
  {
    Shape(sp);
    if sp.front[i] != "\n" {
      if i + 1 < |sp.front| {
        CommentBefore(sp, i + 1);
      } else {
        CommentEnds(sp.With(), i, sp.End());
        CommentEnds(sp.Without(), i, |sp.front|);
        CommentEnds(sp.Before(), i, |sp.front|);
      }
    }
  }

  predicate Opens(p: string) { p in TOML.comments }

  predicate Skips(p: string) { p in TOML.skips }

  lemma NextStep(ps: seq<string>, i: nat)
    requires Text(ps) && i <= |ps|
    ensures Next(ps, i)
         == if i == |ps| then Token("", i)
            else if Opens(ps[i]) then Next(ps, AfterComment(ps, i))
            else if Skips(ps[i]) then Next(ps, i + 1)
            else Token(ps[i], i + 1)
  {
  }

  lemma Marks()
    ensures Skips("\n") && Opens("#") && !Opens("\n")
  {
    assert TOML.skips[2] == "\n" && TOML.comments[0] == "#";
  }

  /** From these places both texts give the same token, and up to the comment the shorter text does too. */
  predicate Agree(sp: Splice, i: nat, j: nat)
    requires sp.Fits() && i <= |sp.With()| && j <= |sp.Without()|
  {
    var t, u := Next(sp.With(), i), Next(sp.Without(), j);
    && (i < |sp.With()| <==> j < |sp.Without()|)
    && t.text == u.text && sp.Matches(t.next, u.next)
    && (t.text != "" ==> i < t.next && j < u.next && sp.Matches(t.next - 1, u.next - 1))
    && (t.text == "" ==> t.next == |sp.With()| && u.next == |sp.Without()|)
    && (t.next > |sp.front| ==> t.next > sp.End())
    && (t.next <= |sp.front| ==> i <= |sp.front| && i <= |sp.Before()| && Next(sp.Before(), i) == t)
  }

  /** Going on to a later place keeps the agreement. */
  lemma AgreeVia(sp: Splice, i: nat, j: nat, k: nat, l: nat)
    requires sp.Fits() && i < k <= |sp.With()| && j < l <= |sp.Without()| && sp.Matches(k, l) && Agree(sp, k, l)
    requires Next(sp.With(), i) == Next(sp.With(), k) && Next(sp.Without(), j) == Next(sp.Without(), l)
    requires k <= |sp.front| ==> k <= |sp.Before()| && Next(sp.Before(), i) == Next(sp.Before(), k)
    ensures Agree(sp, i, j)
  {
    hide Next, Splice.With, Splice.Without, Splice.Before, Splice.Fits;
  }

  lemma {:induction false} NextMatches(sp: Splice, i: nat, j: nat)
    requires sp.Fits() && i <= |sp.With()| && j <= |sp.Without()| && sp.Matches(i, j)
    ensures Agree(sp, i, j)
    decreases |sp.With()| - i, 1
  {
    Shape(sp);
    if i < |sp.front| {
      InFront(sp, i);
    } else if i == |sp.front| {
      AtComment(sp);
      NextMatches(sp, sp.End() + 1, |sp.front| + 1);
      hide Next, Agree, Splice.With, Splice.Without, Splice.Before, Splice.Fits;
      AgreeVia(sp, i, i, sp.End() + 1, |sp.front| + 1);
    } else {
      InBack(sp, i, j);
    }
  }

  lemma AtComment(sp: Splice)
    requires sp.Fits()
    ensures Next(sp.With(), |sp.front|) == Next(sp.With(), sp.End() + 1)
    ensures Next(sp.Without(), |sp.front|) == Next(sp.Without(), |sp.front| + 1)
    ensures sp.End() + 1 <= |sp.With()| && |sp.front| + 1 <= |sp.Without()|
  {
    Shape(sp);
    Marks();
    hide Next, NextToken, Splice.With, Splice.Without, Splice.Before, Splice.Fits;
    hide Opens, Skips, Text;
    NextStep(sp.With(), |sp.front|);
    NextStep(sp.Without(), |sp.front|);
    CommentEnds(sp.With(), |sp.front|, sp.End());
  }

  lemma {:induction false} InFront(sp: Splice, i: nat)
    requires sp.Fits() && i < |sp.front|
    ensures i < |sp.With()| && i < |sp.Without()| && Agree(sp, i, i)
    decreases |sp.With()| - i, 0
  {
    hide Next, NextToken, AfterComment, Agree, Splice.With, Splice.Without, Splice.Before, Splice.Fits;
    hide Opens, Skips, Text;
    Sizes(sp);
    FrontAt(sp, i);
    NextStep(sp.With(), i);
    NextStep(sp.Without(), i);
    NextStep(sp.Before(), i);
    if Opens(sp.front[i]) {
      CommentBefore(sp, i);
      var k, l := AfterComment(sp.With(), i), AfterComment(sp.Without(), i);
      NextMatches(sp, k, l);
      AgreeVia(sp, i, i, k, l);
    } else if Skips(sp.front[i]) {
      NextMatches(sp, i + 1, i + 1);
      AgreeVia(sp, i, i, i + 1, i + 1);
    } else {
      TokenAgrees(sp, i, i);
    }
  }

  lemma {:induction false} InBack(sp: Splice, i: nat, j: nat)
    requires sp.Fits() && sp.End() <= i <= |sp.With()| && j == i - sp.End() + |sp.front|
    ensures j <= |sp.Without()| && Agree(sp, i, j)
    decreases |sp.With()| - i, 0
  {
    hide Next, NextToken, AfterComment, Agree, Splice.With, Splice.Without, Splice.Before, Splice.Fits;
    hide Opens, Skips, Text;
    Sizes(sp);
    if i < |sp.With()| {
      BackAt(sp, i, j);
    }
    NextStep(sp.With(), i);
    NextStep(sp.Without(), j);
    if i < |sp.With()| && Opens(sp.With()[i]) {
      CommentAfter(sp, i, j);
      var k, l := AfterComment(sp.With(), i), AfterComment(sp.Without(), j);
      NextMatches(sp, k, l);
      AgreeVia(sp, i, j, k, l);
    } else if i < |sp.With()| && Skips(sp.With()[i]) {
      NextMatches(sp, i + 1, j + 1);
      AgreeVia(sp, i, j, i + 1, j + 1);
    } else {
      TokenAgrees(sp, i, j);
    }
  }

  /** A token at both places, or the end of both texts. */
  lemma TokenAgrees(sp: Splice, i: nat, j: nat)
    requires sp.Fits() && i <= |sp.With()| && j <= |sp.Without()| && sp.Matches(i, j)
    requires i != |sp.front| || i >= sp.End()
    requires i == |sp.With()| || (!Opens(sp.With()[i]) && !Skips(sp.With()[i]))
    ensures Agree(sp, i, j)
  {
    Shape(sp);
    NextStep(sp.With(), i);
    NextStep(sp.Without(), j);
    if i < |sp.front| {
      NextStep(sp.Before(), i);
    }
    hide Next, NextToken, Splice.With, Splice.Without, Splice.Before, Splice.Fits, Opens, Skips;
  }

  // ---- strings ----

  predicate Lost<T>(r: Parsed<T>) { r.Err? && r.error.Unterminated? }

  /** Both texts give the same value at matching places, or both an error. */
  predicate Alike<T(==)>(sp: Splice, r: Parsed<T>, s: Parsed<T>) {
    || (r.Ok? && s.Ok? && r.value == s.value && sp.Matches(r.pos, s.pos))
    || (r.Err? && s.Err?)
  }

  lemma StringStep(ps: seq<string>, i: nat, end: char, acc: string)
    requires Text(ps) && i <= |ps| && !Opens([end])
    ensures var r := ParseString(ps, i, end, acc);
      if i == |ps| then Lost(r)
      else if Opens(ps[i]) then r == ParseString(ps, AfterComment(ps, i), end, acc)
      else if ps[i] == [end] then r == Ok(acc, i + 1)
      else r == ParseString(ps, i + 1, end, acc + ps[i])
  {
  }

  /** A string that is closed before the comment is the same in all three texts. */
  lemma {:induction false} StringFront(sp: Splice, i: nat, end: char, acc: string)
    requires sp.Fits() && i <= |sp.front| && !Opens([end]) && end != '\n'
    requires i <= |sp.With()| && i <= |sp.Without()| && i <= |sp.Before()|
    requires !Lost(ParseString(sp.Before(), i, end, acc))
    ensures var r := ParseString(sp.Before(), i, end, acc);
      && r.Ok? && r.pos <= |sp.front|
      && ParseString(sp.With(), i, end, acc) == r && ParseString(sp.Without(), i, end, acc) == r
    decreases |sp.front| - i
  {
    Marks();
    hide ParseString, AfterComment, Splice.With, Splice.Without, Splice.Before, Splice.Fits;
    hide Opens, Skips, Text;
    Sizes(sp);
    StringStep(sp.Before(), i, end, acc);
    if i == |sp.front| {
      LineBreakAt(sp);
      StringStep(sp.Before(), i + 1, end, acc + "\n");
      assert false;
    } else {
      FrontAt(sp, i);
      StringStep(sp.With(), i, end, acc);
      StringStep(sp.Without(), i, end, acc);
      if Opens(sp.front[i]) {
        CommentBefore(sp, i);
        var n := AfterComment(sp.Before(), i);
        if n > |sp.front| {
          StringStep(sp.Before(), n, end, acc);
          assert false;
        } else {
          StringFront(sp, n, end, acc);
        }
      } else if sp.front[i] != [end] {
        StringFront(sp, i + 1, end, acc + sp.front[i]);
      }
    }
  }

  lemma LineBreakAt(sp: Splice)
    requires sp.Fits()
    ensures |sp.front| < |sp.Before()| && sp.Before()[|sp.front|] == "\n"
  {
  }

  lemma {:induction false} StringBack(sp: Splice, i: nat, j: nat, end: char, acc: string)
    requires sp.Fits() && sp.End() <= i <= |sp.With()| && j == i - sp.End() + |sp.front| && !Opens([end])
    requires j <= |sp.Without()|
    ensures Alike(sp, ParseString(sp.With(), i, end, acc), ParseString(sp.Without(), j, end, acc))
    ensures var r := ParseString(sp.With(), i, end, acc); r.Ok? ==> r.pos > sp.End()
    decreases |sp.With()| - i
  {
    hide ParseString, AfterComment, Splice.With, Splice.Without, Splice.Before, Splice.Fits;
    hide Opens, Skips, Text;
    Sizes(sp);
    StringStep(sp.With(), i, end, acc);
    StringStep(sp.Without(), j, end, acc);
    if i < |sp.With()| {
      BackAt(sp, i, j);
      if Opens(sp.With()[i]) {
        CommentAfter(sp, i, j);
        StringBack(sp, AfterComment(sp.With(), i), AfterComment(sp.Without(), j), end, acc);
      } else if sp.With()[i] != [end] {
        StringBack(sp, i + 1, j + 1, end, acc + sp.With()[i]);
      }
    }
  }

  // ---- the parser ----

  /** What parsing from matching places gives: the same in both texts; and what is read before the
      comment, the text that ends there gives too. */
  predicate Follows<T(==)>(sp: Splice, i: nat, with: Parsed<T>, without: Parsed<T>, before: Parsed<T>) {
    && Alike(sp, with, without)
    && (with.Ok? && with.pos <= |sp.front| ==> i <= |sp.front| && before == with)
  }

  /** What the text that ends at the comment gives, if the place is in it. */
  function ValueBefore(sp: Splice, i: nat): Parsed<Value>
    requires sp.Fits()
  {
    Sizes(sp);
    if i <= |sp.front| then ParseValue(sp.Before(), i) else Err(OutOfRange)
  }

  function ArrayBefore(sp: Splice, i: nat, acc: seq<Value>): Parsed<seq<Value>>
    requires sp.Fits()
  {
    Sizes(sp);
    if i <= |sp.front| then ParseArray(sp.Before(), i, acc) else Err(OutOfRange)
  }

  function DictBefore(sp: Splice, i: nat, glob: bool, acc: Dict): Parsed<Dict>
    requires sp.Fits()
  {
    Sizes(sp);
    if i <= |sp.front| then ParseDict(sp.Before(), i, glob, acc) else Err(OutOfRange)
  }

  lemma {:induction false} ValueFollows(sp: Splice, i: nat, j: nat)
    requires sp.Fits() && Text(sp.With()) && Text(sp.Without())
    requires i < |sp.With()| && j < |sp.Without()| && sp.Matches(i, j) && !Lost(ValueBefore(sp, i))
    ensures Follows(sp, i, ParseValue(sp.With(), i), ParseValue(sp.Without(), j), ValueBefore(sp, i))
    decreases |sp.With()| - i, 0
  {
    hide Splice.With, Splice.Without, Splice.Before, Splice.Fits, Splice.End, Opens, Skips, Text;
    hide Next, NextToken, ParseValue,
         ParseArray, ParseDict, ParseString, ParseAssigned, ParseSections, Element, AfterEntry, Insert, StoI, StoF;
    Sizes(sp);
    NextMatches(sp, i, j);
    ValueUnfold(sp.With(), i);
    ValueUnfold(sp.Without(), j);
    if i <= |sp.front| {
      ValueUnfold(sp.Before(), i);
    }
    RewindWord(sp.With(), i);
    RewindWord(sp.Without(), j);
    hide OpeningOf, AtomOf;
    var t, u := Next(sp.With(), i), Next(sp.Without(), j);
    AtomsFollow(sp, t, u);
    match OpeningOf(t.text) {
      case Brace => DictFollows(sp, t.next, u.next, false, []);
      case Bracket => ArrayFollows(sp, t.next, u.next, []);
      case Quote(c) => StringFollows(sp, t.next, u.next, c);
      case Atom =>
    }
  }

  lemma AtomsFollow(sp: Splice, t: Token, u: Token)
    requires t.text == u.text && sp.Matches(t.next, u.next)
    ensures Alike(sp, AtomOf(t), AtomOf(u)) && (AtomOf(t).Ok? ==> AtomOf(t).pos == t.next)
  {
    hide StoI, StoF;
  }

  function StringBefore(sp: Splice, i: nat, end: char): Parsed<string>
    requires sp.Fits()
  {
    Sizes(sp);
    if i <= |sp.front| then ParseString(sp.Before(), i, end, "") else Err(OutOfRange)
  }

  lemma StringFollows(sp: Splice, i: nat, j: nat, end: char)
    requires sp.Fits() && i <= |sp.With()| && j <= |sp.Without()| && sp.Matches(i, j)
    requires (end == '\'' || end == '"') && !Lost(StringBefore(sp, i, end))
    ensures Follows(sp, i, ParseString(sp.With(), i, end, ""), ParseString(sp.Without(), j, end, ""),
                    StringBefore(sp, i, end))
  {
    hide Splice.With, Splice.Without, Splice.Before, Splice.Fits, Opens, ParseString;
    QuotesClose(end);
    Sizes(sp);
    if i <= |sp.front| {
      StringFront(sp, i, end, "");
    } else {
      StringBack(sp, i, j, end, "");
    }
  }

  lemma QuotesClose(c: char)
    requires c == '\'' || c == '"'
    ensures !Opens([c]) && c != '\n'
  {
  }

  function ElementBefore(sp: Splice, i: nat): Parsed<(Value, bool)>
    requires sp.Fits()
  {
    Sizes(sp);
    if i <= |sp.front| then Element(sp.Before(), i) else Err(OutOfRange)
  }

  lemma {:induction false} ElementFollows(sp: Splice, i: nat, j: nat)
    requires sp.Fits() && Text(sp.With()) && Text(sp.Without())
    requires i < |sp.With()| && j < |sp.Without()| && sp.Matches(i, j) && !Lost(ElementBefore(sp, i))
    ensures Follows(sp, i, Element(sp.With(), i), Element(sp.Without(), j), ElementBefore(sp, i))
    decreases |sp.With()| - i, 1
  {
    hide Splice.With, Splice.Without, Splice.Before, Splice.Fits, Splice.End, Opens, Skips, Text;
    hide Next, NextToken, ParseValue,
         ParseArray, ParseDict, ParseString, ParseAssigned, ParseSections, AfterEntry, Insert, StoI, StoF;
    Sizes(sp);
    ValueFollows(sp, i, j);
    var first, second := ParseValue(sp.With(), i), ParseValue(sp.Without(), j);
    if first.Ok? {
      NextMatches(sp, first.pos, second.pos);
    }
    hide Splice.With, Splice.Without, Splice.Before, Splice.Fits, Text, Next, ParseValue;
  }

  lemma {:induction false} ArrayFollows(sp: Splice, i: nat, j: nat, acc: seq<Value>)
    requires sp.Fits() && Text(sp.With()) && Text(sp.Without())
    requires i < |sp.With()| && j < |sp.Without()| && sp.Matches(i, j) && !Lost(ArrayBefore(sp, i, acc))
    ensures Follows(sp, i, ParseArray(sp.With(), i, acc), ParseArray(sp.Without(), j, acc), ArrayBefore(sp, i, acc))
    decreases |sp.With()| - i, 2
  {
    hide Splice.With, Splice.Without, Splice.Before, Splice.Fits, Splice.End, Opens, Skips, Text;
    hide Next, NextToken, ParseValue,
         ParseArray, ParseDict, ParseString, ParseAssigned, ParseSections, Element, AfterEntry, Insert, StoI, StoF;
    Sizes(sp);
    NextMatches(sp, i, j);
    RewindWord(sp.With(), i);
    RewindWord(sp.Without(), j);
    ArrayUnfold(sp.With(), i, acc);
    ArrayUnfold(sp.Without(), j, acc);
    if i <= |sp.front| {
      ArrayUnfold(sp.Before(), i, acc);
    }
    var t, u := Next(sp.With(), i), Next(sp.Without(), j);
    if t.text != "]" {
      ElementFollows(sp, t.next - 1, u.next - 1);
      var first, second := Element(sp.With(), t.next - 1), Element(sp.Without(), u.next - 1);
      if first.Ok? && !first.value.1 {
        ArrayFollows(sp, first.pos, second.pos, acc + [first.value.0]);
      }
    }
  }

  function AssignedBefore(sp: Splice, i: nat): Parsed<Value>
    requires sp.Fits()
  {
    Sizes(sp);
    if i <= |sp.front| then ParseAssigned(sp.Before(), i) else Err(OutOfRange)
  }

  lemma {:induction false} AssignedFollows(sp: Splice, i: nat, j: nat)
    requires sp.Fits() && Text(sp.With()) && Text(sp.Without())
    requires i <= |sp.With()| && j <= |sp.Without()| && sp.Matches(i, j) && !Lost(AssignedBefore(sp, i))
    ensures Follows(sp, i, ParseAssigned(sp.With(), i), ParseAssigned(sp.Without(), j), AssignedBefore(sp, i))
    decreases |sp.With()| - i, 1
  {
    hide Splice.With, Splice.Without, Splice.Before, Splice.Fits, Splice.End, Opens, Skips, Text;
    hide Next, NextToken, ParseValue,
         ParseArray, ParseDict, ParseString, ParseSections, Element, AfterEntry, Insert, StoI, StoF;
    Sizes(sp);
    NextMatches(sp, i, j);
    var t, u := Next(sp.With(), i), Next(sp.Without(), j);
    if t.text == "=" {
      ValueFollows(sp, t.next, u.next);
    }
  }

  function EntryBefore(sp: Splice, glob: bool, acc: Dict, name: string, i: nat): Parsed<Dict>
    requires sp.Fits()
  {
    Sizes(sp);
    if i <= |sp.front| then AfterEntry(sp.Before(), glob, acc, name, ParseAssigned(sp.Before(), i)) else Err(OutOfRange)
  }

  /** The value of a key, and the rest of the dictionary. */
  lemma {:induction false} EntryFollows(sp: Splice, i: nat, j: nat, glob: bool, acc: Dict, name: string)
    requires sp.Fits() && Text(sp.With()) && Text(sp.Without())
    requires i <= |sp.With()| && j <= |sp.Without()| && sp.Matches(i, j) && !Lost(EntryBefore(sp, glob, acc, name, i))
    ensures Follows(sp, i, AfterEntry(sp.With(), glob, acc, name, ParseAssigned(sp.With(), i)),
                    AfterEntry(sp.Without(), glob, acc, name, ParseAssigned(sp.Without(), j)),
                    EntryBefore(sp, glob, acc, name, i))
    decreases |sp.With()| - i, 2
  {
    hide Splice.With, Splice.Without, Splice.Before, Splice.Fits, Splice.End, Opens, Skips, Text;
    hide Next, NextToken, ParseValue,
         ParseArray, ParseDict, ParseString, ParseAssigned, ParseSections, Element, Insert, StoI, StoF;
    Sizes(sp);
    AssignedFollows(sp, i, j);
    var value, value' := ParseAssigned(sp.With(), i), ParseAssigned(sp.Without(), j);
    if value.Ok? {
      var d := Insert(acc, name, value.value);
      NextMatches(sp, value.pos, value'.pos);
      RewindWord(sp.With(), value.pos);
      RewindWord(sp.Without(), value'.pos);
      var x, y := Next(sp.With(), value.pos), Next(sp.Without(), value'.pos);
        if glob {
        DictFollows(sp, value.pos, value'.pos, glob, d);
      } else if x.text == "," {
        DictFollows(sp, x.next, y.next, glob, d);
      }
    }
  }

  lemma {:induction false} DictFollows(sp: Splice, i: nat, j: nat, glob: bool, acc: Dict)
    requires sp.Fits() && Text(sp.With()) && Text(sp.Without())
    requires i < |sp.With()| && j < |sp.Without()| && sp.Matches(i, j) && !Lost(DictBefore(sp, i, glob, acc))
    ensures Follows(sp, i, ParseDict(sp.With(), i, glob, acc), ParseDict(sp.Without(), j, glob, acc),
                    DictBefore(sp, i, glob, acc))
    decreases |sp.With()| - i, 3
  {
    hide Splice.With, Splice.Without, Splice.Before, Splice.Fits, Splice.End, Opens, Skips, Text;
    hide Next, NextToken, ParseValue,
         ParseArray, ParseDict, ParseString, ParseAssigned, ParseSections, Element, AfterEntry, Insert, StoI, StoF;
    Sizes(sp);
    NextMatches(sp, i, j);
    RewindWord(sp.With(), i);
    RewindWord(sp.Without(), j);
    DictUnfold(sp.With(), i, glob, acc);
    DictUnfold(sp.Without(), j, glob, acc);
    if i <= |sp.front| {
      DictUnfold(sp.Before(), i, glob, acc);
    }
    var name, name' := Next(sp.With(), i), Next(sp.Without(), j);
    if name.text != "" && name.text != "[" {
      EntryFollows(sp, name.next, name'.next, glob, acc, name.text);
    }
  }

  function SectionsBefore(sp: Splice, i: nat, acc: Dict): Parsed<Dict>
    requires sp.Fits()
  {
    Sizes(sp);
    if i <= |sp.front| then ParseSections(sp.Before(), i, acc) else Err(OutOfRange)
  }

  lemma {:induction false} SectionsFollow(sp: Splice, i: nat, j: nat, acc: Dict)
    requires sp.Fits() && Text(sp.With()) && Text(sp.Without())
    requires i < |sp.With()| && j < |sp.Without()| && sp.Matches(i, j) && !Lost(SectionsBefore(sp, i, acc))
    ensures Alike(sp, ParseSections(sp.With(), i, acc), ParseSections(sp.Without(), j, acc))
    decreases |sp.With()| - i
  {
    hide Splice.With, Splice.Without, Splice.Before, Splice.Fits, Splice.End, Opens, Skips, Text;
    hide Next, NextToken, ParseValue,
         ParseArray, ParseDict, ParseString, ParseAssigned, Element, AfterEntry, Insert, StoI, StoF;
    Sizes(sp);
    NextMatches(sp, i, j);
    RewindWord(sp.With(), i);
    RewindWord(sp.Without(), j);
    var t, u := Next(sp.With(), i), Next(sp.Without(), j);
    if t.text == "[" {
      NextMatches(sp, t.next, u.next);
      var name, name' := Next(sp.With(), t.next), Next(sp.Without(), u.next);
      NextMatches(sp, name.next, name'.next);
      var close, close' := Next(sp.With(), name.next), Next(sp.Without(), name'.next);
      if close.text == "]" {
        DictFollows(sp, close.next, close'.next, true, []);
        var d, d' := ParseDict(sp.With(), close.next, true, []), ParseDict(sp.Without(), close'.next, true, []);
        if d.Ok? {
          SectionsFollow(sp, d.pos, d'.pos, Insert(acc, name.text, Table(d.value)));
        }
      }
    }
  }

  // ---- texts ----

  /** A comment at the end of a line does not change what a text is read as, unless the text before it
      ends in the middle of a string. */
  lemma CommentIgnored(s: string, t: string, u: string)
    requires '\n' !in t && !Lost(Parse(s))
    ensures var with, without := Parse(s + "#" + t + "\n" + u), Parse(s + "\n" + u);
      && (with.Ok? <==> without.Ok?)
      && (with.Ok? ==> with.value == without.value)
  {
    var sp := Spliced(s, t, u);
    hide Splice.With, Splice.Without, Splice.Before, Splice.Fits, ParseSections, Cut;
    Sizes(sp);
    TextOfContent(s);
    TextOfContent(s + "#" + t + "\n" + u);
    TextOfContent(s + "\n" + u);
    SectionsFollow(sp, 0, 0, []);
  }

  /** The pieces of the three texts. */
  lemma Spliced(s: string, t: string, u: string) returns (sp: Splice)
    requires '\n' !in t
    ensures Solid(D) && sp.Fits()
    ensures Cut(D, s + "#" + t + "\n" + u + "\n") == sp.With()
    ensures Cut(D, s + "\n" + u + "\n") == sp.Without()
    ensures Cut(D, s + "\n") == sp.Before()
  {
    TomlDelimiters();
    sp := Splice(Cut(D, s), Cut(D, t), Cut(D, u) + ["\n"]);
    assert sp.Fits() by {
      NoBreakPieces(t);
      hide Cut;
    }
    hide *;
    CutsWith(s, t, u);
    CutsWithout(s, u);
    CutBack(s);
    Parts(sp);
  }

  lemma Parts(sp: Splice)
    ensures sp.With() == sp.front + ["#"] + (sp.comment + ["\n"] + sp.back)
    ensures sp.Without() == sp.front + ["\n"] + sp.back && sp.Before() == sp.front + ["\n"]
  {
  }

  lemma CutsWith(s: string, t: string, u: string)
    ensures Solid(D)
    ensures Cut(D, s + "#" + t + "\n" + u + "\n")
         == Cut(D, s) + ["#"] + (Cut(D, t) + ["\n"] + (Cut(D, u) + ["\n"]))
  {
    hide *;
    CutBack(u);
    CutLineBreak(t, u + "\n");
    CutComment(s, t + (['\n'] + (u + "\n")));
    Regrouped(s, t, u);
  }

  lemma CutsWithout(s: string, u: string)
    ensures Solid(D) && Cut(D, s + "\n" + u + "\n") == Cut(D, s) + ["\n"] + (Cut(D, u) + ["\n"])
  {
    hide *;
    CutBack(u);
    CutLineBreak(s, u + "\n");
    Regrouped(s, "", u);
  }

  lemma CutBack(u: string)
    ensures Solid(D) && Cut(D, u + "\n") == Cut(D, u) + ["\n"]
  {
    TextOfContent(u);
  }

  lemma CutLineBreak(s: string, rest: string)
    ensures Solid(D) && Cut(D, s + (['\n'] + rest)) == Cut(D, s) + ["\n"] + Cut(D, rest)
  {
    TomlDelimiters();
    hide Cut;
    CutText(D, s, ['\n'] + rest);
    CutChar('\n', rest);
  }

  lemma CutComment(s: string, rest: string)
    ensures Solid(D) && Cut(D, s + (['#'] + rest)) == Cut(D, s) + ["#"] + Cut(D, rest)
  {
    TomlDelimiters();
    hide Cut;
    CutText(D, s, ['#'] + rest);
    CutChar('#', rest);
  }

  lemma Regrouped(s: string, t: string, u: string)
    ensures s + "#" + t + "\n" + u + "\n" == s + (['#'] + (t + (['\n'] + (u + "\n"))))
    ensures s + "\n" + u + "\n" == s + (['\n'] + (u + "\n"))
  {
  }

  lemma NoBreakPieces(t: string)
    requires '\n' !in t
    ensures Solid(D) && forall k :: 0 <= k < |Cut(D, t)| ==> Cut(D, t)[k] != "" && Cut(D, t)[k] != "\n"
  {
    TomlDelimiters();
    hide Cut, Word;
    forall k | 0 <= k < |Cut(D, t)| ensures Cut(D, t)[k] != "" && Cut(D, t)[k] != "\n" {
      PieceKinds(D, t, k);
      assert '\n' in "\n";
    }
  }
}
