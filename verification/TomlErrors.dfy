/** When the line of a parse error is the line of the token it is about. */
module TomlErrors {
  import opened Pieces
  import opened SingleDelimiters
  import opened Tokenization
  import opened TomlModel
  import opened TomlPrinting
  import opened TomlProofs

  /** The line piece i stands in. */
  function LineOf(ps: seq<string>, i: nat): nat
    requires i <= |ps|
  {
    1 + Breaks(Join(ps[..i]))
  }

  lemma JoinLast(ps: seq<string>, i: nat)
    requires 0 < i <= |ps|
    ensures Join(ps[..i]) == Join(ps[..i - 1]) + ps[i - 1]
  {
    assert ps[..i] == ps[..i - 1] + [ps[i - 1]];
    JoinConcat(ps[..i - 1], [ps[i - 1]]);
    assert [ps[i - 1]][1..] == [];
  }

  /** A piece ends a line only if it is the line break. */
  lemma EndsLine(p: string)
    requires p in D || Word(D, p)
    ensures p != "" && (p[|p| - 1] == '\n' <==> p == "\n")
  {
    TomlDelimiters();
    if p in D {
      assert p == [p[0]];
    } else {
      assert IsDelimiter(D, '\n') && !IsDelimiter(D, p[0]);
    }
  }

  lemma {:induction false} BreaksConcat(a: string, b: string)
    ensures Breaks(a + b) == Breaks(a) + Breaks(b)
  {
    if a == "" {
      assert a + b == b;
    } else {
      assert (a + b)[1..] == a[1..] + b;
      BreaksConcat(a[1..], b);
    }
  }

  lemma {:induction false} NoBreaks(s: string)
    requires '\n' !in s
    ensures Breaks(s) == 0
  {
    if s != "" {
      NoBreaks(s[1..]);
    }
  }

  /** Only a line break begins the next line. */
  lemma LineAfter(ps: seq<string>, i: nat)
    requires i < |ps| && (ps[i] in D || Word(D, ps[i]))
    ensures LineOf(ps, i + 1) == LineOf(ps, i) + if ps[i] == "\n" then 1 else 0
  {
    JoinLast(ps, i + 1);
    BreaksConcat(Join(ps[..i]), ps[i]);
    hide Join;
    TomlDelimiters();
    if ps[i] == "\n" {
      assert "\n"[1..] == "";
    } else {
      if ps[i] in D {
        assert ps[i] == [ps[i][0]];
      } else {
        assert IsDelimiter(D, '\n');
      }
      NoBreaks(ps[i]);
    }
  }

  /** The position of a piece in the text. */
  lemma Position(text: string, i: nat)
    requires Solid(D) && i <= |Cut(D, text)|
    ensures var ps, n := Cut(D, text), |Join(Cut(D, text)[..i])|;
      && Join(ps) == text && n <= |text| && text[..n] == Join(ps[..i])
      && (i == 0 <==> n == 0)
      && (i > 0 ==> (text[n - 1] == '\n' <==> ps[i - 1] == "\n"))
  {
    hide Cut, Word;
    var ps := Cut(D, text);
    CutJoins(D, text);
    assert ps == ps[..i] + ps[i..];
    JoinConcat(ps[..i], ps[i..]);
    if i > 0 {
      JoinLast(ps, i);
      PieceKinds(D, text, i - 1) by { TomlDelimiters(); }
      EndsLine(ps[i - 1]);
    }
  }

  /** An error about piece i reports its line exactly when the piece is not the first of a line. About
      the first piece of the text it reports one more than all lines, about the first of another line
      the line before. */
  lemma ErrorLine(content: string, i: nat)
    requires Solid(D) && i <= |Cut(D, content + "\n")|
    ensures var ps := Cut(D, content + "\n");
      && (ErrorAt(ps, i) == ConfigError(LineOf(ps, i)) <==> i > 0 && ps[i - 1] != "\n")
      && (i == 0 ==> ErrorAt(ps, i) == ConfigError(1 + Breaks(content + "\n")))
      && (i > 0 && ps[i - 1] == "\n" ==> ErrorAt(ps, i) == ConfigError(LineOf(ps, i) - 1))
  {
    hide Cut, Line, Breaks, Join;
    var text := content + "\n";
    Position(text, i);
    LineExact(text, |Join(Cut(D, text)[..i])|);
  }

  lemma CutOneChar(c: char, s: string)
    requires IsDelimiter(D, c)
    ensures Solid(D) && Cut(D, [c] + s) == [[c]] + Cut(D, s)
  {
    CutChar(c, s);
  }

  lemma CutBefore(w: string, c: char, s: string)
    requires Word(D, w) && IsDelimiter(D, c)
    ensures Solid(D) && Cut(D, w + ([c] + s)) == [w, [c]] + Cut(D, s)
  {
    TomlDelimiters();
    hide Cut, Word;
    CutWord(D, w, [c] + s);
    CutChar(c, s);
  }

  /** The pieces of a text that is one word. */
  lemma CutSingle(w: string)
    requires Word(D, w)
    ensures Solid(D) && Cut(D, w + "\n") == [w, "\n"]
  {
    TomlDelimiters();
    hide Cut, Word;
    CutEmpty(D);
    CutBefore(w, '\n', "");
    assert ['\n'] + "" == "\n";
  }

  /** A text that is one word: it has one line, the error says 2. */
  lemma FirstLineExample(w: string)
    requires Word(D, w)
    ensures Parse(w) == Err(ConfigError(2))
  {
    hide Cut, NextToken, ErrorAt, Word, Breaks, ParseSections;
    CutSingle(w);
    OneBreak(w);
    ErrorLine(w, 0);
    FirstFails(Cut(D, w + "\n"));
    TextOfContent(w);
  }

  lemma OneBreak(w: string)
    requires Word(D, w)
    ensures Breaks(w + "\n") == 1
  {
    hide Word;
    WordEndsNoLine(w);
    NoBreaks(w);
    BreaksConcat(w, "\n");
    assert "\n"[1..] == "";
  }

  lemma FirstFails(ps: seq<string>)
    requires Text(ps) && Word(D, ps[0])
    ensures ParseSections(ps, 0, []) == Err(ErrorAt(ps, 0))
  {
    hide NextToken, ErrorAt, ParseDict, Word;
    assert Next(ps, 0) == Token(ps[0], 1) && ps[0] !in ["[", "", "#"] by {
      WordVisible(ps[0]);
      NextVisible(ps, 0);
      assert D[0] == "[";
    }
    hide Next;
  }

  lemma WordEndsNoLine(w: string)
    requires Word(D, w)
    ensures '\n' !in w
  {
    TomlDelimiters();
    assert IsDelimiter(D, '\n');
  }

  /** A section, a key, and a word where the equal sign should be. */
  function MissingEqual(a: string, k: string, v: string): string {
    ['['] + (a + ([']'] + (['\n'] + (k + (['\n'] + v)))))
  }

  lemma CutMissingEqual(a: string, k: string, v: string)
    requires Word(D, a) && Word(D, k) && Word(D, v)
    ensures Solid(D)
    ensures Cut(D, MissingEqual(a, k, v) + "\n") == ["[", a, "]", "\n", k, "\n", v, "\n"]
  {
    Marks();
    hide *;
    var last := v + "\n";
    var line := k + (['\n'] + last);
    CutSingle(v);
    CutBefore(k, '\n', last);
    CutOneChar('\n', line);
    CutBefore(a, ']', ['\n'] + line);
    CutOneChar('[', a + ([']'] + (['\n'] + line)));
    Regrouped(a, k, v);
  }

  lemma Marks()
    ensures IsDelimiter(D, '[') && IsDelimiter(D, ']') && IsDelimiter(D, '\n')
  {
    TomlDelimiters();
  }

  lemma Regrouped(a: string, k: string, v: string)
    ensures MissingEqual(a, k, v) + "\n" == ['['] + (a + ([']'] + (['\n'] + (k + (['\n'] + (v + "\n"))))))
  {
  }

  /** Behind a line break: the third word stands in line 3, the error says 2. */
  lemma NextLineExample(a: string, k: string, v: string)
    requires Word(D, a) && Word(D, k) && Word(D, v)
    ensures Parse(MissingEqual(a, k, v)) == Err(ConfigError(2))
  {
    hide *;
    var ps := ["[", a, "]", "\n", k, "\n", v, "\n"];
    CutMissingEqual(a, k, v);
    ErrorLine(MissingEqual(a, k, v), 6);
    ParseOf(MissingEqual(a, k, v), ps);
    ThirdLine(ps, a, k, v);
    DictFails(ps, a, k, v);
    SectionFails(ps, a);
  }

  lemma ParseOf(content: string, ps: seq<string>)
    requires Solid(D) && Cut(D, content + "\n") == ps
    ensures Text(ps) && Parse(content) == ParseSections(ps, 0, [])
  {
    hide ParseSections;
    TextOfContent(content);
  }

  lemma ThirdLine(ps: seq<string>, a: string, k: string, v: string)
    requires Word(D, a) && Word(D, k) && Word(D, v) && ps == ["[", a, "]", "\n", k, "\n", v, "\n"]
    ensures LineOf(ps, 6) == 3
  {
    hide *;
    FirstLineIsOne(ps);
    PassBracket(ps, 0);
    PassWord(ps, 1);
    PassBracket(ps, 2);
    PassBreak(ps, 3);
    PassWord(ps, 4);
    PassBreak(ps, 5);
  }

  lemma FirstLineIsOne(ps: seq<string>)
    ensures LineOf(ps, 0) == 1
  {
    assert ps[..0] == [];
  }

  lemma PassWord(ps: seq<string>, i: nat)
    requires i < |ps| && Word(D, ps[i])
    ensures LineOf(ps, i + 1) == LineOf(ps, i)
  {
    LineAfter(ps, i);
    WordEndsNoLine(ps[i]);
    assert '\n' in "\n";
  }

  lemma PassBracket(ps: seq<string>, i: nat)
    requires i < |ps| && (ps[i] == "[" || ps[i] == "]")
    ensures LineOf(ps, i + 1) == LineOf(ps, i)
  {
    assert D[0] == "[" && D[1] == "]";
    LineAfter(ps, i);
  }

  lemma PassBreak(ps: seq<string>, i: nat)
    requires i < |ps| && ps[i] == "\n"
    ensures LineOf(ps, i + 1) == LineOf(ps, i) + 1
  {
    assert D[9] == "\n";
    LineAfter(ps, i);
  }

  lemma DictFails(ps: seq<string>, a: string, k: string, v: string)
    requires Text(ps) && Word(D, a) && Word(D, k) && Word(D, v)
    requires ps == ["[", a, "]", "\n", k, "\n", v, "\n"]
    ensures ParseDict(ps, 3, true, []) == Err(ErrorAt(ps, 6))
  {
    hide NextToken, ErrorAt, ParseValue, Word;
    Punctuation();
    WordVisible(k);
    WordVisible(v);
    assert D[0] == "[" && D[4] == "=";
    NextSkipped(ps, 3);
    NextVisible(ps, 4);
    NextSkipped(ps, 5);
    NextVisible(ps, 6);
    assert ParseAssigned(ps, 5) == Err(ErrorAt(ps, 6));
  }

  lemma SectionFails(ps: seq<string>, a: string)
    requires Text(ps) && Word(D, a) && |ps| == 8 && ps[0] == "[" && ps[1] == a && ps[2] == "]"
    requires ParseDict(ps, 3, true, []).Err?
    ensures ParseSections(ps, 0, []) == Err(ParseDict(ps, 3, true, []).error)
  {
    hide *;
    ThreeTokens(ps, a);
    SectionError(ps, a);
  }

  lemma ThreeTokens(ps: seq<string>, a: string)
    requires Word(D, a) && |ps| == 8 && ps[0] == "[" && ps[1] == a && ps[2] == "]"
    ensures Next(ps, 0) == Token("[", 1) && Next(ps, 1) == Token(a, 2) && Next(ps, 2) == Token("]", 3)
  {
    hide Word, NextToken;
    Punctuation();
    WordVisible(a);
    hide Visible;
    NextVisible(ps, 0);
    NextVisible(ps, 1);
    NextVisible(ps, 2);
  }

  lemma SectionError(ps: seq<string>, a: string)
    requires Text(ps) && |ps| == 8
    requires Next(ps, 0) == Token("[", 1) && Next(ps, 1) == Token(a, 2) && Next(ps, 2) == Token("]", 3)
    requires ParseDict(ps, 3, true, []).Err?
    ensures ParseSections(ps, 0, []) == Err(ParseDict(ps, 3, true, []).error)
  {
    hide Next, ErrorAt, ParseDict;
  }
}
