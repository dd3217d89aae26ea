/** The tokenizer: a cursor over the pieces of a text, with skipped tokens, comments and a stack of
    earlier positions to go back to. */
module Tokenization {
  import opened Pieces

  /** Delimiters, tokens to skip, and tokens that open a comment up to the end of the line. */
  datatype Lexicon = Lexicon(tokens: seq<string>, skips: seq<string>, comments: seq<string>) {
    /** Without these the tokenizer would not terminate. */
    predicate Valid() { Solid(tokens) && "" !in comments }
  }

  /** A token and the position after it, counted in pieces. */
  datatype Token = Token(text: string, next: nat)

  /** The position after the comment opened by piece i. */
  function AfterComment(ps: seq<string>, i: nat): (n: nat)
    requires i < |ps|
    ensures i < n <= |ps|
    decreases |ps| - i
  {
    if ps[i] == "\n" || i + 1 == |ps| then i + 1 else AfterComment(ps, i + 1)
  }

  /** The next token from position i on: comments are passed over, and skipped tokens if asked for. */
  function NextToken(lx: Lexicon, ps: seq<string>, i: nat, skip: bool): (t: Token)
    requires i <= |ps|
    ensures i <= t.next <= |ps|
    ensures t.text != "" ==> i < t.next && t.text == ps[t.next - 1]
    ensures t.text != "" ==> t.text !in lx.comments && (skip ==> t.text !in lx.skips)
    ensures t.text == "" && (forall k :: 0 <= k < |ps| ==> ps[k] != "") ==> t.next == |ps|
    decreases |ps| - i
  {
    if i == |ps| then Token("", i)
    else if ps[i] in lx.comments then NextToken(lx, ps, AfterComment(ps, i), skip)
    else if ps[i] != "" && skip && ps[i] in lx.skips then NextToken(lx, ps, i + 1, skip)
    else Token(ps[i], i + 1)
  }

  lemma {:induction false} CommentEnds(ps: seq<string>, i: nat, j: nat)
    requires i <= j < |ps| && ps[j] == "\n" && forall k :: i <= k < j ==> ps[k] != "\n"
    ensures AfterComment(ps, i) == j + 1
    decreases j - i
  {
    if i < j {
      CommentEnds(ps, i + 1, j);
    }
  }

  lemma {:induction false} CommentNeverEnds(ps: seq<string>, i: nat)
    requires i < |ps| && forall k :: i <= k < |ps| ==> ps[k] != "\n"
    ensures AfterComment(ps, i) == |ps|
    decreases |ps| - i
  {
    if i + 1 < |ps| {
      CommentNeverEnds(ps, i + 1);
    }
  }

  /** A comment covers everything up to the end of its line, the line break included. */
  lemma CommentPassed(lx: Lexicon, ps: seq<string>, i: nat, j: nat, skip: bool)
    requires i <= j < |ps| && ps[i] in lx.comments
    requires ps[j] == "\n" && forall k :: i <= k < j ==> ps[k] != "\n"
    ensures NextToken(lx, ps, i, skip) == NextToken(lx, ps, j + 1, skip)
  {
    CommentEnds(ps, i, j);
  }

  /** On the last line a comment covers the rest of the text. */
  lemma CommentToTheEnd(lx: Lexicon, ps: seq<string>, i: nat, skip: bool)
    requires i < |ps| && ps[i] in lx.comments && forall k :: i <= k < |ps| ==> ps[k] != "\n"
    ensures NextToken(lx, ps, i, skip) == Token("", |ps|)
  {
    CommentNeverEnds(ps, i);
  }

  /** The first line break from piece i on. */
  predicate LineBreak(ps: seq<string>, i: nat, k: nat) {
    i <= k < |ps| && ps[k] == "\n" && forall m :: i <= m < k ==> ps[m] != "\n"
  }

  /** Between i and j there is nothing but comments with their line breaks, and skipped tokens. */
  ghost predicate Gap(lx: Lexicon, ps: seq<string>, i: nat, j: nat, skip: bool)
    requires j <= |ps|
    decreases j - i
  {
    || i == j
    || (i < j
        && if ps[i] in lx.comments then exists k: nat :: LineBreak(ps, i, k) && k < j && Gap(lx, ps, k + 1, j, skip)
           else skip && ps[i] != "" && ps[i] in lx.skips && Gap(lx, ps, i + 1, j, skip))
  }

  predicate Significant(lx: Lexicon, p: string, skip: bool) {
    p != "" && p !in lx.comments && (skip ==> p !in lx.skips)
  }

  /** A piece is the next token exactly when it is significant and only a gap lies before it. */
  lemma {:induction false} NextExact(lx: Lexicon, ps: seq<string>, i: nat, j: nat, skip: bool)
    requires i <= j < |ps| && ps[j] != ""
    ensures NextToken(lx, ps, i, skip) == Token(ps[j], j + 1)
       <==> Significant(lx, ps[j], skip) && Gap(lx, ps, i, j, skip)
    decreases j - i
  {
    if i < j {
      if ps[i] in lx.comments {
        CommentCovers(ps, i);
        var n := AfterComment(ps, i);
        if n <= j {
          NextExact(lx, ps, n, j, skip);
        }
      } else if skip && ps[i] != "" && ps[i] in lx.skips {
        NextExact(lx, ps, i + 1, j, skip);
      }
    }
  }

  /** A comment ends behind the first line break, or with the text. */
  lemma {:induction false} CommentCovers(ps: seq<string>, i: nat)
    requires i < |ps|
    ensures LineBreak(ps, i, AfterComment(ps, i) - 1)
         || (AfterComment(ps, i) == |ps| && forall k :: i <= k < |ps| ==> ps[k] != "\n")
    decreases |ps| - i
  {
    if ps[i] != "\n" && i + 1 < |ps| {
      CommentCovers(ps, i + 1);
    }
  }

  /** Going back one piece and asking again gives the same token and the same position. */
  lemma {:induction false} RewindRepeats(lx: Lexicon, ps: seq<string>, i: nat, skip: bool)
    requires i <= |ps| && NextToken(lx, ps, i, skip).text != ""
    ensures var t := NextToken(lx, ps, i, skip);
            NextToken(lx, ps, t.next - 1, skip) == t
    decreases |ps| - i
  {
    if ps[i] in lx.comments {
      RewindRepeats(lx, ps, AfterComment(ps, i), skip);
    } else if ps[i] != "" && skip && ps[i] in lx.skips {
      RewindRepeats(lx, ps, i + 1, skip);
    }
  }

  /** At the end of a text whose last piece is skipped, going back does not bring anything back. */
  lemma RewindAtEnd(lx: Lexicon, ps: seq<string>)
    requires ps != [] && ps[|ps| - 1] != "" && ps[|ps| - 1] in lx.skips
    ensures NextToken(lx, ps, |ps| - 1, true) == Token("", |ps|)
  {
  }

  /** First position of t in s, or -1. */
  function Find(t: string, s: string): (r: int)
    ensures r == -1 || (0 <= r && r + |t| <= |s|)
    ensures r >= 0 ==> Begins(t, s[r..]) && forall k :: 0 <= k < r ==> !Begins(t, s[k..])
    ensures r < 0 ==> forall k :: 0 <= k <= |s| ==> !Begins(t, s[k..])
  {
    assert s[0..] == s;
    if Begins(t, s) then 0
    else if s == "" then -1
    else
      var r := Find(t, s[1..]);
      assert forall k :: 0 < k <= |s| ==> s[k..] == s[1..][k - 1..];
      if r < 0 then -1 else r + 1
  }

  /** Number of line breaks. */
  function Breaks(s: string): nat {
    if s == "" then 0 else (if s[0] == '\n' then 1 else 0) + Breaks(s[1..])
  }

  lemma {:induction false} BreaksAppend(s: string, c: char)
    ensures Breaks(s + [c]) == Breaks(s) + if c == '\n' then 1 else 0
  {
    if s == "" {
      assert [c][1..] == "" && s + [c] == [c];
    } else {
      BreaksAppend(s[1..], c);
      assert (s + [c])[1..] == s[1..] + [c];
    }
  }

  /** The line number reported at a cursor position. */
  function Line(content: string, cursor: nat): nat {
    var end := if cursor == 0 || cursor - 1 > |content| then |content| else cursor - 1;
    1 + Breaks(content[..end])
  }

  lemma BreaksPrefix(content: string, n: nat)
    requires 0 < n <= |content|
    ensures Breaks(content[..n]) == Breaks(content[..n - 1]) + if content[n - 1] == '\n' then 1 else 0
  {
    assert content[..n] == content[..n - 1] + [content[n - 1]];
    BreaksAppend(content[..n - 1], content[n - 1]);
  }

  /** The reported line is the line of the character at the cursor, unless that character begins a
      line: the first one gets the number of all lines and one more, any other the line before its own. */
  lemma LineExact(content: string, cursor: nat)
    requires content != "" && content[|content| - 1] == '\n' && cursor <= |content|
    ensures Line(content, cursor) == 1 + Breaks(content[..cursor]) <==> cursor > 0 && content[cursor - 1] != '\n'
    ensures cursor == 0 ==> Line(content, cursor) == 1 + Breaks(content) > 1
    ensures cursor > 0 && content[cursor - 1] == '\n' ==> Line(content, cursor) == Breaks(content[..cursor])
  {
    assert content[..0] == "" && content[..|content|] == content && Breaks("") == 0;
    hide Breaks;
    BreaksPrefix(content, if cursor == 0 then |content| else cursor);
  }

  class Tokenizer {
    const lx: Lexicon
    const content: string
    var cursor: nat
    var lastLocs: seq<nat>
    var doSkip: bool

    ghost function Pieces(): seq<string>
      requires lx.Valid()
    {
      Cut(lx.tokens, content)
    }

    /** Number of characters before piece k. */
    ghost function Offset(k: nat): nat
      requires lx.Valid() && k <= |Pieces()|
    {
      |Join(Pieces()[..k])|
    }

    /** How many pieces are behind the cursor. */
    ghost function Position(): nat
      reads this
    {
      |lastLocs|
    }

    /** The stack holds exactly the boundaries of the pieces behind the cursor. */
    ghost predicate Valid()
      reads this
    {
      && lx.Valid()
      && |lastLocs| <= |Pieces()|
      && (forall k :: 0 <= k < |lastLocs| ==> lastLocs[k] == Offset(k))
      && cursor == Offset(|lastLocs|)
    }

    constructor (content: string, lx: Lexicon)
      requires lx.Valid()
      ensures Valid() && Position() == 0 && doSkip
      ensures this.lx == lx && this.content == content + "\n"
    {
      this.lx, this.content := lx, content + "\n";
      cursor, lastLocs, doSkip := 0, [], true;
    }

    /** Search the nearest delimiter, and the longest one there. */
    method Nearest(rest: string) returns (beg: nat, max: nat)
      requires lx.Valid() && rest != ""
      ensures beg <= |rest| && PieceLength(lx.tokens, rest) == if beg == 0 then max else beg
    {
      hide Begins, PieceLength;
      max, beg := 0, |rest|;
      ghost var at := 0;
      for i := 0 to |lx.tokens|
        invariant 0 <= beg <= |rest|
        invariant forall j, k :: 0 <= j < i && 0 <= k < beg ==> !Begins(lx.tokens[j], rest[k..])
        invariant forall j :: 0 <= j < i && Begins(lx.tokens[j], rest[beg..]) ==> |lx.tokens[j]| <= max
        invariant if beg == |rest| then max == 0
                  else at < i && Begins(lx.tokens[at], rest[beg..]) && |lx.tokens[at]| == max
      {
        var it := lx.tokens[i];
        var id := Find(it, rest);
        if id >= 0 {
          if id == beg && |it| > max {
            max, at := |it|, i;
          } else if id < beg {
            beg := id;
            max, at := |it|, i;
          }
        }
      }
      Measure(lx.tokens, rest, beg, max);
    }

    /** Cut off the next piece; "" at the end of the text. */
    method NextPure() returns (x: string)
      requires Valid()
      modifies this`cursor, this`lastLocs
      ensures Valid()
      ensures if old(Position()) == |Pieces()| then x == "" && Position() == old(Position())
              else x == Pieces()[old(Position())] && x != "" && Position() == old(Position()) + 1
    {
      hide PieceLength, Join;
      CutFrom(lx.tokens, content, Position());
      ghost var rest := content[cursor..];
      if cursor == |content| {
        return "";
      }
      CutStep(lx.tokens, rest);
      OffsetStep(Position());
      var beg, max := Nearest(content[cursor..]);
      var lastCursor := cursor;
      lastLocs := lastLocs + [lastCursor];
      if beg == |content| - cursor {
        cursor := |content|;
        x := content[lastCursor..];
      } else if beg == 0 {
        cursor := cursor + max;
        x := content[lastCursor..lastCursor + max];
      } else {
        cursor := cursor + beg;
        x := content[lastCursor..lastCursor + beg];
      }
    }

    /** After the opening token `first` of a comment, pass over the rest of its line. */
    method PassComment(first: string, ghost i: nat)
      requires Valid() && i < |Pieces()| && Position() == i + 1 && first == Pieces()[i]
      modifies this`cursor, this`lastLocs
      ensures Valid() && Position() == AfterComment(Pieces(), i)
    {
      hide MaximalMunch, Join, Cut;
      var x := first;
      while x != "\n" && x != ""
        invariant Valid() && i < Position()
        invariant if x == "" then Position() == |Pieces()| == AfterComment(Pieces(), i)
                  else x == Pieces()[Position() - 1]
                       && AfterComment(Pieces(), Position() - 1) == AfterComment(Pieces(), i)
        decreases |Pieces()| - Position(), if x == "" then 0 else 1
      {
        x := NextPure();
      }
    }

    /** The next token, in the current skip mode. */
    method Next() returns (x: string)
      requires Valid()
      modifies this`cursor, this`lastLocs
      ensures Valid()
      ensures Token(x, Position()) == NextToken(lx, Pieces(), old(Position()), doSkip)
    {
      hide MaximalMunch, Join, Cut, AfterComment;
      while true
        invariant Valid()
        invariant NextToken(lx, Pieces(), Position(), doSkip) == NextToken(lx, Pieces(), old(Position()), doSkip)
        decreases |Pieces()| - Position()
      {
        ghost var i := Position();
        x := NextPure();
        if x in lx.comments {
          PassComment(x, i);
        } else {
          if x == "" || !doSkip || x !in lx.skips {
            return x;
          }
        }
      }
    }

    /** Go back to the start of the last piece. */
    method Rewind()
      requires Valid() && Position() > 0
      modifies this`cursor, this`lastLocs
      ensures Valid() && Position() == old(Position()) - 1
    {
      cursor := lastLocs[|lastLocs| - 1];
      lastLocs := lastLocs[..|lastLocs| - 1];
    }

    method Skip(enable: bool)
      requires Valid()
      modifies this`doSkip
      ensures Valid() && doSkip == enable
    {
      doSkip := enable;
    }

    /** The line the cursor is in. At the very beginning of the text the bound wraps around, and all
        line breaks are counted. */
    method GetLineNumber() returns (nb: nat)
      requires Valid()
      ensures nb == Line(content, cursor)
    {
      nb := 1;
      var end := if cursor == 0 || cursor - 1 > |content| then |content| else cursor - 1;
      for i := 0 to end
        invariant nb == 1 + Breaks(content[..i])
      {
        assert content[..i + 1] == content[..i] + [content[i]];
        BreaksAppend(content[..i], content[i]);
        if content[i] == '\n' {
          nb := nb + 1;
        }
      }
    }

    lemma OffsetStep(k: nat)
      requires lx.Valid() && k < |Pieces()|
      ensures Offset(k + 1) == Offset(k) + |Pieces()[k]|
    {
      var ps := Pieces();
      assert ps[..k + 1] == ps[..k] + [ps[k]];
      JoinConcat(ps[..k], [ps[k]]);
      assert [ps[k]][1..] == [];
    }
  }

  /** What the search loop found is the first piece of the rest. */
  lemma Measure(ts: seq<string>, s: string, beg: nat, max: nat)
    requires Solid(ts) && s != "" && beg <= |s|
    requires forall j, k :: 0 <= j < |ts| && 0 <= k < beg ==> !Begins(ts[j], s[k..])
    requires forall j :: 0 <= j < |ts| && Begins(ts[j], s[beg..]) ==> |ts[j]| <= max
    requires if beg == |s| then max == 0
             else exists j :: 0 <= j < |ts| && Begins(ts[j], s[beg..]) && |ts[j]| == max
    ensures PieceLength(ts, s) == if beg == 0 then max else beg
  {
    assert s[0..] == s;
    if beg < |s| {
      assert Hit(ts, s[beg..]);
    }
    forall k | 0 <= k < beg ensures !Hit(ts, s[k..]) {
    }
    assert Distance(ts, s) == beg;
  }
}
