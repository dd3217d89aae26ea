/** Cutting when every delimiter is one character, as in all uses the program makes of the tokenizer. */
module SingleDelimiters {
  import opened Pieces

  predicate Singles(ts: seq<string>) {
    forall i :: 0 <= i < |ts| ==> |ts[i]| == 1
  }

  predicate IsDelimiter(ts: seq<string>, c: char) { [c] in ts }

  /** Nothing, or a text that starts with a delimiter. */
  predicate Bounded(ts: seq<string>, s: string) {
    s == "" || IsDelimiter(ts, s[0])
  }

  /** A text without delimiters. */
  predicate Word(ts: seq<string>, w: string) {
    w != "" && forall k :: 0 <= k < |w| ==> !IsDelimiter(ts, w[k])
  }

  lemma HitSingle(ts: seq<string>, s: string)
    requires Singles(ts)
    ensures Hit(ts, s) <==> s != "" && IsDelimiter(ts, s[0])
  {
    if s != "" && IsDelimiter(ts, s[0]) {
      var i :| 0 <= i < |ts| && ts[i] == [s[0]];
      assert Begins(ts[i], s);
    }
    if Hit(ts, s) {
      var i :| 0 <= i < |ts| && Begins(ts[i], s);
      assert ts[i] == [s[0]];
    }
  }

  /** A delimiter is a piece of its own. */
  lemma CutDelimiter(ts: seq<string>, c: char, s: string)
    requires Singles(ts) && IsDelimiter(ts, c)
    ensures Solid(ts) && Cut(ts, [c] + s) == [[c]] + Cut(ts, s)
  {
    var t := [c] + s;
    HitSingle(ts, t);
    CutStep(ts, t);
    assert t[0..] == t && Distance(ts, t) == 0;
    assert t[..1] == [c] && t[1..] == s;
  }

  /** A word before a delimiter is a piece. */
  lemma CutWord(ts: seq<string>, w: string, s: string)
    requires Singles(ts) && Word(ts, w) && Bounded(ts, s)
    ensures Solid(ts) && Cut(ts, w + s) == [w] + Cut(ts, s)
  {
    var t := w + s;
    forall k | 0 <= k < |w| ensures !Hit(ts, t[k..]) {
      HitSingle(ts, t[k..]);
    }
    assert t[|w|..] == s && t[..|w|] == w;
    HitSingle(ts, s);
    assert t[0..] == t;
    assert Distance(ts, t) == |w|;
    CutStep(ts, t);
  }

  /** The length of the longest prefix without delimiters. */
  function Span(ts: seq<string>, s: string): (n: nat)
    ensures n <= |s| && (forall k :: 0 <= k < n ==> !IsDelimiter(ts, s[k]))
    ensures n < |s| ==> IsDelimiter(ts, s[n])
  {
    if s == "" || IsDelimiter(ts, s[0]) then 0 else 1 + Span(ts, s[1..])
  }

  /** Any text can be cut on its own if what follows it starts with a delimiter. */
  lemma {:induction false} CutText(ts: seq<string>, t: string, s: string)
    requires Singles(ts) && Bounded(ts, s)
    ensures Solid(ts) && Cut(ts, t + s) == Cut(ts, t) + Cut(ts, s)
    decreases |t|
  {
    hide Cut;
    if t == "" {
      assert t + s == s && Cut(ts, "") == [] by { CutEmpty(ts); }
    } else if IsDelimiter(ts, t[0]) {
      CutText(ts, t[1..], s);
      CutDelimiter(ts, t[0], t[1..]);
      CutDelimiter(ts, t[0], t[1..] + s);
      assert t == [t[0]] + t[1..] && t + s == [t[0]] + (t[1..] + s);
    } else {
      var n := Span(ts, t);
      var w, u := t[..n], t[n..];
      assert t == w + u && t + s == w + (u + s);
      CutText(ts, u, s);
      CutWord(ts, w, u);
      CutWord(ts, w, u + s);
    }
  }

  lemma CutEmpty(ts: seq<string>)
    requires Solid(ts)
    ensures Cut(ts, "") == []
  {
  }

  /** Every piece is a delimiter or a word. */
  lemma {:induction false} PieceKinds(ts: seq<string>, t: string, k: nat)
    requires Singles(ts) && Solid(ts) && k < |Cut(ts, t)|
    ensures Cut(ts, t)[k] in ts || Word(ts, Cut(ts, t)[k])
    ensures forall j :: 0 <= j < |Cut(ts, t)[k]| ==> Cut(ts, t)[k][j] in t
    decreases |t|
  {
    hide Cut, Word;
    if t == "" {
      CutEmpty(ts);
    } else if IsDelimiter(ts, t[0]) {
      CutDelimiter(ts, t[0], t[1..]);
      assert t == [t[0]] + t[1..];
      if k > 0 {
        PieceKinds(ts, t[1..], k - 1);
      }
    } else {
      var n := Span(ts, t);
      var w, u := t[..n], t[n..];
      assert t == w + u;
      assert Word(ts, w) by { SpanWord(ts, t); }
      CutWord(ts, w, u);
      if k > 0 {
        PieceKinds(ts, u, k - 1);
      }
    }
  }

  lemma SpanWord(ts: seq<string>, t: string)
    requires t != "" && !IsDelimiter(ts, t[0])
    ensures Word(ts, t[..Span(ts, t)])
  {
  }
}
