/** How the tokenizer cuts a text: the reference description of its pieces. */
module Pieces {

  /** The delimiter stands at the beginning of the text. */
  predicate Begins(t: string, s: string) {
    |t| <= |s| && s[..|t|] == t
  }

  /** Some delimiter stands at the beginning of the text. */
  predicate Hit(ts: seq<string>, s: string) {
    exists i :: 0 <= i < |ts| && Begins(ts[i], s)
  }

  /** How far the nearest delimiter is, or the length of the text if there is none. */
  function Distance(ts: seq<string>, s: string): (d: nat)
    ensures d <= |s|
    ensures d < |s| ==> Hit(ts, s[d..])
    ensures forall k :: 0 <= k < d ==> !Hit(ts, s[k..])
  {
    if s == [] then 0
    else if Hit(ts, s) then (assert s[0..] == s; 0)
    else
      var d := Distance(ts, s[1..]);
      assert s[1..][d..] == s[d + 1..];
      assert forall k :: 0 < k < d + 1 ==> s[k..] == s[1..][k - 1..];
      assert s[0..] == s;
      d + 1
  }

  /** Length of the longest delimiter at the beginning of the text, 0 if there is none. */
  function Longest(ts: seq<string>, s: string): (n: nat)
    ensures n <= |s|
    ensures forall i :: 0 <= i < |ts| && Begins(ts[i], s) ==> |ts[i]| <= n
    ensures n > 0 ==> exists i :: 0 <= i < |ts| && Begins(ts[i], s) && |ts[i]| == n
  {
    if ts == [] then 0
    else
      var n := Longest(ts[1..], s);
      assert n > 0 ==> exists i :: 1 <= i < |ts| && Begins(ts[i], s) && |ts[i]| == n by {
        if n > 0 {
          var i :| 0 <= i < |ts[1..]| && Begins(ts[1..][i], s) && |ts[1..][i]| == n;
          assert ts[i + 1] == ts[1..][i];
        }
      }
      assert forall i :: 0 < i < |ts| ==> ts[i] == ts[1..][i - 1];
      if Begins(ts[0], s) && |ts[0]| > n then |ts[0]| else n
  }

  /** The length of the first piece: the longest delimiter here, or everything up to the next one. */
  function PieceLength(ts: seq<string>, s: string): (n: nat)
    ensures n <= |s|
  {
    var d := Distance(ts, s);
    if d == 0 then Longest(ts, s) else d
  }

  /** No delimiter is empty. */
  predicate Solid(ts: seq<string>) {
    forall i :: 0 <= i < |ts| ==> ts[i] != ""
  }

  /** A piece is never empty, unless an empty delimiter wins: the cursor then stays where it is. */
  lemma Advances(ts: seq<string>, s: string)
    requires s != []
    ensures PieceLength(ts, s) > 0 <==>
      (|| (forall i :: 0 <= i < |ts| ==> ts[i] != "")
       || (exists i :: 0 <= i < |ts| && ts[i] != "" && Begins(ts[i], s)))
  {
    assert s[0..] == s;
    if Distance(ts, s) == 0 {
      assert Hit(ts, s);
      var i :| 0 <= i < |ts| && Begins(ts[i], s);
    } else {
      assert !Hit(ts, s[0..]);
      forall i | 0 <= i < |ts| ensures ts[i] != "" {
        assert !Begins(ts[i], s);
      }
    }
  }

  /** All pieces of a text. */
  function Cut(ts: seq<string>, s: string): (ps: seq<string>)
    requires Solid(ts)
    ensures forall k :: 0 <= k < |ps| ==> ps[k] != ""
    decreases |s|
  {
    if s == [] then []
    else
      Advances(ts, s);
      var n := PieceLength(ts, s);
      [s[..n]] + Cut(ts, s[n..])
  }

  /** The text the pieces make up. */
  function Join(ps: seq<string>): string {
    if ps == [] then "" else ps[0] + Join(ps[1..])
  }

  /** A delimiter that no longer one could replace here, or a chunk that stops only where the next
      delimiter starts and in which none starts. */
  ghost predicate MaximalMunch(ts: seq<string>, piece: string, rest: string) {
    || (&& (exists i :: 0 <= i < |ts| && ts[i] == piece)
        && (forall i :: 0 <= i < |ts| && Begins(ts[i], piece + rest) ==> |ts[i]| <= |piece|))
    || (&& (forall k :: 0 <= k < |piece| ==> !Hit(ts, (piece + rest)[k..]))
        && (rest == "" || Hit(ts, rest)))
  }

  lemma CutStep(ts: seq<string>, s: string)
    requires Solid(ts) && s != []
    ensures 0 < PieceLength(ts, s)
    ensures Cut(ts, s) == [s[..PieceLength(ts, s)]] + Cut(ts, s[PieceLength(ts, s)..])
  {
    Advances(ts, s);
  }

  /** The pieces of a text, put together, are the text. */
  lemma {:induction false} CutJoins(ts: seq<string>, s: string)
    requires Solid(ts)
    ensures Join(Cut(ts, s)) == s
    decreases |s|
  {
    hide PieceLength;
    if s != [] {
      CutStep(ts, s);
      CutJoins(ts, s[PieceLength(ts, s)..]);
    }
  }

  /** Every piece is chosen by maximal munch. */
  lemma {:induction false} CutMunches(ts: seq<string>, s: string, k: nat)
    requires Solid(ts) && k < |Cut(ts, s)|
    ensures MaximalMunch(ts, Cut(ts, s)[k], Join(Cut(ts, s)[k + 1..]))
    decreases |s|
  {
    hide PieceLength, MaximalMunch, Join;
    CutStep(ts, s);
    var n := PieceLength(ts, s);
    var tail := Cut(ts, s[n..]);
    assert Cut(ts, s)[k + 1..] == tail[k..];
    if k == 0 {
      FirstPiece(ts, s);
      CutJoins(ts, s[n..]);
      assert tail[0..] == tail;
    } else {
      CutMunches(ts, s[n..], k - 1);
    }
  }

  lemma FirstPiece(ts: seq<string>, s: string)
    requires Solid(ts) && s != []
    ensures var n := PieceLength(ts, s); MaximalMunch(ts, s[..n], s[n..])
  {
    var n := PieceLength(ts, s);
    Advances(ts, s);
    assert s[..n] + s[n..] == s && s[0..] == s;
    if Distance(ts, s) == 0 {
      var i :| 0 <= i < |ts| && Begins(ts[i], s) && |ts[i]| == n;
      assert ts[i] == s[..n];
    }
  }

  /** Maximal munch leaves no choice: the pieces of a text are the only way to cut it like that. */
  lemma {:induction false} CutUnique(ts: seq<string>, ps: seq<string>)
    requires Solid(ts)
    requires forall k :: 0 <= k < |ps| ==> ps[k] != "" && MaximalMunch(ts, ps[k], Join(ps[k + 1..]))
    ensures ps == Cut(ts, Join(ps))
  {
    hide MaximalMunch, PieceLength;
    if ps != [] {
      var tail, s := ps[1..], Join(ps);
      forall k | 0 <= k < |tail| ensures tail[k] != "" && MaximalMunch(ts, tail[k], Join(tail[k + 1..])) {
        assert tail[k] == ps[k + 1] && tail[k + 1..] == ps[k + 2..];
      }
      CutUnique(ts, tail);
      MunchLength(ts, ps[0], Join(tail));
      CutStep(ts, s);
      assert s[|ps[0]|..] == Join(tail) && s[..|ps[0]|] == ps[0];
    }
  }

  lemma MunchLength(ts: seq<string>, piece: string, rest: string)
    requires Solid(ts) && piece != "" && MaximalMunch(ts, piece, rest)
    ensures PieceLength(ts, piece + rest) == |piece|
  {
    var s := piece + rest;
    assert s[0..] == s && s[..|piece|] == piece && s[|piece|..] == rest;
    if Hit(ts, s) {
      assert Distance(ts, s) == 0;
      var i :| 0 <= i < |ts| && ts[i] == piece;
      assert Begins(ts[i], s);
    } else {
      assert forall k :: 0 <= k < |piece| ==> !Hit(ts, s[k..]);
    }
  }

  lemma {:induction false} JoinConcat(a: seq<string>, b: seq<string>)
    ensures Join(a + b) == Join(a) + Join(b)
  {
    if a == [] {
      assert a + b == b;
    } else {
      JoinConcat(a[1..], b);
      assert (a + b)[1..] == a[1..] + b;
      assert Join(a + b) == a[0] + Join(a[1..] + b);
      assert a[0] + (Join(a[1..]) + Join(b)) == (a[0] + Join(a[1..])) + Join(b);
    }
  }

  /** Cutting what follows the first k pieces gives the other pieces. */
  lemma CutFrom(ts: seq<string>, s: string, k: nat)
    requires Solid(ts) && k <= |Cut(ts, s)|
    ensures |Join(Cut(ts, s)[..k])| <= |s|
    ensures Cut(ts, s[|Join(Cut(ts, s)[..k])|..]) == Cut(ts, s)[k..]
  {
    hide MaximalMunch, Join;
    var ps := Cut(ts, s);
    var tail := ps[k..];
    CutJoins(ts, s);
    assert ps == ps[..k] + tail;
    JoinConcat(ps[..k], tail);
    forall j | 0 <= j < |tail| ensures tail[j] != "" && MaximalMunch(ts, tail[j], Join(tail[j + 1..])) {
      CutMunches(ts, s, k + j);
      assert tail[j] == ps[k + j] && tail[j + 1..] == ps[k + j + 1..];
    }
    CutUnique(ts, tail);
    assert s[|Join(ps[..k])|..] == Join(tail);
  }
}
