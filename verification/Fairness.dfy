/** Fairness of the auction: buyers that are never short of money or demand keep level to within one
    window at every step. */
module Fairness {
  import opened Sums
  import opened MarketModel
  import opened AuctionProofs

  ghost predicate Follows(window: nat, s: Auction, t: Auction) {
    Listed(s) && !Over(s) && t == Step(window, s)
  }

  /** The successive states of an auction, from any state on. */
  ghost predicate Trace(window: nat, tr: seq<Auction>) {
    tr != [] && (|tr| > 1 ==> Trace(window, Front(tr)) && Follows(window, Last(Front(tr)), Last(tr)))
  }

  /** The auction run to its end is the last state of a trace. */
  lemma {:induction false} RunTrace(window: nat, tr: seq<Auction>) returns (full: seq<Auction>)
    requires Trace(window, tr) && Listed(Last(tr))
    ensures Trace(window, full) && full[0] == tr[0] && Last(full) == RunAuction(window, Last(tr))
    decreases Remaining(Last(tr)), if Last(tr).todo == [] then 1 else 0
  {
    var a := Last(tr);
    if Over(a) {
      full := tr;
    } else {
      StepDecreases(window, a);
      var longer := tr + [Step(window, a)];
      assert Front(longer) == tr;
      full := RunTrace(window, longer);
    }
  }

  predicate Serving(a: Auction, r: Ref) {
    !Over(a) && a.todo != [] && a.todo[0] == r
  }

  /** Whenever the buyer was served in the trace, it wanted and could pay a whole window. */
  ghost predicate Unlimited(window: nat, tr: seq<Auction>, r: Ref) {
    forall k :: 0 <= k < |tr| - 1 && Serving(tr[k], r) ==>
      Has(tr[k].vms, r) && window <= At(tr[k].vms, r).buying && window <= tr[k].vms[r.vm].money
  }

  /** One window for every pass begun in the trace. */
  function Line(window: nat, tr: seq<Auction>): nat {
    if |tr| < 2 then 0
    else Line(window, Front(tr)) + if Last(Front(tr)).todo == [] then window else 0
  }

  function Bought(vms: seq<Vm>, a: Auction, r: Ref): int
    requires Has(vms, r) && Has(a.vms, r)
  {
    At(a.vms, r).alloc - At(vms, r).alloc
  }

  /** Where an unlimited buyer stands with respect to the line. */
  ghost predicate OnLine(window: nat, vms: seq<Vm>, s: Auction, line: nat, r: Ref)
    requires Has(vms, r) && Has(s.vms, r)
  {
    var b := Bought(vms, s, r);
    if r in s.todo then b == line - window
    else if r in s.done then b == line || (s.market == 0 && line - window <= b <= line)
    else line - window <= b <= line && (s.market == 0 || window == 0)
  }

  /** A buyer appears once, either ahead in the pass, behind in it, or among the failed ones. */
  lemma OnePlace(a: Auction, r: Ref)
    requires Queue(a)[r] <= 1
    ensures r in a.todo ==> r !in a.done && r !in a.fails
    ensures r in a.done ==> r !in a.fails
    ensures a.todo != [] && a.todo[0] == r ==> r !in a.todo[1..]
  {
    if a.todo != [] {
      assert a.todo == [a.todo[0]] + a.todo[1..];
    }
  }

  lemma LineOwn(window: nat, vms: seq<Vm>, s: Auction, line: nat, r: Ref)
    requires Listed(s) && Serving(s, r) && Queue(s)[r] <= 1
    requires Has(vms, r) && OnLine(window, vms, s, line, r)
    requires window <= At(s.vms, r).buying && window <= s.vms[r.vm].money
    ensures Has(Step(window, s).vms, r)
    ensures OnLine(window, vms, Step(window, s), line, r)
  {
    OnePlace(s, r);
    StepOthers(window, s);
  }

  lemma LineOther(window: nat, vms: seq<Vm>, s: Auction, line: nat, r: Ref)
    requires Listed(s) && !Over(s) && s.todo != [] && s.todo[0] != r
    requires Has(s.vms, r) && Has(vms, r) && OnLine(window, vms, s, line, r)
    ensures Has(Step(window, s).vms, r)
    ensures OnLine(window, vms, Step(window, s), line, r)
  {
    var t := Step(window, s);
    StepOthers(window, s);
    assert s.todo == [s.todo[0]] + s.todo[1..];
    assert At(t.vms, r) == At(s.vms, r);
    assert r in t.todo <==> r in s.todo;
    assert r in t.done <==> r in s.done;
    assert t.market <= s.market;
  }

  lemma LineStep(window: nat, vms: seq<Vm>, s: Auction, line: nat, r: Ref)
    requires Listed(s) && !Over(s) && Queue(s)[r] <= 1
    requires Has(s.vms, r) && Has(vms, r) && OnLine(window, vms, s, line, r)
    requires Serving(s, r) ==> window <= At(s.vms, r).buying && window <= s.vms[r.vm].money
    ensures Has(Step(window, s).vms, r)
    ensures OnLine(window, vms, Step(window, s), line + if s.todo == [] then window else 0, r)
  {
    if s.todo == [] {
    } else if s.todo[0] == r {
      LineOwn(window, vms, s, line, r);
    } else {
      LineOther(window, vms, s, line, r);
    }
  }

  lemma {:induction false} TraceInv(window: nat, vms: seq<Vm>, market: nat, buyers: seq<Ref>, tr: seq<Auction>)
    requires Distinct(buyers) && forall r :: r in buyers ==> Has(vms, r)
    requires Trace(window, tr) && tr[0] == Open(vms, market, buyers)
    ensures Inv(window, vms, market, buyers, Last(tr))
  {
    OpenInv(window, vms, market, buyers);
    if |tr| > 1 {
      TraceInv(window, vms, market, buyers, Front(tr));
      StepInv(window, vms, market, buyers, Last(Front(tr)));
    }
  }

  lemma {:induction false} TraceOnLine(window: nat, vms: seq<Vm>, market: nat, buyers: seq<Ref>,
                                       tr: seq<Auction>, r: Ref)
    requires Distinct(buyers) && forall r :: r in buyers ==> Has(vms, r)
    requires Trace(window, tr) && tr[0] == Open(vms, market, buyers)
    requires r in buyers && Unlimited(window, tr, r)
    ensures Has(Last(tr).vms, r)
    ensures OnLine(window, vms, Last(tr), Line(window, tr), r)
  {
    if |tr| > 1 {
      var front := Front(tr);
      TraceOnLine(window, vms, market, buyers, front, r);
      TraceInv(window, vms, market, buyers, front);
      LineStep(window, vms, Last(front), Line(window, front), r);
    }
  }

  /** At every step, two buyers that were never short of demand or money have bought amounts that
      differ by at most one window. */
  lemma Fair(window: nat, vms: seq<Vm>, market: nat, buyers: seq<Ref>, tr: seq<Auction>, x: Ref, y: Ref)
    requires Distinct(buyers) && forall r :: r in buyers ==> Has(vms, r)
    requires Trace(window, tr) && tr[0] == Open(vms, market, buyers)
    requires x in buyers && Unlimited(window, tr, x)
    requires y in buyers && Unlimited(window, tr, y)
    ensures var s := Last(tr);
            Has(s.vms, x) && Has(s.vms, y)
            && Bought(vms, s, x) <= Bought(vms, s, y) + window
            && Bought(vms, s, y) <= Bought(vms, s, x) + window
  {
    TraceOnLine(window, vms, market, buyers, tr, x);
    TraceOnLine(window, vms, market, buyers, tr, y);
  }
}
