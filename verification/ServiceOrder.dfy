/** The order in which buyers are served: the queue keeps the order of the opening list through all
    passes, so an earlier buyer is never behind a later one that is short of nothing either. */
module ServiceOrder {
  import opened Sums
  import opened MarketModel
  import opened RoundProofs
  import opened AuctionProofs
  import opened Fairness

  // ---- order ----

  /** The position of r in the list. */
  function Rank(s: seq<Ref>, r: Ref): (k: nat)
    requires r in s
    ensures k < |s| && s[k] == r
  {
    if s[0] == r then 0 else 1 + Rank(s[1..], r)
  }

  /** The list keeps the order of `buyers`. */
  ghost predicate InOrder(buyers: seq<Ref>, q: seq<Ref>) {
    && (forall i :: 0 <= i < |q| ==> q[i] in buyers)
    && forall i, j :: 0 <= i < j < |q| ==> Rank(buyers, q[i]) < Rank(buyers, q[j])
  }

  /** The buyers in the list, those served in this pass first. */
  function Queued(a: Auction): seq<Ref> { a.done + a.todo }

  lemma RankDistinct(s: seq<Ref>, i: nat)
    requires Distinct(s) && i < |s|
    ensures Rank(s, s[i]) == i
  {
    assert s[Rank(s, s[i])] == s[i];
  }

  lemma InOrderWithout(buyers: seq<Ref>, q: seq<Ref>, k: nat)
    requires InOrder(buyers, q) && k < |q|
    ensures InOrder(buyers, q[..k] + q[k + 1..])
  {
    hide Rank;
    var p := q[..k] + q[k + 1..];
    assert forall i :: 0 <= i < |p| ==> p[i] == q[if i < k then i else i + 1];
  }

  /** One step keeps the queue or drops the buyer that was to be served. */
  lemma QueuedStep(window: nat, a: Auction)
    requires Listed(a) && !Over(a)
    ensures Queued(Step(window, a)) == Queued(a)
         || (|a.done| < |Queued(a)|
             && Queued(Step(window, a)) == Queued(a)[..|a.done|] + Queued(a)[|a.done| + 1..])
  {
    var q := Queued(a);
    if a.todo != [] {
      assert q[..|a.done|] == a.done && q[|a.done| + 1..] == a.todo[1..];
      assert a.done + [a.todo[0]] + a.todo[1..] == q;
    }
  }

  /** At every step of an auction the queued buyers stand in the order of the opening list. */
  lemma {:induction false} QueueOrdered(window: nat, vms: seq<Vm>, market: nat, buyers: seq<Ref>, tr: seq<Auction>)
    requires Distinct(buyers) && forall r :: r in buyers ==> Has(vms, r)
    requires Trace(window, tr) && tr[0] == Open(vms, market, buyers)
    ensures InOrder(buyers, Queued(Last(tr)))
  {
    if |tr| > 1 {
      QueueOrdered(window, vms, market, buyers, Front(tr));
      QueuedStep(window, Last(Front(tr)));
      if |Last(Front(tr)).done| < |Queued(Last(Front(tr)))| {
        InOrderWithout(buyers, Queued(Last(Front(tr))), |Last(Front(tr)).done|);
      }
    } else {
      assert Queued(tr[0]) == buyers;
      forall i | 0 <= i < |buyers| ensures Rank(buyers, buyers[i]) == i {
        RankDistinct(buyers, i);
      }
    }
  }

  /** Of two buyers the earlier one is not still waiting when the later one was served. */
  lemma ServedBefore(buyers: seq<Ref>, a: Auction, x: Ref, y: Ref)
    requires InOrder(buyers, Queued(a)) && x in buyers && y in buyers && Rank(buyers, x) < Rank(buyers, y)
    ensures x in a.todo ==> y !in a.done
    ensures y in a.todo && a.todo[0] == y ==> x !in a.todo
  {
    hide Rank;
    var q := Queued(a);
    assert forall i :: 0 <= i < |a.todo| ==> q[|a.done| + i] == a.todo[i];
    assert forall j :: 0 <= j < |a.done| ==> q[j] == a.done[j];
  }

  // ---- two unlimited buyers ----

  /** A failed buyer failed in this pass, for want of cycles in the market. */
  ghost predicate FailedLate(window: nat, vms: seq<Vm>, s: Auction, line: nat, r: Ref)
    requires Has(vms, r) && Has(s.vms, r)
  {
    r in s.fails ==> s.market == 0 && Bought(vms, s, r) == line - window
  }

  /** Where two buyers stand, the first ahead of the second. */
  ghost predicate InTurn(window: nat, vms: seq<Vm>, s: Auction, line: nat, x: Ref, y: Ref)
    requires Has(vms, x) && Has(s.vms, x) && Has(vms, y) && Has(s.vms, y)
  {
    && x in Queue(s) && y in Queue(s)
    && FailedLate(window, vms, s, line, x) && FailedLate(window, vms, s, line, y)
    && (y in s.done ==> x in s.done && Bought(vms, s, x) == line)
  }

  lemma FailsLate(window: nat, vms: seq<Vm>, s: Auction, line: nat, r: Ref)
    requires window > 0 && Listed(s) && !Over(s) && Queue(s)[r] <= 1 && r in Queue(s)
    requires Has(vms, r) && Has(s.vms, r) && OnLine(window, vms, s, line, r) && FailedLate(window, vms, s, line, r)
    requires Serving(s, r) ==> window <= At(s.vms, r).buying && window <= s.vms[r.vm].money
    ensures var t := Step(window, s);
      && Has(t.vms, r) && r in Queue(t)
      && FailedLate(window, vms, t, line + if s.todo == [] then window else 0, r)
  {
    OnePlace(s, r);
    StepOthers(window, s);
    StepQueue(window, s);
  }

  lemma TurnStep(window: nat, vms: seq<Vm>, buyers: seq<Ref>, s: Auction, line: nat, x: Ref, y: Ref)
    requires window > 0 && Listed(s) && !Over(s) && Queue(s)[x] <= 1 && Queue(s)[y] <= 1 && x != y
    requires Has(vms, x) && Has(s.vms, x) && OnLine(window, vms, s, line, x)
    requires Has(vms, y) && Has(s.vms, y) && OnLine(window, vms, s, line, y)
    requires Serving(s, x) ==> window <= At(s.vms, x).buying && window <= s.vms[x.vm].money
    requires Serving(s, y) ==> window <= At(s.vms, y).buying && window <= s.vms[y.vm].money
    requires InOrder(buyers, Queued(s)) && x in buyers && y in buyers && Rank(buyers, x) < Rank(buyers, y)
    requires InTurn(window, vms, s, line, x, y)
    ensures Has(Step(window, s).vms, x) && Has(Step(window, s).vms, y)
    ensures InTurn(window, vms, Step(window, s), line + if s.todo == [] then window else 0, x, y)
  {
    FailsLate(window, vms, s, line, x);
    FailsLate(window, vms, s, line, y);
    ServedBefore(buyers, s, x, y);
    OnePlace(s, x);
    OnePlace(s, y);
    StepOthers(window, s);
    hide InOrder, Rank;
  }

  lemma {:induction false} TraceInTurn(window: nat, vms: seq<Vm>, market: nat, buyers: seq<Ref>,
                                       tr: seq<Auction>, x: Ref, y: Ref)
    requires window > 0 && Distinct(buyers) && forall r :: r in buyers ==> Has(vms, r)
    requires Trace(window, tr) && tr[0] == Open(vms, market, buyers)
    requires x in buyers && y in buyers && Rank(buyers, x) < Rank(buyers, y)
    requires Unlimited(window, tr, x) && Unlimited(window, tr, y)
    ensures Has(Last(tr).vms, x) && Has(Last(tr).vms, y)
    ensures InTurn(window, vms, Last(tr), Line(window, tr), x, y)
    decreases |tr|
  {
    assert tr != [];
    hide *;
    if |tr| > 1 {
      TraceStep(window, tr);
      var front := Front(tr);
      LimitsAt(window, tr, x);
      LimitsAt(window, tr, y);
      TraceInTurn(window, vms, market, buyers, front, x, y);
      TraceOnLine(window, vms, market, buyers, front, x);
      TraceOnLine(window, vms, market, buyers, front, y);
      QueuedOnce(window, vms, market, buyers, front);
      QueueOrdered(window, vms, market, buyers, front);
      RankApart(buyers, x, y);
      TurnStep(window, vms, buyers, Last(front), Line(window, front), x, y);
    } else {
      StartInTurn(window, vms, market, buyers, tr, x, y);
    }
  }

  lemma RankApart(buyers: seq<Ref>, x: Ref, y: Ref)
    requires x in buyers && y in buyers && Rank(buyers, x) < Rank(buyers, y)
    ensures x != y
  {
  }

  lemma TraceStep(window: nat, tr: seq<Auction>)
    requires Trace(window, tr) && |tr| > 1
    ensures 0 < |Front(tr)| < |tr| && Trace(window, Front(tr)) && Front(tr)[0] == tr[0]
    ensures Listed(Last(Front(tr))) && !Over(Last(Front(tr))) && Last(tr) == Step(window, Last(Front(tr)))
    ensures Line(window, tr) == Line(window, Front(tr)) + if Last(Front(tr)).todo == [] then window else 0
  {
    hide Step;
  }

  lemma QueuedOnce(window: nat, vms: seq<Vm>, market: nat, buyers: seq<Ref>, tr: seq<Auction>)
    requires Distinct(buyers) && forall r :: r in buyers ==> Has(vms, r)
    requires Trace(window, tr) && tr[0] == Open(vms, market, buyers)
    ensures forall r :: Queue(Last(tr))[r] <= 1
  {
    TraceInv(window, vms, market, buyers, tr);
  }

  lemma StartInTurn(window: nat, vms: seq<Vm>, market: nat, buyers: seq<Ref>, tr: seq<Auction>, x: Ref, y: Ref)
    requires forall r :: r in buyers ==> Has(vms, r)
    requires |tr| == 1 && tr[0] == Open(vms, market, buyers) && x in buyers && y in buyers
    ensures Has(Last(tr).vms, x) && Has(Last(tr).vms, y)
    ensures InTurn(window, vms, Last(tr), Line(window, tr), x, y)
  {
    assert x in multiset(buyers) && y in multiset(buyers);
  }

  lemma LimitsAt(window: nat, tr: seq<Auction>, r: Ref)
    requires Trace(window, tr) && |tr| > 1 && Unlimited(window, tr, r)
    ensures Unlimited(window, Front(tr), r)
    ensures Serving(Last(Front(tr)), r) ==>
              var s := Last(Front(tr));
              Has(s.vms, r) && window <= At(s.vms, r).buying && window <= s.vms[r.vm].money
  {
    var k := |tr| - 2;
    assert tr[k] == Last(Front(tr));
    forall k | 0 <= k < |Front(tr)| - 1 && Serving(Front(tr)[k], r)
      ensures Has(Front(tr)[k].vms, r) && window <= At(Front(tr)[k].vms, r).buying
              && window <= Front(tr)[k].vms[r.vm].money
    {
      assert Serving(tr[k], r);
    }
  }

  /** At every step, of two buyers that were never short of demand or money the one that stands first in
      the opening list has bought at least as much as the other, and at most one window more. */
  lemma FirstServed(window: nat, vms: seq<Vm>, market: nat, buyers: seq<Ref>, tr: seq<Auction>, x: Ref, y: Ref)
    requires Distinct(buyers) && forall r :: r in buyers ==> Has(vms, r)
    requires Trace(window, tr) && tr[0] == Open(vms, market, buyers)
    requires x in buyers && y in buyers && Rank(buyers, x) < Rank(buyers, y)
    requires Unlimited(window, tr, x) && Unlimited(window, tr, y)
    ensures Has(Last(tr).vms, x) && Has(Last(tr).vms, y)
    ensures Bought(vms, Last(tr), y) <= Bought(vms, Last(tr), x) <= Bought(vms, Last(tr), y) + window
  {
    Fair(window, vms, market, buyers, tr, x, y);
    TraceOnLine(window, vms, market, buyers, tr, x);
    TraceOnLine(window, vms, market, buyers, tr, y);
    if window > 0 {
      TraceInTurn(window, vms, market, buyers, tr, x, y);
      hide Unlimited, Trace, Line, Rank;
    }
  }

  // ---- the opening list ----

  predicate Ahead(x: Ref, y: Ref) { x.vm < y.vm || (x.vm == y.vm && x.cpu < y.cpu) }

  /** The list goes up in the order of the VMs, and within a VM of its vCPUs. */
  predicate Ascending(b: seq<Ref>) {
    forall j, k :: 0 <= j < k < |b| ==> Ahead(b[j], b[k])
  }

  lemma AscendingConcat(a: seq<Ref>, b: seq<Ref>)
    requires Ascending(a) && Ascending(b) && forall x, y :: x in a && y in b ==> Ahead(x, y)
    ensures Ascending(a + b)
  {
    hide Ahead;
    var c := a + b;
    forall j, k | 0 <= j < k < |c| ensures Ahead(c[j], c[k]) {
      assert c[j] == if j < |a| then a[j] else b[j - |a|];
      assert c[k] == if k < |a| then a[k] else b[k - |a|];
      assert j < |a| ==> a[j] in a;
      assert k >= |a| ==> b[k - |a|] in b;
    }
  }

  lemma {:induction false} BiddersOfAscending(m: Machine, vm: Vm, wild: nat, i: nat, n: nat)
    requires m.Valid() && n <= |vm.vcpus|
    requires forall j :: 0 <= j < |vm.vcpus| ==> Measured(vm.vcpus[j])
    ensures Ascending(BiddersOf(m, vm, wild, i, n))
  {
    if n > 0 {
      var earlier := BiddersOf(m, vm, wild, i, n - 1);
      BiddersOfAscending(m, vm, wild, i, n - 1);
      forall x | x in earlier ensures Ahead(x, Ref(i, n - 1)) {
        BiddersOfMember(m, vm, wild, i, n - 1, x);
      }
      AscendingConcat(earlier, [Ref(i, n - 1)]);
    }
  }

  /** The bidders are listed in the order of the VMs, and within a VM in the order of its vCPUs. */
  lemma {:induction false} BiddersAscending(m: Machine, vms: seq<Vm>, wild: nat, n: nat)
    requires m.Valid() && AllMeasured(vms) && n <= |vms|
    ensures Ascending(Bidders(m, vms, wild, n))
  {
    hide Ascending, BiddersOf, Bids;
    if n == 0 {
      NobodyAscending();
    } else {
      var vm := vms[n - 1];
      var earlier, own := Bidders(m, vms, wild, n - 1), BiddersOf(m, vm, wild, n - 1, |vm.vcpus|);
      BiddersAscending(m, vms, wild, n - 1);
      BiddersOfAscending(m, vm, wild, n - 1, |vm.vcpus|);
      forall x, y | x in earlier && y in own ensures Ahead(x, y) {
        BiddersMember(m, vms, wild, n - 1, x);
        BiddersOfMember(m, vm, wild, n - 1, |vm.vcpus|, y);
      }
      AscendingConcat(earlier, own);
    }
  }

  lemma NobodyAscending()
    ensures Ascending([])
  {
  }
}
