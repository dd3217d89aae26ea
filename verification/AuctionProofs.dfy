/** The auction: it terminates, conserves cycles and money, and leaves no buyer unserved without reason. */
module AuctionProofs {
  import opened Sums
  import opened VcpuModel
  import opened MarketModel

  // ---- lists without repetition ----

  lemma {:induction false} DistinctCount(s: seq<Ref>, r: Ref)
    requires Distinct(s)
    ensures multiset(s)[r] <= 1
  {
    if s != [] {
      assert s == [s[0]] + s[1..];
      DistinctCount(s[1..], r);
      if s[0] == r {
        assert r !in s[1..];
      }
    }
  }

  lemma CountDistinct(s: seq<Ref>)
    requires forall r :: multiset(s)[r] <= 1
    ensures Distinct(s)
  {
    forall i, j | 0 <= i < j < |s| ensures s[i] != s[j] {
      assert s == s[..j] + [s[j]] + s[j + 1..];
      assert s[..j][i] == s[i];
      assert s[i] in multiset(s[..j]);
      assert multiset(s)[s[j]] <= 1;
    }
  }

  // ---- one change to the books ----

  lemma PutTotals(vms: seq<Vm>, r: Ref, money: nat, v: Vcpu)
    requires Has(vms, r)
    ensures var w := Put(vms, r, money, v);
            && TotalAllocation(w) + At(vms, r).alloc == TotalAllocation(vms) + v.alloc
            && TotalWant(w) + At(vms, r).buying == TotalWant(vms) + v.buying
            && VmAllocation()(w[r.vm]) + At(vms, r).alloc == VmAllocation()(vms[r.vm]) + v.alloc
  {
    var vm := vms[r.vm];
    var vm' := Vm(money, vm.vcpus[r.cpu := v]);
    SumByUpdate(vm.vcpus, r.cpu, v, Allocation());
    SumByUpdate(vm.vcpus, r.cpu, v, Want());
    SumByUpdate(vms, r.vm, vm', VmAllocation());
    SumByUpdate(vms, r.vm, vm', VmWant());
  }

  // ---- termination ----

  /** Everything still wanted, plus the number of queued buyers. */
  function Remaining(a: Auction): nat {
    TotalWant(a.vms) + |a.done| + |a.todo|
  }

  lemma BuyTotals(vms: seq<Vm>, r: Ref, cycles: nat)
    requires Has(vms, r) && cycles <= vms[r.vm].money && cycles <= At(vms, r).buying
    ensures SameShape(vms, Buy(vms, r, cycles))
    ensures TotalAllocation(Buy(vms, r, cycles)) == TotalAllocation(vms) + cycles
    ensures TotalWant(Buy(vms, r, cycles)) == TotalWant(vms) - cycles
    ensures VmAllocation()(Buy(vms, r, cycles)[r.vm]) == VmAllocation()(vms[r.vm]) + cycles
  {
    var v := At(vms, r);
    PutTotals(vms, r, vms[r.vm].money - cycles, v.(alloc := v.alloc + cycles, buying := v.buying - cycles));
  }

  lemma StepDecreases(window: nat, a: Auction)
    requires !Over(a) && Listed(a)
    ensures Listed(Step(window, a)) && SameShape(a.vms, Step(window, a).vms)
    ensures a.todo != [] ==> Remaining(Step(window, a)) < Remaining(a)
    ensures a.todo == [] ==> Remaining(Step(window, a)) == Remaining(a) && Step(window, a).todo != []
  {
    if a.todo != [] {
      var r := a.todo[0];
      var cycles := Affordable(window, a, r);
      if At(a.vms, r).buying != 0 && cycles != 0 {
        BuyTotals(a.vms, r, cycles);
        ShapeKeepsListed(a, Step(window, a));
      }
    }
  }

  lemma ShapeKeepsListed(a: Auction, b: Auction)
    requires Listed(a) && SameShape(a.vms, b.vms)
    requires forall r :: r in b.done || r in b.todo || r in b.fails ==> r in a.done || r in a.todo || r in a.fails
    ensures Listed(b)
  {
    forall r | r in b.done || r in b.todo || r in b.fails ensures Has(b.vms, r) {
      assert Has(a.vms, r);
    }
  }

  /** The auction run to its end. */
  function RunAuction(window: nat, a: Auction): (z: Auction)
    requires Listed(a)
    ensures Listed(z) && Over(z) && SameShape(a.vms, z.vms)
    decreases Remaining(a), if a.todo == [] then 1 else 0
  {
    if Over(a) then a
    else
      StepDecreases(window, a);
      RunAuction(window, Step(window, a))
  }

  // ---- what every step keeps ----

  /** The vCPU moved cycles from what it wants to what it has, and changed in nothing else. */
  ghost predicate Advanced(v: Vcpu, w: Vcpu) {
    && w == v.(alloc := w.alloc, buying := w.buying)
    && v.alloc <= w.alloc
    && v.alloc + v.buying == w.alloc + w.buying
  }

  /** Every vCPU advanced, and every VM paid exactly for the cycles its vCPUs got. */
  ghost predicate Traded(vms: seq<Vm>, w: seq<Vm>) {
    && SameShape(vms, w)
    && (forall r :: Has(vms, r) ==> Advanced(At(vms, r), At(w, r)))
    && (forall i :: 0 <= i < |vms| ==>
          && w[i].money <= vms[i].money
          && w[i].money + VmAllocation()(w[i]) == vms[i].money + VmAllocation()(vms[i]))
  }

  lemma BuyTrades(vms: seq<Vm>, r: Ref, cycles: nat)
    requires Has(vms, r) && cycles <= vms[r.vm].money && cycles <= At(vms, r).buying
    ensures Traded(vms, Buy(vms, r, cycles))
    ensures forall q :: Has(vms, q) && q != r ==> At(Buy(vms, r, cycles), q) == At(vms, q)
  {
    BuyTotals(vms, r, cycles);
    var w := Buy(vms, r, cycles);
    assert At(w, r) == At(vms, r).(alloc := At(vms, r).alloc + cycles, buying := At(vms, r).buying - cycles);
    forall q | Has(vms, q) ensures q != r ==> At(w, q) == At(vms, q)
                           ensures Advanced(At(vms, q), At(w, q))
    {
    }
  }

  lemma TradedTransitive(u: seq<Vm>, v: seq<Vm>, w: seq<Vm>)
    requires Traded(u, v) && Traded(v, w)
    ensures Traded(u, w)
  {
    forall r | Has(u, r) ensures Advanced(At(u, r), At(w, r)) {
      assert Has(v, r);
      assert Advanced(At(u, r), At(v, r)) && Advanced(At(v, r), At(w, r));
    }
  }

  function WantOf(vms: seq<Vm>): Ref -> nat {
    (r: Ref) => if Has(vms, r) then At(vms, r).buying else 0
  }

  /** The auction opens with all bidders queued. */
  function Open(vms: seq<Vm>, market: nat, buyers: seq<Ref>): Auction {
    Auction(vms, market, 0, buyers, [], [])
  }

  ghost function Queue(a: Auction): multiset<Ref> {
    multiset(a.done) + multiset(a.todo) + multiset(a.fails)
  }

  /** Why a buyer failed: it still wants cycles, and the market, its account or the window is empty. */
  ghost predicate Failed(window: nat, a: Auction, r: Ref)
    requires Has(a.vms, r)
  {
    At(a.vms, r).buying > 0 && (a.market == 0 || window == 0 || a.vms[r.vm].money == 0)
  }

  /** Cycles and money are conserved. */
  ghost predicate Balanced(vms: seq<Vm>, market: nat, a: Auction) {
    Traded(vms, a.vms) && a.market + TotalAllocation(a.vms) == market + TotalAllocation(vms)
  }

  /** Every buyer is queued or failed at most once, and only those that got everything left. */
  ghost predicate Tracked(buyers: seq<Ref>, a: Auction) {
    && Listed(a)
    && (forall r :: Queue(a)[r] <= 1)
    && (forall r :: r in Queue(a) ==> r in buyers)
    && (forall r :: r in buyers ==> Has(a.vms, r) && (r in Queue(a) || At(a.vms, r).buying == 0))
  }

  /** Every failure has its reason, and `needed` adds up what the failed buyers want. */
  ghost predicate Justified(window: nat, a: Auction) {
    && (forall r :: r in a.fails ==> Has(a.vms, r) && Failed(window, a, r))
    && a.needed == SumBy(a.fails, WantOf(a.vms))
  }

  ghost predicate Inv(window: nat, vms: seq<Vm>, market: nat, buyers: seq<Ref>, a: Auction) {
    Balanced(vms, market, a) && Tracked(buyers, a) && Justified(window, a)
  }

  lemma OpenInv(window: nat, vms: seq<Vm>, market: nat, buyers: seq<Ref>)
    requires Distinct(buyers) && forall r :: r in buyers ==> Has(vms, r)
    ensures Inv(window, vms, market, buyers, Open(vms, market, buyers))
  {
    var a := Open(vms, market, buyers);
    assert Queue(a) == multiset(buyers);
    forall r ensures Queue(a)[r] <= 1 { DistinctCount(buyers, r); }
    assert Tracked(buyers, a);
  }

  lemma StepBalanced(window: nat, vms: seq<Vm>, market: nat, a: Auction)
    requires Listed(a) && !Over(a) && Balanced(vms, market, a)
    ensures Balanced(vms, market, Step(window, a))
  {
    if a.todo != [] {
      var r := a.todo[0];
      var cycles := Affordable(window, a, r);
      if At(a.vms, r).buying != 0 && cycles != 0 {
        BuyTotals(a.vms, r, cycles);
        BuyTrades(a.vms, r, cycles);
        TradedTransitive(vms, a.vms, Buy(a.vms, r, cycles));
      }
    }
  }

  /** A step drops a buyer from the queue only when it has all it wanted. */
  lemma StepQueue(window: nat, a: Auction)
    requires !Over(a) && Listed(a)
    ensures forall r :: Queue(Step(window, a))[r] <= Queue(a)[r]
    ensures forall r :: r in Queue(a) && r !in Queue(Step(window, a)) ==>
              a.todo != [] && r == a.todo[0] && At(a.vms, r).buying == 0 && Step(window, a).vms == a.vms
  {
    var b := Step(window, a);
    if a.todo == [] {
      assert Queue(b) == Queue(a);
    } else {
      assert a.todo == [a.todo[0]] + a.todo[1..];
      if At(a.vms, a.todo[0]).buying == 0 {
        assert Queue(a) == Queue(b) + multiset{a.todo[0]};
      } else {
        assert Queue(b) == Queue(a);
      }
    }
  }

  lemma StepOthers(window: nat, a: Auction)
    requires !Over(a) && Listed(a)
    ensures SameShape(a.vms, Step(window, a).vms)
    ensures forall q :: Has(a.vms, q) && (a.todo == [] || q != a.todo[0]) ==>
              At(Step(window, a).vms, q) == At(a.vms, q)
  {
    if a.todo != [] {
      var r := a.todo[0];
      var cycles := Affordable(window, a, r);
      if At(a.vms, r).buying != 0 && cycles != 0 {
        BuyTrades(a.vms, r, cycles);
      }
    }
  }

  lemma StepTracked(window: nat, buyers: seq<Ref>, a: Auction)
    requires !Over(a) && Tracked(buyers, a)
    ensures Tracked(buyers, Step(window, a))
  {
    hide Step, Queue;
    StepDecreases(window, a);
    StepQueue(window, a);
    forall r ensures Queue(Step(window, a))[r] <= 1 && (r in Queue(Step(window, a)) ==> r in buyers) {
      assert Queue(Step(window, a))[r] <= Queue(a)[r];
    }
    forall r | r in buyers
      ensures Has(Step(window, a).vms, r)
      ensures r in Queue(Step(window, a)) || At(Step(window, a).vms, r).buying == 0
    {
      BuyerTracked(window, a, r);
    }
  }

  lemma BuyerTracked(window: nat, a: Auction, r: Ref)
    requires !Over(a) && Listed(a) && Has(a.vms, r) && (r in Queue(a) || At(a.vms, r).buying == 0)
    ensures Has(Step(window, a).vms, r)
    ensures r in Queue(Step(window, a)) || At(Step(window, a).vms, r).buying == 0
  {
    StepQueue(window, a);
    StepOthers(window, a);
    assert a.todo != [] ==> a.todo[0] in Queue(a);
    hide Queue;
  }

  lemma StepJustified(window: nat, a: Auction)
    requires Listed(a) && !Over(a) && Justified(window, a)
    requires a.todo != [] ==> a.todo[0] !in a.fails
    ensures Justified(window, Step(window, a))
  {
    if a.todo != [] {
      var r := a.todo[0];
      var cycles := Affordable(window, a, r);
      if At(a.vms, r).buying == 0 {
      } else if cycles == 0 {
        SumByAppend(a.fails, r, WantOf(a.vms));
      } else {
        PurchaseKeepsFails(window, a, r, cycles);
      }
    }
  }

  lemma PurchaseKeepsFails(window: nat, a: Auction, r: Ref, cycles: nat)
    requires Listed(a) && Has(a.vms, r) && r !in a.fails
    requires cycles <= a.vms[r.vm].money && cycles <= At(a.vms, r).buying && cycles <= a.market
    requires forall q :: q in a.fails ==> Failed(window, a, q)
    ensures var b := a.(vms := Buy(a.vms, r, cycles), market := a.market - cycles);
            && (forall q :: q in a.fails ==> Has(b.vms, q) && Failed(window, b, q))
            && SumBy(a.fails, WantOf(b.vms)) == SumBy(a.fails, WantOf(a.vms))
  {
    var b := a.(vms := Buy(a.vms, r, cycles), market := a.market - cycles);
    BuyTrades(a.vms, r, cycles);
    forall q | q in a.fails
      ensures Has(b.vms, q) && Failed(window, b, q) && WantOf(b.vms)(q) == WantOf(a.vms)(q)
    {
      assert Failed(window, a, q);
    }
    SumByEq(a.fails, WantOf(b.vms), a.fails, WantOf(a.vms));
  }

  lemma StepInv(window: nat, vms: seq<Vm>, market: nat, buyers: seq<Ref>, a: Auction)
    requires Inv(window, vms, market, buyers, a) && !Over(a)
    ensures Inv(window, vms, market, buyers, Step(window, a))
  {
    StepBalanced(window, vms, market, a);
    StepTracked(window, buyers, a);
    if a.todo != [] {
      assert Queue(a)[a.todo[0]] <= 1;
    }
    StepJustified(window, a);
  }

  lemma {:induction false} RunInv(window: nat, vms: seq<Vm>, market: nat, buyers: seq<Ref>, a: Auction)
    requires Inv(window, vms, market, buyers, a)
    ensures Inv(window, vms, market, buyers, RunAuction(window, a))
    decreases Remaining(a), if a.todo == [] then 1 else 0
  {
    if !Over(a) {
      StepInv(window, vms, market, buyers, a);
      StepDecreases(window, a);
      RunInv(window, vms, market, buyers, Step(window, a));
    }
  }

  /** The failed buyers are listed once each, want something, and `needed` is what they want in all. */
  ghost predicate Settled(z: Auction) {
    && Listed(z)
    && Distinct(z.fails)
    && (forall r :: r in z.fails ==> Has(z.vms, r) && At(z.vms, r).buying > 0)
    && z.needed == SumBy(z.fails, WantOf(z.vms))
  }

  /** Nobody is queued any more: each buyer has all it wanted, or failed with an empty account (or
      an empty window). */
  ghost predicate Exhausted(window: nat, buyers: seq<Ref>, z: Auction) {
    && z.done == [] && z.todo == []
    && (forall r :: r in buyers ==> Has(z.vms, r))
    && (forall r :: r in buyers ==>
          || At(z.vms, r).buying == 0
          || (r in z.fails && (window == 0 || z.vms[r.vm].money == 0)))
  }

  /** How an auction ends: cycles and money are conserved, the failed buyers are accounted for, and
      when cycles are left over nobody was left out without reason. */
  lemma AuctionOutcome(window: nat, vms: seq<Vm>, market: nat, buyers: seq<Ref>)
    requires Distinct(buyers) && forall r :: r in buyers ==> Has(vms, r)
    ensures var z := RunAuction(window, Open(vms, market, buyers));
      && Balanced(vms, market, z)
      && Settled(z)
      && (forall r :: r in z.fails ==> r in buyers)
      && (z.market > 0 ==> Exhausted(window, buyers, z))
  {
    OpenInv(window, vms, market, buyers);
    RunInv(window, vms, market, buyers, Open(vms, market, buyers));
    InvOutcome(window, vms, market, buyers, RunAuction(window, Open(vms, market, buyers)));
  }

  lemma InvOutcome(window: nat, vms: seq<Vm>, market: nat, buyers: seq<Ref>, z: Auction)
    requires Inv(window, vms, market, buyers, z) && Over(z)
    ensures Settled(z)
    ensures forall r :: r in z.fails ==> r in buyers
    ensures z.market > 0 ==> Exhausted(window, buyers, z)
  {
    forall r | r in z.fails ensures r in buyers {
      assert r in Queue(z);
    }
    forall r ensures multiset(z.fails)[r] <= 1 {
      assert multiset(z.fails)[r] <= Queue(z)[r];
    }
    CountDistinct(z.fails);
    if z.market > 0 {
      assert Queue(z) == multiset(z.fails);
    }
  }
}
