/** The vCPU market as it runs on the controllers and accounts of the running VMs, proved against the
    value-level round. */
module MarketRun {
  import opened Sums
  import opened VcpuModel
  import opened MarketModel
  import opened AuctionProofs
  import opened RoundProofs
  import opened Controllers
  import opened RunningVms
  import opened ControlModel

  class VcpuMarket {
    var config: Machine

    constructor (config: Machine)
      ensures this.config == config
    {
      this.config := config;
    }

    // ---- base sale ----

    /** Sell one vCPU its base cycles; the result says whether it bids for more. */
    method SellBaseCycles(v: LibvirtVcpu, market: int, wild: nat) returns (bids: bool, rest: int)
      requires config.Valid() && Measured(v.View())
      modifies v, v.context`money
      ensures v.View() == SellVcpu(config, old(v.View()), wild)
      ensures v.context.money == old(v.context.money) + Credit(config, old(v.View()), wild)
      ensures bids == Bids(config, old(v.View()), wild)
      ensures rest == market - Base(config, old(v.View()), wild)
    {
      var usage := v.consumption;
      var max := SECOND;
      var min := max / 100;
      var nominal := v.nominalFreq * max / config.cpuFreq;
      var capp := Capping(v.View(), wild);
      var use := RelativeUse(v.View(), wild);
      var slope := v.slope;
      var target, current;
      if -0.1 < slope && slope < 0.1 {
        target := Min(max, usage + max / 100);
        current := Max(min, Min(nominal, target));
      } else if use.Below(config.triggerDecrement) {
        target := Max(min, Max(usage, Scaled(capp, 1.0 - config.decreasingSpeed)));
        current := Min(nominal, target);
      } else if use.Above(config.triggerIncrement) {
        target := Scaled(capp, 1.0 + config.increasingSpeed);
        current := Max(min, Min(nominal, target));
      } else {
        target := capp;
        current := Max(min, Min(nominal, target));
      }
      assert nominal == Nominal(config, v.View());
      assert target == Target(config, v.View(), wild) && current == Base(config, v.View(), wild);
      v.alloc := current;
      rest := market - current;
      if target > nominal {
        v.buying := Min(WordMinus(max, nominal), target - nominal);
        bids := true;
      } else {
        v.context.money := v.context.money + (nominal - target);
        bids := false;
      }
    }

    /** The body of the inner loop: sell to vCPU j and list it if it bids. */
    method SellNext(vm: LibvirtVm, j: nat, buyers: seq<LibvirtVcpu>, market: int, wild: nat,
                    ghost before: Vm, ghost i: nat, ghost p: Progress)
      returns (listed: seq<LibvirtVcpu>, rest: int)
      requires config.Valid() && vm.Valid() && Selling(vm, before, p, buyers)
      requires j == |p.sold| < |vm.controllers| && Measured(before.vcpus[j])
      modifies vm.controllers, vm`money
      ensures Selling(vm, before, NextSale(config, before.vcpus[j], wild, i, p), listed)
      ensures rest == market - Base(config, before.vcpus[j], wild)
    {
      hide Base, Credit, Wanted;
      var v := vm.controllers[j];
      assert v.View() == before.vcpus[j];
      var bids;
      bids, rest := SellBaseCycles(v, market, wild);
      listed := if bids then buyers + [v] else buyers;
      forall k | 0 <= k < |vm.controllers| && k != j
        ensures vm.controllers[k].View() == old(vm.controllers[k].View())
      {
        assert vm.controllers[k].id == k;
      }
    }

    /** The inner loop of the sale: all vCPUs of one VM. */
    method SellVm(vm: LibvirtVm, ghost i: nat, market: int, wild: nat)
      returns (buyers: seq<LibvirtVcpu>, rest: int)
      requires config.Valid() && vm.Valid()
      requires forall j :: 0 <= j < |vm.controllers| ==> Measured(vm.controllers[j].View())
      modifies vm.controllers, vm`money
      ensures vm.View() == MarketModel.SellVm(config, old(vm.View()), wild)
      ensures rest == market - VmAllocation()(vm.View())
      ensures Picks(vm, BiddersOf(config, old(vm.View()), wild, i, |vm.controllers|), buyers)
    {
      hide LibvirtVcpu.View, SellVcpu, Base, Bids, Credit;
      ghost var before := vm.View();
      ghost var p := Sales(config, before, wild, i, 0);
      buyers, rest := [], market;
      for j := 0 to |vm.controllers|
        invariant p == Sales(config, before, wild, i, j) && |p.sold| == j
        invariant Selling(vm, before, p, buyers)
        invariant rest == market - p.spent
      {
        buyers, rest := SellNext(vm, j, buyers, rest, wild, before, i, p);
        p := NextSale(config, before.vcpus[j], wild, i, p);
      }
      SalesComplete(config, before, wild, i);
      assert vm.View().vcpus == p.sold;
    }

    /** The body of the outer loop: sell to VM i. */
    method SellNextVm(vms: seq<LibvirtVm>, i: nat, buyers: seq<LibvirtVcpu>, market: int, nbVcpus: nat, wild: nat,
                      ghost before: seq<Vm>, ghost b: Batch, ghost start: int)
      returns (listed: seq<LibvirtVcpu>, rest: int, count: nat)
      requires config.Valid() && AllMeasured(before) && i == |b.sold| < |vms|
      requires SellingAll(vms, before, b, buyers, start, market, nbVcpus)
      modifies vms[i].controllers, {vms[i]}`money
      ensures SellingAll(vms, before, NextBatch(config, before[i], wild, b), listed, start, rest, count)
    {
      hide LibvirtVm.View, LibvirtVcpu.View, MarketModel.SellVm, Bids, BiddersOf;
      ghost var refs := BiddersOf(config, before[i], wild, i, |before[i].vcpus|);
      assert vms[i].View() == before[i];
      ViewOf(vms[i]);
      forall k | 0 <= k < |refs| ensures refs[k].vm == i {
        BiddersOfMember(config, before[i], wild, i, |before[i].vcpus|, refs[k]);
      }
      count := nbVcpus + |vms[i].controllers|;
      var more;
      more, rest := SellVm(vms[i], i, market, wild);
      listed := buyers + more;
      forall k | 0 <= k < |vms| && k != i ensures vms[k].View() == old(vms[k].View()) {
        Apart(vms, i, k);
      }
      assert Resolves(vms, b.bidders + refs, listed);
    }

    /** The sale of base cycles to all vCPUs of all VMs. */
    method SellAll(vms: seq<LibvirtVm>, market: int, wild: nat)
      returns (buyers: seq<LibvirtVcpu>, rest: int, nbVcpus: nat)
      requires config.Valid() && Linked(vms) && AllMeasured(BooksOf(vms))
      modifies AllControllers(vms), vms`money
      ensures Linked(vms)
      ensures BooksOf(vms) == Sold(config, old(BooksOf(vms)), wild)
      ensures rest == market - TotalAllocation(BooksOf(vms))
      ensures nbVcpus == NbVcpus(BooksOf(vms))
      ensures Resolves(vms, Bidders(config, old(BooksOf(vms)), wild, |vms|), buyers)
    {
      hide LibvirtVm.View, LibvirtVcpu.View, MarketModel.SellVm, BiddersOf, NextBatch, Measured;
      ghost var before := BooksOf(vms);
      ghost var b := Batches(config, before, wild, 0);
      buyers, rest, nbVcpus := [], market, 0;
      for i := 0 to |vms|
        invariant b == Batches(config, before, wild, i)
        invariant SellingAll(vms, before, b, buyers, market, rest, nbVcpus)
      {
        assert vms[i] in vms && forall c :: c in vms[i].controllers ==> c in old(AllControllers(vms));
        buyers, rest, nbVcpus := SellNextVm(vms, i, buyers, rest, nbVcpus, wild, before, b, market);
        b := NextBatch(config, before[i], wild, b);
      }
      BatchesComplete(config, before, wild);
      assert BooksOf(vms) == b.sold;
    }

    // ---- auction ----

    /** A buyer takes cycles and its VM pays for them. */
    method Purchase(v: LibvirtVcpu, cycles: nat, ghost vms: seq<LibvirtVm>, ghost r: Ref)
      requires Linked(vms) && Present(vms, r) && v == vms[r.vm].controllers[r.cpu]
      requires cycles <= v.buying && cycles <= v.context.money
      modifies v`alloc, v`buying, v.context`money
      ensures Linked(vms) && Has(old(BooksOf(vms)), r)
      ensures BooksOf(vms) == Buy(old(BooksOf(vms)), r, cycles)
    {
      Shows(vms, r);
      ghost var before := BooksOf(vms);
      v.alloc := v.alloc + cycles;
      v.context.money := v.context.money - cycles;
      v.buying := v.buying - cycles;
      ghost var w := At(before, r);
      assert v.View() == w.(alloc := w.alloc + cycles, buying := w.buying - cycles);
      assert Buy(before, r, cycles) == Put(before, r, vms[r.vm].money, v.View());
      hide LibvirtVcpu.View;
      forall i | 0 <= i < |vms| && i != r.vm ensures vms[i].View() == before[i] {
        Apart(vms, r.vm, i);
      }
      forall j | 0 <= j < |vms[r.vm].controllers| && j != r.cpu
        ensures vms[r.vm].controllers[j].View() == before[r.vm].vcpus[j]
      {
        assert vms[r.vm].controllers[j].id == j;
      }
      OneChange(vms, before, r);
    }

    /** The body of the inner auction loop: serve the buyer at position k of the list. */
    method ServeNext(vms: seq<LibvirtVm>, k: nat, buyers: seq<LibvirtVcpu>, market: nat, needed: nat,
                     fails: seq<LibvirtVcpu>, ghost a: Auction)
      returns (next: nat, left: seq<LibvirtVcpu>, rest: nat, allNeeded: nat, failed: seq<LibvirtVcpu>)
      requires Bidding(vms, a, buyers, market, needed, fails) && k == |a.done| < |buyers|
      modifies AllControllers(vms), vms`money
      ensures !Over(a) && Bidding(vms, Step(config.windowSize, a), left, rest, allNeeded, failed)
      ensures next == |Step(config.windowSize, a).done|
    {
      hide LibvirtVm.View, LibvirtVcpu.View, Buy;
      var v := buyers[k];
      ghost var r := a.todo[0];
      assert (a.done + a.todo)[k] == r && Present(vms, r);
      assert v == vms[r.vm].controllers[r.cpu];
      Shows(vms, r);
      next, left, rest, allNeeded, failed := k, buyers, market, needed, fails;
      ghost var queue := a.done + a.todo;
      assert a.done + a.todo[1..] == queue[..k] + queue[k + 1..];
      if v.buying != 0 {
        var window := Min(config.windowSize, v.context.money);
        var bought := Min(Min(window, v.buying), market);
        if bought != 0 {
          Purchase(v, bought, vms, r);
          rest := market - bought;
          next := k + 1;
          assert a.done + a.todo == (a.done + [r]) + a.todo[1..];
          assert Resolves(vms, a.fails, fails);
        } else {
          allNeeded := needed + v.buying;
          failed := fails + [v];
          left := buyers[..k] + buyers[k + 1..];
        }
      } else {
        left := buyers[..k] + buyers[k + 1..];
      }
      StepDecreases(config.windowSize, a);
    }

    /** The inner loop of the auction: one pass over a list that is not empty. */
    method Pass(vms: seq<LibvirtVm>, queue: seq<LibvirtVcpu>, cycles: nat, needed: nat, failed: seq<LibvirtVcpu>,
                ghost start: Auction)
      returns (buyers: seq<LibvirtVcpu>, market: nat, allNeeded: nat, fails: seq<LibvirtVcpu>, ghost a: Auction)
      requires Bidding(vms, start, queue, cycles, needed, failed) && start.done == [] && start.todo != []
      modifies AllControllers(vms), vms`money
      ensures Bidding(vms, a, buyers, market, allNeeded, fails) && a.todo == []
      ensures RunAuction(config.windowSize, a) == RunAuction(config.windowSize, start)
      ensures Remaining(a) < Remaining(start)
    {
      hide Bidding, Step;
      buyers, market, allNeeded, fails, a := queue, cycles, needed, failed, start;
      BiddingSizes(vms, a, buyers, market, allNeeded, fails);
      var w := config.windowSize;
      var k := 0;
      while k < |buyers|
        invariant Bidding(vms, a, buyers, market, allNeeded, fails)
        invariant Listed(a) && k == |a.done| && |buyers| == |a.done| + |a.todo|
        invariant RunAuction(w, a) == RunAuction(w, start)
        invariant Remaining(a) <= Remaining(start) && (a.todo == [] ==> Remaining(a) < Remaining(start))
        decreases |a.todo|
      {
        StepDecreases(w, a);
        StepServes(w, a);
        k, buyers, market, allNeeded, fails := ServeNext(vms, k, buyers, market, allNeeded, fails, a);
        a := Step(w, a);
        BiddingSizes(vms, a, buyers, market, allNeeded, fails);
      }
    }

    /** The auction: passes over the list of buyers until the market or the list is empty. */
    method BuyCycles(vms: seq<LibvirtVm>, bidders: seq<LibvirtVcpu>, cycles: nat, ghost refs: seq<Ref>)
      returns (fails: seq<LibvirtVcpu>, market: nat, allNeeded: nat)
      requires Linked(vms) && Resolves(vms, refs, bidders)
      modifies AllControllers(vms), vms`money
      ensures Linked(vms) && Listed(Open(old(BooksOf(vms)), cycles, refs))
      ensures var z := RunAuction(config.windowSize, Open(old(BooksOf(vms)), cycles, refs));
        && BooksOf(vms) == z.vms
        && Resolves(vms, z.fails, fails)
        && market == z.market
        && allNeeded == z.needed
    {
      hide Bidding, Step, Resolves, Linked;
      OpenBidding(vms, cycles, refs, bidders);
      ghost var a := Open(BooksOf(vms), cycles, refs);
      ghost var z := RunAuction(config.windowSize, a);
      var buyers := bidders;
      fails, market, allNeeded := [], cycles, 0;
      while market > 0 && |buyers| > 0
        invariant Bidding(vms, a, buyers, market, allNeeded, fails)
        invariant Listed(a) && a.todo == [] && market == a.market && |buyers| == |a.done|
        invariant RunAuction(config.windowSize, a) == z
        decreases Remaining(a)
      {
        NewPass(config.windowSize, a);
        RestartBidding(vms, a, buyers, market, allNeeded, fails);
        buyers, market, allNeeded, fails, a :=
          Pass(vms, buyers, market, allNeeded, fails, a.(todo := a.done, done := []));
        BiddingSizes(vms, a, buyers, market, allNeeded, fails);
      }
      CloseBidding(vms, a, buyers, market, allNeeded, fails);
    }

    // ---- proportional split ----

    method GiveShare(v: LibvirtVcpu, rest: nat, needed: nat, ghost vms: seq<LibvirtVm>, ghost r: Ref)
      returns (add: nat)
      requires Linked(vms) && Present(vms, r) && v == vms[r.vm].controllers[r.cpu] && needed > 0
      modifies v`alloc, v`buying
      ensures Linked(vms) && Has(old(BooksOf(vms)), r) && add == Share(old(v.buying), rest, needed)
      ensures BooksOf(vms) == Put(old(BooksOf(vms)), r, old(BooksOf(vms))[r.vm].money,
                                  TakeShare(At(old(BooksOf(vms)), r), rest, needed))
    {
      Shows(vms, r);
      ghost var before := BooksOf(vms);
      add := Share(v.buying, rest, needed);
      v.alloc := v.alloc + add;
      v.buying := v.buying - add;
      assert v.View() == TakeShare(At(before, r), rest, needed);
      hide LibvirtVcpu.View;
      forall i | 0 <= i < |vms| && i != r.vm ensures vms[i].View() == before[i] {
        Apart(vms, r.vm, i);
      }
      forall j | 0 <= j < |vms[r.vm].controllers| && j != r.cpu
        ensures vms[r.vm].controllers[j].View() == before[r.vm].vcpus[j]
      {
        assert vms[r.vm].controllers[j].id == j;
      }
      OneChange(vms, before, r);
    }

    /** Split what is left of the market among the failed bidders, in proportion to what they want. */
    method SplitRest(vms: seq<LibvirtVm>, fails: seq<LibvirtVcpu>, market: nat, allNeeded: nat, ghost z: Auction)
      returns (notSold: int)
      requires Linked(vms) && BooksOf(vms) == z.vms && Resolves(vms, z.fails, fails) && Settled(z)
      requires market == z.market > 0 && allNeeded == z.needed
      modifies AllControllers(vms)
      ensures Linked(vms) && BooksOf(vms) == Divided(z) && notSold == Leftover(z)
    {
      hide LibvirtVm.View, LibvirtVcpu.View, Share, WantOf, Divided, Leftover, ServedUpTo;
      notSold := market;
      var rest := Min(allNeeded, market);
      ServedEnds(z, rest);
      for k := 0 to |fails|
        invariant Linked(vms) && Resolves(vms, z.fails, fails)
        invariant BooksOf(vms) == ServedUpTo(z, rest, k)
        invariant notSold == market - (TotalAllocation(BooksOf(vms)) - TotalAllocation(z.vms))
      {
        ghost var r := z.fails[k];
        ServedNext(z, rest, k);
        Shows(vms, r);
        var add := GiveShare(fails[k], rest, allNeeded, vms, r);
        notSold := notSold - add;
      }
    }

    // ---- even spread and quotas ----

    method SpreadVm(vm: LibvirtVm, percent: nat)
      requires vm.Valid()
      modifies vm.controllers
      ensures vm.View() == RaiseVm(old(vm.View()), percent)
    {
      for j := 0 to |vm.controllers|
        invariant forall k :: 0 <= k < j ==>
          vm.controllers[k].View() == Raise(old(vm.controllers[k].View()), percent)
        invariant forall k :: j <= k < |vm.controllers| ==>
          vm.controllers[k].View() == old(vm.controllers[k].View())
      {
        var v := vm.controllers[j];
        v.alloc := Min(SECOND, v.alloc + percent);
        forall k | 0 <= k < |vm.controllers| && k != j ensures vm.controllers[k] != v {
          assert vm.controllers[k].id == k;
        }
      }
    }

    method SpreadAll(vms: seq<LibvirtVm>, percent: nat)
      requires Linked(vms)
      modifies AllControllers(vms)
      ensures Linked(vms) && BooksOf(vms) == Spread(old(BooksOf(vms)), percent)
    {
      hide LibvirtVm.View, LibvirtVcpu.View, RaiseVm;
      for i := 0 to |vms|
        invariant Linked(vms)
        invariant forall k :: 0 <= k < i ==> vms[k].View() == RaiseVm(old(vms[k].View()), percent)
        invariant forall k :: i <= k < |vms| ==> vms[k].View() == old(vms[k].View())
      {
        assert vms[i] in vms && forall c :: c in vms[i].controllers ==> c in old(AllControllers(vms));
        forall k | 0 <= k < |vms| && k != i
          ensures forall c :: c in vms[k].controllers ==> c !in vms[i].controllers
        {
          Apart(vms, k, i);
        }
        SpreadVm(vms[i], percent);
      }
    }

    method ApplyAll(vms: seq<LibvirtVm>, period: nat)
      requires Linked(vms)
      modifies AllControllers(vms)
      ensures Linked(vms) && BooksOf(vms) == Apply(old(BooksOf(vms)), period)
    {
      hide LibvirtVm.View, LibvirtVcpu.View, ApplyVm;
      for i := 0 to |vms|
        invariant Linked(vms)
        invariant forall k :: 0 <= k < i ==> vms[k].View() == ApplyVm(old(vms[k].View()), period)
        invariant forall k :: i <= k < |vms| ==> vms[k].View() == old(vms[k].View())
      {
        assert vms[i] in vms && forall c :: c in vms[i].controllers ==> c in old(AllControllers(vms));
        forall k | 0 <= k < |vms| && k != i
          ensures forall c :: c in vms[k].controllers ==> c !in vms[i].controllers
        {
          Apart(vms, k, i);
        }
        vms[i].ApplyMarketAllocation(period);
      }
    }

    // ---- the round ----

    /** After the auction: split the rest among the failed bidders, spread what is left over everyone. */
    method ShareOut(vms: seq<LibvirtVm>, fails: seq<LibvirtVcpu>, rest: nat, allNeeded: nat, nbVcpus: nat,
                    ghost z: Auction)
      requires Linked(vms) && BooksOf(vms) == z.vms && Resolves(vms, z.fails, fails) && Settled(z)
      requires rest == z.market && allNeeded == z.needed && nbVcpus > 0
      modifies AllControllers(vms)
      ensures Linked(vms) && BooksOf(vms) == Finish(z, nbVcpus)
    {
      hide LibvirtVm.View, LibvirtVcpu.View, Linked, Resolves, Divided, Leftover, Spread;
      var market: int := rest;
      if rest > 0 {
        market := SplitRest(vms, fails, rest, allNeeded, z);
      } else {
        NothingLeft(z);
      }
      if market > 0 {
        SpreadAll(vms, market / nbVcpus);
      }
    }

    /** One iteration of the market. */
    method Run(vms: seq<LibvirtVm>, wild: nat)
      requires config.Valid() && Linked(vms) && AllMeasured(BooksOf(vms))
      requires vms == [] || NbVcpus(BooksOf(vms)) > 0
      modifies AllControllers(vms), vms`money
      ensures Linked(vms) && BooksOf(vms) == RunMarket(config, old(BooksOf(vms)), wild)
    {
      hide LibvirtVm.View, LibvirtVcpu.View, Linked, Resolves, Sold, Bidders, Settled, AllMeasured, NbVcpus,
           TotalAllocation, Apply, Finish, RunAuction, Traded;
      ghost var before := BooksOf(vms);
      if |vms| == 0 {
        return;
      }
      var market: int := config.nprocs * SECOND;
      var buyers, nbVcpus;
      buyers, market, nbVcpus := SellAll(vms, market, wild);
      SoldSize(config, before, wild);
      if market < 0 {
        return;
      }
      ghost var refs := Bidders(config, before, wild, |before|);
      var fails, rest, allNeeded := BuyCycles(vms, buyers, market, refs);
      AuctionBooks(config, before, wild);
      ShareOut(vms, fails, rest, allNeeded, nbVcpus, Auctioned(config, before, wild));
      ApplyAll(vms, MARKET_PERIOD);
    }

    /** Forget all accounts. */
    method Reset(vms: seq<LibvirtVm>)
      requires Linked(vms)
      modifies vms`money
      ensures Linked(vms) && BooksOf(vms) == ResetAll(old(BooksOf(vms)))
    {
      hide LibvirtVcpu.View;
      for i := 0 to |vms|
        invariant forall k :: 0 <= k < i ==> vms[k].View() == old(vms[k].View()).(money := 0)
        invariant forall k :: i <= k < |vms| ==> vms[k].View() == old(vms[k].View())
      {
        vms[i].money := 0;
      }
    }
  }

  /** The objects and variables of the auction loops, in auction state a. */
  ghost predicate Bidding(vms: seq<LibvirtVm>, a: Auction, buyers: seq<LibvirtVcpu>, market: nat,
                          needed: nat, fails: seq<LibvirtVcpu>)
    reads vms, AllControllers(vms)
  {
    && Linked(vms)
    && Listed(a)
    && BooksOf(vms) == a.vms
    && Resolves(vms, a.done + a.todo, buyers)
    && Resolves(vms, a.fails, fails)
    && market == a.market
    && needed == a.needed
  }

  lemma OpenBidding(vms: seq<LibvirtVm>, cycles: nat, refs: seq<Ref>, bidders: seq<LibvirtVcpu>)
    requires Linked(vms) && Resolves(vms, refs, bidders)
    ensures Listed(Open(BooksOf(vms), cycles, refs))
    ensures Bidding(vms, Open(BooksOf(vms), cycles, refs), bidders, cycles, 0, [])
    ensures |bidders| == |refs|
  {
    hide LibvirtVm.View, LibvirtVcpu.View;
    assert refs + [] == refs;
    forall r | r in refs ensures Has(BooksOf(vms), r) {
      var k :| 0 <= k < |refs| && refs[k] == r;
      Shows(vms, r);
    }
  }

  lemma BiddingSizes(vms: seq<LibvirtVm>, a: Auction, buyers: seq<LibvirtVcpu>, market: nat, needed: nat,
                     fails: seq<LibvirtVcpu>)
    requires Bidding(vms, a, buyers, market, needed, fails)
    ensures Listed(a) && market == a.market && |buyers| == |a.done| + |a.todo|
  {
  }

  lemma RestartBidding(vms: seq<LibvirtVm>, a: Auction, buyers: seq<LibvirtVcpu>, market: nat, needed: nat,
                       fails: seq<LibvirtVcpu>)
    requires Bidding(vms, a, buyers, market, needed, fails) && a.todo == []
    ensures Bidding(vms, a.(todo := a.done, done := []), buyers, market, needed, fails)
  {
    assert a.done + a.todo == a.done == [] + a.done;
  }

  lemma CloseBidding(vms: seq<LibvirtVm>, a: Auction, buyers: seq<LibvirtVcpu>, market: nat, needed: nat,
                     fails: seq<LibvirtVcpu>)
    requires Bidding(vms, a, buyers, market, needed, fails)
    ensures Linked(vms) && BooksOf(vms) == a.vms && Resolves(vms, a.fails, fails) && needed == a.needed
  {
  }

  lemma StepServes(window: nat, a: Auction)
    requires Listed(a) && a.todo != []
    ensures !Over(a) && Step(window, a).todo == a.todo[1..]
  {
  }

  lemma NewPass(window: nat, a: Auction)
    requires Listed(a) && a.todo == [] && !Over(a)
    ensures Listed(a.(todo := a.done, done := [])) && Step(window, a) == a.(todo := a.done, done := [])
    ensures Remaining(Step(window, a)) == Remaining(a)
    ensures RunAuction(window, a) == RunAuction(window, Step(window, a))
  {
  }

  /** The books after the first k failed bidders got their shares. */
  ghost function ServedUpTo(z: Auction, rest: nat, k: nat): seq<Vm>
    requires k <= |z.fails|
  {
    if z.needed > 0 then Serve(z.vms, z.fails[..k], rest, z.needed) else z.vms
  }

  lemma NothingLeft(z: Auction)
    requires Listed(z) && z.market == 0
    ensures Divided(z) == z.vms && Leftover(z) == 0
  {
  }

  lemma SoldSize(m: Machine, vms: seq<Vm>, wild: nat)
    requires m.Valid() && AllMeasured(vms)
    ensures NbVcpus(Sold(m, vms, wild)) == NbVcpus(vms)
  {
    SizesAgree(vms, Sold(m, vms, wild));
  }

  lemma ServedEnds(z: Auction, rest: nat)
    requires Settled(z) && z.market > 0 && rest == Min(z.needed, z.market)
    ensures ServedUpTo(z, rest, 0) == z.vms && ServedUpTo(z, rest, |z.fails|) == Divided(z)
    ensures Leftover(z) == z.market - (TotalAllocation(Divided(z)) - TotalAllocation(z.vms))
  {
    if z.needed > 0 {
      forall i | 0 <= i < |z.vms| ensures Serve(z.vms, [], rest, z.needed)[i] == z.vms[i] {
        assert Serve(z.vms, [], rest, z.needed)[i].vcpus == z.vms[i].vcpus;
      }
      assert Serve(z.vms, [], rest, z.needed) == z.vms;
    }
    assert z.fails[..|z.fails|] == z.fails;
  }

  lemma ServedNext(z: Auction, rest: nat, k: nat)
    requires Settled(z) && k < |z.fails|
    ensures var r, u := z.fails[k], ServedUpTo(z, rest, k);
      && z.needed > 0 && Has(u, r) && u[r.vm].money == z.vms[r.vm].money
      && ServedUpTo(z, rest, k + 1) == Put(u, r, u[r.vm].money, TakeShare(At(u, r), rest, z.needed))
      && TotalAllocation(ServedUpTo(z, rest, k + 1))
         == TotalAllocation(u) + Share(At(u, r).buying, rest, z.needed)
  {
    var r := z.fails[k];
    assert r in z.fails && r !in z.fails[..k];
    SumByMember(z.fails, k, WantOf(z.vms));
    ServeOneMore(z.vms, z.fails[..k], r, rest, z.needed);
    assert z.fails[..k + 1] == z.fails[..k] + [r];
    var u := ServedUpTo(z, rest, k);
    PutTotals(u, r, u[r.vm].money, TakeShare(At(u, r), rest, z.needed));
  }

  // ---- the sale as the loops see it ----

  /** What the inner loop has done: the vCPUs sold, the balance, the cycles spent and the bidders. */
  datatype Progress = Progress(sold: seq<Vcpu>, money: nat, spent: nat, bidders: seq<Ref>)

  ghost function NextSale(m: Machine, v: Vcpu, wild: nat, i: nat, p: Progress): Progress
    requires m.Valid() && Measured(v)
  {
    Progress(p.sold + [SellVcpu(m, v, wild)], p.money + Credit(m, v, wild), p.spent + Base(m, v, wild),
             p.bidders + if Bids(m, v, wild) then [Ref(i, |p.sold|)] else [])
  }

  ghost function Sales(m: Machine, vm: Vm, wild: nat, i: nat, j: nat): Progress
    requires m.Valid() && j <= |vm.vcpus|
    requires forall k :: 0 <= k < |vm.vcpus| ==> Measured(vm.vcpus[k])
  {
    if j == 0 then Progress([], vm.money, 0, [])
    else NextSale(m, vm.vcpus[j - 1], wild, i, Sales(m, vm, wild, i, j - 1))
  }

  ghost predicate Picks(vm: LibvirtVm, refs: seq<Ref>, cs: seq<LibvirtVcpu>)
    reads vm
  {
    && |cs| == |refs|
    && forall k :: 0 <= k < |refs| ==> refs[k].cpu < |vm.controllers| && cs[k] == vm.controllers[refs[k].cpu]
  }

  /** The VM in the middle of the sale: the first vCPUs are sold, the others untouched. */
  ghost predicate Selling(vm: LibvirtVm, before: Vm, p: Progress, buyers: seq<LibvirtVcpu>)
    reads vm, vm.controllers
  {
    && |p.sold| <= |vm.controllers| == |before.vcpus|
    && (forall k :: 0 <= k < |p.sold| ==> vm.controllers[k].View() == p.sold[k])
    && (forall k :: |p.sold| <= k < |before.vcpus| ==> vm.controllers[k].View() == before.vcpus[k])
    && vm.money == p.money
    && Picks(vm, p.bidders, buyers)
  }

  lemma SalesStep(m: Machine, vm: Vm, wild: nat, i: nat, j: nat)
    requires m.Valid() && 0 < j <= |vm.vcpus|
    requires forall k :: 0 <= k < |vm.vcpus| ==> Measured(vm.vcpus[k])
    ensures var p, v := Sales(m, vm, wild, i, j - 1), vm.vcpus[j - 1];
      && Sales(m, vm, wild, i, j)
         == Progress(p.sold + [SellVcpu(m, v, wild)], p.money + CreditOf(m, wild)(v),
                     p.spent + Allocation()(SellVcpu(m, v, wild)),
                     p.bidders + if Bids(m, v, wild) then [Ref(i, |p.sold|)] else [])
      && MarketModel.SellVm(m, vm, wild).vcpus[..j]
         == MarketModel.SellVm(m, vm, wild).vcpus[..j - 1] + [SellVcpu(m, v, wild)]
      && vm.vcpus[..j] == vm.vcpus[..j - 1] + [v]
      && BiddersOf(m, vm, wild, i, j)
         == BiddersOf(m, vm, wild, i, j - 1) + if Bids(m, v, wild) then [Ref(i, j - 1)] else []
  {
    hide Base, Bids, Credit, Wanted, SumBy;
  }

  lemma {:induction false} SalesSoFar(m: Machine, vm: Vm, wild: nat, i: nat, j: nat)
    requires m.Valid() && j <= |vm.vcpus|
    requires forall k :: 0 <= k < |vm.vcpus| ==> Measured(vm.vcpus[k])
    ensures var p := Sales(m, vm, wild, i, j);
      && |p.sold| == j
      && p.sold == MarketModel.SellVm(m, vm, wild).vcpus[..j]
      && p.money == vm.money + SumBy(vm.vcpus[..j], CreditOf(m, wild))
      && p.spent == SumBy(p.sold, Allocation())
      && p.bidders == BiddersOf(m, vm, wild, i, j)
  {
    if j > 0 {
      assert |MarketModel.SellVm(m, vm, wild).vcpus| == |vm.vcpus|;
      hide MarketModel.SellVm, BiddersOf, Sales, SellVcpu, CreditOf, Allocation, SumBy, Measured, Bids;
      SalesSoFar(m, vm, wild, i, j - 1);
      SalesStep(m, vm, wild, i, j);
      var p, v := Sales(m, vm, wild, i, j - 1), vm.vcpus[j - 1];
      SumByAppend(vm.vcpus[..j - 1], v, CreditOf(m, wild));
      SumByAppend(p.sold, SellVcpu(m, v, wild), Allocation());
    }
  }

  lemma SalesComplete(m: Machine, vm: Vm, wild: nat, i: nat)
    requires m.Valid() && forall k :: 0 <= k < |vm.vcpus| ==> Measured(vm.vcpus[k])
    ensures var p := Sales(m, vm, wild, i, |vm.vcpus|);
      && MarketModel.SellVm(m, vm, wild) == Vm(p.money, p.sold)
      && p.spent == VmAllocation()(MarketModel.SellVm(m, vm, wild))
      && p.bidders == BiddersOf(m, vm, wild, i, |vm.vcpus|)
  {
    SalesSoFar(m, vm, wild, i, |vm.vcpus|);
    assert vm.vcpus[..|vm.vcpus|] == vm.vcpus;
  }

  /** What the outer loop has done. */
  datatype Batch = Batch(sold: seq<Vm>, spent: nat, count: nat, bidders: seq<Ref>)

  ghost function NextBatch(m: Machine, vm: Vm, wild: nat, b: Batch): Batch
    requires m.Valid() && forall k :: 0 <= k < |vm.vcpus| ==> Measured(vm.vcpus[k])
  {
    var sold := MarketModel.SellVm(m, vm, wild);
    Batch(b.sold + [sold], b.spent + VmAllocation()(sold), b.count + |vm.vcpus|,
          b.bidders + BiddersOf(m, vm, wild, |b.sold|, |vm.vcpus|))
  }

  ghost function Batches(m: Machine, vms: seq<Vm>, wild: nat, i: nat): (b: Batch)
    requires m.Valid() && AllMeasured(vms) && i <= |vms|
    ensures |b.sold| == i
  {
    if i == 0 then Batch([], 0, 0, []) else NextBatch(m, vms[i - 1], wild, Batches(m, vms, wild, i - 1))
  }

  ghost predicate SellingAll(vms: seq<LibvirtVm>, before: seq<Vm>, b: Batch, buyers: seq<LibvirtVcpu>,
                             start: int, rest: int, nbVcpus: nat)
    reads vms, AllControllers(vms)
  {
    && Linked(vms)
    && |b.sold| <= |vms| == |before|
    && (forall k :: 0 <= k < |b.sold| ==> BooksOf(vms)[k] == b.sold[k])
    && (forall k :: |b.sold| <= k < |vms| ==> BooksOf(vms)[k] == before[k])
    && Resolves(vms, b.bidders, buyers)
    && rest == start - b.spent
    && nbVcpus == b.count
  }

  lemma BatchesStep(m: Machine, vms: seq<Vm>, wild: nat, i: nat)
    requires m.Valid() && AllMeasured(vms) && 0 < i <= |vms|
    ensures var b, sold := Batches(m, vms, wild, i - 1), MarketModel.SellVm(m, vms[i - 1], wild);
      && Batches(m, vms, wild, i)
         == Batch(b.sold + [sold], b.spent + VmAllocation()(sold), b.count + VmSize()(sold),
                  b.bidders + BiddersOf(m, vms[i - 1], wild, i - 1, |vms[i - 1].vcpus|))
      && Sold(m, vms, wild)[..i] == Sold(m, vms, wild)[..i - 1] + [sold]
      && Bidders(m, vms, wild, i)
         == Bidders(m, vms, wild, i - 1) + BiddersOf(m, vms[i - 1], wild, i - 1, |vms[i - 1].vcpus|)
  {
    assert |MarketModel.SellVm(m, vms[i - 1], wild).vcpus| == |vms[i - 1].vcpus|;
    hide MarketModel.SellVm, BiddersOf, VmAllocation;
  }

  lemma {:induction false} BatchesSoFar(m: Machine, vms: seq<Vm>, wild: nat, i: nat)
    requires m.Valid() && AllMeasured(vms) && i <= |vms|
    ensures var b := Batches(m, vms, wild, i);
      && b.sold == Sold(m, vms, wild)[..i]
      && b.spent == SumBy(b.sold, VmAllocation())
      && b.count == SumBy(b.sold, VmSize())
      && b.bidders == Bidders(m, vms, wild, i)
  {
    if i > 0 {
      hide MarketModel.SellVm, BiddersOf, Batches, Sold, Bidders, VmAllocation, VmSize, SumBy, NextBatch;
      BatchesSoFar(m, vms, wild, i - 1);
      BatchesStep(m, vms, wild, i);
      var b, sold := Batches(m, vms, wild, i - 1), MarketModel.SellVm(m, vms[i - 1], wild);
      SumByAppend(b.sold, sold, VmAllocation());
      SumByAppend(b.sold, sold, VmSize());
    }
  }

  lemma BatchesComplete(m: Machine, vms: seq<Vm>, wild: nat)
    requires m.Valid() && AllMeasured(vms)
    ensures var b := Batches(m, vms, wild, |vms|);
      && b.sold == Sold(m, vms, wild)
      && b.spent == TotalAllocation(b.sold)
      && b.count == NbVcpus(b.sold)
      && b.bidders == Bidders(m, vms, wild, |vms|)
  {
    BatchesSoFar(m, vms, wild, |vms|);
  }
}
