/** A whole round of the market: capacity is never exceeded, nothing that could be given away is kept,
    every vCPU stays within its bounds, and every account is exact. */
module RoundProofs {
  import opened Sums
  import opened VcpuModel
  import opened MarketModel
  import opened AuctionProofs

  // ---- the base sale ----

  /** The nominal share lies between the least and the most a vCPU can be given. */
  predicate Proper(m: Machine, v: Vcpu) {
    m.cpuFreq > 0 && LEAST <= Nominal(m, v) <= SECOND
  }

  ghost predicate AllProper(m: Machine, vms: seq<Vm>) {
    forall r :: Has(vms, r) ==> Proper(m, At(vms, r))
  }

  lemma SaleBounds(m: Machine, v: Vcpu, wild: nat)
    requires m.Valid() && Measured(v) && Proper(m, v)
    ensures var s := SellVcpu(m, v, wild);
      && LEAST <= s.alloc <= Nominal(m, v)
      && Min(Nominal(m, v), Target(m, v, wild)) <= s.alloc
      && (Bids(m, v, wild) ==> s.alloc == Nominal(m, v) && s.alloc + s.buying <= SECOND
                               && s.alloc + s.buying == Min(SECOND, Target(m, v, wild)))
  {
    var n := Nominal(m, v);
    assert WordMinus(SECOND, n) == SECOND - n;
  }

  predicate IsBidder(m: Machine, vms: seq<Vm>, wild: nat, r: Ref)
    requires m.Valid() && AllMeasured(vms)
  {
    Has(vms, r) && Bids(m, At(vms, r), wild)
  }

  lemma {:induction false} BiddersOfMember(m: Machine, vm: Vm, wild: nat, i: nat, n: nat, r: Ref)
    requires m.Valid() && n <= |vm.vcpus|
    requires forall j :: 0 <= j < |vm.vcpus| ==> Measured(vm.vcpus[j])
    ensures r in BiddersOf(m, vm, wild, i, n)
       <==> r.vm == i && r.cpu < n && Bids(m, vm.vcpus[r.cpu], wild)
  {
    if n > 0 {
      BiddersOfMember(m, vm, wild, i, n - 1, r);
    }
  }

  lemma {:induction false} BiddersMember(m: Machine, vms: seq<Vm>, wild: nat, n: nat, r: Ref)
    requires m.Valid() && AllMeasured(vms) && n <= |vms|
    ensures r in Bidders(m, vms, wild, n) <==> r.vm < n && IsBidder(m, vms, wild, r)
  {
    if n > 0 {
      BiddersMember(m, vms, wild, n - 1, r);
      BiddersOfMember(m, vms[n - 1], wild, n - 1, |vms[n - 1].vcpus|, r);
    }
  }

  lemma DistinctConcat(s: seq<Ref>, t: seq<Ref>)
    requires Distinct(s) && Distinct(t) && forall r :: r in s ==> r !in t
    ensures Distinct(s + t)
  {
    forall i, j | 0 <= i < j < |s + t| ensures (s + t)[i] != (s + t)[j] {
      assert (s + t)[i] == if i < |s| then s[i] else t[i - |s|];
      assert (s + t)[j] == if j < |s| then s[j] else t[j - |s|];
      assert i < |s| ==> s[i] in s;
    }
  }

  lemma {:induction false} BiddersOfDistinct(m: Machine, vm: Vm, wild: nat, i: nat, n: nat)
    requires m.Valid() && n <= |vm.vcpus|
    requires forall j :: 0 <= j < |vm.vcpus| ==> Measured(vm.vcpus[j])
    ensures Distinct(BiddersOf(m, vm, wild, i, n))
  {
    if n > 0 {
      BiddersOfDistinct(m, vm, wild, i, n - 1);
      BiddersOfMember(m, vm, wild, i, n - 1, Ref(i, n - 1));
    }
  }

  lemma {:induction false} BiddersDistinct(m: Machine, vms: seq<Vm>, wild: nat, n: nat)
    requires m.Valid() && AllMeasured(vms) && n <= |vms|
    ensures Distinct(Bidders(m, vms, wild, n))
  {
    if n > 0 {
      var vm := vms[n - 1];
      var earlier, own := Bidders(m, vms, wild, n - 1), BiddersOf(m, vm, wild, n - 1, |vm.vcpus|);
      BiddersDistinct(m, vms, wild, n - 1);
      BiddersOfDistinct(m, vm, wild, n - 1, |vm.vcpus|);
      forall r | r in earlier ensures r !in own {
        BiddersMember(m, vms, wild, n - 1, r);
        BiddersOfMember(m, vm, wild, n - 1, |vm.vcpus|, r);
      }
      DistinctConcat(earlier, own);
    }
  }

  /** The bidders are exactly the vCPUs whose target exceeds their nominal share, each listed once. */
  lemma BiddersExact(m: Machine, vms: seq<Vm>, wild: nat)
    requires m.Valid() && AllMeasured(vms)
    ensures var b := Bidders(m, vms, wild, |vms|);
      && Distinct(b)
      && (forall r :: r in b <==> IsBidder(m, vms, wild, r))
  {
    var b := Bidders(m, vms, wild, |vms|);
    BiddersDistinct(m, vms, wild, |vms|);
    forall r ensures r in b <==> IsBidder(m, vms, wild, r) {
      BiddersMember(m, vms, wild, |vms|, r);
    }
  }

  lemma BiddersListed(m: Machine, vms: seq<Vm>, wild: nat)
    requires m.Valid() && AllMeasured(vms)
    ensures Distinct(Bidders(m, vms, wild, |vms|))
    ensures forall r :: r in Bidders(m, vms, wild, |vms|) ==> Has(Sold(m, vms, wild), r)
  {
    BiddersExact(m, vms, wild);
  }

  // ---- the round ----

  /** The base sale overcommits the host: the round stops there. */
  predicate Refused(m: Machine, vms: seq<Vm>, wild: nat)
    requires m.Valid() && AllMeasured(vms)
  {
    m.Capacity() < TotalAllocation(Sold(m, vms, wild))
  }

  function Auctioned(m: Machine, vms: seq<Vm>, wild: nat): (z: Auction)
    requires m.Valid() && AllMeasured(vms) && !Refused(m, vms, wild)
    ensures Listed(z) && Over(z) && SameShape(vms, z.vms)
  {
    var sold := Sold(m, vms, wild);
    BiddersListed(m, vms, wild);
    RunAuction(m.windowSize,
               Open(sold, m.Capacity() - TotalAllocation(sold), Bidders(m, vms, wild, |vms|)))
  }

  function Divided(z: Auction): seq<Vm>
    requires Listed(z)
  {
    if z.market > 0 && z.fails != [] && z.needed > 0
    then Serve(z.vms, z.fails, Min(z.needed, z.market), z.needed)
    else z.vms
  }

  /** What is left of the market once the failed bidders are served. */
  function Leftover(z: Auction): int
    requires Listed(z)
  {
    z.market - (TotalAllocation(Divided(z)) - TotalAllocation(z.vms))
  }

  /** The books after the split and the even spread over n vCPUs. */
  function Finish(z: Auction, n: nat): seq<Vm>
    requires Listed(z) && n > 0
  {
    if Leftover(z) > 0 then Spread(Divided(z), Leftover(z) / n) else Divided(z)
  }

  /** The allocations the round ends with. */
  function Shared(m: Machine, vms: seq<Vm>, wild: nat): seq<Vm>
    requires m.Valid() && AllMeasured(vms) && NbVcpus(vms) > 0 && !Refused(m, vms, wild)
  {
    Finish(Auctioned(m, vms, wild), NbVcpus(vms))
  }

  function RunMarket(m: Machine, vms: seq<Vm>, wild: nat): seq<Vm>
    requires m.Valid() && AllMeasured(vms) && (vms == [] || NbVcpus(vms) > 0)
  {
    if vms == [] then vms
    else if Refused(m, vms, wild) then Sold(m, vms, wild)
    else Apply(Shared(m, vms, wild), MARKET_PERIOD)
  }

  // ---- the proportional split ----

  function ShareOf(vms: seq<Vm>, rest: nat, needed: nat): Ref -> nat {
    (r: Ref) => if needed > 0 && Has(vms, r) then Share(At(vms, r).buying, rest, needed) else 0
  }

  lemma ShareTight(want: nat, rest: nat, needed: nat)
    requires 0 < rest <= needed
    ensures needed * Share(want, rest, needed) <= rest * want
    ensures rest * want < needed * Share(want, rest, needed) + needed
  {
    DivBounds(want * rest, needed);
    var q := want * rest / needed;
    MulLe(rest, needed, want);
    if q > want {
      MulGap(want, q, needed);
      assert false;
    }
  }

  lemma Distributes(a: nat, b: nat, c: nat)
    ensures a * (b + c) == a * b + a * c
  {
  }

  /** Rounding every share down loses less than one unit per share. */
  lemma {:induction false} SumRoundedDown<T>(s: seq<T>, want: T -> nat, share: T -> nat, rest: nat, needed: nat)
    requires forall x :: x in s ==> needed * share(x) <= rest * want(x) < needed * share(x) + needed
    ensures needed * SumBy(s, share) <= rest * SumBy(s, want)
    ensures s != [] ==> rest * SumBy(s, want) < needed * SumBy(s, share) + needed * |s|
  {
    if s != [] {
      assert s[0] in s;
      SumRoundedDown(s[1..], want, share, rest, needed);
      Distributes(needed, share(s[0]), SumBy(s[1..], share));
      Distributes(rest, want(s[0]), SumBy(s[1..], want));
      Distributes(needed, 1, |s[1..]|);
    }
  }

  /** The shares of all failed bidders add up to at most `rest`, and miss it by less than one cycle
      per bidder. */
  lemma SharesFit(vms: seq<Vm>, fails: seq<Ref>, rest: nat, needed: nat)
    requires 0 < rest <= needed == SumBy(fails, WantOf(vms))
    requires forall r :: r in fails ==> Has(vms, r)
    ensures rest - |fails| < SumBy(fails, ShareOf(vms, rest, needed)) <= rest
  {
    forall r | r in fails
      ensures var q := ShareOf(vms, rest, needed)(r);
              needed * q <= rest * WantOf(vms)(r) < needed * q + needed
    {
      ShareTight(At(vms, r).buying, rest, needed);
    }
    SumRoundedDown(fails, WantOf(vms), ShareOf(vms, rest, needed), rest, needed);
    Squeeze(SumBy(fails, ShareOf(vms, rest, needed)), |fails|, rest, needed);
  }

  lemma Squeeze(total: nat, count: nat, rest: nat, needed: nat)
    requires needed * total <= rest * needed < needed * total + needed * count
    ensures rest - count < total <= rest
  {
    if total > rest {
      MulGap(rest, total, needed);
      assert false;
    }
    if total + count <= rest {
      Distributes(needed, total, count);
      MulLe(total + count, rest, needed);
      assert false;
    }
  }

  /** Serving one more bidder replaces that bidder's vCPU and nothing else. */
  lemma ServeOneMore(vms: seq<Vm>, served: seq<Ref>, q: Ref, rest: nat, needed: nat)
    requires needed > 0 && Has(vms, q) && q !in served
    ensures var u := Serve(vms, served, rest, needed);
      && Has(u, q) && At(u, q) == At(vms, q)
      && Serve(vms, served + [q], rest, needed)
         == Put(u, q, vms[q.vm].money, TakeShare(At(vms, q), rest, needed))
  {
    var u := Serve(vms, served, rest, needed);
    var w := Serve(vms, served + [q], rest, needed);
    var p := Put(u, q, vms[q.vm].money, TakeShare(At(vms, q), rest, needed));
    forall i | 0 <= i < |vms| ensures w[i] == p[i] {
      assert w[i].vcpus == p[i].vcpus;
    }
  }

  /** The shares served are exactly what the allocations gain. */
  lemma {:induction false} ServeTotals(vms: seq<Vm>, served: seq<Ref>, rest: nat, needed: nat)
    requires needed > 0 && Distinct(served) && forall r :: r in served ==> Has(vms, r)
    ensures TotalAllocation(Serve(vms, served, rest, needed))
         == TotalAllocation(vms) + SumBy(served, ShareOf(vms, rest, needed))
  {
    if served == [] {
      assert Serve(vms, served, rest, needed) == vms by {
        forall i | 0 <= i < |vms| ensures Serve(vms, served, rest, needed)[i] == vms[i] {
          assert Serve(vms, served, rest, needed)[i].vcpus == vms[i].vcpus;
        }
      }
    } else {
      var n := |served| - 1;
      var q, front := served[n], served[..n];
      assert served == front + [q];
      ServeTotals(vms, front, rest, needed);
      ServeOneMore(vms, front, q, rest, needed);
      PutTotals(Serve(vms, front, rest, needed), q, vms[q.vm].money, TakeShare(At(vms, q), rest, needed));
      SumByAppend(front, q, ShareOf(vms, rest, needed));
    }
  }

  // ---- the even spread ----

  function One(): Vcpu -> nat { (v: Vcpu) => 1 }

  lemma {:induction false} SumOne(s: seq<Vcpu>)
    ensures SumBy(s, One()) == |s|
  {
    if s != [] {
      SumOne(s[1..]);
    }
  }

  ghost predicate Uncapped(vms: seq<Vm>) {
    forall r :: Has(vms, r) ==> At(vms, r).alloc < SECOND
  }

  lemma RaiseTotals(vm: Vm, cycles: nat)
    ensures VmAllocation()(RaiseVm(vm, cycles)) <= VmAllocation()(vm) + cycles * VmSize()(vm)
    ensures (forall j :: 0 <= j < |vm.vcpus| ==> RaiseVm(vm, cycles).vcpus[j].alloc < SECOND) ==>
              VmAllocation()(RaiseVm(vm, cycles)) == VmAllocation()(vm) + cycles * VmSize()(vm)
  {
    SumByGain(vm.vcpus, Allocation(), RaiseVm(vm, cycles).vcpus, One(), cycles);
    SumOne(vm.vcpus);
  }

  /** The spread gives away at most `cycles` per vCPU, and exactly that when nobody reaches a full CPU. */
  lemma SpreadTotals(vms: seq<Vm>, cycles: nat)
    ensures TotalAllocation(Spread(vms, cycles)) <= TotalAllocation(vms) + cycles * NbVcpus(vms)
    ensures Uncapped(Spread(vms, cycles)) ==>
              TotalAllocation(Spread(vms, cycles)) == TotalAllocation(vms) + cycles * NbVcpus(vms)
  {
    var w := Spread(vms, cycles);
    forall i | 0 <= i < |vms|
      ensures VmAllocation()(w[i]) <= VmAllocation()(vms[i]) + cycles * VmSize()(vms[i])
      ensures Uncapped(w) ==> VmAllocation()(w[i]) == VmAllocation()(vms[i]) + cycles * VmSize()(vms[i])
    {
      RaiseTotals(vms[i], cycles);
      if Uncapped(w) {
        forall j | 0 <= j < |vms[i].vcpus| ensures w[i].vcpus[j].alloc < SECOND {
          assert Has(w, Ref(i, j)) && At(w, Ref(i, j)).alloc < SECOND;
        }
      }
    }
    SumByGain(vms, VmAllocation(), w, VmSize(), cycles);
  }

  // ---- the books of the round ----

  /** The auction of a round conserves the host's capacity and is paid for exactly. */
  lemma AuctionBooks(m: Machine, vms: seq<Vm>, wild: nat)
    requires m.Valid() && AllMeasured(vms) && !Refused(m, vms, wild)
    ensures Traded(Sold(m, vms, wild), Auctioned(m, vms, wild).vms)
    ensures Auctioned(m, vms, wild).market + TotalAllocation(Auctioned(m, vms, wild).vms) == m.Capacity()
    ensures Settled(Auctioned(m, vms, wild))
  {
    var sold := Sold(m, vms, wild);
    BiddersListed(m, vms, wild);
    RunBooks(m.windowSize, sold, m.Capacity() - TotalAllocation(sold), Bidders(m, vms, wild, |vms|),
             Auctioned(m, vms, wild));
  }

  lemma RunBooks(window: nat, vms: seq<Vm>, market: nat, buyers: seq<Ref>, z: Auction)
    requires Distinct(buyers) && forall r :: r in buyers ==> Has(vms, r)
    requires z == RunAuction(window, Open(vms, market, buyers))
    ensures Traded(vms, z.vms)
    ensures z.market + TotalAllocation(z.vms) == market + TotalAllocation(vms)
    ensures Settled(z)
  {
    AuctionOutcome(window, vms, market, buyers);
  }

  /** Splitting the rest never gives out more than the market holds. */
  lemma DividedBooks(z: Auction)
    requires Settled(z)
    ensures 0 <= Leftover(z) <= z.market
    ensures Leftover(z) + TotalAllocation(Divided(z)) == z.market + TotalAllocation(z.vms)
    ensures SameShape(z.vms, Divided(z))
  {
    if z.market > 0 && z.fails != [] && z.needed > 0 {
      var rest := Min(z.needed, z.market);
      ServeTotals(z.vms, z.fails, rest, z.needed);
      SharesFit(z.vms, z.fails, rest, z.needed);
    }
  }

  lemma SizesAgree(vms: seq<Vm>, w: seq<Vm>)
    requires SameShape(vms, w)
    ensures NbVcpus(vms) == NbVcpus(w)
  {
    SumByEq(vms, VmSize(), w, VmSize());
  }

  lemma FinishBooks(z: Auction, n: nat)
    requires Settled(z) && n == NbVcpus(z.vms) > 0
    ensures TotalAllocation(Finish(z, n)) <= z.market + TotalAllocation(z.vms)
    ensures Uncapped(Finish(z, n)) ==> z.market + TotalAllocation(z.vms) - TotalAllocation(Finish(z, n)) < n
  {
    DividedBooks(z);
    var left, w := Leftover(z), Divided(z);
    SizesAgree(z.vms, w);
    if left > 0 {
      SpreadTotals(w, left / n);
      DivBounds(left, n);
      assert n * (left / n) == left / n * n;
    }
  }

  /** Capacity safety: an applied round allocates at most the whole host. Work conservation: it gives
      some vCPU a full CPU, or leaves less than one cycle per vCPU unsold. */
  lemma CapacityAndWork(m: Machine, vms: seq<Vm>, wild: nat)
    requires m.Valid() && AllMeasured(vms) && NbVcpus(vms) > 0 && !Refused(m, vms, wild)
    ensures TotalAllocation(Shared(m, vms, wild)) <= m.Capacity()
    ensures Uncapped(Shared(m, vms, wild)) ==>
              m.Capacity() - TotalAllocation(Shared(m, vms, wild)) < NbVcpus(vms)
  {
    AuctionBooks(m, vms, wild);
    SizesAgree(vms, Auctioned(m, vms, wild).vms);
    FinishBooks(Auctioned(m, vms, wild), NbVcpus(vms));
  }
}
