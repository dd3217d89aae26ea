/** What one round of the market does to each vCPU and to each account. */
module VcpuProofs {
  import opened Sums
  import opened VcpuModel
  import opened MarketModel
  import opened AuctionProofs
  import opened RoundProofs

  // ---- each vCPU ----

  lemma DividedAt(z: Auction, r: Ref)
    requires Listed(z) && Has(z.vms, r)
    ensures Has(Divided(z), r) && Advanced(At(z.vms, r), At(Divided(z), r))
    ensures Divided(z)[r.vm].money == z.vms[r.vm].money
  {
  }

  /** No stage after the sale lowers an allocation; the auction and the split only turn wants into
      allocations, and the spread stops at a full CPU. */
  lemma FinishAt(z: Auction, n: nat, r: Ref)
    requires Listed(z) && n > 0 && Has(z.vms, r)
    requires At(z.vms, r).alloc + At(z.vms, r).buying <= SECOND
    ensures var f := Finish(z, n);
      && SameShape(z.vms, f) && Has(f, r)
      && At(f, r) == At(z.vms, r).(alloc := At(f, r).alloc, buying := At(f, r).buying)
      && At(z.vms, r).alloc <= At(f, r).alloc <= SECOND
      && f[r.vm].money == z.vms[r.vm].money
  {
    DividedAt(z, r);
  }

  /** Every vCPU that enters the round with a proper nominal share and no stale want leaves it with at
      least LEAST, at least the smaller of its share and its target, and at most a full CPU. */
  lemma VcpuBounds(m: Machine, vms: seq<Vm>, wild: nat, r: Ref)
    requires m.Valid() && AllMeasured(vms) && NbVcpus(vms) > 0 && !Refused(m, vms, wild)
    requires Has(vms, r) && Proper(m, At(vms, r)) && At(vms, r).buying == 0
    ensures var f := Shared(m, vms, wild);
      && Has(f, r)
      && At(f, r) == At(vms, r).(alloc := At(f, r).alloc, buying := At(f, r).buying)
      && LEAST <= At(f, r).alloc <= SECOND
      && Min(Nominal(m, At(vms, r)), Target(m, At(vms, r), wild)) <= At(f, r).alloc
  {
    var sold, z := Sold(m, vms, wild), Auctioned(m, vms, wild);
    var v := At(vms, r);
    assert At(sold, r) == SellVcpu(m, v, wild);
    SaleBounds(m, v, wild);
    AuctionBooks(m, vms, wild);
    assert Advanced(At(sold, r), At(z.vms, r));
    FinishAt(z, NbVcpus(vms), r);
  }

  // ---- accounts ----

  /** The difference between nominal share and base allocation of a vCPU that does not bid. */
  function SavedOf(m: Machine, wild: nat): Vcpu -> nat {
    (v: Vcpu) =>
      if m.Valid() && Measured(v) && !Bids(m, v, wild) then Max(0, Nominal(m, v) - Base(m, v, wild)) else 0
  }

  /** The capping of the vCPU is not needed, or known to be at least LEAST. */
  predicate Ready(v: Vcpu, wild: nat)
    requires Measured(v)
  {
    Flat(v.slope) || Capping(v, wild) >= LEAST
  }

  lemma ScaledGrows(cap: nat, factor: real)
    requires factor >= 1.0
    ensures Scaled(cap, factor) >= cap
  {
    var c := cap as real;
    assert c * (factor - 1.0) >= 0.0;
    assert c * factor == c + c * (factor - 1.0);
  }

  /** What the credit of a vCPU that does not bid exceeds that difference by: its target is below LEAST. */
  function OverpaidOf(m: Machine, wild: nat): Vcpu -> nat {
    (v: Vcpu) =>
      if m.Valid() && Measured(v) && !Bids(m, v, wild) then Max(0, LEAST - Target(m, v, wild)) else 0
  }

  /** The credit of a vCPU is what it left of its nominal share and what it is overpaid. It is overpaid
      exactly when its target is below LEAST; a vCPU that is ready never has such a target. */
  lemma CreditExact(m: Machine, v: Vcpu, wild: nat)
    requires m.Valid() && Measured(v) && Proper(m, v)
    ensures CreditOf(m, wild)(v) == SavedOf(m, wild)(v) + OverpaidOf(m, wild)(v)
    ensures OverpaidOf(m, wild)(v) == 0 <==> Bids(m, v, wild) || Target(m, v, wild) >= LEAST
    ensures Ready(v, wild) ==> Target(m, v, wild) >= LEAST
  {
    ScaledGrows(Capping(v, wild), 1.0 + m.increasingSpeed);
  }

  /** A vCPU whose quota was never set and whose first slope rises: if the conversion of its capping
      yields 0, its account is credited 10000 cycles more than it left of its share. */
  lemma CreditInexactExample(v: Vcpu)
    requires v.freq == 50 && v.period == 10_000 && v.quota == WORD - 1
    requires v.slope == 1.0 && v.consumption == 100 && v.delta == 1.0
    ensures var m := Machine(1, 100, 0.95, 0.5, 0.1, 0.1, 100_000, true);
      && m.Valid() && Proper(m, v) && !Ready(v, 0)
      && CreditOf(m, 0)(v) == 500_000 && SavedOf(m, 0)(v) == 490_000 && OverpaidOf(m, 0)(v) == 10_000
  {
    var m := Machine(1, 100, 0.95, 0.5, 0.1, 0.1, 100_000, true);
    assert Nominal(m, v) == 500_000;
    assert AbsoluteConsumption(v.consumption, v.delta) == 100;
    assert Capping(v, 0) == 0;
    assert RelativeUse(v, 0) == Infinite;
    assert Scaled(0, 1.0 + 0.1) == 0;
  }

  function BoughtIn(m: Machine, vms: seq<Vm>, wild: nat, i: nat): int
    requires m.Valid() && AllMeasured(vms) && i < |vms|
  {
    if Refused(m, vms, wild) then 0
    else VmAllocation()(Auctioned(m, vms, wild).vms[i]) - VmAllocation()(Sold(m, vms, wild)[i])
  }

  function SavedIn(m: Machine, vms: seq<Vm>, wild: nat, i: nat): nat
    requires i < |vms|
  {
    SumBy(vms[i].vcpus, SavedOf(m, wild))
  }

  function OverpaidIn(m: Machine, vms: seq<Vm>, wild: nat, i: nat): nat
    requires i < |vms|
  {
    SumBy(vms[i].vcpus, OverpaidOf(m, wild))
  }

  lemma VmCredit(m: Machine, vm: Vm, wild: nat)
    requires m.Valid() && forall j :: 0 <= j < |vm.vcpus| ==> Measured(vm.vcpus[j]) && Proper(m, vm.vcpus[j])
    ensures SumBy(vm.vcpus, CreditOf(m, wild))
         == SumBy(vm.vcpus, SavedOf(m, wild)) + SumBy(vm.vcpus, OverpaidOf(m, wild))
  {
    forall j | 0 <= j < |vm.vcpus|
      ensures CreditOf(m, wild)(vm.vcpus[j]) == SavedOf(m, wild)(vm.vcpus[j]) + OverpaidOf(m, wild)(vm.vcpus[j])
    {
      CreditExact(m, vm.vcpus[j], wild);
    }
    SumByAdd(vm.vcpus, CreditOf(m, wild), vm.vcpus, SavedOf(m, wild), OverpaidOf(m, wild));
  }

  /** One round of one account: what it had plus what its vCPUs saved and were overpaid is what it has
      plus what its vCPUs bought, whether or not the round is refused. */
  lemma RoundLedger(m: Machine, vms: seq<Vm>, wild: nat, i: nat)
    requires m.Valid() && AllMeasured(vms) && NbVcpus(vms) > 0 && i < |vms|
    requires forall j :: 0 <= j < |vms[i].vcpus| ==> Proper(m, vms[i].vcpus[j])
    ensures |RunMarket(m, vms, wild)| == |vms|
    ensures RunMarket(m, vms, wild)[i].money + BoughtIn(m, vms, wild, i)
         == vms[i].money + SavedIn(m, vms, wild, i) + OverpaidIn(m, vms, wild, i)
  {
    VmCredit(m, vms[i], wild);
    if !Refused(m, vms, wild) {
      AuctionBooks(m, vms, wild);
      FinishMoney(Auctioned(m, vms, wild), NbVcpus(vms), i);
    }
  }

  lemma FinishMoney(z: Auction, n: nat, i: nat)
    requires Listed(z) && n > 0 && i < |z.vms|
    ensures |Finish(z, n)| == |z.vms| && Finish(z, n)[i].money == z.vms[i].money
  {
  }

  // ---- admission ----

  function NominalOf(m: Machine): Vcpu -> nat {
    (v: Vcpu) => if m.cpuFreq > 0 then Nominal(m, v) else 0
  }

  function VmNominal(m: Machine): Vm -> nat {
    (vm: Vm) => SumBy(vm.vcpus, NominalOf(m))
  }

  /** The nominal shares of all vCPUs together. */
  function TotalNominal(m: Machine, vms: seq<Vm>): nat { SumBy(vms, VmNominal(m)) }

  /** When the nominal shares fit the host, the sale of base cycles never overcommits it. */
  lemma AdmittedNeverRefused(m: Machine, vms: seq<Vm>, wild: nat)
    requires m.Valid() && AllMeasured(vms) && AllProper(m, vms)
    requires TotalNominal(m, vms) <= m.Capacity()
    ensures !Refused(m, vms, wild)
  {
    var sold := Sold(m, vms, wild);
    forall i | 0 <= i < |vms| ensures VmAllocation()(sold[i]) <= VmNominal(m)(vms[i]) {
      forall j | 0 <= j < |vms[i].vcpus|
        ensures Allocation()(sold[i].vcpus[j]) <= NominalOf(m)(vms[i].vcpus[j])
      {
        assert Has(vms, Ref(i, j)) && Proper(m, At(vms, Ref(i, j)));
        SaleBounds(m, vms[i].vcpus[j], wild);
      }
      SumByLe(sold[i].vcpus, Allocation(), vms[i].vcpus, NominalOf(m));
    }
    SumByLe(sold, VmAllocation(), vms, VmNominal(m));
  }
}
