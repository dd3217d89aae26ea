/** Who gets what is left over: a purchase stops only at a limit, the split is proportional for each
    bidder, and the spread is even between any two vCPUs of the host. */
module ShareProofs {
  import opened Sums
  import opened VcpuModel
  import opened MarketModel
  import opened AuctionProofs
  import opened RoundProofs
  import opened VcpuProofs

  // ---- a purchase ----

  /** The buyer served next gets cycles until its window, its account, its want or the market is used up;
      nobody else's vCPU changes. */
  lemma PurchaseGreedy(window: nat, a: Auction)
    requires Listed(a) && a.todo != []
    ensures !Over(a) && Has(a.vms, a.todo[0]) && Has(Step(window, a).vms, a.todo[0])
    ensures var b, r := Step(window, a), a.todo[0];
      var bought := At(b.vms, r).alloc - At(a.vms, r).alloc;
      && 0 <= bought <= window
      && b.market == a.market - bought
      && b.vms[r.vm].money == a.vms[r.vm].money - bought
      && At(b.vms, r) == At(a.vms, r).(alloc := At(b.vms, r).alloc, buying := At(a.vms, r).buying - bought)
      && (bought == window || b.market == 0 || b.vms[r.vm].money == 0 || At(b.vms, r).buying == 0)
  {
    var r := a.todo[0];
    var cycles := Affordable(window, a, r);
    if At(a.vms, r).buying != 0 && cycles != 0 {
      BuyTrades(a.vms, r, cycles);
    }
  }

  // ---- the split ----

  /** What a vCPU gets in the split. */
  function SplitGain(z: Auction, r: Ref): int
    requires Listed(z) && Has(z.vms, r)
  {
    DividedAt(z, r);
    At(Divided(z), r).alloc - At(z.vms, r).alloc
  }

  /** Each failed bidder gets its part of the rest in proportion to what it wants, rounded down, and
      nobody else gets anything. */
  lemma SplitProportional(z: Auction, r: Ref)
    requires Settled(z) && Has(z.vms, r) && z.market > 0
    ensures r !in z.fails ==> SplitGain(z, r) == 0
    ensures r in z.fails ==>
      var rest, want := Min(z.needed, z.market), At(z.vms, r).buying;
      && 0 <= SplitGain(z, r) <= want
      && z.needed * SplitGain(z, r) <= rest * want < z.needed * (SplitGain(z, r) + 1)
  {
    if r in z.fails {
      var i :| 0 <= i < |z.fails| && z.fails[i] == r;
      SumByMember(z.fails, i, WantOf(z.vms));
      var rest, want := Min(z.needed, z.market), At(z.vms, r).buying;
      ShareTight(want, rest, z.needed);
      assert SplitGain(z, r) == Share(want, rest, z.needed);
      Distributes(z.needed, Share(want, rest, z.needed), 1);
    }
  }

  // ---- the spread ----

  /** What a vCPU gains after the split. */
  function SpreadGain(z: Auction, n: nat, r: Ref): int
    requires Listed(z) && n > 0 && Has(z.vms, r)
  {
    SpreadHas(z, n, r);
    At(Finish(z, n), r).alloc - At(Divided(z), r).alloc
  }

  lemma SpreadHas(z: Auction, n: nat, r: Ref)
    requires Listed(z) && n > 0 && Has(z.vms, r)
    ensures Has(Divided(z), r) && Has(Finish(z, n), r)
  {
    DividedAt(z, r);
  }

  /** The spread is even: any two vCPUs that end below a full CPU, of one VM or of two, gain the same, an
      n-th of what was left, and one that ends at a full CPU gains at most that. */
  lemma SpreadEven(z: Auction, n: nat, r: Ref, q: Ref)
    requires Settled(z) && n > 0 && Has(z.vms, r) && Has(z.vms, q)
    requires At(z.vms, r).alloc + At(z.vms, r).buying <= SECOND && At(z.vms, q).alloc + At(z.vms, q).buying <= SECOND
    ensures Has(Finish(z, n), r) && Has(Finish(z, n), q)
    ensures At(Finish(z, n), q).alloc < SECOND ==> SpreadGain(z, n, q) == Leftover(z) / n
    ensures At(Finish(z, n), q).alloc < SECOND ==> 0 <= SpreadGain(z, n, r) <= SpreadGain(z, n, q)
    ensures At(Finish(z, n), q).alloc < SECOND && At(Finish(z, n), r).alloc < SECOND ==>
              SpreadGain(z, n, r) == SpreadGain(z, n, q)
  {
    SpreadHas(z, n, r);
    SpreadHas(z, n, q);
    DividedAt(z, r);
    DividedAt(z, q);
    DividedBooks(z);
    hide Divided, Leftover;
  }

  /** In a round that is applied: what every vCPU gains after the split is the same for all that end
      below a full CPU. */
  lemma RoundEven(m: Machine, vms: seq<Vm>, wild: nat, r: Ref, q: Ref)
    requires m.Valid() && AllMeasured(vms) && NbVcpus(vms) > 0 && !Refused(m, vms, wild)
    requires Has(vms, r) && Proper(m, At(vms, r)) && At(vms, r).buying == 0
    requires Has(vms, q) && Proper(m, At(vms, q)) && At(vms, q).buying == 0
    ensures var f, d := Shared(m, vms, wild), Divided(Auctioned(m, vms, wild));
      && Has(f, r) && Has(f, q) && Has(d, r) && Has(d, q)
      && (At(f, q).alloc < SECOND ==> 0 <= At(f, r).alloc - At(d, r).alloc <= At(f, q).alloc - At(d, q).alloc)
      && (At(f, q).alloc < SECOND && At(f, r).alloc < SECOND ==>
            At(f, r).alloc - At(d, r).alloc == At(f, q).alloc - At(d, q).alloc)
  {
    var z := Auctioned(m, vms, wild);
    WantsFit(m, vms, wild, r);
    WantsFit(m, vms, wild, q);
    AuctionBooks(m, vms, wild);
    hide Auctioned, Finish, Divided;
    SpreadEven(z, NbVcpus(vms), r, q);
    SpreadHas(z, NbVcpus(vms), r);
    SpreadHas(z, NbVcpus(vms), q);
  }

  lemma WantsFit(m: Machine, vms: seq<Vm>, wild: nat, r: Ref)
    requires m.Valid() && AllMeasured(vms) && !Refused(m, vms, wild)
    requires Has(vms, r) && Proper(m, At(vms, r)) && At(vms, r).buying == 0
    ensures var z := Auctioned(m, vms, wild);
      Has(z.vms, r) && At(z.vms, r).alloc + At(z.vms, r).buying <= SECOND
  {
    var sold := Sold(m, vms, wild);
    assert At(sold, r) == SellVcpu(m, At(vms, r), wild);
    SaleBounds(m, At(vms, r), wild);
    AuctionBooks(m, vms, wild);
    assert Advanced(At(sold, r), At(Auctioned(m, vms, wild).vms, r));
  }
}
