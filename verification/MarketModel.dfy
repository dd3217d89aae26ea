/** One round of the vCPU market, stage by stage, on values: the sale of base cycles, the auction,
    the proportional split among failed bidders, the even spread and the application of quotas. */
module MarketModel {
  import opened Sums
  import opened VcpuModel

  datatype Vm = Vm(money: nat, vcpus: seq<Vcpu>)

  /** Number of processors of the host and configuration of the market. */
  datatype Machine = Machine(
    nprocs: nat,
    cpuFreq: nat,
    triggerIncrement: real,
    triggerDecrement: real,
    increasingSpeed: real,
    decreasingSpeed: real,
    windowSize: nat,
    enabled: bool)
  {
    /** What the arithmetic of the market demands of its configuration. */
    predicate Valid() {
      cpuFreq > 0 && 0.0 <= increasingSpeed && 0.0 <= decreasingSpeed <= 1.0
    }

    function Capacity(): nat { nprocs * SECOND }
  }

  /** A controller whose numbers can be divided by: its interval and its period are not empty. */
  predicate Measured(v: Vcpu) {
    v.period > 0 && v.delta > 0.0
  }

  ghost predicate AllMeasured(vms: seq<Vm>) {
    forall i, j :: 0 <= i < |vms| && 0 <= j < |vms[i].vcpus| ==> Measured(vms[i].vcpus[j])
  }

  // ---- base sale ----

  function Nominal(m: Machine, v: Vcpu): nat
    requires m.cpuFreq > 0
  {
    v.freq * SECOND / m.cpuFreq
  }

  /** Subtraction of unsigned words. */
  function WordMinus(a: nat, b: nat): nat { (a - b) % WORD }

  predicate Flat(slope: real) { -0.1 < slope < 0.1 }

  /** The second of the four cases: the vCPU used little of what it was allowed. */
  predicate Idle(m: Machine, v: Vcpu, wild: nat)
    requires Measured(v)
  {
    !Flat(v.slope) && RelativeUse(v, wild).Below(m.triggerDecrement)
  }

  function Scaled(cap: nat, factor: real): nat
    requires factor >= 0.0
  {
    assert cap as real * factor >= 0.0;
    (cap as real * factor).Floor
  }

  /** The cycles the vCPU should have next, before its nominal share and the market limit them. */
  function Target(m: Machine, v: Vcpu, wild: nat): nat
    requires m.Valid() && Measured(v)
  {
    var cap := Capping(v, wild);
    if Flat(v.slope) then Min(SECOND, v.consumption + LEAST)
    else if Idle(m, v, wild) then Max(LEAST, Max(v.consumption, Scaled(cap, 1.0 - m.decreasingSpeed)))
    else if RelativeUse(v, wild).Above(m.triggerIncrement) then Scaled(cap, 1.0 + m.increasingSpeed)
    else cap
  }

  /** The cycles sold at the base price: never more than nominal, and at least LEAST except in the
      idle case. */
  function Base(m: Machine, v: Vcpu, wild: nat): nat
    requires m.Valid() && Measured(v)
  {
    var b := Min(Nominal(m, v), Target(m, v, wild));
    if Idle(m, v, wild) then b else Max(LEAST, b)
  }

  predicate Bids(m: Machine, v: Vcpu, wild: nat)
    requires m.Valid() && Measured(v)
  {
    Target(m, v, wild) > Nominal(m, v)
  }

  /** What a bidder wants on top of its nominal share. */
  function Wanted(m: Machine, v: Vcpu, wild: nat): nat
    requires m.Valid() && Measured(v) && Bids(m, v, wild)
  {
    Min(WordMinus(SECOND, Nominal(m, v)), Target(m, v, wild) - Nominal(m, v))
  }

  /** What the account of the VM gets for a vCPU that does not bid. */
  function Credit(m: Machine, v: Vcpu, wild: nat): nat
    requires m.Valid() && Measured(v)
  {
    if Bids(m, v, wild) then 0 else Nominal(m, v) - Target(m, v, wild)
  }

  function SellVcpu(m: Machine, v: Vcpu, wild: nat): Vcpu
    requires m.Valid() && Measured(v)
  {
    var sold := v.(alloc := Base(m, v, wild));
    if Bids(m, v, wild) then sold.(buying := Wanted(m, v, wild)) else sold
  }

  // ---- books: the vCPUs and accounts of all VMs ----

  /** Position of a vCPU: index of its VM, then its index in the VM. */
  datatype Ref = Ref(vm: nat, cpu: nat)

  predicate Distinct(s: seq<Ref>) {
    forall i, j :: 0 <= i < j < |s| ==> s[i] != s[j]
  }

  predicate Has(vms: seq<Vm>, r: Ref) {
    r.vm < |vms| && r.cpu < |vms[r.vm].vcpus|
  }

  function At(vms: seq<Vm>, r: Ref): Vcpu
    requires Has(vms, r)
  {
    vms[r.vm].vcpus[r.cpu]
  }

  /** The books after replacing one vCPU and the balance of its VM. */
  function Put(vms: seq<Vm>, r: Ref, money: nat, v: Vcpu): seq<Vm>
    requires Has(vms, r)
  {
    vms[r.vm := Vm(money, vms[r.vm].vcpus[r.cpu := v])]
  }

  ghost predicate SameShape(vms: seq<Vm>, w: seq<Vm>) {
    |w| == |vms| && forall i :: 0 <= i < |vms| ==> |w[i].vcpus| == |vms[i].vcpus|
  }

  function Allocation(): Vcpu -> nat { (v: Vcpu) => v.alloc }

  function Want(): Vcpu -> nat { (v: Vcpu) => v.buying }

  function VmAllocation(): Vm -> nat { (vm: Vm) => SumBy(vm.vcpus, Allocation()) }

  function VmWant(): Vm -> nat { (vm: Vm) => SumBy(vm.vcpus, Want()) }

  function VmSize(): Vm -> nat { (vm: Vm) => |vm.vcpus| }

  /** All cycles allocated so far. */
  function TotalAllocation(vms: seq<Vm>): nat { SumBy(vms, VmAllocation()) }

  /** All cycles vCPUs still want. */
  function TotalWant(vms: seq<Vm>): nat { SumBy(vms, VmWant()) }

  function NbVcpus(vms: seq<Vm>): nat { SumBy(vms, VmSize()) }

  function CreditOf(m: Machine, wild: nat): Vcpu -> nat {
    (v: Vcpu) => if m.Valid() && Measured(v) then Credit(m, v, wild) else 0
  }

  // ---- stage 1: the sale of base cycles to everyone ----

  function SellVm(m: Machine, vm: Vm, wild: nat): Vm
    requires m.Valid() && forall j :: 0 <= j < |vm.vcpus| ==> Measured(vm.vcpus[j])
  {
    Vm(vm.money + SumBy(vm.vcpus, CreditOf(m, wild)),
       seq(|vm.vcpus|, j requires 0 <= j < |vm.vcpus| => SellVcpu(m, vm.vcpus[j], wild)))
  }

  function Sold(m: Machine, vms: seq<Vm>, wild: nat): (sold: seq<Vm>)
    requires m.Valid() && AllMeasured(vms)
  {
    seq(|vms|, i requires 0 <= i < |vms| => SellVm(m, vms[i], wild))
  }

  /** The bidders among the first n vCPUs of VM i. */
  function BiddersOf(m: Machine, vm: Vm, wild: nat, i: nat, n: nat): seq<Ref>
    requires m.Valid() && n <= |vm.vcpus|
    requires forall j :: 0 <= j < |vm.vcpus| ==> Measured(vm.vcpus[j])
  {
    if n == 0 then []
    else BiddersOf(m, vm, wild, i, n - 1)
         + if Bids(m, vm.vcpus[n - 1], wild) then [Ref(i, n - 1)] else []
  }

  /** The bidders of the first n VMs, in the order in which they are sold their base cycles. */
  function Bidders(m: Machine, vms: seq<Vm>, wild: nat, n: nat): seq<Ref>
    requires m.Valid() && AllMeasured(vms) && n <= |vms|
  {
    if n == 0 then []
    else Bidders(m, vms, wild, n - 1) + BiddersOf(m, vms[n - 1], wild, n - 1, |vms[n - 1].vcpus|)
  }

  // ---- stage 2: the auction ----

  /** A state of the auction. The buyers already served in the current pass are `done`, those still
      to be served are `todo`. */
  datatype Auction = Auction(
    vms: seq<Vm>,
    market: nat,
    needed: nat,
    done: seq<Ref>,
    todo: seq<Ref>,
    fails: seq<Ref>)

  ghost predicate Listed(a: Auction) {
    forall r :: r in a.done || r in a.todo || r in a.fails ==> Has(a.vms, r)
  }

  /** What a buyer can get at once: limited by the window, its account, its want and the market. */
  function Affordable(window: nat, a: Auction, r: Ref): nat
    requires Has(a.vms, r)
  {
    Min(Min(Min(window, a.vms[r.vm].money), At(a.vms, r).buying), a.market)
  }

  function Buy(vms: seq<Vm>, r: Ref, cycles: nat): seq<Vm>
    requires Has(vms, r) && cycles <= vms[r.vm].money && cycles <= At(vms, r).buying
  {
    var v := At(vms, r);
    Put(vms, r, vms[r.vm].money - cycles, v.(alloc := v.alloc + cycles, buying := v.buying - cycles))
  }

  /** The outer loop is left only between passes. */
  predicate Over(a: Auction) {
    a.todo == [] && (a.market == 0 || a.done == [])
  }

  /** One step: start the next pass, or serve the next buyer of this one. */
  function Step(window: nat, a: Auction): Auction
    requires !Over(a) && Listed(a)
  {
    if a.todo == [] then a.(todo := a.done, done := [])
    else
      var r, rest := a.todo[0], a.(todo := a.todo[1..]);
      var cycles := Affordable(window, a, r);
      if At(a.vms, r).buying == 0 then rest
      else if cycles == 0 then rest.(needed := a.needed + At(a.vms, r).buying, fails := a.fails + [r])
      else rest.(vms := Buy(a.vms, r, cycles), market := a.market - cycles, done := a.done + [r])
  }

  // ---- stage 3: the proportional split among the failed bidders ----

  /** The part of `rest` that goes to a bidder wanting `want` out of `needed`. */
  function Share(want: nat, rest: nat, needed: nat): nat
    requires needed > 0
  {
    Min(want, want * rest / needed)
  }

  function TakeShare(v: Vcpu, rest: nat, needed: nat): Vcpu
    requires needed > 0
  {
    var cycles := Share(v.buying, rest, needed);
    v.(alloc := v.alloc + cycles, buying := v.buying - cycles)
  }

  /** The books after each of the listed bidders got its share. */
  function Serve(vms: seq<Vm>, served: seq<Ref>, rest: nat, needed: nat): (w: seq<Vm>)
    requires needed > 0
    ensures SameShape(vms, w)
  {
    seq(|vms|, i requires 0 <= i < |vms| =>
      vms[i].(vcpus := seq(|vms[i].vcpus|, j requires 0 <= j < |vms[i].vcpus| =>
        if Ref(i, j) in served then TakeShare(vms[i].vcpus[j], rest, needed) else vms[i].vcpus[j])))
  }

  // ---- stage 4: the even spread ----

  function Raise(v: Vcpu, cycles: nat): Vcpu { v.(alloc := Min(SECOND, v.alloc + cycles)) }

  function RaiseVm(vm: Vm, cycles: nat): Vm {
    vm.(vcpus := seq(|vm.vcpus|, j requires 0 <= j < |vm.vcpus| => Raise(vm.vcpus[j], cycles)))
  }

  function Spread(vms: seq<Vm>, cycles: nat): seq<Vm> {
    seq(|vms|, i requires 0 <= i < |vms| => RaiseVm(vms[i], cycles))
  }

  // ---- stage 5: the quotas ----

  function ApplyVm(vm: Vm, period: nat): Vm {
    vm.(vcpus := seq(|vm.vcpus|,
                     j requires 0 <= j < |vm.vcpus| => SetQuota(vm.vcpus[j], vm.vcpus[j].alloc, period)))
  }

  function Apply(vms: seq<Vm>, period: nat): seq<Vm> {
    seq(|vms|, i requires 0 <= i < |vms| => ApplyVm(vms[i], period))
  }
}
