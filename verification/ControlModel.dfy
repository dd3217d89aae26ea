/** The control loop of the server: the order of updates, market rounds and resets over a whole run. */
module ControlModel {
  import opened VcpuModel
  import opened MarketModel
  import opened RoundProofs

  /** The VMs and the counter `i` of the loop. */
  datatype World = World(vms: seq<Vm>, i: nat)

  /** One tick of the loop reads the counters of all vCPUs; a client may reset the accounts between
      two ticks. */
  datatype Event = Tick(readings: seq<seq<Reading>>, wild: nat) | Reset

  function UpdateVm(vm: Vm, readings: seq<Reading>): Vm
    requires |readings| == |vm.vcpus|
    requires forall j :: 0 <= j < |vm.vcpus| ==> Readable(vm.vcpus[j], readings[j])
  {
    vm.(vcpus := seq(|vm.vcpus|, j requires 0 <= j < |vm.vcpus| => Update(vm.vcpus[j], readings[j])))
  }

  ghost predicate AllReadable(vms: seq<Vm>, readings: seq<seq<Reading>>) {
    && |readings| == |vms|
    && (forall i :: 0 <= i < |vms| ==> |readings[i]| == |vms[i].vcpus|)
    && (forall i, j :: 0 <= i < |vms| && 0 <= j < |vms[i].vcpus| ==> Readable(vms[i].vcpus[j], readings[i][j]))
  }

  function UpdateAll(vms: seq<Vm>, readings: seq<seq<Reading>>): seq<Vm>
    requires AllReadable(vms, readings)
  {
    seq(|vms|, i requires 0 <= i < |vms| => UpdateVm(vms[i], readings[i]))
  }

  function PrepareVm(vm: Vm): Vm
    requires forall j :: 0 <= j < |vm.vcpus| ==> Sampled(vm.vcpus[j])
  {
    vm.(vcpus := seq(|vm.vcpus|, j requires 0 <= j < |vm.vcpus| => UpdateBeforeMarket(vm.vcpus[j])))
  }

  ghost predicate AllSampled(vms: seq<Vm>) {
    forall i, j :: 0 <= i < |vms| && 0 <= j < |vms[i].vcpus| ==> Sampled(vms[i].vcpus[j])
  }

  function PrepareAll(vms: seq<Vm>): seq<Vm>
    requires AllSampled(vms)
  {
    seq(|vms|, i requires 0 <= i < |vms| => PrepareVm(vms[i]))
  }

  function ResetAll(vms: seq<Vm>): seq<Vm> {
    seq(|vms|, i requires 0 <= i < |vms| => vms[i].(money := 0))
  }

  /** Between ticks no interval has negative length, and an interval without ticks is empty. */
  ghost predicate Sound(v: Vcpu) {
    v.period > 0 && v.sumDelta >= 0.0
  }

  ghost predicate SoundWorld(w: World) {
    && w.i <= 1
    && (forall i, j :: 0 <= i < |w.vms| && 0 <= j < |w.vms[i].vcpus| ==> Sound(w.vms[i].vcpus[j]))
    && (w.vms == [] || NbVcpus(w.vms) > 0)
  }

  /** What happens is possible: readings fit the vCPUs and the counters do not run backwards. */
  ghost predicate Possible(w: World, e: Event) {
    e.Tick? ==> AllReadable(w.vms, e.readings)
  }

  /** The state the market works on in this tick. */
  function Prepared(w: World, e: Event): (p: seq<Vm>)
    requires SoundWorld(w) && Possible(w, e) && e.Tick?
    ensures AllMeasured(p) && SameShape(w.vms, p)
  {
    PrepareAll(UpdateAll(w.vms, e.readings))
  }

  /** A tick in which the second part of the loop body is executed. */
  predicate Macro(w: World, e: Event) { e.Tick? && w.i == 1 }

  function Next(m: Machine, w: World, e: Event): (w': World)
    requires m.Valid() && SoundWorld(w) && Possible(w, e)
  {
    if e.Reset? then (if m.enabled then w.(vms := ResetAll(w.vms)) else w)
    else if Macro(w, e) then
      var p := Prepared(w, e);
      SizesAgree(w.vms, p);
      World(if m.enabled then RunMarket(m, p, e.wild) else p, 1)
    else World(UpdateAll(w.vms, e.readings), w.i + 1)
  }
}
