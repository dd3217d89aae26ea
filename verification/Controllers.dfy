/** The objects of the server: vCPU controllers, VMs and the client that lists the running VMs. Each
    operation is proved against its meaning on values. */
module Controllers {
  import opened VcpuModel
  import opened MarketModel
  import opened ControlModel

  class LibvirtVcpu {
    const context: LibvirtVm
    const id: nat
    const nominalFreq: nat
    var period: nat
    var quota: nat
    var limit: int
    var history: seq<real>
    var slope: real
    var sumFrequency: nat
    var lastFrequency: nat
    var sumConsumption: nat
    var nbMicros: nat
    var microConsumption: nat
    var lastMicroConsumption: nat
    var consumption: nat
    var microDelta: real
    var sumDelta: real
    var delta: real
    var alloc: nat
    var buying: nat

    function View(): Vcpu
      reads this
    {
      Vcpu(nominalFreq, period, quota, limit, history, slope, sumFrequency, lastFrequency, sumConsumption,
           nbMicros, microConsumption, lastMicroConsumption, consumption, microDelta, sumDelta, delta,
           alloc, buying)
    }

    constructor (id: nat, context: LibvirtVm)
      ensures this.id == id && this.context == context && nominalFreq == context.freq
      ensures Fresh(View())
    {
      this.id, this.context, nominalFreq := id, context, context.freq;
      period, quota := 10_000, WORD - 1;
      history, slope := [], 0.0;
      sumFrequency, sumConsumption, nbMicros := 0, 0, 0;
      microConsumption, lastMicroConsumption, consumption := 0, 0, 0;
      sumDelta, delta := 0.0, 0.0;
    }

    method Update(r: Reading)
      requires Readable(View(), r)
      modifies this
      ensures View() == VcpuModel.Update(old(View()), r)
    {
      hide VcpuModel.Update, Cycles;
      UpdateFields(View(), r);
      lastMicroConsumption := microConsumption;
      microConsumption := r.usage;
      microDelta := r.elapsed;
      var used := microConsumption - lastMicroConsumption;
      sumFrequency := sumFrequency + Cycles(r.speed, used, microDelta);
      sumConsumption := sumConsumption + used;
      sumDelta := sumDelta + microDelta;
      nbMicros := nbMicros + 1;
    }

    method UpdateBeforeMarket()
      requires Sampled(View())
      modifies this
      ensures View() == VcpuModel.UpdateBeforeMarket(old(View()))
    {
      Average();
      Clear();
      AddToHistory();
    }

    method Average()
      requires Sampled(View())
      modifies this`lastFrequency, this`consumption, this`delta
      ensures View() == old(View()).(
        lastFrequency := sumFrequency / nbMicros, consumption := sumConsumption, delta := sumDelta)
    {
      lastFrequency := sumFrequency / nbMicros;
      consumption := sumConsumption;
      delta := sumDelta;
    }

    method Clear()
      modifies this`sumConsumption, this`sumFrequency, this`nbMicros, this`sumDelta, this`alloc, this`buying
      ensures View() == old(View()).(
        sumConsumption := 0, sumFrequency := 0, nbMicros := 0, sumDelta := 0.0, alloc := 0, buying := 0)
    {
      sumConsumption := 0;
      sumFrequency := 0;
      nbMicros := 0;
      sumDelta := 0.0;
      alloc := 0;
      buying := 0;
    }

    method AddToHistory()
      requires delta > 0.0
      modifies this`history, this`slope
      ensures View() == old(View()).(
        history := Remember(old(history), Percentage(consumption, delta)),
        slope := var h := Remember(old(history), Percentage(consumption, delta));
                 if |h| == MAX_HISTORY then Regression.Slope(h) else old(slope))
    {
      history := history + [Percentage(consumption, delta)];
      if |history| > MAX_HISTORY {
        history := history[1..];
      }
      if |history| == MAX_HISTORY {
        slope := Regression.ComputeSlope(history);
      }
    }

    method SetQuota(nbMicros: nat, period: nat)
      modifies this
      ensures View() == VcpuModel.SetQuota(old(View()), nbMicros, period)
    {
      this.period := period;
      quota := nbMicros * period / SECOND;
      if nbMicros >= UNLIMITED_FROM {
        limit := -1;
      } else {
        limit := quota;
      }
    }
  }

  class LibvirtVm {
    const freq: nat
    var money: nat
    var controllers: seq<LibvirtVcpu>

    /** Each controller knows its VM and its place in it, so no two are the same object. */
    ghost predicate Valid()
      reads this
    {
      forall j :: 0 <= j < |controllers| ==> controllers[j].context == this && controllers[j].id == j
    }

    ghost function View(): Vm
      reads this, controllers
    {
      Vm(money, Views(controllers))
    }

    constructor (freq: nat, vcpus: nat)
      ensures Valid() && this.freq == freq && money == 0 && |controllers| == vcpus
      ensures fresh(controllers)
      ensures forall j :: 0 <= j < vcpus ==> Fresh(controllers[j].View()) && controllers[j].nominalFreq == freq
    {
      this.freq := freq;
      money := 0;
      controllers := [];
      new;
      for i := 0 to vcpus
        invariant |controllers| == i && Valid() && money == 0
        invariant fresh(controllers)
        invariant forall j :: 0 <= j < i ==> Fresh(controllers[j].View()) && controllers[j].nominalFreq == freq
      {
        var c := new LibvirtVcpu(i, this);
        controllers := controllers + [c];
      }
    }

    method UpdateControllers(readings: seq<Reading>)
      requires Valid() && |readings| == |controllers|
      requires forall j :: 0 <= j < |controllers| ==> Readable(controllers[j].View(), readings[j])
      modifies controllers
      ensures View() == UpdateVm(old(View()), readings)
    {
      for j := 0 to |controllers|
        invariant forall k :: 0 <= k < j ==>
          controllers[k].View() == Update(old(controllers[k].View()), readings[k])
        invariant forall k :: j <= k < |controllers| ==> controllers[k].View() == old(controllers[k].View())
      {
        controllers[j].Update(readings[j]);
      }
    }

    method UpdateBeforeMarket()
      requires Valid()
      requires forall j :: 0 <= j < |controllers| ==> Sampled(controllers[j].View())
      modifies controllers
      ensures View() == PrepareVm(old(View()))
    {
      for j := 0 to |controllers|
        invariant forall k :: 0 <= k < j ==>
          controllers[k].View() == VcpuModel.UpdateBeforeMarket(old(controllers[k].View()))
        invariant forall k :: j <= k < |controllers| ==> controllers[k].View() == old(controllers[k].View())
      {
        controllers[j].UpdateBeforeMarket();
      }
    }

    method ApplyMarketAllocation(period: nat)
      requires Valid()
      modifies controllers
      ensures View() == ApplyVm(old(View()), period)
    {
      for j := 0 to |controllers|
        invariant forall k :: 0 <= k < j ==>
          controllers[k].View() == SetQuota(old(controllers[k].View()), old(controllers[k].alloc), period)
        invariant forall k :: j <= k < |controllers| ==> controllers[k].View() == old(controllers[k].View())
      {
        controllers[j].SetQuota(controllers[j].alloc, period);
      }
    }
  }

  ghost function Views(cs: seq<LibvirtVcpu>): (vs: seq<Vcpu>)
    reads cs
    ensures |vs| == |cs| && forall j :: 0 <= j < |cs| ==> vs[j] == cs[j].View()
  {
    seq(|cs|, j requires 0 <= j < |cs| reads cs => cs[j].View())
  }
}
