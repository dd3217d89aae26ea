/** The state of one vCPU controller and the value-level meaning of each of its operations. */
module VcpuModel {
  import opened Sums
  import Regression

  /** Microseconds of one CPU in one second: the most a vCPU can be given. */
  const SECOND := 1_000_000

  /** The least a vCPU is sold, one percent of a CPU. */
  const LEAST := 10_000

  /** Allocations from here on are enforced as "unlimited" in the cgroup. */
  const UNLIMITED_FROM := 850_000

  /** The period with which the market applies its allocations. */
  const MARKET_PERIOD := 100_000

  /** Number of percentages a controller remembers before it computes a slope. */
  const MAX_HISTORY := 5

  /** Unsigned machine words hold 0 .. WORD - 1. */
  const WORD := 0x1_0000_0000_0000_0000

  datatype Vcpu = Vcpu(
    freq: nat,
    period: nat,
    quota: nat,
    limit: int,
    history: seq<real>,
    slope: real,
    sumFrequency: nat,
    lastFrequency: nat,
    sumConsumption: nat,
    nbMicros: nat,
    microConsumption: nat,
    lastMicroConsumption: nat,
    consumption: nat,
    microDelta: real,
    sumDelta: real,
    delta: real,
    alloc: nat,
    buying: nat)

  /** What one tick reads for one vCPU: the usage counter of its cgroup, the time since the
      previous tick and the frequency of the core it runs on. */
  datatype Reading = Reading(usage: nat, elapsed: real, speed: nat)

  /** The usage counter never runs backwards and time passes between two ticks. */
  ghost predicate Readable(v: Vcpu, r: Reading) {
    v.microConsumption <= r.usage && r.elapsed > 0.0
  }

  /** A controller that has just been constructed; the fields the constructor leaves
      uninitialised may hold anything. */
  ghost predicate Fresh(v: Vcpu) {
    && v.period == 10_000 && v.quota == WORD - 1
    && v.history == [] && v.slope == 0.0
    && v.sumFrequency == 0 && v.sumConsumption == 0 && v.nbMicros == 0
    && v.microConsumption == 0 && v.lastMicroConsumption == 0 && v.consumption == 0
    && v.sumDelta == 0.0
  }

  // ---- acquiring ----

  function Update(v: Vcpu, r: Reading): Vcpu
    requires Readable(v, r)
  {
    var used := r.usage - v.microConsumption;
    v.(lastMicroConsumption := v.microConsumption,
       microConsumption := r.usage,
       microDelta := r.elapsed,
       sumFrequency := v.sumFrequency + Cycles(r.speed, used, r.elapsed),
       sumConsumption := v.sumConsumption + used,
       sumDelta := v.sumDelta + r.elapsed,
       nbMicros := v.nbMicros + 1)
  }

  lemma UpdateFields(v: Vcpu, r: Reading)
    requires Readable(v, r)
    ensures Update(v, r) == v.(
              lastMicroConsumption := v.microConsumption,
              microConsumption := r.usage,
              microDelta := r.elapsed,
              sumFrequency := v.sumFrequency + Cycles(r.speed, r.usage - v.microConsumption, r.elapsed),
              sumConsumption := v.sumConsumption + (r.usage - v.microConsumption),
              sumDelta := v.sumDelta + r.elapsed,
              nbMicros := v.nbMicros + 1)
  {
  }

  /** The frequency of the core, weighted with the share of the time the vCPU ran. */
  function Cycles(speed: nat, used: nat, elapsed: real): nat
    requires elapsed > 0.0
  {
    CyclesNonNegative(speed, used, elapsed);
    (speed as real * (used as real / 1000000.0 / elapsed)).Floor
  }

  lemma CyclesNonNegative(speed: nat, used: nat, elapsed: real)
    requires elapsed > 0.0
    ensures (speed as real * (used as real / 1000000.0 / elapsed)).Floor >= 0
  {
    var u := used as real / 1000000.0;
    assert u >= 0.0;
    assert u / elapsed >= 0.0;
    assert speed as real * (u / elapsed) >= 0.0;
  }

  /** Consumption of the last interval scaled to one second. */
  function AbsoluteConsumption(consumption: nat, delta: real): nat
    requires delta > 0.0
  {
    assert consumption as real / delta >= 0.0;
    (consumption as real / delta).Floor
  }

  function Percentage(consumption: nat, delta: real): real
    requires delta > 0.0
  {
    AbsoluteConsumption(consumption, delta) as real / 1000000.0 * 100.0
  }

  /** The history after one more percentage: the window slides once it is full. */
  function Remember(history: seq<real>, percentage: real): seq<real> {
    var h := history + [percentage];
    if |h| > MAX_HISTORY then h[1..] else h
  }

  /** There is an interval to look at: updateBeforeMarket divides by its ticks and its length. */
  predicate Sampled(v: Vcpu) {
    v.nbMicros > 0 && v.sumDelta > 0.0
  }

  function UpdateBeforeMarket(v: Vcpu): Vcpu
    requires Sampled(v)
  {
    var h := Remember(v.history, Percentage(v.sumConsumption, v.sumDelta));
    v.(lastFrequency := v.sumFrequency / v.nbMicros,
       consumption := v.sumConsumption,
       delta := v.sumDelta,
       sumConsumption := 0,
       sumFrequency := 0,
       nbMicros := 0,
       sumDelta := 0.0,
       alloc := 0,
       buying := 0,
       history := h,
       slope := if |h| == MAX_HISTORY then Regression.Slope(h) else v.slope)
  }

  // ---- controlling ----

  /** The quota that grants `micros` microseconds a second, in microseconds a period. */
  function QuotaFor(micros: nat, period: nat): nat {
    micros * period / SECOND
  }

  /** The microseconds a second that a quota grants. */
  function Granted(quota: nat, period: nat): nat
    requires period > 0
  {
    quota * SECOND / period
  }

  function SetQuota(v: Vcpu, micros: nat, period: nat): Vcpu {
    var q := QuotaFor(micros, period);
    v.(period := period, quota := q, limit := if micros >= UNLIMITED_FROM then -1 else q)
  }

  /** getAbsoluteCapping. Converting a value that does not fit an unsigned word yields a value the
      language leaves open, here `wild`. */
  function Capping(v: Vcpu, wild: nat): nat
    requires v.period > 0
  {
    var c := Granted(v.quota, v.period);
    if c < WORD then c else wild
  }

  /** A quotient of floats: division by zero is defined. */
  datatype Ratio = Finite(value: real) | Infinite | NotANumber {
    predicate Below(t: real) { Finite? && value < t }

    predicate Above(t: real) { (Finite? && value > t) || Infinite? }
  }

  /** getRelativePercentConsumption / 100: the share of its capping that the vCPU used. */
  function RelativeUse(v: Vcpu, wild: nat): Ratio
    requires v.period > 0 && v.delta > 0.0
  {
    var used, cap := AbsoluteConsumption(v.consumption, v.delta), Capping(v, wild);
    if cap > 0 then Finite(used as real / cap as real)
    else if used > 0 then Infinite
    else NotANumber
  }

  // ---- quantisation of quotas ----

  /** A quota never grants more than was asked, and for periods dividing a second it falls short
      by less than one step of 1000000 / period. */
  lemma QuotaTight(micros: nat, period: nat)
    requires period > 0
    ensures Granted(QuotaFor(micros, period), period) <= micros
    ensures SECOND % period == 0 ==> micros - Granted(QuotaFor(micros, period), period) < SECOND / period
  {
    var q := QuotaFor(micros, period);
    var c := Granted(q, period);
    DivBounds(micros * period, SECOND);
    DivBounds(q * SECOND, period);
    assert period * c <= q * SECOND <= micros * period;
    if c > micros {
      MulGap(micros, c, period);
      assert false;
    }
    if SECOND % period == 0 {
      var k := SECOND / period;
      assert SECOND == k * period;
      assert q * SECOND == (q * k) * period;
      DivUnique(q * SECOND, period, q * k);
      assert (micros - c) * period == micros * period - q * SECOND;
      if micros - c >= k {
        MulLe(k, micros - c, period);
        assert false;
      }
    }
  }

  /** Granting again exactly what a quota grants leaves the quota unchanged precisely when the
      grant is a whole number of microseconds; for periods dividing a second it always is. */
  lemma QuotaStable(quota: nat, period: nat)
    requires period > 0
    ensures QuotaFor(Granted(quota, period), period) == quota <==> quota * SECOND % period == 0
    ensures SECOND % period == 0 ==> QuotaFor(Granted(quota, period), period) == quota
  {
    if SECOND % period == 0 {
      assert SECOND == SECOND / period * period;
      assert quota * SECOND == (quota * (SECOND / period)) * period;
      DivUnique(quota * SECOND, period, quota * (SECOND / period));
    }
    var c := Granted(quota, period);
    DivBounds(quota * SECOND, period);
    assert period * c == c * period;
    if c * period == quota * SECOND {
      DivUnique(c * period, SECOND, quota);
    } else {
      DivBounds(c * period, SECOND);
      var q := QuotaFor(c, period);
      assert q * SECOND <= c * period < quota * SECOND;
    }
  }

  /** A period that does not divide a second: quota 2 of period 3 grants 666666, which gives quota 1. */
  lemma QuotaUnstableExample()
    ensures QuotaFor(Granted(2, 3), 3) == 1
  {
  }

  /** With the market's period the quota keeps all but the last decimal digit of an allocation. */
  lemma MarketQuota(v: Vcpu, micros: nat, wild: nat)
    requires micros <= SECOND
    ensures micros - 10 < Capping(SetQuota(v, micros, MARKET_PERIOD), wild) <= micros
    ensures micros >= LEAST ==> Capping(SetQuota(v, micros, MARKET_PERIOD), wild) >= LEAST
  {
    QuotaTight(micros, MARKET_PERIOD);
  }
}
