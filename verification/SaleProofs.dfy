/** What the sale of base cycles decides, in terms of what the vCPU used and was allowed: the four cases
    by their numbers alone. */
module SaleProofs {
  import opened Sums
  import opened VcpuModel
  import opened MarketModel
  import opened RoundProofs

  // ---- the quantities ----

  /** The nominal share is the share of a second that the nominal frequency is of the CPU's, rounded down. */
  lemma NominalExact(m: Machine, v: Vcpu)
    requires m.cpuFreq > 0
    ensures Nominal(m, v) * m.cpuFreq <= v.freq * SECOND < (Nominal(m, v) + 1) * m.cpuFreq
  {
    DivBounds(v.freq * SECOND, m.cpuFreq);
  }

  lemma FloorTimes(q: real, d: real, a: int)
    requires d > 0.0 && a as real <= q < (a + 1) as real
    ensures a as real * d <= q * d < (a + 1) as real * d
  {
    var low, high := q - a as real, (a + 1) as real - q;
    assert low * d >= 0.0 && high * d > 0.0;
    assert low * d == q * d - a as real * d;
    assert high * d == (a + 1) as real * d - q * d;
  }

  /** The consumption per second, rounded down; a percentage is a hundredth of a second. */
  lemma AbsoluteExact(consumption: nat, delta: real)
    requires delta > 0.0
    ensures var a := AbsoluteConsumption(consumption, delta);
      && a as real * delta <= consumption as real < (a + 1) as real * delta
      && Percentage(consumption, delta) * 10_000.0 == a as real
  {
    var c, a, q := consumption as real, AbsoluteConsumption(consumption, delta), consumption as real / delta;
    assert q * delta == c;
    assert a == q.Floor;
    hide AbsoluteConsumption;
    FloorTimes(q, delta, a);
    assert a as real * delta <= q * delta;
    assert q * delta < (a + 1) as real * delta;
    assert c < (a + 1) as real * delta;
  }

  /** The frequency weighted with the time the vCPU ran, rounded down. */
  lemma CyclesExact(speed: nat, used: nat, elapsed: real)
    requires elapsed > 0.0
    ensures var c := Cycles(speed, used, elapsed);
      c as real * (elapsed * 1_000_000.0) <= (speed * used) as real < (c + 1) as real * (elapsed * 1_000_000.0)
  {
    var c, e, u := Cycles(speed, used, elapsed), elapsed * 1_000_000.0, used as real / 1_000_000.0;
    var share := u / elapsed;
    assert c == (speed as real * share).Floor;
    hide Cycles;
    Cancelled(u, elapsed);
    Product(speed, used);
    Weighted(speed as real, share, e, used as real, (speed * used) as real, c);
  }

  lemma Weighted(speed: real, share: real, e: real, used: real, product: real, c: int)
    requires e > 0.0 && share * e == used && speed * used == product && c == (speed * share).Floor
    ensures c as real * e <= product < (c + 1) as real * e
  {
    Triple(speed, share, e);
    Below(speed * share, e, c, product);
  }

  lemma Below(q: real, e: real, c: int, product: real)
    requires e > 0.0 && q * e == product && c == q.Floor
    ensures c as real * e <= product < (c + 1) as real * e
  {
    FloorTimes(q, e, c);
    var high := (c + 1) as real;
    assert q * e < high * e;
    assert product < high * e;
  }

  lemma Cancelled(u: real, d: real)
    requires d > 0.0
    ensures u / d * (d * 1_000_000.0) == u * 1_000_000.0
  {
    assert u / d * d == u;
    Triple(u / d, d, 1_000_000.0);
  }

  lemma Triple(a: real, b: real, c: real)
    ensures (a * b) * c == a * (b * c)
  {
  }

  lemma {:induction false} Product(a: nat, b: nat)
    ensures a as real * b as real == (a * b) as real
  {
    if a > 0 {
      Product(a - 1, b);
      assert a * b == (a - 1) * b + b;
      assert a as real == (a - 1) as real + 1.0;
      assert ((a - 1) as real + 1.0) * b as real == (a - 1) as real * b as real + b as real;
    }
  }

  /** From 85 percent of a CPU on the cgroup is not limited, below it gets the quota. */
  lemma LimitExact(v: Vcpu, micros: nat, period: nat)
    ensures SetQuota(v, micros, period).limit == -1 <==> 100 * micros >= 85 * SECOND
    ensures 100 * micros < 85 * SECOND ==> SetQuota(v, micros, period).limit == SetQuota(v, micros, period).quota
  {
  }

  // ---- the four cases ----

  /** What the vCPU asks for, as its share, its account and its want show: the nominal share less what is
      credited, or plus what it wants to buy. */
  function Demand(m: Machine, v: Vcpu, wild: nat): int
    requires m.Valid() && Measured(v)
  {
    Nominal(m, v) - Credit(m, v, wild) + SellVcpu(m, v, wild).buying
  }

  lemma DemandCapped(m: Machine, v: Vcpu, wild: nat)
    requires m.Valid() && Measured(v) && Proper(m, v) && v.buying == 0
    ensures Demand(m, v, wild) == Min(SECOND, Target(m, v, wild)) && Nominal(m, v) <= SECOND
    ensures Idle(m, v, wild) ==> SellVcpu(m, v, wild).alloc == Min(Nominal(m, v), Target(m, v, wild))
  {
    SaleBounds(m, v, wild);
    hide Target, Idle;
  }

  /** What the vCPU is sold follows from what it asks for. */
  lemma SoldExact(m: Machine, v: Vcpu, wild: nat)
    requires m.Valid() && Measured(v) && Proper(m, v) && v.buying == 0
    ensures var s, d, n := SellVcpu(m, v, wild), Demand(m, v, wild), Nominal(m, v);
      && 0 <= d <= SECOND
      && Min(n, d) <= s.alloc <= n && s.alloc <= Max(LEAST, d) && LEAST <= s.alloc
      && s.buying == Max(0, d - n)
      && s == v.(alloc := s.alloc, buying := s.buying)
  {
    SaleBounds(m, v, wild);
  }

  /** Steady use: one percent of a CPU more than was consumed. */
  lemma SteadySale(m: Machine, v: Vcpu, wild: nat)
    requires m.Valid() && Measured(v) && Proper(m, v) && v.buying == 0
    requires -0.1 < v.slope < 0.1
    ensures Demand(m, v, wild) <= SECOND && Demand(m, v, wild) <= v.consumption + SECOND / 100
    ensures Demand(m, v, wild) == SECOND || Demand(m, v, wild) == v.consumption + SECOND / 100
  {
    SaleBounds(m, v, wild);
  }

  /** Changing use below the decrement trigger: the capping decreased by its speed, but not below what was
      consumed, nor below LEAST. */
  lemma IdleSale(m: Machine, v: Vcpu, wild: nat)
    requires m.Valid() && Measured(v) && Proper(m, v) && v.buying == 0
    requires !(-0.1 < v.slope < 0.1) && Capping(v, wild) > 0
    requires AbsoluteConsumption(v.consumption, v.delta) as real < m.triggerDecrement * Capping(v, wild) as real
    ensures var d, decreased := Demand(m, v, wild), Capping(v, wild) as real * (1.0 - m.decreasingSpeed);
      && (d == SECOND || (d >= LEAST && d >= v.consumption && d as real > decreased - 1.0))
      && (d <= LEAST || d <= v.consumption || d as real <= decreased)
      && d <= Max(LEAST, Max(v.consumption, Capping(v, wild)))
    ensures var s, n := SellVcpu(m, v, wild).alloc, Nominal(m, v);
      s == n || (s < n && s == Demand(m, v, wild))
  {
    UseBelow(AbsoluteConsumption(v.consumption, v.delta), Capping(v, wild), m.triggerDecrement);
    IdleTarget(m, v, wild);
    ScaledExact(Capping(v, wild), 1.0 - m.decreasingSpeed);
    ScaledDown(Capping(v, wild), 1.0 - m.decreasingSpeed);
    DemandCapped(m, v, wild);
    hide Scaled, AbsoluteConsumption, Capping, Nominal, SellVcpu, Demand, Target, Idle;
    LeastOf(Target(m, v, wild), v.consumption, Scaled(Capping(v, wild), 1.0 - m.decreasingSpeed), Capping(v, wild),
            Capping(v, wild) as real * (1.0 - m.decreasingSpeed));
  }

  lemma IdleTarget(m: Machine, v: Vcpu, wild: nat)
    requires m.Valid() && Measured(v) && !(-0.1 < v.slope < 0.1) && Capping(v, wild) > 0
    requires AbsoluteConsumption(v.consumption, v.delta) as real / Capping(v, wild) as real < m.triggerDecrement
    ensures Idle(m, v, wild)
    ensures Target(m, v, wild) == Max(LEAST, Max(v.consumption, Scaled(Capping(v, wild), 1.0 - m.decreasingSpeed)))
  {
    hide Scaled, AbsoluteConsumption, Capping;
  }

  lemma LeastOf(target: nat, used: nat, scaled: nat, cap: nat, exact: real)
    requires target == Max(LEAST, Max(used, scaled)) && scaled <= cap
    requires scaled as real <= exact < scaled as real + 1.0
    ensures target >= LEAST && target >= used && target as real > exact - 1.0
    ensures target <= LEAST || target <= used || target as real <= exact
    ensures target <= Max(LEAST, Max(used, cap))
  {
  }

  /** Changing use above the increment trigger: the capping increased by its speed. */
  lemma BusySale(m: Machine, v: Vcpu, wild: nat)
    requires m.Valid() && Measured(v) && Proper(m, v) && v.buying == 0
    requires !(-0.1 < v.slope < 0.1)
    requires AbsoluteConsumption(v.consumption, v.delta) as real >= m.triggerDecrement * Capping(v, wild) as real
    requires AbsoluteConsumption(v.consumption, v.delta) as real > m.triggerIncrement * Capping(v, wild) as real
    ensures var d, increased := Demand(m, v, wild), Capping(v, wild) as real * (1.0 + m.increasingSpeed);
      && d as real <= increased
      && (d == SECOND || d as real > increased - 1.0)
  {
    UseNotBelow(AbsoluteConsumption(v.consumption, v.delta), Capping(v, wild), m.triggerDecrement);
    UseAbove(AbsoluteConsumption(v.consumption, v.delta), Capping(v, wild), m.triggerIncrement);
    BusyTarget(m, v, wild);
    ScaledExact(Capping(v, wild), 1.0 + m.increasingSpeed);
    DemandCapped(m, v, wild);
    hide Scaled, AbsoluteConsumption, Capping, Nominal, SellVcpu, Demand, Target, Idle;
  }

  lemma BusyTarget(m: Machine, v: Vcpu, wild: nat)
    requires m.Valid() && Measured(v) && !(-0.1 < v.slope < 0.1)
    requires Capping(v, wild) > 0 ==>
               AbsoluteConsumption(v.consumption, v.delta) as real / Capping(v, wild) as real >= m.triggerDecrement
    requires if Capping(v, wild) > 0
             then AbsoluteConsumption(v.consumption, v.delta) as real / Capping(v, wild) as real > m.triggerIncrement
             else AbsoluteConsumption(v.consumption, v.delta) > 0
    ensures Target(m, v, wild) == Scaled(Capping(v, wild), 1.0 + m.increasingSpeed)
  {
    hide Scaled, AbsoluteConsumption, Capping;
  }

  /** Changing use between the triggers: the capping, up to a full CPU. */
  lemma MiddleSale(m: Machine, v: Vcpu, wild: nat)
    requires m.Valid() && Measured(v) && Proper(m, v) && v.buying == 0
    requires !(-0.1 < v.slope < 0.1)
    requires m.triggerDecrement * Capping(v, wild) as real <= AbsoluteConsumption(v.consumption, v.delta) as real
    requires AbsoluteConsumption(v.consumption, v.delta) as real <= m.triggerIncrement * Capping(v, wild) as real
    ensures Demand(m, v, wild) == Min(SECOND, Capping(v, wild))
  {
    UseNotBelow(AbsoluteConsumption(v.consumption, v.delta), Capping(v, wild), m.triggerDecrement);
    UseNotAbove(AbsoluteConsumption(v.consumption, v.delta), Capping(v, wild), m.triggerIncrement);
    DemandCapped(m, v, wild);
    hide Scaled, AbsoluteConsumption, Capping, Nominal, SellVcpu, Demand;
  }

  // ---- quotients ----

  lemma ScaledExact(cap: nat, factor: real)
    requires factor >= 0.0
    ensures Scaled(cap, factor) as real <= cap as real * factor < Scaled(cap, factor) as real + 1.0
  {
  }

  lemma ScaledDown(cap: nat, factor: real)
    requires 0.0 <= factor <= 1.0
    ensures Scaled(cap, factor) <= cap
  {
    assert cap as real * (1.0 - factor) >= 0.0;
    assert cap as real * factor <= cap as real;
  }

  lemma Quotient(used: nat, cap: nat, trigger: real)
    requires cap > 0
    ensures used as real / cap as real < trigger <==> (used as real) < trigger * cap as real
    ensures used as real / cap as real > trigger <==> used as real > trigger * cap as real
  {
    var q, c := used as real / cap as real, cap as real;
    assert q * c == used as real;
    if q < trigger { assert (trigger - q) * c > 0.0; }
    if q > trigger { assert (q - trigger) * c > 0.0; }
  }

  lemma UseBelow(used: nat, cap: nat, trigger: real)
    requires cap > 0 && (used as real) < trigger * cap as real
    ensures used as real / cap as real < trigger
  {
    Quotient(used, cap, trigger);
  }

  lemma UseNotBelow(used: nat, cap: nat, trigger: real)
    requires used as real >= trigger * cap as real
    ensures cap > 0 ==> used as real / cap as real >= trigger
  {
    if cap > 0 { Quotient(used, cap, trigger); }
  }

  lemma UseAbove(used: nat, cap: nat, trigger: real)
    requires used as real > trigger * cap as real
    ensures if cap > 0 then used as real / cap as real > trigger else used > 0
  {
    if cap > 0 { Quotient(used, cap, trigger); }
  }

  lemma UseNotAbove(used: nat, cap: nat, trigger: real)
    requires used as real <= trigger * cap as real
    ensures if cap > 0 then used as real / cap as real <= trigger else used == 0
  {
    if cap > 0 { Quotient(used, cap, trigger); }
  }
}
