/** A run in which an account is overpaid: the first four rounds are refused, so that no quota was
    ever set when the first slope is computed. */
module OverpaidRun {
  import opened Sums
  import opened VcpuModel
  import opened MarketModel
  import opened RoundProofs
  import opened VcpuProofs
  import opened ControlModel
  import opened RunProofs
  import opened LedgerProofs

  /** One processor, for three vCPUs that each may use half of it. */
  const HOST := Machine(1, 100, 0.95, 0.5, 0.1, 0.1, 100_000, true)

  /** The usage counter of each vCPU at tick k: one percent more of a CPU in every second. */
  function Usage(k: nat): nat {
    if k == 0 then 490_000 else Usage(k - 1) + 490_000 + 10_000 * (k - 1)
  }

  function ReadingAt(k: nat): Reading { Reading(Usage(k), 1.0, 0) }

  function TickAt(k: nat): Event { Tick([[ReadingAt(k), ReadingAt(k), ReadingAt(k)]], 0) }

  function Alike(v: Vcpu, money: nat, i: nat): World { World([Vm(money, [v, v, v])], i) }

  function Rising(k: nat): seq<real> { seq(k, j requires 0 <= j < k => (49 + j) as real) }

  /** A vCPU after the first tick and k refused rounds. */
  predicate Stage(v: Vcpu, k: nat) {
    && v.freq == 50 && v.period == 10_000 && v.quota == WORD - 1 && v.slope == 0.0
    && v.history == Rising(k) && v.microConsumption == Usage(k)
    && (if k == 0 then v.sumConsumption == 490_000 && v.sumDelta == 1.0 && v.nbMicros == 1
        else v.sumConsumption == 0 && v.sumDelta == 0.0 && v.nbMicros == 0)
  }

  /** The vCPU as the market of round k + 1 finds it. */
  function Seen(v: Vcpu, k: nat): Vcpu
    requires Stage(v, k)
  {
    StageSampled(v, k);
    UpdateBeforeMarket(Update(v, ReadingAt(k + 1)))
  }

  lemma StageSampled(v: Vcpu, k: nat)
    requires Stage(v, k)
    ensures Readable(v, ReadingAt(k + 1)) && Sampled(Update(v, ReadingAt(k + 1)))
  {
  }

  /** Its consumption and its new percentage. */
  lemma StageConsumes(v: Vcpu, k: nat)
    requires Stage(v, k) && k < MAX_HISTORY
    ensures var p := Seen(v, k);
      && p.freq == 50 && p.period == 10_000 && p.quota == WORD - 1 && p.microConsumption == Usage(k + 1)
      && p.consumption == (if k == 0 then 980_000 else 490_000 + 10_000 * k)
      && p.delta == (if k == 0 then 2.0 else 1.0)
      && p.history == Rising(k + 1)
      && p.slope == (if k + 1 == MAX_HISTORY then Regression.Slope(Rising(k + 1)) else 0.0)
      && p.sumConsumption == 0 && p.sumDelta == 0.0 && p.nbMicros == 0 && p.buying == 0
  {
    hide Regression.Slope;
    var t := Update(v, ReadingAt(k + 1));
    assert t.sumConsumption == if k == 0 then 980_000 else 490_000 + 10_000 * k;
    assert t.sumDelta == if k == 0 then 2.0 else 1.0;
    PercentageIs(k);
    assert Rising(k) + [(49 + k) as real] == Rising(k + 1);
  }

  lemma PercentageIs(k: nat)
    ensures Percentage(980_000, 2.0) == 49.0
    ensures Percentage(490_000 + 10_000 * k, 1.0) == (49 + k) as real
  {
    var c := 490_000 + 10_000 * k;
    assert c as real / 1.0 == c as real;
    assert c as real == 10000.0 * (49 + k) as real;
  }

  /** In the first four rounds it bids, and takes its nominal share. */
  lemma StageBids(v: Vcpu, k: nat)
    requires Stage(v, k) && k < 4
    ensures var p := Seen(v, k);
      && Measured(p) && Proper(HOST, p) && Bids(HOST, p, 0)
      && SellVcpu(HOST, p, 0).alloc == 500_000 && Credit(HOST, p, 0) == 0
      && Stage(SellVcpu(HOST, p, 0), k + 1)
  {
    StageConsumes(v, k);
    hide Seen, Rising, Usage;
    var p := Seen(v, k);
    assert Nominal(HOST, p) == 500_000;
    assert Target(HOST, p, 0) > 500_000 || k == 0;
  }

  lemma SlopeIsOne()
    ensures Regression.Slope(Rising(5)) == 1.0
  {
    hide Regression.Slope;
    assert forall x :: 0 <= x < 5 ==> Rising(5)[x] == 1.0 * x as real + 49.0;
    Regression.SlopeExactOnLines(Rising(5), 1.0, 49.0);
  }

  /** In the fifth its slope is 1 and its capping converts to 0. */
  lemma FifthRound(v: Vcpu)
    requires Stage(v, 4)
    ensures Measured(Seen(v, 4)) && OverpaidOf(HOST, 0)(Seen(v, 4)) == 10_000
  {
    StageConsumes(v, 4);
    var p := Seen(v, 4);
    SlopeIsOne();
    hide Seen, Rising, Usage, Regression.Slope;
    assert p.slope == 1.0 && Nominal(HOST, p) == 500_000;
    assert AbsoluteConsumption(p.consumption, p.delta) == 530_000;
    assert Capping(p, 0) == 0 && RelativeUse(p, 0) == Infinite;
    assert Scaled(0, 1.0 + 0.1) == 0;
    assert Target(HOST, p, 0) == 0;
  }

  // ---- three vCPUs in step ----

  lemma AlikePossible(v: Vcpu, k: nat, i: nat)
    requires i <= 1 && Sound(v) && Readable(v, ReadingAt(k))
    ensures SoundWorld(Alike(v, 0, i)) && Possible(Alike(v, 0, i), TickAt(k))
  {
    SizeOfThree(v);
  }

  lemma SizeOfThree(v: Vcpu)
    ensures NbVcpus([Vm(0, [v, v, v])]) == 3
  {
    var vms := [Vm(0, [v, v, v])];
    assert vms[1..] == [] && VmSize()(vms[0]) == 3;
    assert SumBy(vms[1..], VmSize()) == 0;
  }

  lemma SumOfThree(v: Vcpu, f: Vcpu -> nat)
    ensures SumBy([v, v, v], f) == 3 * f(v)
  {
    assert [v, v, v][1..] == [v, v] && [v, v][1..] == [v] && [v][1..] == [];
    assert SumBy([v], f) == f(v);
    assert SumBy([v, v], f) == f(v) + SumBy([v], f);
  }

  lemma FirstTick(v: Vcpu)
    requires Sound(v) && Readable(v, ReadingAt(0))
    ensures SoundWorld(Alike(v, 0, 0)) && Possible(Alike(v, 0, 0), TickAt(0))
    ensures Next(HOST, Alike(v, 0, 0), TickAt(0)) == Alike(Update(v, ReadingAt(0)), 0, 1)
  {
    AlikePossible(v, 0, 0);
    hide Update;
    assert UpdateAll([Vm(0, [v, v, v])], TickAt(0).readings)[0].vcpus
        == [Update(v, ReadingAt(0)), Update(v, ReadingAt(0)), Update(v, ReadingAt(0))];
  }

  lemma PreparedAlike(v: Vcpu, k: nat)
    requires Stage(v, k)
    ensures SoundWorld(Alike(v, 0, 1)) && Possible(Alike(v, 0, 1), TickAt(k + 1))
    ensures Prepared(Alike(v, 0, 1), TickAt(k + 1)) == Alike(Seen(v, k), 0, 1).vms
  {
    StageSampled(v, k);
    AlikePossible(v, k + 1, 1);
    hide Update, UpdateBeforeMarket, Stage;
    var w, e := Alike(v, 0, 1), TickAt(k + 1);
    assert Prepared(w, e)[0].vcpus == Alike(Seen(v, k), 0, 1).vms[0].vcpus;
  }

  lemma RefusedRound(v: Vcpu, k: nat)
    requires Stage(v, k) && k < 4
    ensures SoundWorld(Alike(v, 0, 1)) && Possible(Alike(v, 0, 1), TickAt(k + 1))
    ensures Next(HOST, Alike(v, 0, 1), TickAt(k + 1)) == Alike(SellVcpu(HOST, Seen(v, k), 0), 0, 1)
    ensures !IsApplied(HOST, Alike(v, 0, 1), TickAt(k + 1))
  {
    PreparedAlike(v, k);
    StageBids(v, k);
    var p := Seen(v, k);
    hide Seen, Stage, Prepared, SellVcpu, Bids, Credit, Proper, Possible, SoundWorld;
    SoldAlike(p);
  }

  lemma SoldAlike(p: Vcpu)
    requires Measured(p) && SellVcpu(HOST, p, 0).alloc == 500_000 && Credit(HOST, p, 0) == 0
    ensures var vms := Alike(p, 0, 1).vms;
      && AllMeasured(vms) && Refused(HOST, vms, 0) && NbVcpus(vms) == 3
      && RunMarket(HOST, vms, 0) == Alike(SellVcpu(HOST, p, 0), 0, 1).vms
  {
    hide SellVcpu, Credit;
    var vms := Alike(p, 0, 1).vms;
    SizeOfThree(p);
    var s := SellVcpu(HOST, p, 0);
    SumOfThree(p, CreditOf(HOST, 0));
    SumOfThree(s, Allocation());
    assert Sold(HOST, vms, 0)[0].vcpus == [s, s, s];
    assert Sold(HOST, vms, 0) == Alike(s, 0, 1).vms;
    assert Alike(s, 0, 1).vms[1..] == [];
  }

  // ---- the run ----

  lemma RunLonger(ws: seq<World>, es: seq<Event>, e: Event) returns (longer: seq<World>)
    requires RunProofs.Run(HOST, ws, es) && SoundWorld(Last(ws)) && Possible(Last(ws), e)
    ensures longer == ws + [Next(HOST, Last(ws), e)] && RunProofs.Run(HOST, longer, es + [e])
    ensures longer[0] == ws[0] && Last(longer) == Next(HOST, Last(ws), e)
    ensures Rounds(longer, es + [e]) == Rounds(ws, es) + if Macro(Last(ws), e) then 1 else 0
    ensures Applied(HOST, longer, es + [e]) == Applied(HOST, ws, es) + if IsApplied(HOST, Last(ws), e) then 1 else 0
    ensures Overpaid(HOST, longer, es + [e], 0) == Overpaid(HOST, ws, es, 0) + EventOverpaid(HOST, Last(ws), e, 0)
  {
    hide Next, SoundWorld, Possible, IsApplied, EventOverpaid, Macro;
    longer := ws + [Next(HOST, Last(ws), e)];
    assert Front(longer) == ws && Front(es + [e]) == es;
  }

  /** The run up to k refused rounds. */
  lemma {:induction false} RefusedRounds(start: Vcpu, k: nat) returns (ws: seq<World>, es: seq<Event>, v: Vcpu)
    requires Fresh(start) && start.freq == 50 && k <= 4
    ensures RunProofs.Run(HOST, ws, es) && Reset !in es && ws[0] == Alike(start, 0, 0)
    ensures Last(ws) == Alike(v, 0, 1) && Stage(v, k)
    ensures Rounds(ws, es) == k && Applied(HOST, ws, es) == 0
  {
    hide *;
    if k == 0 {
      ws, es, v := FirstRun(start);
    } else {
      var shorter, events, before := RefusedRounds(start, k - 1);
      StageBids(before, k - 1);
      ValidHost();
      v := SellVcpu(HOST, Seen(before, k - 1), 0);
      RefusedRound(before, k - 1);
      ws := RunLonger(shorter, events, TickAt(k));
      es := events + [TickAt(k)];
      MacroTick(before, k);
    }
  }

  lemma FirstRun(start: Vcpu) returns (ws: seq<World>, es: seq<Event>, v: Vcpu)
    requires Fresh(start) && start.freq == 50
    ensures RunProofs.Run(HOST, ws, es) && Reset !in es && ws[0] == Alike(start, 0, 0)
    ensures Last(ws) == Alike(v, 0, 1) && Stage(v, 0)
    ensures Rounds(ws, es) == 0 && Applied(HOST, ws, es) == 0
  {
    v := Update(start, ReadingAt(0));
    FirstTick(start);
    assert Rising(0) == [] && Stage(v, 0);
    hide Next, Update, SoundWorld, Possible, Stage;
    ws := RunLonger([Alike(start, 0, 0)], [], TickAt(0));
    es := [] + [TickAt(0)];
  }

  lemma MacroTick(v: Vcpu, k: nat)
    ensures Macro(Alike(v, 0, 1), TickAt(k)) && TickAt(k) != Reset
  {
  }

  lemma FifthOverpaid(v: Vcpu)
    requires Stage(v, 4)
    ensures SoundWorld(Alike(v, 0, 1)) && Possible(Alike(v, 0, 1), TickAt(5))
    ensures EventOverpaid(HOST, Alike(v, 0, 1), TickAt(5), 0) == 30_000
  {
    PreparedAlike(v, 4);
    FifthRound(v);
    hide Stage, Seen, Prepared, OverpaidOf, Possible, SoundWorld;
    SumOfThree(Seen(v, 4), OverpaidOf(HOST, 0));
  }

  /** The ledger without what was overpaid fails in a run that starts with fresh controllers: in the
      fifth round all three vCPUs are credited 10000 cycles too much. */
  lemma OverpaidReachable(start: Vcpu) returns (ws: seq<World>, es: seq<Event>)
    requires Fresh(start) && start.freq == 50
    ensures RunProofs.Run(HOST, ws, es) && Reset !in es && Initial(ws[0]) && AllProper(HOST, ws[0].vms)
    ensures Rounds(ws, es) == 5 && |ws[0].vms| == |Last(ws).vms| == 1 && Overpaid(HOST, ws, es, 0) >= 30_000
    ensures Last(ws).vms[0].money + Bought(HOST, ws, es, 0) != ws[0].vms[0].money + Saved(HOST, ws, es, 0)
  {
    var shorter, events, v := RefusedRounds(start, 4);
    hide *;
    FreshWorld(start);
    FifthOverpaid(v);
    MacroTick(v, 5);
    ws := RunLonger(shorter, events, TickAt(5));
    es := events + [TickAt(5)];
    LedgerExact(HOST, ws, es, 0) by { ValidHost(); }
  }

  lemma ValidHost()
    ensures HOST.Valid()
  {
  }

  lemma FreshWorld(start: Vcpu)
    requires Fresh(start) && start.freq == 50
    ensures Initial(Alike(start, 0, 0)) && AllProper(HOST, Alike(start, 0, 0).vms)
    ensures |Alike(start, 0, 0).vms| == 1
  {
    SizeOfThree(start);
    assert Nominal(HOST, start) == 500_000;
  }
}
