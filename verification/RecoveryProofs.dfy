/** The guarantee of the nominal frequency over time: a busy vCPU gets back to its nominal share. */
module RecoveryProofs {
  import opened Sums
  import opened VcpuModel
  import opened MarketModel
  import opened RoundProofs
  import opened VcpuProofs
  import opened ControlModel
  import opened RunProofs
  import opened LedgerProofs

  /** The least by which the target of a busy vCPU exceeds its capping. */
  function Gain(m: Machine): int { Min(LEAST, (LEAST as real * m.increasingSpeed).Floor) }

  /** Full use is no reason to decrease and one to increase, by more than quantisation takes away. */
  predicate Responsive(m: Machine) {
    m.triggerDecrement <= 1.0 && m.triggerIncrement < 1.0 && Gain(m) > 9
  }

  /** What the quota grants in a second. */
  function Cap(v: Vcpu): nat
    requires v.period > 0
  {
    Granted(v.quota, v.period)
  }

  /** The vCPU used all its capping allows, in the interval and per second. */
  predicate Busy(v: Vcpu)
    requires Measured(v)
  {
    v.consumption >= Cap(v) && AbsoluteConsumption(v.consumption, v.delta) >= Cap(v)
  }

  lemma ScaledGain(m: Machine, cap: nat)
    requires m.Valid() && cap >= LEAST
    ensures Scaled(cap, 1.0 + m.increasingSpeed) >= cap + Gain(m)
  {
    var s := m.increasingSpeed;
    assert cap as real * (1.0 + s) == cap as real + cap as real * s;
    assert (cap as real - LEAST as real) * s >= 0.0;
    assert cap as real * s >= LEAST as real * s;
    assert cap as real * (1.0 + s) >= cap as real + LEAST as real * s;
  }

  lemma Quotient(u: real, c: real)
    requires u >= c > 0.0
    ensures u / c >= 1.0
  {
    var q := u / c;
    assert q * c == u;
    assert (q - 1.0) * c >= 0.0;
  }

  lemma TargetGrows(m: Machine, v: Vcpu, wild: nat)
    requires m.Valid() && Responsive(m) && Measured(v) && Known(v) && Busy(v)
    ensures Target(m, v, wild) >= Min(SECOND, Cap(v) + Gain(m))
  {
    ScaledGain(m, Cap(v));
    hide Scaled;
    var used, cap := AbsoluteConsumption(v.consumption, v.delta) as real, Cap(v) as real;
    Quotient(used, cap);
  }

  /** An applied round takes the capping of a busy vCPU up by its gain less at most 9, or to its nominal
      share less at most 9. */
  lemma RoundGrows(m: Machine, vms: seq<Vm>, wild: nat, r: Ref)
    requires m.Valid() && Responsive(m) && AllMeasured(vms) && NbVcpus(vms) > 0 && !Refused(m, vms, wild)
    requires Has(vms, r) && Proper(m, At(vms, r)) && At(vms, r).buying == 0
    requires Known(At(vms, r)) && Busy(At(vms, r))
    ensures Has(RunMarket(m, vms, wild), r) && Known(At(RunMarket(m, vms, wild), r))
    ensures Cap(At(RunMarket(m, vms, wild), r)) >= Min(Nominal(m, At(vms, r)), Cap(At(vms, r)) + Gain(m)) - 9
  {
    MarketAt(m, vms, wild, r);
    VcpuBounds(m, vms, wild, r);
    TargetGrows(m, At(vms, r), wild);
    var x := Shared(m, vms, wild);
    FinishShape(Auctioned(m, vms, wild), NbVcpus(vms));
    hide Shared, Auctioned, Refused, Target, Nominal, Gain;
    assert At(RunMarket(m, vms, wild), r) == SetQuota(At(x, r), At(x, r).alloc, MARKET_PERIOD);
    MarketQuota(At(x, r), At(x, r).alloc, 0);
    QuotaTight(At(x, r).alloc, MARKET_PERIOD);
  }

  /** The event is an applied round in which the vCPU is busy. */
  ghost predicate BusyEvent(m: Machine, w: World, e: Event, r: Ref)
    requires m.Valid() && SoundWorld(w) && Possible(w, e)
  {
    IsApplied(m, w, e) && Has(Prepared(w, e), r) && Busy(At(Prepared(w, e), r))
  }

  lemma EventGrows(m: Machine, w: World, e: Event, r: Ref)
    requires m.Valid() && Responsive(m) && SoundWorld(w) && Possible(w, e) && AllProper(m, w.vms)
    requires BusyEvent(m, w, e, r) && Has(w.vms, r) && Known(At(w.vms, r))
    ensures Has(Next(m, w, e).vms, r) && Known(At(Next(m, w, e).vms, r))
    ensures Cap(At(Next(m, w, e).vms, r)) >= Min(Nominal(m, At(w.vms, r)), Cap(At(w.vms, r)) + Gain(m)) - 9
    ensures At(Next(m, w, e).vms, r).freq == At(w.vms, r).freq
  {
    assert Proper(m, At(w.vms, r));
    NextAt(m, w, e, r);
    PreparedAt(m, w, e, r);
    var p := Prepared(w, e);
    SizesAgree(w.vms, p);
    RoundGrows(m, p, e.wild, r);
  }

  /** The last n events are such rounds. */
  ghost predicate BusyFor(m: Machine, ws: seq<World>, es: seq<Event>, r: Ref, n: nat)
    requires m.Valid() && Run(m, ws, es)
  {
    n > 0 ==>
      && es != [] && BusyEvent(m, Last(Front(ws)), Last(es), r)
      && BusyFor(m, Front(ws), Front(es), r, n - 1)
  }

  /** The state before the last n events. */
  function Earlier(ws: seq<World>, n: nat): World
    requires n < |ws|
  {
    ws[|ws| - 1 - n]
  }

  /** The capping is at least `low`, or the nominal share less at most 9. */
  predicate Recovered(m: Machine, v: Vcpu, low: int)
    requires m.cpuFreq > 0
  {
    Known(v) && Cap(v) >= Min(Nominal(m, v) - 9, low)
  }

  lemma EventRecovers(m: Machine, w: World, e: Event, r: Ref, low: int)
    requires m.Valid() && Responsive(m) && SoundWorld(w) && Possible(w, e) && AllProper(m, w.vms)
    requires BusyEvent(m, w, e, r) && Has(w.vms, r) && Recovered(m, At(w.vms, r), low)
    ensures Has(Next(m, w, e).vms, r) && Recovered(m, At(Next(m, w, e).vms, r), low + (Gain(m) - 9))
  {
    assert Gain(m) > 9;
    EventGrows(m, w, e, r);
    SameShare(m, At(w.vms, r), At(Next(m, w, e).vms, r));
  }

  /** Of a vCPU whose capping is at least `low`: after n busy rounds in a row it has its nominal share
      less at most 9, or n times the gain less 9 more than that. */
  lemma {:induction false} Recovers(m: Machine, ws: seq<World>, es: seq<Event>, r: Ref, n: nat, low: int)
    requires m.Valid() && Responsive(m) && Run(m, ws, es) && Initial(ws[0]) && AllProper(m, ws[0].vms)
    requires Has(ws[0].vms, r) && n <= |es| && BusyFor(m, ws, es, r, n)
    requires Has(Earlier(ws, n).vms, r) && Recovered(m, At(Earlier(ws, n).vms, r), low)
    ensures Has(Last(ws).vms, r) && Recovered(m, At(Last(ws).vms, r), low + n * (Gain(m) - 9))
  {
    hide Next, SoundWorld, Possible, AllProper, Initial, BusyEvent, Responsive, Recovered, Gain;
    if n > 0 {
      assert Earlier(Front(ws), n - 1) == Earlier(ws, n);
      Recovers(m, Front(ws), Front(es), r, n - 1, low);
      RunSound(m, Front(ws), Front(es));
      EventRecovers(m, Last(Front(ws)), Last(es), r, low + (n - 1) * (Gain(m) - 9));
      Growth(n, Gain(m) - 9);
    }
  }

  lemma SameShare(m: Machine, v: Vcpu, w: Vcpu)
    requires m.cpuFreq > 0 && v.freq == w.freq
    ensures Nominal(m, v) == Nominal(m, w)
  {
  }

  lemma Growth(n: nat, g: int)
    requires n > 0
    ensures n * g == (n - 1) * g + g
  {
  }

  /** On an admitted host every round counts: enough busy rounds after the first one bring the capping
      within 9 microseconds of the nominal share. */
  lemma BackAtNominal(m: Machine, ws: seq<World>, es: seq<Event>, r: Ref, n: nat)
    requires m.Valid() && Responsive(m) && Run(m, ws, es) && Initial(ws[0]) && AllProper(m, ws[0].vms)
    requires m.enabled && TotalNominal(m, ws[0].vms) <= m.Capacity()
    requires Has(ws[0].vms, r) && n < |es| && BusyFor(m, ws, es, r, n)
    requires Rounds(ws[..|ws| - n], es[..|es| - n]) > 0
    requires LEAST + n * (Gain(m) - 9) >= SECOND
    ensures Has(Last(ws).vms, r)
    ensures Cap(At(Last(ws).vms, r)) >= Nominal(m, At(Last(ws).vms, r)) - 9
  {
    hide Responsive, Gain, BusyFor, Initial, AllProper, TotalNominal, Nominal;
    var ws0, es0 := ws[..|ws| - n], es[..|es| - n];
    RunPrefix(m, ws, es, n);
    AdmittedRun(m, ws0, es0);
    RunKept(m, ws0, es0, r);
    assert Last(ws0) == Earlier(ws, n);
    assert Recovered(m, At(Earlier(ws, n).vms, r), LEAST);
    Recovers(m, ws, es, r, n, LEAST);
    RunSound(m, ws, es);
    assert Proper(m, At(Last(ws).vms, r)) by { ProperAt(m, Last(ws).vms, r); }
  }

  lemma ProperAt(m: Machine, vms: seq<Vm>, r: Ref)
    requires AllProper(m, vms) && Has(vms, r)
    ensures Proper(m, At(vms, r))
  {
  }

  lemma {:induction false} RunPrefix(m: Machine, ws: seq<World>, es: seq<Event>, n: nat)
    requires Run(m, ws, es) && n <= |es|
    ensures Run(m, ws[..|ws| - n], es[..|es| - n]) && |ws[..|ws| - n]| > 0
  {
    if n == 0 {
      assert ws[..|ws|] == ws && es[..|es|] == es;
    } else {
      RunPrefix(m, Front(ws), Front(es), n - 1);
      assert Front(ws)[..|ws| - n] == ws[..|ws| - n] && Front(es)[..|es| - n] == es[..|es| - n];
    }
  }
}
