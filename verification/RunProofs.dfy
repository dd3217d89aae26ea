/** Safety over whole runs of the control loop: what the controllers remember, which rounds can be
    refused, and that every account balances. */
module RunProofs {
  import opened Sums
  import opened VcpuModel
  import opened MarketModel
  import opened RoundProofs
  import opened VcpuProofs
  import opened ControlModel

  /** The worlds a run goes through, one more than its events. */
  ghost predicate Run(m: Machine, ws: seq<World>, es: seq<Event>) {
    && |ws| == |es| + 1
    && (es != [] ==>
          && Run(m, Front(ws), Front(es))
          && m.Valid() && SoundWorld(Last(Front(ws))) && Possible(Last(Front(ws)), Last(es))
          && Last(ws) == Next(m, Last(Front(ws)), Last(es)))
  }

  /** The loop starts with freshly constructed controllers. */
  ghost predicate Initial(w: World) {
    && w.i == 0
    && (w.vms == [] || NbVcpus(w.vms) > 0)
    && forall r :: Has(w.vms, r) ==> Fresh(At(w.vms, r))
  }

  // ---- one event, one vCPU ----

  /** Only what the market decides has changed. */
  ghost predicate SameObservations(v: Vcpu, w: Vcpu) {
    w == v.(alloc := w.alloc, buying := w.buying, period := w.period, quota := w.quota, limit := w.limit)
  }

  /** The capping is one the market has applied. */
  predicate Known(v: Vcpu) {
    v.period == MARKET_PERIOD && LEAST <= Granted(v.quota, v.period) <= SECOND
  }

  lemma MarketAt(m: Machine, vms: seq<Vm>, wild: nat, r: Ref)
    requires m.Valid() && AllMeasured(vms) && NbVcpus(vms) > 0
    requires Has(vms, r) && Proper(m, At(vms, r)) && At(vms, r).buying == 0
    ensures var f := RunMarket(m, vms, wild);
      && SameShape(vms, f) && Has(f, r)
      && SameObservations(At(vms, r), At(f, r))
      && (if Refused(m, vms, wild)
          then At(f, r).period == At(vms, r).period && At(f, r).quota == At(vms, r).quota
          else Known(At(f, r)))
  {
    if !Refused(m, vms, wild) {
      VcpuBounds(m, vms, wild, r);
      var x := Shared(m, vms, wild);
      FinishShape(Auctioned(m, vms, wild), NbVcpus(vms));
      assert At(RunMarket(m, vms, wild), r) == SetQuota(At(x, r), At(x, r).alloc, MARKET_PERIOD);
      QuotaTight(At(x, r).alloc, MARKET_PERIOD);
      MarketQuota(At(x, r), At(x, r).alloc, 0);
    }
  }

  lemma FinishShape(z: Auction, n: nat)
    requires Listed(z) && n > 0
    ensures SameShape(z.vms, Finish(z, n))
  {
  }

  /** The controller after the update of a tick. */
  function Ticked(w: World, e: Event, r: Ref): Vcpu
    requires Possible(w, e) && e.Tick? && Has(w.vms, r)
  {
    Update(At(w.vms, r), e.readings[r.vm][r.cpu])
  }

  lemma NextAt(m: Machine, w: World, e: Event, r: Ref)
    requires m.Valid() && SoundWorld(w) && Possible(w, e)
    requires Has(w.vms, r) && Proper(m, At(w.vms, r))
    ensures SameShape(w.vms, Next(m, w, e).vms) && Has(Next(m, w, e).vms, r)
    ensures var v := At(Next(m, w, e).vms, r);
      if e.Reset? then v == At(w.vms, r)
      else if w.i == 0 then v == Ticked(w, e, r)
      else
        && Sampled(Ticked(w, e, r))
        && SameObservations(UpdateBeforeMarket(Ticked(w, e, r)), v)
        && (if !m.enabled || Refused(m, Prepared(w, e), e.wild)
            then v.period == At(w.vms, r).period && v.quota == At(w.vms, r).quota
            else Known(v))
  {
    if e.Tick? && w.i == 1 {
      var p := Prepared(w, e);
      assert At(p, r) == UpdateBeforeMarket(Ticked(w, e, r));
      SizesAgree(w.vms, p);
      if m.enabled {
        assert Proper(m, At(p, r));
        MarketAt(m, p, e.wild, r);
      }
    }
  }

  // ---- every reachable world is sound ----

  lemma NextSound(m: Machine, w: World, e: Event)
    requires m.Valid() && SoundWorld(w) && Possible(w, e) && AllProper(m, w.vms)
    ensures SoundWorld(Next(m, w, e)) && AllProper(m, Next(m, w, e).vms)
    ensures SameShape(w.vms, Next(m, w, e).vms)
  {
    var x := Next(m, w, e);
    NextShape(m, w, e);
    SizesAgree(w.vms, x.vms);
    forall r | Has(x.vms, r) ensures Sound(At(x.vms, r)) && Proper(m, At(x.vms, r)) {
      assert Has(w.vms, r) && Proper(m, At(w.vms, r)) && Sound(w.vms[r.vm].vcpus[r.cpu]);
      NextAt(m, w, e, r);
    }
    forall i, j | 0 <= i < |x.vms| && 0 <= j < |x.vms[i].vcpus| ensures Sound(x.vms[i].vcpus[j]) {
      assert Has(x.vms, Ref(i, j)) && At(x.vms, Ref(i, j)) == x.vms[i].vcpus[j];
    }
  }

  lemma NextShape(m: Machine, w: World, e: Event)
    requires m.Valid() && SoundWorld(w) && Possible(w, e)
    ensures SameShape(w.vms, Next(m, w, e).vms)
  {
    if Macro(w, e) && m.enabled {
      var p := Prepared(w, e);
      SizesAgree(w.vms, p);
      if p != [] && !Refused(m, p, e.wild) {
        FinishShape(Auctioned(m, p, e.wild), NbVcpus(p));
      }
    }
  }

  /** Whatever is possible next can happen: the divisions of the controllers and of the market are
      defined in every world a run reaches. */
  lemma {:induction false} RunSound(m: Machine, ws: seq<World>, es: seq<Event>)
    requires m.Valid() && Run(m, ws, es) && Initial(ws[0]) && AllProper(m, ws[0].vms)
    ensures SoundWorld(Last(ws)) && AllProper(m, Last(ws).vms) && SameShape(ws[0].vms, Last(ws).vms)
  {
    if es == [] {
      forall i, j | 0 <= i < |ws[0].vms| && 0 <= j < |ws[0].vms[i].vcpus| ensures Sound(ws[0].vms[i].vcpus[j]) {
        assert Has(ws[0].vms, Ref(i, j)) && Fresh(At(ws[0].vms, Ref(i, j)));
      }
    } else {
      RunSound(m, Front(ws), Front(es));
      NextSound(m, Last(Front(ws)), Last(es));
    }
  }

  // ---- what a controller remembers ----

  /** Number of ticks whose second part was executed. */
  ghost function Rounds(ws: seq<World>, es: seq<Event>): nat
    requires |ws| == |es| + 1
  {
    if es == [] then 0
    else Rounds(Front(ws), Front(es)) + if Macro(Last(Front(ws)), Last(es)) then 1 else 0
  }

  /** Whether an event is a round whose quotas are applied. */
  ghost predicate IsApplied(m: Machine, w: World, e: Event)
    requires m.Valid() && SoundWorld(w) && Possible(w, e)
  {
    Macro(w, e) && m.enabled && !Refused(m, Prepared(w, e), e.wild)
  }

  /** Number of applied rounds. */
  ghost function Applied(m: Machine, ws: seq<World>, es: seq<Event>): nat
    requires Run(m, ws, es)
  {
    if es == [] then 0
    else Applied(m, Front(ws), Front(es)) + if IsApplied(m, Last(Front(ws)), Last(es)) then 1 else 0
  }

  /** The history is as long as the rounds allow, the slope is 0 until it is full, and the capping is
      known once a round was applied. */
  ghost predicate Kept(v: Vcpu, rounds: nat, applied: nat) {
    && |v.history| == Min(rounds, MAX_HISTORY)
    && (rounds < MAX_HISTORY ==> v.slope == 0.0)
    && (applied > 0 ==> Known(v))
  }

  lemma {:induction false} RunKept(m: Machine, ws: seq<World>, es: seq<Event>, r: Ref)
    requires m.Valid() && Run(m, ws, es) && Initial(ws[0]) && AllProper(m, ws[0].vms)
    requires Has(ws[0].vms, r)
    ensures Has(Last(ws).vms, r) && Kept(At(Last(ws).vms, r), Rounds(ws, es), Applied(m, ws, es))
  {
    if es == [] {
      assert Fresh(At(ws[0].vms, r));
    } else {
      var w, e := Last(Front(ws)), Last(es);
      RunKept(m, Front(ws), Front(es), r);
      RunSound(m, Front(ws), Front(es));
      assert Proper(m, At(w.vms, r));
      NextAt(m, w, e, r);
    }
  }

  /** What has happened since the last round: what the usage counter showed then, and the time, the
      ticks and the cycles since. */
  datatype Interval = Interval(closed: nat, elapsed: real, ticks: nat, cycles: nat)

  /** The interval with one more reading; `before` is what the counter showed the last time. */
  function Longer(interval: Interval, before: nat, reading: Reading): Interval
    requires before <= reading.usage && reading.elapsed > 0.0
  {
    interval.(elapsed := interval.elapsed + reading.elapsed,
              ticks := interval.ticks + 1,
              cycles := interval.cycles + Cycles(reading.speed, reading.usage - before, reading.elapsed))
  }

  /** The interval that an event ends or makes longer. */
  function Reached(w: World, e: Event, r: Ref, interval: Interval): Interval
    requires Possible(w, e)
  {
    if e.Tick? && Has(w.vms, r)
    then Longer(interval, At(w.vms, r).microConsumption, e.readings[r.vm][r.cpu])
    else interval
  }

  /** The interval after an event: a round starts a new one. */
  function NewInterval(w: World, e: Event, r: Ref, interval: Interval): Interval
    requires Possible(w, e)
  {
    if Macro(w, e) && Has(w.vms, r) then Interval(e.readings[r.vm][r.cpu].usage, 0.0, 0, 0)
    else Reached(w, e, r, interval)
  }

  /** The interval a run is in, the first one from the counter at 0. */
  ghost function Since(m: Machine, ws: seq<World>, es: seq<Event>, r: Ref): Interval
    requires Run(m, ws, es)
  {
    if es == [] then Interval(0, 0.0, 0, 0)
    else NewInterval(Last(Front(ws)), Last(es), r, Since(m, Front(ws), Front(es), r))
  }

  /** The percentage of an interval that a round ends. */
  function NewPercentage(w: World, e: Event, r: Ref, interval: Interval): seq<real>
    requires Possible(w, e)
  {
    if Macro(w, e) && Has(w.vms, r)
       && e.readings[r.vm][r.cpu].usage >= interval.closed && Reached(w, e, r, interval).elapsed > 0.0
    then [Percentage(e.readings[r.vm][r.cpu].usage - interval.closed, Reached(w, e, r, interval).elapsed)]
    else []
  }

  /** The percentages of all intervals that rounds ended, oldest first. */
  ghost function Percentages(m: Machine, ws: seq<World>, es: seq<Event>, r: Ref): seq<real>
    requires Run(m, ws, es)
  {
    if es == [] then []
    else
      Percentages(m, Front(ws), Front(es), r)
      + NewPercentage(Last(Front(ws)), Last(es), r, Since(m, Front(ws), Front(es), r))
  }

  /** The last n elements, or all of them if there are fewer. */
  function Tail(s: seq<real>, n: nat): seq<real> {
    if |s| <= n then s else s[|s| - n..]
  }

  lemma RememberTail(s: seq<real>, x: real)
    ensures Remember(Tail(s, MAX_HISTORY), x) == Tail(s + [x], MAX_HISTORY)
  {
  }

  /** The controller remembers the window of the percentages, its slope once it is full, and what
      happened in the interval. */
  ghost predicate Remembers(v: Vcpu, percentages: seq<real>, interval: Interval) {
    && v.history == Tail(percentages, MAX_HISTORY)
    && v.slope == (if |v.history| == MAX_HISTORY then Regression.Slope(v.history) else 0.0)
    && v.microConsumption == interval.closed + v.sumConsumption
    && v.sumDelta == interval.elapsed && v.nbMicros == interval.ticks && v.sumFrequency == interval.cycles
  }

  /** After a round: consumption, length and mean frequency of the interval it ended. */
  predicate Closes(v: Vcpu, interval: Interval) {
    && v.consumption == v.microConsumption - interval.closed
    && v.delta == interval.elapsed
    && interval.ticks > 0 && v.lastFrequency == interval.cycles / interval.ticks
  }

  lemma TickRemembers(v: Vcpu, reading: Reading, percentages: seq<real>, interval: Interval)
    requires Remembers(v, percentages, interval) && Readable(v, reading)
    ensures Remembers(Update(v, reading), percentages, Longer(interval, v.microConsumption, reading))
    ensures Update(v, reading).microConsumption == reading.usage
  {
    hide Regression.Slope, Tail, Cycles;
  }

  lemma RoundRemembers(t: Vcpu, percentages: seq<real>, interval: Interval)
    requires Remembers(t, percentages, interval) && Sampled(t)
    ensures var v := UpdateBeforeMarket(t);
      && Remembers(v, percentages + [Percentage(t.microConsumption - interval.closed, interval.elapsed)],
                   Interval(t.microConsumption, 0.0, 0, 0))
      && v.microConsumption == t.microConsumption && Closes(v, interval)
  {
    hide Regression.Slope, Percentage;
    RememberTail(percentages, Percentage(t.sumConsumption, t.sumDelta));
  }

  lemma ObservedRemembers(v: Vcpu, w: Vcpu, percentages: seq<real>, interval: Interval)
    requires Remembers(v, percentages, interval) && SameObservations(v, w)
    ensures Remembers(w, percentages, interval)
    ensures forall i :: Closes(v, i) ==> Closes(w, i)
  {
    hide Regression.Slope, Tail;
  }

  lemma RemembersNext(m: Machine, w: World, e: Event, r: Ref, percentages: seq<real>, interval: Interval)
    requires m.Valid() && SoundWorld(w) && Possible(w, e) && AllProper(m, w.vms)
    requires Has(w.vms, r) && Remembers(At(w.vms, r), percentages, interval)
    ensures Has(Next(m, w, e).vms, r)
    ensures var v := At(Next(m, w, e).vms, r);
      && Remembers(v, percentages + NewPercentage(w, e, r, interval), NewInterval(w, e, r, interval))
      && (Macro(w, e) ==> Closes(v, Reached(w, e, r, interval)))
  {
    assert Proper(m, At(w.vms, r));
    NextAt(m, w, e, r);
    assert percentages + [] == percentages;
    if e.Tick? {
      var reading := e.readings[r.vm][r.cpu];
      var longer := Longer(interval, At(w.vms, r).microConsumption, reading);
      assert At(w.vms, r).microConsumption >= interval.closed;
      TickRemembers(At(w.vms, r), reading, percentages, interval);
      hide Next, Percentage, Update, UpdateBeforeMarket, SameObservations, Refused, Longer, Closes, Remember;
      if w.i == 1 {
        var t := Ticked(w, e, r);
        assert longer.elapsed == t.sumDelta;
        hide Remembers, Sampled;
        RoundRemembers(t, percentages, longer);
        ObservedRemembers(UpdateBeforeMarket(t), At(Next(m, w, e).vms, r),
                          percentages + [Percentage(reading.usage - interval.closed, longer.elapsed)],
                          Interval(reading.usage, 0.0, 0, 0));
      }
    }
  }

  /** The history is the window of the percentages of the latest intervals; and after every round
      consumption, length and mean frequency are those of the interval it ended: what the usage counter
      gained, the time and the cycles since the round before. */
  lemma {:induction false} Telescope(m: Machine, ws: seq<World>, es: seq<Event>, r: Ref)
    requires m.Valid() && Run(m, ws, es) && Initial(ws[0]) && AllProper(m, ws[0].vms)
    requires Has(ws[0].vms, r)
    ensures Has(Last(ws).vms, r)
    ensures Remembers(At(Last(ws).vms, r), Percentages(m, ws, es, r), Since(m, ws, es, r))
    ensures es != [] && Macro(Last(Front(ws)), Last(es)) ==>
              Closes(At(Last(ws).vms, r), Reached(Last(Front(ws)), Last(es), r, Since(m, Front(ws), Front(es), r)))
  {
    hide Next, Remembers, NewPercentage, NewInterval, Reached, Closes, SoundWorld, Possible, AllProper;
    if es == [] {
      FreshRemembers(At(ws[0].vms, r)) by { assert Fresh(At(ws[0].vms, r)); }
    } else {
      var w, e := Last(Front(ws)), Last(es);
      Telescope(m, Front(ws), Front(es), r);
      RunSound(m, Front(ws), Front(es));
      RemembersNext(m, w, e, r, Percentages(m, Front(ws), Front(es), r), Since(m, Front(ws), Front(es), r));
    }
  }

  lemma FreshRemembers(v: Vcpu)
    requires Fresh(v)
    ensures Remembers(v, [], Interval(0, 0.0, 0, 0))
  {
  }
}
