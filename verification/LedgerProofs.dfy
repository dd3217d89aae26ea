/** The ledger of every account over whole runs, and the hosts on which it is never overpaid. */
module LedgerProofs {
  import opened Sums
  import opened VcpuModel
  import opened MarketModel
  import opened RoundProofs
  import opened VcpuProofs
  import opened ControlModel
  import opened RunProofs

  // ---- every account balances ----

  /** What VM i buys in the auction of this event. */
  ghost function EventBought(m: Machine, w: World, e: Event, i: nat): int
    requires m.Valid() && SoundWorld(w) && Possible(w, e)
  {
    if Macro(w, e) && m.enabled && i < |w.vms| then BoughtIn(m, Prepared(w, e), e.wild, i) else 0
  }

  /** What the vCPUs of VM i that do not bid leave of their nominal shares in this event. */
  ghost function EventSaved(m: Machine, w: World, e: Event, i: nat): nat
    requires m.Valid() && SoundWorld(w) && Possible(w, e)
  {
    if Macro(w, e) && m.enabled && i < |w.vms| then SavedIn(m, Prepared(w, e), e.wild, i) else 0
  }

  /** What VM i is credited beyond that. */
  ghost function EventOverpaid(m: Machine, w: World, e: Event, i: nat): nat
    requires m.Valid() && SoundWorld(w) && Possible(w, e)
  {
    if Macro(w, e) && m.enabled && i < |w.vms| then OverpaidIn(m, Prepared(w, e), e.wild, i) else 0
  }

  ghost function Bought(m: Machine, ws: seq<World>, es: seq<Event>, i: nat): int
    requires Run(m, ws, es)
  {
    if es == [] then 0
    else Bought(m, Front(ws), Front(es), i) + EventBought(m, Last(Front(ws)), Last(es), i)
  }

  ghost function Saved(m: Machine, ws: seq<World>, es: seq<Event>, i: nat): nat
    requires Run(m, ws, es)
  {
    if es == [] then 0
    else Saved(m, Front(ws), Front(es), i) + EventSaved(m, Last(Front(ws)), Last(es), i)
  }

  ghost function Overpaid(m: Machine, ws: seq<World>, es: seq<Event>, i: nat): nat
    requires Run(m, ws, es)
  {
    if es == [] then 0
    else Overpaid(m, Front(ws), Front(es), i) + EventOverpaid(m, Last(Front(ws)), Last(es), i)
  }

  lemma PreparedAt(m: Machine, w: World, e: Event, r: Ref)
    requires m.Valid() && SoundWorld(w) && Possible(w, e) && Macro(w, e) && Has(w.vms, r)
    ensures Has(Prepared(w, e), r) && Sampled(Ticked(w, e, r))
    ensures At(Prepared(w, e), r) == UpdateBeforeMarket(Ticked(w, e, r))
    ensures Proper(m, At(w.vms, r)) ==> Proper(m, At(Prepared(w, e), r))
  {
  }

  lemma PreparedProper(m: Machine, w: World, e: Event)
    requires m.Valid() && SoundWorld(w) && Possible(w, e) && Macro(w, e) && AllProper(m, w.vms)
    ensures AllProper(m, Prepared(w, e))
  {
    hide Prepared, Proper, Ticked;
    forall r | Has(Prepared(w, e), r) ensures Proper(m, At(Prepared(w, e), r)) {
      assert Has(w.vms, r) && Proper(m, At(w.vms, r));
      PreparedAt(m, w, e, r);
    }
  }

  lemma EventLedger(m: Machine, w: World, e: Event, i: nat)
    requires m.Valid() && SoundWorld(w) && Possible(w, e) && AllProper(m, w.vms) && i < |w.vms|
    ensures |Next(m, w, e).vms| == |w.vms|
    ensures !(e.Reset? && m.enabled) ==>
              Next(m, w, e).vms[i].money + EventBought(m, w, e, i)
              == w.vms[i].money + EventSaved(m, w, e, i) + EventOverpaid(m, w, e, i)
    ensures e.Reset? && m.enabled ==> Next(m, w, e).vms[i].money == EventBought(m, w, e, i) == 0
  {
    if Macro(w, e) && m.enabled {
      var p := Prepared(w, e);
      SizesAgree(w.vms, p);
      PreparedProper(m, w, e);
      forall j | 0 <= j < |p[i].vcpus| ensures Proper(m, p[i].vcpus[j]) {
        assert Has(p, Ref(i, j)) && At(p, Ref(i, j)) == p[i].vcpus[j];
      }
      RoundLedger(m, p, e.wild, i);
    }
  }

  /** The ledger of a whole run. Without resets, what VM i has now plus all it ever bought is what it
      had plus all its vCPUs ever saved and were overpaid; resets can only destroy money. */
  lemma {:induction false} Ledger(m: Machine, ws: seq<World>, es: seq<Event>, i: nat)
    requires m.Valid() && Run(m, ws, es) && Initial(ws[0]) && AllProper(m, ws[0].vms) && i < |ws[0].vms|
    ensures |Last(ws).vms| == |ws[0].vms|
    ensures Last(ws).vms[i].money + Bought(m, ws, es, i)
         <= ws[0].vms[i].money + Saved(m, ws, es, i) + Overpaid(m, ws, es, i)
    ensures Reset !in es ==>
              Last(ws).vms[i].money + Bought(m, ws, es, i)
              == ws[0].vms[i].money + Saved(m, ws, es, i) + Overpaid(m, ws, es, i)
  {
    hide Next, EventBought, EventSaved, EventOverpaid, SoundWorld, Possible, AllProper, Initial;
    if es != [] {
      var w, e := Last(Front(ws)), Last(es);
      Ledger(m, Front(ws), Front(es), i);
      RunSound(m, Front(ws), Front(es));
      EventLedger(m, w, e, i);
      assert es == Front(es) + [e];
    }
  }

  /** So without resets the ledger balances with what was saved alone if and only if nobody was ever
      overpaid. */
  lemma LedgerExact(m: Machine, ws: seq<World>, es: seq<Event>, i: nat)
    requires m.Valid() && Run(m, ws, es) && Initial(ws[0]) && AllProper(m, ws[0].vms) && i < |ws[0].vms|
    requires Reset !in es
    ensures |Last(ws).vms| == |ws[0].vms|
    ensures Last(ws).vms[i].money + Bought(m, ws, es, i) == ws[0].vms[i].money + Saved(m, ws, es, i)
       <==> Overpaid(m, ws, es, i) == 0
  {
    hide Run, Initial, AllProper, Bought, Saved, Overpaid;
    Ledger(m, ws, es, i);
  }

  // ---- when nobody is overpaid ----

  /** Whenever a slope may matter, some round was applied before. */
  ghost predicate InTime(m: Machine, ws: seq<World>, es: seq<Event>)
    requires Run(m, ws, es)
  {
    es != [] ==>
      && InTime(m, Front(ws), Front(es))
      && (Macro(Last(Front(ws)), Last(es)) && Rounds(Front(ws), Front(es)) >= MAX_HISTORY - 1 ==>
            Applied(m, Front(ws), Front(es)) > 0)
  }

  /** A round starts with every nominal share proper and every capping known if it matters. */
  lemma PreparedReady(m: Machine, w: World, e: Event, rounds: nat, applied: nat, r: Ref)
    requires m.Valid() && SoundWorld(w) && Possible(w, e) && Macro(w, e)
    requires Has(w.vms, r) && Proper(m, At(w.vms, r)) && Kept(At(w.vms, r), rounds, applied)
    requires rounds >= MAX_HISTORY - 1 ==> applied > 0
    ensures Has(Prepared(w, e), r)
    ensures Proper(m, At(Prepared(w, e), r)) && Ready(At(Prepared(w, e), r), e.wild)
  {
    PreparedAt(m, w, e, r);
    hide Prepared;
  }

  lemma EventPaid(m: Machine, w: World, e: Event, rounds: nat, applied: nat, i: nat)
    requires m.Valid() && SoundWorld(w) && Possible(w, e) && AllProper(m, w.vms) && i < |w.vms|
    requires rounds >= MAX_HISTORY - 1 && Macro(w, e) ==> applied > 0
    requires forall r :: Has(w.vms, r) ==> Kept(At(w.vms, r), rounds, applied)
    ensures EventOverpaid(m, w, e, i) == 0
  {
    if Macro(w, e) && m.enabled {
      var vm := Prepared(w, e)[i];
      forall j | 0 <= j < |vm.vcpus| ensures OverpaidOf(m, e.wild)(vm.vcpus[j]) == 0 {
        assert Has(w.vms, Ref(i, j)) && At(Prepared(w, e), Ref(i, j)) == vm.vcpus[j];
        PreparedReady(m, w, e, rounds, applied, Ref(i, j));
        CreditExact(m, vm.vcpus[j], e.wild);
      }
      NothingSummed(vm.vcpus, OverpaidOf(m, e.wild));
    }
  }

  lemma {:induction false} NothingSummed(s: seq<Vcpu>, f: Vcpu -> nat)
    requires forall j :: 0 <= j < |s| ==> f(s[j]) == 0
    ensures SumBy(s, f) == 0
  {
    if s != [] {
      NothingSummed(s[1..], f);
    }
  }

  /** If one of the first four rounds is applied, nobody is ever overpaid. */
  lemma {:induction false} InTimePaid(m: Machine, ws: seq<World>, es: seq<Event>, i: nat)
    requires m.Valid() && Run(m, ws, es) && Initial(ws[0]) && AllProper(m, ws[0].vms) && i < |ws[0].vms|
    requires InTime(m, ws, es)
    ensures Overpaid(m, ws, es, i) == 0
  {
    hide Next, EventOverpaid, SoundWorld, Possible, AllProper, Initial, Kept;
    if es != [] {
      var w, e := Last(Front(ws)), Last(es);
      var rounds, applied := Rounds(Front(ws), Front(es)), Applied(m, Front(ws), Front(es));
      InTimePaid(m, Front(ws), Front(es), i);
      RunSound(m, Front(ws), Front(es));
      AllKept(m, Front(ws), Front(es));
      EventPaid(m, w, e, rounds, applied, i);
    }
  }

  lemma AllKept(m: Machine, ws: seq<World>, es: seq<Event>)
    requires m.Valid() && Run(m, ws, es) && Initial(ws[0]) && AllProper(m, ws[0].vms)
    ensures forall r :: Has(Last(ws).vms, r) ==> Kept(At(Last(ws).vms, r), Rounds(ws, es), Applied(m, ws, es))
  {
    assert |ws| == |es| + 1;
    hide Run, Initial, AllProper, SoundWorld, Kept, Applied, Rounds;
    RunSound(m, ws, es);
    forall r | Has(Last(ws).vms, r) ensures Kept(At(Last(ws).vms, r), Rounds(ws, es), Applied(m, ws, es)) {
      assert Has(ws[0].vms, r);
      RunKept(m, ws, es, r);
    }
  }

  // ---- admission ----

  lemma {:induction false} RunNominal(m: Machine, ws: seq<World>, es: seq<Event>)
    requires m.Valid() && Run(m, ws, es) && Initial(ws[0]) && AllProper(m, ws[0].vms)
    ensures TotalNominal(m, Last(ws).vms) == TotalNominal(m, ws[0].vms)
  {
    hide Next, SoundWorld, Possible, AllProper, Initial, TotalNominal;
    if es != [] {
      RunNominal(m, Front(ws), Front(es));
      RunSound(m, Front(ws), Front(es));
      NextNominal(m, Last(Front(ws)), Last(es));
    }
  }

  lemma NextNominal(m: Machine, w: World, e: Event)
    requires m.Valid() && SoundWorld(w) && Possible(w, e) && AllProper(m, w.vms)
    ensures TotalNominal(m, Next(m, w, e).vms) == TotalNominal(m, w.vms)
  {
    NextSound(m, w, e);
    var x := Next(m, w, e);
    SameNominal(m, w.vms, x.vms) by {
      forall r | Has(w.vms, r) ensures At(x.vms, r).freq == At(w.vms, r).freq {
        NextAt(m, w, e, r);
      }
    }
  }

  lemma SameNominal(m: Machine, vms: seq<Vm>, w: seq<Vm>)
    requires SameShape(vms, w)
    requires forall r :: Has(vms, r) ==> At(w, r).freq == At(vms, r).freq
    ensures TotalNominal(m, w) == TotalNominal(m, vms)
  {
    forall i | 0 <= i < |vms| ensures VmNominal(m)(w[i]) == VmNominal(m)(vms[i]) {
      forall j | 0 <= j < |vms[i].vcpus| ensures NominalOf(m)(w[i].vcpus[j]) == NominalOf(m)(vms[i].vcpus[j]) {
        assert Has(vms, Ref(i, j)) && At(w, Ref(i, j)).freq == At(vms, Ref(i, j)).freq;
      }
      SumByEq(w[i].vcpus, NominalOf(m), vms[i].vcpus, NominalOf(m));
    }
    SumByEq(w, VmNominal(m), vms, VmNominal(m));
  }

  /** On an admitted host the round of this event is not refused. */
  lemma AdmittedEvent(m: Machine, w: World, e: Event)
    requires m.Valid() && SoundWorld(w) && Possible(w, e) && Macro(w, e) && AllProper(m, w.vms)
    requires TotalNominal(m, w.vms) <= m.Capacity()
    ensures !Refused(m, Prepared(w, e), e.wild)
  {
    hide Refused, TotalNominal, Sampled, Ticked;
    var p := Prepared(w, e);
    forall r | Has(w.vms, r) ensures At(p, r).freq == At(w.vms, r).freq {
      PreparedAt(m, w, e, r);
    }
    SameNominal(m, w.vms, p);
    PreparedProper(m, w, e);
    AdmittedNeverRefused(m, p, e.wild);
  }

  /** When the nominal shares of the VMs fit the host, no round of any run is refused: every round is
      applied, so nobody is ever overpaid. */
  lemma {:induction false} AdmittedRun(m: Machine, ws: seq<World>, es: seq<Event>)
    requires m.Valid() && m.enabled && Run(m, ws, es) && Initial(ws[0]) && AllProper(m, ws[0].vms)
    requires TotalNominal(m, ws[0].vms) <= m.Capacity()
    ensures Applied(m, ws, es) == Rounds(ws, es)
    ensures InTime(m, ws, es)
  {
    hide Next, Refused, SoundWorld, Possible, AllProper, Initial, TotalNominal, Prepared;
    if es != [] {
      var w, e := Last(Front(ws)), Last(es);
      AdmittedRun(m, Front(ws), Front(es));
      RunSound(m, Front(ws), Front(es));
      RunNominal(m, Front(ws), Front(es));
      if Macro(w, e) {
        AdmittedEvent(m, w, e);
      }
    }
  }
}
