/** The client that lists the running VMs and the controller whose loop drives them: every run of the
    value-level machine is what the objects go through. */
module Server {
  import opened Sums
  import opened VcpuModel
  import opened MarketModel
  import opened RoundProofs
  import opened ControlModel
  import opened RunProofs
  import opened Controllers
  import opened RunningVms
  import opened MarketRun

  class LibvirtClient {
    var running: seq<LibvirtVm>

    constructor (running: seq<LibvirtVm>)
      ensures this.running == running
    {
      this.running := running;
    }

    method UpdateVcpuControllers(readings: seq<seq<Reading>>)
      requires Linked(running) && AllReadable(BooksOf(running), readings)
      modifies AllControllers(running)
      ensures Linked(running) && BooksOf(running) == UpdateAll(old(BooksOf(running)), readings)
    {
      hide LibvirtVm.View, LibvirtVcpu.View, Readable, UpdateVm;
      var vms := running;
      ghost var before := BooksOf(vms);
      for i := 0 to |vms|
        invariant Linked(vms)
        invariant forall k :: 0 <= k < i ==> vms[k].View() == UpdateVm(before[k], readings[k])
        invariant forall k :: i <= k < |vms| ==> vms[k].View() == before[k]
      {
        assert vms[i] in vms && forall c :: c in vms[i].controllers ==> c in old(AllControllers(running));
        ViewOf(vms[i]);
        UpdateNext(vms, i, readings[i]);
      }
    }

    /** The inner loop, for VM i: the other VMs do not notice. */
    method UpdateNext(vms: seq<LibvirtVm>, i: nat, readings: seq<Reading>)
      requires Linked(vms) && i < |vms| && |readings| == |vms[i].controllers|
      requires forall j :: 0 <= j < |readings| ==> Readable(vms[i].controllers[j].View(), readings[j])
      modifies vms[i].controllers
      ensures Linked(vms) && vms[i].View() == UpdateVm(old(vms[i].View()), readings)
      ensures forall k :: 0 <= k < |vms| && k != i ==> vms[k].View() == old(vms[k].View())
    {
      hide LibvirtVm.View, LibvirtVcpu.View, Readable, UpdateVm;
      forall k | 0 <= k < |vms| && k != i
        ensures forall c :: c in vms[k].controllers ==> c !in vms[i].controllers
      {
        Apart(vms, k, i);
      }
      ViewOf(vms[i]);
      vms[i].UpdateControllers(readings);
    }

    method UpdateVcpuBeforeMarket()
      requires Linked(running) && AllSampled(BooksOf(running))
      modifies AllControllers(running)
      ensures Linked(running) && BooksOf(running) == PrepareAll(old(BooksOf(running)))
    {
      hide LibvirtVm.View, LibvirtVcpu.View, Sampled, PrepareVm;
      var vms := running;
      ghost var before := BooksOf(vms);
      for i := 0 to |vms|
        invariant Linked(vms)
        invariant forall k :: 0 <= k < i ==> vms[k].View() == PrepareVm(before[k])
        invariant forall k :: i <= k < |vms| ==> vms[k].View() == before[k]
      {
        assert vms[i] in vms && forall c :: c in vms[i].controllers ==> c in old(AllControllers(running));
        forall k | 0 <= k < |vms| && k != i
          ensures forall c :: c in vms[k].controllers ==> c !in vms[i].controllers
        {
          Apart(vms, k, i);
        }
        ViewOf(vms[i]);
        vms[i].UpdateBeforeMarket();
      }
    }
  }

  class Controller {
    const client: LibvirtClient
    const market: VcpuMarket

    constructor (client: LibvirtClient, market: VcpuMarket)
      ensures this.client == client && this.market == market
    {
      this.client, this.market := client, market;
    }

    ghost function Books(): seq<Vm>
      reads client, client.running, AllControllers(client.running)
    {
      BooksOf(client.running)
    }

    /** The body of the loop, with the loop's counter passed in and out. */
    method Frame(readings: seq<seq<Reading>>, wild: nat, i: nat) returns (next: nat)
      requires market.config.Valid() && Linked(client.running)
      requires SoundWorld(World(Books(), i)) && Possible(World(Books(), i), Tick(readings, wild))
      modifies AllControllers(client.running), client.running`money
      ensures Linked(client.running)
      ensures World(Books(), next) == Next(market.config, World(old(Books()), i), Tick(readings, wild))
    {
      hide LibvirtVm.View, LibvirtVcpu.View, Linked, RunMarket;
      ghost var w := World(Books(), i);
      next := i;
      client.UpdateVcpuControllers(readings);
      if next == 1 {
        ghost var p := Prepared(w, Tick(readings, wild));
        SizesAgree(w.vms, p);
        TickSampled(w, readings, wild);
        client.UpdateVcpuBeforeMarket();
        if market.config.enabled {
          market.Run(client.running, wild);
        }
        next := 0;
      }
      next := next + 1;
    }

    method ResetMarketCounters()
      requires Linked(client.running)
      modifies client.running`money
      ensures Linked(client.running)
      ensures Books() == if market.config.enabled then ResetAll(old(Books())) else old(Books())
    {
      if market.config.enabled {
        market.Reset(client.running);
      }
    }

    /** The control loop over the events of any possible run: the objects go through exactly its worlds. */
    method CpuControlLoop(events: seq<Event>, ghost ws: seq<World>) returns (i: nat)
      requires market.config.Valid() && Linked(client.running)
      requires RunProofs.Run(market.config, ws, events) && ws[0] == World(Books(), 0)
      modifies AllControllers(client.running), client.running`money
      ensures Linked(client.running) && World(Books(), i) == ws[|events|]
    {
      hide Linked, Next;
      i := 0;
      for k := 0 to |events|
        invariant Linked(client.running) && World(Books(), i) == ws[k]
      {
        RunStep(market.config, ws, events, k);
        match events[k] {
          case Tick(readings, wild) => i := Frame(readings, wild, i);
          case Reset =>
            ResetMarketCounters();
            NextReset(market.config, ws[k]);
        }
      }
    }
  }

  lemma TickSampled(w: World, readings: seq<seq<Reading>>, wild: nat)
    requires SoundWorld(w) && AllReadable(w.vms, readings)
    ensures AllSampled(UpdateAll(w.vms, readings))
    ensures Prepared(w, Tick(readings, wild)) == PrepareAll(UpdateAll(w.vms, readings))
  {
  }

  lemma NextReset(m: Machine, w: World)
    requires m.Valid() && SoundWorld(w)
    ensures Next(m, w, Reset) == if m.enabled then w.(vms := ResetAll(w.vms)) else w
  {
  }

  lemma {:induction false} RunStep(m: Machine, ws: seq<World>, es: seq<Event>, k: nat)
    requires RunProofs.Run(m, ws, es) && k < |es|
    ensures SoundWorld(ws[k]) && Possible(ws[k], es[k]) && m.Valid()
    ensures ws[k + 1] == Next(m, ws[k], es[k])
  {
    if k < |es| - 1 {
      RunStep(m, Front(ws), Front(es), k);
    }
  }
}
