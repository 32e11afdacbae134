/** The factory's own calls are the steps of SpawnRuns: whatever sequence of Spawn and Close calls a
    factory serves, from nothing taken, is one of its runs. */
module FactoryRuns {
  import opened Factory
  import opened IpTables
  import opened Spawn
  import opened SpawnRuns
  import opened Wrappers

  /** The setting of a factory's runs. */
  ghost predicate SettingOf(f: FirecrackerFactory, g: Setting) {
    g.Valid() && g.all == f.Rules() && g.needed == f.Needs() && g.pool == f.Addresses()
  }

  /** A factory has one, if no rule of others is for an address of its pool. */
  lemma FactorySetting(f: FirecrackerFactory, foreign: Tables)
    requires f.host.Valid()
    requires forall r :: r in foreign && Target(r).Some? ==> Target(r).value !in f.Addresses()
    ensures SettingOf(f, Setting(f.Rules(), f.Needs(), f.Addresses(), foreign))
  {
    HostSetting(f.host, f.ipam, foreign);
  }

  /** A call: spawn a VM, or close the k-th worker of those that are live. */
  datatype Order = Start(vm: string, mappings: seq<PortMapping>, env: Env) | Stop(k: nat)

  /** The event is what the order gives, with these workers and from these resources: a spawn of that
      ID, with those mappings, that succeeds exactly when it can; or the close of that worker. */
  ghost predicate Answers(f: FirecrackerFactory, o: Order, fleet: seq<Worker>, s: Resources, e: Event) {
    match (o, e)
    case (Start(vm, mappings, env), SpawnOk(w)) =>
      f.CanSpawnFrom(env, vm, mappings, s) && w.id == vm && Resolved(mappings, w.mappings)
    case (Start(vm, mappings, env), SpawnFailed(id, granted)) =>
      !f.CanSpawnFrom(env, vm, mappings, s) && id == vm && granted == f.GrantsFrom(env, vm, mappings, s)
    case (Stop(k), Close(uid)) => k < |fleet| && uid == fleet[k].uid
    case _ => false
  }

  /** Only closing a worker that is not there gives no event. */
  predicate Idle(o: Order, fleet: seq<Worker>) {
    o.Stop? && o.k >= |fleet|
  }

  /** The workers after an order. */
  function Next(o: Order, fleet: seq<Worker>, e: Event): seq<Worker> {
    match e
    case SpawnOk(w) => fleet + [w]
    case SpawnFailed(_, _) => fleet
    case Close(_) => if o.Stop? && o.k < |fleet| then fleet[..o.k] + fleet[o.k + 1..] else fleet
  }

  /** The events are what the orders give, one after the other, and lead from one fleet to the other. */
  ghost predicate Served(f: FirecrackerFactory, orders: seq<Order>, fleet: seq<Worker>,
      trace: seq<World>, events: seq<Event>, fleet': seq<Worker>)
    requires |trace| == |events| + 1
  {
    if orders == [] then events == [] && fleet' == fleet
    else if Idle(orders[0], fleet) then Served(f, orders[1..], fleet, trace, events, fleet')
    else
      && events != [] && Answers(f, orders[0], fleet, trace[0].s, events[0])
      && Served(f, orders[1..], Next(orders[0], fleet, events[0]), trace[1..], events[1..], fleet')
  }

  lemma {:induction false} ServedIdle(f: FirecrackerFactory, orders: seq<Order>, fleet: seq<Worker>,
      trace: seq<World>, events: seq<Event>, fleet': seq<Worker>, o: Order)
    requires |trace| == |events| + 1 && Served(f, orders, fleet, trace, events, fleet') && Idle(o, fleet')
    ensures Served(f, orders + [o], fleet, trace, events, fleet')
  {
    if orders == [] {
      assert (orders + [o])[1..] == [];
    } else {
      assert (orders + [o])[1..] == orders[1..] + [o];
      if Idle(orders[0], fleet) {
        ServedIdle(f, orders[1..], fleet, trace, events, fleet', o);
      } else {
        ServedIdle(f, orders[1..], Next(orders[0], fleet, events[0]), trace[1..], events[1..], fleet', o);
      }
    }
  }

  lemma {:induction false} ServedOneMore(f: FirecrackerFactory, orders: seq<Order>, fleet: seq<Worker>,
      trace: seq<World>, events: seq<Event>, fleet': seq<Worker>, o: Order, e: Event, b: World)
    requires |trace| == |events| + 1 && Served(f, orders, fleet, trace, events, fleet')
    requires !Idle(o, fleet') && Answers(f, o, fleet', trace[|events|].s, e)
    ensures Served(f, orders + [o], fleet, trace + [b], events + [e], Next(o, fleet', e))
  {
    var trace', events' := trace + [b], events + [e];
    if orders == [] {
      assert (orders + [o])[1..] == [] && events'[1..] == [];
    } else {
      assert (orders + [o])[1..] == orders[1..] + [o];
      if Idle(orders[0], fleet) {
        ServedOneMore(f, orders[1..], fleet, trace, events, fleet', o, e, b);
      } else {
        ServedOneMore(f, orders[1..], Next(orders[0], fleet, events[0]), trace[1..], events[1..], fleet', o, e, b);
        assert trace'[1..] == trace[1..] + [b] && events'[1..] == events[1..] + [e];
      }
    }
  }

  /** A call of Spawn is a step, of any ID, also one that is live. */
  method SpawnStep(f: FirecrackerFactory, vm: string, mappings: seq<PortMapping>, env: Env,
      ghost g: Setting, ghost live: Live)
    returns (r: Result<Worker>, ghost e: Event, ghost live': Live)
    requires f.Valid() && SettingOf(f, g) && Inv(g, World(f.State(), live))
    modifies f.uidPool, f.ipam, f.ipam.nextIP, f.portManager, f.host, f`teardowns
    ensures f.Valid() && Step(g, World(old(f.State()), live), e, World(f.State(), live'))
    ensures Inv(g, World(f.State(), live'))
    ensures match r
            case Ok(w) => e == SpawnOk(w) && live' == live[w.uid := w]
            case Err(_) => e.SpawnFailed? && live' == live
    ensures Answers(f, Start(vm, mappings, env), [], old(f.State()), e)
  {
    ghost var a, granted := World(f.State(), live), f.Grants(env, vm, mappings);
    InvIsReady(g, a);
    f.GrantsAreOwnOrNew(env, vm, mappings);
    r := f.Spawn(vm, mappings, env);
    if r.Ok? {
      e, live' := SpawnOk(r.value), live[r.value.uid := r.value];
    } else {
      e, live' := SpawnFailed(vm, granted), live;
    }
    StepKeeps(g, a, e, World(f.State(), live'));
  }

  /** A call of Close on a live worker is a step. */
  method CloseStep(f: FirecrackerFactory, w: Worker, ghost g: Setting, ghost live: Live) returns (ghost live': Live)
    requires f.Valid() && SettingOf(f, g) && Inv(g, World(f.State(), live))
    requires w.uid in live && live[w.uid] == w
    modifies f.uidPool, f.ipam`usedIPs, f.portManager, f.host, f`teardowns
    ensures f.Valid() && live' == live - {w.uid}
    ensures Step(g, World(old(f.State()), live), Close(w.uid), World(f.State(), live'))
    ensures Inv(g, World(f.State(), live'))
  {
    ghost var a := World(f.State(), live);
    f.Close(w);
    live' := live - {w.uid};
    StepKeeps(g, a, Close(w.uid), World(f.State(), live'));
  }

  /** Each live worker is on the list once. */
  ghost predicate Listed(fleet: seq<Worker>, live: Live) {
    && (forall i :: 0 <= i < |fleet| ==> fleet[i].uid in live && live[fleet[i].uid] == fleet[i])
    && (forall i, j :: 0 <= i < j < |fleet| ==> fleet[i].uid != fleet[j].uid)
    && (forall uid :: uid in live ==> live[uid].uid == uid && live[uid] in fleet)
  }

  lemma ListedAdd(fleet: seq<Worker>, live: Live, w: Worker)
    requires Listed(fleet, live) && w.uid !in live
    ensures Listed(fleet + [w], live[w.uid := w])
  {
    var more := live[w.uid := w];
    forall uid | uid in more ensures more[uid] in fleet + [w] {
      assert uid != w.uid ==> live[uid] in fleet;
    }
  }

  lemma ListedRemove(fleet: seq<Worker>, live: Live, k: nat)
    requires Listed(fleet, live) && k < |fleet|
    ensures Listed(fleet[..k] + fleet[k + 1..], live - {fleet[k].uid})
  {
    var less := fleet[..k] + fleet[k + 1..];
    assert forall i :: 0 <= i < |less| ==> less[i] == fleet[if i < k then i else i + 1];
    forall uid | uid in live && uid != fleet[k].uid ensures live[uid] in less {
      OthersListed(fleet, k, live[uid]);
    }
  }

  lemma OthersListed(fleet: seq<Worker>, k: nat, w: Worker)
    requires k < |fleet| && w in fleet && w != fleet[k]
    ensures w in fleet[..k] + fleet[k + 1..]
  {
  }

  /** The factory stands where the run so far ends, with these workers, having served these orders. */
  ghost predicate Serving(f: FirecrackerFactory, g: Setting, orders: seq<Order>, fleet: seq<Worker>,
      trace: seq<World>, events: seq<Event>)
    reads f.uidPool, f.ipam, f.ipam.subnet, f.ipam.mask, f.ipam.nextIP, f.portManager, f.host
  {
    && f.Valid() && RunFrom(g, f.uidPool.start, f.uidPool.cap, trace, events)
    && trace[|events|].s == f.State() && Listed(fleet, trace[|events|].live) && Inv(g, trace[|events|])
    && Served(f, orders, [], trace, events, fleet)
  }

  lemma StartsServing(f: FirecrackerFactory, g: Setting)
    requires f.Valid() && SettingOf(f, g) && f.uidPool.start > 0
    requires f.State() == Initial(g, f.uidPool.start, f.uidPool.cap).s
    ensures Serving(f, g, [], [], [Initial(g, f.uidPool.start, f.uidPool.cap)], [])
  {
    InitialInv(g, f.uidPool.start, f.uidPool.cap);
  }

  method Launch(f: FirecrackerFactory, vm: string, mappings: seq<PortMapping>, env: Env, fleet: seq<Worker>,
      ghost g: Setting, ghost orders: seq<Order>, ghost trace: seq<World>, ghost events: seq<Event>)
    returns (fleet': seq<Worker>, ghost trace': seq<World>, ghost events': seq<Event>)
    requires SettingOf(f, g) && Serving(f, g, orders, fleet, trace, events)
    modifies f.uidPool, f.ipam, f.ipam.nextIP, f.portManager, f.host, f`teardowns
    ensures Serving(f, g, orders + [Start(vm, mappings, env)], fleet', trace', events')
  {
    ghost var a := trace[|events|];
    var r, e, live' := SpawnStep(f, vm, mappings, env, g, a.live);
    ghost var b := World(f.State(), live');
    assert a == World(a.s, a.live);
    RunGrows(g, f.uidPool.start, f.uidPool.cap, trace, events, e, b);
    ServedOneMore(f, orders, [], trace, events, fleet, Start(vm, mappings, env), e, b);
    trace', events' := trace + [b], events + [e];
    fleet' := fleet;
    if r.Ok? {
      SpawnKeeps(g, a, r.value, b);
      ListedAdd(fleet, a.live, r.value);
      fleet' := fleet + [r.value];
    }
  }

  method Retire(f: FirecrackerFactory, k: nat, fleet: seq<Worker>,
      ghost g: Setting, ghost orders: seq<Order>, ghost trace: seq<World>, ghost events: seq<Event>)
    returns (fleet': seq<Worker>, ghost trace': seq<World>, ghost events': seq<Event>)
    requires SettingOf(f, g) && Serving(f, g, orders, fleet, trace, events) && k < |fleet|
    modifies f.uidPool, f.ipam, f.ipam.nextIP, f.portManager, f.host, f`teardowns
    ensures Serving(f, g, orders + [Stop(k)], fleet', trace', events')
  {
    ghost var a := trace[|events|];
    assert a == World(a.s, a.live);
    ghost var live' := CloseStep(f, fleet[k], g, a.live);
    ghost var b := World(f.State(), live');
    RunGrows(g, f.uidPool.start, f.uidPool.cap, trace, events, Close(fleet[k].uid), b);
    ServedOneMore(f, orders, [], trace, events, fleet, Stop(k), Close(fleet[k].uid), b);
    ListedRemove(fleet, a.live, k);
    trace', events', fleet' := trace + [b], events + [Close(fleet[k].uid)], fleet[..k] + fleet[k + 1..];
  }

  method ServeOne(f: FirecrackerFactory, o: Order, fleet: seq<Worker>,
      ghost g: Setting, ghost orders: seq<Order>, ghost trace: seq<World>, ghost events: seq<Event>)
    returns (fleet': seq<Worker>, ghost trace': seq<World>, ghost events': seq<Event>)
    requires SettingOf(f, g) && Serving(f, g, orders, fleet, trace, events)
    modifies f.uidPool, f.ipam, f.ipam.nextIP, f.portManager, f.host, f`teardowns
    ensures Serving(f, g, orders + [o], fleet', trace', events')
  {
    match o
    case Start(vm, mappings, env) =>
      fleet', trace', events' := Launch(f, vm, mappings, env, fleet, g, orders, trace, events);
    case Stop(k) =>
      if k < |fleet| {
        fleet', trace', events' := Retire(f, k, fleet, g, orders, trace, events);
      } else {
        ServedIdle(f, orders, [], trace, events, fleet, o);
        fleet', trace', events' := fleet, trace, events;
      }
  }

  /** Serves the orders one after the other. What it does is a run, its events are what the orders give,
      and the workers left are those live. */
  method Serve(f: FirecrackerFactory, orders: seq<Order>, ghost g: Setting)
    returns (fleet: seq<Worker>, ghost trace: seq<World>, ghost events: seq<Event>)
    requires f.Valid() && SettingOf(f, g) && f.uidPool.start > 0
    requires f.State() == Initial(g, f.uidPool.start, f.uidPool.cap).s
    modifies f.uidPool, f.ipam, f.ipam.nextIP, f.portManager, f.host, f`teardowns
    ensures Serving(f, g, orders, fleet, trace, events)
  {
    fleet := [];
    trace, events := [Initial(g, f.uidPool.start, f.uidPool.cap)], [];
    StartsServing(f, g);
    for n := 0 to |orders|
      invariant Serving(f, g, orders[..n], fleet, trace, events)
    {
      assert orders[..n + 1] == orders[..n] + [orders[n]];
      fleet, trace, events := ServeOne(f, orders[n], fleet, g, orders[..n], trace, events);
    }
    assert orders[..|orders|] == orders;
  }

  lemma RunGrows(g: Setting, start: int, size: nat, trace: seq<World>, events: seq<Event>, e: Event, b: World)
    requires RunFrom(g, start, size, trace, events) && Step(g, trace[|events|], e, b)
    ensures RunFrom(g, start, size, trace + [b], events + [e])
  {
    var trace', events' := trace + [b], events + [e];
    forall i | 0 <= i < |events'| ensures Step(g, trace'[i], events'[i], trace'[i + 1]) {
      if i < |events| {
        assert Step(g, trace[i], events[i], trace[i + 1]);
      }
    }
  }
}
