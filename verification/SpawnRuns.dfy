/** Whole runs of spawns and closes: the allocators hold exactly what the live workers hold. An ID may
    be spawned again while a worker of that ID is live; workers are told apart by their UIDs. */
module SpawnRuns {
  import opened IpTables
  import opened PortTable
  import opened Spawn
  import opened Text
  import opened Wrappers
  import Ipam
  import UidPool

  /** What a run does not change: the rules of a mapping, the address pool, and the rules of others. */
  datatype Setting = Setting(all: RuleFn, needed: RuleFn, pool: set<string>, foreign: Tables) {
    /** Every rule of a guest is for its address, and no rule of others is for a pool address. */
    ghost predicate Valid() {
      && (forall ip :: ip in pool ==> Free(ip, ':') && ip != "")
      && (forall m, ip, r :: ip in pool && r in all(m, ip) ==> Target(r) == Some(ip))
      && (forall m, ip {:trigger needed(m, ip)} {:trigger all(m, ip)} :: needed(m, ip) <= all(m, ip))
      && (forall r :: r in foreign && Target(r).Some? ==> Target(r).value !in pool)
    }
  }

  /** A host and an address allocator give such a setting. */
  lemma HostSetting(host: Host, ipam: Ipam.IPAM, foreign: Tables)
    requires host.Valid()
    requires forall r :: r in foreign && Target(r).Some?
                         ==> Target(r).value !in Ipam.AddressTexts(ipam.network, ipam.hostBits)
    ensures Setting(host.all, host.needed, Ipam.AddressTexts(ipam.network, ipam.hostBits), foreign).Valid()
  {
    var pool := Ipam.AddressTexts(ipam.network, ipam.hostBits);
    forall ip | ip in pool ensures Free(ip, ':') && ip != "" {
      Ipam.TextsHaveNoColon(ipam.network, ipam.hostBits, ip);
    }
    forall m, ip, r | ip in pool && r in host.all(m, ip) ensures Target(r) == Some(ip) {
      RulesTarget(host.isIp, m, ip);
      assert host.all(m, ip) == RuleSet(host.isIp, m, ip);
    }
    forall m, ip ensures host.needed(m, ip) <= host.all(m, ip) {
      assert host.all(m, ip) == RuleSet(host.isIp, m, ip) && host.needed(m, ip) == Needed(host.isIp, m, ip);
    }
  }

  /** Workers by UID. */
  type Live = map<int, Worker>

  /** Resources, and the workers spawned and not closed. */
  datatype World = World(s: Resources, live: Live)

  datatype Event = SpawnOk(w: Worker) | SpawnFailed(vm: string, granted: set<int>) | Close(uid: int)

  /** One call, with what Spawn and Close promise. A failed spawn has given back the ports it was granted. */
  ghost predicate Step(g: Setting, a: World, e: Event, b: World) {
    match e
    case SpawnOk(w) =>
      w.ip in g.pool && Spawned(g.all, g.needed, a.s, b.s, w) && b.live == a.live[w.uid := w]
    case SpawnFailed(vm, granted) =>
      OwnOrNew(a.s.ports, granted, vm) && Same(Less(a.s, granted), b.s) && b.live == a.live
    case Close(uid) => uid in a.live && b.s == Closed(g.all, a.s, a.live[uid]) && b.live == a.live - {uid}
  }

  // ---------------------------------------------------------------------------
  // The invariant, one resource at a time
  // ---------------------------------------------------------------------------

  /** The queue and the workers' UIDs partition the range; the processes are the workers'. */
  ghost predicate UidsInv(u: UidPool.Uids, processes: set<int>, live: Live) {
    && u.start > 0 && UidPool.Partition(u, multiset(live.Keys))
    && processes == live.Keys && forall uid :: uid in live ==> live[uid].uid == uid
  }

  ghost function Ips(live: Live): set<string> {
    set uid | uid in live :: live[uid].ip
  }

  ghost predicate OwnIps(live: Live) {
    forall u, v :: u in live && v in live && u != v ==> live[u].ip != live[v].ip
  }

  /** The addresses in use are the workers', each its own. */
  ghost predicate AddressesInv(pool: set<string>, used: set<string>, live: Live) {
    used == Ips(live) && OwnIps(live) && used <= pool
  }

  /** The worker has the port among its mappings. */
  predicate Maps(live: Live, uid: int, p: int) {
    uid in live && p in HostPorts(live[uid].mappings)
  }

  /** No claim without a holder: each is a live worker's of that ID. */
  ghost predicate PortsInv(t: Table, live: Live) {
    forall p :: p in t ==> exists uid :: Maps(live, uid, p) && live[uid].id == t[p]
  }

  /** For each worker, at least the rules its mappings need and at most those they may have; every
      other rule is as others left it. */
  ghost predicate RulesInv(g: Setting, rules: Tables, live: Live) {
    GuestRules(g, rules, live) && ForeignRules(g, rules, live)
  }

  ghost predicate GuestRules(g: Setting, rules: Tables, live: Live) {
    forall uid, r :: uid in live && Target(r) == Some(live[uid].ip) ==> RulesWithin(g, rules, live[uid], r)
  }

  ghost predicate ForeignRules(g: Setting, rules: Tables, live: Live) {
    forall r :: Target(r).None? || Target(r).value !in Ips(live) ==> rules[r] == g.foreign[r]
  }

  ghost predicate RulesWithin(g: Setting, rules: Tables, w: Worker, r: Rule) {
    RulesOf(g.needed, w.mappings, w.ip)[r] <= rules[r] <= RulesOf(g.all, w.mappings, w.ip)[r]
  }

  ghost predicate Inv(g: Setting, a: World) {
    && UidsInv(a.s.uids, a.s.processes, a.live)
    && AddressesInv(g.pool, a.s.used, a.live)
    && PortsInv(a.s.ports, a.live)
    && RulesInv(g, a.s.rules, a.live)
  }

  lemma CheckoutLeases(u: UidPool.Uids, u': UidPool.Uids, leased: set<int>, uid: int)
    requires UidPool.Partition(u, multiset(leased)) && u.Checkout() == (u', Some(uid))
    ensures uid !in leased && UidPool.Partition(u', multiset(leased + {uid})) && u'.start == u.start
  {
    UidPool.PartitionStep(u, multiset(leased), UidPool.Checkout);
    UidPool.PartitionMeans(u, multiset(leased), uid);
    assert uid in multiset(u.queue);
    assert multiset(leased + {uid}) == multiset(leased) + multiset{uid};
  }

  lemma SpawnUids(u: UidPool.Uids, u': UidPool.Uids, processes: set<int>, live: Live, w: Worker)
    requires UidsInv(u, processes, live) && u.Checkout() == (u', Some(w.uid))
    ensures w.uid !in live && UidsInv(u', processes + {w.uid}, live[w.uid := w])
  {
    CheckoutLeases(u, u', live.Keys, w.uid);
    assert live[w.uid := w].Keys == live.Keys + {w.uid};
  }

  lemma CloseUids(u: UidPool.Uids, processes: set<int>, live: Live, uid: int)
    requires UidsInv(u, processes, live) && uid in live
    ensures uid != 0
    ensures UidsInv(u.Return(uid).0, processes - {uid}, live - {uid})
  {
    UidPool.PartitionMeans(u, multiset(live.Keys), uid);
    UidPool.PartitionStep(u, multiset(live.Keys), UidPool.Return(uid));
    assert (live - {uid}).Keys == live.Keys - {uid};
    assert multiset(live.Keys - {uid}) == multiset(live.Keys) - multiset{uid};
  }

  lemma IpsAdd(live: Live, w: Worker)
    requires w.uid !in live && OwnIps(live) && w.ip !in Ips(live)
    ensures Ips(live[w.uid := w]) == Ips(live) + {w.ip} && OwnIps(live[w.uid := w])
  {
    var more := live[w.uid := w];
    forall ip | ip in Ips(live) + {w.ip} ensures ip in Ips(more) {
      if ip == w.ip {
        assert more[w.uid].ip == ip;
      } else {
        var uid :| uid in live && live[uid].ip == ip;
        assert more[uid].ip == ip;
      }
    }
    forall uid | uid in live ensures live[uid].ip != w.ip {
      assert live[uid].ip in Ips(live);
    }
  }

  lemma IpsRemove(live: Live, uid: int)
    requires uid in live && OwnIps(live)
    ensures Ips(live - {uid}) == Ips(live) - {live[uid].ip} && OwnIps(live - {uid}) && live[uid].ip in Ips(live)
  {
    var less := live - {uid};
    forall ip | ip in Ips(live) && ip != live[uid].ip ensures ip in Ips(less) {
      var v :| v in live && live[v].ip == ip;
      assert less[v].ip == ip;
    }
  }

  lemma SpawnPorts(t: Table, live: Live, w: Worker)
    requires PortsInv(t, live) && w.uid !in live && OwnOrNew(t, HostPorts(w.mappings), w.id)
    ensures PortsInv(t + Claims(HostPorts(w.mappings), w.id), live[w.uid := w])
  {
    var more, t' := live[w.uid := w], t + Claims(HostPorts(w.mappings), w.id);
    forall p | p in t' ensures exists uid :: Maps(more, uid, p) && more[uid].id == t'[p] {
      if p in HostPorts(w.mappings) {
        assert Maps(more, w.uid, p);
      } else {
        var uid :| Maps(live, uid, p) && live[uid].id == t[p];
        assert Maps(more, uid, p);
      }
    }
  }

  lemma ClosePorts(t: Table, live: Live, uid: int)
    requires PortsInv(t, live) && uid in live
    ensures PortsInv(t - HostPorts(live[uid].mappings), live - {uid})
  {
    var less, t' := live - {uid}, t - HostPorts(live[uid].mappings);
    forall p | p in t' ensures exists v :: Maps(less, v, p) && less[v].id == t'[p] {
      var v :| Maps(live, v, p) && live[v].id == t[p];
      assert Maps(less, v, p);
    }
  }

  lemma {:induction false} RulesOfTarget(rs: RuleFn, ms: seq<PortMapping>, ip: string, r: Rule)
    requires forall m, r' :: r' in rs(m, ip) ==> Target(r') == Some(ip)
    requires r in RulesOf(rs, ms, ip)
    ensures Target(r) == Some(ip)
    decreases |ms|
  {
    if r in RulesOf(rs, ms[..|ms| - 1], ip) {
      RulesOfTarget(rs, ms[..|ms| - 1], ip, r);
    }
  }

  lemma {:induction false} NeededWithin(g: Setting, ms: seq<PortMapping>, ip: string)
    requires g.Valid()
    ensures RulesOf(g.needed, ms, ip) <= RulesOf(g.all, ms, ip)
    decreases |ms|
  {
    if ms != [] {
      NeededWithin(g, ms[..|ms| - 1], ip);
      assert g.needed(ms[|ms| - 1], ip) <= g.all(ms[|ms| - 1], ip);
    }
  }

  lemma OnlyForGuest(g: Setting, w: Worker, r: Rule)
    requires g.Valid() && w.ip in g.pool && Target(r) != Some(w.ip)
    ensures RulesOf(g.all, w.mappings, w.ip)[r] == 0 && RulesOf(g.needed, w.mappings, w.ip)[r] == 0
  {
    if r in RulesOf(g.all, w.mappings, w.ip) {
      RulesOfTarget(g.all, w.mappings, w.ip, r);
    }
    NeededWithin(g, w.mappings, w.ip);
    assert RulesOf(g.needed, w.mappings, w.ip)[r] <= RulesOf(g.all, w.mappings, w.ip)[r];
  }

  lemma SpawnedRule(g: Setting, rules: Tables, rules': Tables, live: Live, w: Worker, r: Rule)
    requires g.Valid() && ForeignRules(g, rules, live) && w.ip in g.pool && w.ip !in Ips(live)
    requires rules + RulesOf(g.needed, w.mappings, w.ip) <= rules' <= rules + RulesOf(g.all, w.mappings, w.ip)
    ensures if Target(r) == Some(w.ip) then RulesWithin(g, rules', w, r) else rules'[r] == rules[r]
  {
    var needed, all := RulesOf(g.needed, w.mappings, w.ip), RulesOf(g.all, w.mappings, w.ip);
    assert (rules + needed)[r] <= rules'[r] <= (rules + all)[r];
    if Target(r) == Some(w.ip) {
      assert r !in g.foreign && rules[r] == 0;
    } else {
      OnlyForGuest(g, w, r);
    }
  }

  lemma SpawnRules(g: Setting, rules: Tables, rules': Tables, live: Live, w: Worker)
    requires g.Valid() && RulesInv(g, rules, live) && w.uid !in live && OwnIps(live)
    requires w.ip in g.pool && w.ip !in Ips(live)
    requires rules + RulesOf(g.needed, w.mappings, w.ip) <= rules' <= rules + RulesOf(g.all, w.mappings, w.ip)
    ensures RulesInv(g, rules', live[w.uid := w])
  {
    IpsAdd(live, w);
    forall r ensures if Target(r) == Some(w.ip) then RulesWithin(g, rules', w, r) else rules'[r] == rules[r] {
      SpawnedRule(g, rules, rules', live, w, r);
    }
    GuestRulesAdd(g, rules, rules', live, w);
  }

  lemma GuestRulesAdd(g: Setting, rules: Tables, rules': Tables, live: Live, w: Worker)
    requires GuestRules(g, rules, live) && w.ip !in Ips(live)
    requires forall r :: if Target(r) == Some(w.ip) then RulesWithin(g, rules', w, r) else rules'[r] == rules[r]
    ensures GuestRules(g, rules', live[w.uid := w])
  {
    var more := live[w.uid := w];
    forall uid, r | uid in more && Target(r) == Some(more[uid].ip) ensures RulesWithin(g, rules', more[uid], r) {
      if more[uid] != w {
        assert live[uid].ip in Ips(live) && RulesWithin(g, rules, live[uid], r);
      }
    }
  }

  lemma CloseRules(g: Setting, rules: Tables, live: Live, uid: int)
    requires g.Valid() && RulesInv(g, rules, live) && uid in live && OwnIps(live) && live[uid].ip in g.pool
    ensures RulesInv(g, rules - RulesOf(g.all, live[uid].mappings, live[uid].ip), live - {uid})
  {
    var w := live[uid];
    var rules' := rules - RulesOf(g.all, w.mappings, w.ip);
    IpsRemove(live, uid);
    forall r
      ensures Target(r) == Some(w.ip) ==> rules'[r] == g.foreign[r]
      ensures Target(r) != Some(w.ip) ==> rules'[r] == rules[r]
    {
      if Target(r) == Some(w.ip) {
        assert RulesWithin(g, rules, w, r) && r !in g.foreign;
      } else {
        OnlyForGuest(g, w, r);
      }
    }
    forall v, r | v in live - {uid} && Target(r) == Some(live[v].ip) ensures RulesWithin(g, rules', live[v], r) {
      assert live[v].ip != live[uid].ip;
      assert RulesWithin(g, rules, live[v], r);
    }
  }

  // ---------------------------------------------------------------------------
  // Runs
  // ---------------------------------------------------------------------------

  lemma SpawnKeeps(g: Setting, a: World, w: Worker, b: World)
    requires g.Valid() && Inv(g, a) && Step(g, a, SpawnOk(w), b)
    ensures w.uid !in a.live && Inv(g, b)
  {
    SpawnUids(a.s.uids, b.s.uids, a.s.processes, a.live, w);
    IpsAdd(a.live, w);
    SpawnPorts(a.s.ports, a.live, w);
    SpawnRules(g, a.s.rules, b.s.rules, a.live, w);
  }

  lemma CloseKeeps(g: Setting, a: World, uid: int, b: World)
    requires g.Valid() && Inv(g, a) && Step(g, a, Close(uid), b)
    ensures Inv(g, b)
  {
    CloseUids(a.s.uids, a.s.processes, a.live, uid);
    IpsRemove(a.live, uid);
    ClosePorts(a.s.ports, a.live, uid);
    CloseRules(g, a.s.rules, a.live, uid);
  }

  lemma StepKeeps(g: Setting, a: World, e: Event, b: World)
    requires g.Valid() && Inv(g, a) && Step(g, a, e, b)
    ensures Inv(g, b)
    ensures (b.s.uids.start, b.s.uids.size) == (a.s.uids.start, a.s.uids.size)
  {
    match e
    case SpawnOk(w) => SpawnKeeps(g, a, w, b);
    case SpawnFailed(_, _) =>
    case Close(uid) => CloseKeeps(g, a, uid, b);
  }

  ghost predicate IsRun(g: Setting, trace: seq<World>, events: seq<Event>) {
    && |trace| == |events| + 1
    && forall i :: 0 <= i < |events| ==> Step(g, trace[i], events[i], trace[i + 1])
  }

  /** Full UID queue, nothing else taken. */
  function Initial(g: Setting, start: int, size: nat): World {
    World(Resources(UidPool.Full(start, size), {}, map[], g.foreign, {}), map[])
  }

  lemma InitialInv(g: Setting, start: int, size: nat)
    requires start > 0
    ensures Inv(g, Initial(g, start, size))
  {
    UidPool.FullIsPartition(start, size);
    assert multiset(Initial(g, start, size).live.Keys) == multiset{};
  }

  /** A run from nothing taken. */
  ghost predicate RunFrom(g: Setting, start: int, size: nat, trace: seq<World>, events: seq<Event>) {
    g.Valid() && start > 0 && IsRun(g, trace, events) && trace[0] == Initial(g, start, size)
  }

  /** The invariant, with the UID range as it was given. */
  ghost predicate Sound(g: Setting, start: int, size: nat, a: World) {
    Inv(g, a) && a.s.uids.start == start && a.s.uids.size == size
  }

  lemma SoundStep(g: Setting, start: int, size: nat, a: World, e: Event, b: World)
    requires g.Valid() && Sound(g, start, size, a) && Step(g, a, e, b)
    ensures Sound(g, start, size, b)
  {
    StepKeeps(g, a, e, b);
  }

  lemma SoundNext(g: Setting, start: int, size: nat, trace: seq<World>, events: seq<Event>, n: nat)
    requires RunFrom(g, start, size, trace, events) && n < |events| && Sound(g, start, size, trace[n])
    ensures Sound(g, start, size, trace[n + 1])
  {
    assert Step(g, trace[n], events[n], trace[n + 1]);
    SoundStep(g, start, size, trace[n], events[n], trace[n + 1]);
  }

  lemma InitialSound(g: Setting, start: int, size: nat)
    requires start > 0
    ensures Sound(g, start, size, Initial(g, start, size))
  {
    InitialInv(g, start, size);
  }

  /** Over every sequence of successful and failed spawns and closes, in any order and of any IDs,
      the used addresses, leased UIDs, rules and processes are exactly the holdings of the live
      workers, and every claimed port is one of theirs. */
  lemma {:induction false} RunKeeps(g: Setting, start: int, size: nat, trace: seq<World>, events: seq<Event>, n: nat)
    requires RunFrom(g, start, size, trace, events) && n < |trace|
    ensures Sound(g, start, size, trace[n])
    decreases n
  {
    if n == 0 {
      InitialSound(g, start, size);
    } else {
      RunKeeps(g, start, size, trace, events, n - 1);
      SoundNext(g, start, size, trace, events, n - 1);
    }
  }

  /** Once every worker is closed, every allocator is back in its initial state, up to the order of
      the UID queue. */
  lemma AllClosed(g: Setting, start: int, size: nat, trace: seq<World>, events: seq<Event>)
    requires RunFrom(g, start, size, trace, events) && trace[|events|].live == map[]
    ensures Same(trace[0].s, trace[|events|].s)
  {
    RunKeeps(g, start, size, trace, events, |events|);
    NothingHeld(g, trace[|events|]);
  }

  lemma NothingHeld(g: Setting, a: World)
    requires Inv(g, a) && a.live == map[]
    ensures Same(Initial(g, a.s.uids.start, a.s.uids.size).s, a.s)
  {
    assert a.live.Keys == {} && Ips(a.live) == {} && multiset(a.live.Keys) == multiset{};
    assert forall p :: p !in a.s.ports;
    assert a.s.ports == map[];
    assert a.s.rules == g.foreign;
  }

  /** In any such state a spawn, of whatever ID, meets what Spawn needs. */
  lemma InvIsReady(g: Setting, a: World)
    requires g.Valid() && Inv(g, a)
    ensures Ready(a.s, g.pool)
  {
    var u, leased := a.s.uids, multiset(a.live.Keys);
    forall i | 0 <= i < |u.queue| ensures u.InRange(u.queue[i]) && u.queue[i] !in a.s.processes {
      UidPool.PartitionMeans(u, leased, u.queue[i]);
      assert u.queue[i] in multiset(u.queue);
    }
    UidPool.PartitionMeans(u, leased, 0);
    forall r | r in a.s.rules && Target(r).Some? && Target(r).value in g.pool ensures Target(r).value in a.s.used {
      assert r !in g.foreign;
    }
  }

  // ---------------------------------------------------------------------------
  // Claims on ports
  // ---------------------------------------------------------------------------

  /** Every live worker has the claims on its host ports, under its ID. */
  ghost predicate ClaimsKept(a: World) {
    forall uid, p :: Maps(a.live, uid, p) ==> p in a.s.ports && a.s.ports[p] == a.live[uid].id
  }

  /** The event takes no claim away from a worker that goes on: a closing one shares no host port with
      another, and a failing spawn was granted none that was claimed. */
  ghost predicate Clean(a: World, e: Event) {
    match e
    case SpawnOk(_) => true
    case SpawnFailed(_, granted) => granted !! a.s.ports.Keys
    case Close(uid) =>
      forall v, p :: v != uid && Maps(a.live, v, p) ==> !Maps(a.live, uid, p)
  }

  lemma CloseKeepsClaims(g: Setting, a: World, uid: int, b: World)
    requires Step(g, a, Close(uid), b) && ClaimsKept(a)
    ensures ClaimsKept(b) <==> Clean(a, Close(uid))
  {
    forall v, p | v != uid && Maps(a.live, v, p) ensures Maps(b.live, v, p) && b.live[v] == a.live[v] {
    }
    if Clean(a, Close(uid)) {
      forall v, p | Maps(b.live, v, p) ensures p in b.s.ports && b.s.ports[p] == b.live[v].id {
        assert Maps(a.live, v, p);
      }
    }
    if ClaimsKept(b) {
      forall v, p | v != uid && Maps(a.live, v, p) ensures !Maps(a.live, uid, p) {
        assert Maps(b.live, v, p);
      }
    }
  }

  lemma FailureKeepsClaims(g: Setting, a: World, vm: string, granted: set<int>, b: World)
    requires PortsInv(a.s.ports, a.live) && Step(g, a, SpawnFailed(vm, granted), b) && ClaimsKept(a)
    ensures ClaimsKept(b) <==> Clean(a, SpawnFailed(vm, granted))
  {
    if ClaimsKept(b) {
      forall p | p in a.s.ports ensures p !in granted {
        var uid :| Maps(a.live, uid, p) && a.live[uid].id == a.s.ports[p];
        assert Maps(b.live, uid, p);
      }
    }
  }

  lemma SpawnKeepsClaims(g: Setting, a: World, w: Worker, b: World)
    requires w.uid !in a.live && Step(g, a, SpawnOk(w), b) && ClaimsKept(a)
    ensures ClaimsKept(b)
  {
    forall uid, p | Maps(b.live, uid, p) ensures p in b.s.ports && b.s.ports[p] == b.live[uid].id {
      if uid != w.uid {
        assert Maps(a.live, uid, p);
      }
    }
  }

  /** An event keeps all claims exactly when it is clean. */
  lemma StepKeepsClaims(g: Setting, a: World, e: Event, b: World)
    requires g.Valid() && Inv(g, a) && Step(g, a, e, b) && ClaimsKept(a)
    ensures ClaimsKept(b) <==> Clean(a, e)
  {
    match e
    case SpawnOk(w) => SpawnKeeps(g, a, w, b); SpawnKeepsClaims(g, a, w, b);
    case SpawnFailed(vm, granted) => FailureKeepsClaims(g, a, vm, granted, b);
    case Close(uid) => CloseKeepsClaims(g, a, uid, b);
  }

  lemma {:induction false} ClaimsKeptUpTo(g: Setting, start: int, size: nat,
      trace: seq<World>, events: seq<Event>, n: nat)
    requires RunFrom(g, start, size, trace, events) && n < |trace|
    requires forall i :: 0 <= i < n ==> Clean(trace[i], events[i])
    ensures ClaimsKept(trace[n])
    decreases n
  {
    if n > 0 {
      ClaimsKeptUpTo(g, start, size, trace, events, n - 1);
      ClaimsKeptAt(g, start, size, trace, events, n - 1);
    }
  }

  lemma ClaimsKeptAt(g: Setting, start: int, size: nat, trace: seq<World>, events: seq<Event>, n: nat)
    requires RunFrom(g, start, size, trace, events) && n < |events| && ClaimsKept(trace[n])
    ensures ClaimsKept(trace[n + 1]) <==> Clean(trace[n], events[n])
  {
    RunKeeps(g, start, size, trace, events, n);
    assert Step(g, trace[n], events[n], trace[n + 1]);
    StepKeepsClaims(g, trace[n], events[n], trace[n + 1]);
  }

  /** Throughout a run the live workers have all their claims if and only if every close and every
      failed spawn was clean; then the port table is exactly what they hold. */
  lemma ClaimsKeptIffClean(g: Setting, start: int, size: nat, trace: seq<World>, events: seq<Event>)
    requires RunFrom(g, start, size, trace, events)
    ensures (forall i :: 0 <= i < |trace| ==> ClaimsKept(trace[i]))
       <==> (forall i :: 0 <= i < |events| ==> Clean(trace[i], events[i]))
  {
    if forall i :: 0 <= i < |trace| ==> ClaimsKept(trace[i]) {
      forall i | 0 <= i < |events| ensures Clean(trace[i], events[i]) {
        assert ClaimsKept(trace[i + 1]);
        ClaimsKeptAt(g, start, size, trace, events, i);
      }
    }
    if forall i :: 0 <= i < |events| ==> Clean(trace[i], events[i]) {
      forall i | 0 <= i < |trace| ensures ClaimsKept(trace[i]) {
        ClaimsKeptUpTo(g, start, size, trace, events, i);
      }
    }
  }

  /** No spawn of an ID that has a live worker comes to be granted ports: the kernel image is already
      linked in the ID's chroot, and the second link fails. */
  ghost predicate FreshId(a: World, e: Event) {
    match e
    case SpawnOk(w) => forall uid :: uid in a.live ==> a.live[uid].id != w.id
    case SpawnFailed(vm, granted) => granted != {} ==> forall uid :: uid in a.live ==> a.live[uid].id != vm
    case Close(_) => true
  }

  ghost predicate OwnIds(a: World) {
    forall u, v :: u in a.live && v in a.live && u != v ==> a.live[u].id != a.live[v].id
  }

  /** With live IDs distinct, every event is clean. */
  lemma FreshIsClean(g: Setting, a: World, e: Event, b: World)
    requires Inv(g, a) && Step(g, a, e, b) && ClaimsKept(a) && OwnIds(a) && FreshId(a, e)
    ensures Clean(a, e) && OwnIds(b)
  {
    if e.SpawnFailed? {
      forall p | p in a.s.ports ensures p !in e.granted {
        var uid :| Maps(a.live, uid, p) && a.live[uid].id == a.s.ports[p];
      }
    }
  }

  lemma FreshStep(g: Setting, a: World, e: Event, b: World)
    requires g.Valid() && Inv(g, a) && Step(g, a, e, b) && ClaimsKept(a) && OwnIds(a) && FreshId(a, e)
    ensures ClaimsKept(b) && OwnIds(b)
  {
    FreshIsClean(g, a, e, b);
    StepKeepsClaims(g, a, e, b);
  }

  /** If no spawn of an ID with a live worker gets as far as ports, the live workers keep all their claims. */
  lemma {:induction false} FreshIdsKeepClaims(g: Setting, start: int, size: nat,
      trace: seq<World>, events: seq<Event>, n: nat)
    requires RunFrom(g, start, size, trace, events) && n < |trace|
    requires forall i :: 0 <= i < |events| ==> FreshId(trace[i], events[i])
    ensures ClaimsKept(trace[n]) && OwnIds(trace[n])
    decreases n
  {
    if n > 0 {
      FreshIdsKeepClaims(g, start, size, trace, events, n - 1);
      RunKeeps(g, start, size, trace, events, n - 1);
      assert Step(g, trace[n - 1], events[n - 1], trace[n - 1 + 1]) && FreshId(trace[n - 1], events[n - 1]);
      FreshStep(g, trace[n - 1], events[n - 1], trace[n]);
    }
  }

  /** Two live workers share no UID and no address, and a host port only if they have one ID, or a
      claim was lost. */
  lemma NothingShared(g: Setting, a: World, u: int, v: int)
    requires Inv(g, a) && u in a.live && v in a.live && u != v
    ensures a.live[u].uid != a.live[v].uid && a.live[u].ip != a.live[v].ip
    ensures ClaimsKept(a) && a.live[u].id != a.live[v].id
      ==> HostPorts(a.live[u].mappings) !! HostPorts(a.live[v].mappings)
  {
    if ClaimsKept(a) && a.live[u].id != a.live[v].id {
      forall p | Maps(a.live, u, p) ensures !Maps(a.live, v, p) {
      }
      assert forall p :: p in HostPorts(a.live[u].mappings) <==> Maps(a.live, u, p);
      assert forall p :: p in HostPorts(a.live[v].mappings) <==> Maps(a.live, v, p);
    }
  }
}
