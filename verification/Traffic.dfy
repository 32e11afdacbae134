/** Where packets go, over whole runs of spawns and closes: the rule tables redirect to a guest exactly
    the packets that arrive for the mappings of the live worker at its address. */
module Traffic {
  import opened IpTables
  import opened Packets
  import opened Spawn
  import opened SpawnRuns
  import opened Text
  import opened Wrappers
  import Factory
  import FactoryRuns

  /** The rules of a mapping are those of AddPortMapping and RemovePortMapping. */
  ghost predicate IpTablesRules(g: Setting, isIp: string -> bool) {
    && (forall m, ip {:trigger g.all(m, ip)} :: g.all(m, ip) == RuleSet(isIp, m, ip))
    && (forall m, ip {:trigger g.needed(m, ip)} :: g.needed(m, ip) == Needed(isIp, m, ip))
  }

  /** A factory's are. */
  lemma FactoryRules(f: Factory.FirecrackerFactory, g: Setting)
    requires FactoryRuns.SettingOf(f, g) && f.host.Valid()
    ensures g.Valid() && IpTablesRules(g, f.host.isIp)
  {
    forall m, ip ensures g.all(m, ip) == RuleSet(f.host.isIp, m, ip) && g.needed(m, ip) == Needed(f.host.isIp, m, ip) {
      assert f.host.all(m, ip) == RuleSet(f.host.isIp, m, ip) && f.host.needed(m, ip) == Needed(f.host.isIp, m, ip);
    }
  }

  /** Some mapping wants the packet, for this port of the guest. */
  ghost predicate WantedBy(isIp: string -> bool, net: Net, ms: seq<PortMapping>, k: Packet, port: nat) {
    exists i :: 0 <= i < |ms| && Arrives(isIp, net, ms[i], k) && ms[i].guestPort == port
  }

  ghost predicate OwnerWants(isIp: string -> bool, net: Net, live: Live, ip: string, k: Packet, port: nat) {
    exists uid :: uid in live && live[uid].ip == ip && WantedBy(isIp, net, live[uid].mappings, k, port)
  }

  // ---------------------------------------------------------------------------
  // Rules and mappings
  // ---------------------------------------------------------------------------

  lemma {:induction false} MemberOfAll(rs: RuleFn, ms: seq<PortMapping>, ip: string, i: nat, r: Rule)
    requires i < |ms| && r in rs(ms[i], ip)
    ensures r in RulesOf(rs, ms, ip)
    decreases |ms|
  {
    var n := |ms| - 1;
    if i < n {
      MemberOfAll(rs, ms[..n], ip, i, r);
    }
  }

  lemma {:induction false} SourceOf(rs: RuleFn, ms: seq<PortMapping>, ip: string, r: Rule) returns (i: nat)
    requires r in RulesOf(rs, ms, ip)
    ensures i < |ms| && r in rs(ms[i], ip)
    decreases |ms|
  {
    var n := |ms| - 1;
    if r in RulesOf(rs, ms[..n], ip) {
      i := SourceOf(rs, ms[..n], ip, r);
    } else {
      i := n;
    }
  }

  lemma InVerdicts(t: Tables, r: Rule, net: Net, k: Packet)
    requires r in t && VerdictOf(net, r.spec, k).Some?
    ensures VerdictOf(net, r.spec, k).value in Verdicts(t, r.table, r.chain, net, k)
  {
  }

  /** A rule that a live worker needs is in the tables. */
  lemma NeededIsThere(g: Setting, isIp: string -> bool, a: World, uid: int, i: nat, r: Rule)
    requires g.Valid() && IpTablesRules(g, isIp) && Inv(g, a) && uid in a.live && i < |a.live[uid].mappings|
    requires r in Needed(isIp, a.live[uid].mappings[i], a.live[uid].ip)
    ensures r in a.s.rules
  {
    var w := a.live[uid];
    assert w.ip in Ips(a.live) && Free(w.ip, ':');
    RulesTarget(isIp, w.mappings[i], w.ip);
    assert Target(r) == Some(w.ip);
    assert r in g.needed(w.mappings[i], w.ip);
    MemberOfAll(g.needed, w.mappings, w.ip, i, r);
    assert RulesWithin(g, a.s.rules, w, r);
  }

  /** And a rule for an address of the pool is a rule of some mapping of the live worker there. */
  lemma RuleHasOwner(g: Setting, isIp: string -> bool, a: World, r: Rule, ip: string) returns (uid: int, i: nat)
    requires g.Valid() && IpTablesRules(g, isIp) && Inv(g, a) && ip in g.pool && r in a.s.rules && Target(r) == Some(ip)
    ensures uid in a.live && a.live[uid].ip == ip && i < |a.live[uid].mappings|
    ensures r in RuleSet(isIp, a.live[uid].mappings[i], ip)
  {
    assert ip !in Ips(a.live) ==> a.s.rules[r] == g.foreign[r];
    uid :| uid in a.live && a.live[uid].ip == ip;
    var w := a.live[uid];
    assert RulesWithin(g, a.s.rules, w, r);
    i := SourceOf(g.all, w.mappings, ip, r);
    assert g.all(w.mappings[i], ip) == RuleSet(isIp, w.mappings[i], ip);
  }

  /** Each NAT chain has one of the mapping's rules. */
  lemma RuleOfChain(isIp: string -> bool, m: PortMapping, ip: string, r: Rule)
    requires r in RuleSet(isIp, m, ip) && r.table == "nat"
    ensures r.chain == "PREROUTING" ==> r == DnatRule(isIp, m, ip)
    ensures r.chain == "OUTPUT" ==> r == OutputRule(m, ip) && Local(m.hostInterface)
  {
    assert "nat"[0] != "filter"[0] && "OUTPUT"[0] != "PREROUTING"[0];
  }

  // ---------------------------------------------------------------------------
  // Traffic
  // ---------------------------------------------------------------------------

  lemma WantedIsRedirected(g: Setting, isIp: string -> bool, a: World, net: Net, k: Packet, uid: int, i: nat)
    requires g.Valid() && IpTablesRules(g, isIp) && Inv(g, a) && uid in a.live && i < |a.live[uid].mappings|
    requires Arrives(isIp, net, a.live[uid].mappings[i], k) && a.live[uid].mappings[i].guestPort >= 0
    ensures Dnat(a.live[uid].ip, a.live[uid].mappings[i].guestPort)
         in Verdicts(a.s.rules, "nat", "PREROUTING", net, k)
  {
    var w := a.live[uid];
    var r := DnatRule(isIp, w.mappings[i], w.ip);
    assert w.ip in Ips(a.live) && Free(w.ip, ':');
    NeededIsThere(g, isIp, a, uid, i, r);
    DnatVerdict(isIp, net, w.mappings[i], w.ip, k);
    InVerdicts(a.s.rules, r, net, k);
  }

  lemma RedirectedIsWanted(g: Setting, isIp: string -> bool, a: World, net: Net, k: Packet, ip: string, port: nat)
    requires g.Valid() && IpTablesRules(g, isIp) && Inv(g, a) && ip in g.pool
    requires Dnat(ip, port) in Verdicts(a.s.rules, "nat", "PREROUTING", net, k)
    ensures OwnerWants(isIp, net, a.live, ip, k, port)
  {
    var r :| r in a.s.rules && r.table == "nat" && r.chain == "PREROUTING"
      && VerdictOf(net, r.spec, k) == Some(Dnat(ip, port));
    RedirectTarget(net, r, k);
    var uid, i := RuleHasOwner(g, isIp, a, r, ip);
    var m := a.live[uid].mappings[i];
    RuleOfChain(isIp, m, ip, r);
    DnatVerdict(isIp, net, m, ip, k);
    assert WantedBy(isIp, net, a.live[uid].mappings, k, port);
  }

  /** At any time, in any run of spawns and closes: a packet is redirected to an address of the pool, at
      a port, if and only if it arrives for a mapping to that port of the live worker at that address. */
  lemma TrafficReachesOwner(g: Setting, isIp: string -> bool, start: int, size: nat,
      trace: seq<World>, events: seq<Event>, n: nat, net: Net, k: Packet, ip: string, port: nat)
    requires RunFrom(g, start, size, trace, events) && n < |trace| && IpTablesRules(g, isIp) && ip in g.pool
    ensures Dnat(ip, port) in Verdicts(trace[n].s.rules, "nat", "PREROUTING", net, k)
       <==> OwnerWants(isIp, net, trace[n].live, ip, k, port)
  {
    var a := trace[n];
    RunKeeps(g, start, size, trace, events, n);
    if Dnat(ip, port) in Verdicts(a.s.rules, "nat", "PREROUTING", net, k) {
      RedirectedIsWanted(g, isIp, a, net, k, ip, port);
    }
    if OwnerWants(isIp, net, a.live, ip, k, port) {
      var uid :| uid in a.live && a.live[uid].ip == ip && WantedBy(isIp, net, a.live[uid].mappings, k, port);
      var i :| 0 <= i < |a.live[uid].mappings| && Arrives(isIp, net, a.live[uid].mappings[i], k)
        && a.live[uid].mappings[i].guestPort == port;
      WantedIsRedirected(g, isIp, a, net, k, uid, i);
    }
  }

  /** And such a packet, if it is from outside the guests' subnet, is admitted once it is redirected. */
  lemma TrafficIsAdmitted(g: Setting, isIp: string -> bool, start: int, size: nat,
      trace: seq<World>, events: seq<Event>, n: nat, net: Net, k: Packet, uid: int, i: nat)
    requires RunFrom(g, start, size, trace, events) && n < |trace| && IpTablesRules(g, isIp)
    requires uid in trace[n].live && i < |trace[n].live[uid].mappings|
    requires Arrives(isIp, net, trace[n].live[uid].mappings[i], k)
    requires trace[n].live[uid].mappings[i].guestPort >= 0 && !net.within(k.src, "10.200.0.0/16")
    ensures var w := trace[n].live[uid];
      Accept in Verdicts(trace[n].s.rules, "filter", "FORWARD", net, k.(dst := w.ip, dport := w.mappings[i].guestPort))
  {
    var a, w := trace[n], trace[n].live[uid];
    var k' := k.(dst := w.ip, dport := w.mappings[i].guestPort);
    var r := ForwardRule(w.mappings[i], w.ip);
    RunKeeps(g, start, size, trace, events, n);
    NeededIsThere(g, isIp, a, uid, i, r);
    ForwardVerdict(net, w.mappings[i], w.ip, k');
    InVerdicts(a.s.rules, r, net, k');
  }

  /** The host's own packets are redirected to an address of the pool only for a local mapping of the
      live worker there. */
  lemma OwnTrafficIsWanted(g: Setting, isIp: string -> bool, start: int, size: nat,
      trace: seq<World>, events: seq<Event>, n: nat, net: Net, k: Packet, ip: string, port: nat)
    returns (uid: int, i: nat)
    requires RunFrom(g, start, size, trace, events) && n < |trace| && IpTablesRules(g, isIp) && ip in g.pool
    requires Dnat(ip, port) in Verdicts(trace[n].s.rules, "nat", "OUTPUT", net, k)
    ensures uid in trace[n].live && trace[n].live[uid].ip == ip && i < |trace[n].live[uid].mappings|
    ensures var m := trace[n].live[uid].mappings[i];
      && m.hostInterface in {"", "0.0.0.0", "127.0.0.1"} && ToHostPort(m, k) && net.local(k.dst)
      && m.guestPort == port
  {
    var a := trace[n];
    RunKeeps(g, start, size, trace, events, n);
    var r :| r in a.s.rules && r.table == "nat" && r.chain == "OUTPUT"
      && VerdictOf(net, r.spec, k) == Some(Dnat(ip, port));
    RedirectTarget(net, r, k);
    uid, i := RuleHasOwner(g, isIp, a, r, ip);
    var m := a.live[uid].mappings[i];
    RuleOfChain(isIp, m, ip, r);
    OutputVerdict(net, m, ip, k);
  }

  /** As long as no claim on a port is lost, no packet is redirected to guests of two IDs. */
  lemma TrafficOfOneId(g: Setting, isIp: string -> bool, start: int, size: nat,
      trace: seq<World>, events: seq<Event>, n: nat, net: Net, k: Packet, u: int, v: int, p: nat, q: nat)
    requires RunFrom(g, start, size, trace, events) && n < |trace| && IpTablesRules(g, isIp) && ClaimsKept(trace[n])
    requires u in trace[n].live && v in trace[n].live
    requires Dnat(trace[n].live[u].ip, p) in Verdicts(trace[n].s.rules, "nat", "PREROUTING", net, k)
    requires Dnat(trace[n].live[v].ip, q) in Verdicts(trace[n].s.rules, "nat", "PREROUTING", net, k)
    ensures trace[n].live[u].id == trace[n].live[v].id
  {
    RunKeeps(g, start, size, trace, events, n);
    OwnerMaps(g, isIp, trace[n], net, k, u, p);
    OwnerMaps(g, isIp, trace[n], net, k, v, q);
  }

  lemma OwnerMaps(g: Setting, isIp: string -> bool, a: World, net: Net, k: Packet, u: int, p: nat)
    requires g.Valid() && IpTablesRules(g, isIp) && Inv(g, a) && u in a.live
    requires Dnat(a.live[u].ip, p) in Verdicts(a.s.rules, "nat", "PREROUTING", net, k)
    ensures Maps(a.live, u, k.dport)
  {
    assert a.live[u].ip in Ips(a.live);
    RedirectedIsWanted(g, isIp, a, net, k, a.live[u].ip, p);
    var uid :| uid in a.live && a.live[uid].ip == a.live[u].ip && WantedBy(isIp, net, a.live[uid].mappings, k, p);
    assert uid == u;
  }
}
