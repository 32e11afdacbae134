/** Spawn and Close over the allocators themselves (firecracker_factory.go). */
module Factory {
  import opened IpTables
  import opened PortTable
  import opened Spawn
  import opened Text
  import opened Wrappers
  import Ipam
  import IpamRuns
  import UidPool

  /** The calls into containerd, the kernel and the guest that Spawn makes, in order. */
  datatype Call =
    | WarmImage | ExtractConfig | HaveCommand | Snapshot | InjectAgent
    | MakeJailDir | MakeChroot | ChownChroot | MakeRunDir | ChownRunDir | MakeDevDir | ChownDevDir
    | LinkKernel | BindDevice | CreateTap | WriteConfig | StartJailer | DialGuest
  {
    predicate Boots() {
      CreateTap? || WriteConfig? || StartJailer? || DialGuest?
    }

    /** The place of the call in the order. */
    function Place(): nat {
      match this
      case WarmImage => 0 case ExtractConfig => 1 case HaveCommand => 2 case Snapshot => 3 case InjectAgent => 4
      case MakeJailDir => 5 case MakeChroot => 6 case ChownChroot => 7 case MakeRunDir => 8 case ChownRunDir => 9
      case MakeDevDir => 10 case ChownDevDir => 11 case LinkKernel => 12 case BindDevice => 13
      case CreateTap => 14 case WriteConfig => 15 case StartJailer => 16 case DialGuest => 17
    }
  }

  /** Everything outside the daemon that decides how a spawn goes: which calls succeed, whether the
      chroot was there already, and for the i-th mapping what the host has bound and what
      iptables answers. */
  datatype Env = Env(ok: Call -> bool, chrootExists: bool, probe: nat -> Probe, tables: nat -> Outcome) {
    predicate HasSnapshot() {
      ok(WarmImage) && ok(ExtractConfig) && ok(HaveCommand) && ok(Snapshot)
    }

    predicate HasChroot() {
      HasSnapshot() && ok(InjectAgent) && ok(MakeJailDir) && ok(MakeChroot)
    }

    predicate Prepares() {
      && HasChroot() && ok(ChownChroot) && ok(MakeRunDir) && ok(ChownRunDir) && ok(MakeDevDir) && ok(ChownDevDir)
      && ok(LinkKernel) && ok(BindDevice)
    }

    predicate Boots() {
      ok(CreateTap) && ok(WriteConfig) && ok(StartJailer) && ok(DialGuest)
    }

    predicate Succeeds() {
      Prepares() && Boots()
    }

    /** The call succeeds, and so do all before it. */
    ghost predicate Passes(c: Call) {
      forall d: Call :: d.Place() <= c.Place() ==> ok(d)
    }

    /** What a failed spawn that had a UID tears down, latest first; past the chroot it needs an address. */
    function Undoes(leased: bool): seq<Undo> {
      UndoesBoot(leased) + UndoesChroot()
    }

    function UndoesBoot(leased: bool): seq<Undo> {
      if leased && Prepares() then UndoesGuest() + UndoesTap() else []
    }

    function UndoesGuest(): seq<Undo> {
      if Boots() then [CancelContext, CloseConnection] else []
    }

    function UndoesTap(): seq<Undo> {
      if ok(CreateTap) then [DeleteTap] else []
    }

    function UndoesChroot(): seq<Undo> {
      (if HasChroot() && !chrootExists then [RemoveChroot] else []) + if HasSnapshot() then [TeardownSnapshot] else []
    }

    predicate Installs(i: nat) {
      tables(i).dnat && tables(i).forward
    }
  }

  /** A spawn needs every call to succeed. */
  lemma SucceedsMeansAll(env: Env)
    ensures env.Succeeds() <==> forall c: Call :: env.ok(c)
  {
    PassesToGuest(env);
    assert forall c: Call :: c.Place() <= DialGuest.Place();
  }

  lemma PassesToChroot(env: Env)
    ensures env.Passes(Snapshot) <==> env.HasSnapshot()
    ensures env.Passes(MakeChroot) <==> env.HasChroot()
  {
  }

  lemma PassesToGuest(env: Env)
    ensures env.Passes(CreateTap) <==> env.Prepares() && env.ok(CreateTap)
    ensures env.Passes(DialGuest) <==> env.Prepares() && env.Boots()
  {
  }

  /** A failed spawn tears down what it has set up and nothing else: each thing if and only if the call that
      sets it up was reached and succeeded. A chroot that was there already is not removed. */
  lemma UndoesWhatPassed(env: Env, leased: bool)
    ensures TeardownSnapshot in env.Undoes(leased) <==> env.Passes(Snapshot)
    ensures RemoveChroot in env.Undoes(leased) <==> env.Passes(MakeChroot) && !env.chrootExists
    ensures DeleteTap in env.Undoes(leased) <==> leased && env.Passes(CreateTap)
    ensures CloseConnection in env.Undoes(leased) <==> leased && env.Passes(DialGuest)
    ensures CancelContext in env.Undoes(leased) <==> leased && env.Passes(DialGuest)
  {
    PassesToChroot(env);
    PassesToGuest(env);
    assert forall a :: a in env.Undoes(leased) <==> a in env.UndoesBoot(leased) || a in env.UndoesChroot();
    assert forall a :: a in env.UndoesChroot() ==> a in {RemoveChroot, TeardownSnapshot};
    assert forall a :: a in env.UndoesBoot(leased) ==> a in {CancelContext, CloseConnection, DeleteTap};
  }

  lemma InOrder(a: Undo, b: Undo, below: seq<Undo>)
    ensures [a] + ([b] + below) == [a, b] + below
  {
  }

  lemma BootTeardowns(env: Env, below: seq<Undo>)
    requires env.Prepares()
    ensures env.UndoesBoot(true) + below == env.UndoesGuest() + (env.UndoesTap() + below)
  {
  }

  lemma AllUndone(env: Env, leased: bool, below: seq<Undo>)
    ensures env.UndoesBoot(leased) + (env.UndoesChroot() + below) == env.Undoes(leased) + below
    ensures !env.Prepares() ==> env.UndoesChroot() + below == env.Undoes(leased) + below
  {
  }

  function Requests(vm: string, ms: seq<PortMapping>): seq<Request> {
    seq(|ms|, i requires 0 <= i < |ms| => Request(ms[i].hostPort, ms[i].protocol, ms[i].hostInterface, vm))
  }

  /** Every host port is granted in turn, and iptables takes the rules of every mapping. */
  ghost predicate Mappable(env: Env, vm: string, ms: seq<PortMapping>, t: Table, lo: int, hi: int) {
    Claimed(t, Requests(vm, ms), env.probe, lo, hi, |ms|).Some? && forall i: nat :: i < |ms| ==> env.Installs(i)
  }

  /** When all ports are granted, each is the one asked for, if one was, and one that the VM had or
      that has been probed with a socket of the mapping's protocol on the mapping's interface. */
  lemma MappingProbes(env: Env, vm: string, ms: seq<PortMapping>, t: Table, lo: int, hi: int, i: nat)
    returns (t': Table, p: int)
    requires Mappable(env, vm, ms, t, lo, hi) && i < |ms|
    ensures Claimed(t, Requests(vm, ms), env.probe, lo, hi, i) == Some(t')
    ensures NthGrant(t, Requests(vm, ms), env.probe, lo, hi, i) == Some(p)
    ensures if ms[i].hostPort == 0 then lo <= p <= hi && p !in t' else p == ms[i].hostPort
    ensures p in t' ==> t'[p] == vm
    ensures p !in t' ==>
      env.probe(i)(ms[i].protocol == "udp",
                   if ms[i].hostPort == 0 || ms[i].hostInterface == "" then "0.0.0.0" else ms[i].hostInterface, p)
  {
    var qs := Requests(vm, ms);
    if Claimed(t, qs, env.probe, lo, hi, i + 1).None? {
      ClaimStops(t, qs, env.probe, lo, hi, i + 1, |ms|);
    }
    assert qs[i] == Request(ms[i].hostPort, ms[i].protocol, ms[i].hostInterface, vm);
    t' := Claimed(t, qs, env.probe, lo, hi, i).value;
    p := Granted(t', qs[i], env.probe(i), lo, hi).value;
    GrantProbes(t', qs[i], env.probe(i), lo, hi, p);
  }

  // ---------------------------------------------------------------------------
  // Facts the loops use
  // ---------------------------------------------------------------------------

  /** A guest whose address was free has no rule yet. */
  lemma NoRuleYet(host: Host, s: Resources, pool: set<string>, m: PortMapping, ip: string)
    requires host.Valid() && Ready(s, pool) && ip in pool && ip !in s.used && Free(ip, ':')
    ensures OutputRule(m, ip) !in s.rules
    ensures forall r :: r in host.all(m, ip) ==> r !in s.rules
  {
    RulesTarget(host.isIp, m, ip);
  }

  lemma RulesOfPush(rs: RuleFn, ms: seq<PortMapping>, m: PortMapping, ip: string)
    ensures RulesOf(rs, ms + [m], ip) == RulesOf(rs, ms, ip) + rs(m, ip)
  {
    assert (ms + [m])[..|ms|] == ms;
  }

  lemma HostPortsPush(ms: seq<PortMapping>, m: PortMapping)
    ensures HostPorts(ms + [m]) == HostPorts(ms) + {m.hostPort}
  {
    var all := ms + [m];
    forall p | p in HostPorts(ms) ensures p in HostPorts(all) {
      var i :| 0 <= i < |ms| && ms[i].hostPort == p;
      assert all[i].hostPort == p;
    }
    assert all[|ms|].hostPort == m.hostPort;
  }

  lemma {:induction false} KillsAreOnStack(rs: RuleFn, stack: seq<Undo>, uid: int)
    requires uid in BackOfAll(rs, stack).processes
    ensures exists j :: 0 <= j < |stack| && stack[j] == KillProcess(uid)
    decreases |stack|
  {
    var n := |stack| - 1;
    if uid in BackOfAll(rs, stack[..n]).processes {
      KillsAreOnStack(rs, stack[..n], uid);
      var j :| 0 <= j < n && stack[..n][j] == KillProcess(uid);
      assert stack[j] == KillProcess(uid);
    } else {
      assert stack[n] == KillProcess(uid);
    }
  }

  /** What the mapping loop has done so far: a claim on each host port and the rules for it. */
  ghost predicate Mapped(rs: RuleFn, needed: RuleFn, s: Resources, s': Resources,
      vm: string, ip: string, ms: seq<PortMapping>)
  {
    && OwnOrNew(s.ports, HostPorts(ms), vm)
    && s'.ports == s.ports + Claims(HostPorts(ms), vm)
    && s.rules + RulesOf(needed, ms, ip) <= s'.rules <= s.rules + RulesOf(rs, ms, ip)
  }

  /** A port granted to the VM was new at the start, or the VM's. */
  lemma GrantIsOwnOrNew(rs: RuleFn, needed: RuleFn, s: Resources, s': Resources,
      vm: string, ip: string, ms: seq<PortMapping>, p: int)
    requires Mapped(rs, needed, s, s', vm, ip, ms)
    requires p !in s'.ports || s'.ports[p] == vm
    ensures p !in s.ports || s.ports[p] == vm
  {
  }

  lemma ClaimsGrow(t: Table, ports: set<int>, vm: string, p: int)
    ensures (t + Claims(ports, vm))[p := vm] == t + Claims(ports + {p}, vm)
  {
  }

  lemma MappedPush(rs: RuleFn, needed: RuleFn, s: Resources, s': Resources, s'': Resources, vm: string, ip: string,
      ms: seq<PortMapping>, m: PortMapping)
    requires Mapped(rs, needed, s, s', vm, ip, ms) && (m.hostPort in s.ports ==> s.ports[m.hostPort] == vm)
    requires s''.ports == s'.ports[m.hostPort := vm]
    requires s'.rules + needed(m, ip) <= s''.rules <= s'.rules + rs(m, ip)
    ensures Mapped(rs, needed, s, s'', vm, ip, ms + [m])
  {
    HostPortsPush(ms, m);
    ClaimsGrow(s.ports, HostPorts(ms), vm, m.hostPort);
    RulesOfPush(needed, ms, m, ip);
    RulesOfPush(rs, ms, m, ip);
    SumBounds(s.rules, RulesOf(needed, ms, ip), s'.rules, RulesOf(rs, ms, ip), needed(m, ip), s''.rules, rs(m, ip));
  }

  lemma SumBounds(base: Tables, lo: Tables, x: Tables, hi: Tables, lo': Tables, y: Tables, hi': Tables)
    requires base + lo <= x <= base + hi && x + lo' <= y <= x + hi'
    ensures base + (lo + lo') <= y <= base + (hi + hi')
  {
  }

  lemma MappedNothing(rs: RuleFn, needed: RuleFn, s: Resources, s': Resources, vm: string, ip: string)
    requires s'.ports == s.ports && s'.rules == s.rules
    ensures Mapped(rs, needed, s, s', vm, ip, [])
  {
    assert RulesOf(needed, [], ip) == RulesOf(rs, [], ip) == multiset{};
    assert s.ports + Claims({}, vm) == s.ports && HostPorts([]) == {};
  }

  /** The mapping that was asked for, with its host port filled in. */
  ghost predicate Resolved(asked: seq<PortMapping>, got: seq<PortMapping>) {
    && |got| == |asked|
    && forall i :: 0 <= i < |got| ==>
      got[i] == asked[i].(hostPort := got[i].hostPort) && (asked[i].hostPort != 0 ==> got[i] == asked[i])
  }

  lemma ResolvedPush(asked: seq<PortMapping>, got: seq<PortMapping>, i: nat, m: PortMapping)
    requires i < |asked| && Resolved(asked[..i], got)
    requires m == asked[i].(hostPort := m.hostPort) && (asked[i].hostPort != 0 ==> m == asked[i])
    ensures Resolved(asked[..i + 1], got + [m])
  {
  }

  /** How many turns the loop takes from turn i on, if every port is granted. */
  function Turns(env: Env, i: nat, n: nat): (k: nat)
    requires i <= n
    ensures i <= k <= n
    decreases n - i
  {
    if i == n then n else if !env.Installs(i) then i + 1 else Turns(env, i + 1, n)
  }

  /** The ports that the loop is granted, whether or not it succeeds. */
  function PortsTaken(env: Env, vm: string, ms: seq<PortMapping>, t: Table, lo: int, hi: int): set<int> {
    GrantedPorts(t, Requests(vm, ms), env.probe, lo, hi, Turns(env, 0, |ms|))
  }

  /** The mapping loop has come to turn i: all ports so far granted, all rules taken. */
  ghost predicate Turned(env: Env, vm: string, ms: seq<PortMapping>, t: Table, t': Table,
      lo: int, hi: int, i: nat, got: set<int>)
  {
    && i <= |ms| && Claimed(t, Requests(vm, ms), env.probe, lo, hi, i) == Some(t')
    && got == GrantedPorts(t, Requests(vm, ms), env.probe, lo, hi, i)
    && Turns(env, 0, |ms|) == Turns(env, i, |ms|) && forall j: nat :: j < i ==> env.Installs(j)
  }

  /** The turn goes on if the next port is granted and its rules taken, and otherwise the loop fails
      with what it was granted up to then. */
  lemma Turn(env: Env, vm: string, ms: seq<PortMapping>, t: Table, t': Table, lo: int, hi: int, i: nat, got: set<int>)
    requires Turned(env, vm, ms, t, t', lo, hi, i, got) && i < |ms|
    ensures var q := Request(ms[i].hostPort, ms[i].protocol, ms[i].hostInterface, vm);
      var g := Granted(t', q, env.probe(i), lo, hi);
      if g.Some? && env.Installs(i)
      then Turned(env, vm, ms, t, Allocated(t', q, env.probe(i), lo, hi), lo, hi, i + 1, got + {g.value})
      else !Mappable(env, vm, ms, t, lo, hi) && PortsTaken(env, vm, ms, t, lo, hi) == got + Ports(g)
  {
    var qs := Requests(vm, ms);
    assert NthGrant(t, qs, env.probe, lo, hi, i) == Granted(t', qs[i], env.probe(i), lo, hi);
    if Claimed(t, qs, env.probe, lo, hi, i + 1).None? {
      TurnRefused(env, vm, ms, t, t', lo, hi, i, got);
    }
  }

  lemma TurnRefused(env: Env, vm: string, ms: seq<PortMapping>, t: Table, t': Table, lo: int, hi: int, i: nat,
      got: set<int>)
    requires Turned(env, vm, ms, t, t', lo, hi, i, got) && i < |ms|
    requires Claimed(t, Requests(vm, ms), env.probe, lo, hi, i + 1).None?
    ensures !Mappable(env, vm, ms, t, lo, hi) && PortsTaken(env, vm, ms, t, lo, hi) == got
  {
    var qs := Requests(vm, ms);
    ClaimStops(t, qs, env.probe, lo, hi, i + 1, |ms|);
    GrantsStop(t, qs, env.probe, lo, hi, i + 1, Turns(env, 0, |ms|));
  }

  // ---------------------------------------------------------------------------
  // The factory
  // ---------------------------------------------------------------------------

  class FirecrackerFactory {
    const uidPool: UidPool.Pool
    const ipam: Ipam.IPAM
    const portManager: PortManager
    const host: Host
    /** The teardowns so far, outside the daemon. */
    ghost var teardowns: seq<Undo>

    ghost predicate Valid()
      reads uidPool, ipam, ipam.subnet, ipam.mask, ipam.nextIP
    {
      uidPool.Valid() && ipam.Valid() && host.Valid()
    }

    ghost function State(): Resources
      reads uidPool, ipam, portManager, host
    {
      Resources(uidPool.Contents(), ipam.usedIPs, portManager.inUse, host.rules, host.processes)
    }

    ghost function Addresses(): set<string> {
      Ipam.AddressTexts(ipam.network, ipam.hostBits)
    }

    ghost function Rules(): RuleFn {
      host.all
    }

    ghost function Needs(): RuleFn {
      host.needed
    }

    /** The ports that a spawn with an address is granted. */
    ghost function Reached(env: Env, vm: string, mappings: seq<PortMapping>, s: Resources): set<int> {
      if !(Addresses() <= s.used) && env.Boots() then Taken(env, vm, mappings, s) else {}
    }

    ghost predicate CanMap(env: Env, vm: string, mappings: seq<PortMapping>, s: Resources) {
      Mappable(env, vm, mappings, s.ports, portManager.ephemeralStart, portManager.ephemeralEnd)
    }

    ghost function Taken(env: Env, vm: string, mappings: seq<PortMapping>, s: Resources): set<int> {
      PortsTaken(env, vm, mappings, s.ports, portManager.ephemeralStart, portManager.ephemeralEnd)
    }

    /** The ports that a spawn from these resources is granted: none, unless it comes to the mapping loop. */
    ghost function GrantsFrom(env: Env, vm: string, mappings: seq<PortMapping>, s: Resources): set<int> {
      if s.uids.queue != [] && env.Prepares() then Reached(env, vm, mappings, s) else {}
    }

    /** What a failed spawn tears down, latest first. */
    ghost function UndoneBy(env: Env): seq<Undo>
      reads uidPool, ipam, portManager, host
    {
      if State().uids.queue == [] then [] else env.Undoes(!(Addresses() <= State().used))
    }

    /** A UID, an address and every port can be had, and every call succeeds. */
    ghost predicate CanSpawnFrom(env: Env, vm: string, mappings: seq<PortMapping>, s: Resources) {
      s.uids.queue != [] && !(Addresses() <= s.used) && env.Succeeds() && CanMap(env, vm, mappings, s)
    }

    ghost function Grants(env: Env, vm: string, mappings: seq<PortMapping>): set<int>
      reads uidPool, ipam, portManager, host
    {
      GrantsFrom(env, vm, mappings, State())
    }

    ghost predicate CanSpawn(env: Env, vm: string, mappings: seq<PortMapping>)
      reads uidPool, ipam, portManager, host
    {
      CanSpawnFrom(env, vm, mappings, State())
    }

    constructor (uidPool: UidPool.Pool, ipam: Ipam.IPAM, portManager: PortManager, host: Host)
      requires uidPool.Valid() && ipam.Valid() && host.Valid()
      ensures Valid()
      ensures this.uidPool == uidPool && this.ipam == ipam && this.portManager == portManager && this.host == host
      ensures teardowns == []
    {
      this.uidPool := uidPool;
      this.ipam := ipam;
      this.portManager := portManager;
      this.host := host;
      teardowns := [];
    }

    /** Image, snapshot and chroot: nothing of the allocators changes, two undo actions may be pushed. */
    method Prepare(env: Env, start: seq<Undo>, ghost uid: int, ghost s: Resources) returns (ok: bool, stack: seq<Undo>)
      requires Covers(Rules(), start, uid, s, State())
      ensures Covers(Rules(), stack, uid, s, State()) && Teardowns(stack) == env.UndoesChroot() + Teardowns(start)
      ensures ok <==> env.Prepares()
    {
      stack := start;
      if !(env.ok(WarmImage) && env.ok(ExtractConfig) && env.ok(HaveCommand) && env.ok(Snapshot)) {
        return false, stack;
      }
      PushOutside(Rules(), stack, uid, s, State(), TeardownSnapshot);
      stack := stack + [TeardownSnapshot];
      if !(env.ok(InjectAgent) && env.ok(MakeJailDir) && env.ok(MakeChroot)) {
        return false, stack;
      }
      if !env.chrootExists {
        PushOutside(Rules(), stack, uid, s, State(), RemoveChroot);
        stack := stack + [RemoveChroot];
      }
      ok := env.ok(ChownChroot) && env.ok(MakeRunDir) && env.ok(ChownRunDir) && env.ok(MakeDevDir)
        && env.ok(ChownDevDir) && env.ok(LinkKernel) && env.ok(BindDevice);
    }

    /** TAP, configuration, process and guest connection. */
    method Boot(env: Env, leasedUID: int, start: seq<Undo>, ghost s: Resources) returns (ok: bool, stack: seq<Undo>)
      requires Covers(Rules(), start, leasedUID, s, State()) && leasedUID !in s.processes
      modifies host`processes
      ensures Covers(Rules(), stack, leasedUID, s, State())
      ensures Teardowns(stack) == env.UndoesGuest() + (env.UndoesTap() + Teardowns(start))
      ensures host.processes == old(host.processes) || host.processes == old(host.processes) + {leasedUID}
      ensures ok ==> host.processes == old(host.processes) + {leasedUID}
      ensures ok <==> env.Boots()
    {
      stack := start;
      if !env.ok(CreateTap) {
        return false, stack;
      }
      PushOutside(Rules(), stack, leasedUID, s, State(), DeleteTap);
      stack := stack + [DeleteTap];
      if !(env.ok(WriteConfig) && env.ok(StartJailer)) {
        return false, stack;
      }
      ghost var m := State();
      host.processes := host.processes + {leasedUID};
      PushFresh(Rules(), stack, leasedUID, s, m, KillProcess(leasedUID), State());
      stack := stack + [KillProcess(leasedUID)];
      ok, stack := Connect(env, leasedUID, stack, s);
    }

    /** The guest connection and the worker's context. */
    method Connect(env: Env, ghost uid: int, start: seq<Undo>, ghost s: Resources) returns (ok: bool, stack: seq<Undo>)
      requires Covers(Rules(), start, uid, s, State())
      ensures Covers(Rules(), stack, uid, s, State())
      ensures Teardowns(stack) == (if ok then [CancelContext, CloseConnection] else []) + Teardowns(start)
      ensures ok <==> env.ok(DialGuest)
    {
      stack := start;
      if !env.ok(DialGuest) {
        return false, stack;
      }
      PushOutside(Rules(), stack, uid, s, State(), CloseConnection);
      stack := stack + [CloseConnection];
      PushOutside(Rules(), stack, uid, s, State(), CancelContext);
      stack := stack + [CancelContext];
      InOrder(CancelContext, CloseConnection, Teardowns(start));
      ok := true;
    }

    /** The port that a request for a mapping is granted at a turn. */
    ghost function Grant(env: Env, i: nat, vm: string, pm: PortMapping, t: Table): Option<int> {
      Granted(t, Request(pm.hostPort, pm.protocol, pm.hostInterface, vm), env.probe(i),
              portManager.ephemeralStart, portManager.ephemeralEnd)
    }

    /** One turn of the mapping loop: claim a host port, then install the rules. */
    method MapPort(env: Env, i: nat, vm: string, guestIP: string, pm: PortMapping, start: seq<Undo>,
        ghost uid: int, ghost s: Resources, ghost done: seq<PortMapping>)
      returns (r: Result<PortMapping>, stack: seq<Undo>)
      requires host.Valid() && Ready(s, Addresses())
      requires guestIP in Addresses() && guestIP !in s.used && Free(guestIP, ':')
      requires Covers(Rules(), start, uid, Less(s, HostPorts(done)), State())
      requires Mapped(Rules(), Needs(), s, State(), vm, guestIP, done)
      modifies portManager, host`rules
      ensures var granted := Ports(Grant(env, i, vm, pm, old(portManager.inUse)));
        Covers(Rules(), stack, uid, Less(s, HostPorts(done) + granted), State())
      ensures Teardowns(stack) == Teardowns(start)
      ensures r.Ok? ==> Mapped(Rules(), Needs(), s, State(), vm, guestIP, done + [r.value])
      ensures r.Ok? ==> r.value == pm.(hostPort := r.value.hostPort) && (pm.hostPort != 0 ==> r.value == pm)
      ensures r.Ok? <==> Grant(env, i, vm, pm, old(portManager.inUse)).Some? && env.Installs(i)
      ensures r.Ok? ==> Grant(env, i, vm, pm, old(portManager.inUse)) == Some(r.value.hostPort)
      ensures r.Ok? ==> portManager.inUse == old(portManager.inUse)[r.value.hostPort := vm]
    {
      stack := start;
      ghost var s1 := State();
      var q := Request(pm.hostPort, pm.protocol, pm.hostInterface, vm);
      GrantedExactly(portManager.inUse, q, env.probe(i), portManager.ephemeralStart, portManager.ephemeralEnd);
      var hostPort := portManager.Allocate(q, env.probe(i));
      if hostPort.Err? {
        assert State() == s1 && HostPorts(done) + {} == HostPorts(done);
        return Err(hostPort.error), stack;
      }
      GrantIsOwnOrNew(Rules(), Needs(), s, s1, vm, guestIP, done, hostPort.value);
      PushPort(Rules(), stack, uid, s, HostPorts(done), s1, hostPort.value, vm);
      ghost var base := Less(s, HostPorts(done) + {hostPort.value});
      ghost var s2 := s1.(ports := s1.ports[hostPort.value := vm]);
      assert State() == s2;
      stack := stack + [ReleasePort(hostPort.value)];
      var mapping := pm.(hostPort := hostPort.value);
      var added;
      added, stack := InstallRules(env, i, guestIP, mapping, stack, uid, base);
      if !added {
        return Err("iptables setup failed"), stack;
      }
      MappedPush(Rules(), Needs(), s, s1, State(), vm, guestIP, done, mapping);
      return Ok(mapping), stack;
    }

    /** The second half of a turn: AddPortMapping and its undo action. */
    method InstallRules(env: Env, i: nat, guestIP: string, mapping: PortMapping, start: seq<Undo>,
        ghost uid: int, ghost s: Resources)
      returns (added: bool, stack: seq<Undo>)
      requires host.Valid() && Ready(s, Addresses())
      requires guestIP in Addresses() && guestIP !in s.used && Free(guestIP, ':')
      requires Covers(Rules(), start, uid, s, State())
      modifies host`rules
      ensures Covers(Rules(), stack, uid, s, State()) && Teardowns(stack) == Teardowns(start)
      ensures added <==> env.Installs(i)
      ensures added ==> old(host.rules) + Needs()(mapping, guestIP) <= host.rules
      ensures added ==> host.rules <= old(host.rules) + Rules()(mapping, guestIP)
    {
      stack := start;
      ghost var m := State();
      NoRuleYet(host, s, Addresses(), mapping, guestIP);
      added := host.TryMapping(mapping, guestIP, env.tables(i));
      assert State() == m.(rules := host.rules);
      if !added {
        FailureCovers(Rules(), stack, uid, s, m, mapping, guestIP, host.rules);
        return false, stack;
      }
      PushMapping(Rules(), stack, uid, s, m, mapping, guestIP, host.rules);
      stack := stack + [RemoveMapping(mapping, guestIP)];
    }

    ghost predicate TurnedTo(env: Env, vm: string, ms: seq<PortMapping>, s: Resources, i: nat, got: set<int>)
      reads portManager
    {
      Turned(env, vm, ms, s.ports, portManager.inUse, portManager.ephemeralStart, portManager.ephemeralEnd, i, got)
    }

    /** What holds when the mapping loop comes to turn i. */
    ghost predicate InLoop(env: Env, vm: string, guestIP: string, ms: seq<PortMapping>, stack: seq<Undo>,
        uid: int, s: Resources, i: nat, active: seq<PortMapping>)
      requires i <= |ms|
      reads uidPool, ipam, portManager, host
    {
      && Resolved(ms[..i], active)
      && Covers(Rules(), stack, uid, Less(s, HostPorts(active)), State())
      && Mapped(Rules(), Needs(), s, State(), vm, guestIP, active)
      && TurnedTo(env, vm, ms, s, i, HostPorts(active))
    }

    lemma LoopStarts(env: Env, vm: string, guestIP: string, ms: seq<PortMapping>, stack: seq<Undo>,
        uid: int, s: Resources)
      requires Covers(Rules(), stack, uid, s, State()) && (State().ports, State().rules) == (s.ports, s.rules)
      ensures InLoop(env, vm, guestIP, ms, stack, uid, s, 0, [])
    {
      MappedNothing(Rules(), Needs(), s, State(), vm, guestIP);
      LessNothing(s);
      assert HostPorts([]) == {};
    }

    lemma LoopEnds(env: Env, vm: string, guestIP: string, ms: seq<PortMapping>, stack: seq<Undo>,
        uid: int, s: Resources, active: seq<PortMapping>)
      requires InLoop(env, vm, guestIP, ms, stack, uid, s, |ms|, active)
      ensures Mapped(Rules(), Needs(), s, State(), vm, guestIP, active)
      ensures Resolved(ms, active) && CanMap(env, vm, ms, s)
    {
      assert ms[..|ms|] == ms;
    }

    /** The turn, in the loop. */
    method NextMapping(env: Env, i: nat, vm: string, guestIP: string, mappings: seq<PortMapping>, start: seq<Undo>,
        ghost uid: int, ghost s: Resources, ghost active: seq<PortMapping>)
      returns (r: Result<PortMapping>, stack: seq<Undo>)
      requires host.Valid() && Ready(s, Addresses()) && i < |mappings|
      requires guestIP in Addresses() && guestIP !in s.used && Free(guestIP, ':')
      requires InLoop(env, vm, guestIP, mappings, start, uid, s, i, active)
      modifies portManager, host`rules
      ensures Teardowns(stack) == Teardowns(start)
      ensures r.Err? ==> Covers(Rules(), stack, uid, Less(s, Taken(env, vm, mappings, s)), State())
      ensures r.Err? ==> !CanMap(env, vm, mappings, s)
      ensures r.Ok? ==> InLoop(env, vm, guestIP, mappings, stack, uid, s, i + 1, active + [r.value])
    {
      Turn(env, vm, mappings, s.ports, portManager.inUse, portManager.ephemeralStart, portManager.ephemeralEnd, i,
           HostPorts(active));
      r, stack := MapPort(env, i, vm, guestIP, mappings[i], start, uid, s, active);
      if r.Ok? {
        ResolvedPush(mappings, active, i, r.value);
        HostPortsPush(active, r.value);
      }
    }

    /** The mapping loop. */
    method MapPorts(env: Env, vm: string, guestIP: string, mappings: seq<PortMapping>, start: seq<Undo>,
        ghost uid: int, ghost s: Resources)
      returns (r: Result<seq<PortMapping>>, stack: seq<Undo>)
      requires host.Valid() && Ready(s, Addresses())
      requires guestIP in Addresses() && guestIP !in s.used && Free(guestIP, ':')
      requires Covers(Rules(), start, uid, s, State()) && (State().ports, State().rules) == (s.ports, s.rules)
      modifies portManager, host`rules
      ensures Teardowns(stack) == Teardowns(start)
      ensures r.Err? ==> Covers(Rules(), stack, uid, Less(s, Taken(env, vm, mappings, s)), State())
      ensures r.Ok? ==> Mapped(Rules(), Needs(), s, State(), vm, guestIP, r.value) && Resolved(mappings, r.value)
      ensures r.Ok? <==> CanMap(env, vm, mappings, s)
    {
      stack := start;
      var activeMappings := [];
      LoopStarts(env, vm, guestIP, mappings, stack, uid, s);
      var i := 0;
      while i < |mappings|
        invariant i <= |mappings| && InLoop(env, vm, guestIP, mappings, stack, uid, s, i, activeMappings)
        invariant Teardowns(stack) == Teardowns(start)
      {
        var mapped;
        mapped, stack := NextMapping(env, i, vm, guestIP, mappings, stack, uid, s, activeMappings);
        if mapped.Err? {
          return Err(mapped.error), stack;
        }
        activeMappings := activeMappings + [mapped.value];
        i := i + 1;
      }
      LoopEnds(env, vm, guestIP, mappings, stack, uid, s, activeMappings);
      return Ok(activeMappings), stack;
    }

    /** IPAM.Acquire and its undo action. */
    method LeaseAddress(start: seq<Undo>, ghost uid: int, ghost s: Resources)
      returns (r: Result<string>, stack: seq<Undo>)
      requires Valid() && Covers(Rules(), start, uid, s, State()) && State() == s.(uids := State().uids)
      modifies ipam, ipam.nextIP
      ensures Valid() && Covers(Rules(), stack, uid, s, State()) && Teardowns(stack) == Teardowns(start)
      ensures r.Ok? ==> r.value in Addresses() && r.value !in s.used && Free(r.value, ':')
      ensures r.Err? <==> Addresses() <= s.used
      ensures r.Ok? ==> State() == s.(uids := State().uids, used := s.used + {r.value})
    {
      stack := start;
      ghost var s1 := State();
      Ipam.AllUsed(ipam.network, ipam.hostBits, ipam.usedIPs);
      IpamRuns.AcquireIsNextFit(ipam.View());
      r := ipam.Acquire();
      if r.Ok? {
        Ipam.TextsHaveNoColon(ipam.network, ipam.hostBits, r.value);
        PushFresh(Rules(), stack, uid, s, s1, ReleaseIp(r.value), State());
        stack := stack + [ReleaseIp(r.value)];
      }
    }

    /** What is known once the chroot is ready and the spawn has gone on from there: it has succeeded if an
        address and every port could be had and every call succeeded, and the stack covers what was taken. */
    ghost predicate BootsOrNot(vm: string, mappings: seq<PortMapping>, env: Env, uid: int, s: Resources,
        start: seq<Undo>, r: Result<Worker>, stack: seq<Undo>)
      reads uidPool, ipam, portManager, host
    {
      && Teardowns(stack) == env.UndoesBoot(!(Addresses() <= s.used)) + Teardowns(start)
      && (r.Err? ==> Covers(Rules(), stack, uid, Less(s, Reached(env, vm, mappings, s)), State()))
      && (r.Ok? ==> Spawned(Rules(), Needs(), s, State(), r.value))
      && (r.Ok? ==> r.value.id == vm && r.value.ip in Addresses() && Resolved(mappings, r.value.mappings))
      && (r.Ok? <==> env.Boots() && CanMap(env, vm, mappings, s) && !(Addresses() <= s.used))
    }

    /** Boot and mappings, with UID, chroot and address ready. */
    method SpawnGuest(vm: string, mappings: seq<PortMapping>, env: Env, leasedUID: int, guestIP: string,
        start: seq<Undo>, ghost s: Resources)
      returns (r: Result<Worker>, stack: seq<Undo>)
      requires host.Valid() && Ready(s, Addresses()) && leasedUID !in s.processes
      requires guestIP in Addresses() && guestIP !in s.used && Free(guestIP, ':')
      requires Covers(Rules(), start, leasedUID, s, State())
      requires State() == s.(uids := State().uids, used := s.used + {guestIP}) && env.Prepares()
      modifies portManager, host
      ensures BootsOrNot(vm, mappings, env, leasedUID, s, start, r, stack)
    {
      var ok;
      ok, stack := Boot(env, leasedUID, start, s);
      LessNothing(s);
      BootTeardowns(env, Teardowns(start));
      if !ok {
        return Err("boot failed"), stack;
      }
      var mapped;
      mapped, stack := MapPorts(env, vm, guestIP, mappings, stack, leasedUID, s);
      if mapped.Err? {
        return Err(mapped.error), stack;
      }
      return Ok(Worker(vm, leasedUID, guestIP, mapped.value)), stack;
    }

    /** Address, boot and mappings, with the UID leased and the chroot ready. */
    method SpawnNetwork(vm: string, mappings: seq<PortMapping>, env: Env, leasedUID: int, start: seq<Undo>,
        ghost s: Resources)
      returns (r: Result<Worker>, stack: seq<Undo>)
      requires Valid() && Ready(s, Addresses()) && leasedUID !in s.processes
      requires Covers(Rules(), start, leasedUID, s, State()) && State() == s.(uids := State().uids) && env.Prepares()
      modifies ipam, ipam.nextIP, portManager, host
      ensures Valid() && BootsOrNot(vm, mappings, env, leasedUID, s, start, r, stack)
    {
      var guestIP;
      guestIP, stack := LeaseAddress(start, leasedUID, s);
      if guestIP.Err? {
        LessNothing(s);
        assert Less(s, Reached(env, vm, mappings, s)) == s;
        r := Err(guestIP.error);
      } else {
        r, stack := SpawnGuest(vm, mappings, env, leasedUID, guestIP.value, stack, s);
      }
    }

    /** Spawn with the UID leased. */
    method SpawnLeased(vm: string, mappings: seq<PortMapping>, env: Env, leasedUID: int, start: seq<Undo>,
        ghost s: Resources)
      returns (r: Result<Worker>, stack: seq<Undo>)
      requires Valid() && Ready(s, Addresses()) && leasedUID !in s.processes && s.uids.queue != []
      requires Covers(Rules(), start, leasedUID, s, State()) && State() == s.(uids := State().uids)
      modifies ipam, ipam.nextIP, portManager, host
      ensures Valid() && Teardowns(stack) == env.Undoes(!(Addresses() <= s.used)) + Teardowns(start)
      ensures r.Err? ==> Covers(Rules(), stack, leasedUID, Less(s, GrantsFrom(env, vm, mappings, s)), State())
      ensures r.Ok? ==> Spawned(Rules(), Needs(), s, State(), r.value)
      ensures r.Ok? ==> r.value.id == vm && r.value.ip in Addresses() && Resolved(mappings, r.value.mappings)
      ensures r.Ok? <==> CanSpawnFrom(env, vm, mappings, s)
    {
      var ok: bool;
      ok, stack := Prepare(env, start, leasedUID, s);
      LessNothing(s);
      AllUndone(env, !(Addresses() <= s.used), Teardowns(start));
      if !ok {
        return Err("image or chroot setup failed"), stack;
      }
      r, stack := SpawnNetwork(vm, mappings, env, leasedUID, stack, s);
    }

    /** Spawn up to the point where the deferred rollback looks at its error. */
    method SpawnBody(vm: string, mappings: seq<PortMapping>, env: Env) returns (r: Result<Worker>, stack: seq<Undo>)
      requires Valid() && Ready(State(), Addresses())
      modifies uidPool, ipam, ipam.nextIP, portManager, host
      ensures Valid()
      ensures r.Err? && stack == [] ==> State() == old(State()) && old(Grants(env, vm, mappings)) == {}
      ensures Teardowns(stack) == old(UndoneBy(env))
      ensures r.Err? && stack != [] ==>
        stack[0].ReturnUid?
        && Covers(Rules(), stack, stack[0].uid, Less(old(State()), old(Grants(env, vm, mappings))), State())
      ensures r.Ok? ==> Spawned(Rules(), Needs(), old(State()), State(), r.value)
      ensures r.Ok? ==> r.value.id == vm && r.value.ip in Addresses() && Resolved(mappings, r.value.mappings)
      ensures r.Ok? <==> old(CanSpawn(env, vm, mappings))
    {
      ghost var s := State();
      stack := [];
      var leased := uidPool.Checkout();
      if leased.None? {
        return Err("uid pool exhausted"), stack;
      }
      var leasedUID := leased.value;
      stack := [ReturnUid(leasedUID)];
      StartCovers(Rules(), leasedUID, s, State());
      r, stack := SpawnLeased(vm, mappings, env, leasedUID, stack, s);
    }

    /** One undo action on the allocators. A UID goes back only when no process runs under it. */
    method UndoOne(a: Undo)
      requires Valid() && (a.ReturnUid? ==> a.uid !in host.processes)
      modifies uidPool, ipam`usedIPs, portManager, host, this`teardowns
      ensures Valid() && State() == Undone(Rules(), a, old(State()))
      ensures teardowns == old(teardowns) + if Outer(a) then [a] else []
    {
      match a
      case ReturnUid(uid) => var _ := uidPool.Return(uid);
      case ReleaseIp(ip) => ipam.Release(ip);
      case KillProcess(uid) => host.processes := host.processes - {uid};
      case ReleasePort(p) => portManager.Release(p);
      case RemoveMapping(m, ip) => host.DropMapping(m, ip);
      case _ => teardowns := teardowns + [a];
    }

    /** The deferred rollback. The UID is at the bottom of the stack, so by the time it goes back any
        process under it has been killed. */
    method Rollback(undoStack: seq<Undo>, ghost uid: int)
      requires Valid() && StackShape(undoStack, uid)
      requires uid in host.processes ==> KillProcess(uid) in undoStack
      modifies uidPool, ipam`usedIPs, portManager, host, this`teardowns
      ensures Valid() && State() == UndoneAll(Rules(), undoStack, old(State()))
      ensures teardowns == old(teardowns) + Teardowns(undoStack)
    {
      var i := |undoStack| - 1;
      ghost var undone := UndoneAll(Rules(), undoStack, State());
      assert undoStack[..i + 1] == undoStack;
      while i >= 0
        invariant -1 <= i < |undoStack| && Valid()
        invariant Unwinding(Rules(), undoStack, uid, i, State(), undone)
        invariant teardowns + Teardowns(undoStack[..i + 1]) == old(teardowns) + Teardowns(undoStack)
        decreases i
      {
        UnwindingStep(Rules(), undoStack, uid, i, State(), undone);
        TeardownsStep(teardowns, undoStack, i);
        UndoOne(undoStack[i]);
        i := i - 1;
      }
    }

    /** Spawn gives everything back on a failure anywhere, and on a success has taken exactly what the
        worker holds. Giving back a granted port takes it away even if the VM had it before, so a
        failure is clean exactly when none of the granted ports was claimed on entry. */
    method Spawn(vm: string, mappings: seq<PortMapping>, env: Env) returns (r: Result<Worker>)
      requires Valid() && Ready(State(), Addresses())
      modifies uidPool, ipam, ipam.nextIP, portManager, host, this`teardowns
      ensures Valid()
      ensures r.Ok? ==> teardowns == old(teardowns)
      ensures r.Err? ==> teardowns == old(teardowns) + old(UndoneBy(env))
      ensures r.Err? ==> Same(Less(old(State()), old(Grants(env, vm, mappings))), State())
      ensures r.Err? ==> (Same(old(State()), State()) <==> old(Grants(env, vm, mappings)) !! old(State()).ports.Keys)
      ensures r.Ok? ==> Spawned(Rules(), Needs(), old(State()), State(), r.value)
      ensures r.Ok? ==> r.value.id == vm && r.value.ip in Addresses() && Resolved(mappings, r.value.mappings)
      ensures r.Ok? <==> old(CanSpawn(env, vm, mappings))
    {
      ghost var s, granted := State(), Grants(env, vm, mappings);
      var undoStack;
      r, undoStack := SpawnBody(vm, mappings, env);
      LessIsSame(s, granted);
      LessNothing(s);
      if r.Err? && undoStack != [] {
        ghost var uid, s1 := undoStack[0].uid, State();
        if uid in s1.processes {
          assert uid in s.uids.queue;
          KillsAreOnStack(Rules(), undoStack, uid);
        }
        CoveredIsRestored(Rules(), undoStack, uid, Less(s, granted), s1);
        Rollback(undoStack, uid);
      }
    }

    /** Whatever a spawn is granted was new, or the VM's already. */
    lemma GrantsAreOwnOrNew(env: Env, vm: string, mappings: seq<PortMapping>)
      ensures OwnOrNew(portManager.inUse, Grants(env, vm, mappings), vm)
    {
      GrantsAreOwn(portManager.inUse, Requests(vm, mappings), env.probe,
                   portManager.ephemeralStart, portManager.ephemeralEnd, Turns(env, 0, |mappings|), vm);
    }

    /** The loop of Close over the port mappings. */
    method DropMappings(w: Worker)
      requires host.Valid()
      modifies portManager, host`rules
      ensures portManager.inUse == old(portManager.inUse) - HostPorts(w.mappings)
      ensures host.rules == old(host.rules) - RulesOf(host.all, w.mappings, w.ip)
    {
      ghost var t, rules := portManager.inUse, host.rules;
      assert t - HostPorts([]) == t && rules - RulesOf(host.all, [], w.ip) == rules;
      assert w.mappings[..0] == [];
      for i := 0 to |w.mappings|
        invariant portManager.inUse == t - HostPorts(w.mappings[..i])
        invariant host.rules == rules - RulesOf(host.all, w.mappings[..i], w.ip)
      {
        var pm := w.mappings[i];
        host.DropMapping(pm, w.ip);
        portManager.Release(pm.hostPort);
        DropOne(host.all, t, rules, w.mappings, w.ip, i);
      }
      assert w.mappings[..|w.mappings|] == w.mappings;
    }

    /** Close: what the worker holds goes back; and what was set up outside is torn down, in this order. */
    method Close(w: Worker)
      requires Valid()
      modifies uidPool, ipam`usedIPs, portManager, host, this`teardowns
      ensures Valid() && State() == Closed(Rules(), old(State()), w)
      ensures teardowns == old(teardowns) + [CancelContext, RemoveChroot, DeleteTap, TeardownSnapshot]
    {
      GiveBack(w);
      teardowns := teardowns + [CancelContext, RemoveChroot, DeleteTap, TeardownSnapshot];
    }

    /** Process, address, UID, rules and ports of the worker. */
    method GiveBack(w: Worker)
      requires Valid()
      modifies uidPool, ipam`usedIPs, portManager, host
      ensures Valid() && State() == Closed(Rules(), old(State()), w)
    {
      host.processes := host.processes - {w.uid};
      if w.ip != "" {
        ipam.Release(w.ip);
      }
      if w.uid != 0 {
        assert w.uid !in host.processes;
        var _ := uidPool.Return(w.uid);
      }
      DropMappings(w);
    }
  }

  /** Taking claims away changes nothing exactly when they were not there. */
  lemma LessIsSame(s: Resources, ports: set<int>)
    ensures Less(s, ports) == s <==> ports !! s.ports.Keys
  {
    if ports !! s.ports.Keys {
      assert s.ports - ports == s.ports;
    }
    if Less(s, ports) == s {
      forall p | p in ports ensures p !in s.ports {
        assert p !in (s.ports - ports);
      }
    }
  }

  /** The rollback has come to position i: the rest of the stack leads to the result, and kills any
      process under the UID. */
  ghost predicate Unwinding(rs: RuleFn, stack: seq<Undo>, uid: int, i: int, s: Resources, undone: Resources)
    requires -1 <= i < |stack|
  {
    && UndoneAll(rs, stack[..i + 1], s) == undone
    && (uid in s.processes ==> KillProcess(uid) in stack[..i + 1])
  }

  lemma UnwindingStep(rs: RuleFn, stack: seq<Undo>, uid: int, i: nat, s: Resources, undone: Resources)
    requires i < |stack| && StackShape(stack, uid) && Unwinding(rs, stack, uid, i, s, undone)
    ensures stack[i].ReturnUid? ==> stack[i].uid !in s.processes
    ensures Unwinding(rs, stack, uid, i - 1, Undone(rs, stack[i], s), undone)
  {
    assert stack[..i + 1][..i] == stack[..i] && stack[..i + 1] == stack[..i] + [stack[i]];
  }

  lemma TeardownsStep(done: seq<Undo>, stack: seq<Undo>, i: nat)
    requires i < |stack|
    ensures done + Teardowns(stack[..i + 1])
         == done + (if Outer(stack[i]) then [stack[i]] else []) + Teardowns(stack[..i])
  {
    assert stack[..i + 1] == stack[..i] + [stack[i]];
    TeardownsPush(stack[..i], stack[i]);
  }

  lemma DropOne(rs: RuleFn, t: Table, rules: Tables, ms: seq<PortMapping>, ip: string, i: nat)
    requires i < |ms|
    ensures t - HostPorts(ms[..i]) - {ms[i].hostPort} == t - HostPorts(ms[..i + 1])
    ensures rules - RulesOf(rs, ms[..i], ip) - rs(ms[i], ip) == rules - RulesOf(rs, ms[..i + 1], ip)
  {
    assert ms[..i + 1] == ms[..i] + [ms[i]];
    HostPortsPush(ms[..i], ms[i]);
    RulesOfPush(rs, ms[..i], ms[i], ip);
    DropTwice(t, HostPorts(ms[..i]), ms[i].hostPort, rules, RulesOf(rs, ms[..i], ip), rs(ms[i], ip));
  }

  lemma DropTwice(t: Table, ports: set<int>, p: int, rules: Tables, a: Tables, b: Tables)
    ensures t - ports - {p} == t - (ports + {p})
    ensures rules - a - b == rules - (a + b)
  {
  }

  lemma StartCovers(rs: RuleFn, uid: int, s: Resources, s': Resources)
    requires s.uids.Checkout() == (s'.uids, Some(uid)) && s' == s.(uids := s'.uids)
    ensures Covers(rs, [ReturnUid(uid)], uid, s, s') && Teardowns([ReturnUid(uid)]) == []
  {
    TeardownsPush([], ReturnUid(uid));
    BackOfPush(rs, [], ReturnUid(uid));
    assert [] + [ReturnUid(uid)] == [ReturnUid(uid)];
    assert NOTHING.Plus(NOTHING) == NOTHING;
    TakeBackNothing(s');
  }
}
