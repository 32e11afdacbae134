/** Transactional spawn and close (firecracker_factory.go): resources are taken one at a time,
    each with an undo action, and any failure runs the undo actions in reverse. */
module Spawn {
  import opened IpTables
  import opened PortTable
  import opened Text
  import opened Wrappers
  import UidPool

  // ---------------------------------------------------------------------------
  // Resources, as a value
  // ---------------------------------------------------------------------------

  /** Everything the daemon allocates for its VMs. */
  datatype Resources = Resources(
    uids: UidPool.Uids, used: set<string>, ports: Table, rules: Tables, processes: set<int>)

  /** A running VM and what it holds; mappings carry the host ports they were given. */
  datatype Worker = Worker(id: string, uid: int, ip: string, mappings: seq<PortMapping>)

  function HostPorts(ms: seq<PortMapping>): set<int> {
    set i | 0 <= i < |ms| :: ms[i].hostPort
  }

  function Claims(ports: set<int>, vm: string): Table {
    map p | p in ports :: vm
  }

  /** The rules of all the mappings of a guest. */
  function RulesOf(rs: RuleFn, ms: seq<PortMapping>, ip: string): Tables {
    if ms == [] then multiset{} else RulesOf(rs, ms[..|ms| - 1], ip) + rs(ms[|ms| - 1], ip)
  }

  // ---------------------------------------------------------------------------
  // The undo stack
  // ---------------------------------------------------------------------------

  datatype Undo =
    | ReturnUid(uid: int)
    | TeardownSnapshot
    | RemoveChroot
    | ReleaseIp(ip: string)
    | DeleteTap
    | KillProcess(uid: int)
    | CloseConnection
    | CancelContext
    | ReleasePort(port: int)
    | RemoveMapping(m: PortMapping, guest: string)

  /** One undo action. Snapshot, chroot, TAP, connection and context are outside this model. */
  function Undone(rs: RuleFn, a: Undo, s: Resources): Resources {
    match a
    case ReturnUid(uid) => s.(uids := s.uids.Return(uid).0)
    case ReleaseIp(ip) => s.(used := s.used - {ip})
    case KillProcess(uid) => s.(processes := s.processes - {uid})
    case ReleasePort(p) => s.(ports := s.ports - {p})
    case RemoveMapping(m, ip) => s.(rules := s.rules - rs(m, ip))
    case _ => s
  }

  /** What the daemon sets up outside itself and tears down again. */
  predicate Outer(a: Undo) {
    a.TeardownSnapshot? || a.RemoveChroot? || a.DeleteTap? || a.CloseConnection? || a.CancelContext?
  }

  /** The teardowns of a stack, in the order in which a rollback comes to them. */
  function Teardowns(stack: seq<Undo>): seq<Undo> {
    if stack == [] then []
    else (if Outer(stack[|stack| - 1]) then [stack[|stack| - 1]] else []) + Teardowns(stack[..|stack| - 1])
  }

  lemma TeardownsPush(stack: seq<Undo>, a: Undo)
    ensures Teardowns(stack + [a]) == (if Outer(a) then [a] else []) + Teardowns(stack)
  {
    assert (stack + [a])[..|stack|] == stack;
  }

  /** The whole stack, last action first. */
  function UndoneAll(rs: RuleFn, stack: seq<Undo>, s: Resources): Resources
    decreases |stack|
  {
    if stack == [] then s
    else UndoneAll(rs, stack[..|stack| - 1], Undone(rs, stack[|stack| - 1], s))
  }

  /** What undo actions take back, UIDs aside. */
  datatype Back = Back(ips: set<string>, ports: set<int>, rules: Tables, processes: set<int>) {
    function Plus(b: Back): Back {
      Back(ips + b.ips, ports + b.ports, rules + b.rules, processes + b.processes)
    }

    function From(s: Resources): Resources {
      Resources(s.uids, s.used - ips, s.ports - ports, s.rules - rules, s.processes - processes)
    }
  }

  const NOTHING := Back({}, {}, multiset{}, {})

  function BackOf(rs: RuleFn, a: Undo): Back {
    match a
    case ReleaseIp(ip) => NOTHING.(ips := {ip})
    case KillProcess(uid) => NOTHING.(processes := {uid})
    case ReleasePort(p) => NOTHING.(ports := {p})
    case RemoveMapping(m, ip) => NOTHING.(rules := rs(m, ip))
    case _ => NOTHING
  }

  function BackOfAll(rs: RuleFn, stack: seq<Undo>): Back {
    if stack == [] then NOTHING
    else BackOfAll(rs, stack[..|stack| - 1]).Plus(BackOf(rs, stack[|stack| - 1]))
  }

  /** The stack of one spawn: the UID goes back last, and nothing else returns a UID. */
  ghost predicate StackShape(stack: seq<Undo>, uid: int) {
    |stack| >= 1 && stack[0] == ReturnUid(uid) && forall i :: 1 <= i < |stack| ==> !stack[i].ReturnUid?
  }

  lemma TakeBackTwice(s: Resources, a: Back, b: Back)
    ensures a.From(b.From(s)) == a.Plus(b).From(s)
  {
    assert (s.used - b.ips) - a.ips == s.used - (a.ips + b.ips);
    assert (s.ports - b.ports) - a.ports == s.ports - (a.ports + b.ports);
    assert (s.rules - b.rules) - a.rules == s.rules - (a.rules + b.rules);
    assert (s.processes - b.processes) - a.processes == s.processes - (a.processes + b.processes);
  }

  lemma TakeBackNothing(s: Resources)
    ensures NOTHING.From(s) == s
  {
  }

  lemma UndoneIs(rs: RuleFn, a: Undo, s: Resources)
    ensures Undone(rs, a, s).(uids := s.uids) == BackOf(rs, a).From(s)
  {
    TakeBackNothing(s);
  }

  /** Running a stack takes back the sum of what its actions take back. */
  lemma {:induction false} UndoneAllIs(rs: RuleFn, stack: seq<Undo>, s: Resources)
    ensures UndoneAll(rs, stack, s).(uids := s.uids) == BackOfAll(rs, stack).From(s)
    decreases |stack|
  {
    if stack == [] {
      TakeBackNothing(s);
    } else {
      var front, a := stack[..|stack| - 1], stack[|stack| - 1];
      var t := Undone(rs, a, s);
      UndoneAllIs(rs, front, t);
      UndoneIs(rs, a, s);
      TakeBackTwice(s, BackOfAll(rs, front), BackOf(rs, a));
    }
  }

  lemma BackOfPush(rs: RuleFn, stack: seq<Undo>, a: Undo)
    ensures BackOfAll(rs, stack + [a]) == BackOfAll(rs, stack).Plus(BackOf(rs, a))
  {
    assert (stack + [a])[..|stack|] == stack;
  }

  lemma {:induction false} UndoneAllUids(rs: RuleFn, stack: seq<Undo>, uid: int, s: Resources)
    requires StackShape(stack, uid)
    ensures UndoneAll(rs, stack, s).uids == s.uids.Return(uid).0
    decreases |stack|
  {
    var front, a := stack[..|stack| - 1], stack[|stack| - 1];
    if |stack| == 1 {
      assert front == [] && UndoneAll(rs, front, Undone(rs, a, s)) == Undone(rs, a, s);
    } else {
      UndoneAllUids(rs, front, uid, Undone(rs, a, s));
    }
  }

  // ---------------------------------------------------------------------------
  // What spawn and close promise
  // ---------------------------------------------------------------------------

  /** Nothing gained and nothing lost: the same UIDs available (in whatever order), the same
      addresses, ports, rules and processes. */
  ghost predicate Same(s: Resources, s': Resources) {
    && (s'.uids.start, s'.uids.size) == (s.uids.start, s.uids.size)
    && multiset(s'.uids.queue) == multiset(s.uids.queue)
    && s'.used == s.used && s'.ports == s.ports && s'.rules == s.rules && s'.processes == s.processes
  }

  /** Ports that nobody has claimed, or that the VM has already. */
  ghost predicate OwnOrNew(t: Table, ports: set<int>, vm: string) {
    forall p :: p in ports && p in t ==> t[p] == vm
  }

  /** Resources less some claims on ports. */
  function Less(s: Resources, ports: set<int>): Resources {
    s.(ports := s.ports - ports)
  }

  lemma LessNothing(s: Resources)
    ensures Less(s, {}) == s
  {
    assert s.ports - {} == s.ports;
  }

  /** A successful spawn of w: exactly what w holds has moved from free to taken. */
  ghost predicate Spawned(rs: RuleFn, needed: RuleFn, s: Resources, s': Resources, w: Worker) {
    && s.uids.Checkout() == (s'.uids, Some(w.uid))
    && w.ip !in s.used && s'.used == s.used + {w.ip} && Free(w.ip, ':')
    && OwnOrNew(s.ports, HostPorts(w.mappings), w.id)
    && s'.ports == s.ports + Claims(HostPorts(w.mappings), w.id)
    && s.rules + RulesOf(needed, w.mappings, w.ip) <= s'.rules <= s.rules + RulesOf(rs, w.mappings, w.ip)
    && s'.processes == s.processes + {w.uid}
  }

  /** The resources after closing w. */
  function Closed(rs: RuleFn, s: Resources, w: Worker): Resources {
    Resources(
      if w.uid != 0 then s.uids.Return(w.uid).0 else s.uids,
      if w.ip != "" then s.used - {w.ip} else s.used,
      s.ports - HostPorts(w.mappings),
      s.rules - RulesOf(rs, w.mappings, w.ip),
      s.processes - {w.uid})
  }

  /** What a spawn needs on entry: every forwarding rule for a pool address is for a leased one, and
      every queued UID is in range and has no process. */
  ghost predicate Ready(s: Resources, pool: set<string>) {
    && (forall r :: r in s.rules && Target(r).Some? && Target(r).value in pool ==> Target(r).value in s.used)
    && s.uids.Bounded() && (forall u :: u in s.uids.queue ==> u !in s.processes)
    && s.used <= pool
  }

  // ---------------------------------------------------------------------------
  // How the stack covers what was taken
  // ---------------------------------------------------------------------------

  /** Taking back what the stack promises would restore s from s', but for the UID. */
  ghost predicate Covers(rs: RuleFn, stack: seq<Undo>, uid: int, s: Resources, s': Resources) {
    && StackShape(stack, uid)
    && s.uids.Checkout() == (s'.uids, Some(uid))
    && BackOfAll(rs, stack).From(s') == s.(uids := s'.uids)
  }

  /** All or nothing: from a covered state the stack restores what the spawn started from. */
  lemma CoveredIsRestored(rs: RuleFn, stack: seq<Undo>, uid: int, s: Resources, s': Resources)
    requires Covers(rs, stack, uid, s, s') && s.uids.Bounded()
    ensures Same(s, UndoneAll(rs, stack, s'))
  {
    UndoneAllIs(rs, stack, s');
    UndoneAllUids(rs, stack, uid, s');
    ReturnedUid(s.uids, uid, s'.uids);
  }

  /** A UID that was checked out is accepted back. */
  lemma ReturnedUid(u: UidPool.Uids, uid: int, u': UidPool.Uids)
    requires u.Bounded() && u.Checkout() == (u', Some(uid))
    ensures var back := u'.Return(uid).0;
      (back.start, back.size) == (u.start, u.size) && multiset(back.queue) == multiset(u.queue)
  {
    assert u.queue == [uid] + u'.queue;
    assert u.InRange(u.queue[0]);
  }

  /** A push that matches what was just taken, from m to s', keeps the stack covering. */
  lemma PushCovers(rs: RuleFn, stack: seq<Undo>, uid: int, s: Resources, m: Resources, a: Undo, s': Resources)
    requires Covers(rs, stack, uid, s, m) && !a.ReturnUid? && s'.uids == m.uids
    requires BackOfAll(rs, stack).Plus(BackOf(rs, a)).From(s') == BackOfAll(rs, stack).From(m)
    ensures Covers(rs, stack + [a], uid, s, s')
  {
    BackOfPush(rs, stack, a);
    assert forall i :: 0 <= i < |stack| ==> (stack + [a])[i] == stack[i];
  }

  /** Pushing an action outside this model. */
  lemma PushOutside(rs: RuleFn, stack: seq<Undo>, uid: int, s: Resources, m: Resources, a: Undo)
    requires Covers(rs, stack, uid, s, m)
    requires Outer(a)
    ensures Covers(rs, stack + [a], uid, s, m) && Teardowns(stack + [a]) == [a] + Teardowns(stack)
  {
    TeardownsPush(stack, a);
    var back := BackOfAll(rs, stack);
    assert back.Plus(NOTHING) == back;
    PushCovers(rs, stack, uid, s, m, a, m);
  }

  /** An address or a process that the start did not have. */
  lemma PushFresh(rs: RuleFn, stack: seq<Undo>, uid: int, s: Resources, m: Resources, a: Undo, s': Resources)
    requires Covers(rs, stack, uid, s, m)
    requires match a
      case ReleaseIp(ip) => ip !in s.used && s' == m.(used := m.used + {ip})
      case KillProcess(u) => u !in s.processes && s' == m.(processes := m.processes + {u})
      case _ => false
    ensures Covers(rs, stack + [a], uid, s, s') && Teardowns(stack + [a]) == Teardowns(stack)
  {
    TeardownsPush(stack, a);
    var back := BackOfAll(rs, stack);
    var more := back.Plus(BackOf(rs, a));
    match a {
      case ReleaseIp(ip) => AddThenTake(m.used, back.ips, ip);
      case KillProcess(u) => AddThenTake(m.processes, back.processes, u);
    }
    assert more.From(s') == back.From(m);
    PushCovers(rs, stack, uid, s, m, a, s');
  }

  lemma AddThenTake<T>(s: set<T>, less: set<T>, x: T)
    requires x !in s - less
    ensures s + {x} - (less + {x}) == s - less
  {
  }

  lemma AddThenRemove<K, V>(m: map<K, V>, keys: set<K>, k: K, v: V)
    ensures m[k := v] - (keys + {k}) == m - keys - {k}
  {
  }

  lemma RemoveBoth<K, V>(m: map<K, V>, keys: set<K>, k: K)
    ensures m - keys - {k} == m - (keys + {k})
  {
  }

  /** A port granted to the VM, whether or not it had been before: giving it back takes away the
      claim that the start may have had on it. */
  lemma PushPort(rs: RuleFn, stack: seq<Undo>, uid: int, s: Resources, ports: set<int>,
      m: Resources, p: int, vm: string)
    requires Covers(rs, stack, uid, Less(s, ports), m)
    ensures Covers(rs, stack + [ReleasePort(p)], uid, Less(s, ports + {p}), m.(ports := m.ports[p := vm]))
    ensures Teardowns(stack + [ReleasePort(p)]) == Teardowns(stack)
  {
    TeardownsPush(stack, ReleasePort(p));
    var back, s' := BackOfAll(rs, stack), m.(ports := m.ports[p := vm]);
    assert m.ports - back.ports == s.ports - ports;
    AddThenRemove(m.ports, back.ports, p, vm);
    RemoveBoth(s.ports, ports, p);
    BackOfPush(rs, stack, ReleasePort(p));
    var back' := BackOfAll(rs, stack + [ReleasePort(p)]);
    assert back' == back.(ports := back.ports + {p}) by { PlusPort(rs, back, p); }
    assert back'.From(s') == Less(s, ports + {p}).(uids := s'.uids);
    assert forall i :: 0 <= i < |stack| ==> (stack + [ReleasePort(p)])[i] == stack[i];
  }

  lemma PlusPort(rs: RuleFn, back: Back, p: int)
    ensures back.Plus(BackOf(rs, ReleasePort(p))) == back.(ports := back.ports + {p})
  {
  }

  lemma PlusMapping(rs: RuleFn, back: Back, pm: PortMapping, ip: string)
    ensures back.Plus(BackOf(rs, RemoveMapping(pm, ip))) == back.(rules := back.rules + rs(pm, ip))
  {
  }

  /** The rules of a mapping, all of them for a guest that had none at the start. */
  lemma PushMapping(rs: RuleFn, stack: seq<Undo>, uid: int, s: Resources, m: Resources, pm: PortMapping,
      ip: string, after: Tables)
    requires Covers(rs, stack, uid, s, m)
    requires m.rules <= after <= m.rules + rs(pm, ip)
    requires forall r :: r in rs(pm, ip) ==> r !in s.rules
    ensures Covers(rs, stack + [RemoveMapping(pm, ip)], uid, s, m.(rules := after))
    ensures Teardowns(stack + [RemoveMapping(pm, ip)]) == Teardowns(stack)
  {
    TeardownsPush(stack, RemoveMapping(pm, ip));
    var back := BackOfAll(rs, stack);
    assert back.From(m).rules == s.rules;
    SaturatingTakeBack(s.rules, m.rules, after, back.rules, rs(pm, ip));
    PlusMapping(rs, back, pm, ip);
    PushCovers(rs, stack, uid, s, m, RemoveMapping(pm, ip), m.(rules := after));
  }

  /** Deleting at most what is there: the deletions of a stack still restore the tables after a new
      mapping, even if one of its rules was never installed. */
  lemma SaturatingTakeBack(base: Tables, before: Tables, after: Tables, back: Tables, more: Tables)
    requires before - back == base
    requires before <= after <= before + more
    requires forall r :: r in more ==> r !in base
    ensures after - (back + more) == base
  {
    forall r ensures (after - (back + more))[r] == base[r] {
      assert (before - back)[r] == base[r];
      if r in more {
        assert base[r] == 0;
      }
    }
  }

  /** A failed AddPortMapping keeps the stack covering. */
  lemma FailureCovers(rs: RuleFn, stack: seq<Undo>, uid: int, s: Resources, m: Resources, pm: PortMapping,
      ip: string, after: Tables)
    requires Covers(rs, stack, uid, s, m) && OutputRule(pm, ip) !in s.rules
    requires after == m.rules || after == m.rules - multiset{OutputRule(pm, ip)}
    ensures Covers(rs, stack, uid, s, m.(rules := after))
  {
    var back := BackOfAll(rs, stack).rules;
    forall r ensures (after - back)[r] == s.rules[r] {
      assert (m.rules - back)[r] == s.rules[r];
    }
    assert after - back == s.rules;
  }
}
