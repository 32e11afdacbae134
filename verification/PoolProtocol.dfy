/** The session pool (pool.go) as a transition system: any number of threads in Acquire and
    KillWorker, each at a lock region or channel operation, over the shared registry, inflight
    table, channels, worker list and tickets. Spawn and Close are opened up as far as the UID pool
    and the address allocator go. */
module PoolProtocol {
  import opened Wrappers
  import UidPool

  /** A Firecracker worker: its ID is its session's ID. Addresses are positions in the allocator's cycle. */
  datatype Worker = Worker(id: string, uid: int, ip: nat)

  /** What all threads share. Channels are numbered in the order they are made. */
  datatype Pool = Pool(
    max: nat,
    tickets: nat,
    registry: map<string, Worker>,
    inflight: map<string, nat>,
    closed: set<nat>,
    nextCh: nat,
    workers: seq<string>,
    uids: UidPool.Uids,
    addresses: nat,
    used: set<nat>)

  /** Where a thread is. A thread holds a ticket from Spawning to SpawnFailed or Pin, and again in a
      kill from Closing to ReturnTicket. */
  datatype Pc =
    // Acquire(sid)
    | Lookup(sid: string)                                   // before the first lock region
    | Waiting(sid: string, ch: nat)                         // on another call's channel
    | WantTicket(sid: string, ch: nat)                      // made ch, waiting for capacity
    | Spawning(sid: string, ch: nat)                        // before Checkout
    | SpawnUid(sid: string, ch: nat, uid: int)              // before IPAM.Acquire
    | SpawnIp(sid: string, ch: nat, uid: int, ip: nat)      // before the rest of Spawn
    | UndoIp(sid: string, ch: nat, uid: int, ip: nat)       // rolling back: release the address
    | UndoUid(sid: string, ch: nat, uid: int)               // rolling back: return the UID
    | SpawnFailed(sid: string, ch: nat)                     // before the ticket goes back
    | Wire(sid: string, ch: nat, w: Worker)                 // before the append to workers
    | Pin(sid: string, ch: nat, w: Worker)                  // before Put and delete
    | FailDelete(sid: string, ch: nat)                      // failed or timed out, before delete
    | CloseCh(sid: string, ch: nat, result: Option<Worker>) // before close(ch)
    | Done(sid: string, result: Option<Worker>)
    // KillWorker(sid)
    | KillLookup(sid: string)                               // before the lock region
    | Closing(w: Worker)                                    // in Close, before Release of the address
    | ClosingUid(w: Worker)                                 // in Close, before Return of the UID
    | Removing(w: Worker)                                   // before removeWorker
    | ReturnTicket(w: Worker)                               // before the ticket goes back
    | Killed

  /** How a nondeterministic step goes: on, cancelled by the context, failed, or with an address. */
  datatype Choice = Go | Cancel | Fail | Lease(ip: nat)

  /** Channel operations block; a step of Spawn may fail wherever it calls out. */
  predicate Enabled(p: Pool, pc: Pc, c: Choice) {
    match pc
    case Waiting(_, ch) => c == Cancel || (c == Go && ch in p.closed)
    case WantTicket(_, _) => c == Cancel || (c == Go && p.tickets > 0)
    case SpawnUid(_, _, _) => c == Fail || (c.Lease? && c.ip < p.addresses && c.ip !in p.used)
    case SpawnIp(_, _, _, _) => c == Go || c == Fail
    case SpawnFailed(_, _) => c == Go && p.tickets < p.max
    case ReturnTicket(_) => c == Go && p.tickets < p.max
    case Done(_, _) => false
    case Killed => false
    case _ => c == Go
  }

  /** removeWorker: the list without its first entry that has the ID. */
  function Without(workers: seq<string>, id: string): seq<string> {
    if workers == [] then []
    else if workers[0] == id then workers[1..]
    else [workers[0]] + Without(workers[1..], id)
  }

  lemma {:induction false} WithoutCounts(workers: seq<string>, id: string)
    ensures multiset(Without(workers, id)) == multiset(workers) - multiset{id}
  {
    if workers != [] {
      var first, rest := workers[0], workers[1..];
      FirstCounts(workers, first, rest);
      TakeFirst(first, multiset(rest), id);
      if first != id {
        WithoutCounts(rest, id);
        FirstCounts(Without(workers, id), first, Without(rest, id));
      }
    }
  }

  lemma FirstCounts(all: seq<string>, first: string, rest: seq<string>)
    requires all == [first] + rest
    ensures multiset(all) == multiset{first} + multiset(rest)
  {
  }

  lemma TakeFirst(first: string, rest: multiset<string>, id: string)
    ensures multiset{first} + rest - multiset{id}
         == if first == id then rest else multiset{first} + (rest - multiset{id})
  {
  }

  /** One step of one thread: the shared state and the thread's next position. */
  function Next(p: Pool, pc: Pc, c: Choice): (Pool, Pc)
    requires Enabled(p, pc, c)
  {
    match pc
    case Lookup(sid) =>
      if sid in p.registry then (p, Done(sid, Some(p.registry[sid])))
      else if sid in p.inflight then (p, Waiting(sid, p.inflight[sid]))
      else (p.(inflight := p.inflight[sid := p.nextCh], nextCh := p.nextCh + 1), WantTicket(sid, p.nextCh))
    case Waiting(sid, ch) => (p, if c == Go then Lookup(sid) else Done(sid, None))
    case WantTicket(sid, ch) =>
      if c == Go then (p.(tickets := p.tickets - 1), Spawning(sid, ch)) else (p, FailDelete(sid, ch))
    case Spawning(sid, ch) =>
      (match p.uids.Checkout()
       case (u, Some(uid)) => (p.(uids := u), SpawnUid(sid, ch, uid))
       case (_, None) => (p, SpawnFailed(sid, ch)))
    case SpawnUid(sid, ch, uid) =>
      if c.Lease? then (p.(used := p.used + {c.ip}), SpawnIp(sid, ch, uid, c.ip)) else (p, UndoUid(sid, ch, uid))
    case SpawnIp(sid, ch, uid, ip) =>
      (p, if c == Go then Wire(sid, ch, Worker(sid, uid, ip)) else UndoIp(sid, ch, uid, ip))
    case UndoIp(sid, ch, uid, ip) => (p.(used := p.used - {ip}), UndoUid(sid, ch, uid))
    case UndoUid(sid, ch, uid) => (p.(uids := p.uids.Return(uid).0), SpawnFailed(sid, ch))
    case SpawnFailed(sid, ch) => (p.(tickets := p.tickets + 1), FailDelete(sid, ch))
    case Wire(sid, ch, w) => (p.(workers := p.workers + [w.id]), Pin(sid, ch, w))
    case Pin(sid, ch, w) =>
      (p.(registry := p.registry[sid := w], inflight := p.inflight - {sid}), CloseCh(sid, ch, Some(w)))
    case FailDelete(sid, ch) => (p.(inflight := p.inflight - {sid}), CloseCh(sid, ch, None))
    case CloseCh(sid, ch, result) => (p.(closed := p.closed + {ch}), Done(sid, result))
    case KillLookup(sid) =>
      if sid in p.registry then (p.(registry := p.registry - {sid}), Closing(p.registry[sid])) else (p, Killed)
    case Closing(w) => (p.(used := p.used - {w.ip}), ClosingUid(w))
    case ClosingUid(w) => (p.(uids := p.uids.Return(w.uid).0), Removing(w))
    case Removing(w) => (p.(workers := Without(p.workers, w.id)), ReturnTicket(w))
    case ReturnTicket(w) => (p.(tickets := p.tickets + 1), Killed)
  }

  // ---------------------------------------------------------------------------
  // Runs
  // ---------------------------------------------------------------------------

  type Tid = nat

  datatype State = State(p: Pool, threads: map<Tid, Pc>)

  /** A new call, or a step of a running one. */
  datatype Label = Arrive(t: Tid, call: Pc) | Act(t: Tid, c: Choice)

  ghost predicate Step(s: State, l: Label, s': State) {
    match l
    case Arrive(t, call) =>
      t !in s.threads && (call.Lookup? || call.KillLookup?) && s' == s.(threads := s.threads[t := call])
    case Act(t, c) =>
      && t in s.threads && Enabled(s.p, s.threads[t], c)
      && var (p, pc) := Next(s.p, s.threads[t], c);
        s' == State(p, s.threads[t := pc])
  }

  /** New: every ticket in the channel and nothing else. */
  function Initial(max: nat, start: int, size: nat, addresses: nat): State {
    State(Pool(max, max, map[], map[], {}, 0, [], UidPool.Full(start, size), addresses, {}), map[])
  }

  ghost predicate IsRun(trace: seq<State>, labels: seq<Label>) {
    |trace| == |labels| + 1 && forall i :: 0 <= i < |labels| ==> Step(trace[i], labels[i], trace[i + 1])
  }
}
