/** The pool's own code (pool.go, registry.go): the lock regions and channel operations that the
    protocol interleaves, and the calls made of them, each proved to be a run of the protocol's steps
    of one thread. */
module SessionPool {
  import opened Counting
  import opened PoolInvariant
  import opened PoolProtocol
  import opened PoolSafety
  import opened Wrappers
  import UidPool

  lemma {:induction false} WithoutAt(workers: seq<string>, i: nat, id: string)
    requires i < |workers| && workers[i] == id && id !in workers[..i]
    ensures Without(workers, id) == workers[..i] + workers[i + 1..]
  {
    if i > 0 {
      assert workers[0] == workers[..i][0];
      assert workers[1..][..i - 1] == workers[..i][1..] && workers[1..][i..] == workers[i + 1..];
      WithoutAt(workers[1..], i - 1, id);
    }
  }

  lemma {:induction false} WithoutAbsent(workers: seq<string>, id: string)
    requires id !in workers
    ensures Without(workers, id) == workers
  {
    if workers != [] {
      WithoutAbsent(workers[1..], id);
    }
  }

  // ---------------------------------------------------------------------------
  // Calls that run alone
  // ---------------------------------------------------------------------------

  /** From one state to another by these choices. */
  ghost predicate Path<S(!new), C(!new)>(step: (S, C) -> Option<S>, s: S, cs: seq<C>, s': S)
    decreases |cs|
  {
    if cs == [] then s' == s else step(s, cs[0]).Some? && Path(step, step(s, cs[0]).value, cs[1..], s')
  }

  lemma {:induction false} PathJoins<S(!new), C(!new)>(step: (S, C) -> Option<S>, s: S, cs: seq<C>,
      q: S, ds: seq<C>, s': S)
    requires Path(step, s, cs, q) && Path(step, q, ds, s')
    ensures Path(step, s, cs + ds, s')
    decreases |cs|
  {
    if cs == [] {
      assert cs + ds == ds;
    } else {
      PathJoins(step, step(s, cs[0]).value, cs[1..], q, ds, s');
      assert (cs + ds)[1..] == cs[1..] + ds;
    }
  }

  function OneThread(): ((Pool, Pc), Choice) -> Option<(Pool, Pc)> {
    (s: (Pool, Pc), c: Choice) => if Enabled(s.0, s.1, c) then Some(Next(s.0, s.1, c)) else None
  }

  /** The steps of one thread, with these choices, while no other moves. */
  ghost predicate Alone(p: Pool, pc: Pc, cs: seq<Choice>, p': Pool, pc': Pc) {
    Path(OneThread(), (p, pc), cs, (p', pc'))
  }

  lemma OneAlone(p: Pool, pc: Pc, c: Choice, p': Pool, pc': Pc)
    requires Enabled(p, pc, c) && Next(p, pc, c) == (p', pc')
    ensures Alone(p, pc, [c], p', pc')
  {
    assert [c][1..] == [] && OneThread()((p, pc), c) == Some((p', pc'));
  }

  lemma AloneJoins(p: Pool, pc: Pc, cs: seq<Choice>, q: Pool, qc: Pc, ds: seq<Choice>, p': Pool, pc': Pc)
    requires Alone(p, pc, cs, q, qc) && Alone(q, qc, ds, p', pc')
    ensures Alone(p, pc, cs + ds, p', pc')
  {
    PathJoins(OneThread(), (p, pc), cs, (q, qc), ds, (p', pc'));
  }

  lemma FirstAlone(p: Pool, pc: Pc, cs: seq<Choice>, p': Pool, pc': Pc)
    requires cs != [] && Alone(p, pc, cs, p', pc')
    ensures Enabled(p, pc, cs[0])
    ensures Alone(Next(p, pc, cs[0]).0, Next(p, pc, cs[0]).1, cs[1..], p', pc')
  {
    assert OneThread()((p, pc), cs[0]).Some?;
  }

  /** Whatever the other threads are at, such steps are a run, so they keep every law of the protocol. */
  lemma {:induction false} AloneIsRun(s: State, t: Tid, cs: seq<Choice>, p': Pool, pc': Pc)
    returns (trace: seq<State>, labels: seq<Label>)
    requires t in s.threads && Alone(s.p, s.threads[t], cs, p', pc')
    ensures IsRun(trace, labels) && trace[0] == s && trace[|labels|] == State(p', s.threads[t := pc'])
    ensures |labels| == |cs| && forall i :: 0 <= i < |cs| ==> labels[i] == Act(t, cs[i])
    ensures Inv(s) ==> Inv(trace[|labels|])
    decreases |cs|
  {
    if cs == [] {
      trace, labels := [s], [];
      assert s.threads[t := pc'] == s.threads;
    } else {
      FirstAlone(s.p, s.threads[t], cs, p', pc');
      var (p, pc) := Next(s.p, s.threads[t], cs[0]);
      var s1 := State(p, s.threads[t := pc]);
      trace, labels := AloneIsRun(s1, t, cs[1..], p', pc');
      assert s1.threads[t := pc'] == s.threads[t := pc'];
      trace, labels := RunBefore(s, Act(t, cs[0]), trace, labels);
    }
  }

  /** One step before a run. */
  lemma RunBefore(s: State, l: Label, trace: seq<State>, labels: seq<Label>)
    returns (trace': seq<State>, labels': seq<Label>)
    requires IsRun(trace, labels) && Step(s, l, trace[0])
    ensures trace' == [s] + trace && labels' == [l] + labels && IsRun(trace', labels')
    ensures Inv(s) ==> Inv(trace[0])
  {
    trace', labels' := [s] + trace, [l] + labels;
    forall i | 0 <= i < |labels'| ensures Step(trace'[i], labels'[i], trace'[i + 1]) {
      if i > 0 {
        assert Step(trace[i - 1], labels[i - 1], trace[i - 1 + 1]);
      }
    }
    if Inv(s) {
      StepKeeps(s, l, trace[0]);
    }
  }

  /** Between calls: a ticket is out for each pinned worker, no pinned session is in flight, inflight
      channels are made and open, and the UID queue holds UIDs of its range. */
  ghost predicate Quiet(p: Pool) {
    p.tickets + |p.registry| <= p.max && p.uids.Bounded() && PinsKnown(p) && ChannelsOpen(p)
  }

  ghost predicate PinsKnown(p: Pool) {
    forall sid :: sid in p.registry ==> p.registry[sid].id == sid && sid !in p.inflight
  }

  ghost predicate ChannelsOpen(p: Pool) {
    && (forall sid :: sid in p.inflight ==> p.inflight[sid] < p.nextCh && p.inflight[sid] !in p.closed)
    && (forall ch :: ch in p.closed ==> ch < p.nextCh)
  }

  /** What Acquire does alone, offered an address or none, when its context holds and the rest of the
      spawn goes well or not: it serves the pinned worker, or a new one on the first UID of the queue,
      or none; and then nothing is taken. In no case is an inflight entry left. */
  ghost predicate Acquired(p: Pool, sid: string, lease: Option<nat>, go: bool, p': Pool, r: Option<Worker>) {
    var known := sid in p.registry || sid in p.inflight;
    var served := !known && p.tickets > 0 && p.uids.queue != [] && lease.Some? && go;
    && p'.max == p.max && p'.addresses == p.addresses && p'.inflight == p.inflight
    && (p'.uids.start, p'.uids.size) == (p.uids.start, p.uids.size)
    && p'.nextCh == (if known then p.nextCh else p.nextCh + 1)
    && p'.closed == (if known then p.closed else p.closed + {p.nextCh})
    && if served
       then r == Some(Worker(sid, p.uids.queue[0], lease.value)) && p'.registry == p.registry[sid := r.value]
            && p'.workers == p.workers + [sid] && p'.tickets == p.tickets - 1
            && p'.uids.queue == p.uids.queue[1..] && p'.used == p.used + {lease.value}
       else r == (if sid in p.registry then Some(p.registry[sid]) else None)
            && p'.registry == p.registry && p'.workers == p.workers && p'.tickets == p.tickets
            && multiset(p'.uids.queue) == multiset(p.uids.queue) && p'.used == p.used
  }

  lemma AcquiredIsQuiet(p: Pool, sid: string, lease: Option<nat>, go: bool, p': Pool, r: Option<Worker>)
    requires Quiet(p) && Acquired(p, sid, lease, go, p', r)
    ensures Quiet(p')
  {
    AcquiredUids(p, sid, lease, go, p', r);
    AcquiredPins(p, sid, lease, go, p', r);
  }

  lemma AcquiredPins(p: Pool, sid: string, lease: Option<nat>, go: bool, p': Pool, r: Option<Worker>)
    requires Quiet(p) && Acquired(p, sid, lease, go, p', r)
    ensures p'.tickets + |p'.registry| <= p'.max
  {
    if p'.tickets != p.tickets {
      assert p'.registry.Keys == p.registry.Keys + {sid};
    }
  }

  lemma AcquiredUids(p: Pool, sid: string, lease: Option<nat>, go: bool, p': Pool, r: Option<Worker>)
    requires Quiet(p) && Acquired(p, sid, lease, go, p', r)
    ensures p'.uids.Bounded()
  {
    if p'.tickets == p.tickets {
      SameQueueIsBounded(p.uids, p'.uids);
    }
  }

  lemma SameQueueIsBounded(u: UidPool.Uids, u': UidPool.Uids)
    requires u.Bounded() && (u'.start, u'.size) == (u.start, u.size) && multiset(u'.queue) == multiset(u.queue)
    ensures u'.Bounded()
  {
    assert |multiset(u'.queue)| == |u'.queue| && |multiset(u.queue)| == |u.queue|;
    forall i | 0 <= i < |u'.queue| ensures u'.InRange(u'.queue[i]) {
      assert u'.queue[i] in multiset(u.queue);
    }
  }

  /** What KillWorker does alone: everything that the session's worker holds goes back, once. */
  ghost predicate Unpinned(p: Pool, sid: string, p': Pool, w: Option<Worker>) {
    && w == (if sid in p.registry then Some(p.registry[sid]) else None)
    && p' == if w.None? then p
             else p.(registry := p.registry - {sid}, workers := Without(p.workers, w.value.id),
                     tickets := p.tickets + 1, used := p.used - {w.value.ip}, uids := p.uids.Return(w.value.uid).0)
  }

  lemma UnpinnedIsQuiet(p: Pool, sid: string, p': Pool, w: Option<Worker>)
    requires Quiet(p) && Unpinned(p, sid, p', w)
    ensures Quiet(p')
  {
    if w.Some? {
      UpdateInside(p.registry, sid, w.value);
    }
  }

  /** A kill undoes a successful Acquire, up to the order of the UID queue. */
  lemma KillUndoesAcquire(p: Pool, sid: string, ip: nat, q: Pool, w: Worker, p': Pool)
    requires Quiet(p) && sid !in p.registry && sid !in p.workers && ip !in p.used
    requires Acquired(p, sid, Some(ip), true, q, Some(w)) && Unpinned(q, sid, p', Some(w))
    ensures p'.registry == p.registry && p'.inflight == p.inflight && p'.workers == p.workers && p'.tickets == p.tickets
    ensures p'.used == p.used && multiset(p'.uids.queue) == multiset(p.uids.queue)
  {
    assert sid !in p.inflight && p.tickets > 0;
    WithoutAt(p.workers + [sid], |p.workers|, sid);
    CheckoutThenReturn(p.uids, q.uids);
  }

  lemma CheckoutThenReturn(u: UidPool.Uids, v: UidPool.Uids)
    requires u.Bounded() && u.queue != [] && v == u.(queue := u.queue[1..])
    ensures multiset(v.Return(u.queue[0]).0.queue) == multiset(u.queue)
  {
    assert u.queue == [u.queue[0]] + u.queue[1..] && u.InRange(u.queue[0]);
  }

  class SessionPool {
    const max: nat
    var tickets: nat             // buffered in the ticket channel
    var registry: map<string, Worker>
    var inflight: map<string, nat>
    var closed: set<nat>
    var nextCh: nat
    var workers: seq<string>
    // the factory's allocators
    var uids: UidPool.Uids
    const addresses: nat
    var used: set<nat>

    ghost function Contents(): Pool
      reads this
    {
      Pool(max, tickets, registry, inflight, closed, nextCh, workers, uids, addresses, used)
    }

    constructor (max: nat, start: int, size: nat, addresses: nat)
      ensures Contents() == Initial(max, start, size, addresses).p
    {
      this.max := max;
      this.addresses := addresses;
      registry := map[];
      inflight := map[];
      closed := {};
      nextCh := 0;
      workers := [];
      uids := UidPool.Full(start, size);
      used := {};
      tickets := 0;
      new;
      for i := 0 to max
        invariant tickets == i && Contents() == Initial(max, start, size, addresses).p.(tickets := i)
      {
        tickets := tickets + 1;
      }
    }

    // -------------------------------------------------------------------------
    // Lock regions and channel operations
    // -------------------------------------------------------------------------

    /** Acquire's first region: a pinned worker, a channel to wait on, or a new inflight entry. */
    method LookUp(sid: string) returns (pc: Pc)
      modifies this`inflight, this`nextCh
      ensures (Contents(), pc) == Next(old(Contents()), Lookup(sid), Go)
    {
      if sid in registry {
        return Done(sid, Some(registry[sid]));
      }
      if sid in inflight {
        return Waiting(sid, inflight[sid]);
      }
      var ch := nextCh;
      nextCh := nextCh + 1;
      inflight := inflight[sid := ch];
      return WantTicket(sid, ch);
    }

    /** The select on the ticket channel: what the runtime picks, when both cases are ready. */
    method TakeTicket(sid: string, ch: nat, c: Choice) returns (pc: Pc)
      requires Enabled(Contents(), WantTicket(sid, ch), c)
      modifies this`tickets
      ensures (Contents(), pc) == Next(old(Contents()), WantTicket(sid, ch), c)
    {
      if c == Go {
        tickets := tickets - 1;
        return Spawning(sid, ch);
      }
      return FailDelete(sid, ch);
    }

    method GiveTicket()
      requires tickets < max
      modifies this`tickets
      ensures tickets == old(tickets) + 1
    {
      tickets := tickets + 1;
    }

    method WireWorker(sid: string, ch: nat, w: Worker) returns (pc: Pc)
      modifies this`workers
      ensures (Contents(), pc) == Next(old(Contents()), Wire(sid, ch, w), Go)
    {
      workers := workers + [w.id];
      pc := Pin(sid, ch, w);
    }

    method PinWorker(sid: string, ch: nat, w: Worker) returns (pc: Pc)
      modifies this`registry, this`inflight
      ensures (Contents(), pc) == Next(old(Contents()), Pin(sid, ch, w), Go)
    {
      registry := registry[sid := w];
      inflight := inflight - {sid};
      pc := CloseCh(sid, ch, Some(w));
    }

    method DropInflight(sid: string, ch: nat) returns (pc: Pc)
      modifies this`inflight
      ensures (Contents(), pc) == Next(old(Contents()), FailDelete(sid, ch), Go)
    {
      inflight := inflight - {sid};
      pc := CloseCh(sid, ch, None);
    }

    /** Closing a closed channel panics. */
    method CloseChannel(sid: string, ch: nat, result: Option<Worker>) returns (pc: Pc)
      requires ch !in closed
      modifies this`closed
      ensures (Contents(), pc) == Next(old(Contents()), CloseCh(sid, ch, result), Go)
    {
      closed := closed + {ch};
      pc := Done(sid, result);
    }

    method Unpin(sid: string) returns (pc: Pc)
      modifies this`registry
      ensures (Contents(), pc) == Next(old(Contents()), KillLookup(sid), Go)
    {
      if sid !in registry {
        return Killed;
      }
      var w := registry[sid];
      registry := registry - {sid};
      return Closing(w);
    }

    /** Removes the first worker on the list that has the ID, if any. */
    method RemoveWorker(w: Worker)
      modifies this`workers
      ensures workers == Without(old(workers), w.id)
    {
      for i := 0 to |workers|
        invariant workers == old(workers) && w.id !in workers[..i]
      {
        if workers[i] == w.id {
          WithoutAt(workers, i, w.id);
          workers := workers[..i] + workers[i + 1..];
          return;
        }
      }
      WithoutAbsent(workers, w.id);
    }

    // -------------------------------------------------------------------------
    // The allocators, as Spawn and Close use them
    // -------------------------------------------------------------------------

    method CheckoutUid(sid: string, ch: nat) returns (pc: Pc)
      modifies this`uids
      ensures (Contents(), pc) == Next(old(Contents()), Spawning(sid, ch), Go)
    {
      var (rest, uid) := uids.Checkout();
      if uid.None? {
        return SpawnFailed(sid, ch);
      }
      uids := rest;
      return SpawnUid(sid, ch, uid.value);
    }

    method ReturnUid(uid: int)
      modifies this`uids
      ensures uids == old(uids).Return(uid).0
    {
      uids := uids.Return(uid).0;
    }

    method LeaseIp(sid: string, ch: nat, uid: int, c: Choice) returns (pc: Pc)
      requires Enabled(Contents(), SpawnUid(sid, ch, uid), c)
      modifies this`used
      ensures (Contents(), pc) == Next(old(Contents()), SpawnUid(sid, ch, uid), c)
    {
      if c.Fail? {
        return UndoUid(sid, ch, uid);
      }
      used := used + {c.ip};
      return SpawnIp(sid, ch, uid, c.ip);
    }

    method ReleaseIp(ip: nat)
      modifies this`used
      ensures used == old(used) - {ip}
    {
      used := used - {ip};
    }

    // -------------------------------------------------------------------------
    // Whole calls, run alone
    // -------------------------------------------------------------------------

    ghost predicate Valid()
      reads this
    {
      Quiet(Contents())
    }

    /** A failed Acquire's last two operations. */
    method Abandon(sid: string, ch: nat) returns (ghost cs: seq<Choice>)
      requires ch !in closed
      modifies this`inflight, this`closed
      ensures inflight == old(inflight) - {sid} && closed == old(closed) + {ch}
      ensures Alone(old(Contents()), FailDelete(sid, ch), cs, Contents(), Done(sid, None))
    {
      ghost var p := Contents();
      var pc := DropInflight(sid, ch);
      OneAlone(p, FailDelete(sid, ch), Go, Contents(), pc);
      ghost var q := Contents();
      pc := CloseChannel(sid, ch, None);
      OneAlone(q, CloseCh(sid, ch, None), Go, Contents(), pc);
      AloneJoins(p, FailDelete(sid, ch), [Go], q, CloseCh(sid, ch, None), [Go], Contents(), pc);
      cs := [Go] + [Go];
    }

    /** After a failed spawn the ticket goes back first. */
    method Refund(sid: string, ch: nat) returns (ghost cs: seq<Choice>)
      requires ch !in closed && tickets < max
      modifies this`inflight, this`closed, this`tickets
      ensures inflight == old(inflight) - {sid} && closed == old(closed) + {ch} && tickets == old(tickets) + 1
      ensures Alone(old(Contents()), SpawnFailed(sid, ch), cs, Contents(), Done(sid, None))
    {
      ghost var p := Contents();
      GiveTicket();
      OneAlone(p, SpawnFailed(sid, ch), Go, Contents(), FailDelete(sid, ch));
      ghost var q := Contents();
      cs := Abandon(sid, ch);
      AloneJoins(p, SpawnFailed(sid, ch), [Go], q, FailDelete(sid, ch), cs, Contents(), Done(sid, None));
      cs := [Go] + cs;
    }

    /** A successful Acquire's last three. */
    method Publish(sid: string, ch: nat, w: Worker) returns (ghost cs: seq<Choice>)
      requires ch !in closed
      modifies this`registry, this`inflight, this`closed, this`workers
      ensures workers == old(workers) + [w.id] && registry == old(registry)[sid := w]
      ensures inflight == old(inflight) - {sid} && closed == old(closed) + {ch}
      ensures Alone(old(Contents()), Wire(sid, ch, w), cs, Contents(), Done(sid, Some(w)))
    {
      ghost var p := Contents();
      var pc := WireWorker(sid, ch, w);
      OneAlone(p, Wire(sid, ch, w), Go, Contents(), pc);
      ghost var q := Contents();
      cs := PinAndClose(sid, ch, w);
      AloneJoins(p, Wire(sid, ch, w), [Go], q, Pin(sid, ch, w), cs, Contents(), Done(sid, Some(w)));
      cs := [Go] + cs;
    }

    method PinAndClose(sid: string, ch: nat, w: Worker) returns (ghost cs: seq<Choice>)
      requires ch !in closed
      modifies this`registry, this`inflight, this`closed
      ensures registry == old(registry)[sid := w]
      ensures inflight == old(inflight) - {sid} && closed == old(closed) + {ch}
      ensures Alone(old(Contents()), Pin(sid, ch, w), cs, Contents(), Done(sid, Some(w)))
    {
      ghost var p := Contents();
      var pc := PinWorker(sid, ch, w);
      OneAlone(p, Pin(sid, ch, w), Go, Contents(), pc);
      ghost var q := Contents();
      pc := CloseChannel(sid, ch, Some(w));
      OneAlone(q, CloseCh(sid, ch, Some(w)), Go, Contents(), pc);
      AloneJoins(p, Pin(sid, ch, w), [Go], q, CloseCh(sid, ch, Some(w)), [Go], Contents(), pc);
      cs := [Go] + [Go];
    }

    /** What a spawn is offered: an address, if its own Acquire finds one, and how its later calls go. */
    ghost predicate Offered(lease: Option<nat>)
      reads this
    {
      lease.Some? ==> lease.value < addresses && lease.value !in used
    }

    /** Spawn, as far as UIDs and addresses go: both taken, or both back. */
    method SpawnWorker(sid: string, ch: nat, lease: Option<nat>, ok: bool) returns (pc: Pc, ghost cs: seq<Choice>)
      requires uids.Bounded() && Offered(lease)
      modifies this`uids, this`used
      ensures Alone(old(Contents()), Spawning(sid, ch), cs, Contents(), pc)
      ensures uids.Bounded() && (uids.start, uids.size) == (old(uids).start, old(uids).size)
      ensures if old(uids).queue != [] && lease.Some? && ok
              then pc == Wire(sid, ch, Worker(sid, old(uids).queue[0], lease.value))
                   && uids.queue == old(uids).queue[1..] && used == old(used) + {lease.value}
              else pc == SpawnFailed(sid, ch)
                   && multiset(uids.queue) == multiset(old(uids).queue) && used == old(used)
    {
      ghost var p := Contents();
      pc := CheckoutUid(sid, ch);
      OneAlone(p, Spawning(sid, ch), Go, Contents(), pc);
      if pc.SpawnFailed? {
        cs := [Go];
        return;
      }
      var uid := pc.uid;
      ghost var q := Contents();
      pc, cs := SpawnLeased(sid, ch, uid, lease, ok);
      AloneJoins(p, Spawning(sid, ch), [Go], q, SpawnUid(sid, ch, uid), cs, Contents(), pc);
      cs := [Go] + cs;
      assert old(uids).queue == [uid] + old(uids).queue[1..];
    }

    method SpawnLeased(sid: string, ch: nat, uid: int, lease: Option<nat>, ok: bool)
      returns (pc: Pc, ghost cs: seq<Choice>)
      requires uids.Bounded() && uids.InRange(uid) && |uids.queue| < uids.size && Offered(lease)
      modifies this`uids, this`used
      ensures Alone(old(Contents()), SpawnUid(sid, ch, uid), cs, Contents(), pc)
      ensures if lease.Some? && ok
              then pc == Wire(sid, ch, Worker(sid, uid, lease.value))
                   && uids == old(uids) && used == old(used) + {lease.value}
              else pc == SpawnFailed(sid, ch)
                   && uids == old(uids).(queue := old(uids).queue + [uid]) && used == old(used)
    {
      ghost var p := Contents();
      var c := if lease.Some? then Lease(lease.value) else Fail;
      pc := LeaseIp(sid, ch, uid, c);
      OneAlone(p, SpawnUid(sid, ch, uid), c, Contents(), pc);
      ghost var q, qc := Contents(), pc;
      pc, cs := SpawnGuest(sid, ch, uid, pc, ok);
      AloneJoins(p, SpawnUid(sid, ch, uid), [c], q, qc, cs, Contents(), pc);
      cs := [c] + cs;
    }

    /** The rest of the spawn, or the rollback. */
    method SpawnGuest(sid: string, ch: nat, uid: int, from: Pc, ok: bool) returns (pc: Pc, ghost cs: seq<Choice>)
      requires uids.InRange(uid) && |uids.queue| < uids.size
      requires from == UndoUid(sid, ch, uid)
        || (from.SpawnIp? && from == SpawnIp(sid, ch, uid, from.ip) && from.ip in used)
      modifies this`uids, this`used
      ensures Alone(old(Contents()), from, cs, Contents(), pc)
      ensures if from.SpawnIp? && ok
              then pc == Wire(sid, ch, Worker(sid, uid, from.ip)) && uids == old(uids) && used == old(used)
              else pc == SpawnFailed(sid, ch) && uids == old(uids).(queue := old(uids).queue + [uid])
                   && used == if from.SpawnIp? then old(used) - {from.ip} else old(used)
    {
      ghost var p := Contents();
      cs := [];
      if from.SpawnIp? {
        if ok {
          pc := Wire(sid, ch, Worker(sid, uid, from.ip));
          OneAlone(p, from, Go, p, pc);
          return pc, [Go];
        }
        OneAlone(p, from, Fail, p, UndoIp(sid, ch, uid, from.ip));
        ReleaseIp(from.ip);
        OneAlone(p, UndoIp(sid, ch, uid, from.ip), Go, Contents(), UndoUid(sid, ch, uid));
        AloneJoins(p, from, [Fail], p, UndoIp(sid, ch, uid, from.ip), [Go], Contents(), UndoUid(sid, ch, uid));
        cs := [Fail] + [Go];
      }
      ghost var q := Contents();
      ReturnUid(uid);
      pc := SpawnFailed(sid, ch);
      OneAlone(q, UndoUid(sid, ch, uid), Go, Contents(), pc);
      AloneJoins(p, from, cs, q, UndoUid(sid, ch, uid), [Go], Contents(), pc);
      cs := cs + [Go];
    }

    /** Acquire from its new inflight entry on. */
    method Create(sid: string, ch: nat, lease: Option<nat>, ok: bool, cancelled: bool)
      returns (r: Option<Worker>, ghost cs: seq<Choice>)
      requires ch !in closed && tickets <= max && uids.Bounded() && Offered(lease)
      modifies this`registry, this`inflight, this`closed, this`workers, this`tickets, this`uids, this`used
      ensures Alone(old(Contents()), WantTicket(sid, ch), cs, Contents(), Done(sid, r))
      ensures inflight == old(inflight) - {sid} && closed == old(closed) + {ch}
      ensures uids.Bounded() && (uids.start, uids.size) == (old(uids).start, old(uids).size)
      ensures if old(tickets) > 0 && !cancelled && old(uids).queue != [] && lease.Some? && ok
              then r == Some(Worker(sid, old(uids).queue[0], lease.value)) && registry == old(registry)[sid := r.value]
                   && workers == old(workers) + [sid] && tickets == old(tickets) - 1
                   && uids.queue == old(uids).queue[1..] && used == old(used) + {lease.value}
              else r == None && registry == old(registry) && workers == old(workers) && tickets == old(tickets)
                   && multiset(uids.queue) == multiset(old(uids).queue) && used == old(used)
    {
      ghost var p := Contents();
      var c := if tickets == 0 || cancelled then Cancel else Go;
      var pc := TakeTicket(sid, ch, c);
      OneAlone(p, WantTicket(sid, ch), c, Contents(), pc);
      ghost var q, qc := Contents(), pc;
      if c == Cancel {
        cs := Abandon(sid, ch);
        r := None;
      } else {
        r, cs := SpawnAndPublish(sid, ch, lease, ok);
      }
      AloneJoins(p, WantTicket(sid, ch), [c], q, qc, cs, Contents(), Done(sid, r));
      cs := [c] + cs;
    }

    method SpawnAndPublish(sid: string, ch: nat, lease: Option<nat>, ok: bool)
      returns (r: Option<Worker>, ghost cs: seq<Choice>)
      requires ch !in closed && tickets < max && uids.Bounded() && Offered(lease)
      modifies this`registry, this`inflight, this`closed, this`workers, this`tickets, this`uids, this`used
      ensures Alone(old(Contents()), Spawning(sid, ch), cs, Contents(), Done(sid, r))
      ensures inflight == old(inflight) - {sid} && closed == old(closed) + {ch}
      ensures uids.Bounded() && (uids.start, uids.size) == (old(uids).start, old(uids).size)
      ensures if old(uids).queue != [] && lease.Some? && ok
              then r == Some(Worker(sid, old(uids).queue[0], lease.value)) && registry == old(registry)[sid := r.value]
                   && workers == old(workers) + [sid] && tickets == old(tickets)
                   && uids.queue == old(uids).queue[1..] && used == old(used) + {lease.value}
              else r == None && registry == old(registry) && workers == old(workers) && tickets == old(tickets) + 1
                   && multiset(uids.queue) == multiset(old(uids).queue) && used == old(used)
    {
      ghost var p := Contents();
      var pc;
      pc, cs := SpawnWorker(sid, ch, lease, ok);
      ghost var q, ds := Contents(), [];
      if pc.SpawnFailed? {
        ds := Refund(sid, ch);
        r := None;
      } else {
        ds := Publish(sid, ch, pc.w);
        r := Some(pc.w);
      }
      AloneJoins(p, Spawning(sid, ch), cs, q, pc, ds, Contents(), Done(sid, r));
      cs := cs + ds;
    }

    /** Acquire with no other thread moving and a context that ends: a run of the protocol's steps. */
    method Acquire(sid: string, lease: Option<nat>, ok: bool, cancelled: bool)
      returns (r: Option<Worker>, ghost cs: seq<Choice>)
      requires Valid() && Offered(lease)
      modifies this`registry, this`inflight, this`closed, this`nextCh, this`workers, this`tickets, this`uids, this`used
      ensures Valid() && Alone(old(Contents()), Lookup(sid), cs, Contents(), Done(sid, r))
      ensures Acquired(old(Contents()), sid, lease, ok && !cancelled, Contents(), r)
    {
      ghost var p := Contents();
      r, cs := AcquireSteps(sid, lease, ok, cancelled);
      AcquiredIsQuiet(p, sid, lease, ok && !cancelled, Contents(), r);
    }

    method AcquireSteps(sid: string, lease: Option<nat>, ok: bool, cancelled: bool)
      returns (r: Option<Worker>, ghost cs: seq<Choice>)
      requires Valid() && Offered(lease)
      modifies this`registry, this`inflight, this`closed, this`nextCh, this`workers, this`tickets, this`uids, this`used
      ensures Alone(old(Contents()), Lookup(sid), cs, Contents(), Done(sid, r))
      ensures Acquired(old(Contents()), sid, lease, ok && !cancelled, Contents(), r)
    {
      ghost var p := Contents();
      var pc := LookUp(sid);
      OneAlone(p, Lookup(sid), Go, Contents(), pc);
      if pc.Done? {
        return pc.result, [Go];
      }
      if pc.Waiting? {
        // nobody closes the channel: the context ends the wait
        OneAlone(p, pc, Cancel, p, Done(sid, None));
        AloneJoins(p, Lookup(sid), [Go], p, pc, [Cancel], p, Done(sid, None));
        return None, [Go] + [Cancel];
      }
      ghost var q := Contents();
      r, cs := Create(sid, pc.ch, lease, ok, cancelled);
      AloneJoins(p, Lookup(sid), [Go], q, pc, cs, Contents(), Done(sid, r));
      cs := [Go] + cs;
      assert inflight == old(inflight);
    }

    /** The factory's Close, as far as addresses and UIDs go. */
    method CloseWorker(w: Worker) returns (ghost cs: seq<Choice>)
      modifies this`used, this`uids
      ensures used == old(used) - {w.ip} && uids == old(uids).Return(w.uid).0
      ensures Alone(old(Contents()), Closing(w), cs, Contents(), Removing(w))
    {
      ghost var p := Contents();
      ReleaseIp(w.ip);
      OneAlone(p, Closing(w), Go, Contents(), ClosingUid(w));
      ghost var q := Contents();
      ReturnUid(w.uid);
      OneAlone(q, ClosingUid(w), Go, Contents(), Removing(w));
      AloneJoins(p, Closing(w), [Go], q, ClosingUid(w), [Go], Contents(), Removing(w));
      cs := [Go] + [Go];
    }

    /** A kill's last two operations. */
    method Retire(w: Worker) returns (ghost cs: seq<Choice>)
      requires tickets < max
      modifies this`workers, this`tickets
      ensures workers == Without(old(workers), w.id) && tickets == old(tickets) + 1
      ensures Alone(old(Contents()), Removing(w), cs, Contents(), PoolProtocol.Killed)
    {
      ghost var p := Contents();
      RemoveWorker(w);
      OneAlone(p, Removing(w), Go, Contents(), ReturnTicket(w));
      ghost var q := Contents();
      GiveTicket();
      OneAlone(q, ReturnTicket(w), Go, Contents(), PoolProtocol.Killed);
      AloneJoins(p, Removing(w), [Go], q, ReturnTicket(w), [Go], Contents(), PoolProtocol.Killed);
      cs := [Go] + [Go];
    }

    method CloseAndRetire(w: Worker) returns (ghost cs: seq<Choice>)
      requires tickets < max
      modifies this`workers, this`tickets, this`used, this`uids
      ensures workers == Without(old(workers), w.id) && tickets == old(tickets) + 1
      ensures used == old(used) - {w.ip} && uids == old(uids).Return(w.uid).0
      ensures Alone(old(Contents()), Closing(w), cs, Contents(), PoolProtocol.Killed)
    {
      ghost var p := Contents();
      cs := CloseWorker(w);
      ghost var q := Contents();
      ghost var ds := Retire(w);
      AloneJoins(p, Closing(w), cs, q, Removing(w), ds, Contents(), PoolProtocol.Killed);
      cs := cs + ds;
    }

    /** KillWorker with no other thread moving: a run of the protocol's steps. */
    method KillWorker(sid: string) returns (w: Option<Worker>, ghost cs: seq<Choice>)
      requires Valid()
      modifies this`registry, this`workers, this`tickets, this`uids, this`used
      ensures Valid() && Alone(old(Contents()), KillLookup(sid), cs, Contents(), PoolProtocol.Killed)
      ensures Unpinned(old(Contents()), sid, Contents(), w)
    {
      ghost var p := Contents();
      w, cs := KillSteps(sid);
      UnpinnedIsQuiet(p, sid, Contents(), w);
    }

    method KillSteps(sid: string) returns (w: Option<Worker>, ghost cs: seq<Choice>)
      requires Valid()
      modifies this`registry, this`workers, this`tickets, this`uids, this`used
      ensures Alone(old(Contents()), KillLookup(sid), cs, Contents(), PoolProtocol.Killed)
      ensures Unpinned(old(Contents()), sid, Contents(), w)
    {
      ghost var p := Contents();
      var pc := Unpin(sid);
      OneAlone(p, KillLookup(sid), Go, Contents(), pc);
      if pc.Killed? {
        return None, [Go];
      }
      w := Some(pc.w);
      ghost var q := Contents();
      SomePinned(p, sid);
      cs := CloseAndRetire(pc.w);
      AloneJoins(p, KillLookup(sid), [Go], q, pc, cs, Contents(), PoolProtocol.Killed);
      cs := [Go] + cs;
    }
  }

  lemma SomePinned(p: Pool, sid: string)
    requires Quiet(p) && sid in p.registry
    ensures p.tickets < p.max
  {
    UpdateInside(p.registry, sid, p.registry[sid]);
  }

  /** KillWorker undoes a successful Acquire. */
  method AcquireThenKill(pool: SessionPool, sid: string, ip: nat) returns (r: Option<Worker>)
    requires pool.Valid() && ip < pool.addresses && ip !in pool.used
    requires sid !in pool.registry && sid !in pool.inflight && sid !in pool.workers
    requires pool.tickets > 0 && pool.uids.queue != []
    modifies pool
    ensures pool.Valid() && r.Some? && r.value.id == sid
    ensures pool.registry == old(pool.registry) && pool.inflight == old(pool.inflight)
    ensures pool.workers == old(pool.workers) && pool.tickets == old(pool.tickets)
    ensures pool.used == old(pool.used) && multiset(pool.uids.queue) == multiset(old(pool.uids.queue))
  {
    ghost var p := pool.Contents();
    var acquired, cs := pool.Acquire(sid, Some(ip), true, false);
    ghost var q := pool.Contents();
    r, cs := pool.KillWorker(sid);
    KillUndoesAcquire(p, sid, ip, q, acquired.value, pool.Contents());
  }
}
