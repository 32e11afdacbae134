/** Runs of the pool protocol that show where its guarantees end: a pool with fewer UIDs than
    tickets runs out of UIDs, and a session can be acquired again while its killed worker closes. */
module PoolWitnesses {
  import opened Counting
  import opened PoolInvariant
  import opened PoolProtocol
  import opened PoolSafety
  import opened Wrappers

  /** A run by one step more. */
  lemma Extend(r: Run, l: Label, s: State) returns (r': Run)
    requires r.Valid() && Step(r.trace[|r.trace| - 1], l, s)
    ensures r' == r.(trace := r.trace + [s], labels := r.labels + [l]) && r'.Valid()
  {
    r' := r.(trace := r.trace + [s], labels := r.labels + [l]);
    forall i | 0 <= i < |r'.labels| ensures Step(r'.trace[i], r'.labels[i], r'.trace[i + 1]) {
      if i < |r.labels| {
        assert Step(r.trace[i], r.labels[i], r.trace[i + 1]);
      }
    }
  }

  /** A pinned worker of session id, on UID uid and address ip, by thread t of an otherwise idle pool. */
  lemma AcquireAlone(r: Run, t: Tid, id: string, ip: nat) returns (r': Run, pinning: State)
    requires r.Valid()
    requires var s := r.trace[|r.trace| - 1];
      t !in s.threads && id !in s.p.registry && id !in s.p.inflight && s.p.tickets > 0
      && s.p.uids.queue != [] && ip < s.p.addresses && ip !in s.p.used
    ensures r'.Valid() && pinning == r'.trace[|r'.trace| - 1]
    ensures (r'.max, r'.start, r'.size, r'.addresses) == (r.max, r.start, r.size, r.addresses)
    ensures var s, p := r.trace[|r.trace| - 1], pinning.p; var w := Worker(id, s.p.uids.queue[0], ip);
      && pinning.threads == s.threads[t := Pin(id, s.p.nextCh, w)]
      && p == s.p.(tickets := s.p.tickets - 1, inflight := s.p.inflight[id := s.p.nextCh], nextCh := s.p.nextCh + 1,
                   uids := s.p.uids.(queue := s.p.uids.queue[1..]), used := s.p.used + {ip},
                   workers := s.p.workers + [id])
  {
    var s := r.trace[|r.trace| - 1];
    var ch, uid := s.p.nextCh, s.p.uids.queue[0];
    var w := Worker(id, uid, ip);
    var p1 := s.p.(inflight := s.p.inflight[id := ch], nextCh := ch + 1);
    var p2 := p1.(tickets := p1.tickets - 1);
    var p3 := p2.(uids := p2.uids.(queue := p2.uids.queue[1..]));
    var p4 := p3.(used := p3.used + {ip});
    var p5 := p4.(workers := p4.workers + [id]);
    r' := Extend(r, Arrive(t, Lookup(id)), State(s.p, s.threads[t := Lookup(id)]));
    r' := Move(r', t, Go, p1, WantTicket(id, ch));
    r' := Move(r', t, Go, p2, Spawning(id, ch));
    r' := Move(r', t, Go, p3, SpawnUid(id, ch, uid));
    r' := Move(r', t, Lease(ip), p4, SpawnIp(id, ch, uid, ip));
    r' := Move(r', t, Go, p4, Wire(id, ch, w));
    r' := Move(r', t, Go, p5, Pin(id, ch, w));
    pinning := r'.trace[|r'.trace| - 1];
  }

  /** The run goes on by a step of thread t. */
  lemma Move(r: Run, t: Tid, c: Choice, p: Pool, pc: Pc) returns (r': Run)
    requires r.Valid()
    requires var s := r.trace[|r.trace| - 1];
      t in s.threads && Enabled(s.p, s.threads[t], c) && Next(s.p, s.threads[t], c) == (p, pc)
    ensures r'.Valid() && (r'.max, r'.start, r'.size, r'.addresses) == (r.max, r.start, r.size, r.addresses)
    ensures r'.trace[|r'.trace| - 1] == State(p, r.trace[|r.trace| - 1].threads[t := pc])
  {
    var s := r.trace[|r.trace| - 1];
    r' := Extend(r, Act(t, c), State(p, s.threads[t := pc]));
  }

  // ---------------------------------------------------------------------------
  // Two live workers of one ID
  // ---------------------------------------------------------------------------

  /** The thread has a worker of the session that still holds its UID, and its address if asked. */
  predicate HasLive(pc: Pc, sid: string, addressed: bool) {
    (pc.Wire? || pc.Pin? || pc.Closing? || (pc.ClosingUid? && !addressed)) && pc.w.id == sid
  }

  function LiveThreads(s: State, sid: string, addressed: bool): set<Tid> {
    set t | t in s.threads && HasLive(s.threads[t], sid, addressed)
  }

  /** The session's live workers: spawned and not pinned yet, pinned, or being closed. */
  function Live(s: State, sid: string, addressed: bool): nat {
    |LiveThreads(s, sid, addressed)| + Bit(sid in s.p.registry)
  }

  /** Kills of the session that are closing its worker. */
  function Ending(s: State, sid: string): set<Tid> {
    set t | t in s.threads && (s.threads[t].Closing? || s.threads[t].ClosingUid?) && s.threads[t].w.id == sid
  }

  lemma MakingIsCreating(r: Run, s: State, t: Tid, sid: string)
    requires Reached(r, s) && t in s.threads && (s.threads[t].Wire? || s.threads[t].Pin?) && s.threads[t].w.id == sid
    ensures Creating(s.threads[t]) == Some(sid) && sid !in s.p.registry
  {
    ReachedIsSound(r, s);
    assert Knows(s.p, s.threads[t]);
    OneCreator(r, s, t, t);
  }

  /** A session has at most one live worker besides those that kills are closing. */
  lemma OneLiveBesidesKills(r: Run, s: State, sid: string)
    requires Reached(r, s)
    ensures Live(s, sid, false) <= 1 + |Ending(s, sid)|
  {
    var making := LiveThreads(s, sid, false) - Ending(s, sid);
    assert LiveThreads(s, sid, false) == making + Ending(s, sid);
    forall t | t in making ensures Creating(s.threads[t]) == Some(sid) && sid !in s.p.registry {
      MakingIsCreating(r, s, t, sid);
    }
    if making != {} {
      var t :| t in making;
      forall u | u in making ensures u == t {
        OneCreator(r, s, t, u);
      }
      assert making == {t};
    }
  }

  lemma LiveHold<K(!new)>(s: State, sid: string, addressed: bool, fT: Pc -> Option<K>, fR: Worker -> Option<K>)
    requires forall pc :: HasLive(pc, sid, addressed) ==> fT(pc).Some?
    requires forall w :: fR(w).Some?
    ensures Live(s, sid, addressed) <= Total(s, Has(fT), Has(fR))
  {
    var live: Pc -> nat := pc => if HasLive(pc, sid, addressed) then 1 else 0;
    SumCounts(s.threads, live);
    assert Ones(s.threads, live) == LiveThreads(s, sid, addressed);
    forall pc ensures live(pc) <= Has(fT)(pc) {
      assert HasLive(pc, sid, addressed) ==> fT(pc).Some?;
    }
    SumMonotone(s.threads, Has(fT), live);
    if sid in s.p.registry {
      SumMember(s.p.registry, sid, Has(fR));
    }
  }

  lemma {:induction false} Within(used: set<nat>, n: nat)
    requires forall x :: x in used ==> x < n
    ensures |used| <= n
    decreases n
  {
    if used != {} && n > 0 {
      Within(used - {n - 1}, n - 1);
    }
  }

  /** The thread's spawn has, or had, an address. */
  predicate HadAddress(pc: Pc) {
    pc.SpawnIp? || pc.UndoIp? || pc.Wire? || pc.Pin? || pc.Closing? || pc.ClosingUid?
  }

  ghost predicate Addressless(s: State) {
    s.p.addresses == 0 ==> s.p.registry == map[] && forall t :: t in s.threads ==> !HadAddress(s.threads[t])
  }

  lemma {:induction false} AddresslessInRun(r: Run, i: nat)
    requires r.Valid() && i < |r.trace|
    ensures Addressless(r.trace[i])
    decreases i
  {
    if i > 0 {
      AddresslessInRun(r, i - 1);
      assert Step(r.trace[i - 1], r.labels[i - 1], r.trace[i - 1 + 1]);
      AddresslessStep(r.trace[i - 1], r.labels[i - 1], r.trace[i]);
    }
  }

  lemma AddresslessStep(s: State, l: Label, s': State)
    requires Step(s, l, s') && Addressless(s)
    ensures Addressless(s')
  {
    if l.Act? {
      RegistryEffect(s, l.t, l.c, s');
    }
  }

  /** What a pool must have for two workers of one ID to be live at once. */
  predicate RoomForTwo(max: nat, size: nat, addresses: nat, addressed: bool) {
    max >= 2 && size >= 2 && addresses >= if addressed then 2 else 1
  }

  lemma TwoNeedRoom(r: Run, s: State, sid: string, addressed: bool)
    requires Reached(r, s) && Live(s, sid, addressed) >= 2
    ensures RoomForTwo(r.max, r.size, r.addresses, addressed)
  {
    ReachedIsSound(r, s);
    LiveHold(s, sid, addressed, TicketIn, WTicket);
    LiveHold(s, sid, addressed, UidIn, WUid);
    if addressed {
      LiveHold(s, sid, addressed, IpIn, WIp);
      Within(s.p.used, s.p.addresses);
    } else {
      var i :| 0 <= i < |r.trace| && r.trace[i] == s;
      AddresslessInRun(r, i);
      AddresslessHasNone(s, sid, addressed);
    }
  }

  lemma AddresslessHasNone(s: State, sid: string, addressed: bool)
    requires Addressless(s)
    ensures s.p.addresses == 0 ==> Live(s, sid, addressed) == 0
  {
    assert s.p.addresses == 0 ==> forall t :: t !in LiveThreads(s, sid, addressed);
  }

  /** Thread 0 has pinned a worker, and thread 1 has unpinned it and begun to close it. */
  lemma AcquiredThenKilled(id: string, max: nat, start: int, size: nat, addresses: nat) returns (r: Run, s: State)
    requires max >= 2 && size >= 2 && addresses >= 1
    ensures r.Valid() && (r.max, r.start, r.size, r.addresses) == (max, start, size, addresses)
    ensures s == r.trace[|r.trace| - 1] && s.threads.Keys == {0, 1}
    ensures s.threads[1].Closing? && s.threads[1].w.id == id && s.threads[1].w.ip == 0
    ensures s.p.registry == map[] && s.p.inflight == map[] && s.p.used == {0} && s.p.addresses == addresses
    ensures s.p.tickets == max - 1 && s.p.uids.queue != []
  {
    r := Run(max, start, size, addresses, [Initial(max, start, size, addresses)], []);
    r, s := AcquireAlone(r, 0, id, 0);
    var w := s.threads[0].w;
    var pinned := s.p.(registry := map[id := w], inflight := map[]);
    r := Move(r, 0, Go, pinned, CloseCh(id, s.threads[0].ch, Some(w)));
    s := r.trace[|r.trace| - 1];
    r := Extend(r, Arrive(1, KillLookup(id)), State(s.p, s.threads[1 := KillLookup(id)]));
    r := Move(r, 1, Go, pinned.(registry := map[]), Closing(w));
    s := r.trace[|r.trace| - 1];
  }

  /** KillWorker unpins before it closes, and Acquire asks only the registry: thread 1 is closing a
      worker of the session while thread 2 is pinning another. */
  lemma SessionRespawns(id: string, max: nat, start: int, size: nat, addresses: nat, addressed: bool)
    returns (r: Run, s: State)
    requires RoomForTwo(max, size, addresses, addressed)
    ensures Reached(r, s) && (r.max, r.start, r.size, r.addresses) == (max, start, size, addresses)
    ensures Live(s, id, addressed) >= 2
  {
    r, s := AcquiredThenKilled(id, max, start, size, addresses);
    if addressed {
      r, s := AcquireAlone(r, 2, id, 1);
    } else {
      r := Move(r, 1, Go, s.p.(used := s.p.used - {0}), ClosingUid(s.threads[1].w));
      r, s := AcquireAlone(r, 2, id, 0);
    }
    assert {1, 2} <= LiveThreads(s, id, addressed);
    AtLeastTwo(LiveThreads(s, id, addressed), 1, 2);
  }

  lemma AtLeastTwo(threads: set<Tid>, t: Tid, u: Tid)
    requires t in threads && u in threads && t != u
    ensures |threads| >= 2
  {
    assert |threads - {t} - {u}| == |threads| - 2;
  }

  /** Some run has two live workers of one ID if and only if there is room for two: two tickets, two
      UIDs, and an address, or two if both are to hold one. */
  lemma TwoLiveIff(max: nat, start: int, size: nat, addresses: nat, addressed: bool)
    ensures RoomForTwo(max, size, addresses, addressed) <==>
      exists r, s, sid :: Reached(r, s) && Live(s, sid, addressed) >= 2
                          && (r.max, r.start, r.size, r.addresses) == (max, start, size, addresses)
  {
    if RoomForTwo(max, size, addresses, addressed) {
      var r, s := SessionRespawns("", max, start, size, addresses, addressed);
    }
    forall r, s, sid | Reached(r, s) && Live(s, sid, addressed) >= 2
      ensures RoomForTwo(r.max, r.size, r.addresses, addressed)
    {
      TwoNeedRoom(r, s, sid, addressed);
    }
  }

  // ---------------------------------------------------------------------------
  // Running out of UIDs and of addresses
  // ---------------------------------------------------------------------------

  /** Sessions as many as there are numbers. */
  function Name(i: nat): string {
    seq(i, _ => 'a')
  }

  /** Threads 0 to k-1 hold a ticket and a UID each, and an address if asked, for sessions of their
      own, and nothing else is held. */
  ghost predicate Holding(s: State, max: nat, size: nat, addresses: nat, leased: bool, k: nat) {
    && k <= max && k <= size && (leased ==> k <= addresses)
    && (forall t: Tid :: t in s.threads <==> t < k)
    && (s.p.max, s.p.tickets, s.p.nextCh, s.p.addresses) == (max, max - k, k, addresses)
    && s.p.uids.size == size && |s.p.uids.queue| == size - k
    && (forall ip: nat :: ip in s.p.used <==> leased && ip < k)
    && s.p.registry == map[] && forall id :: id in s.p.inflight ==> |id| < k
  }

  /** One more thread, up to the point where it takes a UID. */
  lemma ReachSpawning(r: Run, max: nat, size: nat, addresses: nat, leased: bool, k: nat) returns (r': Run)
    requires r.Valid() && k < max && Holding(r.trace[|r.trace| - 1], max, size, addresses, leased, k)
    ensures r'.Valid() && (r'.max, r'.start, r'.size, r'.addresses) == (r.max, r.start, r.size, r.addresses)
    ensures var s, p := r'.trace[|r'.trace| - 1], r.trace[|r.trace| - 1].p;
      && s.threads == r.trace[|r.trace| - 1].threads[k := Spawning(Name(k), k)]
      && s.p == p.(tickets := p.tickets - 1, inflight := p.inflight[Name(k) := k], nextCh := k + 1)
  {
    var s := r.trace[|r.trace| - 1];
    var p1 := s.p.(inflight := s.p.inflight[Name(k) := k], nextCh := k + 1);
    r' := Extend(r, Arrive(k, Lookup(Name(k))), State(s.p, s.threads[k := Lookup(Name(k))]));
    r' := Move(r', k, Go, p1, WantTicket(Name(k), k));
    r' := Move(r', k, Go, p1.(tickets := p1.tickets - 1), Spawning(Name(k), k));
    assert s.threads[k := Lookup(Name(k))][k := WantTicket(Name(k), k)][k := Spawning(Name(k), k)]
        == s.threads[k := Spawning(Name(k), k)];
  }

  lemma {:induction false} HoldMany(max: nat, start: int, size: nat, addresses: nat, leased: bool, k: nat)
    returns (r: Run)
    requires k <= max && k <= size && (leased ==> k <= addresses)
    ensures r.Valid() && (r.max, r.start, r.size, r.addresses) == (max, start, size, addresses)
    ensures Holding(r.trace[|r.trace| - 1], max, size, addresses, leased, k)
    decreases k
  {
    if k == 0 {
      r := Run(max, start, size, addresses, [Initial(max, start, size, addresses)], []);
    } else {
      r := HoldMany(max, start, size, addresses, leased, k - 1);
      r := ReachSpawnUid(r, max, size, addresses, leased, k - 1);
      if leased {
        var s := r.trace[|r.trace| - 1];
        var uid := s.threads[k - 1].uid;
        r := Move(r, k - 1, Lease(k - 1), s.p.(used := s.p.used + {k - 1}), SpawnIp(Name(k - 1), k - 1, uid, k - 1));
      }
    }
  }

  /** One more thread, up to the point where it wants an address. */
  lemma ReachSpawnUid(r: Run, max: nat, size: nat, addresses: nat, leased: bool, k: nat) returns (r': Run)
    requires r.Valid() && k < max && k < size && Holding(r.trace[|r.trace| - 1], max, size, addresses, leased, k)
    ensures r'.Valid() && (r'.max, r'.start, r'.size, r'.addresses) == (r.max, r.start, r.size, r.addresses)
    ensures var s, p, uids := r'.trace[|r'.trace| - 1], r.trace[|r.trace| - 1].p, r.trace[|r.trace| - 1].p.uids;
      && s.threads == r.trace[|r.trace| - 1].threads[k := SpawnUid(Name(k), k, uids.queue[0])]
      && s.p == p.(tickets := p.tickets - 1, inflight := p.inflight[Name(k) := k], nextCh := k + 1,
                   uids := uids.(queue := uids.queue[1..]))
  {
    r' := ReachSpawning(r, max, size, addresses, leased, k);
    var s := r'.trace[|r'.trace| - 1];
    r' := Move(r', k, Go, s.p.(uids := s.p.uids.Checkout().0), SpawnUid(Name(k), k, s.p.uids.queue[0]));
    assert s.threads[k := SpawnUid(Name(k), k, s.p.uids.queue[0])]
        == r.trace[|r.trace| - 1].threads[k := SpawnUid(Name(k), k, s.p.uids.queue[0])];
  }

  /** A spawn is about to find no UID. */
  ghost predicate NoUid(s: State, t: Tid) {
    t in s.threads && s.threads[t].Spawning? && s.p.uids.queue == []
  }

  /** A spawn is about to find no address. */
  ghost predicate NoAddress(s: State, t: Tid) {
    t in s.threads && s.threads[t].SpawnUid? && forall ip :: !Enabled(s.p, s.threads[t], Lease(ip))
  }

  /** Some run lets Checkout find no UID if and only if there are fewer UIDs than tickets. */
  lemma UidsExhaustIff(max: nat, start: int, size: nat, addresses: nat)
    ensures size < max <==>
      exists r, s, t :: Reached(r, s) && NoUid(s, t)
                        && (r.max, r.start, r.size, r.addresses) == (max, start, size, addresses)
  {
    if size < max {
      var r := HoldMany(max, start, size, addresses, false, size);
      r := ReachSpawning(r, max, size, addresses, false, size);
      var s := r.trace[|r.trace| - 1];
      assert Reached(r, s) && NoUid(s, size);
    }
    forall r, s, t | Reached(r, s) && NoUid(s, t) ensures r.size < r.max {
      if r.size >= r.max {
        CheckoutNeverExhausts(r, s, t);
      }
    }
  }

  /** Some run lets the address allocator find no address if and only if there are fewer addresses
      than tickets and fewer than UIDs. */
  lemma AddressesExhaustIff(max: nat, start: int, size: nat, addresses: nat)
    ensures addresses < max && addresses < size <==>
      exists r, s, t :: Reached(r, s) && NoAddress(s, t)
                        && (r.max, r.start, r.size, r.addresses) == (max, start, size, addresses)
  {
    if addresses < max && addresses < size {
      var r := HoldMany(max, start, size, addresses, true, addresses);
      r := ReachSpawnUid(r, max, size, addresses, true, addresses);
      var s := r.trace[|r.trace| - 1];
      assert Reached(r, s) && NoAddress(s, addresses);
    }
    forall r, s, t | Reached(r, s) && NoAddress(s, t) ensures r.addresses < r.max && r.addresses < r.size {
      NoAddressMeansFew(r, s, t);
    }
  }

  lemma NoAddressMeansFew(r: Run, s: State, t: Tid)
    requires Reached(r, s) && NoAddress(s, t)
    ensures r.addresses < r.max && r.addresses < r.size
  {
    ReachedIsSound(r, s);
    OneMoreHeld(s, t, IpIn, WIp, TicketIn, WTicket);
    OneMoreHeld(s, t, IpIn, WIp, UidIn, WUid);
    forall ip: nat | ip < s.p.addresses ensures ip in s.p.used {
      assert !Enabled(s.p, s.threads[t], Lease(ip));
    }
    AllBelow(s.p.used, s.p.addresses);
  }

  lemma {:induction false} AllBelow(used: set<nat>, n: nat)
    requires forall ip: nat :: ip < n ==> ip in used
    ensures |used| >= n
    decreases n
  {
    if n > 0 {
      AllBelow(used - {n - 1}, n - 1);
    }
  }
}
