/** What holds in every state that a run of the pool protocol reaches, whatever the number of
    threads and sessions and however their steps interleave. */
module PoolSafety {
  import opened Counting
  import opened PoolInvariant
  import opened PoolProtocol
  import opened Wrappers
  import UidPool

  // ---------------------------------------------------------------------------
  // The laws hold in every reachable state
  // ---------------------------------------------------------------------------

  lemma InitialInv(max: nat, start: int, size: nat, addresses: nat)
    ensures Inv(Initial(max, start, size, addresses))
  {
    var s := Initial(max, start, size, addresses);
    forall u ensures multiset(s.p.uids.queue)[u] == if s.p.uids.InRange(u) then 1 else 0 {
      UidPool.AscendingOnce(start, size, u);
    }
    assert UidLaw(s);
  }

  /** A new call holds nothing, so no count changes. */
  lemma ArrivalKeepsSums<K(!new)>(s: State, t: Tid, call: Pc, s': State, fT: Pc -> Option<K>)
    requires Step(s, Arrive(t, call), s') && fT(call).None?
    ensures Sum(s'.threads, Has(fT)) == Sum(s.threads, Has(fT))
    ensures forall k :: Sum(s'.threads, Is(fT, k)) == Sum(s.threads, Is(fT, k))
  {
    SumUpdate(s.threads, t, call, Has(fT));
    forall k ensures Sum(s'.threads, Is(fT, k)) == Sum(s.threads, Is(fT, k)) {
      SumUpdate(s.threads, t, call, Is(fT, k));
    }
  }

  lemma ArrivalKeepsTotals<K(!new)>(s: State, t: Tid, call: Pc, s': State, fT: Pc -> Option<K>, fR: Worker -> Option<K>)
    requires Step(s, Arrive(t, call), s') && fT(call).None?
    ensures Total(s', Has(fT), Has(fR)) == Total(s, Has(fT), Has(fR))
    ensures forall k :: Total(s', Is(fT, k), Is(fR, k)) == Total(s, Is(fT, k), Is(fR, k))
  {
    ArrivalKeepsSums(s, t, call, s', fT);
  }

  lemma ArriveKeepsResources(s: State, t: Tid, call: Pc, s': State)
    requires Inv(s) && Step(s, Arrive(t, call), s')
    ensures TicketLaw(s') && UidLaw(s') && IpLaw(s') && WorkerLaw(s')
  {
    ArrivalKeepsTotals(s, t, call, s', TicketIn, WTicket);
    ArrivalKeepsTotals(s, t, call, s', UidIn, WUid);
    ArrivalKeepsTotals(s, t, call, s', IpIn, WIp);
    ArrivalKeepsTotals(s, t, call, s', WiredAs, WId);
  }

  lemma ArriveKeeps(s: State, t: Tid, call: Pc, s': State)
    requires Inv(s) && Step(s, Arrive(t, call), s')
    ensures Inv(s')
  {
    ArriveKeepsResources(s, t, call, s');
    ArrivalKeepsSums(s, t, call, s', Owns);
    ArrivalKeepsSums(s, t, call, s', Creating);
  }

  lemma ActKeeps(s: State, t: Tid, c: Choice, s': State)
    requires Inv(s) && Step(s, Act(t, c), s')
    ensures Inv(s')
  {
    TicketsKept(s, t, c, s');
    UidsKept(s, t, c, s');
    IpsKept(s, t, c, s');
    WorkersKept(s, t, c, s');
    ChannelsKept(s, t, c, s');
    InflightKept(s, t, c, s');
    ThreadsKept(s, t, c, s');
  }

  lemma StepKeeps(s: State, l: Label, s': State)
    requires Inv(s) && Step(s, l, s')
    ensures Inv(s')
  {
    match l
    case Arrive(t, call) => ArriveKeeps(s, t, call, s');
    case Act(t, c) => ActKeeps(s, t, c, s');
  }

  /** A run of a new pool. */
  datatype Run = Run(max: nat, start: int, size: nat, addresses: nat, trace: seq<State>, labels: seq<Label>) {
    ghost predicate Valid() {
      IsRun(trace, labels) && trace[0] == Initial(max, start, size, addresses)
    }
  }

  /** The laws, and the settings as they were given. */
  ghost predicate Sound(r: Run, s: State) {
    Inv(s) && (s.p.max, s.p.addresses, s.p.uids.start, s.p.uids.size) == (r.max, r.addresses, r.start, r.size)
  }

  lemma NextKeepsSettings(p: Pool, pc: Pc, c: Choice)
    requires Enabled(p, pc, c)
    ensures var p' := Next(p, pc, c).0;
      p'.max == p.max && p'.addresses == p.addresses && p'.uids.start == p.uids.start && p'.uids.size == p.uids.size
  {
  }

  lemma StepKeepsSettings(s: State, l: Label, s': State)
    requires Step(s, l, s')
    ensures s'.p.max == s.p.max && s'.p.addresses == s.p.addresses
    ensures s'.p.uids.start == s.p.uids.start && s'.p.uids.size == s.p.uids.size
  {
    if l.Act? {
      NextKeepsSettings(s.p, s.threads[l.t], l.c);
    }
  }

  lemma SoundStep(r: Run, s: State, l: Label, s': State)
    requires Sound(r, s) && Step(s, l, s')
    ensures Sound(r, s')
  {
    StepKeepsSettings(s, l, s');
    assert Inv(s') by { StepKeeps(s, l, s'); }
  }

  lemma {:induction false} RunKeeps(r: Run, i: nat)
    requires r.Valid() && i < |r.trace|
    ensures Sound(r, r.trace[i])
    decreases i
  {
    if i == 0 {
      InitialInv(r.max, r.start, r.size, r.addresses);
    } else {
      RunKeeps(r, i - 1);
      assert Step(r.trace[i - 1], r.labels[i - 1], r.trace[i - 1 + 1]);
      SoundStep(r, r.trace[i - 1], r.labels[i - 1], r.trace[i]);
    }
  }

  ghost predicate Reached(r: Run, s: State) {
    r.Valid() && s in r.trace
  }

  lemma ReachedIsSound(r: Run, s: State)
    requires Reached(r, s)
    ensures Sound(r, s)
  {
    var i :| 0 <= i < |r.trace| && r.trace[i] == s;
    RunKeeps(r, i);
  }

  // ---------------------------------------------------------------------------
  // Singleflight
  // ---------------------------------------------------------------------------

  /** At most one thread creates for a session, none for a pinned one; so Put never overwrites a pin. */
  lemma OneCreator(r: Run, s: State, j: Tid, k: Tid)
    requires Reached(r, s)
    requires j in s.threads && k in s.threads
    requires Creating(s.threads[j]).Some? && Creating(s.threads[j]) == Creating(s.threads[k])
    ensures j == k
    ensures Creating(s.threads[j]).value in s.p.inflight && Creating(s.threads[j]).value !in s.p.registry
  {
    ReachedIsSound(r, s);
    assert Knows(s.p, s.threads[j]);
    if j != k {
      SumPair(s.threads, j, k, Is(Creating, Creating(s.threads[j]).value));
      assert false;
    }
  }

  lemma PinAndInflightApart(r: Run, s: State)
    requires Reached(r, s)
    ensures s.p.registry.Keys !! s.p.inflight.Keys
  {
    ReachedIsSound(r, s);
  }

  /** A thread about to close its channel finds it open, out of the inflight table and its own. */
  lemma ClosedOnce(r: Run, s: State, t: Tid)
    requires Reached(r, s) && t in s.threads && s.threads[t].CloseCh?
    ensures s.threads[t].ch !in s.p.closed && s.threads[t].ch !in s.p.inflight.Values
    ensures forall k :: k in s.threads && Owns(s.threads[k]) == Some(s.threads[t].ch) ==> k == t
  {
    ReachedIsSound(r, s);
    var ch := s.threads[t].ch;
    assert Owns(s.threads[t]) == Some(ch);
    SumMember(s.threads, t, Is(Owns, ch));
    forall k | k in s.threads && k != t ensures Owns(s.threads[k]) != Some(ch) {
      SumPair(s.threads, t, k, Is(Owns, ch));
    }
    forall sid | sid in s.p.inflight ensures s.p.inflight[sid] != ch {
      var k := SumWitness(s.threads, Is(Creating, sid));
      assert Is(Creating, sid)(s.threads[k]) == 1 && Knows(s.p, s.threads[k]);
    }
  }

  /** No channel in the inflight table is closed. */
  lemma InflightOpen(r: Run, s: State)
    requires Reached(r, s)
    ensures s.p.inflight.Values !! s.p.closed
  {
    ReachedIsSound(r, s);
    forall sid | sid in s.p.inflight ensures s.p.inflight[sid] !in s.p.closed {
      InflightIsOpen(s, sid);
    }
  }

  /** No lost wakeup: a waiter's channel is closed, or some thread has yet to close it. */
  lemma NoLostWakeup(r: Run, s: State, t: Tid) returns (owner: Tid)
    requires Reached(r, s) && t in s.threads && s.threads[t].Waiting?
    ensures s.threads[t].ch !in s.p.closed ==> owner in s.threads && Owns(s.threads[owner]) == Some(s.threads[t].ch)
  {
    ReachedIsSound(r, s);
    var ch := s.threads[t].ch;
    assert Knows(s.p, s.threads[t]);
    owner := t;
    if ch !in s.p.closed {
      owner := SumWitness(s.threads, Is(Owns, ch));
      assert Is(Owns, ch)(s.threads[owner]) == 1;
    }
  }

  /** An Acquire of the session that has its worker. */
  predicate Served(pc: Pc, sid: string) {
    (pc.Done? || pc.CloseCh?) && pc.sid == sid && pc.result.Some?
  }

  /** Every Acquire served for the session, but for those served before, has the pinned worker. */
  ghost predicate Agree(s: State, sid: string, before: set<Tid>) {
    forall t :: t in s.threads && t !in before && Served(s.threads[t], sid)
                ==> sid in s.p.registry && s.p.registry[sid] == s.threads[t].result.value
  }

  predicate Kills(s: State, l: Label, sid: string) {
    l.Act? && l.t in s.threads && s.threads[l.t] == KillLookup(sid)
  }

  /** A thread is served with the pinned worker, or pins the worker it is served with. */
  lemma ServedEffect(s: State, t: Tid, c: Choice, s': State, sid: string)
    requires Step(s, Act(t, c), s') && Served(s'.threads[t], sid)
    ensures var pc, pc' := s.threads[t], s'.threads[t];
      || (Served(pc, sid) && pc'.result == pc.result && s'.p.registry == s.p.registry)
      || (pc == Lookup(sid) && sid in s.p.registry && pc'.result == Some(s.p.registry[sid])
          && s'.p.registry == s.p.registry)
      || (pc.Pin? && pc.sid == sid && s'.p.registry == s.p.registry[sid := pc.w] && pc'.result == Some(pc.w))
  {
  }

  lemma AgreeStep(s: State, l: Label, s': State, sid: string, before: set<Tid>)
    requires ThreadLaw(s) && Step(s, l, s') && Agree(s, sid, before) && !Kills(s, l, sid)
    ensures Agree(s', sid, before)
  {
    if l.Act? {
      var pc := s.threads[l.t];
      assert Knows(s.p, pc);
      RegistryEffect(s, l.t, l.c, s');
      if Served(s'.threads[l.t], sid) {
        ServedEffect(s, l.t, l.c, s', sid);
      }
    }
  }

  /** Acquires of the session served by the time of a state. */
  function ServedIn(s: State, sid: string): set<Tid> {
    set t | t in s.threads && Served(s.threads[t], sid)
  }

  lemma PinStays(s: State, l: Label, s': State, sid: string)
    requires ThreadLaw(s) && Step(s, l, s') && !Kills(s, l, sid) && sid in s.p.registry
    ensures sid in s'.p.registry && s'.p.registry[sid] == s.p.registry[sid]
  {
    if l.Act? {
      assert Knows(s.p, s.threads[l.t]);
      RegistryEffect(s, l.t, l.c, s');
    }
  }

  ghost predicate PinnedTo(s: State, sid: string, w: Worker) {
    sid in s.p.registry && s.p.registry[sid] == w
  }

  /** From state i to state j of the run no step kills the session. */
  ghost predicate KillFree(r: Run, i: nat, j: nat, sid: string) {
    r.Valid() && i <= j < |r.trace| && forall h :: i <= h < j ==> !Kills(r.trace[h], r.labels[h], sid)
  }

  lemma AgreeAt(r: Run, i: nat, sid: string, before: set<Tid>)
    requires KillFree(r, i, i + 1, sid) && Agree(r.trace[i], sid, before)
    ensures Agree(r.trace[i + 1], sid, before)
  {
    RunKeeps(r, i);
    assert Step(r.trace[i], r.labels[i], r.trace[i + 1]) && !Kills(r.trace[i], r.labels[i], sid);
    AgreeStep(r.trace[i], r.labels[i], r.trace[i + 1], sid, before);
  }

  lemma PinStaysAt(r: Run, i: nat, sid: string, w: Worker)
    requires KillFree(r, i, i + 1, sid) && PinnedTo(r.trace[i], sid, w)
    ensures PinnedTo(r.trace[i + 1], sid, w)
  {
    RunKeeps(r, i);
    assert Step(r.trace[i], r.labels[i], r.trace[i + 1]) && !Kills(r.trace[i], r.labels[i], sid);
    PinStays(r.trace[i], r.labels[i], r.trace[i + 1], sid);
  }

  lemma {:induction false} AgreeInRun(r: Run, i: nat, j: nat, sid: string, before: set<Tid>)
    requires KillFree(r, i, j, sid) && Agree(r.trace[i], sid, before)
    ensures Agree(r.trace[j], sid, before)
    decreases j - i
  {
    if i < j {
      AgreeAt(r, i, sid, before);
      AgreeInRun(r, i + 1, j, sid, before);
    }
  }

  lemma {:induction false} PinStaysInRun(r: Run, i: nat, j: nat, sid: string, w: Worker)
    requires KillFree(r, i, j, sid) && PinnedTo(r.trace[i], sid, w)
    ensures PinnedTo(r.trace[j], sid, w)
    decreases j - i
  {
    if i < j {
      PinStaysAt(r, i, sid, w);
      PinStaysInRun(r, i + 1, j, sid, w);
    }
  }

  /** Over any stretch of a run without a kill of the session, all Acquires of it that are served in
      the stretch return one worker: the one pinned at its end, and at its start if one was. */
  lemma OneWorkerPerSession(r: Run, i: nat, j: nat, sid: string, t: Tid, u: Tid)
    requires KillFree(r, i, j, sid)
    requires t in ServedIn(r.trace[j], sid) - ServedIn(r.trace[i], sid)
    requires u in ServedIn(r.trace[j], sid) - ServedIn(r.trace[i], sid)
    ensures r.trace[j].threads[t].result == r.trace[j].threads[u].result
    ensures sid in r.trace[j].p.registry && Some(r.trace[j].p.registry[sid]) == r.trace[j].threads[t].result
    ensures sid in r.trace[i].p.registry ==> r.trace[j].threads[t].result == Some(r.trace[i].p.registry[sid])
  {
    AgreeInRun(r, i, j, sid, ServedIn(r.trace[i], sid));
    if sid in r.trace[i].p.registry {
      PinStaysInRun(r, i, j, sid, r.trace[i].p.registry[sid]);
    }
  }

  // ---------------------------------------------------------------------------
  // Tickets and the worker list
  // ---------------------------------------------------------------------------

  /** Acquires between taking a ticket and giving it back or pinning. */
  function Spawners(s: State): set<Tid> {
    set t | t in s.threads && Creating(s.threads[t]).Some? && TicketIn(s.threads[t]).Some?
  }

  /** Kills between unpinning and giving the ticket back. */
  function Killers(s: State): set<Tid> {
    set t | t in s.threads && Creating(s.threads[t]).None? && TicketIn(s.threads[t]).Some?
  }

  /** Tickets in the channel, spawning Acquires, pinned sessions and kills in progress add up to max. */
  lemma TicketsConserved(r: Run, s: State)
    requires Reached(r, s)
    ensures s.p.tickets + |Spawners(s)| + |s.p.registry| + |Killers(s)| == r.max
  {
    ReachedIsSound(r, s);
    HolderCount(s);
    PinsHoldTickets(s.p.registry);
  }

  lemma PinsHoldTickets(registry: map<string, Worker>)
    ensures Sum(registry, Has(WTicket)) == |registry|
  {
    forall k | k in registry ensures Has(WTicket)(registry[k]) == 1 {
      assert WTicket(registry[k]) == Some(());
    }
    SumOnes(registry, Has(WTicket));
  }

  lemma HolderCount(s: State)
    ensures Sum(s.threads, Has(TicketIn)) == |Spawners(s)| + |Killers(s)|
  {
    SumCounts(s.threads, Has(TicketIn));
    var holders := Ones(s.threads, Has(TicketIn));
    assert forall t :: t in holders <==> t in s.threads && TicketIn(s.threads[t]).Some?;
    assert holders == Spawners(s) + Killers(s);
  }

  /** Giving a ticket back never blocks. */
  lemma SendsNeverBlock(r: Run, s: State, t: Tid)
    requires Reached(r, s) && t in s.threads && (s.threads[t].SpawnFailed? || s.threads[t].ReturnTicket?)
    ensures Enabled(s.p, s.threads[t], Go)
  {
    ReachedIsSound(r, s);
    Holder(s, t, TicketIn, WTicket);
  }

  /** What is held only with a ticket is held by at most as many. */
  lemma HeldWithTicket<K(!new)>(s: State, fT: Pc -> Option<K>, fR: Worker -> Option<K>)
    requires TicketLaw(s)
    requires forall pc :: fT(pc).Some? ==> TicketIn(pc).Some?
    ensures Total(s, Has(fT), Has(fR)) + s.p.tickets <= s.p.max
  {
    forall pc ensures Has(fT)(pc) <= Has(TicketIn)(pc) {
      assert fT(pc).Some? ==> TicketIn(pc).Some?;
    }
    SumMonotone(s.threads, Has(TicketIn), Has(fT));
    forall w ensures Has(fR)(w) <= Has(WTicket)(w) {
      assert WTicket(w).Some?;
    }
    SumMonotone(s.p.registry, Has(WTicket), Has(fR));
  }

  /** When what is held comes only with something else, a thread that has only that makes a difference. */
  lemma OneMoreHeld<J(!new), K(!new)>(s: State, t: Tid, fT: Pc -> Option<J>, fR: Worker -> Option<J>,
      gT: Pc -> Option<K>, gR: Worker -> Option<K>)
    requires t in s.threads && gT(s.threads[t]).Some? && fT(s.threads[t]).None?
    requires (forall pc :: fT(pc).Some? ==> gT(pc).Some?) && forall w :: gR(w).Some?
    ensures Total(s, Has(fT), Has(fR)) < Total(s, Has(gT), Has(gR))
  {
    forall pc ensures Has(fT)(pc) <= Has(gT)(pc) {
      assert fT(pc).Some? ==> gT(pc).Some?;
    }
    SumRemove(s.threads, t, Has(fT));
    SumRemove(s.threads, t, Has(gT));
    SumMonotone(s.threads - {t}, Has(gT), Has(fT));
    forall w ensures Has(fR)(w) <= Has(gR)(w) {
      assert gR(w).Some?;
    }
    SumMonotone(s.p.registry, Has(gR), Has(fR));
  }

  /** The worker list holds each pinned worker's ID, and never more than max. */
  lemma WorkersBounded(r: Run, s: State)
    requires Reached(r, s)
    ensures |s.p.workers| + s.p.tickets <= r.max
    ensures forall sid :: sid in s.p.registry ==> sid in s.p.workers
  {
    ReachedIsSound(r, s);
    HeldWithTicket(s, WiredAs, WId);
    forall sid | sid in s.p.registry ensures sid in s.p.workers {
      PinnedIsListed(s, sid);
    }
  }

  lemma PinnedIsListed(s: State, sid: string)
    requires WorkerLaw(s) && ThreadLaw(s) && sid in s.p.registry
    ensures sid in s.p.workers
  {
    assert WId(s.p.registry[sid]) == Some(sid);
    SumMember(s.p.registry, sid, Is(WId, sid));
    assert multiset(s.p.workers)[sid] == Total(s, Is(WiredAs, sid), Is(WId, sid));
  }

  // ---------------------------------------------------------------------------
  // Leases inside the pool
  // ---------------------------------------------------------------------------

  /** No two threads, no two pinned workers and no thread and pinned worker hold the same. */
  ghost predicate Apart<K(!new)>(s: State, fT: Pc -> Option<K>, fR: Worker -> Option<K>) {
    && (forall j, k :: j in s.threads && k in s.threads && j != k && fT(s.threads[j]).Some?
                       ==> fT(s.threads[k]) != fT(s.threads[j]))
    && (forall a, b :: a in s.p.registry && b in s.p.registry && a != b && fR(s.p.registry[a]).Some?
                       ==> fR(s.p.registry[b]) != fR(s.p.registry[a]))
    && (forall j, a :: j in s.threads && a in s.p.registry && fT(s.threads[j]).Some?
                       ==> fR(s.p.registry[a]) != fT(s.threads[j]))
  }

  lemma CountedOnceIsApart<K(!new)>(s: State, fT: Pc -> Option<K>, fR: Worker -> Option<K>)
    requires forall x :: Total(s, Is(fT, x), Is(fR, x)) <= 1
    ensures Apart(s, fT, fR)
  {
    forall j, k | j in s.threads && k in s.threads && j != k && fT(s.threads[j]).Some?
      ensures fT(s.threads[k]) != fT(s.threads[j])
    {
      SumPair(s.threads, j, k, Is(fT, fT(s.threads[j]).value));
    }
    forall a, b | a in s.p.registry && b in s.p.registry && a != b && fR(s.p.registry[a]).Some?
      ensures fR(s.p.registry[b]) != fR(s.p.registry[a])
    {
      SumPair(s.p.registry, a, b, Is(fR, fR(s.p.registry[a]).value));
    }
    forall j, a | j in s.threads && a in s.p.registry && fT(s.threads[j]).Some?
      ensures fR(s.p.registry[a]) != fT(s.threads[j])
    {
      SumMember(s.threads, j, Is(fT, fT(s.threads[j]).value));
      SumMember(s.p.registry, a, Is(fR, fT(s.threads[j]).value));
    }
  }

  /** A UID and an address have one holder at most, spawning, pinned or closing; so two kills never
      close one worker, nor a kill a pinned one. */
  lemma HeldOnce(r: Run, s: State)
    requires Reached(r, s)
    ensures Apart(s, UidIn, WUid) && Apart(s, IpIn, WIp)
  {
    ReachedIsSound(r, s);
    assert forall u :: multiset(s.p.uids.queue)[u] + Total(s, Is(UidIn, u), Is(WUid, u)) <= 1;
    CountedOnceIsApart(s, UidIn, WUid);
    CountedOnceIsApart(s, IpIn, WIp);
  }

  /** A UID is out of the queue only while its ticket is out of the channel: with a UID for every
      ticket, Checkout finds one. */
  lemma CheckoutNeverExhausts(r: Run, s: State, t: Tid)
    requires Reached(r, s) && t in s.threads && s.threads[t].Spawning?
    requires r.size >= r.max
    ensures s.p.uids.queue != []
  {
    ReachedIsSound(r, s);
    OneMoreHeld(s, t, UidIn, WUid, TicketIn, WTicket);
  }

  /** And Return finds its UID in range and the queue not full. */
  lemma ReturnNeverRejects(r: Run, s: State, t: Tid)
    requires Reached(r, s) && t in s.threads && (s.threads[t].UndoUid? || s.threads[t].ClosingUid?)
    ensures s.p.uids.Return(UidIn(s.threads[t]).value).1
  {
    ReachedIsSound(r, s);
    Holder(s, t, UidIn, WUid);
  }

  /** No more addresses are in use than tickets are out; with an address for every ticket, one is free. */
  lemma AddressNeverExhausts(r: Run, s: State, t: Tid) returns (ip: nat)
    requires Reached(r, s) && t in s.threads && s.threads[t].SpawnUid?
    requires r.addresses >= r.max
    ensures |s.p.used| < r.max && Enabled(s.p, s.threads[t], Lease(ip))
  {
    ReachedIsSound(r, s);
    OneMoreHeld(s, t, IpIn, WIp, TicketIn, WTicket);
    ip := FreeBelow(s.p.used, s.p.addresses);
  }

  lemma UsedBounded(r: Run, s: State)
    requires Reached(r, s)
    ensures |s.p.used| + s.p.tickets <= r.max
  {
    ReachedIsSound(r, s);
    HeldWithTicket(s, IpIn, WIp);
  }

  lemma {:induction false} FreeBelow(used: set<nat>, n: nat) returns (ip: nat)
    requires |used| < n
    ensures ip < n && ip !in used
    decreases n
  {
    if n - 1 !in used {
      ip := n - 1;
    } else {
      ip := FreeBelow(used - {n - 1}, n - 1);
    }
  }
}
