/** What every reachable state of the pool protocol satisfies. Each law counts a resource over the
    free part, the threads and the pinned workers; each step of each thread keeps each law. */
module PoolInvariant {
  import opened Counting
  import opened PoolProtocol
  import opened Wrappers
  import UidPool

  // ---------------------------------------------------------------------------
  // What a thread, or a pinned worker, holds
  // ---------------------------------------------------------------------------

  function TicketIn(pc: Pc): Option<()> {
    if pc.Spawning? || pc.SpawnUid? || pc.SpawnIp? || pc.UndoIp? || pc.UndoUid? || pc.SpawnFailed?
      || pc.Wire? || pc.Pin? || pc.Closing? || pc.ClosingUid? || pc.Removing? || pc.ReturnTicket?
    then Some(()) else None
  }

  function UidIn(pc: Pc): Option<int> {
    if pc.SpawnUid? || pc.SpawnIp? || pc.UndoIp? || pc.UndoUid? then Some(pc.uid)
    else if pc.Wire? || pc.Pin? || pc.Closing? || pc.ClosingUid? then Some(pc.w.uid)
    else None
  }

  function IpIn(pc: Pc): Option<nat> {
    if pc.SpawnIp? || pc.UndoIp? then Some(pc.ip)
    else if pc.Wire? || pc.Pin? || pc.Closing? then Some(pc.w.ip)
    else None
  }

  /** The ID under which a thread's worker is on the worker list. */
  function WiredAs(pc: Pc): Option<string> {
    if pc.Pin? || pc.Closing? || pc.ClosingUid? || pc.Removing? then Some(pc.w.id) else None
  }

  /** The session whose inflight entry the thread made and has not deleted. */
  function Creating(pc: Pc): Option<string> {
    if pc.WantTicket? || pc.Spawning? || pc.SpawnUid? || pc.SpawnIp? || pc.UndoIp? || pc.UndoUid? || pc.SpawnFailed?
      || pc.Wire? || pc.Pin? || pc.FailDelete? then Some(pc.sid) else None
  }

  /** The channel the thread made and has not closed. */
  function Owns(pc: Pc): Option<nat> {
    if pc.WantTicket? || pc.Spawning? || pc.SpawnUid? || pc.SpawnIp? || pc.UndoIp? || pc.UndoUid? || pc.SpawnFailed?
      || pc.Wire? || pc.Pin? || pc.FailDelete? || pc.CloseCh? then Some(pc.ch) else None
  }

  function WTicket(w: Worker): Option<()> { Some(()) }
  function WUid(w: Worker): Option<int> { Some(w.uid) }
  function WIp(w: Worker): Option<nat> { Some(w.ip) }
  function WId(w: Worker): Option<string> { Some(w.id) }

  function Has<V, K(==)>(f: V -> Option<K>): V -> nat {
    v => if f(v).Some? then 1 else 0
  }

  function Is<V, K(==)>(f: V -> Option<K>, x: K): V -> nat {
    v => if f(v) == Some(x) then 1 else 0
  }

  /** Over all threads and all pinned workers. */
  ghost function Total(s: State, wT: Pc -> nat, wR: Worker -> nat): nat {
    Sum(s.threads, wT) + Sum(s.p.registry, wR)
  }

  // ---------------------------------------------------------------------------
  // The laws
  // ---------------------------------------------------------------------------

  ghost predicate TicketLaw(s: State) {
    s.p.tickets + Total(s, Has(TicketIn), Has(WTicket)) == s.p.max
  }

  /** Every UID of the range is queued or held, once. */
  ghost predicate UidLaw(s: State) {
    && |s.p.uids.queue| + Total(s, Has(UidIn), Has(WUid)) == s.p.uids.size
    && forall u :: multiset(s.p.uids.queue)[u] + Total(s, Is(UidIn, u), Is(WUid, u)) == Bit(s.p.uids.InRange(u))
  }

  /** Every address in use is held, once, and no other. */
  ghost predicate IpLaw(s: State) {
    && |s.p.used| == Total(s, Has(IpIn), Has(WIp))
    && (forall ip: nat :: Total(s, Is(IpIn, ip), Is(WIp, ip)) == Bit(ip in s.p.used))
    && forall ip :: ip in s.p.used ==> ip < s.p.addresses
  }

  /** The worker list holds the ID of every pinned worker and of every worker being pinned or killed. */
  ghost predicate WorkerLaw(s: State) {
    && |s.p.workers| == Total(s, Has(WiredAs), Has(WId))
    && forall id :: multiset(s.p.workers)[id] == Total(s, Is(WiredAs, id), Is(WId, id))
  }

  /** Every channel made is closed or has one owner, and not both. */
  ghost predicate ChannelLaw(s: State) {
    forall ch: nat :: Bit(ch in s.p.closed) + Sum(s.threads, Is(Owns, ch)) == Bit(ch < s.p.nextCh)
  }

  /** Every inflight entry has one creator, and every creator an entry. */
  ghost predicate InflightLaw(s: State) {
    forall sid :: Sum(s.threads, Is(Creating, sid)) == if sid in s.p.inflight then 1 else 0
  }

  /** What each thread knows of the shared state. */
  ghost predicate Knows(p: Pool, pc: Pc) {
    && (pc.Waiting? ==> pc.ch < p.nextCh)
    && (Creating(pc).Some? ==> pc.sid in p.inflight && p.inflight[pc.sid] == pc.ch)
    && (pc.Wire? || pc.Pin? ==> pc.w.id == pc.sid)
  }

  ghost predicate ThreadLaw(s: State) {
    && (forall t :: t in s.threads ==> Knows(s.p, s.threads[t]))
    && (forall sid :: sid in s.p.registry ==> sid !in s.p.inflight && s.p.registry[sid].id == sid)
  }

  ghost predicate Inv(s: State) {
    && TicketLaw(s) && UidLaw(s) && IpLaw(s) && WorkerLaw(s) && ChannelLaw(s) && InflightLaw(s) && ThreadLaw(s)
  }

  // ---------------------------------------------------------------------------
  // How a step moves a total
  // ---------------------------------------------------------------------------

  /** An attribute that a worker keeps when it moves between a thread and the registry. */
  ghost predicate Carried<K(!new)>(fT: Pc -> Option<K>, fR: Worker -> Option<K>) {
    && (forall sid, ch, w :: fT(Pin(sid, ch, w)) == fR(w) && fT(CloseCh(sid, ch, Some(w))) == None)
    && (forall w :: fT(Closing(w)) == fR(w))
    && (forall sid :: fT(KillLookup(sid)) == None) && fT(Killed) == None
  }

  /** The registry changes only when a worker is pinned or unpinned. */
  lemma RegistryEffect(s: State, t: Tid, c: Choice, s': State)
    requires Step(s, Act(t, c), s')
    ensures var p, pc, p', pc' := s.p, s.threads[t], s'.p, s'.threads[t];
      if pc.Pin? then p'.registry == p.registry[pc.sid := pc.w] && pc' == CloseCh(pc.sid, pc.ch, Some(pc.w))
      else if pc.KillLookup? && pc.sid in p.registry then
        p'.registry == p.registry - {pc.sid} && pc' == Closing(p.registry[pc.sid])
      else p'.registry == p.registry && (pc.KillLookup? ==> pc' == Killed)
  {
  }

  /** The total of a weight changes by what the stepping thread gains or loses; pinning and
      unpinning a worker change nothing. */
  lemma WeightStep(s: State, t: Tid, c: Choice, s': State, wT: Pc -> nat, wR: Worker -> nat)
    requires Step(s, Act(t, c), s') && ThreadLaw(s)
    requires forall sid, ch, w :: wT(Pin(sid, ch, w)) == wR(w) && wT(CloseCh(sid, ch, Some(w))) == 0
    requires forall w :: wT(Closing(w)) == wR(w)
    requires forall sid :: wT(KillLookup(sid)) == 0
    requires wT(Killed) == 0
    ensures var pc, pc' := s.threads[t], s'.threads[t];
      if pc.Pin? || pc.KillLookup? then Total(s', wT, wR) == Total(s, wT, wR)
      else Total(s', wT, wR) + wT(pc) == Total(s, wT, wR) + wT(pc')
  {
    var pc, r := s.threads[t], s.p.registry;
    RegistryEffect(s, t, c, s');
    SumUpdate(s.threads, t, s'.threads[t], wT);
    if pc.Pin? {
      assert Knows(s.p, pc);
      SumUpdate(r, pc.sid, pc.w, wR);
    } else if pc.KillLookup? && pc.sid in r {
      SumRemove(r, pc.sid, wR);
    }
  }

  predicate Moves(pc: Pc) {
    pc.Pin? || pc.KillLookup?
  }

  function Bit(b: bool): nat {
    if b then 1 else 0
  }

  /** A count before and after a step whose thread held, or now holds, one. */
  ghost predicate Shift(moves: bool, n: nat, b: bool, n': nat, b': bool) {
    if moves then n' == n else n' + Bit(b) == n + Bit(b')
  }

  lemma HasStep<K(!new)>(s: State, t: Tid, c: Choice, s': State, fT: Pc -> Option<K>, fR: Worker -> Option<K>)
    requires Step(s, Act(t, c), s') && ThreadLaw(s) && Carried(fT, fR)
    ensures var pc, pc' := s.threads[t], s'.threads[t];
      Shift(Moves(pc), Total(s, Has(fT), Has(fR)), fT(pc).Some?, Total(s', Has(fT), Has(fR)), fT(pc').Some?)
  {
    WeightStep(s, t, c, s', Has(fT), Has(fR));
  }

  lemma IsStep<K(!new)>(s: State, t: Tid, c: Choice, s': State, fT: Pc -> Option<K>, fR: Worker -> Option<K>, x: K)
    requires Step(s, Act(t, c), s') && ThreadLaw(s) && Carried(fT, fR)
    ensures var pc, pc' := s.threads[t], s'.threads[t];
      Shift(Moves(pc), Total(s, Is(fT, x), Is(fR, x)), fT(pc) == Some(x),
            Total(s', Is(fT, x), Is(fR, x)), fT(pc') == Some(x))
  {
    WeightStep(s, t, c, s', Is(fT, x), Is(fR, x));
  }

  /** A thread that holds something is counted. */
  lemma Holder<K(!new)>(s: State, t: Tid, fT: Pc -> Option<K>, fR: Worker -> Option<K>)
    requires t in s.threads && fT(s.threads[t]).Some?
    ensures Total(s, Has(fT), Has(fR)) >= 1
    ensures Total(s, Is(fT, fT(s.threads[t]).value), Is(fR, fT(s.threads[t]).value)) >= 1
  {
    SumMember(s.threads, t, Has(fT));
    SumMember(s.threads, t, Is(fT, fT(s.threads[t]).value));
  }

  // ---------------------------------------------------------------------------
  // What one step does to each resource
  // ---------------------------------------------------------------------------

  lemma TicketEffect(s: State, t: Tid, c: Choice, s': State)
    requires Step(s, Act(t, c), s')
    ensures var p, pc, p', pc' := s.p, s.threads[t], s'.p, s'.threads[t];
      && p'.max == p.max
      && (if pc.WantTicket? && c.Go? then p'.tickets == p.tickets - 1 && TicketIn(pc).None? && TicketIn(pc').Some?
          else if pc.SpawnFailed? || pc.ReturnTicket? then
            p'.tickets == p.tickets + 1 && TicketIn(pc).Some? && TicketIn(pc').None?
          else p'.tickets == p.tickets && (Moves(pc) || TicketIn(pc') == TicketIn(pc)))
  {
  }

  /** The UID pool and one holder: nothing, a Checkout, or a Return. */
  ghost predicate UidMove(u: UidPool.Uids, x: Option<int>, u': UidPool.Uids, x': Option<int>) {
    || (u' == u && x' == x)
    || (u.Checkout() == (u', x') && x.None? && x'.Some?)
    || (x.Some? && u' == u.Return(x.value).0 && x'.None?)
  }

  lemma UidEffect(s: State, t: Tid, c: Choice, s': State)
    requires Step(s, Act(t, c), s')
    ensures var p, pc, p', pc' := s.p, s.threads[t], s'.p, s'.threads[t];
      if Moves(pc) then p'.uids == p.uids else UidMove(p.uids, UidIn(pc), p'.uids, UidIn(pc'))
  {
    var p, pc, p', pc' := s.p, s.threads[t], s'.p, s'.threads[t];
    if pc.UndoUid? || pc.ClosingUid? {
      assert UidIn(pc').None?;
    } else if !pc.Spawning? {
      assert p'.uids == p.uids;
    }
  }

  lemma UidMoveCounts(u: UidPool.Uids, x: Option<int>, u': UidPool.Uids, x': Option<int>, k: int)
    requires UidMove(u, x, u', x')
    requires x.Some? ==> u.Return(x.value).1
    ensures (u'.start, u'.size) == (u.start, u.size)
    ensures |u'.queue| + (if x'.Some? then 1 else 0) == |u.queue| + (if x.Some? then 1 else 0)
    ensures multiset(u'.queue)[k] + Bit(x' == Some(k)) == multiset(u.queue)[k] + Bit(x == Some(k))
  {
    if u.queue != [] {
      assert u.queue == [u.queue[0]] + u.queue[1..];
    }
  }

  /** The address table and one holder: nothing, a lease of a free address, or a release. */
  ghost predicate IpMove(addresses: nat, used: set<nat>, x: Option<nat>, used': set<nat>, x': Option<nat>) {
    || (used' == used && x' == x)
    || (x.None? && x'.Some? && x'.value < addresses && x'.value !in used && used' == used + {x'.value})
    || (x.Some? && used' == used - {x.value} && x'.None?)
  }

  ghost predicate IpChange(p: Pool, p': Pool, moves: bool, x: Option<nat>, x': Option<nat>) {
    && p'.addresses == p.addresses
    && (if moves then p'.used == p.used else IpMove(p.addresses, p.used, x, p'.used, x'))
  }

  lemma IpEffect(s: State, t: Tid, c: Choice, s': State)
    requires Step(s, Act(t, c), s')
    ensures var p, pc, p', pc' := s.p, s.threads[t], s'.p, s'.threads[t];
      IpChange(p, p', Moves(pc), IpIn(pc), IpIn(pc'))
  {
  }

  ghost predicate IpCounts(used: set<nat>, x: Option<nat>, used': set<nat>, x': Option<nat>) {
    && |used'| + Bit(x.Some?) == |used| + Bit(x'.Some?)
    && forall k: nat :: Bit(k in used') + Bit(x == Some(k)) == Bit(k in used) + Bit(x' == Some(k))
  }

  lemma IpMoveCounts(addresses: nat, used: set<nat>, x: Option<nat>, used': set<nat>, x': Option<nat>)
    requires IpMove(addresses, used, x, used', x') && (x.Some? ==> x.value in used)
    ensures IpCounts(used, x, used', x')
  {
  }

  /** The worker list and one worker: nothing, an append, or a removal by ID. */
  ghost predicate WorkerMove(workers: seq<string>, x: Option<string>, workers': seq<string>, x': Option<string>) {
    || (workers' == workers && x' == x)
    || (x.None? && x'.Some? && workers' == workers + [x'.value])
    || (x.Some? && workers' == Without(workers, x.value) && x'.None?)
  }

  lemma WorkerEffect(s: State, t: Tid, c: Choice, s': State)
    requires Step(s, Act(t, c), s')
    ensures var p, pc, p', pc' := s.p, s.threads[t], s'.p, s'.threads[t];
      if pc.Wire? then p'.workers == p.workers + [pc.w.id] && WiredAs(pc).None? && WiredAs(pc') == Some(pc.w.id)
      else if pc.Removing? then
        p'.workers == Without(p.workers, pc.w.id) && WiredAs(pc) == Some(pc.w.id) && WiredAs(pc').None?
      else p'.workers == p.workers && (Moves(pc) || WiredAs(pc') == WiredAs(pc))
  {
  }

  lemma WorkerMoveCounts(workers: seq<string>, x: Option<string>, workers': seq<string>, x': Option<string>, k: string)
    requires WorkerMove(workers, x, workers', x') && (x.Some? ==> multiset(workers)[x.value] >= 1)
    ensures |workers'| + Bit(x.Some?) == |workers| + Bit(x'.Some?)
    ensures multiset(workers')[k] + Bit(x == Some(k)) == multiset(workers)[k] + Bit(x' == Some(k))
  {
    if x.Some? {
      WithoutCounts(workers, x.value);
    }
    assert |multiset(workers)| == |workers| && |multiset(workers')| == |workers'|;
  }

  lemma ChannelEffect(s: State, t: Tid, c: Choice, s': State)
    requires Step(s, Act(t, c), s')
    ensures var p, pc, p', pc' := s.p, s.threads[t], s'.p, s'.threads[t];
      || (p'.closed == p.closed && p'.nextCh == p.nextCh && Owns(pc') == Owns(pc))
      || (p'.closed == p.closed && p'.nextCh == p.nextCh + 1 && Owns(pc).None? && Owns(pc') == Some(p.nextCh))
      || (Owns(pc).Some? && p'.closed == p.closed + {Owns(pc).value} && p'.nextCh == p.nextCh && Owns(pc').None?)
  {
  }

  lemma InflightEffect(s: State, t: Tid, c: Choice, s': State)
    requires Step(s, Act(t, c), s')
    ensures var p, pc, p', pc' := s.p, s.threads[t], s'.p, s'.threads[t];
      || (p'.inflight == p.inflight && Creating(pc') == Creating(pc) && (Creating(pc).Some? ==> pc'.ch == pc.ch))
      || (Creating(pc).None? && Creating(pc').Some? && Creating(pc').value !in p.inflight
          && pc'.ch == p.nextCh && p'.inflight == p.inflight[Creating(pc').value := p.nextCh])
      || (Creating(pc).Some? && p'.inflight == p.inflight - {Creating(pc).value} && Creating(pc').None?)
  {
  }

  lemma KnowledgeEffect(s: State, t: Tid, c: Choice, s': State)
    requires Step(s, Act(t, c), s') && Knows(s.p, s.threads[t])
    ensures var p, pc, p', pc' := s.p, s.threads[t], s'.p, s'.threads[t];
      && p.nextCh <= p'.nextCh
      && (pc'.Waiting? ==> pc.Lookup? && pc.sid in p.inflight && pc'.ch == p.inflight[pc.sid])
      && (pc'.Wire? || pc'.Pin? ==> pc'.w.id == pc'.sid)
      && (p'.registry == p.registry || pc.KillLookup?
          || (pc.Pin? && p'.registry == p.registry[pc.sid := pc.w] && p'.inflight == p.inflight - {pc.sid}))
      && (p'.inflight.Keys <= p.inflight.Keys
          || (pc.Lookup? && pc.sid !in p.registry && p'.inflight.Keys == p.inflight.Keys + {pc.sid}))
  {
  }

  // ---------------------------------------------------------------------------
  // Each law is kept
  // ---------------------------------------------------------------------------

  /** The counts of an attribute before and after a step that changed one holder from x to x'. */
  ghost predicate Shifted<K(!new)>(s: State, s': State, fT: Pc -> Option<K>, fR: Worker -> Option<K>,
      moves: bool, x: Option<K>, x': Option<K>)
  {
    && Shift(moves, Total(s, Has(fT), Has(fR)), x.Some?, Total(s', Has(fT), Has(fR)), x'.Some?)
    && (forall k :: Shift(moves, Total(s, Is(fT, k), Is(fR, k)), x == Some(k),
                          Total(s', Is(fT, k), Is(fR, k)), x' == Some(k)))
    && (x.Some? ==> Total(s, Has(fT), Has(fR)) >= 1 && Total(s, Is(fT, x.value), Is(fR, x.value)) >= 1)
  }

  lemma AttributeStep<K(!new)>(s: State, t: Tid, c: Choice, s': State, fT: Pc -> Option<K>, fR: Worker -> Option<K>)
    requires Step(s, Act(t, c), s') && ThreadLaw(s) && Carried(fT, fR)
    ensures var pc, pc' := s.threads[t], s'.threads[t];
      Shifted(s, s', fT, fR, Moves(pc), fT(pc), fT(pc'))
  {
    HasStep(s, t, c, s', fT, fR);
    forall x { IsStep(s, t, c, s', fT, fR, x); }
    if fT(s.threads[t]).Some? {
      Holder(s, t, fT, fR);
    }
  }

  lemma UidLawShifts(s: State, s': State, moves: bool, x: Option<int>, x': Option<int>)
    requires UidLaw(s) && Shifted(s, s', UidIn, WUid, moves, x, x')
    requires if moves then s'.p.uids == s.p.uids else UidMove(s.p.uids, x, s'.p.uids, x')
    ensures UidLaw(s')
  {
    if !moves {
      UidMoveCounts(s.p.uids, x, s'.p.uids, x', 0);
      forall k
        ensures multiset(s'.p.uids.queue)[k] + Bit(x' == Some(k)) == multiset(s.p.uids.queue)[k] + Bit(x == Some(k))
      {
        UidMoveCounts(s.p.uids, x, s'.p.uids, x', k);
      }
    }
  }

  lemma UidsMove(s: State, t: Tid, c: Choice, s': State)
    requires Step(s, Act(t, c), s') && ThreadLaw(s)
    ensures var moves, x, x' := Moves(s.threads[t]), UidIn(s.threads[t]), UidIn(s'.threads[t]);
      && Shifted(s, s', UidIn, WUid, moves, x, x')
      && if moves then s'.p.uids == s.p.uids else UidMove(s.p.uids, x, s'.p.uids, x')
  {
    UidEffect(s, t, c, s');
    AttributeStep(s, t, c, s', UidIn, WUid);
  }

  lemma UidsKept(s: State, t: Tid, c: Choice, s': State)
    requires Step(s, Act(t, c), s') && ThreadLaw(s) && UidLaw(s)
    ensures UidLaw(s')
  {
    UidsMove(s, t, c, s');
    UidLawShifts(s, s', Moves(s.threads[t]), UidIn(s.threads[t]), UidIn(s'.threads[t]));
  }

  lemma IpLawShifts(s: State, s': State, moves: bool, x: Option<nat>, x': Option<nat>)
    requires IpLaw(s) && Shifted(s, s', IpIn, WIp, moves, x, x')
    requires if moves then s'.p.used == s.p.used else IpCounts(s.p.used, x, s'.p.used, x')
    requires forall ip :: ip in s'.p.used ==> ip < s'.p.addresses
    ensures IpLaw(s')
  {
  }

  lemma IpChangeKeeps(s: State, s': State, moves: bool, x: Option<nat>, x': Option<nat>)
    requires IpLaw(s) && Shifted(s, s', IpIn, WIp, moves, x, x') && IpChange(s.p, s'.p, moves, x, x')
    ensures IpLaw(s')
  {
    if !moves {
      assert x.Some? ==> x.value in s.p.used;
      IpMoveCounts(s.p.addresses, s.p.used, x, s'.p.used, x');
    }
    IpLawShifts(s, s', moves, x, x');
  }

  lemma IpsMove(s: State, t: Tid, c: Choice, s': State)
    requires Step(s, Act(t, c), s') && ThreadLaw(s)
    ensures var moves, x, x' := Moves(s.threads[t]), IpIn(s.threads[t]), IpIn(s'.threads[t]);
      Shifted(s, s', IpIn, WIp, moves, x, x') && IpChange(s.p, s'.p, moves, x, x')
  {
    IpEffect(s, t, c, s');
    AttributeStep(s, t, c, s', IpIn, WIp);
  }

  lemma IpsKept(s: State, t: Tid, c: Choice, s': State)
    requires Step(s, Act(t, c), s') && ThreadLaw(s) && IpLaw(s)
    ensures IpLaw(s')
  {
    IpsMove(s, t, c, s');
    IpChangeKeeps(s, s', Moves(s.threads[t]), IpIn(s.threads[t]), IpIn(s'.threads[t]));
  }

  lemma WorkerLawShifts(s: State, s': State, moves: bool, x: Option<string>, x': Option<string>)
    requires WorkerLaw(s) && Shifted(s, s', WiredAs, WId, moves, x, x')
    requires if moves then s'.p.workers == s.p.workers else WorkerMove(s.p.workers, x, s'.p.workers, x')
    ensures WorkerLaw(s')
  {
    if !moves {
      assert x.Some? ==> multiset(s.p.workers)[x.value] >= 1;
      WorkerMoveCounts(s.p.workers, x, s'.p.workers, x', "");
      forall k ensures multiset(s'.p.workers)[k] + Bit(x == Some(k)) == multiset(s.p.workers)[k] + Bit(x' == Some(k)) {
        WorkerMoveCounts(s.p.workers, x, s'.p.workers, x', k);
      }
    }
  }

  lemma WorkersKept(s: State, t: Tid, c: Choice, s': State)
    requires Step(s, Act(t, c), s') && ThreadLaw(s) && WorkerLaw(s)
    ensures WorkerLaw(s')
  {
    WorkerEffect(s, t, c, s');
    AttributeStep(s, t, c, s', WiredAs, WId);
    WorkerLawShifts(s, s', Moves(s.threads[t]), WiredAs(s.threads[t]), WiredAs(s'.threads[t]));
  }

  lemma TicketsKept(s: State, t: Tid, c: Choice, s': State)
    requires Step(s, Act(t, c), s') && ThreadLaw(s) && TicketLaw(s)
    ensures TicketLaw(s')
  {
    TicketEffect(s, t, c, s');
    HasStep(s, t, c, s', TicketIn, WTicket);
  }

  lemma ChannelsKept(s: State, t: Tid, c: Choice, s': State)
    requires Step(s, Act(t, c), s') && ChannelLaw(s)
    ensures ChannelLaw(s')
  {
    var pc := s.threads[t];
    ChannelEffect(s, t, c, s');
    if Owns(pc).Some? {
      SumMember(s.threads, t, Is(Owns, Owns(pc).value));
    }
    forall ch: nat ensures Bit(ch in s'.p.closed) + Sum(s'.threads, Is(Owns, ch)) == Bit(ch < s'.p.nextCh) {
      SumUpdate(s.threads, t, s'.threads[t], Is(Owns, ch));
    }
  }

  lemma InflightKept(s: State, t: Tid, c: Choice, s': State)
    requires Step(s, Act(t, c), s') && InflightLaw(s) && ThreadLaw(s)
    ensures InflightLaw(s')
  {
    assert Knows(s.p, s.threads[t]);
    InflightEffect(s, t, c, s');
    forall sid ensures Sum(s'.threads, Is(Creating, sid)) == if sid in s'.p.inflight then 1 else 0 {
      SumUpdate(s.threads, t, s'.threads[t], Is(Creating, sid));
    }
  }

  /** The stepping thread still knows what it should. */
  lemma StepperKnows(s: State, t: Tid, c: Choice, s': State)
    requires Step(s, Act(t, c), s') && InflightLaw(s) && ChannelLaw(s) && ThreadLaw(s)
    ensures Knows(s'.p, s'.threads[t])
  {
    var pc := s.threads[t];
    assert Knows(s.p, pc);
    KnowledgeEffect(s, t, c, s');
    InflightEffect(s, t, c, s');
    if s'.threads[t].Waiting? {
      InflightIsOpen(s, pc.sid);
    }
  }

  /** The channel of an inflight entry belongs to its creator, so it is made and not closed. */
  lemma InflightIsOpen(s: State, sid: string)
    requires InflightLaw(s) && ChannelLaw(s) && ThreadLaw(s) && sid in s.p.inflight
    ensures s.p.inflight[sid] < s.p.nextCh && s.p.inflight[sid] !in s.p.closed
  {
    var k := SumWitness(s.threads, Is(Creating, sid));
    var pc, ch := s.threads[k], s.p.inflight[sid];
    assert Is(Creating, sid)(pc) == 1 && Knows(s.p, pc);
    assert Owns(pc) == Some(ch) && Is(Owns, ch)(pc) == 1;
    SumMember(s.threads, k, Is(Owns, ch));
  }

  /** And no other thread is disturbed: nobody else creates for the stepping thread's session. */
  lemma OthersKnow(s: State, t: Tid, c: Choice, s': State, k: Tid)
    requires Step(s, Act(t, c), s') && InflightLaw(s) && ThreadLaw(s) && k in s.threads && k != t
    ensures Knows(s'.p, s.threads[k])
  {
    var pc, other := s.threads[t], s.threads[k];
    assert Knows(s.p, pc) && Knows(s.p, other);
    KnowledgeEffect(s, t, c, s');
    InflightEffect(s, t, c, s');
    if Creating(pc).Some? {
      SumPair(s.threads, t, k, Is(Creating, Creating(pc).value));
      assert Creating(other) != Creating(pc);
    }
  }

  lemma ThreadsKept(s: State, t: Tid, c: Choice, s': State)
    requires Step(s, Act(t, c), s') && InflightLaw(s) && ChannelLaw(s) && ThreadLaw(s)
    ensures ThreadLaw(s')
  {
    StepperKnows(s, t, c, s');
    forall k | k in s.threads && k != t ensures Knows(s'.p, s.threads[k]) {
      OthersKnow(s, t, c, s', k);
    }
    assert Knows(s.p, s.threads[t]);
    KnowledgeEffect(s, t, c, s');
    RegistryEffect(s, t, c, s');
  }
}
