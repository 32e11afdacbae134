/** What the events of a run do to leases, pins and kills, field by field: which sessions a sweep kills
    and which it spares, where every kill comes from, and what a lease tells of the events before. */
module LeaseHistory {
  import opened Lifecycle

  // ---------------------------------------------------------------------------
  // Sweeps
  // ---------------------------------------------------------------------------

  predicate PastAbsolute(l: Lease, now: int) {
    l.absoluteTTL > 0 && now - l.created > l.absoluteTTL
  }

  predicate PastIdle(l: Lease, now: int) {
    l.idleTTL > 0 && l.conns == 0 && now - l.lastData > l.idleTTL
  }

  predicate Past(d: Desk, id: string, now: int) {
    id in d.leases && (PastAbsolute(d.leases[id], now) || PastIdle(d.leases[id], now))
  }

  /** The reason to kill a session that is past a TTL; a TTL that is not positive is none. */
  predicate Justified(d: Desk, k: Kill, now: int) {
    && k.id in d.leases
    && if PastAbsolute(d.leases[k.id], now) then k.reason == "absolute_ttl_expired"
       else PastIdle(d.leases[k.id], now) && k.reason == "idle_ttl_expired"
  }

  ghost predicate EachOnce(kills: seq<Kill>) {
    forall i, j :: 0 <= i < j < |kills| ==> kills[i].id != kills[j].id
  }

  /** A sweep unregisters and unpins a session if and only if it is past a TTL, with one kill for it. */
  ghost predicate SweepsPast(d: Desk, now: int, d': Desk) {
    && (forall id :: id in d'.leases <==> id in d.leases && !Past(d, id, now))
    && (forall id :: id in d'.leases ==> d'.leases[id] == d.leases[id])
    && (forall id :: id in d'.pinned <==> id in d.pinned && !Past(d, id, now))
    && d.kills <= d'.kills && EachOnce(d'.kills[|d.kills|..])
    && (forall k: Kill :: k in d'.kills[|d.kills|..] <==> Justified(d, k, now))
  }

  lemma ExpiredIsPast(d: Desk, now: int)
    ensures forall id :: id in Expired(d.leases, now) <==> Past(d, id, now)
    ensures forall k: Kill ::
      k.id in Expired(d.leases, now) && k == Cause(d.leases, now, k.id) <==> Justified(d, k, now)
  {
  }

  lemma SweptIsPast(d: Desk, now: int, d': Desk)
    requires Swept(d, now, d')
    ensures SweepsPast(d, now, d')
  {
    ExpiredIsPast(d, now);
    var kills := d'.kills[|d.kills|..];
    forall k: Kill ensures k in kills <==> Justified(d, k, now) {
      if Justified(d, k, now) {
        assert Cause(d.leases, now, k.id) in kills;
      }
    }
  }

  // ---------------------------------------------------------------------------
  // The other events
  // ---------------------------------------------------------------------------

  /** Past its deadline, a request of a leased session ends with the session killed and unregistered; in
      time, it ends with one connection less, at least none, and a new idle clock. */
  ghost predicate Ends(d: Desk, id: string, deadline: bool, now: int, d': Desk) {
    if id !in d.leases then d' == d
    else if deadline then
      && id !in d'.leases && id !in d'.pinned && OthersSame(d, id, d')
      && d'.kills == d.kills + [Kill(id, "data_plane_deadlock")]
    else
      && id in d'.leases && OthersSame(d, id, d') && d'.pinned == d.pinned && d'.kills == d.kills
      && var l, l' := d.leases[id], d'.leases[id];
        && l'.conns == (if l.conns > 0 then l.conns - 1 else 0) && l'.lastData == now
        && l' == l.(conns := l'.conns, lastData := l'.lastData)
  }

  ghost predicate OthersSame(d: Desk, id: string, d': Desk) {
    && (forall x :: x != id ==> (x in d'.leases <==> x in d.leases) && (x in d'.pinned <==> x in d.pinned))
    && (forall x :: x != id && x in d.leases ==> d'.leases[x] == d.leases[x])
  }

  lemma EndedEnds(d: Desk, id: string, deadline: bool, now: int)
    ensures Ends(d, id, deadline, now, Ended(d, id, deadline, now))
  {
  }

  /** What the event does, in terms of the fields of the lease. */
  ghost predicate Does(s: Sys, e: Event, s': Sys) {
    match e
    case Create(id, idle, absolute, acquired) =>
      if acquired then
        && s'.d.leases == s.d.leases[id := Lease(s'.now, s'.now, s'.now, 0, idle, absolute)]
        && s'.d.pinned == s.d.pinned + {id} && s'.d.kills == s.d.kills
      else s'.d == s.d
    case Delete(id, reason) =>
      && id !in s'.d.leases && id !in s'.d.pinned && OthersSame(s.d, id, s'.d)
      && s'.d.kills == s.d.kills + [Kill(id, reason)]
    case Begin(id) =>
      && s'.d.pinned == s.d.pinned && s'.d.kills == s.d.kills
      && s'.d.leases == if id in s.d.leases
           then s.d.leases[id := s.d.leases[id].(conns := s.d.leases[id].conns + 1)] else s.d.leases
    case End(id, deadline) => Ends(s.d, id, deadline, s'.now, s'.d)
    case Heartbeat(id) =>
      && s'.d.pinned == s.d.pinned && s'.d.kills == s.d.kills
      && s'.d.leases == if id in s.d.leases
           then s.d.leases[id := s.d.leases[id].(heartbeat := s'.now)] else s.d.leases
    case Sweep => SweepsPast(s.d, s'.now, s'.d)
  }

  lemma StepDoes(s: Sys, e: Event, s': Sys)
    requires Step(s, e, s')
    ensures Does(s, e, s')
  {
    if e.Sweep? {
      SweptIsPast(s.d, s'.now, s'.d);
    }
  }

  // ---------------------------------------------------------------------------
  // Where kills come from
  // ---------------------------------------------------------------------------

  /** The event, at this time, is cause for the kill. */
  predicate Causes(s: Sys, e: Event, now: int, k: Kill) {
    match e
    case Delete(id, reason) => k == Kill(id, reason)
    case End(id, deadline) => deadline && id in s.d.leases && k == Kill(id, "data_plane_deadlock")
    case Sweep => Justified(s.d, k, now)
    case _ => false
  }

  /** An event adds exactly the kills that it causes, each once. */
  lemma KillsAreCaused(s: Sys, e: Event, s': Sys)
    requires Step(s, e, s')
    ensures s.d.kills <= s'.d.kills && EachOnce(s'.d.kills[|s.d.kills|..])
    ensures forall k: Kill :: k in s'.d.kills[|s.d.kills|..] <==> Causes(s, e, s'.now, k)
  {
    StepDoes(s, e, s');
  }

  /** And it ends a session's pin exactly with a kill of it. */
  lemma UnpinnedIsKilled(s: Sys, e: Event, s': Sys, id: string)
    requires Step(s, e, s') && id in s.d.pinned && s.d.leases.Keys == s.d.pinned
    ensures id !in s'.d.pinned <==> exists k: Kill :: Causes(s, e, s'.now, k) && k.id == id
  {
    StepDoes(s, e, s');
    if id !in s'.d.pinned {
      match e
      case Delete(_, reason) => assert Causes(s, e, s'.now, Kill(id, reason));
      case End(_, _) => assert Causes(s, e, s'.now, Kill(id, "data_plane_deadlock"));
      case Sweep =>
        var k := Kill(id, if PastAbsolute(s.d.leases[id], s'.now) then "absolute_ttl_expired" else "idle_ttl_expired");
        assert Causes(s, e, s'.now, k);
    }
  }

  /** No kills at first, and none ever taken back, up to state i. */
  ghost predicate Growing(trace: seq<Sys>, i: nat)
    requires i < |trace|
  {
    trace[0].d.kills == [] && forall h :: 0 <= h < i ==> trace[h].d.kills <= trace[h + 1].d.kills
  }

  lemma KillsGrow(trace: seq<Sys>, events: seq<Event>, i: nat)
    requires IsRun(trace, events) && i < |trace|
    ensures Growing(trace, i)
  {
    forall h | 0 <= h < i ensures trace[h].d.kills <= trace[h + 1].d.kills {
      assert Step(trace[h], events[h], trace[h + 1]);
      KillsAreCaused(trace[h], events[h], trace[h + 1]);
    }
  }

  /** The event after which the n-th kill is there. */
  lemma {:induction false} WhenKilled(trace: seq<Sys>, i: nat, n: nat) returns (j: nat)
    requires i < |trace| && Growing(trace, i) && n < |trace[i].d.kills|
    ensures j < i && |trace[j].d.kills| <= n < |trace[j + 1].d.kills|
    ensures trace[j + 1].d.kills[n] == trace[i].d.kills[n]
    decreases i
  {
    assert trace[i - 1].d.kills <= trace[i - 1 + 1].d.kills;
    if n < |trace[i - 1].d.kills| {
      j := WhenKilled(trace, i - 1, n);
    } else {
      j := i - 1;
    }
  }

  lemma NewKill(trace: seq<Sys>, events: seq<Event>, i: nat, n: nat)
    requires IsRun(trace, events) && i < |events| && n < |trace[i + 1].d.kills|
    requires |trace[i].d.kills| <= n
    ensures Causes(trace[i], events[i], trace[i + 1].now, trace[i + 1].d.kills[n])
  {
    var s, s' := trace[i], trace[i + 1];
    assert Step(trace[i], events[i], trace[i + 1]);
    KillsAreCaused(s, events[i], s');
    assert s'.d.kills[n] == s'.d.kills[|s.d.kills|..][n - |s.d.kills|];
  }

  /** Over every run: each kill was made by an event that is cause for it. */
  lemma KillHasCause(trace: seq<Sys>, events: seq<Event>, i: nat, n: nat) returns (j: nat)
    requires IsRun(trace, events) && i < |trace| && n < |trace[i].d.kills|
    ensures j < i && |trace[j].d.kills| <= n < |trace[j + 1].d.kills|
    ensures trace[j + 1].d.kills[n] == trace[i].d.kills[n]
    ensures Causes(trace[j], events[j], trace[j + 1].now, trace[i].d.kills[n])
  {
    KillsGrow(trace, events, i);
    j := WhenKilled(trace, i, n);
    NewKill(trace, events, j, n);
  }

  // ---------------------------------------------------------------------------
  // Sessions that stay
  // ---------------------------------------------------------------------------

  /** The event is no cause to kill the session: no Delete of it, no request of it past its deadline,
      and no sweep that finds it past a TTL. */
  predicate Spares(s: Sys, e: Event, now: int, id: string) {
    match e
    case Delete(x, _) => x != id
    case End(x, deadline) => x != id || !deadline
    case Sweep => !Past(s.d, id, now)
    case _ => true
  }

  /** The h-th event of the run spares the session. */
  predicate SparesAt(trace: seq<Sys>, events: seq<Event>, h: nat, id: string)
    requires |trace| == |events| + 1 && h < |events|
  {
    Spares(trace[h], events[h], trace[h + 1].now, id)
  }

  ghost predicate Stays(s: Sys, id: string, before: nat) {
    && id in s.d.leases && id in s.d.pinned && before <= |s.d.kills|
    && forall k: Kill :: k in s.d.kills[before..] ==> k.id != id
  }

  lemma SparedStays(s: Sys, e: Event, s': Sys, id: string, before: nat)
    requires Step(s, e, s') && Spares(s, e, s'.now, id) && Stays(s, id, before)
    ensures Stays(s', id, before)
  {
    StepDoes(s, e, s');
    KillsAreCaused(s, e, s');
    assert s'.d.kills[before..] == s.d.kills[before..] + s'.d.kills[|s.d.kills|..];
  }

  lemma SparedStaysAt(trace: seq<Sys>, events: seq<Event>, i: nat, id: string, before: nat)
    requires IsRun(trace, events) && i < |events| && Stays(trace[i], id, before)
    requires SparesAt(trace, events, i, id)
    ensures Stays(trace[i + 1], id, before)
  {
    assert Step(trace[i], events[i], trace[i + 1]);
    SparedStays(trace[i], events[i], trace[i + 1], id, before);
  }

  /** Over any stretch of a run: a session that every event spares stays registered and pinned, and is
      not killed. In particular no sweep ends one that is within its TTLs. */
  lemma {:induction false} SparedSessionStays(trace: seq<Sys>, events: seq<Event>, i: nat, j: nat, id: string,
      before: nat)
    requires IsRun(trace, events) && i <= j < |trace| && Stays(trace[i], id, before)
    requires forall h :: i <= h < j ==> SparesAt(trace, events, h, id)
    ensures Stays(trace[j], id, before)
    decreases j - i
  {
    if i < j {
      SparedStaysAt(trace, events, i, id, before);
      SparedSessionStays(trace, events, i + 1, j, id, before);
    }
  }

  ghost predicate Untimed(s: Sys, id: string) {
    id in s.d.leases && s.d.leases[id].absoluteTTL <= 0 && s.d.leases[id].idleTTL <= 0
  }

  lemma UntimedStep(s: Sys, e: Event, s': Sys, id: string, before: nat)
    requires Step(s, e, s') && Stays(s, id, before) && Untimed(s, id)
    requires !Makes(id)(e) && (e.Delete? || e.End? ==> Spares(s, e, s'.now, id))
    ensures Stays(s', id, before) && Untimed(s', id)
  {
    SparedStays(s, e, s', id, before);
    StepDoes(s, e, s');
  }

  /** With both TTLs off a session is never swept, however long and whatever requests it has: it stays
      until a Delete, a request past its deadline, or a new Create. */
  lemma {:induction false} UntimedNeverSwept(trace: seq<Sys>, events: seq<Event>, i: nat, j: nat, id: string,
      before: nat)
    requires IsRun(trace, events) && i <= j < |trace| && Stays(trace[i], id, before) && Untimed(trace[i], id)
    requires forall h :: i <= h < j ==> !Makes(id)(events[h])
    requires forall h :: i <= h < j && (events[h].Delete? || events[h].End?) ==> SparesAt(trace, events, h, id)
    ensures Stays(trace[j], id, before) && Untimed(trace[j], id)
    decreases j - i
  {
    if i < j {
      assert Step(trace[i], events[i], trace[i + 1]) && !Makes(id)(events[i]);
      assert events[i].Delete? || events[i].End? ==> SparesAt(trace, events, i, id);
      UntimedStep(trace[i], events[i], trace[i + 1], id, before);
      UntimedNeverSwept(trace, events, i + 1, j, id, before);
    }
  }

  // ---------------------------------------------------------------------------
  // What a lease tells
  // ---------------------------------------------------------------------------

  /** Events that register the session, that set its heartbeat, and that start its idle clock. */
  function Makes(id: string): Event -> bool {
    (e: Event) => e.Create? && e.acquired && e.id == id
  }

  function Beats(id: string): Event -> bool {
    (e: Event) => Makes(id)(e) || (e.Heartbeat? && e.id == id)
  }

  function Uses(id: string): Event -> bool {
    (e: Event) => Makes(id)(e) || (e.End? && e.id == id)
  }

  /** The index of the state right after the last such event of the first n; 0 if there is none. */
  function After(events: seq<Event>, n: nat, p: Event -> bool): (k: nat)
    requires n <= |events|
    ensures k <= n && (k > 0 ==> p(events[k - 1])) && forall h :: k <= h < n ==> !p(events[h])
  {
    if n == 0 then 0 else if p(events[n - 1]) then n else After(events, n - 1, p)
  }

  /** Requests begun since the last registration, less those that ended, but never less than none. */
  function Open(events: seq<Event>, n: nat, id: string): nat
    requires n <= |events|
  {
    if n == 0 then 0
    else
      var e, open := events[n - 1], Open(events, n - 1, id);
      if Makes(id)(e) then 0
      else if e == Begin(id) then open + 1
      else if e.End? && e.id == id && open > 0 then open - 1
      else open
  }

  /** The lease tells of the first n events of the run. */
  ghost predicate Tells(l: Lease, trace: seq<Sys>, events: seq<Event>, n: nat, id: string)
    requires |trace| == |events| + 1 && n < |trace|
  {
    var made := After(events, n, Makes(id));
    && made > 0 && l.created == trace[made].now
    && l.idleTTL == events[made - 1].idleTTL && l.absoluteTTL == events[made - 1].absoluteTTL
    && l.heartbeat == trace[After(events, n, Beats(id))].now
    && l.lastData == trace[After(events, n, Uses(id))].now
    && l.conns == Open(events, n, id)
  }

  /** The lease after an event, if there was one before. */
  function Changed(l: Lease, e: Event, id: string, now: int): Lease {
    Lease(l.created, if e == Heartbeat(id) then now else l.heartbeat,
          if e.End? && e.id == id then now else l.lastData,
          if e == Begin(id) then l.conns + 1
          else if e.End? && e.id == id then if l.conns > 0 then l.conns - 1 else 0
          else l.conns,
          l.idleTTL, l.absoluteTTL)
  }

  lemma LeaseChanges(s: Sys, e: Event, s': Sys, id: string)
    requires Step(s, e, s') && id in s'.d.leases
    ensures Makes(id)(e) ==> s'.d.leases[id] == Lease(s'.now, s'.now, s'.now, 0, e.idleTTL, e.absoluteTTL)
    ensures !Makes(id)(e) ==> id in s.d.leases && s'.d.leases[id] == Changed(s.d.leases[id], e, id, s'.now)
  {
    StepDoes(s, e, s');
  }

  lemma TellsMade(l: Lease, trace: seq<Sys>, events: seq<Event>, n: nat, id: string)
    requires |trace| == |events| + 1 && n < |events| && Makes(id)(events[n])
    requires var now := trace[n + 1].now; l == Lease(now, now, now, 0, events[n].idleTTL, events[n].absoluteTTL)
    ensures Tells(l, trace, events, n + 1, id)
  {
  }

  lemma TellsChanged(l: Lease, trace: seq<Sys>, events: seq<Event>, n: nat, id: string)
    requires |trace| == |events| + 1 && n < |events| && !Makes(id)(events[n]) && Tells(l, trace, events, n, id)
    ensures Tells(Changed(l, events[n], id, trace[n + 1].now), trace, events, n + 1, id)
  {
  }

  /** In every state of a run a lease tells when it was registered and with which TTLs, when the last
      heartbeat came and the last request ended, if later, and how many requests are open. */
  lemma {:induction false} LeaseTellsHistory(trace: seq<Sys>, events: seq<Event>, i: nat, id: string)
    requires IsRun(trace, events) && i < |trace| && id in trace[i].d.leases
    ensures Tells(trace[i].d.leases[id], trace, events, i, id)
    decreases i
  {
    assert i > 0;
    var n := i - 1;
    assert Step(trace[n], events[n], trace[n + 1]);
    LeaseChanges(trace[n], events[n], trace[i], id);
    if Makes(id)(events[n]) {
      TellsMade(trace[i].d.leases[id], trace, events, n, id);
    } else {
      LeaseTellsHistory(trace, events, n, id);
      TellsChanged(trace[n].d.leases[id], trace, events, n, id);
    }
  }
}
