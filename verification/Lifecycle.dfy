/** The lease table next to the pin table, as values: what each lifecycle and controller operation
    does, and what every run of them keeps (internal/lifecycle, internal/daemon/controller.go). */
module Lifecycle {
  import opened Wrappers

  /** A session's lease. Times and TTLs are in one unit; a TTL that is not positive is off. */
  datatype Lease = Lease(created: int, heartbeat: int, lastData: int, conns: int, idleTTL: int, absoluteTTL: int)

  datatype Kill = Kill(id: string, reason: string)

  /** Leases, the IDs pinned in the pool, and the calls to KillWorker so far. */
  datatype Desk = Desk(leases: map<string, Lease>, pinned: set<string>, kills: seq<Kill>)

  /** Why the reaper kills a session, if it does; the absolute rule comes first. */
  function Expiry(l: Lease, now: int): Option<string> {
    if l.absoluteTTL > 0 && now - l.created > l.absoluteTTL then Some("absolute_ttl_expired")
    else if l.idleTTL > 0 && l.conns == 0 && now - l.lastData > l.idleTTL then Some("idle_ttl_expired")
    else None
  }

  function Expired(leases: map<string, Lease>, now: int): set<string> {
    set id | id in leases && Expiry(leases[id], now).Some?
  }

  // ---------------------------------------------------------------------------
  // Operations
  // ---------------------------------------------------------------------------

  function Fresh(idleTTL: int, absoluteTTL: int, now: int): Lease {
    Lease(now, now, now, 0, idleTTL, absoluteTTL)
  }

  function Registered(d: Desk, id: string, idleTTL: int, absoluteTTL: int, now: int): Desk {
    d.(leases := d.leases[id := Fresh(idleTTL, absoluteTTL, now)])
  }

  function Killed(d: Desk, id: string, reason: string): Desk {
    d.(pinned := d.pinned - {id}, kills := d.kills + [Kill(id, reason)])
  }

  /** UnregisterAndKill. */
  function Dropped(d: Desk, id: string, reason: string): Desk {
    Killed(d.(leases := d.leases - {id}), id, reason)
  }

  function Begun(d: Desk, id: string): Desk {
    if id in d.leases then d.(leases := d.leases[id := d.leases[id].(conns := d.leases[id].conns + 1)]) else d
  }

  function OneLess(conns: int): int {
    if conns - 1 < 0 then 0 else conns - 1
  }

  function Ended(d: Desk, id: string, deadline: bool, now: int): Desk {
    if id !in d.leases then d
    else if deadline then Dropped(d, id, "data_plane_deadlock")
    else d.(leases := d.leases[id := d.leases[id].(conns := OneLess(d.leases[id].conns), lastData := now)])
  }

  function Beaten(d: Desk, id: string, now: int): Desk {
    if id in d.leases then d.(leases := d.leases[id := d.leases[id].(heartbeat := now)]) else d
  }

  function Cause(leases: map<string, Lease>, now: int, id: string): Kill
    requires id in Expired(leases, now)
  {
    Kill(id, Expiry(leases[id], now).value)
  }

  /** What the reaper does on coming to a session with this lease. */
  function Judged(d: Desk, id: string, l: Lease, now: int): Desk {
    match Expiry(l, now)
    case Some(reason) => Dropped(d, id, reason)
    case None => d
  }

  /** A sweep, over a snapshot of the leases, in the order in which it comes to the sessions. */
  function SweepOver(d: Desk, leases: map<string, Lease>, now: int, order: seq<string>): Desk {
    if order == [] then d
    else
      var id, d' := order[|order| - 1], SweepOver(d, leases, now, order[..|order| - 1]);
      if id in leases then Judged(d', id, leases[id], now) else d'
  }

  /** A sweep as it should be: exactly the expired sessions are unregistered and unpinned, each
      by one kill with its reason. */
  ghost predicate Swept(d: Desk, now: int, d': Desk) {
    SweptSome(d, now, Expired(d.leases, now), d')
  }

  ghost predicate SweptSome(d: Desk, now: int, gone: set<string>, d': Desk) {
    && d'.leases == d.leases - gone && d'.pinned == d.pinned - gone
    && d.kills <= d'.kills && KillsEach(d.leases, now, gone, d'.kills[|d.kills|..])
  }

  ghost predicate KillsEach(leases: map<string, Lease>, now: int, gone: set<string>, kills: seq<Kill>) {
    && (forall k :: k in kills ==> k.id in gone && k.id in Expired(leases, now) && k == Cause(leases, now, k.id))
    && (forall id :: id in gone && id in Expired(leases, now) ==> Cause(leases, now, id) in kills)
    && (forall i, j :: 0 <= i < j < |kills| ==> kills[i].id != kills[j].id)
  }

  lemma KillsOneMore(leases: map<string, Lease>, now: int, gone: set<string>, kills: seq<Kill>, id: string)
    requires KillsEach(leases, now, gone, kills) && id !in gone && id in Expired(leases, now)
    ensures KillsEach(leases, now, gone + {id}, kills + [Cause(leases, now, id)])
  {
    forall i | 0 <= i < |kills| ensures kills[i].id != id {
      assert kills[i] in kills;
    }
  }

  lemma AllButLast(order: seq<string>, seen: set<string>)
    requires multiset(order) == multiset(seen) && order != []
    ensures var id := order[|order| - 1]; id in seen && multiset(order[..|order| - 1]) == multiset(seen - {id})
  {
    var n := |order| - 1;
    assert order == order[..n] + [order[n]];
    assert order[n] in multiset(order);
    var m, m' := multiset(order[..n]), multiset(seen - {order[n]});
    assert multiset(order) == m + multiset{order[n]} && multiset(seen) == m' + multiset{order[n]};
    assert m == multiset(order) - multiset{order[n]} && m' == multiset(seen) - multiset{order[n]};
  }

  /** Of the sessions that a sweep has come to, it has dealt with exactly the expired. */
  lemma {:induction false} SweptSoFar(d: Desk, now: int, order: seq<string>, seen: set<string>)
    requires multiset(order) == multiset(seen)
    ensures SweptSome(d, now, Expired(d.leases, now) * seen, SweepOver(d, d.leases, now, order))
    decreases |order|
  {
    var gone := Expired(d.leases, now) * seen;
    if order == [] {
      assert |multiset(seen)| == 0 && gone == {};
      assert d.leases - {} == d.leases && d.pinned - {} == d.pinned;
    } else {
      var n := |order| - 1;
      var id, before := order[n], seen - {order[n]};
      AllButLast(order, seen);
      SweptSoFar(d, now, order[..n], before);
      SweepGoesOn(d, now, before, SweepOver(d, d.leases, now, order[..n]), id);
      assert before + {id} == seen;
    }
  }

  lemma SweepGoesOn(d: Desk, now: int, seen: set<string>, d': Desk, id: string)
    requires SweptSome(d, now, Expired(d.leases, now) * seen, d') && id !in seen
    ensures var d'' := if id in d.leases then Judged(d', id, d.leases[id], now) else d';
      SweptSome(d, now, Expired(d.leases, now) * (seen + {id}), d'')
  {
    var gone, n := Expired(d.leases, now) * seen, |d.kills|;
    var more := Expired(d.leases, now) * (seen + {id});
    if id in Expired(d.leases, now) {
      var k := Cause(d.leases, now, id);
      assert more == gone + {id};
      assert d.leases - gone - {id} == d.leases - more && d.pinned - gone - {id} == d.pinned - more;
      assert (d'.kills + [k])[n..] == d'.kills[n..] + [k];
      KillsOneMore(d.leases, now, gone, d'.kills[n..], id);
    } else {
      assert more == gone;
    }
  }

  /** Whatever the order, a sweep that comes to every lease once is exact. */
  lemma SweepIsExact(d: Desk, now: int, order: seq<string>)
    requires multiset(order) == multiset(d.leases.Keys)
    ensures Swept(d, now, SweepOver(d, d.leases, now, order))
  {
    SweptSoFar(d, now, order, d.leases.Keys);
    assert Expired(d.leases, now) * d.leases.Keys == Expired(d.leases, now);
  }

  // ---------------------------------------------------------------------------
  // Runs
  // ---------------------------------------------------------------------------

  /** The desk, the requests begun and not ended, the clock, the time of the last sweep, and since
      when each session has been pinned. */
  datatype Sys = Sys(d: Desk, out: multiset<string>, now: int, swept: int, since: map<string, int>)

  /** Each event is one atomic call; Create says whether Acquire succeeded. */
  datatype Event =
    | Create(id: string, idleTTL: int, absoluteTTL: int, acquired: bool)
    | Delete(id: string, reason: string)
    | Begin(id: string)
    | End(id: string, deadline: bool)
    | Heartbeat(id: string)
    | Sweep

  /** A session that stays pinned has been so since it was; a Create of a pinned one changes nothing there. */
  function PinTimes(s: Sys, pinned: set<string>, now: int): map<string, int> {
    map id | id in pinned :: if id in s.d.pinned && id in s.since then s.since[id] else now
  }

  /** An event, at a time not before the last. A request ends only if it began. */
  ghost predicate Step(s: Sys, e: Event, s': Sys) {
    && s.now <= s'.now && s'.since == PinTimes(s, s'.d.pinned, s'.now)
    && s'.swept == (if e.Sweep? then s'.now else s.swept)
    && match e
       case Create(id, idle, absolute, acquired) =>
         s'.out == s.out
         && s'.d == if acquired then Registered(s.d.(pinned := s.d.pinned + {id}), id, idle, absolute, s'.now) else s.d
       case Delete(id, reason) => s'.out == s.out && s'.d == Dropped(s.d, id, reason)
       case Begin(id) => s'.out == s.out + multiset{id} && s'.d == Begun(s.d, id)
       case End(id, deadline) =>
         id in s.out && s'.out == s.out - multiset{id} && s'.d == Ended(s.d, id, deadline, s'.now)
       case Heartbeat(id) => s'.out == s.out && s'.d == Beaten(s.d, id, s'.now)
       case Sweep => s'.out == s.out && Swept(s.d, s'.now, s'.d)
  }

  ghost predicate IsRun(trace: seq<Sys>, events: seq<Event>) {
    && |trace| == |events| + 1
    && trace[0] == Sys(Desk(map[], {}, []), multiset{}, trace[0].now, trace[0].now, map[])
    && forall i :: 0 <= i < |events| ==> Step(trace[i], events[i], trace[i + 1])
  }

  // ---------------------------------------------------------------------------
  // Leases and pins agree
  // ---------------------------------------------------------------------------

  lemma {:induction false} LeasesArePins(trace: seq<Sys>, events: seq<Event>, i: nat)
    requires IsRun(trace, events) && i < |trace|
    ensures trace[i].d.leases.Keys == trace[i].d.pinned == trace[i].since.Keys
    decreases i
  {
    if i > 0 {
      LeasesArePins(trace, events, i - 1);
      assert Step(trace[i - 1], events[i - 1], trace[i - 1 + 1]);
    }
  }

  // ---------------------------------------------------------------------------
  // Connection counts
  // ---------------------------------------------------------------------------

  ghost predicate CountsBounded(s: Sys) {
    forall id :: id in s.d.leases ==> 0 <= s.d.leases[id].conns <= s.out[id]
  }

  ghost predicate CountsExact(s: Sys) {
    forall id :: id in s.d.leases ==> s.d.leases[id].conns == s.out[id]
  }

  lemma StepKeepsBounded(s: Sys, e: Event, s': Sys)
    requires Step(s, e, s') && CountsBounded(s)
    ensures CountsBounded(s')
  {
  }

  lemma {:induction false} CountsAreBounded(trace: seq<Sys>, events: seq<Event>, i: nat)
    requires IsRun(trace, events) && i < |trace|
    ensures CountsBounded(trace[i])
    decreases i
  {
    if i > 0 {
      CountsAreBounded(trace, events, i - 1);
      assert Step(trace[i - 1], events[i - 1], trace[i - 1 + 1]);
      StepKeepsBounded(trace[i - 1], events[i - 1], trace[i]);
    }
  }

  /** The event registers a session that has no outstanding request, or registers none. */
  predicate RegistersIdle(s: Sys, e: Event) {
    e.Create? && e.acquired ==> s.out[e.id] == 0
  }

  lemma StepKeepsExact(s: Sys, e: Event, s': Sys)
    requires Step(s, e, s') && CountsExact(s)
    ensures CountsExact(s') <==> RegistersIdle(s, e)
  {
    if e.Create? && e.acquired {
      assert s'.d.leases[e.id].conns == 0;
    }
  }

  /** Every count is exact throughout a run if and only if each Register found no request outstanding. */
  lemma CountsExactIffRegistersIdle(trace: seq<Sys>, events: seq<Event>)
    requires IsRun(trace, events)
    ensures (forall i :: 0 <= i < |trace| ==> CountsExact(trace[i]))
       <==> (forall i :: 0 <= i < |events| ==> RegistersIdle(trace[i], events[i]))
  {
    if forall i :: 0 <= i < |trace| ==> CountsExact(trace[i]) {
      forall i | 0 <= i < |events| ensures RegistersIdle(trace[i], events[i]) {
        assert Step(trace[i], events[i], trace[i + 1]) && CountsExact(trace[i + 1]);
        StepKeepsExact(trace[i], events[i], trace[i + 1]);
      }
    }
    if forall i :: 0 <= i < |events| ==> RegistersIdle(trace[i], events[i]) {
      forall i | 0 <= i < |trace| ensures CountsExact(trace[i]) {
        ExactUpTo(trace, events, i);
      }
    }
  }

  lemma {:induction false} ExactUpTo(trace: seq<Sys>, events: seq<Event>, i: nat)
    requires IsRun(trace, events) && i < |trace|
    requires forall j :: 0 <= j < |events| ==> RegistersIdle(trace[j], events[j])
    ensures CountsExact(trace[i])
    decreases i
  {
    if i > 0 {
      ExactUpTo(trace, events, i - 1);
      assert Step(trace[i - 1], events[i - 1], trace[i - 1 + 1]) && RegistersIdle(trace[i - 1], events[i - 1]);
      StepKeepsExact(trace[i - 1], events[i - 1], trace[i]);
    }
  }

  /** Then the idle rule spares every session with an outstanding request. */
  lemma BusyIsNotIdle(trace: seq<Sys>, events: seq<Event>, i: nat, id: string, now: int)
    requires IsRun(trace, events) && i < |trace|
    requires forall j :: 0 <= j < |events| ==> RegistersIdle(trace[j], events[j])
    requires id in trace[i].d.leases && id in trace[i].out
    ensures Expiry(trace[i].d.leases[id], now) != Some("idle_ttl_expired")
  {
    ExactUpTo(trace, events, i);
    assert "absolute_ttl_expired"[0] != "idle_ttl_expired"[0];
  }

  /** Without that, the idle rule kills a session under a request: one begun before the session was
      registered is not counted. */
  lemma BusyKilledAsIdle(id: string) returns (trace: seq<Sys>, events: seq<Event>)
    ensures IsRun(trace, events) && |trace| == 4
    ensures id in trace[2].d.leases && id in trace[2].out && id in trace[3].out
    ensures trace[3].d.kills == [Kill(id, "idle_ttl_expired")] && id !in trace[3].d.pinned
  {
    var lease := Fresh(10, 0, 0);
    var s0 := Sys(Desk(map[], {}, []), multiset{}, 0, 0, map[]);
    var s1 := s0.(out := multiset{id});
    var s2 := s1.(d := Desk(map[id := lease], {id}, []), since := map[id := 0]);
    var s3 := Sys(Desk(map[], {}, [Kill(id, "idle_ttl_expired")]), multiset{id}, 11, 11, map[]);
    trace := [s0, s1, s2, s3];
    events := [Begin(id), Create(id, 10, 0, true), Sweep];
    assert Step(s0, events[0], s1) && Step(s1, events[1], s2);
    assert Expired(s2.d.leases, 11) == {id};
    assert s2.d.leases - {id} == map[] && s2.d.pinned - {id} == {};
    assert s3.d.kills[0..] == [Cause(s2.d.leases, 11, id)];
    assert Swept(s2.d, 11, s3.d);
    assert Step(s2, events[2], s3);
  }

  // ---------------------------------------------------------------------------
  // What an event leaves alone
  // ---------------------------------------------------------------------------

  /** Every event but a sweep concerns one session. */
  lemma EventIsLocal(s: Sys, e: Event, s': Sys, id: string)
    requires Step(s, e, s') && !e.Sweep? && e.id != id
    ensures id in s'.d.leases <==> id in s.d.leases
    ensures id in s.d.leases ==> s'.d.leases[id] == s.d.leases[id]
    ensures (id in s'.d.pinned <==> id in s.d.pinned) && s'.out[id] == s.out[id]
    ensures s.d.kills <= s'.d.kills && forall k :: k in s'.d.kills[|s.d.kills|..] ==> k.id == e.id
  {
  }

  /** A heartbeat keeps no session alive, and a request does so only while it runs and by ending:
      the idle clock starts again there. */
  lemma WhatKeepsAlive(s: Sys, e: Event, s': Sys, now: int)
    requires Step(s, e, s') && (e.Heartbeat? || e.Begin? || e.End?) && e.id in s'.d.leases
    requires SweptLeases(s)
    ensures e.id in s.d.leases
    ensures e.Heartbeat? ==> Expiry(s'.d.leases[e.id], now) == Expiry(s.d.leases[e.id], now)
    ensures Expiry(s'.d.leases[e.id], now) == Some("absolute_ttl_expired")
       <==> Expiry(s.d.leases[e.id], now) == Some("absolute_ttl_expired")
    ensures e.Begin? ==> Expiry(s'.d.leases[e.id], now) != Some("idle_ttl_expired")
    ensures e.End? && now - s'.now <= s'.d.leases[e.id].idleTTL
      ==> Expiry(s'.d.leases[e.id], now) != Some("idle_ttl_expired")
  {
    assert "absolute_ttl_expired"[0] != "idle_ttl_expired"[0];
  }

  // ---------------------------------------------------------------------------
  // Lifetimes
  // ---------------------------------------------------------------------------

  /** No event comes more than p after the sweep before it. */
  ghost predicate Timely(trace: seq<Sys>, p: int) {
    forall i :: 0 <= i < |trace| - 1 ==> trace[i + 1].now - trace[i].swept <= p
  }

  /** What the last sweep left, and leases registered or used since. */
  ghost predicate SweptLeases(s: Sys) {
    && s.swept <= s.now
    && forall id :: id in s.d.leases ==>
         var l := s.d.leases[id];
         && (l.absoluteTTL > 0 ==> s.swept - l.created <= l.absoluteTTL)
         && (l.idleTTL > 0 && l.conns == 0 ==> s.swept - l.lastData <= l.idleTTL)
         && l.conns >= 0
  }

  lemma StepKeepsSwept(s: Sys, e: Event, s': Sys)
    requires Step(s, e, s') && SweptLeases(s)
    ensures SweptLeases(s')
  {
  }

  lemma {:induction false} SweptInRun(trace: seq<Sys>, events: seq<Event>, i: nat)
    requires IsRun(trace, events) && i < |trace|
    ensures SweptLeases(trace[i])
    decreases i
  {
    if i > 0 {
      SweptInRun(trace, events, i - 1);
      assert Step(trace[i - 1], events[i - 1], trace[i - 1 + 1]);
      StepKeepsSwept(trace[i - 1], events[i - 1], trace[i]);
    }
  }

  /** With sweeps at most p apart, no lease and no pinned session outlives its absolute TTL by more
      than p, nor sits idle more than p past its idle TTL. */
  lemma NoneOutlives(trace: seq<Sys>, events: seq<Event>, i: nat, id: string, p: nat)
    requires IsRun(trace, events) && i < |trace| && Timely(trace, p) && id in trace[i].d.pinned
    ensures id in trace[i].d.leases
    ensures var l, now := trace[i].d.leases[id], trace[i].now;
      && (l.absoluteTTL > 0 ==> now - l.created <= l.absoluteTTL + p)
      && (l.idleTTL > 0 && l.conns == 0 ==> now - l.lastData <= l.idleTTL + p)
  {
    LeasesArePins(trace, events, i);
    SweptInRun(trace, events, i);
    if i > 0 {
      assert Step(trace[i - 1], events[i - 1], trace[i - 1 + 1]);
      assert trace[i - 1 + 1].now - trace[i - 1].swept <= p;
    }
  }

  // ---------------------------------------------------------------------------
  // Lifetimes of pins
  // ---------------------------------------------------------------------------

  /** Every lease dates from the pinning of its session. */
  ghost predicate LeasesDatePins(s: Sys) {
    forall id :: id in s.d.leases && id in s.since ==> s.d.leases[id].created == s.since[id]
  }

  /** The event is no Create that succeeds, later, on a session that Acquire finds pinned. */
  ghost predicate CreatesUnpinned(s: Sys, e: Event, s': Sys) {
    e.Create? && e.acquired && e.id in s.since ==> s'.now == s.since[e.id]
  }

  lemma StepDatesPins(s: Sys, e: Event, s': Sys)
    requires Step(s, e, s') && s.d.leases.Keys == s.d.pinned == s.since.Keys && LeasesDatePins(s)
    ensures LeasesDatePins(s') <==> CreatesUnpinned(s, e, s')
  {
    if e.Create? && e.acquired {
      assert s'.d.leases[e.id].created == s'.now;
    }
  }

  lemma DatedNext(trace: seq<Sys>, events: seq<Event>, i: nat)
    requires IsRun(trace, events) && i < |events| && LeasesDatePins(trace[i])
    ensures LeasesDatePins(trace[i + 1]) <==> CreatesUnpinned(trace[i], events[i], trace[i + 1])
  {
    LeasesArePins(trace, events, i);
    assert Step(trace[i], events[i], trace[i + 1]);
    StepDatesPins(trace[i], events[i], trace[i + 1]);
  }

  lemma {:induction false} DatedUpTo(trace: seq<Sys>, events: seq<Event>, i: nat)
    requires IsRun(trace, events) && i < |trace|
    requires forall j :: 0 <= j < i ==> CreatesUnpinned(trace[j], events[j], trace[j + 1])
    ensures LeasesDatePins(trace[i])
    decreases i
  {
    if i > 0 {
      DatedUpTo(trace, events, i - 1);
      assert CreatesUnpinned(trace[i - 1], events[i - 1], trace[i - 1 + 1]);
      DatedNext(trace, events, i - 1);
    }
  }

  /** Throughout a run every lease dates from the pinning of its session, if and only if no Create
      succeeded on a session pinned since an earlier time. */
  lemma LeasesDatePinsIff(trace: seq<Sys>, events: seq<Event>)
    requires IsRun(trace, events)
    ensures (forall i :: 0 <= i < |trace| ==> LeasesDatePins(trace[i]))
       <==> (forall i :: 0 <= i < |events| ==> CreatesUnpinned(trace[i], events[i], trace[i + 1]))
  {
    if forall i :: 0 <= i < |trace| ==> LeasesDatePins(trace[i]) {
      forall i | 0 <= i < |events| ensures CreatesUnpinned(trace[i], events[i], trace[i + 1]) {
        assert LeasesDatePins(trace[i + 1]);
        DatedNext(trace, events, i);
      }
    }
    if forall i :: 0 <= i < |events| ==> CreatesUnpinned(trace[i], events[i], trace[i + 1]) {
      forall i | 0 <= i < |trace| ensures LeasesDatePins(trace[i]) {
        DatedUpTo(trace, events, i);
      }
    }
  }

  /** Then, with sweeps at most p apart, no session stays pinned for more than its absolute TTL and p. */
  lemma NoPinOutlives(trace: seq<Sys>, events: seq<Event>, i: nat, id: string, p: nat)
    requires IsRun(trace, events) && i < |trace| && Timely(trace, p) && id in trace[i].d.pinned
    requires forall j :: 0 <= j < i ==> CreatesUnpinned(trace[j], events[j], trace[j + 1])
    ensures id in trace[i].since && id in trace[i].d.leases
    ensures var l := trace[i].d.leases[id];
      l.absoluteTTL > 0 ==> trace[i].now - trace[i].since[id] <= l.absoluteTTL + p
  {
    NoneOutlives(trace, events, i, id, p);
    LeasesArePins(trace, events, i);
    DatedUpTo(trace, events, i);
  }

  /** A session pinned at time 0 whose lease was made now, just after a sweep. */
  function Renewed(id: string, ttl: nat, now: int): Sys {
    Sys(Desk(map[id := Fresh(0, ttl, now)], {id}, []), multiset{}, now, now, map[id := 0])
  }

  /** Otherwise no bound holds: with any absolute TTL of at least p and a sweep every p, a session
      that is created again after each sweep stays pinned for n * p, for every n. */
  lemma {:induction false} PinOutlives(id: string, ttl: nat, p: nat, n: nat)
    returns (trace: seq<Sys>, events: seq<Event>)
    requires p <= ttl
    ensures IsRun(trace, events) && Timely(trace, p) && trace[|events|] == Renewed(id, ttl, n * p)
    decreases n
  {
    if n == 0 {
      trace := [Sys(Desk(map[], {}, []), multiset{}, 0, 0, map[]), Renewed(id, ttl, 0)];
      events := [Create(id, 0, ttl, true)];
      assert Step(trace[0], events[0], trace[1]);
    } else {
      trace, events := PinOutlives(id, ttl, p, n - 1);
      OneMoreTurn(n, p);
      trace, events := RenewAgain(trace, events, id, ttl, p, (n - 1) * p, n * p);
    }
  }

  lemma OneMoreTurn(n: nat, p: nat)
    requires n > 0
    ensures n * p == (n - 1) * p + p
  {
  }

  /** A sweep and another Create. */
  lemma RenewAgain(trace: seq<Sys>, events: seq<Event>, id: string, ttl: nat, p: nat, now: int, now': int)
    returns (trace': seq<Sys>, events': seq<Event>)
    requires IsRun(trace, events) && Timely(trace, p) && trace[|events|] == Renewed(id, ttl, now)
    requires now' == now + p && p <= ttl
    ensures IsRun(trace', events') && Timely(trace', p) && trace'[|events'|] == Renewed(id, ttl, now')
  {
    var s := trace[|events|];
    var swept := s.(now := now', swept := now');
    NothingExpired(s.d, now');
    trace', events' := Longer(trace, events, Sweep, swept, p);
    trace', events' := Longer(trace', events', Create(id, 0, ttl, true), Renewed(id, ttl, now'), p);
  }

  lemma NothingExpired(d: Desk, now: int)
    requires Expired(d.leases, now) == {}
    ensures Swept(d, now, d)
  {
    assert d.leases - {} == d.leases && d.pinned - {} == d.pinned && d.kills[|d.kills|..] == [];
  }

  /** A run by one event more. */
  lemma Longer(trace: seq<Sys>, events: seq<Event>, e: Event, s: Sys, p: int)
    returns (trace': seq<Sys>, events': seq<Event>)
    requires IsRun(trace, events) && Timely(trace, p)
    requires Step(trace[|events|], e, s) && s.now - trace[|events|].swept <= p
    ensures trace' == trace + [s] && events' == events + [e] && IsRun(trace', events') && Timely(trace', p)
  {
    trace', events' := trace + [s], events + [e];
    forall i | 0 <= i < |events'| ensures Step(trace'[i], events'[i], trace'[i + 1]) {
      if i < |events| {
        assert Step(trace[i], events[i], trace[i + 1]);
      }
    }
    forall i | 0 <= i < |trace'| - 1 ensures trace'[i + 1].now - trace'[i].swept <= p {
      if i < |events| {
        assert trace[i + 1].now - trace[i].swept <= p;
      }
    }
  }
}
