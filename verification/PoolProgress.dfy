/** Progress of the pool protocol: calls finish in a bounded number of steps, and the only way to
    block without a context to cancel is to want a ticket when max sessions are pinned. */
module PoolProgress {
  import opened Counting
  import opened PoolInvariant
  import opened PoolProtocol
  import opened PoolSafety

  // ---------------------------------------------------------------------------
  // Deadlock
  // ---------------------------------------------------------------------------

  /** The only steps left are cancellations. */
  ghost predicate Stuck(s: State) {
    forall t, c :: t in s.threads && Enabled(s.p, s.threads[t], c) ==> c.Cancel?
  }

  predicate Finished(pc: Pc) {
    pc.Done? || pc.Killed?
  }

  /** A stuck thread is finished, waits for a ticket, or waits on an open channel. */
  lemma StuckThread(r: Run, s: State, t: Tid)
    requires Reached(r, s) && Stuck(s) && t in s.threads
    ensures var pc := s.threads[t];
      Finished(pc) || (pc.WantTicket? && s.p.tickets == 0) || (pc.Waiting? && pc.ch !in s.p.closed)
  {
    var pc := s.threads[t];
    assert Enabled(s.p, s.threads[t], Go) ==> Go.Cancel?;
    assert Enabled(s.p, s.threads[t], Fail) ==> Fail.Cancel?;
    if pc.SpawnFailed? || pc.ReturnTicket? {
      SendsNeverBlock(r, s, t);
    }
  }

  /** If a call is blocked and nothing can move without a cancellation, no ticket is free and
      exactly max sessions are pinned. */
  lemma BlockedMeansFull(r: Run, s: State, t: Tid)
    requires Reached(r, s) && Stuck(s) && t in s.threads && !Finished(s.threads[t])
    ensures s.p.tickets == 0 && |s.p.registry| == r.max
  {
    StuckThread(r, s, t);
    if s.threads[t].Waiting? {
      var owner := NoLostWakeup(r, s, t);
      StuckThread(r, s, owner);
    }
    TicketsConserved(r, s);
    forall k | k in s.threads ensures TicketIn(s.threads[k]).None? {
      StuckThread(r, s, k);
    }
    assert Spawners(s) == {} && Killers(s) == {};
  }

  /** If not even a cancellation is left, every call has returned. */
  lemma HaltedMeansFinished(r: Run, s: State, t: Tid)
    requires Reached(r, s) && t in s.threads
    requires forall k, c :: k in s.threads ==> !Enabled(s.p, s.threads[k], c)
    ensures Finished(s.threads[t])
  {
    StuckThread(r, s, t);
    assert !Enabled(s.p, s.threads[t], Cancel);
  }

  // ---------------------------------------------------------------------------
  // Termination
  // ---------------------------------------------------------------------------

  /** How far a thread is from its end, with n calls under way: a close may send each other one back to Lookup. */
  function Distance(closed: set<nat>, n: nat): Pc -> nat {
    (pc: Pc) =>
      match pc
      case Lookup(_) => 2 * n + 10
      case Waiting(_, ch) => if ch in closed then 2 * n + 11 else 2 * n + 9
      case WantTicket(_, _) => 2 * n + 9
      case Spawning(_, _) => 2 * n + 8
      case SpawnUid(_, _, _) => 2 * n + 7
      case SpawnIp(_, _, _, _) => 2 * n + 6
      case UndoIp(_, _, _, _) => 2 * n + 5
      case UndoUid(_, _, _) => 2 * n + 4
      case SpawnFailed(_, _) => 2 * n + 3
      case Wire(_, _, _) => 2 * n + 3
      case Pin(_, _, _) => 2 * n + 2
      case FailDelete(_, _) => 2 * n + 2
      case CloseCh(_, _, _) => 2 * n + 1
      case Done(_, _) => 0
      case KillLookup(_) => 5
      case Closing(_) => 4
      case ClosingUid(_) => 3
      case Removing(_) => 2
      case ReturnTicket(_) => 1
      case Killed => 0
  }

  /** The calls that have not returned. */
  function UnderWay(s: State): set<Tid> {
    set t | t in s.threads && !Finished(s.threads[t])
  }

  function Running(): Pc -> nat {
    (pc: Pc) => if Finished(pc) then 0 else 1
  }

  lemma UnderWayCounts(s: State)
    ensures |UnderWay(s)| == Sum(s.threads, Running())
  {
    SumCounts(s.threads, Running());
    assert UnderWay(s) == Ones(s.threads, Running());
  }

  ghost function Measure(s: State, n: nat): nat {
    Sum(s.threads, Distance(s.p.closed, n))
  }

  /** A step brings its thread nearer; only CloseCh touches the closed channels, and it ends its thread. */
  lemma NextIsNearer(p: Pool, pc: Pc, c: Choice, n: nat)
    requires Enabled(p, pc, c)
    requires pc.Lookup? && pc.sid in p.inflight ==> p.inflight[pc.sid] !in p.closed
    ensures var (p', pc') := Next(p, pc, c);
      if pc.CloseCh? then pc'.Done? && p'.closed == p.closed + {pc.ch}
      else p'.closed == p.closed && Distance(p.closed, n)(pc') < Distance(p.closed, n)(pc)
  {
  }

  /** A close sets back each call that has not returned, by at most 2. */
  lemma CloseSetsBack(closed: set<nat>, closed': set<nat>, n: nat, pc: Pc)
    ensures Distance(closed', n)(pc) <= Distance(closed, n)(pc) + 2 * Running()(pc)
  {
  }

  /** One thread ends by closing a channel, or comes nearer with no channel closed. */
  lemma SumDecreases(threads: map<Tid, Pc>, t: Tid, pc: Pc, closed: set<nat>, closed': set<nat>, n: nat)
    requires t in threads && Sum(threads, Running()) <= n
    requires if threads[t].CloseCh? then pc.Done?
             else closed' == closed && Distance(closed, n)(pc) < Distance(closed, n)(threads[t])
    ensures Sum(threads[t := pc], Distance(closed', n)) < Sum(threads, Distance(closed, n))
  {
    var far, near := Distance(closed, n), Distance(closed', n);
    SumMember(threads, t, Running());
    if threads[t].CloseCh? {
      forall k | k in threads ensures near(threads[k]) <= far(threads[k]) + 2 * Running()(threads[k]) {
        CloseSetsBack(closed, closed', n, threads[k]);
      }
      SumDrops(threads, t, pc, far, near, Running(), 2);
    } else {
      SumDrops(threads, t, pc, far, near, Running(), 0);
    }
  }

  /** No returned call runs again. */
  lemma UnderWayShrinks(s: State, t: Tid, c: Choice, s': State)
    requires Step(s, Act(t, c), s')
    ensures |UnderWay(s')| <= |UnderWay(s)|
  {
    UnderWayCounts(s);
    UnderWayCounts(s');
    SumUpdate(s.threads, t, s'.threads[t], Running());
  }

  /** With at most n calls under way, every step decreases one measure over all of them. */
  lemma MeasureDecreases(s: State, t: Tid, c: Choice, s': State, n: nat)
    requires Inv(s) && Step(s, Act(t, c), s') && |UnderWay(s)| <= n
    ensures Measure(s', n) < Measure(s, n)
  {
    var pc := s.threads[t];
    if pc.Lookup? && pc.sid in s.p.inflight {
      InflightIsOpen(s, pc.sid);
    }
    NextIsNearer(s.p, pc, c, n);
    UnderWayCounts(s);
    SumDecreases(s.threads, t, s'.threads[t], s.p.closed, s'.p.closed, n);
  }

  /** Stretches of a run in which no new call arrives. */
  ghost predicate NoArrivals(r: Run, i: nat, j: nat) {
    i <= j < |r.trace| && |r.labels| + 1 == |r.trace| && forall k :: i <= k < j ==> r.labels[k].Act?
  }

  lemma MeasureAt(r: Run, i: nat, n: nat)
    requires r.Valid() && i < |r.labels| && r.labels[i].Act? && |UnderWay(r.trace[i])| <= n
    ensures |UnderWay(r.trace[i + 1])| <= n && Measure(r.trace[i + 1], n) < Measure(r.trace[i], n)
  {
    RunKeeps(r, i);
    var s, l := r.trace[i], r.labels[i];
    assert Step(s, l, r.trace[i + 1]);
    UnderWayShrinks(s, l.t, l.c, r.trace[i + 1]);
    MeasureDecreases(s, l.t, l.c, r.trace[i + 1], n);
  }

  lemma {:induction false} MeasureInRun(r: Run, i: nat, j: nat, n: nat)
    requires r.Valid() && NoArrivals(r, i, j) && |UnderWay(r.trace[i])| <= n
    ensures |UnderWay(r.trace[j])| <= n
    ensures Measure(r.trace[j], n) + (j - i) <= Measure(r.trace[i], n)
    decreases j - i
  {
    if i < j {
      MeasureInRun(r, i, j - 1, n);
      MeasureAt(r, j - 1, n);
    }
  }

  lemma MeasureBounded(s: State, n: nat, d: nat)
    requires n == |UnderWay(s)| && d == 2 * n + 11
    ensures Measure(s, n) <= d * n
  {
    UnderWayCounts(s);
    SumAtMost(s.threads, Distance(s.p.closed, n), Running(), d);
  }

  /** With n calls under way and no new ones, at most n(2n+11) steps are left, however they
      interleave and however many calls have returned before. */
  lemma CallsFinish(r: Run, i: nat, j: nat)
    requires r.Valid() && NoArrivals(r, i, j)
    ensures var n := |UnderWay(r.trace[i])|; j - i <= (2 * n + 11) * n
  {
    var n := |UnderWay(r.trace[i])|;
    MeasureInRun(r, i, j, n);
    MeasureBounded(r.trace[i], n, 2 * n + 11);
  }
}
