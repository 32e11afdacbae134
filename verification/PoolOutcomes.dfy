/** How Acquire ends, over every run of the pool protocol: a call that ends without a worker had a
    reason of its own, and one that waits for a worker that is pinned and not killed ends with it. */
module PoolOutcomes {
  import opened Counting
  import opened PoolInvariant
  import opened PoolProtocol
  import opened PoolSafety
  import opened Wrappers

  // ---------------------------------------------------------------------------
  // No failure without a reason
  // ---------------------------------------------------------------------------

  /** The call has failed, or is bound to. */
  predicate Failing(pc: Pc) {
    pc.UndoIp? || pc.UndoUid? || pc.SpawnFailed? || pc.FailDelete? || ((pc.CloseCh? || pc.Done?) && pc.result.None?)
  }

  /** The thread's context ended while it waited, its spawn failed, or it found no UID. */
  predicate Reason(s: State, l: Label, t: Tid) {
    && l.Act? && l.t == t && t in s.threads
    && var pc := s.threads[t];
      || (l.c.Cancel? && (pc.Waiting? || pc.WantTicket?))
      || (l.c.Fail? && (pc.SpawnUid? || pc.SpawnIp?))
      || (pc.Spawning? && s.p.uids.queue == [])
  }

  lemma FailsForReason(s: State, t: Tid, c: Choice, s': State)
    requires Step(s, Act(t, c), s') && Failing(s'.threads[t])
    ensures Failing(s.threads[t]) || Reason(s, Act(t, c), t)
  {
  }

  lemma OthersStay(s: State, l: Label, s': State, t: Tid)
    requires Step(s, l, s') && l.t != t
    ensures t in s'.threads <==> t in s.threads
    ensures t in s.threads ==> s'.threads[t] == s.threads[t]
  {
  }

  lemma FailsAt(s: State, l: Label, s': State, t: Tid)
    requires Step(s, l, s') && t in s'.threads && Failing(s'.threads[t])
    ensures Reason(s, l, t) || (t in s.threads && Failing(s.threads[t]))
  {
    if l.t != t {
      OthersStay(s, l, s', t);
    } else if l.Act? {
      FailsForReason(s, t, l.c, s');
    }
  }

  /** Over every run: a call that is failing, or has ended without a worker, took a step of its own
      that failed. In particular no waiter gives up because another call is done. */
  lemma {:induction false} FailureHasReason(r: Run, j: nat, t: Tid) returns (i: nat)
    requires r.Valid() && j < |r.trace| && t in r.trace[j].threads && Failing(r.trace[j].threads[t])
    ensures i < j && Reason(r.trace[i], r.labels[i], t)
    decreases j
  {
    assert j > 0;
    assert Step(r.trace[j - 1], r.labels[j - 1], r.trace[j - 1 + 1]);
    FailsAt(r.trace[j - 1], r.labels[j - 1], r.trace[j], t);
    if Reason(r.trace[j - 1], r.labels[j - 1], t) {
      i := j - 1;
    } else {
      i := FailureHasReason(r, j - 1, t);
    }
  }

  /** Neither the context of the call ends nor its spawn fails, from state i to state j. */
  ghost predicate Undisturbed(r: Run, i: nat, j: nat, t: Tid) {
    r.Valid() && i <= j < |r.trace|
    && forall h :: i <= h < j ==> r.labels[h] != Act(t, Cancel) && r.labels[h] != Act(t, Fail)
  }

  /** With a UID for every ticket, an undisturbed call can end only with a worker. */
  lemma UndisturbedIsServed(r: Run, j: nat, t: Tid)
    requires Undisturbed(r, 0, j, t) && r.size >= r.max
    requires t in r.trace[j].threads && r.trace[j].threads[t].Done?
    ensures r.trace[j].threads[t].result.Some?
  {
    if r.trace[j].threads[t].result.None? {
      var i := FailureHasReason(r, j, t);
      assert r.labels[i] != Act(t, Cancel) && r.labels[i] != Act(t, Fail);
      CheckoutNeverExhausts(r, r.trace[i], t);
    }
  }

  // ---------------------------------------------------------------------------
  // Waiting for a worker
  // ---------------------------------------------------------------------------

  /** The call has yet to look the session up, once or once more. */
  predicate Asking(pc: Pc, sid: string) {
    (pc.Lookup? || pc.Waiting?) && pc.sid == sid
  }

  predicate AskingOrServed(s: State, t: Tid, sid: string, w: Worker) {
    t in s.threads && (Asking(s.threads[t], sid) || s.threads[t] == Done(sid, Some(w)))
  }

  lemma AskingStep(s: State, l: Label, s': State, t: Tid, sid: string, w: Worker)
    requires Step(s, l, s') && PinnedTo(s, sid, w) && l != Act(t, Cancel)
    requires AskingOrServed(s, t, sid, w)
    ensures AskingOrServed(s', t, sid, w)
  {
    if l.t != t {
      OthersStay(s, l, s', t);
    }
  }

  /** While the session stays pinned, a call for it that is not cancelled can end only with its worker. */
  lemma {:induction false} AskerGetsPin(r: Run, i: nat, j: nat, t: Tid, sid: string, w: Worker)
    requires KillFree(r, i, j, sid) && Undisturbed(r, i, j, t) && PinnedTo(r.trace[i], sid, w)
    requires AskingOrServed(r.trace[i], t, sid, w)
    ensures AskingOrServed(r.trace[j], t, sid, w)
    decreases j - i
  {
    if i < j {
      assert Step(r.trace[i], r.labels[i], r.trace[i + 1]) && r.labels[i] != Act(t, Cancel);
      AskingStep(r.trace[i], r.labels[i], r.trace[i + 1], t, sid, w);
      PinStaysAt(r, i, sid, w);
      AskerGetsPin(r, i + 1, j, t, sid, w);
    }
  }

  lemma ClosedStays(s: State, l: Label, s': State)
    requires Step(s, l, s')
    ensures s.p.closed <= s'.p.closed
  {
  }

  lemma WaitingStep(s: State, l: Label, s': State, t: Tid, sid: string, ch: nat)
    requires Step(s, l, s') && l != Act(t, Cancel) && ch !in s'.p.closed
    requires t in s.threads && s.threads[t] == Waiting(sid, ch)
    ensures ch !in s.p.closed && t in s'.threads && s'.threads[t] == Waiting(sid, ch)
  {
    ClosedStays(s, l, s');
    if l.t != t {
      OthersStay(s, l, s', t);
    }
  }

  lemma {:induction false} OpenBefore(r: Run, i: nat, j: nat, ch: nat)
    requires r.Valid() && i <= j < |r.trace| && ch !in r.trace[j].p.closed
    ensures ch !in r.trace[i].p.closed
    decreases j - i
  {
    if i < j {
      OpenBefore(r, i + 1, j, ch);
      assert Step(r.trace[i], r.labels[i], r.trace[i + 1]);
      ClosedStays(r.trace[i], r.labels[i], r.trace[i + 1]);
    }
  }

  /** Until its channel is closed, a waiter that is not cancelled waits. */
  lemma {:induction false} StillWaiting(r: Run, i: nat, j: nat, t: Tid, sid: string, ch: nat)
    requires Undisturbed(r, i, j, t) && ch !in r.trace[j].p.closed
    requires t in r.trace[i].threads && r.trace[i].threads[t] == Waiting(sid, ch)
    ensures t in r.trace[j].threads && r.trace[j].threads[t] == Waiting(sid, ch)
    decreases j - i
  {
    if i < j {
      OpenBefore(r, i + 1, j, ch);
      assert Step(r.trace[i], r.labels[i], r.trace[i + 1]) && r.labels[i] != Act(t, Cancel);
      WaitingStep(r.trace[i], r.labels[i], r.trace[i + 1], t, sid, ch);
      StillWaiting(r, i + 1, j, t, sid, ch);
    }
  }

  /** A waiter gets the worker of the call that it waits for: if that call pins w at step h, and from
      there on nobody kills the session, a waiter that is not cancelled can end only with w. */
  lemma WaiterGetsWorker(r: Run, i: nat, h: nat, j: nat, t: Tid, k: Tid, sid: string, ch: nat, w: Worker)
    requires i <= h < j && Undisturbed(r, i, j, t) && KillFree(r, h, j, sid)
    requires t in r.trace[i].threads && r.trace[i].threads[t] == Waiting(sid, ch)
    requires k in r.trace[h].threads && r.trace[h].threads[k] == Pin(sid, ch, w) && r.labels[h] == Act(k, Go)
    ensures t in r.trace[j].threads
    ensures r.trace[j].threads[t].Done? ==> r.trace[j].threads[t] == Done(sid, Some(w))
  {
    OwnedIsOpen(r, h, k);
    StillWaiting(r, i, h, t, sid, ch);
    assert Step(r.trace[h], r.labels[h], r.trace[h + 1]);
    assert t != k && PinnedTo(r.trace[h + 1], sid, w);
    AskerGetsPin(r, h + 1, j, t, sid, w);
  }

  /** The channel of a call that has yet to close it is open. */
  lemma OwnedIsOpen(r: Run, i: nat, k: Tid)
    requires r.Valid() && i < |r.trace| && k in r.trace[i].threads && r.trace[i].threads[k].Pin?
    ensures r.trace[i].threads[k].ch !in r.trace[i].p.closed
  {
    RunKeeps(r, i);
    var s := r.trace[i];
    assert Owns(s.threads[k]) == Some(s.threads[k].ch);
    SumMember(s.threads, k, Is(Owns, s.threads[k].ch));
  }
}
