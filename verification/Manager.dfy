/** The lease table as it is kept (internal/lifecycle): a map to session states that requests update
    in place, and the pool whose workers it kills. Each method is proved to be its operation in
    Lifecycle; the controller's calls (internal/daemon/controller.go) put them together with Acquire. */
module Manager {
  import opened LeaseHistory
  import opened Lifecycle
  import SessionPool

  class SessionState {
    var createdAt: int
    var lastControlHeartbeat: int
    var lastDataActivity: int
    var activeConns: int
    const idleTTL: int
    const absoluteTTL: int

    ghost function Lease(): Lifecycle.Lease
      reads this
    {
      Lifecycle.Lease(createdAt, lastControlHeartbeat, lastDataActivity, activeConns, idleTTL, absoluteTTL)
    }

    constructor (idleTTL: int, absoluteTTL: int, now: int)
      ensures Lease() == Fresh(idleTTL, absoluteTTL, now)
    {
      createdAt := now;
      lastControlHeartbeat := now;
      lastDataActivity := now;
      activeConns := 0;
      this.idleTTL := idleTTL;
      this.absoluteTTL := absoluteTTL;
    }
  }

  class Manager {
    var registry: map<string, SessionState>
    const reaper: SessionPool.SessionPool
    ghost var kills: seq<Kill>   // the calls made to the reaper

    /** No two sessions share a state. */
    ghost predicate Valid()
      reads this, reaper
    {
      reaper.Valid() && Unshared(registry)
    }

    ghost function Leases(): map<string, Lifecycle.Lease>
      reads this`registry, registry.Values
    {
      Shown(registry)
    }

    ghost function Contents(): Desk
      reads this, registry.Values, reaper
    {
      Desk(Leases(), reaper.registry.Keys, kills)
    }

    constructor (pool: SessionPool.SessionPool)
      requires pool.Valid()
      ensures Valid() && reaper == pool && Contents() == Desk(map[], pool.registry.Keys, [])
    {
      registry := map[];
      reaper := pool;
      kills := [];
    }

    method Register(id: string, idleTTL: int, absoluteTTL: int, now: int)
      requires Valid()
      modifies this`registry
      ensures Valid() && Contents() == Registered(old(Contents()), id, idleTTL, absoluteTTL, now)
      ensures id in registry && fresh(registry[id]) && registry == old(registry)[id := registry[id]]
    {
      var s := new SessionState(idleTTL, absoluteTTL, now);
      assert Shown(registry[id := s]) == Shown(registry)[id := s.Lease()];
      registry := registry[id := s];
    }

    method Remove(id: string)
      requires Valid()
      modifies this`registry
      ensures Valid() && registry == old(registry) - {id}
      ensures Contents() == old(Contents()).(leases := old(Leases()) - {id})
    {
      registry := registry - {id};
    }

    /** The pool's KillWorker, of which the table sees that the ID is no longer pinned. */
    method Unpin(id: string)
      requires Valid()
      modifies reaper
      ensures Valid() && Contents() == old(Contents()).(pinned := old(Contents()).pinned - {id})
    {
      var w, cs := reaper.KillWorker(id);
    }

    ghost method Record(id: string, reason: string)
      requires Valid()
      modifies this`kills
      ensures Valid() && Contents() == old(Contents()).(kills := old(kills) + [Kill(id, reason)])
    {
      kills := kills + [Kill(id, reason)];
    }

    /** The call to KillWorker, whose Close never fails. */
    method KillWorker(id: string, reason: string)
      requires Valid()
      modifies this`kills, reaper
      ensures Valid() && Contents() == Lifecycle.Killed(old(Contents()), id, reason)
    {
      Unpin(id);
      Record(id, reason);
    }

    method UnregisterAndKill(id: string, reason: string)
      requires Valid()
      modifies this`registry, this`kills, reaper
      ensures Valid() && registry == old(registry) - {id}
      ensures Contents() == Dropped(old(Contents()), id, reason)
    {
      Remove(id);
      KillWorker(id, reason);
    }

    method UpdateHeartbeat(id: string, now: int)
      requires Valid()
      modifies registry.Values
      ensures Valid() && Contents() == Beaten(old(Contents()), id, now)
    {
      if id !in registry {
        return;
      }
      var s := registry[id];
      s.lastControlHeartbeat := now;
    }

    method BeginRequest(id: string)
      requires Valid()
      modifies registry.Values
      ensures Valid() && Contents() == Begun(old(Contents()), id)
    {
      if id !in registry {
        return;
      }
      var s := registry[id];
      s.activeConns := s.activeConns + 1;
    }

    /** The state is updated before the kill that makes it unreachable. */
    method EndRequest(id: string, deadlineExceeded: bool, now: int)
      requires Valid()
      modifies this`registry, this`kills, reaper, registry.Values
      ensures Valid() && Contents() == Ended(old(Contents()), id, deadlineExceeded, now)
      ensures Ends(old(Contents()), id, deadlineExceeded, now, Contents())
    {
      EndedEnds(Contents(), id, deadlineExceeded, now);
      if id !in registry {
        return;
      }
      SettledThenDropped(Contents(), id, now, "data_plane_deadlock");
      Settle(id, now);
      if deadlineExceeded {
        KillAndRemove(id, "data_plane_deadlock");
      }
    }

    method KillAndRemove(id: string, reason: string)
      requires Valid()
      modifies this`registry, this`kills, reaper
      ensures Valid() && Contents() == Dropped(old(Contents()), id, reason)
    {
      KillWorker(id, reason);
      Remove(id);
    }

    method Settle(id: string, now: int)
      requires Valid() && id in registry
      modifies registry.Values
      ensures Valid() && Contents() == Ended(old(Contents()), id, false, now)
    {
      var s := registry[id];
      s.activeConns := s.activeConns - 1;
      if s.activeConns < 0 {
        s.activeConns := 0;
      }
      s.lastDataActivity := now;
      assert Leases() == old(Leases())[id := s.Lease()];
    }

    /** A copy of every lease, in any order. */
    method ListSessions() returns (sessions: seq<(string, Lifecycle.Lease)>)
      requires Valid()
      ensures |sessions| == |registry|
      ensures forall id, l :: (id, l) in sessions <==> id in registry && registry[id].Lease() == l
    {
      var todo := registry.Keys;
      sessions := [];
      while todo != {}
        invariant todo <= registry.Keys && |sessions| + |todo| == |registry|
        invariant forall id, l :: (id, l) in sessions <==> id in registry && id !in todo && registry[id].Lease() == l
      {
        var id :| id in todo;
        var s := registry[id];
        sessions := sessions + [(id, Lifecycle.Lease(s.createdAt, s.lastControlHeartbeat, s.lastDataActivity,
                                                     s.activeConns, s.idleTTL, s.absoluteTTL))];
        todo := todo - {id};
      }
    }

    /** The rules of the reaper for one session. */
    method Judge(id: string, state: SessionState, now: int)
      requires Valid()
      modifies this`registry, this`kills, reaper
      ensures Valid() && Contents() == Judged(old(Contents()), id, state.Lease(), now)
    {
      if state.absoluteTTL > 0 && now - state.createdAt > state.absoluteTTL {
        UnregisterAndKill(id, "absolute_ttl_expired");
      } else if state.idleTTL > 0 && state.activeConns == 0 && now - state.lastDataActivity > state.idleTTL {
        UnregisterAndKill(id, "idle_ttl_expired");
      }
    }

    /** One pass of the reaper, over a snapshot of the table, in any order. */
    method Sweep(now: int)
      requires Valid()
      modifies this`registry, this`kills, reaper
      ensures Valid() && Swept(old(Contents()), now, Contents()) && SweepsPast(old(Contents()), now, Contents())
    {
      ghost var d := Contents();
      ghost var order := SweepSnapshot(registry, now);
      SweepIsExact(d, now, order);
      SweptIsPast(d, now, Contents());
    }

    method SweepSnapshot(sessions: map<string, SessionState>, now: int) returns (ghost order: seq<string>)
      requires Valid()
      modifies this`registry, this`kills, reaper
      ensures Valid() && multiset(order) == multiset(sessions.Keys)
      ensures Contents() == SweepOver(old(Contents()), old(Shown(sessions)), now, order)
    {
      var todo := sessions.Keys;
      order := [];
      ghost var d, shown := Contents(), Shown(sessions);
      while todo != {}
        invariant todo <= sessions.Keys && Valid()
        invariant multiset(order) + multiset(todo) == multiset(sessions.Keys)
        invariant Contents() == SweepOver(d, shown, now, order)
      {
        var id :| id in todo;
        todo := todo - {id};
        assert (order + [id])[..|order|] == order;
        order := order + [id];
        Judge(id, sessions[id], now);
      }
    }
  }

  lemma SettledThenDropped(d: Desk, id: string, now: int, reason: string)
    ensures Dropped(Ended(d, id, false, now), id, reason) == Dropped(d, id, reason)
  {
    if id in d.leases {
      assert Ended(d, id, false, now).leases - {id} == d.leases - {id};
    }
  }

  /** The leases that a map's states hold. */
  ghost function Shown(sessions: map<string, SessionState>): map<string, Lifecycle.Lease>
    reads sessions.Values
  {
    map id | id in sessions :: sessions[id].Lease()
  }

  ghost predicate Unshared(registry: map<string, SessionState>) {
    forall a, b :: a in registry && b in registry && a != b ==> registry[a] != registry[b]
  }
}
