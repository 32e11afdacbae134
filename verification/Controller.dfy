/** The controller's operations (internal/daemon/controller.go), which keep the lease table and the
    pin table in step. Run alone, each is an event of Lifecycle's runs. */
module Controller {
  import opened Lifecycle
  import PoolProtocol
  import opened Wrappers
  import Manager
  import SessionPool

  /** The time in which TTLs are given in requests, in the clock's unit. */
  const SECOND := 1_000_000_000

  datatype Request = Request(warm: bool, sessionID: string, idleTimeoutSeconds: int, ttlSeconds: int)

  /** Whether an address is offered, whether the rest of the spawn succeeds, and whether the context ends. */
  datatype Circumstances = Circumstances(lease: Option<nat>, spawned: bool, cancelled: bool)

  class Controller {
    const pool: SessionPool.SessionPool
    const lifecycleManager: Manager.Manager

    ghost predicate Valid()
      reads lifecycleManager, pool
    {
      lifecycleManager.reaper == pool && lifecycleManager.Valid()
    }

    /** The sessions that have a lease are those that have a worker. */
    ghost predicate InStep()
      reads lifecycleManager, lifecycleManager.registry.Values, lifecycleManager.reaper
    {
      Agree(Contents())
    }

    /** The session is pinned; or it is not in flight, there are a ticket, a UID and an address for it,
        its spawn succeeds and the context lasts. */
    ghost predicate CanServe(id: string, how: Circumstances)
      reads pool
    {
      || id in pool.registry
      || (id !in pool.inflight && pool.tickets > 0 && pool.uids.queue != [] && how.lease.Some?
          && how.spawned && !how.cancelled)
    }

    ghost function Contents(): Desk
      reads lifecycleManager, lifecycleManager.registry.Values, lifecycleManager.reaper
    {
      lifecycleManager.Contents()
    }

    constructor (pool: SessionPool.SessionPool)
      requires pool.Valid()
      ensures this.pool == pool && fresh(lifecycleManager) && Valid()
      ensures Contents() == Desk(map[], pool.registry.Keys, [])
    {
      this.pool := pool;
      lifecycleManager := new Manager.Manager(pool);
    }

    /** warmed and uuid are what the factory and the UUID source would answer, how what decides Acquire. */
    method CreateSession(req: Request, warmed: bool, uuid: string, how: Circumstances, now: int)
      returns (r: Result<(string, PoolProtocol.Worker)>)
      requires Valid() && pool.Offered(how.lease)
      modifies pool, lifecycleManager
      ensures Valid() && (old(InStep()) ==> InStep())
      ensures r.Ok? <==>
        (req.warm ==> warmed) && old(CanServe(if req.sessionID == "" then uuid else req.sessionID, how))
      ensures r.Ok? ==>
        var id := if req.sessionID == "" then uuid else req.sessionID;
        && r.value.0 == id && id in pool.registry && pool.registry[id] == r.value.1
        && id in Contents().leases
        && Contents().leases[id] == Lease(now, now, now, 0, 1_000_000_000 * req.idleTimeoutSeconds,
                                          1_000_000_000 * req.ttlSeconds)
      ensures Step(old(At(now)), Requested(req, uuid, r.Ok?), At(now))
    {
      ghost var d := Contents();
      if req.warm && !warmed {
        CreateIsStep(d, req, uuid, now, false);
        return Err("failed to warm image");
      }
      var sessionID := SessionID(req, uuid);
      var w := Admit(sessionID, how, req.idleTimeoutSeconds * SECOND, req.ttlSeconds * SECOND, now);
      CreateIsStep(d, req, uuid, now, w.Some?);
      if w.None? {
        return Err("failed to acquire session");
      }
      return Ok((sessionID, w.value));
    }

    /** The pool's Acquire, of which the lease table sees whether the ID is pinned. */
    method AcquireWorker(id: string, how: Circumstances) returns (w: Option<PoolProtocol.Worker>)
      requires Valid() && pool.Offered(how.lease)
      modifies pool
      ensures Valid()
      ensures w.Some? <==> old(CanServe(id, how))
      ensures Contents() == Pinned(old(Contents()), id, w.Some?)
      ensures w.Some? ==> id in pool.registry && pool.registry[id] == w.value
    {
      ghost var p := pool.Contents();
      ghost var cs;
      w, cs := pool.Acquire(id, how.lease, how.spawned, how.cancelled);
      ServedIsPinned(p, id, how, pool.Contents(), w);
    }

    /** Acquire the worker, then register the lease. */
    method Admit(id: string, how: Circumstances, idleTTL: int, absoluteTTL: int, now: int)
      returns (w: Option<PoolProtocol.Worker>)
      requires Valid() && pool.Offered(how.lease)
      modifies pool, lifecycleManager
      ensures Valid()
      ensures w.Some? <==> old(CanServe(id, how))
      ensures w.Some? ==> id in pool.registry && pool.registry[id] == w.value
      ensures Contents() == Admitted(old(Contents()), id, idleTTL, absoluteTTL, now, w.Some?)
    {
      w := AcquireWorker(id, how);
      if w.Some? {
        lifecycleManager.Register(id, idleTTL, absoluteTTL, now);
      }
    }

    method DeleteSession(id: string, reason: string, now: int)
      requires Valid()
      modifies pool, lifecycleManager
      ensures Valid() && (old(InStep()) ==> InStep())
      ensures Step(old(At(now)), Delete(id, reason), At(now))
    {
      DeleteIsStep(Contents(), id, reason, now);
      lifecycleManager.UnregisterAndKill(id, reason);
    }

    /** The desk at a time, with no requests and no sweep in view. */
    ghost function At(now: int): Sys
      reads lifecycleManager, lifecycleManager.registry.Values, lifecycleManager.reaper
    {
      Sight(Contents(), now)
    }
  }

  /** The desk once Acquire has answered. */
  function Pinned(d: Desk, id: string, served: bool): Desk {
    if served then d.(pinned := d.pinned + {id}) else d
  }

  /** And once the lease is registered. */
  function Admitted(d: Desk, id: string, idleTTL: int, absoluteTTL: int, now: int, served: bool): Desk {
    if served then Registered(Pinned(d, id, true), id, idleTTL, absoluteTTL, now) else d
  }

  ghost predicate Agree(d: Desk) {
    d.leases.Keys == d.pinned
  }

  ghost function Sight(d: Desk, now: int): Sys {
    Sys(d, multiset{}, now, now, map id | id in d.pinned :: now)
  }

  lemma CreateIsStep(d: Desk, req: Request, uuid: string, now: int, served: bool)
    ensures var d' := Admitted(d, SessionID(req, uuid), req.idleTimeoutSeconds * SECOND, req.ttlSeconds * SECOND,
                               now, served);
      Step(Sight(d, now), Requested(req, uuid, served), Sight(d', now)) && (Agree(d) ==> Agree(d'))
  {
  }

  lemma DeleteIsStep(d: Desk, id: string, reason: string, now: int)
    ensures var d' := Dropped(d, id, reason);
      Step(Sight(d, now), Delete(id, reason), Sight(d', now)) && (Agree(d) ==> Agree(d'))
  {
  }

  /** The event that a request is. */
  function Requested(req: Request, uuid: string, ok: bool): Event {
    Create(SessionID(req, uuid), req.idleTimeoutSeconds * SECOND, req.ttlSeconds * SECOND, ok)
  }

  /** Acquire serves a session if and only if it leaves it pinned, and pins no other. */
  lemma ServedIsPinned(p: PoolProtocol.Pool, id: string, how: Circumstances, p': PoolProtocol.Pool,
      w: Option<PoolProtocol.Worker>)
    requires SessionPool.Acquired(p, id, how.lease, how.spawned && !how.cancelled, p', w)
    ensures p'.registry.Keys == if w.Some? then p.registry.Keys + {id} else p.registry.Keys
    ensures w.Some? ==> id in p'.registry && p'.registry[id] == w.value
  {
  }

  function SessionID(req: Request, uuid: string): string {
    if req.sessionID == "" then uuid else req.sessionID
  }
}
