# Herd: a model of the session pool and its allocators

Herd runs each session in a microVM of its own. This project models the part of it that must not
leak or hand out anything twice, and proves what it promises:

- **The session pool** (`pool.go`, `registry.go`). `PoolProtocol` is a transition system: any number
  of threads, each in an Acquire or a KillWorker at a lock region or a channel operation, over the
  registry, the inflight table, the channels, the worker list, the tickets and the leases that a
  worker holds. `PoolInvariant` gives its laws, `PoolSafety` what holds in every reachable state,
  `PoolProgress` deadlock and termination, `PoolOutcomes` how calls end, `PoolWitnesses` runs that show
  where the guarantees end.
  `SessionPool` is the code itself: lock regions and channel operations, and Acquire and KillWorker
  made of them, each whole call proved to be a run of the protocol's steps of one thread.
- **Spawn and Close** (`firecracker_factory.go`, `internal/network/nat.go`). `Factory` is the code,
  with its undo stack, over the allocators themselves; `Spawn` has the stack as a datatype with an
  interpreter; `IpTables` has the iptables argument lists and what they do to the tables, `Packets`
  what a rule does to a packet, and `Traffic` where packets go over whole runs; `SpawnRuns` has those
  runs of spawns and closes, and `FactoryRuns` shows that what a factory serves is one.
  `PortInterleavings` interleaves the port manager's calls of many spawns and closes, also of one ID.
- **The allocators**: `Ipam` and `IpamRuns` with the byte and bit arithmetic of `Bytes`, `UidPool`,
  `PortTable` (`ReleaseUndoesIffNew` says when a release undoes a grant).
- **The lease table** (`internal/lifecycle`, `internal/daemon/controller.go`). `Lifecycle` has the
  operations as values and their runs (`EventIsLocal` and `WhatKeepsAlive` say what an event leaves
  alone), and `LeaseHistory` says what they do field by field, where each kill comes from and what a
  lease tells of the past; `Manager` and `Controller` are the code, each method proved to be its
  operation, on top of `SessionPool`.
- **The port-binding parser** (`internal/network/utils.go`). `PortBindings`, against a grammar and a
  printer, with the text functions of `Text`.

`Counting` has sums over maps; `Wrappers` has Option and Result. `dafny verify dfyconfig.toml` checks
everything.

## Hypotheses

- `localRegistry` never fails (`registry.go:44-62`), `FirecrackerWorker.Close` returns nil
  (`firecracker_factory.go:177`) and its `OnCrash` does nothing (`firecracker_factory.go:119-121`).
- What containerd, the kernel, iptables, the guest, the clock and other processes do is a parameter
  of the call it decides (`Factory.Env`, `PortTable.Probe`, `IpTables.Outcome`, a `Choice` of the
  protocol). Killing a process succeeds, and so do the commands that undo.
- iptables takes the options of a rule as tests that a packet must pass, and compares addresses as text;
  which addresses are the host's or in a network, and which interfaces a name stands for, is a parameter
  (`Packets.Net`).
- Sockets that a probe opens are closed again, so `isHostPortFree` is an oracle.

## What the code does not promise

Each of these properties fails. For each there is a lemma that says exactly when it holds, and a run
or an input that breaks it where the condition fails.

- A failed `AddPortMapping` leaves the tables alone: only if the OUTPUT rule that it deletes is its
  own, or absent, or DNAT was refused (`IpTables.FailureIsClean`, `IpTables.FailureLosesRule`).
- `IPAM.Acquire` hands out host addresses only: exactly with two host bits or more
  (`Ipam.CycleIsAssignable`).
- UIDs suffice: exactly with a UID for every ticket (`PoolWitnesses.UidsExhaustIff`). Addresses
  suffice: exactly with one for every ticket or for every UID (`PoolWitnesses.AddressesExhaustIff`).
- One live worker for each ID: not while a kill of that ID is still closing the one before
  (`PoolWitnesses.OneLiveBesidesKills`); two can be live exactly when tickets, UIDs and addresses
  allow it (`PoolWitnesses.TwoLiveIff`).
- Live workers keep their claims on host ports: exactly if no worker closes that shares a host port
  with another, and no spawn fails that was granted a port its VM had before
  (`SpawnRuns.ClaimsKeptIffClean`). Distinct live IDs are enough (`SpawnRuns.FreshIdsKeepClaims`), and
  between calls made one after the other they are distinct: a second spawn of a live ID cannot link
  the kernel into the chroot again (`firecracker_factory.go:304-309`).
- The same under interleaving: exactly if no VM releases a port that it, or another VM of its ID, was
  granted once more (`PortInterleavings.KeptIffReleasesLast`). A VM that maps one host port for tcp and
  for udp breaks it (`PortInterleavings.MappedTwiceLosesPort`), and so does an ID that is spawned again
  inside the first VM's Close, after its chroot is gone (`firecracker_factory.go:144`) and before its
  ports are released (`PortInterleavings.ReusedIdLosesPort`).
- Queued and leased UIDs partition the range: exactly if every UID accepted back was held
  (`UidPool.PartitionIffHeld`); one that is out of range or meets a full queue is refused.
- Connection counts are exact: exactly if each Register found no request outstanding
  (`Lifecycle.CountsExactIffRegistersIdle`); otherwise the idle rule can kill a session under a
  request (`Lifecycle.BusyKilledAsIdle`).
- The absolute TTL bounds how long a session is pinned: a lease dates from the pinning exactly if no
  Create succeeded later on the pinned session (`Lifecycle.LeasesDatePinsIff`,
  `Lifecycle.NoPinOutlives`); otherwise there is no bound (`Lifecycle.PinOutlives`).

`docs/cli.md:64` writes a binding as `[host_interface:]host_port:guest_port[/protocol]`. The parser
also takes the guest port alone and an empty interface or host port; the model follows the code.

## Model

| member | source | states |
|---|---|---|
| PoolSafety.StepKeeps | pool.go:133-285 | Every step of every thread keeps every law: tickets, UIDs, addresses, worker list, channels, inflight entries, and what each thread knows |
| PoolSafety.RunKeeps | pool.go:89-285 | The laws hold in every state of every run of a new pool, and its settings stay as given |
| PoolSafety.OneCreator | pool.go:149-199 | At most one thread is between making and deleting a session's inflight entry, the entry is there and the session is not pinned; so Put never overwrites a pin |
| PoolSafety.PinAndInflightApart | pool.go:139-199 | No session is pinned and in flight at once |
| PoolSafety.ClosedOnce | pool.go:159-202 | A thread about to close its channel finds it open, out of the inflight table, and owned by no other thread: no channel is closed twice |
| PoolSafety.InflightOpen | pool.go:159-202 | No closed channel is left in the inflight table |
| PoolSafety.NoLostWakeup | pool.go:149-171 | A waiter's channel is closed, or some thread has yet to close it |
| PoolSafety.OneWorkerPerSession | pool.go:133-208 | Over any stretch of any run without a kill of a session, all Acquires of it served in the stretch return one worker: the one pinned at its end, and at its start if one was |
| PoolSafety.TicketsConserved | pool.go:109-111 | Tickets in the channel, spawning Acquires, pinned sessions and kills in progress add up to max |
| PoolSafety.SendsNeverBlock | pool.go:178-281 | A thread that gives a ticket back finds room in the channel |
| PoolSafety.WorkersBounded | pool.go:318-327 | Worker list and free tickets together never exceed max, and every pinned worker is on the list, though it is edited by ID |
| PoolSafety.HeldOnce | pool.go:261-285 | No UID and no address has two holders among spawning threads, pinned workers and kills; so one worker is closed by one kill |
| PoolSafety.CheckoutNeverExhausts | internal/config/config.go:69-71 | With a UID for every ticket, Checkout inside Acquire always finds one |
| PoolSafety.ReturnNeverRejects | firecracker_factory.go:160-168 | The UID that Close or a rollback returns is in range and fits in the channel |
| PoolSafety.AddressNeverExhausts | firecracker_factory.go:322-325 | With an address for every ticket, fewer than max are in use when a spawn asks, and one is free |
| PoolSafety.UsedBounded | firecracker_factory.go:322-328 | Addresses in use and free tickets together never exceed max |
| PoolProgress.BlockedMeansFull | pool.go:149-171 | If a call is blocked and nothing can move without a cancellation, no ticket is free and exactly max sessions are pinned |
| PoolProgress.HaltedMeansFinished | pool.go:133-285 | If no step at all is left, every call has returned |
| PoolProgress.MeasureDecreases | pool.go:134-207 | With at most n calls under way, every step decreases one measure over all threads, though a close sends waiters back to the top of the retry loop |
| PoolProgress.CallsFinish | pool.go:134-207 | With n calls that have not returned and no new ones, at most n(2n+11) steps are left, however they interleave and however many calls have returned before |
| PoolWitnesses.UidsExhaustIff | pool.go:163-183 | Some run lets Checkout find no UID if and only if there are fewer UIDs than tickets |
| PoolWitnesses.AddressesExhaustIff | firecracker_factory.go:322-325 | Some run lets a spawn find no address if and only if there are fewer than tickets and fewer than UIDs |
| PoolWitnesses.OneLiveBesidesKills | pool.go:261-285 | In every reachable state a session has at most one live worker besides those that kills of it are closing |
| PoolWitnesses.TwoLiveIff | pool.go:261-285 | Some run has two live workers of one ID if and only if there are two tickets, two UIDs, and an address, or two if both are to hold one |
| PoolOutcomes.FailureHasReason | pool.go:149-208 | Over every run, an Acquire that fails took a step of its own that failed: its context ended while it waited, its spawn failed, or it found no UID; no waiter gives up because another call is done |
| PoolOutcomes.UndisturbedIsServed | pool.go:133-208 | With a UID for every ticket, an Acquire whose context lasts and whose spawn does not fail can end only with a worker |
| PoolOutcomes.WaiterGetsWorker | pool.go:149-156 | If the call that a waiter waits for pins a worker, and nobody kills the session after that, a waiter that is not cancelled can end only with that worker |
| SessionPool.SessionPool.constructor | pool.go:89-114 | Fills the ticket channel; the result is the initial state of the protocol |
| SessionPool.SessionPool.RemoveWorker | pool.go:318-327 | The loop removes the first entry that has the ID and nothing else |
| SessionPool.SessionPool.Acquire | pool.go:133-208 | Run alone, a sequence of the protocol's steps of one thread: the pinned worker; or a new one, pinned and listed, on one ticket, the first UID of the queue and the address offered; or nothing taken and no inflight entry left |
| SessionPool.SessionPool.KillWorker | pool.go:261-285 | Run alone, a sequence of the protocol's steps of one thread: unpinned, off the list, and address, UID and ticket back; no effect on a session that is not pinned |
| SessionPool.AcquireThenKill | pool.go:133-285 | KillWorker undoes a successful Acquire: registry, list, tickets, addresses, and the UIDs up to the order of the queue |
| SessionPool.AloneIsRun | pool.go:133-285 | Such a sequence of steps is a run of the protocol whatever the other threads are at, so a whole call keeps every law |
| Factory.FirecrackerFactory.Spawn | firecracker_factory.go:186-555 | A success has moved exactly what the worker holds, and comes about exactly when a UID, an address and every port can be had and every call succeeds. A failure, at whatever call or index, leaves UIDs, addresses, rules and processes as they were and the port table less the ports it was granted; so it is clean if and only if none of those was claimed on entry. It tears down outside the daemon exactly what it had set up, latest first, and a success nothing |
| Factory.UndoesWhatPassed | firecracker_factory.go:190-470 | What a failed spawn tears down: snapshot, chroot, TAP, connection and context, each if and only if the call that sets it up was reached and succeeded, and no chroot that was there already |
| Factory.SucceedsMeansAll | firecracker_factory.go:186-555 | A spawn needs every one of its calls to succeed |
| Factory.MappingProbes | firecracker_factory.go:509-512 | Each port of a spawn is the one asked for, if one was, and its VM's already or probed with a socket of the mapping's protocol on the mapping's interface |
| Factory.FirecrackerFactory.GrantsAreOwnOrNew | internal/network/portmgr.go:48-53 | Every port that a spawn is granted was unclaimed or its VM's already |
| Factory.FirecrackerFactory.MapPorts | firecracker_factory.go:508-535 | The loop succeeds exactly when every port is granted in turn and every rule taken, with the mappings asked for and their host ports filled in; when it fails, the undo stack covers what was taken |
| Factory.FirecrackerFactory.Rollback | firecracker_factory.go:194-202 | The deferred loop runs the stack from the top, teardowns in that order; no UID goes back while a process runs under it |
| Factory.FirecrackerFactory.Close | firecracker_factory.go:128-178 | Takes back exactly what the worker holds, and tears down context, chroot, TAP and snapshot, in that order |
| Spawn.CoveredIsRestored | firecracker_factory.go:190-202 | Running a covering stack in reverse restores what the spawn started from |
| SpawnRuns.RunKeeps | firecracker_factory.go:128-555 | Over every sequence of spawns that succeed or fail and closes, in any order and of any IDs, used addresses, leased UIDs, rules and processes are exactly the holdings of the live workers, and every claimed port is one of theirs |
| SpawnRuns.NothingShared | firecracker_factory.go:204-535 | Two live workers share no UID and no address, and no host port if their IDs differ and no claim was lost |
| SpawnRuns.ClaimsKeptIffClean | firecracker_factory.go:170-175 | Throughout a run the live workers have all their claims on ports if and only if no close was of a worker that shared a host port and no failed spawn was granted a claimed one |
| SpawnRuns.FreshIdsKeepClaims | firecracker_factory.go:304-309 | If no spawn of an ID with a live worker gets as far as ports, which a second hard link of the kernel image prevents, no claim is ever lost |
| SpawnRuns.AllClosed | firecracker_factory.go:128-178 | Once all are closed, every allocator is back where it started, up to the order of the UID queue |
| FactoryRuns.FactorySetting | internal/network/nat.go:177-205 | Every factory has a setting for such runs, if no rule of others is for an address of its pool |
| FactoryRuns.SpawnStep | firecracker_factory.go:186-555 | A call of the factory's Spawn is a step of these runs, of any ID, and keeps their invariant; it is the success exactly when that can be had |
| FactoryRuns.CloseStep | firecracker_factory.go:128-178 | So is a call of Close on a live worker |
| FactoryRuns.Serve | firecracker_factory.go:128-555 | Whatever sequence of spawns and closes a factory serves from nothing taken, it is such a run and keeps the invariant; its events are those the orders ask for, one for each in order, a spawn failing only when it cannot succeed; and the workers left are the live ones |
| Traffic.FactoryRules | internal/network/nat.go:172-255 | The runs of a factory are runs with the rules of AddPortMapping and RemovePortMapping |
| Traffic.TrafficReachesOwner | firecracker_factory.go:522-532 | In every state of every such run a packet is redirected to an address of the pool, at a port, if and only if it arrives for a mapping to that port of the live worker at that address: its protocol, its host port, its interface |
| Traffic.TrafficIsAdmitted | internal/network/nat.go:203-205 | And, from outside the guests' subnet, it is admitted there |
| Traffic.OwnTrafficIsWanted | internal/network/nat.go:197-200 | The host's own packets are redirected only for a local mapping of the live worker: on any interface or on 127.0.0.1, and then for any address of the host |
| Traffic.TrafficOfOneId | internal/network/portmgr.go:48-61 | As long as no claim on a port is lost, no packet is redirected to guests of two IDs |
| PortInterleavings.RunLeaksNone | firecracker_factory.go:170-175 | Under every interleaving of the port manager's calls by spawns, rollbacks and closes, of any number of VMs with one ID, a port is claimed only while a VM of that ID owes its release |
| PortInterleavings.KeptIffReleasesLast | internal/network/portmgr.go:30-93 | And every granted port stays claimed under its VM's ID, throughout a run, if and only if no VM releases a port that it, or another VM of its ID, was granted once more |
| PortInterleavings.GrantsNewKeep | internal/network/portmgr.go:48-53 | It is enough that no ID is granted a port that it has; then no two VMs ever hold one port |
| PortInterleavings.MappedTwiceLosesPort | firecracker_factory.go:509-520 | A VM that maps one host port twice breaks it: two others end up on the port |
| PortInterleavings.ReusedIdLosesPort | firecracker_factory.go:144-175 | So does an ID spawned again once Close has removed the first VM's chroot and before it releases the ports: the second VM, which is live, loses its claim, and a VM of another ID is granted the port |
| IpTables.Host.AddPortMapping | internal/network/nat.go:172-222 | Which rules are in the tables after every combination of answers from iptables, over the argument lists themselves; and after a success exactly the packets for the host port, of the mapping's protocol and on its interface, are redirected to the guest's port and admitted, beyond those that were before |
| IpTables.InstalledForwards | internal/network/nat.go:177-205 | The packets that a mapping's rules match, in each of the three chains, and what becomes of them, from the words of the rules alone |
| IpTables.Host.RemovePortMapping | internal/network/nat.go:225-255 | Deletes one occurrence of each rule that the mapping may have |
| IpTables.FailureIsClean | internal/network/nat.go:206-218 | A failure leaves the tables as it found them if and only if DNAT was refused, or the OUTPUT rule is its own, or there is none |
| IpTables.FailureLosesRule | internal/network/nat.go:197-218 | Mapping one port on every interface and then on a named one comes to that: the first mapping loses its OUTPUT rule |
| IpTables.RulesTarget | internal/network/nat.go:177-205 | Every rule of a mapping is for its guest, so two guests never share a rule |
| Bytes.Inc | internal/network/ipam.go:85-92 | The carry loop computes the successor, in place |
| Bytes.IncrementedIsSuccessor | internal/network/ipam.go:85-92 | The successor of n bytes is plus one modulo 256^n |
| Bytes.BroadcastIsAllOnes | internal/network/ipam.go:97-107 | For a prefix mask the test holds exactly when the h host bits are all ones (section 7 of RFC 919, prefixes as in section 3.1 of RFC 4632) |
| Bytes.NetworkIsQuotient | internal/network/ipam.go:54 | For a prefix mask the membership test holds exactly when the numbers agree above the host bits |
| Ipam.AddressValue | internal/network/ipam.go:27-31 | The k-th address of the cycle is the network address plus two plus k, as a number |
| Ipam.TextSpells | internal/network/ipam.go:49 | The text of the k-th address, read octet by octet, spells that number |
| Text.DottedOctets | internal/network/ipam.go:49 | The text of an address is its four octets in decimal, the first byte first |
| Text.ParsesExactly | internal/network/utils.go:84-88 | A text is read as an address if and only if it is those four octets, so written |
| Ipam.Step | internal/network/ipam.go:53-59 | The cursor wraps after exactly 2^h - 3 addresses, and at once with fewer than two host bits |
| Ipam.CycleIsAssignable | internal/network/ipam.go:20-75 | No address handed out is the network, the gateway or the broadcast address, if and only if there are at least two host bits |
| Ipam.AddressesDiffer | internal/network/ipam.go:49-51 | Different positions have different texts |
| Ipam.IPAM.constructor | internal/network/ipam.go:21-38 | The cursor starts on the first address, in an array of its own |
| Ipam.IPAM.Advance | internal/network/ipam.go:63-68 | One increment and wrap-around moves the cursor one position along the cycle, and the subnet bytes stay |
| Ipam.IPAM.Acquire | internal/network/ipam.go:41-75 | Terminates; takes the first free address in cyclic order from the cursor; fails, changing nothing, exactly when there is none. The text, its first octet the most significant, spells a number from network + 2 to network + 2^h - 2 |
| Ipam.IPAM.Release | internal/network/ipam.go:78-82 | Frees the position of the address, whatever text is given, and leaves the cursor |
| IpamRuns.AcquireIsNextFit | internal/network/ipam.go:41-75 | Acquire fails if and only if every assignable address is in use, then changing nothing; otherwise it takes the free one that the fewest steps reach |
| IpamRuns.NoDoubleLease | internal/network/ipam.go:41-82 | An address in use is not handed out again by any run that does not release it |
| IpamRuns.TraceIsContiguous | internal/network/ipam.go:48-74 | Over any run the cursor walks the cycle without a gap, and each position it stands on is taken by that call or in use |
| IpamRuns.ReuseDelay | internal/network/ipam.go:41-82 | Between two Acquires that return one address, every other was handed out or in use when the cursor passed it, whatever is released in between |
| UidPool.Pool.NewPool | internal/uid/pool.go:43-61 | Refuses UID 0 and below and an empty range; otherwise the whole range in ascending order |
| UidPool.Pool.Checkout | internal/uid/pool.go:70-77 | The front of the queue, or nothing |
| UidPool.Pool.Return | internal/uid/pool.go:84-94 | To the back of the queue; refused out of range or when full |
| UidPool.Fifo | internal/uid/pool.go:70-94 | Over any run, what left and what is queued is what was queued and what was accepted, in order |
| UidPool.ReturnedUidGoesLast | internal/uid/pool.go:84-94 | A returned UID is leased again only after every UID that was queued then |
| UidPool.Bounds | internal/uid/pool.go:84-94 | Length and range bounds hold over any run, whatever callers return |
| UidPool.DisciplinedRun | internal/uid/pool.go:63-94 | If callers return only what they hold, queue and leases partition the range over the whole run and no Return is refused |
| UidPool.PartitionIffHeld | internal/uid/pool.go:79-94 | Whatever callers do, the partition holds after every operation of a run if and only if every UID accepted back was held |
| PortTable.PortManager.Allocate | internal/network/portmgr.go:30-63 | The scan and the explicit branch grant what the specification grants and claim it for the VM |
| PortTable.GrantProbes | internal/network/portmgr.go:34-88 | What is granted, down to the socket probed: udp exactly for udp, on the interface named or on 0.0.0.0; and for an ephemeral request the least port that is unclaimed and free on 0.0.0.0 |
| PortTable.OwnerStays | internal/network/portmgr.go:30-93 | Over any run an entry keeps its owner unless it is released |
| PortBindings.SanitizeNetworkBindings | internal/network/utils.go:19-93 | Accepts exactly the texts of the grammar, in any letter case, with the meaning the grammar gives them, and rejects every other |
| PortBindings.ReadFields | internal/network/utils.go:54-92 | The positional loop accepts exactly well-formed fields and fills in their meaning |
| PortBindings.DenotesByFields | internal/network/utils.go:32-92 | A text denotes a binding if and only if, split at slashes and colons, the last field is the guest port, the one before it the host port, the first of three the interface octet by octet, and the rest the protocol, with 0, 0.0.0.0 and tcp for what is empty or left out |
| PortBindings.DenotationUnique | internal/network/utils.go:32-92 | A text denotes at most one binding, with ports in 16 bits and a known protocol |
| PortBindings.RoundTrip | internal/network/utils.go:12-93 | Printing any binding and reading it again gives that binding and no other |
| PortBindings.ShortForms | internal/network/utils.go:54-92 | Printed with the interface, the host port or the protocol empty or left out, a binding reads back with 0.0.0.0, 0 or tcp there |
| PortBindings.RoundTripAnyCase | internal/network/utils.go:32 | And so does any binding printed in letters of any case |
| PortBindings.CanonicalForm | internal/network/utils.go:19-93 | Every accepted input means what its canonical form means |
| Lifecycle.LeasesArePins | internal/daemon/controller.go:65-139 | Over every run of atomic operations the sessions with a lease are exactly those pinned |
| Lifecycle.CountsAreBounded | internal/lifecycle/handlers.go:24-52 | In every run 0 <= ActiveConns <= requests begun and not ended, in whatever order sessions come and go |
| Lifecycle.CountsExactIffRegistersIdle | internal/lifecycle/manager.go:42-58 | The counts are exact throughout a run if and only if each Register found no request outstanding |
| Lifecycle.BusyIsNotIdle | internal/lifecycle/reaper.go:60-64 | Then the idle rule spares every session with an outstanding request |
| Lifecycle.BusyKilledAsIdle | internal/lifecycle/handlers.go:24-35 | Otherwise a session can be killed as idle under a request |
| Lifecycle.SweepIsExact | internal/lifecycle/reaper.go:24-66 | Whatever the order of the map, a sweep kills each expired session once, with its reason, and unregisters exactly those |
| LeaseHistory.SweptIsPast | internal/lifecycle/reaper.go:46-64 | A sweep unpins and unregisters a session if and only if its absolute TTL is positive and its age exceeds it, or its idle TTL is positive, it has no connection and has been idle longer; by one kill, with that reason |
| LeaseHistory.KillsAreCaused | internal/lifecycle/handlers.go:55-61 | Each event adds exactly the kills it is cause for: a Delete, a request of a leased session past its deadline, a sweep of a session past a TTL |
| LeaseHistory.UnpinnedIsKilled | internal/lifecycle/manager.go:69-76 | An event ends the pin of a session if and only if it kills it |
| LeaseHistory.KillHasCause | internal/lifecycle/reaper.go:24-66 | Over every run each kill was made by an event that was cause for it then |
| LeaseHistory.SparedSessionStays | internal/lifecycle/reaper.go:46-64 | Over any stretch of any run, a session that no event is cause to kill, being within its TTLs at every sweep, stays registered and pinned |
| LeaseHistory.UntimedNeverSwept | internal/lifecycle/reaper.go:46-64 | With both TTLs off no sweep ever ends a session, whatever requests it has |
| LeaseHistory.LeaseTellsHistory | internal/lifecycle/manager.go:42-58 | In every state of every run a lease holds the time and TTLs of its registration, the time of the last heartbeat and of the last end of a request, if later, and the number of requests open |
| Lifecycle.SweptInRun | internal/lifecycle/reaper.go:43-64 | In every run, no lease was past a TTL at the last sweep |
| Lifecycle.NoneOutlives | internal/lifecycle/reaper.go:10-66 | With sweeps at most p apart, no lease of a pinned session gets older than its absolute TTL and p, nor sits idle more than p past its idle TTL |
| Lifecycle.LeasesDatePinsIff | internal/daemon/controller.go:94-106 | Throughout a run every lease dates from the pinning of its session if and only if no Create succeeded on a session pinned since an earlier time |
| Lifecycle.NoPinOutlives | internal/lifecycle/reaper.go:10-66 | Then, with sweeps at most p apart, no session stays pinned for more than its absolute TTL and p |
| Lifecycle.PinOutlives | internal/daemon/controller.go:94-106 | Otherwise no bound holds: created again after each sweep, a session stays pinned for any number of sweeps |
| Manager.Manager.Register | internal/lifecycle/manager.go:42-58 | A new state, shared with no other session, under the ID |
| Manager.Manager.UnregisterAndKill | internal/lifecycle/manager.go:69-76 | Lease and pin are gone, by one kill |
| Manager.Manager.ListSessions | internal/lifecycle/manager.go:87-100 | Every lease, once, as a copy |
| Manager.Manager.UpdateHeartbeat | internal/lifecycle/handlers.go:9-20 | Only that session's heartbeat changes |
| Manager.Manager.BeginRequest | internal/lifecycle/handlers.go:24-35 | Only that session's count changes |
| Manager.Manager.EndRequest | internal/lifecycle/handlers.go:38-62 | Past the deadline, a leased session is killed for data_plane_deadlock, unpinned and unregistered; in time, one connection less, at least none, and a new idle clock |
| Manager.Manager.Sweep | internal/lifecycle/reaper.go:24-66 | The loop over the snapshot is an exact sweep, by the fields of the leases |
| Controller.Controller.CreateSession | internal/daemon/controller.go:65-127 | Succeeds exactly when the image can be warmed and Acquire can serve; then the ID given, or else the new one, is pinned, returned and leased, with TTLs of 10^9 times the seconds asked for; is the Create event, and keeps lease table and pin table in step |
| Controller.Controller.DeleteSession | internal/daemon/controller.go:129-139 | Is the Delete event; keeps the tables in step |

## Left out

- `onCrash`, the branch for a failing Put, a failing `Close` in KillWorker, `Shutdown` and the public `release`: excluded by the hypotheses, and no conservation is claimed for them.
- Interleavings inside `Close` at the level of forwarding rules: in the rule-level runs Spawn and Close are one step each; the pool protocol interleaves UID and address releases, `PortInterleavings` the port manager's calls.
- Interleavings of a sweep, a deletion or a request's deadline with a half-finished CreateSession: controller and lifecycle operations are atomic.
- Snapshots, TAP devices, chroots and guest connections: their undo actions are on the stack and their teardowns are recorded, but their state is not modelled, except that `PortInterleavings` knows whose chroot holds the kernel; elsewhere whether the link succeeds is a parameter of the call.
- The address allocator inside the pool protocol is any choice of a free position; `Ipam` shows which one the code takes.
- PortBindings.SanitizeNetworkBindings: lower-casing is modelled for the letters that an accepted text can have, because no other character is lower-cased into one of them; the reversed slice is a value.
- Lifecycle.NoneOutlives: time is a monotone integer and events that carry it are atomic; the conversion of seconds into a 64-bit Duration does not overflow.
- SessionPool.SessionPool.Acquire: run alone, so a call that waits on another's channel ends by its context; the interleaved behaviour is the protocol's.
- The order of the rules of a chain: `IpTables.Verdicts` is the set of what the matching rules say, of which the first decides; other rules of the host are the tables' own.
- A PortManager that is nil, IPv6 networks and the text of error messages.
- Containerd, devmapper, vsock, the guest agent, HTTP handlers, the cloud client, the command line, telemetry and configuration checks.
- GetSession, ListSessions and Stats of the pool: they only read.
