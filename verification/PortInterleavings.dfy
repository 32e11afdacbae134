/** Spawns and closes of many VMs, interleaved at every call to the port manager: the mapping loop and
    its rollback (firecracker_factory.go:509-520) and the loop of Close (170-175). VMs are numbered, as
    several may have one ID: a spawn that has linked the kernel (304-309) finds no other VM of its ID
    but those whose Close has removed the chroot (144) and has yet to release its ports. */
module PortInterleavings {
  import opened PortTable
  import opened Wrappers

  datatype Phase = Mapping | RollingBack | Live | Closing

  /** Its ID, where a VM is, and the releases it owes: one for every grant. Closing is from the removal
      of the chroot on; in the other phases the chroot holds the kernel. */
  datatype Vm = Vm(id: string, phase: Phase, held: seq<int>) {
    predicate Ending() {
      phase.RollingBack? || phase.Closing?
    }

    /** A rollback runs backwards, Close forwards. */
    function NextPort(): int
      requires Ending() && held != []
    {
      if phase.RollingBack? then held[|held| - 1] else held[0]
    }

    function Plus(p: int): Vm {
      this.(held := held + [p])
    }

    function Rest(): Vm
      requires Ending() && held != []
    {
      this.(held := if phase.RollingBack? then held[..|held| - 1] else held[1..])
    }
  }

  datatype World = World(t: Table, vms: map<nat, Vm>)

  datatype Event =
    | Arrive(vm: nat, id: string)
    | Grant(vm: nat, q: Request, probe: Probe)
    | Turn(vm: nat, phase: Phase)
    | Release(vm: nat)
    | Leave(vm: nat)

  /** The ephemeral range. */
  datatype Range = Range(lo: int, hi: int)

  /** No VM of the ID has the kernel linked in the chroot. */
  predicate Unlinked(a: World, id: string) {
    forall vm :: vm in a.vms && a.vms[vm].id == id ==> a.vms[vm].phase.Closing?
  }

  ghost predicate Step(g: Range, a: World, e: Event, b: World) {
    match e
    case Arrive(vm, id) => vm !in a.vms && Unlinked(a, id) && b == a.(vms := a.vms[vm := Vm(id, Mapping, [])])
    case Grant(vm, q, probe) =>
      && vm in a.vms && a.vms[vm].phase.Mapping? && q.vm == a.vms[vm].id
      && var p := Granted(a.t, q, probe, g.lo, g.hi);
        p.Some? && b == World(Allocated(a.t, q, probe, g.lo, g.hi), a.vms[vm := a.vms[vm].Plus(p.value)])
    case Turn(vm, phase) =>
      && vm in a.vms && (a.vms[vm].phase, phase) in {(Mapping, RollingBack), (Mapping, Live), (Live, Closing)}
      && b == a.(vms := a.vms[vm := a.vms[vm].(phase := phase)])
    case Release(vm) =>
      && vm in a.vms && a.vms[vm].Ending() && a.vms[vm].held != []
      && b == World(a.t - {a.vms[vm].NextPort()}, a.vms[vm := a.vms[vm].Rest()])
    case Leave(vm) => vm in a.vms && a.vms[vm].Ending() && a.vms[vm].held == [] && b == a.(vms := a.vms - {vm})
  }

  ghost predicate IsRun(g: Range, trace: seq<World>, events: seq<Event>) {
    && |trace| == |events| + 1 && trace[0] == World(map[], map[])
    && forall i :: 0 <= i < |events| ==> Step(g, trace[i], events[i], trace[i + 1])
  }

  // ---------------------------------------------------------------------------
  // Claims and holders
  // ---------------------------------------------------------------------------

  predicate Holds(a: World, vm: nat, p: int) {
    vm in a.vms && p in a.vms[vm].held
  }

  /** No port stays claimed without a VM of the ID that still owes its release. */
  ghost predicate NoneLeaked(a: World) {
    forall p :: p in a.t ==> exists vm :: Holds(a, vm, p) && a.vms[vm].id == a.t[p]
  }

  /** Every port that a VM was granted and has not released is claimed, under its ID. */
  ghost predicate AllKept(a: World) {
    forall vm, p :: Holds(a, vm, p) ==> p in a.t && a.t[p] == a.vms[vm].id
  }

  /** The event releases no port whose release is owed once more, by the VM or by another of its ID. */
  ghost predicate ReleasesLast(a: World, e: Event) {
    e.Release? && e.vm in a.vms && a.vms[e.vm].Ending() && a.vms[e.vm].held != [] ==>
      var p := a.vms[e.vm].NextPort();
      && p !in a.vms[e.vm].Rest().held
      && forall vm :: vm in a.vms && vm != e.vm && a.vms[vm].id == a.vms[e.vm].id ==> p !in a.vms[vm].held
  }

  lemma HeldAfterRelease(v: Vm, p: int)
    requires v.Ending() && v.held != []
    ensures p in v.held <==> p == v.NextPort() || p in v.Rest().held
  {
    var n := |v.held| - 1;
    assert v.held == v.held[..n] + [v.held[n]] && v.held == [v.held[0]] + v.held[1..];
  }

  lemma GrantLeaksNone(g: Range, a: World, e: Event, b: World)
    requires e.Grant? && Step(g, a, e, b) && NoneLeaked(a)
    ensures NoneLeaked(b)
  {
    forall p | p in b.t ensures exists vm :: Holds(b, vm, p) && b.vms[vm].id == b.t[p] {
      if Granted(a.t, e.q, e.probe, g.lo, g.hi) == Some(p) {
        assert Holds(b, e.vm, p);
      } else {
        var vm :| Holds(a, vm, p) && a.vms[vm].id == a.t[p];
        assert Holds(b, vm, p);
      }
    }
  }

  lemma StepLeaksNone(g: Range, a: World, e: Event, b: World)
    requires Step(g, a, e, b) && NoneLeaked(a)
    ensures NoneLeaked(b)
  {
    if e.Grant? {
      GrantLeaksNone(g, a, e, b);
    } else {
      forall p | p in b.t ensures exists vm :: Holds(b, vm, p) && b.vms[vm].id == b.t[p] {
        var vm :| Holds(a, vm, p) && a.vms[vm].id == a.t[p];
        if e.Release? {
          HeldAfterRelease(a.vms[e.vm], p);
        }
        assert Holds(b, vm, p);
      }
    }
  }

  /** Under every interleaving no port leaks: it is claimed only while a VM owes its release. */
  lemma {:induction false} RunLeaksNone(g: Range, trace: seq<World>, events: seq<Event>, n: nat)
    requires IsRun(g, trace, events) && n < |trace|
    ensures NoneLeaked(trace[n])
    decreases n
  {
    if n > 0 {
      RunLeaksNone(g, trace, events, n - 1);
      assert Step(g, trace[n - 1], events[n - 1], trace[n - 1 + 1]);
      StepLeaksNone(g, trace[n - 1], events[n - 1], trace[n]);
    }
  }

  lemma GrantKeeps(g: Range, a: World, e: Event, b: World)
    requires e.Grant? && Step(g, a, e, b) && AllKept(a)
    ensures AllKept(b)
  {
    GrantedExactly(a.t, e.q, e.probe, g.lo, g.hi);
    forall vm, p | Holds(b, vm, p) ensures p in b.t && b.t[p] == b.vms[vm].id {
      assert Holds(a, vm, p) || (vm == e.vm && Some(p) == Granted(a.t, e.q, e.probe, g.lo, g.hi));
    }
  }

  lemma HeldAfter(g: Range, a: World, e: Event, b: World)
    requires e.Release? && Step(g, a, e, b)
    ensures forall vm, p :: Holds(b, vm, p) <==> Holds(a, vm, p) && (vm == e.vm ==> p in a.vms[vm].Rest().held)
    ensures forall vm :: vm in a.vms <==> vm in b.vms
    ensures forall vm :: vm in a.vms ==> b.vms[vm].id == a.vms[vm].id
  {
    forall p ensures p in a.vms[e.vm].Rest().held ==> p in a.vms[e.vm].held {
      HeldAfterRelease(a.vms[e.vm], p);
    }
  }

  lemma ReleaseKeepsIff(g: Range, a: World, e: Event, b: World)
    requires e.Release? && Step(g, a, e, b) && AllKept(a)
    ensures AllKept(b) <==> ReleasesLast(a, e)
  {
    var v := a.vms[e.vm];
    var p := v.NextPort();
    HeldAfter(g, a, e, b);
    HeldAfterRelease(v, p);
    assert Holds(a, e.vm, p) && p !in b.t;
    if AllKept(b) {
      forall vm | vm in a.vms && vm != e.vm && a.vms[vm].id == v.id ensures p !in a.vms[vm].held {
        assert !Holds(b, vm, p);
      }
      assert !Holds(b, e.vm, p);
    }
    if ReleasesLast(a, e) {
      forall vm, r | Holds(b, vm, r) ensures r in b.t && b.t[r] == b.vms[vm].id {
        assert Holds(a, vm, r);
      }
    }
  }

  /** An event keeps all claims exactly when it releases no port whose release is owed once more. */
  lemma StepKeepsIff(g: Range, a: World, e: Event, b: World)
    requires Step(g, a, e, b) && AllKept(a)
    ensures AllKept(b) <==> ReleasesLast(a, e)
  {
    match e
    case Grant(_, _, _) => GrantKeeps(g, a, e, b);
    case Release(_) => ReleaseKeepsIff(g, a, e, b);
    case _ =>
      forall vm, p | Holds(b, vm, p) ensures Holds(a, vm, p) {
      }
  }

  lemma {:induction false} KeptUpTo(g: Range, trace: seq<World>, events: seq<Event>, n: nat)
    requires IsRun(g, trace, events) && n < |trace|
    requires forall i :: 0 <= i < n ==> ReleasesLast(trace[i], events[i])
    ensures AllKept(trace[n])
    decreases n
  {
    if n > 0 {
      KeptUpTo(g, trace, events, n - 1);
      assert Step(g, trace[n - 1], events[n - 1], trace[n - 1 + 1]) && ReleasesLast(trace[n - 1], events[n - 1]);
      StepKeepsIff(g, trace[n - 1], events[n - 1], trace[n]);
    }
  }

  /** Under every interleaving the port table is exactly what the VMs hold, throughout the run, if and
      only if no VM releases a port that it, or another VM of its ID, was granted once more. */
  lemma KeptIffReleasesLast(g: Range, trace: seq<World>, events: seq<Event>)
    requires IsRun(g, trace, events)
    ensures (forall i :: 0 <= i < |trace| ==> AllKept(trace[i]))
       <==> (forall i :: 0 <= i < |events| ==> ReleasesLast(trace[i], events[i]))
  {
    if forall i :: 0 <= i < |trace| ==> AllKept(trace[i]) {
      forall i | 0 <= i < |events| ensures ReleasesLast(trace[i], events[i]) {
        assert Step(g, trace[i], events[i], trace[i + 1]) && AllKept(trace[i + 1]);
        StepKeepsIff(g, trace[i], events[i], trace[i + 1]);
      }
    }
    if forall i :: 0 <= i < |events| ==> ReleasesLast(trace[i], events[i]) {
      forall i | 0 <= i < |trace| ensures AllKept(trace[i]) {
        KeptUpTo(g, trace, events, i);
      }
    }
  }

  // ---------------------------------------------------------------------------
  // Ports granted once
  // ---------------------------------------------------------------------------

  /** The event grants no ID a port that it has already. */
  ghost predicate GrantsNew(g: Range, a: World, e: Event) {
    e.Grant? ==> var p := Granted(a.t, e.q, e.probe, g.lo, g.hi);
      p.Some? ==> !(p.value in a.t && a.t[p.value] == e.q.vm)
  }

  predicate Distinct(held: seq<int>) {
    forall i, j :: 0 <= i < j < |held| ==> held[i] != held[j]
  }

  /** No port is owed twice, by one VM or by two. */
  ghost predicate NoneTwice(a: World) {
    && (forall vm :: vm in a.vms ==> Distinct(a.vms[vm].held))
    && forall u, v, p :: Holds(a, u, p) && Holds(a, v, p) ==> u == v
  }

  lemma NoneTwiceReleasesLast(a: World, e: Event)
    requires NoneTwice(a)
    ensures ReleasesLast(a, e)
  {
    if e.Release? && e.vm in a.vms && a.vms[e.vm].Ending() && a.vms[e.vm].held != [] {
      var p := a.vms[e.vm].NextPort();
      assert Holds(a, e.vm, p);
      forall vm | vm in a.vms && vm != e.vm ensures p !in a.vms[vm].held {
        assert !Holds(a, vm, p);
      }
    }
  }

  lemma GrantTwiceNone(g: Range, a: World, e: Event, b: World)
    requires e.Grant? && Step(g, a, e, b) && NoneTwice(a) && AllKept(a) && GrantsNew(g, a, e)
    ensures NoneTwice(b)
  {
    GrantedExactly(a.t, e.q, e.probe, g.lo, g.hi);
    var p := Granted(a.t, e.q, e.probe, g.lo, g.hi).value;
    forall vm ensures !Holds(a, vm, p) {
    }
    forall vm, r ensures Holds(b, vm, r) ==> Holds(a, vm, r) || (vm == e.vm && r == p) {
    }
  }

  lemma StepTwiceNone(g: Range, a: World, e: Event, b: World)
    requires Step(g, a, e, b) && NoneTwice(a) && AllKept(a) && GrantsNew(g, a, e)
    ensures NoneTwice(b)
  {
    if e.Grant? {
      GrantTwiceNone(g, a, e, b);
    } else {
      if e.Release? {
        HeldAfter(g, a, e, b);
      }
      assert forall vm, p :: Holds(b, vm, p) ==> Holds(a, vm, p);
    }
  }

  /** So it is enough that no ID is granted a port that it has already; then no two VMs ever hold one port. */
  lemma {:induction false} GrantsNewKeep(g: Range, trace: seq<World>, events: seq<Event>, n: nat)
    requires IsRun(g, trace, events) && n < |trace|
    requires forall i :: 0 <= i < |events| ==> GrantsNew(g, trace[i], events[i])
    ensures AllKept(trace[n]) && NoneTwice(trace[n])
    decreases n
  {
    if n > 0 {
      GrantsNewKeep(g, trace, events, n - 1);
      assert Step(g, trace[n - 1], events[n - 1], trace[n - 1 + 1]) && GrantsNew(g, trace[n - 1], events[n - 1]);
      NoneTwiceReleasesLast(trace[n - 1], events[n - 1]);
      StepKeepsIff(g, trace[n - 1], events[n - 1], trace[n]);
      StepTwiceNone(g, trace[n - 1], events[n - 1], trace[n]);
    }
  }

  // ---------------------------------------------------------------------------
  // A port granted twice
  // ---------------------------------------------------------------------------

  function Tcp(p: int, vm: string): Request {
    Request(p, "tcp", "", vm)
  }

  /** The run goes on by the arrival of a VM. */
  lemma Enter(g: Range, trace: seq<World>, events: seq<Event>, vm: nat, id: string)
    returns (trace': seq<World>, events': seq<Event>)
    requires IsRun(g, trace, events)
    requires vm !in trace[|events|].vms && Unlinked(trace[|events|], id)
    ensures IsRun(g, trace', events')
    ensures var a := trace[|events|]; trace'[|events'|] == a.(vms := a.vms[vm := Vm(id, Mapping, [])])
  {
    var a := trace[|events|];
    trace', events' := Extend(g, trace, events, Arrive(vm, id), a.(vms := a.vms[vm := Vm(id, Mapping, [])]));
  }

  /** By an explicit request for a port that is free, or the ID's. */
  lemma Claim(g: Range, trace: seq<World>, events: seq<Event>, p: int, vm: nat)
    returns (trace': seq<World>, events': seq<Event>)
    requires IsRun(g, trace, events) && p != 0
    requires var a := trace[|events|];
      vm in a.vms && a.vms[vm].phase.Mapping? && (p in a.t ==> a.t[p] == a.vms[vm].id)
    ensures IsRun(g, trace', events')
    ensures var a := trace[|events|];
      trace'[|events'|] == World(a.t[p := a.vms[vm].id], a.vms[vm := a.vms[vm].Plus(p)])
  {
    var a := trace[|events|];
    trace', events' := Extend(g, trace, events, Grant(vm, Tcp(p, a.vms[vm].id), (udp, host, port) => true),
                              World(a.t[p := a.vms[vm].id], a.vms[vm := a.vms[vm].Plus(p)]));
  }

  /** By the end of a VM's mapping loop. */
  lemma GoLive(g: Range, trace: seq<World>, events: seq<Event>, vm: nat)
    returns (trace': seq<World>, events': seq<Event>)
    requires IsRun(g, trace, events)
    requires vm in trace[|events|].vms && trace[|events|].vms[vm].phase.Mapping?
    ensures IsRun(g, trace', events')
    ensures var a := trace[|events|]; trace'[|events'|] == a.(vms := a.vms[vm := a.vms[vm].(phase := Live)])
  {
    var a := trace[|events|];
    trace', events' := Extend(g, trace, events, Turn(vm, Live), a.(vms := a.vms[vm := a.vms[vm].(phase := Live)]));
  }

  /** By the start of the releases of a live VM's Close. */
  lemma StartClosing(g: Range, trace: seq<World>, events: seq<Event>, vm: nat)
    returns (trace': seq<World>, events': seq<Event>)
    requires IsRun(g, trace, events)
    requires vm in trace[|events|].vms && trace[|events|].vms[vm].phase.Live?
    ensures IsRun(g, trace', events')
    ensures var a := trace[|events|]; trace'[|events'|] == a.(vms := a.vms[vm := a.vms[vm].(phase := Closing)])
  {
    var a := trace[|events|];
    trace', events' := Extend(g, trace, events, Turn(vm, Closing),
                              a.(vms := a.vms[vm := a.vms[vm].(phase := Closing)]));
  }

  /** And by the first release that a closing VM owes. */
  lemma GiveBack(g: Range, trace: seq<World>, events: seq<Event>, vm: nat)
    returns (trace': seq<World>, events': seq<Event>)
    requires IsRun(g, trace, events)
    requires var a := trace[|events|]; vm in a.vms && a.vms[vm].phase.Closing? && a.vms[vm].held != []
    ensures IsRun(g, trace', events')
    ensures var a := trace[|events|];
      trace'[|events'|] == World(a.t - {a.vms[vm].held[0]}, a.vms[vm := a.vms[vm].Rest()])
  {
    var a := trace[|events|];
    trace', events' := Extend(g, trace, events, Event.Release(vm),
                              World(a.t - {a.vms[vm].held[0]}, a.vms[vm := a.vms[vm].Rest()]));
  }

  /** A lone VM that holds these ports comes to the releases of Close. */
  lemma ComesToClose(g: Range, trace: seq<World>, events: seq<Event>, id: string, held: seq<int>)
    returns (trace': seq<World>, events': seq<Event>)
    requires IsRun(g, trace, events)
    requires trace[|events|].vms.Keys == {0} && trace[|events|].vms[0] == Vm(id, Mapping, held)
    ensures IsRun(g, trace', events') && trace'[|events'|].t == trace[|events|].t
    ensures trace'[|events'|].vms.Keys == {0} && trace'[|events'|].vms[0] == Vm(id, Closing, held)
  {
    trace', events' := GoLive(g, trace, events, 0);
    trace', events' := StartClosing(g, trace', events', 0);
  }

  /** A first VM has claimed a port. */
  lemma FirstClaim(g: Range, p: int, id: string) returns (trace: seq<World>, events: seq<Event>)
    requires p != 0
    ensures IsRun(g, trace, events) && trace[|events|].t == map[p := id]
    ensures trace[|events|].vms.Keys == {0} && trace[|events|].vms[0] == Vm(id, Mapping, [p])
  {
    trace, events := [World(map[], map[])], [];
    trace, events := Enter(g, trace, events, 0, id);
    trace, events := Claim(g, trace, events, p, 0);
  }

  /** A VM that maps one host port twice, say for tcp and for udp, releases it twice. Between the two
      releases another VM may claim it; the second release takes that claim away, and a third VM is
      granted the port while the second still has it. */
  lemma MappedTwiceLosesPort(g: Range, p: int, first: string, second: string, third: string)
    returns (trace: seq<World>, events: seq<Event>)
    requires p != 0 && first != second && second != third
    ensures IsRun(g, trace, events)
    ensures var end := trace[|events|];
      Holds(end, 1, p) && Holds(end, 2, p) && end.vms[1].id == second && end.vms[2].id == third
  {
    trace, events := FirstClaim(g, p, first);
    trace, events := Claim(g, trace, events, p, 0);
    trace, events := ComesToClose(g, trace, events, first, [p, p]);
    trace, events := GiveBack(g, trace, events, 0);
    trace, events := Enter(g, trace, events, 1, second);
    trace, events := Claim(g, trace, events, p, 1);
    trace, events := GiveBack(g, trace, events, 0);
    trace, events := Enter(g, trace, events, 2, third);
    trace, events := Claim(g, trace, events, p, 2);
  }

  /** An ID that is spawned again between the removal of the first VM's chroot and the release of its
      ports is granted the first VM's port. The release takes the claim away from the second VM, which
      is live, and a VM of another ID is granted the port. */
  lemma ReusedIdLosesPort(g: Range, p: int, id: string, other: string) returns (trace: seq<World>, events: seq<Event>)
    requires p != 0 && id != other
    ensures IsRun(g, trace, events)
    ensures var end := trace[|events|];
      Holds(end, 1, p) && Holds(end, 2, p) && end.vms[1].phase.Live? && end.vms[1].id == id && end.vms[2].id == other
  {
    trace, events := FirstClaim(g, p, id);
    trace, events := ComesToClose(g, trace, events, id, [p]);
    trace, events := Enter(g, trace, events, 1, id);
    trace, events := Claim(g, trace, events, p, 1);
    trace, events := GoLive(g, trace, events, 1);
    trace, events := GiveBack(g, trace, events, 0);
    trace, events := Enter(g, trace, events, 2, other);
    trace, events := Claim(g, trace, events, p, 2);
  }

  lemma Extend(g: Range, trace: seq<World>, events: seq<Event>, e: Event, b: World)
    returns (trace': seq<World>, events': seq<Event>)
    requires IsRun(g, trace, events) && Step(g, trace[|events|], e, b)
    ensures trace' == trace + [b] && events' == events + [e] && IsRun(g, trace', events')
  {
    trace', events' := trace + [b], events + [e];
    forall i | 0 <= i < |events'| ensures Step(g, trace'[i], events'[i], trace'[i + 1]) {
      if i < |events| {
        assert Step(g, trace[i], events[i], trace[i + 1]);
      }
    }
  }
}
