/** The host port table (internal/network/portmgr.go): explicit and ephemeral allocation
    against an oracle for what the rest of the host has bound. */
module PortTable {
  import opened Wrappers

  /** What binding a socket would answer at the moment of the call: udp or tcp, host, port. */
  type Probe = (bool, string, int) -> bool

  function HostOf(iface: string): string {
    if iface != "" && iface != "0.0.0.0" then iface else "0.0.0.0"
  }

  predicate HostPortFree(probe: Probe, protocol: string, port: int, iface: string) {
    probe(protocol == "udp", HostOf(iface), port)
  }

  // ---------------------------------------------------------------------------
  // The table, as a value
  // ---------------------------------------------------------------------------

  type Table = map<int, string>

  /** Unclaimed in the table and free on every interface of the host. */
  predicate Available(t: Table, probe: Probe, protocol: string, p: int) {
    p !in t && HostPortFree(probe, protocol, p, "")
  }

  /** The least available port of [lo, hi]; none exactly when there is none. */
  function LeastAvailable(t: Table, probe: Probe, protocol: string, lo: int, hi: int): (r: Option<int>)
    ensures r.Some? ==> lo <= r.value <= hi && Available(t, probe, protocol, r.value)
    ensures forall p :: lo <= p <= hi && (r.Some? ==> p < r.value) ==> !Available(t, probe, protocol, p)
    decreases hi - lo
  {
    if lo > hi then None
    else if Available(t, probe, protocol, lo) then Some(lo)
    else LeastAvailable(t, probe, protocol, lo + 1, hi)
  }

  datatype Request = Request(port: int, protocol: string, iface: string, vm: string)

  /** The port an allocation grants, if any. */
  function Granted(t: Table, q: Request, probe: Probe, lo: int, hi: int): Option<int> {
    if q.port == 0 then LeastAvailable(t, probe, q.protocol, lo, hi)
    else if q.port in t then (if t[q.port] == q.vm then Some(q.port) else None)
    else if HostPortFree(probe, q.protocol, q.port, q.iface) then Some(q.port)
    else None
  }

  function Allocated(t: Table, q: Request, probe: Probe, lo: int, hi: int): Table {
    var g := Granted(t, q, probe, lo, hi);
    if g.Some? then t[g.value := q.vm] else t
  }

  // ---------------------------------------------------------------------------
  // The manager
  // ---------------------------------------------------------------------------

  class PortManager {
    var inUse: Table
    const ephemeralStart: int
    const ephemeralEnd: int

    constructor (start: int, end: int)
      ensures inUse == map[] && ephemeralStart == start && ephemeralEnd == end
    {
      inUse := map[];
      ephemeralStart := start;
      ephemeralEnd := end;
    }

    method Allocate(q: Request, probe: Probe) returns (r: Result<int>)
      modifies this
      ensures inUse == Allocated(old(inUse), q, probe, ephemeralStart, ephemeralEnd)
      ensures match Granted(old(inUse), q, probe, ephemeralStart, ephemeralEnd)
              case Some(p) => r == Ok(p)
              case None => r.Err?
    {
      if q.port == 0 {
        var p := ephemeralStart;
        while p <= ephemeralEnd
          invariant inUse == old(inUse)
          invariant LeastAvailable(inUse, probe, q.protocol, ephemeralStart, ephemeralEnd)
                 == LeastAvailable(inUse, probe, q.protocol, p, ephemeralEnd)
        {
          if p !in inUse {
            if HostPortFree(probe, q.protocol, p, "") {
              inUse := inUse[p := q.vm];
              return Ok(p);
            }
          }
          p := p + 1;
        }
        return Err("no ephemeral ports available in range");
      }
      if q.port in inUse {
        if inUse[q.port] == q.vm {
          assert inUse[q.port := q.vm] == inUse;
          return Ok(q.port);
        }
        return Err("port already in use by another VM within herd");
      }
      if !HostPortFree(probe, q.protocol, q.port, q.iface) {
        return Err("port is already in use by another process on the host");
      }
      inUse := inUse[q.port := q.vm];
      return Ok(q.port);
    }

    method Release(port: int)
      modifies this
      ensures inUse == old(inUse) - {port}
    {
      inUse := inUse - {port};
    }
  }

  // ---------------------------------------------------------------------------
  // Calls and runs
  // ---------------------------------------------------------------------------

  /** An allocation for any port fails exactly when the ephemeral range has no port that is both
      unclaimed and host-free; an explicit one succeeds exactly on a port that is this VM's already,
      or that is unclaimed and host-free on the interface asked for. */
  lemma GrantedExactly(t: Table, q: Request, probe: Probe, lo: int, hi: int)
    ensures q.port == 0 ==>
      (Granted(t, q, probe, lo, hi).None? <==> forall p :: lo <= p <= hi ==> !Available(t, probe, q.protocol, p))
    ensures q.port != 0 ==>
      (Granted(t, q, probe, lo, hi) == Some(q.port) <==>
        (q.port in t && t[q.port] == q.vm) || (q.port !in t && HostPortFree(probe, q.protocol, q.port, q.iface)))
    ensures q.port != 0 ==> Granted(t, q, probe, lo, hi) in {None, Some(q.port)}
    ensures var g := Granted(t, q, probe, lo, hi); g.Some? ==> g.value !in t || t[g.value] == q.vm
  {
    if q.port == 0 && Granted(t, q, probe, lo, hi).Some? {
      var p := Granted(t, q, probe, lo, hi).value;
      assert lo <= p <= hi && Available(t, probe, q.protocol, p);
    }
  }

  /** What a grant has probed, if the VM did not have the port: a udp socket for udp and a tcp socket
      for everything else, on the interface that an explicit request names, if it names one, and
      otherwise on all. */
  lemma GrantProbes(t: Table, q: Request, probe: Probe, lo: int, hi: int, p: int)
    ensures q.port == 0 ==>
      (Granted(t, q, probe, lo, hi) == Some(p) <==>
        && lo <= p <= hi && p !in t && probe(q.protocol == "udp", "0.0.0.0", p)
        && forall x :: lo <= x < p && x !in t ==> !probe(q.protocol == "udp", "0.0.0.0", x))
    ensures q.port != 0 ==>
      (Granted(t, q, probe, lo, hi) == Some(p) <==>
        p == q.port && if p in t then t[p] == q.vm
                       else probe(q.protocol == "udp", if q.iface == "" then "0.0.0.0" else q.iface, p))
  {
    if q.port == 0 {
      var g := LeastAvailable(t, probe, q.protocol, lo, hi);
      assert forall x :: lo <= x <= hi ==>
        (Available(t, probe, q.protocol, x) <==> x !in t && probe(q.protocol == "udp", "0.0.0.0", x));
      assert g.Some? ==> Available(t, probe, q.protocol, g.value);
    }
  }

  /** Releasing a granted port undoes the allocation exactly when the VM did not own it before; if it
      did, the release takes away the claim it already had. */
  lemma ReleaseUndoesIffNew(t: Table, q: Request, probe: Probe, lo: int, hi: int)
    requires Granted(t, q, probe, lo, hi).Some?
    ensures var p := Granted(t, q, probe, lo, hi).value;
      && (Allocated(t, q, probe, lo, hi) - {p} == t <==> p !in t)
      && (p in t <==> q.port != 0 && q.port in t && t[q.port] == q.vm)
  {
    var p := Granted(t, q, probe, lo, hi).value;
    GrantedExactly(t, q, probe, lo, hi);
    if p !in t {
      assert t[p := q.vm] - {p} == t;
    } else {
      assert p !in Allocated(t, q, probe, lo, hi) - {p};
    }
  }

  // ---------------------------------------------------------------------------
  // Several requests of one VM
  // ---------------------------------------------------------------------------

  /** The table after the first n requests, if all are granted; each finds the host as probed for it. */
  function Claimed(t: Table, qs: seq<Request>, probe: nat -> Probe, lo: int, hi: int, n: nat): Option<Table>
    requires n <= |qs|
  {
    if n == 0 then Some(t)
    else
      match Claimed(t, qs, probe, lo, hi, n - 1)
      case None => None
      case Some(t') =>
        if Granted(t', qs[n - 1], probe(n - 1), lo, hi).None? then None
        else Some(Allocated(t', qs[n - 1], probe(n - 1), lo, hi))
  }

  /** What the n-th request is granted, if the ones before it were. */
  function NthGrant(t: Table, qs: seq<Request>, probe: nat -> Probe, lo: int, hi: int, n: nat): Option<int>
    requires n < |qs|
  {
    match Claimed(t, qs, probe, lo, hi, n)
    case None => None
    case Some(t') => Granted(t', qs[n], probe(n), lo, hi)
  }

  /** All that the first n requests are granted, up to the first that is not. */
  function GrantedPorts(t: Table, qs: seq<Request>, probe: nat -> Probe, lo: int, hi: int, n: nat): set<int>
    requires n <= |qs|
  {
    if n == 0 then {} else GrantedPorts(t, qs, probe, lo, hi, n - 1) + Ports(NthGrant(t, qs, probe, lo, hi, n - 1))
  }

  function Ports(p: Option<int>): set<int> {
    if p.Some? then {p.value} else {}
  }

  /** A granted port that was claimed before was the VM's, and after all are granted all are the VM's. */
  lemma {:induction false} GrantsAreOwn(t: Table, qs: seq<Request>, probe: nat -> Probe, lo: int, hi: int,
      n: nat, vm: string)
    requires n <= |qs| && forall i :: 0 <= i < |qs| ==> qs[i].vm == vm
    ensures forall p :: p in GrantedPorts(t, qs, probe, lo, hi, n) && p in t ==> t[p] == vm
    ensures var t' := Claimed(t, qs, probe, lo, hi, n);
      t'.Some? ==> forall p :: p in t'.value <==> p in t || p in GrantedPorts(t, qs, probe, lo, hi, n)
    ensures var t' := Claimed(t, qs, probe, lo, hi, n);
      t'.Some? ==> forall p :: p in t'.value
                               ==> t'.value[p] == if p in GrantedPorts(t, qs, probe, lo, hi, n) then vm else t[p]
    decreases n
  {
    if n > 0 {
      GrantsAreOwn(t, qs, probe, lo, hi, n - 1, vm);
      var t' := Claimed(t, qs, probe, lo, hi, n - 1);
      if t'.Some? {
        GrantedExactly(t'.value, qs[n - 1], probe(n - 1), lo, hi);
      }
    }
  }

  /** Nothing is granted past the first refusal. */
  lemma {:induction false} GrantsStop(t: Table, qs: seq<Request>, probe: nat -> Probe, lo: int, hi: int, n: nat, m: nat)
    requires n <= m <= |qs| && Claimed(t, qs, probe, lo, hi, n).None?
    ensures GrantedPorts(t, qs, probe, lo, hi, m) == GrantedPorts(t, qs, probe, lo, hi, n)
    decreases m
  {
    if n < m {
      GrantsStop(t, qs, probe, lo, hi, n, m - 1);
      ClaimStops(t, qs, probe, lo, hi, n, m - 1);
    }
  }

  lemma {:induction false} ClaimStops(t: Table, qs: seq<Request>, probe: nat -> Probe, lo: int, hi: int, n: nat, m: nat)
    requires n <= m <= |qs| && Claimed(t, qs, probe, lo, hi, n).None?
    ensures Claimed(t, qs, probe, lo, hi, m).None?
    decreases m
  {
    if n < m {
      ClaimStops(t, qs, probe, lo, hi, n, m - 1);
    }
  }

  datatype Op = Allocate(q: Request, probe: Probe) | Release(port: int)

  function Apply(t: Table, op: Op, lo: int, hi: int): Table {
    match op
    case Allocate(q, probe) => Allocated(t, q, probe, lo, hi)
    case Release(p) => t - {p}
  }

  ghost function Run(t: Table, ops: seq<Op>, lo: int, hi: int): Table
    decreases |ops|
  {
    if ops == [] then t else Run(Apply(t, ops[0], lo, hi), ops[1..], lo, hi)
  }

  /** A claimed port keeps its owner over every run in which it is not released, and only then
      can anyone else come to own it. */
  lemma {:induction false} OwnerStays(t: Table, p: int, ops: seq<Op>, lo: int, hi: int)
    requires p in t
    ensures (p in Run(t, ops, lo, hi) && Run(t, ops, lo, hi)[p] == t[p])
         || exists i :: 0 <= i < |ops| && ops[i] == Release(p)
    decreases |ops|
  {
    if ops != [] {
      if ops[0] != Release(p) {
        var u := Apply(t, ops[0], lo, hi);
        if ops[0].Allocate? {
          GrantedExactly(t, ops[0].q, ops[0].probe, lo, hi);
        }
        OwnerStays(u, p, ops[1..], lo, hi);
        if exists i :: 0 <= i < |ops[1..]| && ops[1..][i] == Release(p) {
          var i :| 0 <= i < |ops[1..]| && ops[1..][i] == Release(p);
          assert ops[i + 1] == Release(p);
        }
      }
    }
  }
}
