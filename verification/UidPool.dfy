/** The UID pool (internal/uid/pool.go): a buffered channel used as a bounded FIFO,
    and what every run of Checkout and Return keeps. */
module UidPool {
  import opened Wrappers

  // ---------------------------------------------------------------------------
  // The channel, as a value
  // ---------------------------------------------------------------------------

  /** UIDs start, start+1, .., start+n-1 in ascending order. */
  function Ascending(start: int, n: nat): (s: seq<int>)
    ensures |s| == n
    ensures forall i :: 0 <= i < n ==> s[i] == start + i
  {
    seq(n, i => start + i)
  }

  datatype Uids = Uids(start: int, size: nat, queue: seq<int>) {
    predicate InRange(uid: int) {
      start <= uid < start + size
    }

    ghost predicate Bounded() {
      |queue| <= size && forall i :: 0 <= i < |queue| ==> InRange(queue[i])
    }

    function Checkout(): (Uids, Option<int>) {
      if queue == [] then (this, None) else (this.(queue := queue[1..]), Some(queue[0]))
    }

    /** Refused out of range or when the channel is full. */
    function Return(uid: int): (Uids, bool) {
      if InRange(uid) && |queue| < size then (this.(queue := queue + [uid]), true) else (this, false)
    }
  }

  function Full(start: int, size: nat): Uids {
    Uids(start, size, Ascending(start, size))
  }

  // ---------------------------------------------------------------------------
  // The pool
  // ---------------------------------------------------------------------------

  class Pool {
    var ch: seq<int>
    const cap: nat
    const start: int
    const end: int

    ghost predicate Valid()
      reads this
    {
      end == start + cap && |ch| <= cap
    }

    ghost function Contents(): Uids
      reads this
    {
      Uids(start, cap, ch)
    }

    constructor (start: int, size: nat)
      ensures Valid() && Contents() == Full(start, size)
    {
      var queue: seq<int> := [];
      for i := 0 to size
        invariant queue == Ascending(start, i)
      {
        queue := queue + [start + i];
      }
      ch := queue;
      cap := size;
      this.start := start;
      end := start + size;
    }

    /** Refuses UID 0 and below, and an empty range. */
    static method NewPool(start: int, size: int) returns (r: Result<Pool>)
      ensures r.Ok? <==> start > 0 && size >= 1
      ensures r.Ok? ==> fresh(r.value) && r.value.Valid() && r.value.Contents() == Full(start, size)
    {
      if start <= 0 {
        return Err("uid pool: start must be > 0");
      }
      if size < 1 {
        return Err("uid pool: size must be >= 1");
      }
      var p := new Pool(start, size);
      return Ok(p);
    }

    method Checkout() returns (r: Option<int>)
      requires Valid()
      modifies this
      ensures Valid() && (Contents(), r) == old(Contents()).Checkout()
    {
      if |ch| > 0 {
        var uid := ch[0];
        ch := ch[1..];
        return Some(uid);
      }
      return None;
    }

    method Return(uid: int) returns (ok: bool)
      requires Valid()
      modifies this
      ensures Valid() && (Contents(), ok) == old(Contents()).Return(uid)
    {
      if uid < start || uid >= end {
        return false;
      }
      if |ch| < cap {
        ch := ch + [uid];
        return true;
      }
      return false;
    }
  }

  // ---------------------------------------------------------------------------
  // Runs
  // ---------------------------------------------------------------------------

  datatype Op = Checkout | Return(uid: int)

  function Apply(u: Uids, op: Op): Uids {
    match op
    case Checkout => u.Checkout().0
    case Return(uid) => u.Return(uid).0
  }

  function Run(u: Uids, ops: seq<Op>): Uids
    decreases |ops|
  {
    if ops == [] then u else Run(Apply(u, ops[0]), ops[1..])
  }

  /** The UIDs handed out by one operation: one or none. */
  function Out(u: Uids, op: Op): seq<int> {
    if op.Checkout? && u.queue != [] then [u.queue[0]] else []
  }

  /** The UIDs accepted back by one operation: one or none. */
  function In(u: Uids, op: Op): seq<int> {
    if op.Return? && u.Return(op.uid).1 then [op.uid] else []
  }

  function Outs(u: Uids, ops: seq<Op>): seq<int>
    decreases |ops|
  {
    if ops == [] then [] else Out(u, ops[0]) + Outs(Apply(u, ops[0]), ops[1..])
  }

  function Ins(u: Uids, ops: seq<Op>): seq<int>
    decreases |ops|
  {
    if ops == [] then [] else In(u, ops[0]) + Ins(Apply(u, ops[0]), ops[1..])
  }

  lemma FifoStep(u: Uids, op: Op)
    ensures Out(u, op) + Apply(u, op).queue == u.queue + In(u, op)
  {
  }

  /** First in, first out over any run, disciplined or not: what left the channel followed by
      what is still in it is what was in it followed by what was accepted. */
  lemma {:induction false} Fifo(u: Uids, ops: seq<Op>)
    ensures Outs(u, ops) + Run(u, ops).queue == u.queue + Ins(u, ops)
    decreases |ops|
  {
    if ops == [] {
    } else {
      var v := Apply(u, ops[0]);
      Fifo(v, ops[1..]);
      FifoStep(u, ops[0]);
      Joined(Out(u, ops[0]), v.queue, u.queue, In(u, ops[0]),
             Outs(v, ops[1..]), Run(v, ops[1..]).queue, Ins(v, ops[1..]));
    }
  }

  lemma Joined(out: seq<int>, mid: seq<int>, start: seq<int>, accepted: seq<int>,
      outs: seq<int>, end: seq<int>, ins: seq<int>)
    requires out + mid == start + accepted && outs + end == mid + ins
    ensures (out + outs) + end == start + (accepted + ins)
  {
    calc {
      (out + outs) + end;
      out + (outs + end);
      out + (mid + ins);
      (out + mid) + ins;
      (start + accepted) + ins;
      start + (accepted + ins);
    }
  }

  /** A UID given back is not leased again before every UID that was queued at that moment. */
  lemma ReturnedUidGoesLast(u: Uids, uid: int, ops: seq<Op>)
    requires u.Return(uid).1 && uid !in u.queue
    requires uid in Outs(u.Return(uid).0, ops)
    ensures u.queue + [uid] <= Outs(u.Return(uid).0, ops)
  {
    var v := u.Return(uid).0;
    var outs, rest := Outs(v, ops), Run(v, ops).queue;
    Fifo(v, ops);
    var k :| 0 <= k < |outs| && outs[k] == uid;
    assert outs == (outs + rest)[..|outs|];
    assert forall i :: 0 <= i < |u.queue| && i < |outs| ==> outs[i] == u.queue[i];
    assert |v.queue| <= |outs|;
    assert v.queue == (v.queue + Ins(v, ops))[..|v.queue|];
  }

  /** Length and range bounds hold over any run, whatever callers return. */
  lemma {:induction false} Bounds(u: Uids, ops: seq<Op>)
    requires u.Bounded()
    ensures Run(u, ops).Bounded() && (Run(u, ops).start, Run(u, ops).size) == (u.start, u.size)
    decreases |ops|
  {
    if ops == [] {
    } else {
      Bounds(Apply(u, ops[0]), ops[1..]);
    }
  }

  // ---------------------------------------------------------------------------
  // Runs whose callers return only what they hold
  // ---------------------------------------------------------------------------

  /** Queue and leased UIDs together are every UID of the range, each once. */
  ghost predicate Partition(u: Uids, leased: multiset<int>) {
    multiset(u.queue) + leased == multiset(Ascending(u.start, u.size))
  }

  ghost function LeasedAfter(u: Uids, leased: multiset<int>, op: Op): multiset<int> {
    match op
    case Checkout => if u.queue == [] then leased else leased + multiset{u.queue[0]}
    case Return(uid) => if u.Return(uid).1 then leased - multiset{uid} else leased
  }

  ghost predicate Disciplined(u: Uids, leased: multiset<int>, ops: seq<Op>)
    decreases |ops|
  {
    ops == []
    || ((ops[0].Return? ==> ops[0].uid in leased)
        && Disciplined(Apply(u, ops[0]), LeasedAfter(u, leased, ops[0]), ops[1..]))
  }

  ghost function LeasedAfterRun(u: Uids, leased: multiset<int>, ops: seq<Op>): multiset<int>
    decreases |ops|
  {
    if ops == [] then leased else LeasedAfterRun(Apply(u, ops[0]), LeasedAfter(u, leased, ops[0]), ops[1..])
  }

  lemma AscendingOnce(start: int, n: nat, x: int)
    ensures multiset(Ascending(start, n))[x] == if start <= x < start + n then 1 else 0
  {
    if n > 0 {
      AscendingOnce(start, n - 1, x);
      assert Ascending(start, n) == Ascending(start, n - 1) + [start + n - 1];
    }
  }

  /** In a partition no UID is queued twice, leased twice, or both queued and leased, and a
      leased UID is in range and finds room in the channel. */
  lemma PartitionMeans(u: Uids, leased: multiset<int>, x: int)
    requires Partition(u, leased)
    ensures multiset(u.queue)[x] + leased[x] == if u.InRange(x) then 1 else 0
    ensures |u.queue| + |leased| == u.size
    ensures x in leased ==> u.Return(x).1
  {
    AscendingOnce(u.start, u.size, x);
    assert (multiset(u.queue) + leased)[x] == multiset(u.queue)[x] + leased[x];
    assert |multiset(u.queue) + leased| == |u.queue| + |leased|;
  }

  lemma PartitionStep(u: Uids, leased: multiset<int>, op: Op)
    requires Partition(u, leased) && (op.Return? ==> op.uid in leased)
    ensures Partition(Apply(u, op), LeasedAfter(u, leased, op))
    ensures op.Return? ==> u.Return(op.uid).1
  {
    if op.Checkout? && u.queue != [] {
      assert u.queue == [u.queue[0]] + u.queue[1..];
    } else if op.Return? {
      PartitionMeans(u, leased, op.uid);
    }
  }

  /** Over a whole disciplined run from a full pool the partition holds at the end, so no two
      leases share a UID, and no Return of the run is refused. */
  lemma {:induction false} DisciplinedRun(u: Uids, leased: multiset<int>, ops: seq<Op>)
    requires Partition(u, leased) && Disciplined(u, leased, ops)
    ensures Partition(Run(u, ops), LeasedAfterRun(u, leased, ops))
    ensures |Ins(u, ops)| == |Returns(ops)|
    decreases |ops|
  {
    if ops == [] {
    } else {
      PartitionStep(u, leased, ops[0]);
      DisciplinedRun(Apply(u, ops[0]), LeasedAfter(u, leased, ops[0]), ops[1..]);
    }
  }

  function Returns(ops: seq<Op>): seq<int>
    decreases |ops|
  {
    if ops == [] then [] else (if ops[0].Return? then [ops[0].uid] else []) + Returns(ops[1..])
  }

  /** A new pool starts as a partition with nothing leased. */
  lemma FullIsPartition(start: int, size: nat)
    ensures Partition(Full(start, size), multiset{})
  {
  }

  // ---------------------------------------------------------------------------
  // Callers of any kind
  // ---------------------------------------------------------------------------

  /** The operation puts no UID back that nobody holds; one that is refused is not put back. */
  ghost predicate AcceptsHeld(u: Uids, leased: multiset<int>, op: Op) {
    op.Return? && u.Return(op.uid).1 ==> op.uid in leased
  }

  /** One operation keeps the partition exactly when a UID that it accepts back was held. */
  lemma PartitionStepIff(u: Uids, leased: multiset<int>, op: Op)
    requires Partition(u, leased)
    ensures Partition(Apply(u, op), LeasedAfter(u, leased, op)) <==> AcceptsHeld(u, leased, op)
  {
    if op.Checkout? || op.uid in leased {
      PartitionStep(u, leased, op);
    } else if u.Return(op.uid).1 {
      PartitionMeans(u, leased, op.uid);
      var u' := Apply(u, op);
      assert multiset(u'.queue)[op.uid] == 2;
      if Partition(u', LeasedAfter(u, leased, op)) {
        PartitionMeans(u', LeasedAfter(u, leased, op), op.uid);
      }
    }
  }

  ghost predicate AlwaysPartition(u: Uids, leased: multiset<int>, ops: seq<Op>)
    decreases |ops|
  {
    && Partition(u, leased)
    && (ops == [] || AlwaysPartition(Apply(u, ops[0]), LeasedAfter(u, leased, ops[0]), ops[1..]))
  }

  ghost predicate AlwaysAcceptsHeld(u: Uids, leased: multiset<int>, ops: seq<Op>)
    decreases |ops|
  {
    ops == []
    || (AcceptsHeld(u, leased, ops[0]) && AlwaysAcceptsHeld(Apply(u, ops[0]), LeasedAfter(u, leased, ops[0]), ops[1..]))
  }

  /** Whatever callers do, queue and leases partition the range after every operation of a run if
      and only if every UID accepted back was held at that moment. */
  lemma {:induction false} PartitionIffHeld(u: Uids, leased: multiset<int>, ops: seq<Op>)
    requires Partition(u, leased)
    ensures AlwaysPartition(u, leased, ops) <==> AlwaysAcceptsHeld(u, leased, ops)
    decreases |ops|
  {
    if ops != [] {
      var u', leased' := Apply(u, ops[0]), LeasedAfter(u, leased, ops[0]);
      PartitionStepIff(u, leased, ops[0]);
      if Partition(u', leased') {
        PartitionIffHeld(u', leased', ops[1..]);
      }
    }
  }
}
