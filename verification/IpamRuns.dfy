/** Whole runs of the address allocator: no address is leased twice, and an address comes
    back only after the cursor has been past every other one. */
module IpamRuns {
  import opened Ipam
  import opened Wrappers

  datatype Op = Acquire | Release(k: nat)

  function Apply(c: Cycle, op: Op): (c': Cycle)
    ensures c'.n == c.n
  {
    match op
    case Acquire => c.Acquire().0
    case Release(k) => c.Release(k)
  }

  function Run(c: Cycle, ops: seq<Op>): (c': Cycle)
    ensures c'.n == c.n
    decreases |ops|
  {
    if ops == [] then c else Run(Apply(c, ops[0]), ops[1..])
  }

  /** What the operation hands out, if anything. */
  function Leased(c: Cycle, op: Op): Option<nat>
  {
    if op.Acquire? then c.Acquire().1 else None
  }

  lemma StepValid(c: Cycle, op: Op)
    requires c.Valid()
    ensures Apply(c, op).Valid() && Apply(c, op).n == c.n
  {
    if c.StepsToFree(0).Some? {
      NextPosition(c, c.StepsToFree(0).value);
    }
  }

  ghost predicate FirstFree(c: Cycle, j: nat)
  {
    j < c.n && c.At(j) !in c.used && forall i :: 0 <= i < j ==> c.At(i) in c.used
  }

  /** An Acquire fails exactly when every position is in use, and then nothing changes; otherwise it
      leases the free position that the fewest steps of the cursor reach. */
  lemma AcquireIsNextFit(c: Cycle)
    requires c.Valid()
    ensures c.Acquire().1.None? <==> forall k :: 0 <= k < c.n ==> k in c.used
    ensures c.Acquire().1.None? ==> c.Acquire().0 == c
    ensures c.Acquire().1.Some? ==> exists j :: FirstFree(c, j) && c.At(j) == c.Acquire().1.value
  {
    var r := c.StepsToFree(0);
    if r == None {
      forall k: nat | k < c.n ensures k in c.used {
        var i := Distance(c.cursor, k, c.n);
        assert c.At(i) in c.used;
      }
    } else {
      NextPosition(c, r.value);
      assert FirstFree(c, r.value);
    }
  }

  /** The number of steps from one position to another. */
  lemma Distance(from: nat, to: nat, n: nat) returns (d: nat)
    requires from < n && to < n
    ensures d < n && Around(from, d, n) == to
  {
    d := if from <= to then to - from else n - from + to;
    AroundOnce(from, d, n);
  }

  // ---------------------------------------------------------------------------
  // No double lease
  // ---------------------------------------------------------------------------

  ghost predicate NeverLeased(c: Cycle, k: nat, ops: seq<Op>)
    decreases |ops|
  {
    ops == [] || (Leased(c, ops[0]) != Some(k) && NeverLeased(Apply(c, ops[0]), k, ops[1..]))
  }

  /** An address in use is not handed out again by any run that does not release it. */
  lemma {:induction false} NoDoubleLease(c: Cycle, k: nat, ops: seq<Op>)
    requires c.Valid() && k in c.used && Release(k) !in ops
    ensures NeverLeased(c, k, ops) && k in Run(c, ops).used
    decreases |ops|
  {
    if ops != [] {
      StepValid(c, ops[0]);
      NoDoubleLease(Apply(c, ops[0]), k, ops[1..]);
    }
  }

  // ---------------------------------------------------------------------------
  // Reuse delay
  // ---------------------------------------------------------------------------

  /** The cursor standing on a position, with what was in use then and whether this call took it. */
  datatype Visit = Visit(k: nat, used: set<nat>, taken: bool) {
    predicate PassedOrTaken() {
      taken || k in used
    }
  }

  /** How far one operation moves the cursor: up to the position it takes, or once around. */
  function Steps(c: Cycle, op: Op): nat
  {
    if op.Release? then 0 else match c.StepsToFree(0) { case Some(j) => j + 1 case None => c.n }
  }

  function Visits(c: Cycle, op: Op): seq<Visit>
  {
    seq(Steps(c, op), i requires 0 <= i < Steps(c, op) => Visit(c.At(i), c.used, c.StepsToFree(0) == Some(i)))
  }

  function Trace(c: Cycle, ops: seq<Op>): seq<Visit>
    decreases |ops|
  {
    if ops == [] then [] else Visits(c, ops[0]) + Trace(Apply(c, ops[0]), ops[1..])
  }

  lemma {:induction false} AroundAdds(k: nat, i: nat, j: nat, n: nat)
    ensures Around(Around(k, i, n), j, n) == Around(k, i + j, n)
    decreases j
  {
    if j > 0 {
      AroundAdds(k, i, j - 1, n);
    }
  }

  lemma OneStep(c: Cycle, op: Op)
    requires c.Valid()
    ensures Apply(c, op).cursor == c.At(Steps(c, op))
    ensures forall i :: 0 <= i < Steps(c, op) ==> Visits(c, op)[i].PassedOrTaken()
  {
    AroundOnce(c.cursor, c.n, c.n);
  }

  /** Consecutive positions from the cursor, each taken by the call or in use at that moment. */
  ghost predicate Contiguous(c: Cycle, t: seq<Visit>) {
    forall i :: 0 <= i < |t| ==> t[i].k == c.At(i) && t[i].PassedOrTaken()
  }

  lemma ContiguousJoins(c: Cycle, t: seq<Visit>, c': Cycle, t': seq<Visit>)
    requires c.n == c'.n && c'.cursor == c.At(|t|)
    requires Contiguous(c, t) && Contiguous(c', t')
    ensures Contiguous(c, t + t')
  {
    forall i | 0 <= i < |t'| ensures t'[i].k == c.At(|t| + i) {
      AroundAdds(c.cursor, |t|, i, c.n);
    }
  }

  /** Over any run the cursor walks the cycle without a gap, whatever is released on the way, and
      every position it stands on is either taken by that call or in use at that moment. */
  lemma {:induction false} TraceIsContiguous(c: Cycle, ops: seq<Op>)
    requires c.Valid()
    ensures Run(c, ops).cursor == c.At(|Trace(c, ops)|) && Contiguous(c, Trace(c, ops))
    decreases |ops|
  {
    if ops != [] {
      var c', head := Apply(c, ops[0]), Visits(c, ops[0]);
      var rest := Trace(c', ops[1..]);
      OneStep(c, ops[0]);
      StepValid(c, ops[0]);
      TraceIsContiguous(c', ops[1..]);
      AroundAdds(c.cursor, |head|, |rest|, c.n);
      ContiguousJoins(c, head, c', rest);
    }
  }

  lemma {:induction false} RunValid(c: Cycle, ops: seq<Op>)
    requires c.Valid()
    ensures Run(c, ops).Valid() && Run(c, ops).n == c.n
    decreases |ops|
  {
    if ops != [] {
      StepValid(c, ops[0]);
      RunValid(Apply(c, ops[0]), ops[1..]);
    }
  }

  lemma {:induction false} RunSplits(c: Cycle, ops: seq<Op>, op: Op)
    ensures Run(c, ops + [op]) == Apply(Run(c, ops), op)
    ensures Trace(c, ops + [op]) == Trace(c, ops) + Visits(Run(c, ops), op)
    decreases |ops|
  {
    if ops == [] {
      assert ([] + [op])[1..] == [];
    } else {
      assert (ops + [op])[1..] == ops[1..] + [op];
      RunSplits(Apply(c, ops[0]), ops[1..], op);
    }
  }

  /** Back at the same position after a walk of at least one step, the walk was once around. */
  lemma OnceAround(k: nat, m: nat, n: nat)
    requires k < n && m > 0 && Around(k, m, n) == k
    ensures m >= n
  {
    if m < n {
      AroundOnce(k, m, n);
    }
  }

  /** The cursor stood on b, which was then handed out or in use. */
  ghost predicate VisitedIn(t: seq<Visit>, b: nat) {
    exists i :: 0 <= i < |t| && t[i].k == b && t[i].PassedOrTaken()
  }

  /** Between two Acquires that return the same address, whatever is released in between, the cursor
      stood on every other address of the cycle, which was then either handed out or in use. */
  lemma ReuseDelay(c: Cycle, a: nat, ops: seq<Op>, b: nat)
    requires c.Valid() && Leased(c, Acquire) == Some(a)
    requires Leased(Run(Apply(c, Acquire), ops), Acquire) == Some(a)
    requires b < c.n
    ensures VisitedIn(Trace(Apply(c, Acquire), ops + [Acquire]), b)
  {
    var c1 := Apply(c, Acquire);
    var c2 := Run(c1, ops);
    StepValid(c, Acquire);
    RunValid(c1, ops);
    RunSplits(c1, ops, Acquire);
    TraceIsContiguous(c1, ops + [Acquire]);
    var t := Trace(c1, ops + [Acquire]);
    AfterAcquire(c);
    AfterAcquire(c2);
    assert |t| >= |Visits(c2, Acquire)| >= 1;
    OnceAround(c1.cursor, |t|, c.n);
    var i := Distance(c1.cursor, b, c.n);
    assert t[i].k == b;
  }

  /** An Acquire leaves the cursor just after the address it returned. */
  lemma AfterAcquire(c: Cycle)
    requires c.Valid() && c.Acquire().1.Some?
    ensures c.Acquire().0.cursor == Succ(c.Acquire().1.value, c.n)
  {
  }
}
