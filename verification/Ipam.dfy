/** The address allocator (internal/network/ipam.go): a next-fit cursor that cycles over
    the assignable addresses of a CIDR block. */
module Ipam {
  import opened Bytes
  import opened Text
  import opened Wrappers

  // ---------------------------------------------------------------------------
  // The cycle of addresses
  // ---------------------------------------------------------------------------

  /** How many addresses the cursor visits before it is back where it started. With fewer than two
      host bits the wrap-around test succeeds at every step, so the cursor never moves. */
  function Count(h: nat): (n: nat)
    ensures n >= 1
  {
    PowMonotone(2, if h >= 2 then h else 2);
    assert Pow(2, 2) == 4;
    if h < 2 then 1 else Pow(2, h) - 3
  }

  /** The k-th address of the cycle: the network address plus two, plus k. */
  function Address(network: Ipv4, k: nat): Ipv4 {
    if k == 0 then Incremented(Incremented(network)) else Incremented(Address(network, k - 1))
  }

  function AddressText(network: Ipv4, k: nat): string {
    Dotted(Address(network, k))
  }

  /** A network address: its host bits are zero. */
  predicate IsNetwork(network: Ipv4, h: nat) {
    h <= 32 && LowBits(Num(network), h) == 0
  }

  const ALL: nat := 0x1_0000_0000

  lemma AllAddresses()
    ensures Pow(256, 4) == Pow(2, 32) == ALL
  {
    PowAdd(2, 16, 16);
    PowAdd(2, 8, 8);
    EightBits();
    assert Pow(256, 2) == 256 * Pow(256, 1) == 65536;
    assert Pow(256, 4) == 256 * Pow(256, 3) == 256 * 256 * Pow(256, 2);
  }

  lemma ModStep(x: nat)
    ensures (x % ALL + 1) % ALL == (x + 1) % ALL
  {
  }

  lemma SuccessorInSpace(a: Ipv4)
    ensures Num(Incremented(a)) == (Num(a) + 1) % ALL
  {
    AllAddresses();
    IncrementedIsSuccessor(a);
  }

  lemma ValueStep(a: Ipv4, x: nat)
    requires Num(a) == x % ALL
    ensures Num(Incremented(a)) == (x + 1) % ALL
  {
    SuccessorInSpace(a);
    ModStep(x);
  }

  lemma {:induction false} AddressValue(network: Ipv4, k: nat)
    ensures Num(Address(network, k)) == (Num(network) + 2 + k) % ALL
  {
    if k == 0 {
      SuccessorInSpace(network);
      ValueStep(Incremented(network), Num(network) + 1);
    } else {
      AddressValue(network, k - 1);
      ValueStep(Address(network, k - 1), Num(network) + 1 + k);
    }
  }

  lemma MultipleFits(x: nat, p: nat, d: nat)
    requires p > 0 && x % p == 0 && x < d * p
    ensures x + p <= d * p
  {
    var q := x / p;
    assert x == q * p;
    MulCancel(q, d, p);
    MulMonotone(q, d, p);
  }

  /** A network address lies a whole block below the end of the address space. */
  lemma BlockFits(network: Ipv4, h: nat)
    requires IsNetwork(network, h)
    ensures Num(network) + Pow(2, h) <= ALL
  {
    AllAddresses();
    BitsOf(Num(network), h);
    NumBound(network);
    PowAdd(2, 32 - h, h);
    MultipleFits(Num(network), Pow(2, h), Pow(2, 32 - h));
  }

  /** An offset below the block size is in the low bits, and leaves those above alone. */
  lemma {:induction false} Offset(x: nat, h: nat, d: nat)
    requires LowBits(x, h) == 0 && d < Pow(2, h)
    ensures LowBits(x + d, h) == d && HighBits(x + d, h) == HighBits(x, h)
    decreases h
  {
    if h > 0 {
      assert (x + d) / 2 == x / 2 + d / 2 && (x + d) % 2 == d % 2;
      Offset(x / 2, h - 1, d / 2);
    }
  }

  /** The test at each step of the cursor: outside the block, or its broadcast address. */
  predicate Wraps(ip: seq<Byte>, network: seq<Byte>, h: nat)
    requires |ip| == |network| && h <= 8 * |ip|
  {
    !SameNetwork(ip, network, Mask(|ip|, h)) || AllOnes(ip, Mask(|ip|, h))
  }

  /** Not in the block that holds b, or the last of its block. */
  predicate Outside(x: nat, b: nat, h: nat) {
    HighBits(x, h) != HighBits(b, h) || LowBits(x, h) == Pow(2, h) - 1
  }

  lemma WrapsByNumber(ip: seq<Byte>, network: seq<Byte>, h: nat)
    requires |ip| == |network| && h <= 8 * |ip|
    ensures Wraps(ip, network, h) <==> Outside(Num(ip), Num(network), h)
  {
    NetworkIsQuotient(ip, network, h);
    BroadcastIsAllOnes(ip, h);
    BitsOf(Num(ip), h);
    BitsOf(Num(network), h);
  }

  /** With at least two host bits the addresses of the cycle, and the one after the last, are
      consecutive numbers. */
  lemma Consecutive(network: Ipv4, h: nat, k: nat)
    requires IsNetwork(network, h) && h >= 2 && k <= Count(h)
    ensures Num(Address(network, k)) == Num(network) + 2 + k && k + 2 < Pow(2, h)
  {
    BlockFits(network, h);
    AddressValue(network, k);
    InSpace(Num(network) + 2 + k);
  }

  lemma InSpace(x: nat)
    requires x < ALL
    ensures x % ALL == x
  {
  }

  lemma OutsideAtEnd(b: nat, h: nat, d: nat)
    requires LowBits(b, h) == 0 && d < Pow(2, h)
    ensures Outside(b + d, b, h) <==> d == Pow(2, h) - 1
  {
    Offset(b, h, d);
  }

  lemma BlockEnd(network: Ipv4, h: nat, k: nat)
    requires IsNetwork(network, h) && h >= 2 && k < Count(h)
    ensures Outside(Num(Address(network, k + 1)), Num(network), h) <==> k + 1 == Count(h)
  {
    Consecutive(network, h, k + 1);
    OutsideAtEnd(Num(network), h, k + 3);
  }

  /** With at least two host bits the step after the last address is the broadcast address. */
  lemma WrapsAtEnd(network: Ipv4, h: nat, k: nat)
    requires IsNetwork(network, h) && h >= 2 && k < Count(h)
    ensures Wraps(Address(network, k + 1), network, h) <==> k + 1 == Count(h)
  {
    BlockEnd(network, h, k);
    WrapsByNumber(Address(network, k + 1), network, h);
  }

  lemma JustOutside(b: nat, h: nat)
    requires h < 2 && LowBits(b, h) == 0
    ensures Outside((b + 3) % ALL, b, h)
  {
    var x := (b + 3) % ALL;
    if h == 1 {
      assert LowBits(b, 1) == b % 2 && LowBits(x, 1) == x % 2;
      EvenModulus(b);
    }
  }

  lemma EvenModulus(b: nat)
    requires b % 2 == 0
    ensures (b + 3) % ALL % 2 == 1
  {
  }

  lemma OneStepOut(network: Ipv4, h: nat)
    requires IsNetwork(network, h) && h < 2
    ensures Outside(Num(Address(network, 1)), Num(network), h)
  {
    BlockFits(network, h);
    AddressValue(network, 1);
    JustOutside(Num(network), h);
  }

  /** With one host bit or none the step from the start always wraps. */
  lemma WrapsAtOnce(network: Ipv4, h: nat, k: nat)
    requires IsNetwork(network, h) && h < 2 && k == 1
    ensures Wraps(Address(network, k), network, h)
  {
    OneStepOut(network, h);
    WrapsByNumber(Address(network, k), network, h);
  }

  lemma Step(network: Ipv4, h: nat, k: nat)
    requires IsNetwork(network, h) && k < Count(h)
    ensures Wraps(Address(network, k + 1), network, h) <==> k + 1 == Count(h)
  {
    if h >= 2 {
      WrapsAtEnd(network, h, k);
    } else {
      WrapsAtOnce(network, h, k + 1);
    }
  }

  /** The address after ip: one more, or the first of the cycle. */
  function Following(network: Ipv4, h: nat, ip: Ipv4): Ipv4
    requires h <= 32
  {
    if Wraps(Incremented(ip), network, h) then Incremented(Incremented(network)) else Incremented(ip)
  }

  lemma FollowingIsNext(network: Ipv4, h: nat, k: nat)
    requires IsNetwork(network, h) && k < Count(h)
    ensures Following(network, h, Address(network, k)) == Address(network, Succ(k, Count(h)))
    ensures Succ(k, Count(h)) < Count(h)
  {
    Step(network, h, k);
  }

  /** Different positions of the cycle have different addresses, and different texts. */
  lemma AddressesDiffer(network: Ipv4, h: nat, j: nat, k: nat)
    requires IsNetwork(network, h) && j < Count(h) && k < Count(h)
    requires AddressText(network, j) == AddressText(network, k)
    ensures j == k
  {
    DottedInjective(Address(network, j), Address(network, k));
    if h >= 2 {
      Consecutive(network, h, j);
      Consecutive(network, h, k);
    }
  }

  /** The cycle holds host addresses only (inside the block, and not the network address, the
      gateway or the broadcast address) exactly when the block has at least two host bits. */
  lemma CycleIsAssignable(network: Ipv4, h: nat)
    requires IsNetwork(network, h)
    ensures h >= 2 <==> forall k :: 0 <= k < Count(h) ==> Assignable(network, h, Num(Address(network, k)))
  {
    if h >= 2 {
      forall k | 0 <= k < Count(h) ensures Assignable(network, h, Num(Address(network, k))) {
        Consecutive(network, h, k);
      }
    } else {
      BlockFits(network, h);
      AddressValue(network, 0);
      assert Pow(2, 0) == 1 && Pow(2, 1) == 2;
      assert !Assignable(network, h, Num(Address(network, 0)));
    }
  }

  ghost predicate Assignable(network: Ipv4, h: nat, address: nat) {
    Num(network) + 2 <= address <= Num(network) + Pow(2, h) - 2
  }

  // ---------------------------------------------------------------------------
  // The allocator, as a value
  // ---------------------------------------------------------------------------

  /** The next position of a cycle of n. */
  function Succ(k: nat, n: nat): nat {
    if k + 1 == n then 0 else k + 1
  }

  function Around(k: nat, j: nat, n: nat): nat {
    if j == 0 then k else Succ(Around(k, j - 1, n), n)
  }

  /** Positions in use and the cursor, in a cycle of n positions. */
  datatype Cycle = Cycle(n: nat, used: set<nat>, cursor: nat) {
    ghost predicate Valid() {
      cursor < n && forall k :: k in used ==> k < n
    }

    /** Where the cursor is after j steps. */
    function At(j: nat): nat {
      Around(cursor, j, n)
    }

    /** The least number of steps, from j on, to a free position. */
    function StepsToFree(j: nat): (r: Option<nat>)
      ensures r.Some? ==> j <= r.value < n && At(r.value) !in used
      ensures forall i :: j <= i < n && (r.Some? ==> i < r.value) ==> At(i) in used
      decreases n - j
    {
      if j >= n then None else if At(j) !in used then Some(j) else StepsToFree(j + 1)
    }

    function Acquire(): (Cycle, Option<nat>)
    {
      match StepsToFree(0)
      case None => (this, None)
      case Some(j) => (Cycle(n, used + {At(j)}, At(j + 1)), Some(At(j)))
    }

    function Release(k: nat): Cycle {
      this.(used := used - {k})
    }
  }

  /** The cycle after its j-th address from the cursor, the first free one, is taken. */
  lemma TakenIsAcquired(c: Cycle, j: nat, c': Cycle)
    requires j < c.n && c.cursor < c.n && c.StepsToFree(0) == Some(j)
    requires c'.n == c.n && c'.used == c.used + {c.At(j)}
    requires c'.cursor == Succ(c.At(j), c.n)
    ensures (c', Some(c.At(j))) == c.Acquire()
  {
    NextPosition(c, j);
  }

  /** The positions whose address is in a set of texts. */
  ghost function Positions(network: Ipv4, h: nat, used: set<string>): set<nat> {
    set k: nat | k < Count(h) && AddressText(network, k) in used
  }

  /** The texts of all the addresses of the cycle. */
  ghost function AddressTexts(network: Ipv4, h: nat): set<string> {
    set k: nat | k < Count(h) :: AddressText(network, k)
  }

  lemma TextsHaveNoColon(network: Ipv4, h: nat, ip: string)
    requires ip in AddressTexts(network, h)
    ensures Free(ip, ':') && ip != ""
  {
    var k: nat :| k < Count(h) && ip == AddressText(network, k);
    DottedHasNoColon(Address(network, k));
    ParseOfDotted(Address(network, k));
    assert |Split(ip, '.')| == 4 && |Split("", '.')| == 1;
  }

  /** The number that four octets in decimal spell, the first of them the most significant byte. */
  function Spelled(s: string): Option<nat> {
    var parts := Split(s, '.');
    if |parts| == 4 && forall i :: 0 <= i < 4 ==> AllDigits(parts[i])
    then Some(((Value(parts[0]) * 256 + Value(parts[1])) * 256 + Value(parts[2])) * 256 + Value(parts[3]))
    else None
  }

  lemma NumOfFour(ip: Ipv4)
    ensures Num(ip) == (((ip[0] as nat) * 256 + ip[1]) * 256 + ip[2]) * 256 + ip[3]
  {
    assert ip[..3][..2] == ip[..2] && ip[..2][..1] == ip[..1] && ip[..1][..0] == [];
    assert Num(ip[..1]) == ip[0] && Num(ip[..2]) == 256 * Num(ip[..1]) + ip[1];
    assert Num(ip[..3]) == 256 * Num(ip[..2]) + ip[2] && Num(ip) == 256 * Num(ip[..3]) + ip[3];
  }

  lemma DottedSpells(ip: Ipv4)
    ensures Spelled(Dotted(ip)) == Some(Num(ip))
  {
    DottedOctets(ip);
    NumOfFour(ip);
  }

  /** The k-th address, as its text spells it. */
  lemma TextSpells(network: Ipv4, k: nat)
    ensures Spelled(AddressText(network, k)) == Some((Num(network) + 2 + k) % ALL)
  {
    DottedSpells(Address(network, k));
    AddressValue(network, k);
  }

  /** The text spells a host address of the block, other than the gateway's. */
  ghost predicate SpellsHost(network: Ipv4, h: nat, s: string) {
    Spelled(s).Some? && Num(network) + 2 <= Spelled(s).value <= Num(network) + Pow(2, h) - 2
  }

  lemma TextsSpellHosts(network: Ipv4, h: nat, s: string)
    requires IsNetwork(network, h) && h >= 2 && s in AddressTexts(network, h)
    ensures SpellsHost(network, h, s)
  {
    var k: nat :| k < Count(h) && s == AddressText(network, k);
    Consecutive(network, h, k);
    AddressValue(network, k);
    TextSpells(network, k);
  }

  /** Every position is in use exactly when every address is. */
  lemma AllUsed(network: Ipv4, h: nat, used: set<string>)
    ensures (forall k: nat :: k < Count(h) ==> k in Positions(network, h, used)) <==> AddressTexts(network, h) <= used
  {
    if AddressTexts(network, h) <= used {
      forall k: nat | k < Count(h) ensures k in Positions(network, h, used) {
        assert AddressText(network, k) in AddressTexts(network, h);
      }
    } else {
      var ip :| ip in AddressTexts(network, h) && ip !in used;
      var k: nat :| k < Count(h) && ip == AddressText(network, k);
      assert k !in Positions(network, h, used);
    }
  }

  lemma PositionsGrow(network: Ipv4, h: nat, used: set<string>, k: nat)
    requires IsNetwork(network, h) && k < Count(h)
    ensures Positions(network, h, used + {AddressText(network, k)}) == Positions(network, h, used) + {k}
  {
    forall i: nat | i < Count(h) ensures AddressText(network, i) == AddressText(network, k) <==> i == k {
      if AddressText(network, i) == AddressText(network, k) {
        AddressesDiffer(network, h, i, k);
      }
    }
  }

  lemma PositionsShrink(network: Ipv4, h: nat, used: set<string>, k: nat)
    requires IsNetwork(network, h) && k < Count(h)
    ensures Positions(network, h, used - {AddressText(network, k)}) == Positions(network, h, used) - {k}
  {
    forall i: nat | i < Count(h) ensures AddressText(network, i) == AddressText(network, k) <==> i == k {
      if AddressText(network, i) == AddressText(network, k) {
        AddressesDiffer(network, h, i, k);
      }
    }
  }

  lemma PositionsStay(network: Ipv4, h: nat, used: set<string>, ip: string)
    requires forall k: nat :: k < Count(h) ==> AddressText(network, k) != ip
    ensures Positions(network, h, used - {ip}) == Positions(network, h, used)
  {
  }

  // ---------------------------------------------------------------------------
  // The allocator
  // ---------------------------------------------------------------------------

  class IPAM {
    const subnet: array<Byte>
    const mask: array<Byte>
    const nextIP: array<Byte>
    var usedIPs: set<string>

    ghost const network: Ipv4
    ghost const hostBits: nat
    ghost var cursor: nat

    ghost predicate Valid()
      reads this, subnet, mask, nextIP
    {
      && IsNetwork(network, hostBits)
      && nextIP != subnet && nextIP != mask
      && subnet[..] == network && mask[..] == Mask(|network|, hostBits)
      && cursor < Count(hostBits) && nextIP[..] == Address(network, cursor)
    }

    ghost function Text(k: nat): string {
      AddressText(network, k)
    }

    ghost function View(): Cycle
      reads this
    {
      Cycle(Count(hostBits), Positions(network, hostBits, usedIPs), cursor)
    }

    /** NewIPAM, from what net.ParseCIDR returns: a network address and a prefix mask. */
    constructor (network: Ipv4, hostBits: nat)
      requires IsNetwork(network, hostBits)
      ensures Valid() && fresh(subnet) && fresh(mask) && fresh(nextIP)
      ensures this.network == network && this.hostBits == hostBits
      ensures usedIPs == {} && View() == Cycle(Count(hostBits), {}, 0)
    {
      subnet := new Byte[4](i requires 0 <= i < 4 => network[i]);
      mask := new Byte[4](i requires 0 <= i < 4 => Mask(|network|, hostBits)[i]);
      nextIP := new Byte[4](i requires 0 <= i < 4 => network[i]);
      usedIPs := {};
      this.network := network;
      this.hostBits := hostBits;
      cursor := 0;
      new;
      assert nextIP[..] == network && subnet[..] == network && mask[..] == Mask(|network|, hostBits);
      Inc(nextIP);
      Inc(nextIP);
    }

    method IsBroadcast() returns (b: bool)
      requires nextIP.Length == mask.Length
      ensures b <==> AllOnes(nextIP[..], mask[..])
    {
      for i := 0 to nextIP.Length
        invariant AllOnes(nextIP[..i], mask[..i])
      {
        if Or(nextIP[i], mask[i]) != 255 {
          assert nextIP[i] == nextIP[..][i] && mask[i] == mask[..][i];
          return false;
        }
      }
      assert nextIP[..] == nextIP[..nextIP.Length] && mask[..] == mask[..mask.Length];
      return true;
    }

    method Contains() returns (b: bool)
      requires nextIP.Length == subnet.Length == mask.Length
      ensures b <==> SameNetwork(nextIP[..], subnet[..], mask[..])
    {
      for i := 0 to nextIP.Length
        invariant SameNetwork(nextIP[..i], subnet[..i], mask[..i])
      {
        if And(nextIP[i], mask[i]) != And(subnet[i], mask[i]) {
          assert nextIP[i] == nextIP[..][i] && subnet[i] == subnet[..][i] && mask[i] == mask[..][i];
          return false;
        }
      }
      assert nextIP[..] == nextIP[..nextIP.Length];
      assert subnet[..] == subnet[..subnet.Length] && mask[..] == mask[..mask.Length];
      return true;
    }

    /** Back to the first address of the cycle. */
    method Rewind()
      requires nextIP != subnet && nextIP.Length == subnet.Length == 4
      modifies nextIP
      ensures nextIP[..] == Incremented(Incremented(subnet[..]))
    {
      for i := 0 to 4
        invariant nextIP[..i] == subnet[..i]
        invariant subnet[..] == old(subnet[..])
      {
        nextIP[i] := subnet[i];
        assert nextIP[..i + 1] == nextIP[..i] + [nextIP[i]];
      }
      assert nextIP[..] == nextIP[..4] && subnet[..] == subnet[..4];
      Inc(nextIP);
      Inc(nextIP);
    }

    /** Increment, and test whether that left the block or met the broadcast address. */
    method StepOn() returns (wraps: bool)
      requires nextIP != subnet && nextIP != mask && nextIP.Length == subnet.Length == mask.Length == 4
      requires hostBits <= 32 && mask[..] == Mask(4, hostBits)
      modifies nextIP
      ensures nextIP[..] == Incremented(old(nextIP[..]))
      ensures wraps <==> Wraps(nextIP[..], subnet[..], hostBits)
    {
      Inc(nextIP);
      var inside := Contains();
      var broadcast := IsBroadcast();
      wraps := !inside || broadcast;
    }

    /** One more, or back to the start. */
    method MoveOn()
      requires nextIP != subnet && nextIP != mask && subnet[..] == network && nextIP.Length == 4
      requires hostBits <= 32 && mask[..] == Mask(4, hostBits)
      modifies nextIP
      ensures nextIP[..] == Following(network, hostBits, old(nextIP[..]))
    {
      var wraps := StepOn();
      if wraps {
        Rewind();
      }
    }

    /** Move the cursor to the next address of the cycle. */
    method Advance()
      requires Valid()
      modifies this`cursor, nextIP
      ensures Valid() && cursor == Succ(old(cursor), Count(hostBits))
    {
      FollowingIsNext(network, hostBits, cursor);
      MoveOn();
      cursor := Succ(cursor, Count(hostBits));
    }

    /** The branch that found a free address: mark it and move past it. */
    method Take(ghost start: Cycle, ghost j: nat, ip: string)
      requires Valid() && j < start.n && start.cursor < start.n && ip == Text(cursor)
      requires View() == start.(cursor := start.At(j)) && start.StepsToFree(0) == Some(j)
      modifies this, nextIP
      ensures Valid()
      ensures (View(), Some(old(cursor))) == start.Acquire()
      ensures usedIPs == old(usedIPs) + {ip}
    {
      PositionsGrow(network, hostBits, usedIPs, cursor);
      usedIPs := usedIPs + {ip};
      Advance();
      TakenIsAcquired(start, j, View());
    }

    /** Past an address in use, and whether that is once around. */
    method Pass(ghost start: Cycle, ghost j: nat, startIP: seq<Byte>) returns (around: bool)
      requires Valid() && j < start.n && start.cursor < start.n && View() == start.(cursor := start.At(j))
      requires startIP == Address(network, start.cursor)
      modifies this`cursor, nextIP
      ensures Valid() && View() == start.(cursor := start.At(j + 1))
      ensures around <==> j + 1 == start.n
      ensures around ==> View() == start
    {
      NextPosition(start, j);
      Advance();
      SameAddress(cursor, start.cursor);
      around := nextIP[..] == startIP;
    }

    /** The search that began at start has come to its j-th address, and found none free before it. */
    ghost predicate Seeking(start: Cycle, used: set<string>, j: nat)
      reads this, subnet, mask, nextIP
    {
      && Valid() && usedIPs == used && j < start.n && start.cursor < start.n
      && View() == start.(cursor := start.At(j)) && start.StepsToFree(0) == start.StepsToFree(j)
    }

    /** The search that began at start, with these addresses in use, has ended with the first free
        address marked and returned, or with an error. */
    ghost predicate Answered(start: Cycle, used: set<string>, r: Result<string>)
      reads this
    {
      && View() == start.Acquire().0
      && (match start.Acquire().1 { case Some(k) => r == Ok(Text(k)) case None => r.Err? })
      && usedIPs == used + (if r.Ok? then {r.value} else {})
      && (r.Ok? ==> r.value in AddressTexts(network, hostBits) && r.value !in used)
      && (r.Ok? && hostBits >= 2 ==> SpellsHost(network, hostBits, r.value))
    }

    /** One turn of the search. */
    method TryNext(ghost start: Cycle, ghost j: nat, startIP: seq<Byte>) returns (answer: Option<Result<string>>)
      requires Seeking(start, usedIPs, j) && startIP == Address(network, start.cursor)
      modifies this, nextIP
      ensures Valid()
      ensures answer.None? ==> Seeking(start, old(usedIPs), j + 1)
      ensures answer.Some? ==> Answered(start, old(usedIPs), answer.value)
    {
      var ip := Dotted(nextIP[..]);
      if ip !in usedIPs {
        if hostBits >= 2 {
          TextsSpellHosts(network, hostBits, ip);
        }
        Take(start, j, ip);
        return Some(Ok(ip));
      }
      var around := Pass(start, j, startIP);
      return if around then Some(Err("ip pool exhausted")) else None;
    }

    /** The search, from the address where the cursor stands. */
    method Search(ghost start: Cycle, startIP: seq<Byte>) returns (r: Result<string>)
      requires Seeking(start, usedIPs, 0) && startIP == Address(network, start.cursor)
      modifies this, nextIP
      ensures Valid() && Answered(start, old(usedIPs), r)
    {
      ghost var used, j := usedIPs, 0;
      while true
        invariant Seeking(start, used, j)
        decreases start.n - j
      {
        var answer := TryNext(start, j, startIP);
        if answer.Some? {
          return answer.value;
        }
        j := j + 1;
      }
    }

    /** The first free address in cyclic order from the cursor; an error, changing nothing, exactly
        when every address of the cycle is in use. */
    method Acquire() returns (r: Result<string>)
      requires Valid()
      modifies this, nextIP
      ensures Valid() && Answered(old(View()), old(usedIPs), r)
    {
      r := Search(View(), nextIP[..]);
    }

    /** Release forgets the address, whatever text it is given. */
    method Release(ip: string)
      requires Valid()
      modifies this`usedIPs
      ensures Valid() && usedIPs == old(usedIPs) - {ip}
      ensures forall k :: 0 <= k < Count(hostBits) && Text(k) == ip ==> View() == old(View()).Release(k)
      ensures (forall k: nat :: k < Count(hostBits) ==> AddressText(network, k) != ip) ==> View() == old(View())
    {
      usedIPs := usedIPs - {ip};
      forall k | 0 <= k < Count(hostBits) && Text(k) == ip ensures View() == old(View()).Release(k) {
        PositionsShrink(network, hostBits, old(usedIPs), k);
      }
      if forall k: nat :: k < Count(hostBits) ==> AddressText(network, k) != ip {
        PositionsStay(network, hostBits, old(usedIPs), ip);
      }
    }

    lemma SameAddress(j: nat, k: nat)
      requires IsNetwork(network, hostBits) && j < Count(hostBits) && k < Count(hostBits)
      ensures Address(network, j) == Address(network, k) <==> j == k
    {
      if Address(network, j) == Address(network, k) {
        AddressesDiffer(network, hostBits, j, k);
      }
    }
  }

  // ---------------------------------------------------------------------------
  // Positions of a cycle
  // ---------------------------------------------------------------------------

  /** Within once around. */
  lemma {:induction false} AroundOnce(k: nat, j: nat, n: nat)
    requires k < n && j <= n
    ensures Around(k, j, n) == if k + j < n then k + j else k + j - n
    decreases j
  {
    if j > 0 {
      AroundOnce(k, j - 1, n);
    }
  }

  /** Within n steps the cursor is back where it started at the n-th step only. */
  lemma NextPosition(c: Cycle, j: nat)
    requires c.cursor < c.n && j < c.n
    ensures c.At(j) < c.n && c.At(j + 1) == Succ(c.At(j), c.n)
    ensures c.At(j + 1) == c.cursor <==> j + 1 == c.n
  {
    AroundOnce(c.cursor, j, c.n);
    AroundOnce(c.cursor, j + 1, c.n);
  }
}
