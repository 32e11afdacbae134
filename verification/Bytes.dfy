/** Byte-array arithmetic of the address allocator: increment with carry, and the mask tests
    of net.IPNet.Contains and isBroadcast, each as arithmetic on the number the bytes spell. */
module Bytes {
  type Byte = b: nat | b < 256

  /** The number a big-endian byte string spells. */
  function Num(s: seq<Byte>): nat {
    if s == [] then 0 else 256 * Num(s[..|s| - 1]) + s[|s| - 1]
  }

  function Pow(b: nat, e: nat): (p: nat)
    ensures b > 0 ==> p > 0
  {
    if e == 0 then 1 else b * Pow(b, e - 1)
  }

  lemma NumBound(s: seq<Byte>)
    ensures Num(s) < Pow(256, |s|)
  {
    if s != [] {
      NumBound(s[..|s| - 1]);
    }
  }

  /** Byte strings of one length that spell the same number are equal. */
  lemma {:induction false} NumInjective(s: seq<Byte>, t: seq<Byte>)
    requires |s| == |t| && Num(s) == Num(t)
    ensures s == t
    decreases |s|
  {
    if s != [] {
      var n := |s| - 1;
      NumInjective(s[..n], t[..n]);
      assert s == s[..n] + [s[n]] && t == t[..n] + [t[n]];
    }
  }

  // ---------------------------------------------------------------------------
  // Increment
  // ---------------------------------------------------------------------------

  /** One more, in one byte: 255 wraps to 0. */
  function Bumped(b: Byte): Byte {
    if b == 255 then 0 else b + 1
  }

  function Incremented(s: seq<Byte>): (r: seq<Byte>)
    ensures |r| == |s|
  {
    if s == [] then []
    else
      var n := |s| - 1;
      var b := Bumped(s[n]);
      if b > 0 then s[..n] + [b] else Incremented(s[..n]) + [b]
  }

  lemma Wrap(x: nat, m: nat)
    requires x < m
    ensures (x + 1) % m == if x + 1 == m then 0 else x + 1
  {
    if x + 1 == m {
      assert (x + 1) % m == 0;
    }
  }

  /** Incrementing an n-byte string adds one modulo 256^n. */
  lemma {:induction false} IncrementedIsSuccessor(s: seq<Byte>)
    ensures Num(Incremented(s)) == (Num(s) + 1) % Pow(256, |s|)
    decreases |s|
  {
    if s != [] {
      var n := |s| - 1;
      var front := s[..n];
      IncrementedIsSuccessor(front);
      NumBound(front);
      NumBound(s);
      Wrap(Num(s), Pow(256, |s|));
      Wrap(Num(front), Pow(256, n));
      assert Incremented(s)[..n] == if s[n] < 255 then front else Incremented(front);
    }
  }

  /** The loop of inc on the bytes s has come to position j: those up to j are still the old ones,
      and incrementing them gives the result. */
  ghost predicate Carrying(s: seq<Byte>, now: seq<Byte>, j: int)
    requires -1 <= j < |s|
  {
    && |now| == |s| && now[..j + 1] == s[..j + 1]
    && Incremented(s) == Incremented(now[..j + 1]) + now[j + 1..]
  }

  /** One turn of the loop: the byte at j is bumped, and a wrap carries into the bytes before it. */
  lemma CarryStep(s: seq<Byte>, now: seq<Byte>, j: nat, next: seq<Byte>)
    requires j < |s| && Carrying(s, now, j) && next == now[j := Bumped(now[j])]
    ensures if next[j] > 0 then next == Incremented(s) else Carrying(s, next, j - 1)
  {
    var front, rest := now[..j + 1], now[j + 1..];
    assert front[..j] == now[..j] == next[..j] == s[..j];
    Regroup(if next[j] > 0 then front[..j] else Incremented(front[..j]), next[j], rest);
    assert next[j..] == [next[j]] + rest;
    assert next == next[..j] + next[j..];
  }

  lemma Regroup(s: seq<Byte>, b: Byte, t: seq<Byte>)
    ensures s + [b] + t == s + ([b] + t)
  {
  }

  /** inc: add one in place, carrying leftwards until a byte does not wrap. */
  method Inc(ip: array<Byte>)
    modifies ip
    ensures ip[..] == Incremented(old(ip[..]))
  {
    var j := ip.Length - 1;
    ghost var was := ip[..];
    assert was[..j + 1] == was;
    while j >= 0
      invariant -1 <= j < ip.Length
      invariant Carrying(was, ip[..], j)
      decreases j
    {
      ghost var now := ip[..];
      ip[j] := Bumped(ip[j]);
      CarryStep(was, now, j, ip[..]);
      if ip[j] > 0 {
        break;
      }
      j := j - 1;
    }
  }

  // ---------------------------------------------------------------------------
  // Quotients and remainders
  // ---------------------------------------------------------------------------

  lemma MulMonotone(a: nat, b: nat, d: nat)
    requires a < b
    ensures a * d + d <= b * d
  {
    var k := b - a - 1;
    assert b * d == a * d + d + k * d;
  }

  lemma MulCancel(a: nat, b: nat, d: nat)
    ensures a * d < b * d ==> a < b
  {
    if b < a {
      MulMonotone(b, a, d);
    }
  }

  lemma QuotientUnique(d: nat, q: nat, r: nat, q': nat, r': nat)
    requires q * d + r == q' * d + r' && r < d && r' < d
    ensures q == q' && r == r'
  {
    if q < q' {
      MulMonotone(q, q', d);
    } else if q' < q {
      MulMonotone(q', q, d);
    }
  }

  lemma Quotient(x: nat, d: nat, q: nat, r: nat)
    requires d > 0 && x == q * d + r && r < d
    ensures x / d == q && x % d == r
  {
    DivMod(x, d);
    QuotientUnique(d, q, r, x / d, x % d);
  }

  lemma DivMod(x: nat, d: nat)
    requires d > 0
    ensures x == x / d * d + x % d && x % d < d
  {
  }

  lemma Distributes(a: nat, b: nat, d: nat)
    ensures (a + b) * d == a * d + b * d
  {
  }

  lemma Exchange(a: nat, b: nat, c: nat)
    ensures a * b * c == a * c * b
  {
  }

  /** Dividing b*x + v by m = b*p splits off the low digit v of base b. */
  lemma LowDigit(m: nat, b: nat, p: nat, x: nat, v: nat)
    requires v < b && p > 0 && m == b * p
    ensures m > 0
    ensures (b * x + v) / m == x / p
    ensures (b * x + v) % m == b * (x % p) + v
  {
    var q, r := x / p, x % p;
    DivMod(x, p);
    MulMonotone(r, p, b);
    LowDigitSum(m, b, p, q, r);
    assert b * r + v < m;
    Quotient(b * x + v, m, q, b * r + v);
  }

  lemma LowDigitSum(m: nat, b: nat, p: nat, q: nat, r: nat)
    requires m == b * p
    ensures b * (q * p + r) == q * m + b * r
  {
    Distributes(q * p, r, b);
    Exchange(q, p, b);
  }

  /** Dividing m*x + v by p, for m = c*p, adds c*x to the quotient and keeps the remainder. */
  lemma Multiple(m: nat, c: nat, p: nat, x: nat, v: nat)
    requires p > 0 && m == c * p
    ensures (m * x + v) / p == c * x + v / p
    ensures (m * x + v) % p == v % p
  {
    var q, r := v / p, v % p;
    DivMod(v, p);
    Exchange(c, p, x);
    Distributes(c * x, q, p);
    Quotient(m * x + v, p, c * x + q, r);
  }

  lemma Associates(a: nat, b: nat, c: nat)
    ensures a * (b * c) == a * b * c
  {
  }

  lemma {:induction false} PowAdd(b: nat, m: nat, n: nat)
    ensures Pow(b, m + n) == Pow(b, m) * Pow(b, n)
  {
    if m > 0 {
      PowAdd(b, m - 1, n);
      Associates(b, Pow(b, m - 1), Pow(b, n));
    }
  }

  // ---------------------------------------------------------------------------
  // Bits
  // ---------------------------------------------------------------------------

  function Or(x: nat, y: nat): nat
    decreases x + y
  {
    if x + y == 0 then 0 else 2 * Or(x / 2, y / 2) + if x % 2 == 1 || y % 2 == 1 then 1 else 0
  }

  function And(x: nat, y: nat): nat
    decreases x + y
  {
    if x + y == 0 then 0 else 2 * And(x / 2, y / 2) + if x % 2 == 1 && y % 2 == 1 then 1 else 0
  }

  lemma {:induction false} PowMonotone(m: nat, n: nat)
    requires m <= n
    ensures Pow(2, m) <= Pow(2, n)
    decreases n
  {
    if m < n {
      PowMonotone(m, n - 1);
    }
  }

  /** n bits, the top n - h of them set. */
  function Prefix(n: nat, h: nat): nat
    requires h <= n
  {
    PowMonotone(h, n);
    Pow(2, n) - Pow(2, h)
  }

  /** With no host bits the prefix is all ones: Or-ing gives it back, And-ing changes nothing. */
  lemma {:induction false} FullPrefix(x: nat, n: nat)
    requires x < Pow(2, n)
    ensures Or(x, Pow(2, n) - 1) == Pow(2, n) - 1 && And(x, Pow(2, n) - 1) == x
    decreases n
  {
    if n > 0 {
      FullPrefix(x / 2, n - 1);
      var y := Pow(2, n) - 1;
      assert y / 2 == Pow(2, n - 1) - 1 && y % 2 == 1;
    }
  }

  /** Or-ing and And-ing with a number that ends in a zero bit. */
  lemma EvenStep(x: nat, y: nat)
    ensures Or(x, 2 * y) == 2 * Or(x / 2, y) + x % 2
    ensures And(x, 2 * y) == 2 * And(x / 2, y)
  {
    assert 2 * y / 2 == y && 2 * y % 2 == 0;
  }

  lemma PrefixHalf(n: nat, h: nat)
    requires 0 < h <= n
    ensures Prefix(n, h) == 2 * Prefix(n - 1, h - 1)
  {
  }

  lemma Halve(x: nat, h: nat)
    requires h > 0
    ensures x / Pow(2, h) == x / 2 / Pow(2, h - 1)
    ensures x % Pow(2, h) == 2 * (x / 2 % Pow(2, h - 1)) + x % 2
  {
    LowDigit(Pow(2, h), 2, Pow(2, h - 1), x / 2, x % 2);
  }

  /** One step down: a prefix with a host bit ends in a zero bit. */
  lemma PrefixStep(x: nat, n: nat, h: nat)
    requires 0 < h <= n
    ensures Or(x, Prefix(n, h)) == 2 * Or(x / 2, Prefix(n - 1, h - 1)) + x % 2
    ensures And(x, Prefix(n, h)) == 2 * And(x / 2, Prefix(n - 1, h - 1))
  {
    PrefixHalf(n, h);
    EvenStep(x, Prefix(n - 1, h - 1));
  }

  /** The low h bits of x, and those above them. */
  function LowBits(x: nat, h: nat): nat {
    if h == 0 then 0 else 2 * LowBits(x / 2, h - 1) + x % 2
  }

  function HighBits(x: nat, h: nat): nat {
    if h == 0 then x else HighBits(x / 2, h - 1)
  }

  lemma {:induction false} BitsOf(x: nat, h: nat)
    ensures x % Pow(2, h) == LowBits(x, h) && x / Pow(2, h) == HighBits(x, h)
    decreases h
  {
    if h > 0 {
      BitsOf(x / 2, h - 1);
      Halve(x, h);
    } else {
      DivOne(x);
    }
  }

  lemma OneBit(or: nat, or': nat, and: nat, and': nat, x: nat, n: nat, h: nat, r: nat, r': nat)
    requires or == 2 * or' + x % 2 && and == 2 * and' && r == 2 * r' + x % 2
    requires (or' == n - 1 <==> r' == h - 1) && and' == x / 2 - r'
    ensures (or == 2 * n - 1 <==> r == 2 * h - 1) && and == x - r
  {
  }

  /** The two claims of PrefixBits. */
  predicate BitsAgree(x: nat, n: nat, h: nat)
    requires h <= n
  {
    && (Or(x, Prefix(n, h)) == Pow(2, n) - 1 <==> x % Pow(2, h) == Pow(2, h) - 1)
    && And(x, Prefix(n, h)) == x - x % Pow(2, h)
  }

  lemma BitsAgreeStep(x: nat, n: nat, h: nat)
    requires 0 < h <= n && BitsAgree(x / 2, n - 1, h - 1)
    ensures BitsAgree(x, n, h)
  {
    PrefixStep(x, n, h);
    Halve(x, h);
    OneBit(Or(x, Prefix(n, h)), Or(x / 2, Prefix(n - 1, h - 1)), And(x, Prefix(n, h)), And(x / 2, Prefix(n - 1, h - 1)),
           x, Pow(2, n - 1), Pow(2, h - 1), x % Pow(2, h), x / 2 % Pow(2, h - 1));
  }

  /** Or-ing with a prefix gives all ones exactly when the low h bits are all ones; And-ing with it
      clears the low h bits and keeps the rest. */
  lemma {:induction false} PrefixBits(x: nat, n: nat, h: nat)
    requires h <= n && x < Pow(2, n)
    ensures BitsAgree(x, n, h)
    decreases n
  {
    if h > 0 {
      HalfBelow(x, Pow(2, n - 1));
      PrefixBits(x / 2, n - 1, h - 1);
      BitsAgreeStep(x, n, h);
    } else {
      FullPrefix(x, n);
      DivOne(x);
    }
  }

  lemma HalfBelow(x: nat, p: nat)
    requires x < 2 * p
    ensures x / 2 < p
  {
  }

  lemma DivOne(x: nat)
    ensures x / Pow(2, 0) == x && x % Pow(2, 0) == 0 && Pow(2, 0) == 1
  {
    assert Pow(2, 0) == 1;
  }

  // ---------------------------------------------------------------------------
  // Prefix masks
  // ---------------------------------------------------------------------------

  /** The host bits that fall in the last byte. */
  function Low(h: nat): nat {
    if h < 8 then h else 8
  }

  lemma EightBits()
    ensures Pow(2, 8) == 256
  {
  }

  function ByteMask(h: nat): Byte {
    EightBits();
    Prefix(8, Low(h))
  }

  /** The n-byte prefix mask that leaves h host bits. */
  function Mask(n: nat, h: nat): (m: seq<Byte>)
    requires h <= 8 * n
    ensures |m| == n
  {
    if n == 0 then [] else Mask(n - 1, h - Low(h)) + [ByteMask(h)]
  }

  predicate AllOnes(ip: seq<Byte>, mask: seq<Byte>)
    requires |ip| == |mask|
  {
    forall i :: 0 <= i < |ip| ==> Or(ip[i], mask[i]) == 255
  }

  predicate SameNetwork(a: seq<Byte>, b: seq<Byte>, mask: seq<Byte>)
    requires |a| == |b| == |mask|
  {
    forall i :: 0 <= i < |a| ==> And(a[i], mask[i]) == And(b[i], mask[i])
  }

  /** Dividing 256x + v by 2^h, when h bits lie in the byte v. */
  lemma SplitLow(x: nat, v: Byte, h: nat)
    requires h < 8
    ensures (256 * x + v) % Pow(2, h) == v % Pow(2, h)
    ensures (256 * x + v) / Pow(2, h) == Pow(2, 8 - h) * x + v / Pow(2, h)
  {
    EightBits();
    PowAdd(2, 8 - h, h);
    Multiple(256, Pow(2, 8 - h), Pow(2, h), x, v);
  }

  /** And when v lies in the h bits. */
  lemma SplitHigh(x: nat, v: Byte, h: nat)
    requires h >= 8
    ensures (256 * x + v) % Pow(2, h) == 256 * (x % Pow(2, h - 8)) + v
    ensures (256 * x + v) / Pow(2, h) == x / Pow(2, h - 8)
  {
    EightBits();
    PowAdd(2, 8, h - 8);
    LowDigit(Pow(2, h), 256, Pow(2, h - 8), x, v);
  }

  lemma HighOnes(r: nat, p: nat, v: Byte)
    requires p > 0
    ensures 256 * r + v == 256 * p - 1 <==> r == p - 1 && v == 255
  {
  }

  lemma OnesStep(x: nat, v: Byte, h: nat)
    ensures (256 * x + v) % Pow(2, h) == Pow(2, h) - 1 <==>
      x % Pow(2, h - Low(h)) == Pow(2, h - Low(h)) - 1 && v % Pow(2, Low(h)) == Pow(2, Low(h)) - 1
  {
    if h < 8 {
      SplitLow(x, v, h);
      DivOne(x);
    } else {
      OnesHigh(x, v, h);
    }
  }

  lemma OnesHigh(x: nat, v: Byte, h: nat)
    requires h >= 8
    ensures (256 * x + v) % Pow(2, h) == Pow(2, h) - 1 <==>
      x % Pow(2, h - 8) == Pow(2, h - 8) - 1 && v % Pow(2, 8) == Pow(2, 8) - 1
  {
    EightBits();
    PowAdd(2, 8, h - 8);
    SplitHigh(x, v, h);
    HighOnes(x % Pow(2, h - 8), Pow(2, h - 8), v);
  }

  /** A quotient and a remainder below d determine each other. */
  lemma Digits(d: nat, x: nat, r: nat, y: nat, t: nat)
    requires r < d && t < d
    ensures d * x + r == d * y + t <==> x == y && r == t
  {
    if d * x + r == d * y + t {
      QuotientUnique(d, x, r, y, t);
    }
  }

  lemma QuotientStep(x: nat, v: Byte, y: nat, w: Byte, h: nat)
    ensures (256 * x + v) / Pow(2, h) == (256 * y + w) / Pow(2, h) <==>
      x / Pow(2, h - Low(h)) == y / Pow(2, h - Low(h)) && v / Pow(2, Low(h)) == w / Pow(2, Low(h))
  {
    if h < 8 {
      QuotientLow(x, v, y, w, h);
      DivOne(x);
      DivOne(y);
    } else {
      SplitHigh(x, v, h);
      SplitHigh(y, w, h);
      ByteIsSmall(v);
      ByteIsSmall(w);
    }
  }

  lemma ByteIsSmall(v: Byte)
    ensures v / Pow(2, 8) == 0
  {
    EightBits();
  }

  lemma QuotientLow(x: nat, v: Byte, y: nat, w: Byte, h: nat)
    requires h < 8
    ensures (256 * x + v) / Pow(2, h) == (256 * y + w) / Pow(2, h) <==> x == y && v / Pow(2, h) == w / Pow(2, h)
  {
    Digits(Pow(2, 8 - h), x, TopBits(x, v, h), y, TopBits(y, w, h));
  }

  /** The bits of the byte v above its low h bits, which follow those of x in the quotient. */
  function TopBits(x: nat, v: Byte, h: nat): (q: nat)
    requires h < 8
    ensures q == v / Pow(2, h) && q < Pow(2, 8 - h)
    ensures (256 * x + v) / Pow(2, h) == Pow(2, 8 - h) * x + q
  {
    EightBits();
    PowAdd(2, 8 - h, h);
    SplitLow(x, v, h);
    Below(v, Pow(2, 8 - h), Pow(2, h));
    v / Pow(2, h)
  }

  lemma Below(v: nat, d: nat, p: nat)
    requires p > 0 && v < d * p
    ensures v / p < d
  {
    DivMod(v, p);
    MulCancel(v / p, d, p);
  }

  lemma ByteQuotient(v: Byte, w: Byte, k: nat)
    requires k <= 8
    ensures And(v, Prefix(8, k)) == And(w, Prefix(8, k)) <==> v / Pow(2, k) == w / Pow(2, k)
  {
    EightBits();
    PrefixBits(v, 8, k);
    PrefixBits(w, 8, k);
    SameFloor(v, w, Pow(2, k));
  }

  lemma ByteOnes(v: Byte, k: nat)
    requires k <= 8
    ensures Or(v, Prefix(8, k)) == 255 <==> v % Pow(2, k) == Pow(2, k) - 1
  {
    EightBits();
    PrefixBits(v, 8, k);
  }

  lemma SameFloor(v: nat, w: nat, p: nat)
    requires p > 0
    ensures v - v % p == w - w % p <==> v / p == w / p
  {
    assert v - v % p == v / p * p && w - w % p == w / p * p;
    if v / p * p == w / p * p {
      QuotientUnique(p, v / p, 0, w / p, 0);
    }
  }

  lemma MaskSplit(n: nat, h: nat)
    requires n > 0 && h <= 8 * n
    ensures Mask(n, h)[..n - 1] == Mask(n - 1, h - Low(h)) && Mask(n, h)[n - 1] == ByteMask(h)
  {
  }

  lemma AllOnesSplit(ip: seq<Byte>, mask: seq<Byte>, n: nat)
    requires |ip| == |mask| == n + 1
    ensures AllOnes(ip, mask) <==> AllOnes(ip[..n], mask[..n]) && Or(ip[n], mask[n]) == 255
  {
  }

  lemma SameNetworkSplit(a: seq<Byte>, b: seq<Byte>, mask: seq<Byte>, n: nat)
    requires |a| == |b| == |mask| == n + 1
    ensures SameNetwork(a, b, mask) <==>
      SameNetwork(a[..n], b[..n], mask[..n]) && And(a[n], mask[n]) == And(b[n], mask[n])
  {
  }

  lemma MaskedSplit(a: seq<Byte>, b: seq<Byte>, h: nat, n: nat)
    requires |a| == |b| == n + 1 && h <= 8 * |a|
    ensures SameNetwork(a, b, Mask(|a|, h)) <==>
      SameNetwork(a[..n], b[..n], Mask(|a[..n]|, h - Low(h))) && And(a[n], ByteMask(h)) == And(b[n], ByteMask(h))
  {
    MaskSplit(n + 1, h);
    SameNetworkSplit(a, b, Mask(n + 1, h), n);
  }

  lemma NumQuotient(a: seq<Byte>, b: seq<Byte>, h: nat, n: nat)
    requires |a| == |b| == n + 1
    ensures Num(a) / Pow(2, h) == Num(b) / Pow(2, h) <==>
      && Num(a[..n]) / Pow(2, h - Low(h)) == Num(b[..n]) / Pow(2, h - Low(h))
      && a[n] / Pow(2, Low(h)) == b[n] / Pow(2, Low(h))
  {
    QuotientStep(Num(a[..n]), a[n], Num(b[..n]), b[n], h);
  }

  lemma MaskedOnes(ip: seq<Byte>, h: nat, n: nat)
    requires |ip| == n + 1 && h <= 8 * |ip|
    ensures AllOnes(ip, Mask(|ip|, h)) <==>
      AllOnes(ip[..n], Mask(|ip[..n]|, h - Low(h))) && Or(ip[n], ByteMask(h)) == 255
  {
    MaskSplit(n + 1, h);
    AllOnesSplit(ip, Mask(n + 1, h), n);
  }

  lemma NumOnes(ip: seq<Byte>, h: nat, n: nat)
    requires |ip| == n + 1
    ensures Num(ip) % Pow(2, h) == Pow(2, h) - 1 <==>
      && Num(ip[..n]) % Pow(2, h - Low(h)) == Pow(2, h - Low(h)) - 1
      && ip[n] % Pow(2, Low(h)) == Pow(2, Low(h)) - 1
  {
    OnesStep(Num(ip[..n]), ip[n], h);
  }

  /** The mask test for a broadcast address: it holds exactly when the h host bits are all ones. */
  lemma {:induction false} BroadcastIsAllOnes(ip: seq<Byte>, h: nat)
    requires h <= 8 * |ip|
    ensures AllOnes(ip, Mask(|ip|, h)) <==> Num(ip) % Pow(2, h) == Pow(2, h) - 1
    decreases |ip|
  {
    if ip != [] {
      var n := |ip| - 1;
      BroadcastIsAllOnes(ip[..n], h - Low(h));
      MaskedOnes(ip, h, n);
      ByteOnes(ip[n], Low(h));
      NumOnes(ip, h, n);
    }
  }

  /** The mask test for membership: it holds exactly when the numbers agree above the host bits. */
  lemma {:induction false} NetworkIsQuotient(a: seq<Byte>, b: seq<Byte>, h: nat)
    requires |a| == |b| && h <= 8 * |a|
    ensures SameNetwork(a, b, Mask(|a|, h)) <==> Num(a) / Pow(2, h) == Num(b) / Pow(2, h)
    decreases |a|
  {
    if a != [] {
      var n := |a| - 1;
      NetworkIsQuotient(a[..n], b[..n], h - Low(h));
      MaskedSplit(a, b, h, n);
      ByteQuotient(a[n], b[n], Low(h));
      NumQuotient(a, b, h, n);
    }
  }
}
