/** Splitting, decimal numerals and dotted-decimal IPv4 literals: what the daemon
    uses of Go's strings.Split, strconv and net/netip, each with its inverse. */
module Text {
  import opened Bytes
  import opened Wrappers

  // ---------------------------------------------------------------------------
  // Splitting on a separator
  // ---------------------------------------------------------------------------

  predicate Free(s: string, sep: char) {
    sep !in s
  }

  predicate AllFree(parts: seq<string>, sep: char) {
    forall i :: 0 <= i < |parts| ==> Free(parts[i], sep)
  }

  function Split(s: string, sep: char): (parts: seq<string>)
    ensures |parts| >= 1
    ensures AllFree(parts, sep)
    ensures Join(parts, sep) == s
  {
    if s == "" then [""]
    else
      var rest := Split(s[1..], sep);
      assert rest == [rest[0]] + rest[1..];
      if s[0] == sep then
        assert ([""] + rest)[1..] == rest;
        [""] + rest
      else
        var head := [s[0]] + rest[0];
        assert ([head] + rest[1..])[1..] == rest[1..];
        [head] + rest[1..]
  }

  function Join(parts: seq<string>, sep: char): string
    requires |parts| >= 1
  {
    if |parts| == 1 then parts[0] else parts[0] + [sep] + Join(parts[1..], sep)
  }

  /** Split undoes Join, so a string has one reading as separated fields. */
  lemma {:induction false} SplitOfJoin(parts: seq<string>, sep: char)
    requires |parts| >= 1 && AllFree(parts, sep)
    ensures Split(Join(parts, sep), sep) == parts
    decreases |parts|, |parts[0]|
  {
    var s := Join(parts, sep);
    if parts[0] == "" {
      if |parts| > 1 {
        assert s[0] == sep && s[1..] == Join(parts[1..], sep);
        SplitOfJoin(parts[1..], sep);
      }
    } else {
      var shorter := [parts[0][1..]] + parts[1..];
      assert shorter[1..] == parts[1..];
      assert s[0] == parts[0][0] && s[1..] == Join(shorter, sep);
      assert s[0] != sep;
      SplitOfJoin(shorter, sep);
      assert Split(s, sep) == [[s[0]] + shorter[0]] + shorter[1..];
      assert [s[0]] + shorter[0] == parts[0] && [parts[0]] + parts[1..] == parts;
    }
  }

  lemma SplitOne(a: string, sep: char)
    requires Free(a, sep)
    ensures Split(a, sep) == [a]
  {
    SplitOfJoin([a], sep);
  }

  lemma JoinTwo(a: string, b: string, sep: char)
    ensures Join([a, b], sep) == a + [sep] + b
  {
    assert [a, b][1..] == [b];
  }

  lemma SplitTwo(a: string, b: string, sep: char)
    requires Free(a, sep) && Free(b, sep)
    ensures Split(a + [sep] + b, sep) == [a, b]
  {
    JoinTwo(a, b, sep);
    SplitOfJoin([a, b], sep);
  }

  lemma JoinThree(a: string, b: string, c: string, sep: char)
    ensures Join([a, b, c], sep) == a + [sep] + (b + [sep] + c)
  {
    assert [a, b, c][1..] == [b, c];
    JoinTwo(b, c, sep);
  }

  // ---------------------------------------------------------------------------
  // Decimal numerals
  // ---------------------------------------------------------------------------

  predicate IsDigit(c: char) {
    '0' <= c <= '9'
  }

  predicate AllDigits(s: string) {
    forall i :: 0 <= i < |s| ==> IsDigit(s[i])
  }

  function Value(s: string): nat
    requires AllDigits(s)
  {
    if s == "" then 0 else 10 * Value(s[..|s| - 1]) + (s[|s| - 1] as nat - '0' as nat)
  }

  /** The shortest numeral of n, as strconv.Itoa writes it. */
  function Numeral(n: nat): (s: string)
    ensures s != "" && AllDigits(s)
    ensures Value(s) == n
    ensures s[0] == '0' ==> |s| == 1
    ensures n > 0 ==> s[0] != '0'
  {
    var last := ('0' as int + n % 10) as char;
    if n < 10 then
      assert [last][..0] == "";
      [last]
    else
      var front := Numeral(n / 10);
      assert (front + [last])[..|front|] == front;
      front + [last]
  }

  /** strconv.ParseUint(s, 10, 16): digits only, at least one, at most 65535. */
  function ParseUint16(s: string): Option<nat> {
    if s != "" && AllDigits(s) && Value(s) <= 65535 then Some(Value(s)) else None
  }

  // ---------------------------------------------------------------------------
  // IPv4 literals
  // ---------------------------------------------------------------------------

  /** A decimal octet as netip reads it: no leading zero, at most 255. */
  predicate IsOctet(s: string) {
    s != "" && AllDigits(s) && (s[0] == '0' ==> |s| == 1) && Value(s) <= 255
  }

  function Octet(s: string): Byte
    requires IsOctet(s)
  {
    Value(s)
  }

  type Ipv4 = ip: seq<Byte> | |ip| == 4 witness [0, 0, 0, 0]

  function Numerals(bytes: seq<Byte>): (parts: seq<string>)
    ensures |parts| == |bytes|
    ensures forall i :: 0 <= i < |bytes| ==> parts[i] == Numeral(bytes[i])
  {
    seq(|bytes|, i requires 0 <= i < |bytes| => Numeral(bytes[i]))
  }

  /** Dotted-decimal text of an address. */
  function Dotted(ip: Ipv4): string {
    Join(Numerals(ip), '.')
  }

  predicate IsDotted(s: string) {
    var parts := Split(s, '.');
    |parts| == 4 && forall i :: 0 <= i < 4 ==> IsOctet(parts[i])
  }

  /** netip.ParseAddr on text without a colon: an IPv4 literal or an error. */
  function ParseAddr(s: string): Option<Ipv4> {
    var parts := Split(s, '.');
    if IsDotted(s) then Some([Octet(parts[0]), Octet(parts[1]), Octet(parts[2]), Octet(parts[3])])
    else None
  }

  lemma DigitsAreFree(s: string, sep: char)
    requires AllDigits(s) && !IsDigit(sep)
    ensures Free(s, sep)
  {
  }

  /** Reading the printed address gives the address back. */
  lemma ParseOfDotted(ip: Ipv4)
    ensures ParseAddr(Dotted(ip)) == Some(ip)
  {
    var parts := Numerals(ip);
    forall i | 0 <= i < 4 ensures Free(parts[i], '.') && IsOctet(parts[i]) && Octet(parts[i]) == ip[i] {
      DigitsAreFree(Numeral(ip[i]), '.');
    }
    SplitOfJoin(parts, '.');
    assert [ip[0], ip[1], ip[2], ip[3]] == ip;
  }

  /** The text is the four octets in decimal, the first byte first. */
  lemma DottedOctets(ip: Ipv4)
    ensures Dotted(ip) == Numeral(ip[0]) + "." + Numeral(ip[1]) + "." + Numeral(ip[2]) + "." + Numeral(ip[3])
    ensures Split(Dotted(ip), '.') == [Numeral(ip[0]), Numeral(ip[1]), Numeral(ip[2]), Numeral(ip[3])]
  {
    var a, b, c, d := Numeral(ip[0]), Numeral(ip[1]), Numeral(ip[2]), Numeral(ip[3]);
    assert Numerals(ip) == [a, b, c, d] && [a, b, c, d][1..] == [b, c, d];
    JoinThree(b, c, d, '.');
    assert a + ['.'] + (b + ['.'] + (c + ['.'] + d)) == a + "." + b + "." + c + "." + d;
    DigitsAreFree(a, '.');
    DigitsAreFree(b, '.');
    DigitsAreFree(c, '.');
    DigitsAreFree(d, '.');
    SplitOfJoin([a, b, c, d], '.');
  }

  /** A numeral without a leading zero is the numeral of its value. */
  lemma {:induction false} NumeralOfValue(s: string)
    requires s != "" && AllDigits(s) && (s[0] == '0' ==> |s| == 1)
    ensures Numeral(Value(s)) == s
    decreases |s|
  {
    var n := |s| - 1;
    assert s == s[..n] + [s[n]];
    if n == 0 {
      assert s[..n] == "";
    } else {
      NumeralOfValue(s[..n]);
      assert Numeral(Value(s[..n]))[0] != '0';
      assert Value(s) / 10 == Value(s[..n]);
    }
  }

  /** A text is read as an address if and only if it is the four octets in decimal, the first byte first. */
  lemma ParsesExactly(s: string, ip: Ipv4)
    ensures ParseAddr(s) == Some(ip) <==>
      s == Numeral(ip[0]) + "." + Numeral(ip[1]) + "." + Numeral(ip[2]) + "." + Numeral(ip[3])
  {
    DottedOctets(ip);
    ParseOfDotted(ip);
    if ParseAddr(s) == Some(ip) {
      var parts := Split(s, '.');
      forall i | 0 <= i < 4 ensures parts[i] == Numeral(ip[i]) {
        NumeralOfValue(parts[i]);
      }
      assert parts == Numerals(ip);
    }
  }

  /** Two addresses with the same text are the same address. */
  lemma DottedInjective(a: Ipv4, b: Ipv4)
    requires Dotted(a) == Dotted(b)
    ensures a == b
  {
    ParseOfDotted(a);
    ParseOfDotted(b);
  }

  predicate DottedChar(c: char) {
    IsDigit(c) || c == '.'
  }

  lemma {:induction false} JoinChars(parts: seq<string>)
    requires |parts| >= 1
    requires forall i :: 0 <= i < |parts| ==> AllDigits(parts[i])
    ensures forall c :: c in Join(parts, '.') ==> DottedChar(c)
    decreases |parts|
  {
    if |parts| > 1 {
      JoinChars(parts[1..]);
    }
  }

  /** A printed address holds digits and dots only, so it can stand in a field
      that ends at a colon. */
  lemma DottedHasNoColon(ip: Ipv4)
    ensures Free(Dotted(ip), ':') && Free(Dotted(ip), '/')
    ensures forall c :: c in Dotted(ip) ==> DottedChar(c)
  {
    JoinChars(Numerals(ip));
  }
}
