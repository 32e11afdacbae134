/** The port-binding flag parser (internal/network/utils.go), proved against a
    grammar with concrete syntax trees and a canonical printer. */
module PortBindings {
  import opened Wrappers
  import opened Text

  datatype Binding = Binding(ip: Ipv4, hostPort: nat, guestPort: nat, protocol: string) {
    predicate Valid() {
      hostPort <= 65535 && guestPort <= 65535 && IsProtocol(protocol)
    }
  }

  predicate IsProtocol(p: string) {
    p == "tcp" || p == "udp"
  }

  // ---------------------------------------------------------------------------
  // The grammar
  // ---------------------------------------------------------------------------

  /** A written binding `[[ip]:[host]:]guest[/protocol]` or `[host]:guest[/protocol]`.
      An absent field is None; a field that is present may be empty, except the guest port. */
  datatype Syntax = Syntax(ip: Option<string>, host: Option<string>, guest: string, protocol: Option<string>) {
    predicate WellFormed() {
      && (ip.Some? ==> host.Some?)
      && (ip.Some? && ip.value != "" ==> IsDotted(ip.value))
      && (host.Some? && host.value != "" ==> ParseUint16(host.value).Some?)
      && ParseUint16(guest).Some?
      && (protocol.Some? ==> IsProtocol(protocol.value))
    }

    function Address(): string {
      var tail := if host.Some? then host.value + [':'] + guest else guest;
      if ip.Some? then ip.value + [':'] + tail else tail
    }

    function Text(): string {
      if protocol.Some? then Address() + ['/'] + protocol.value else Address()
    }

    /** Omitted and empty fields mean every interface, any host port, and tcp. */
    function Meaning(): Binding
      requires WellFormed()
    {
      Binding(
        if ip.Some? && ip.value != "" then ParseAddr(ip.value).value else [0, 0, 0, 0],
        if host.Some? && host.value != "" then ParseUint16(host.value).value else 0,
        ParseUint16(guest).value,
        if protocol.Some? then protocol.value else "tcp")
    }
  }

  ghost predicate Denotes(s: string, b: Binding) {
    exists sx: Syntax :: sx.WellFormed() && sx.Text() == s && sx.Meaning() == b
  }

  // ---------------------------------------------------------------------------
  // Every text has at most one reading
  // ---------------------------------------------------------------------------

  function Fields(sx: Syntax): seq<string> {
    if sx.ip.Some? && sx.host.Some? then [sx.ip.value, sx.host.value, sx.guest]
    else if sx.host.Some? then [sx.host.value, sx.guest]
    else [sx.guest]
  }

  function SyntaxOf(fields: seq<string>, protocol: Option<string>): Syntax
    requires 1 <= |fields| <= 3
  {
    var n := |fields|;
    Syntax(if n > 2 then Some(fields[0]) else None, if n > 1 then Some(fields[n - 2]) else None,
           fields[n - 1], protocol)
  }

  /** The only syntax tree a text can have, from its slashes and colons. */
  function Read(s: string): Option<Syntax> {
    var parts := Split(s, '/');
    var fields := Split(parts[0], ':');
    if |parts| > 2 || |fields| > 3 then None
    else Some(SyntaxOf(fields, if |parts| == 2 then Some(parts[1]) else None))
  }

  lemma DottedTextIsFree(s: string)
    requires IsDotted(s)
    ensures Free(s, ':') && Free(s, '/')
  {
    JoinChars(Split(s, '.'));
  }

  lemma FieldsAreFree(sx: Syntax)
    requires sx.WellFormed()
    ensures AllFree(Fields(sx), ':') && AllFree(Fields(sx), '/')
    ensures sx.protocol.Some? ==> Free(sx.protocol.value, '/')
  {
    if sx.ip.Some? && sx.ip.value != "" {
      DottedTextIsFree(sx.ip.value);
    }
  }

  lemma AddressSplits(sx: Syntax)
    requires sx.WellFormed()
    ensures Split(sx.Address(), ':') == Fields(sx) && Free(sx.Address(), '/')
  {
    FieldsAreFree(sx);
    AddressIsJoin(sx);
    SplitOfJoin(Fields(sx), ':');
    JoinIsFree(Fields(sx), ':', '/');
  }

  lemma {:induction false} JoinIsFree(parts: seq<string>, sep: char, other: char)
    requires |parts| >= 1 && AllFree(parts, other) && sep != other
    ensures Free(Join(parts, sep), other)
    decreases |parts|
  {
    if |parts| > 1 {
      JoinIsFree(parts[1..], sep, other);
    }
  }

  /** A well-formed tree is the one Read recovers from its text. */
  lemma ReadOfText(sx: Syntax)
    requires sx.WellFormed()
    ensures Read(sx.Text()) == Some(sx)
  {
    TextSplits(sx);
    AddressSplits(sx);
    FieldsBack(sx);
  }

  lemma TextSplits(sx: Syntax)
    requires sx.WellFormed()
    ensures Split(sx.Text(), '/') == if sx.protocol.Some? then [sx.Address(), sx.protocol.value] else [sx.Address()]
  {
    AddressSplits(sx);
    FieldsAreFree(sx);
    if sx.protocol.Some? {
      SplitTwo(sx.Address(), sx.protocol.value, '/');
    } else {
      SplitOne(sx.Address(), '/');
    }
  }

  lemma FieldsBack(sx: Syntax)
    requires sx.WellFormed()
    ensures SyntaxOf(Fields(sx), sx.protocol) == sx
  {
  }

  lemma SyntaxFields(fields: seq<string>, protocol: Option<string>)
    requires 1 <= |fields| <= 3
    ensures Fields(SyntaxOf(fields, protocol)) == fields
  {
  }

  lemma AddressIsJoin(sx: Syntax)
    requires sx.ip.Some? ==> sx.host.Some?
    ensures sx.Address() == Join(Fields(sx), ':')
  {
    if sx.ip.Some? {
      JoinThree(sx.ip.value, sx.host.value, sx.guest, ':');
    } else if sx.host.Some? {
      JoinTwo(sx.host.value, sx.guest, ':');
    }
  }

  /** The tree Read finds has the text it was read from. */
  lemma TextOfRead(s: string)
    requires Read(s).Some?
    ensures Read(s).value.Text() == s
    ensures Fields(Read(s).value) == Split(Split(s, '/')[0], ':')
  {
    var parts := Split(s, '/');
    SyntaxFields(Split(parts[0], ':'), Read(s).value.protocol);
    AddressIsJoin(Read(s).value);
    if |parts| == 2 {
      JoinTwo(parts[0], parts[1], '/');
      assert parts == [parts[0], parts[1]];
    }
  }

  /** The binding a text denotes, if any. */
  function Interpret(s: string): Option<Binding> {
    if Read(s).Some? && Read(s).value.WellFormed() then Some(Read(s).value.Meaning()) else None
  }

  lemma DenotesIsInterpreted(s: string)
    ensures forall b :: Denotes(s, b) <==> Interpret(s) == Some(b)
  {
    forall b ensures Denotes(s, b) <==> Interpret(s) == Some(b) {
      if Denotes(s, b) {
        var sx: Syntax :| sx.WellFormed() && sx.Text() == s && sx.Meaning() == b;
        ReadOfText(sx);
      }
      if Interpret(s) == Some(b) {
        TextOfRead(s);
      }
    }
  }

  /** A text denotes at most one binding, and its ports and protocol are in range. */
  lemma DenotationUnique(s: string, b: Binding, b': Binding)
    requires Denotes(s, b) && Denotes(s, b')
    ensures b == b' && b.Valid()
  {
    DenotesIsInterpreted(s);
  }

  /** A decimal numeral of 16 bits, with or without leading zeros. */
  predicate Decimal(s: string, n: nat) {
    s != "" && AllDigits(s) && Value(s) == n && n <= 65535
  }

  /** What the parts of a text say: the guest port, the host port and the interface, octet by octet, if
      they are there and not empty, and the protocol. */
  ghost predicate PartsSay(ip: Option<string>, host: Option<string>, guest: string, protocol: Option<string>,
      b: Binding)
  {
    && Decimal(guest, b.guestPort)
    && (if host.Some? && host.value != "" then Decimal(host.value, b.hostPort) else b.hostPort == 0)
    && (if ip.Some? && ip.value != ""
        then ip.value == Numeral(b.ip[0]) + "." + Numeral(b.ip[1]) + "." + Numeral(b.ip[2]) + "." + Numeral(b.ip[3])
        else b.ip == [0, 0, 0, 0])
    && b.protocol == (if protocol.Some? then protocol.value else "tcp") && b.protocol in {"tcp", "udp"}
  }

  /** Up to three fields, the last the guest port, the one before it the host port, the first of three
      the interface; and up to one protocol. */
  ghost predicate FieldsSay(s: string, b: Binding) {
    var parts := Split(s, '/');
    var fields := Split(parts[0], ':');
    var n := |fields|;
    && |parts| <= 2 && n <= 3
    && PartsSay(if n == 3 then Some(fields[0]) else None, if n >= 2 then Some(fields[n - 2]) else None, fields[n - 1],
                if |parts| == 2 then Some(parts[1]) else None, b)
  }

  lemma MeaningByParts(sx: Syntax, b: Binding)
    requires sx.ip.Some? ==> sx.host.Some?
    ensures sx.WellFormed() && sx.Meaning() == b <==> PartsSay(sx.ip, sx.host, sx.guest, sx.protocol, b)
  {
    if sx.ip.Some? {
      ReadsAddress(sx.ip.value, b.ip);
    }
  }

  /** A text denotes a binding if and only if its fields say so. */
  lemma DenotesByFields(s: string, b: Binding)
    ensures Denotes(s, b) <==> FieldsSay(s, b)
  {
    DenotesIsInterpreted(s);
    if Read(s).Some? {
      MeaningByParts(Read(s).value, b);
    }
  }

  lemma ReadsAddress(s: string, ip: Ipv4)
    ensures IsDotted(s) && ParseAddr(s).value == ip <==>
      s == Numeral(ip[0]) + "." + Numeral(ip[1]) + "." + Numeral(ip[2]) + "." + Numeral(ip[3])
  {
    ParsesExactly(s, ip);
  }

  // ---------------------------------------------------------------------------
  // The parser
  // ---------------------------------------------------------------------------

  /** strings.ToLower, on the letters that can occur in an accepted text. */
  function Lower(s: string): (r: string)
    ensures |r| == |s|
    ensures forall i :: 0 <= i < |s| ==> r[i] == LowerChar(s[i])
  {
    seq(|s|, i requires 0 <= i < |s| => LowerChar(s[i]))
  }

  function LowerChar(c: char): char {
    if 'A' <= c <= 'Z' then (c as int + 32) as char else c
  }

  function Reversed<T>(s: seq<T>): (r: seq<T>)
    ensures |r| == |s|
    ensures forall i :: 0 <= i < |s| ==> r[i] == s[|s| - 1 - i]
  {
    seq(|s|, i requires 0 <= i < |s| => s[|s| - 1 - i])
  }

  /** The fields of a tree, read from the last to the first as the loop below reads them. */
  ghost predicate ReadSoFar(sx: Syntax, n: nat, output: Binding) {
    && (if n > 0 then ParseUint16(sx.guest) == Some(output.guestPort) else output.guestPort == 0)
    && (if n > 1 && sx.host.Some? && sx.host.value != "" then ParseUint16(sx.host.value) == Some(output.hostPort)
        else output.hostPort == 0)
    && (if n > 2 && sx.ip.Some? && sx.ip.value != "" then ParseAddr(sx.ip.value) == Some(output.ip)
        else output.ip == [0, 0, 0, 0])
  }

  /** The positional loop over the colon-separated fields. */
  method ReadFields(ghost sx: Syntax, parts: seq<string>, start: Binding) returns (r: Result<Binding>)
    requires sx.ip.Some? ==> sx.host.Some?
    requires sx.protocol.Some? ==> IsProtocol(sx.protocol.value)
    requires parts == Reversed(Fields(sx))
    requires start == Binding([0, 0, 0, 0], 0, 0, if sx.protocol.Some? then sx.protocol.value else "tcp")
    ensures r.Ok? <==> sx.WellFormed()
    ensures r.Ok? ==> r.value == sx.Meaning()
  {
    var output := start;
    var i := 0;
    while i < |parts|
      invariant 0 <= i <= |parts|
      invariant output.protocol == start.protocol && ReadSoFar(sx, i, output)
    {
      var part := parts[i];
      if i == 0 {
        var guestPort := ParseUint16(part);
        if guestPort == None {
          return Err("Invalid Guest Port");
        }
        output := output.(guestPort := guestPort.value);
      } else if i == 1 {
        if part != "" {
          var hostPort := ParseUint16(part);
          if hostPort == None {
            return Err("Invalid Host Port");
          }
          output := output.(hostPort := hostPort.value);
        }
      } else if part != "" {
        var addr := ParseAddr(part);
        if addr == None {
          return Err("Invalid Interface IP: only support IPv4 interface");
        }
        output := output.(ip := addr.value);
      }
      i := i + 1;
    }
    return Ok(output);
  }

  /** Accepts exactly the texts of the grammar, in any letter case, with the grammar's meaning. */
  method SanitizeNetworkBindings(input: string) returns (r: Result<Binding>)
    ensures forall b :: r == Ok(b) <==> Denotes(Lower(input), b)
  {
    var output := Binding([0, 0, 0, 0], 0, 0, "tcp");
    var text := Lower(input);
    DenotesIsInterpreted(text);
    var parts := Split(text, '/');
    var protocol := None;
    if |parts| > 2 {
      return Err("Invalid network binding: More than two / splits");
    } else if |parts| == 2 {
      if parts[1] in ["tcp", "udp"] {
        protocol := Some(parts[1]);
        output := output.(protocol := parts[1]);
      } else {
        return Err("Invalid Protocol format: Must be one of tcp, udp");
      }
    }
    var colonParts := Split(parts[0], ':');
    if |colonParts| > 3 || |colonParts| == 0 {
      return Err("Invalid network binding too many colon splits");
    }
    TextOfRead(text);
    r := ReadFields(SyntaxOf(colonParts, protocol), Reversed(colonParts), output);
  }

  // ---------------------------------------------------------------------------
  // The canonical printer
  // ---------------------------------------------------------------------------

  /** The documented long form ip:host:guest/protocol. */
  function Print(b: Binding): string {
    Syntax(Some(Dotted(b.ip)), Some(Numeral(b.hostPort)), Numeral(b.guestPort), Some(b.protocol)).Text()
  }

  lemma DottedIsDotted(ip: Ipv4)
    ensures IsDotted(Dotted(ip)) && Dotted(ip) != ""
  {
    ParseOfDotted(ip);
    assert |Split(Dotted(ip), '.')| == 4 && |Split("", '.')| == 1;
  }

  predicate NoCapitals(s: string) {
    forall c :: c in s ==> !('A' <= c <= 'Z')
  }

  lemma PrintIsLower(b: Binding)
    requires b.Valid()
    ensures Lower(Print(b)) == Print(b)
  {
    DottedHasNoColon(b.ip);
    var ip, host, guest := Dotted(b.ip), Numeral(b.hostPort), Numeral(b.guestPort);
    assert NoCapitals(ip) && NoCapitals(host) && NoCapitals(guest) && NoCapitals(b.protocol);
    assert NoCapitals(Print(b));
    forall i | 0 <= i < |Print(b)| ensures LowerChar(Print(b)[i]) == Print(b)[i] {
      assert Print(b)[i] in Print(b);
    }
  }

  /** A field of the printed form: written out, left empty before its colon, or left out. */
  datatype Field = Written | Empty | Omitted {
    function Before(s: string): string {
      match this
      case Written => s + ":"
      case Empty => ":"
      case Omitted => ""
    }

    function Syntax(s: string): Option<string> {
      match this
      case Written => Some(s)
      case Empty => Some("")
      case Omitted => None
    }
  }

  /** The binding with fewer fields: interface:port:guest/protocol, the interface only before a port. */
  function Short(b: Binding, ip: Field, host: Field, withProtocol: bool): string {
    var address := ip.Before(Dotted(b.ip)) + host.Before(Numeral(b.hostPort)) + Numeral(b.guestPort);
    if withProtocol then address + "/" + b.protocol else address
  }

  /** Every short form is read with the interface 0.0.0.0, the host port 0 or the protocol tcp for what
      it does not say. */
  lemma ShortForms(b: Binding, ip: Field, host: Field, withProtocol: bool, b': Binding)
    requires b.Valid() && (ip.Omitted? || !host.Omitted?)
    ensures Denotes(Short(b, ip, host, withProtocol), b') <==>
      b' == Binding(if ip.Written? then b.ip else [0, 0, 0, 0], if host.Written? then b.hostPort else 0,
                    b.guestPort, if withProtocol then b.protocol else "tcp")
  {
    var short, sx := Short(b, ip, host, withProtocol), ShortSyntax(b, ip, host, withProtocol);
    ShortMeans(b, ip, host, withProtocol);
    ShortIsText(b, ip, host, withProtocol);
    assert Denotes(short, sx.Meaning());
    if Denotes(short, b') {
      DenotationUnique(short, sx.Meaning(), b');
    }
  }

  function ShortSyntax(b: Binding, ip: Field, host: Field, withProtocol: bool): Syntax {
    Syntax(ip.Syntax(Dotted(b.ip)), host.Syntax(Numeral(b.hostPort)), Numeral(b.guestPort),
           if withProtocol then Some(b.protocol) else None)
  }

  lemma ShortMeans(b: Binding, ip: Field, host: Field, withProtocol: bool)
    requires b.Valid() && (ip.Omitted? || !host.Omitted?)
    ensures var sx := ShortSyntax(b, ip, host, withProtocol);
      && sx.WellFormed()
      && sx.Meaning() == Binding(if ip.Written? then b.ip else [0, 0, 0, 0], if host.Written? then b.hostPort else 0,
                                 b.guestPort, if withProtocol then b.protocol else "tcp")
  {
    DottedIsDotted(b.ip);
    ParseOfDotted(b.ip);
  }

  lemma ShortIsText(b: Binding, ip: Field, host: Field, withProtocol: bool)
    requires ip.Omitted? || !host.Omitted?
    ensures Short(b, ip, host, withProtocol)
         == ShortSyntax(b, ip, host, withProtocol).Text()
  {
    ShortAddress(Dotted(b.ip), Numeral(b.hostPort), Numeral(b.guestPort), ip, host,
                 if withProtocol then Some(b.protocol) else None);
  }

  lemma ShortAddress(d: string, h: string, n: string, ip: Field, host: Field, protocol: Option<string>)
    requires ip.Omitted? || !host.Omitted?
    ensures ip.Before(d) + host.Before(h) + n == Syntax(ip.Syntax(d), host.Syntax(h), n, protocol).Address()
  {
    FieldBefore(host, h, n);
    Regroup(ip.Before(d), host.Before(h), n);
    FieldBefore(ip, d, host.Before(h) + n);
  }

  lemma Regroup(a: string, b: string, c: string)
    ensures a + b + c == a + (b + c)
  {
  }

  lemma FieldBefore(f: Field, s: string, rest: string)
    ensures f.Before(s) + rest == if f.Syntax(s).Some? then f.Syntax(s).value + [':'] + rest else rest
  {
    assert "" + [':'] == ":" && "" + rest == rest;
  }

  /** A valid binding, printed and read again in any way the grammar allows, is itself. */
  lemma RoundTrip(b: Binding, b': Binding)
    requires b.Valid()
    ensures Denotes(Lower(Print(b)), b') <==> b' == b
  {
    var sx := Syntax(Some(Dotted(b.ip)), Some(Numeral(b.hostPort)), Numeral(b.guestPort), Some(b.protocol));
    DottedIsDotted(b.ip);
    ParseOfDotted(b.ip);
    assert sx.WellFormed() && sx.Meaning() == b;
    assert Denotes(Print(b), b);
    PrintIsLower(b);
    if Denotes(Print(b), b') {
      DenotationUnique(Print(b), b, b');
    }
  }

  /** The same letter, in whatever case. */
  predicate SameLetter(c: char, d: char) {
    c == d || ('a' <= c <= 'z' && c as int - d as int == 32) || ('a' <= d <= 'z' && d as int - c as int == 32)
  }

  /** And so is a valid binding printed in capitals, or in letters of any case. */
  lemma RoundTripAnyCase(b: Binding, s: string, b': Binding)
    requires b.Valid() && |s| == |Print(b)| && forall i :: 0 <= i < |s| ==> SameLetter(s[i], Print(b)[i])
    ensures Denotes(Lower(s), b') <==> b' == b
  {
    assert Lower(s) == Lower(Print(b));
    RoundTrip(b, b');
  }

  /** Parse, print, parse again: every accepted input, however abbreviated or capitalised,
      has the same denotation as its canonical form. */
  lemma CanonicalForm(input: string, b: Binding, b': Binding)
    requires Denotes(Lower(input), b)
    ensures Denotes(Lower(Print(b)), b') <==> Denotes(Lower(input), b')
  {
    DenotationUnique(Lower(input), b, b);
    RoundTrip(b, b');
    if Denotes(Lower(input), b') {
      DenotationUnique(Lower(input), b, b');
    }
  }
}
