/** What iptables does to a packet, as far as the rules of port mappings go: the options of a rule are
    tests, read from left to right, and its target is what happens to a packet that passes them all. */
module Packets {
  import opened Text
  import opened Wrappers

  /** A packet at a hook of the kernel; addresses as dotted text. */
  datatype Packet = Packet(protocol: string, inInterface: string, src: string, dst: string, dport: nat)

  datatype Verdict = Accept | Dnat(ip: string, port: nat)

  /** What the host knows: its own addresses, the addresses of a network, and the interfaces that a
      name stands for. */
  datatype Net = Net(local: string -> bool, within: (string, string) -> bool, named: (string, string) -> bool)

  function Port(s: string): Option<nat> {
    if s != "" && AllDigits(s) then Some(Value(s)) else None
  }

  /** An address and a port, on both sides of a colon. */
  function Endpoint(s: string): Option<Verdict> {
    var parts := Split(s, ':');
    if |parts| == 2 && Port(parts[1]).Some? then Some(Dnat(parts[0], Port(parts[1]).value)) else None
  }

  /** What becomes of the packet, if the rule matches it. */
  function VerdictOf(net: Net, spec: seq<string>, k: Packet): Option<Verdict> {
    if |spec| < 2 then None
    else if spec[0] == "-j" then
      if spec[1..] == ["ACCEPT"] then Some(Accept)
      else if |spec| == 4 && spec[1] == "DNAT" && spec[2] == "--to-destination" then Endpoint(spec[3])
      else None
    else if spec[0] == "-m" then
      if |spec| >= 4 && spec[1..4] == ["addrtype", "--dst-type", "LOCAL"] && net.local(k.dst)
      then VerdictOf(net, spec[4..], k) else None
    else if spec[0] == "!" then
      if |spec| >= 3 && spec[1] == "-s" && !net.within(k.src, spec[2]) then VerdictOf(net, spec[3..], k) else None
    else if Passes(net, spec[0], spec[1], k) then VerdictOf(net, spec[2..], k)
    else None
  }

  /** A test of one argument. */
  predicate Passes(net: Net, option: string, x: string, k: Packet) {
    || (option == "-p" && k.protocol == x)
    || (option == "-d" && k.dst == x)
    || (option == "-i" && net.named(x, k.inInterface))
    || (option == "--dport" && Port(x) == Some(k.dport))
  }

  lemma TestFirst(net: Net, option: string, x: string, rest: seq<string>, k: Packet)
    requires option in {"-p", "-d", "-i", "--dport"}
    ensures VerdictOf(net, [option, x] + rest, k) == if Passes(net, option, x, k) then VerdictOf(net, rest, k) else None
  {
    assert ([option, x] + rest)[2..] == rest;
  }

  lemma LocalFirst(net: Net, rest: seq<string>, k: Packet)
    ensures VerdictOf(net, ["-m", "addrtype", "--dst-type", "LOCAL"] + rest, k)
         == if net.local(k.dst) then VerdictOf(net, rest, k) else None
  {
    var spec := ["-m", "addrtype", "--dst-type", "LOCAL"] + rest;
    assert spec[4..] == rest && spec[1..4] == ["addrtype", "--dst-type", "LOCAL"];
  }

  lemma SourceFirst(net: Net, x: string, rest: seq<string>, k: Packet)
    ensures VerdictOf(net, ["!", "-s", x] + rest, k) == if !net.within(k.src, x) then VerdictOf(net, rest, k) else None
  {
    assert (["!", "-s", x] + rest)[3..] == rest;
  }

  /** A rule that redirects says where to in its last word. */
  lemma {:induction false} RedirectIsLast(net: Net, spec: seq<string>, k: Packet)
    requires VerdictOf(net, spec, k).Some? && VerdictOf(net, spec, k).value.Dnat?
    ensures |spec| > 0 && Endpoint(spec[|spec| - 1]) == VerdictOf(net, spec, k)
    decreases |spec|
  {
    if spec[0] == "-m" {
      RedirectIsLast(net, spec[4..], k);
    } else if spec[0] == "!" {
      RedirectIsLast(net, spec[3..], k);
    } else if spec[0] != "-j" {
      RedirectIsLast(net, spec[2..], k);
    }
  }
}
