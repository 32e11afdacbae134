/** Port forwarding rules (AddPortMapping and RemovePortMapping of internal/network/nat.go):
    argument lists for iptables, what they do to the rule tables, and partial rollback. */
module IpTables {
  import opened Packets
  import opened Text
  import opened Wrappers

  const SUBNET := "10.200.0.0/16"

  datatype PortMapping = PortMapping(hostInterface: string, hostPort: int, guestPort: int, protocol: string)

  // ---------------------------------------------------------------------------
  // Commands
  // ---------------------------------------------------------------------------

  datatype Rule = Rule(table: string, chain: string, spec: seq<string>)

  type Tables = multiset<Rule>

  datatype Command = Append(rule: Rule) | Delete(rule: Rule)

  /** An iptables argument list: an optional table, an operation, a chain, and the rule. */
  function Parse(args: seq<string>): Option<Command> {
    var withTable := |args| >= 4 && args[0] == "-t";
    if !withTable && |args| < 2 then None
    else
      var table := if withTable then args[1] else "filter";
      var rest := if withTable then args[2..] else args;
      var rule := Rule(table, rest[1], rest[2..]);
      if rest[0] == "-A" then Some(Append(rule)) else if rest[0] == "-D" then Some(Delete(rule)) else None
  }

  /** The tables after a command: a successful append adds a rule, a delete removes one
      occurrence if there is one, and a failing command changes nothing. */
  function Exec(t: Tables, args: seq<string>, ok: bool): Tables {
    match Parse(args)
    case Some(Append(rule)) => if ok then t + multiset{rule} else t
    case Some(Delete(rule)) => if ok then t - multiset{rule} else t
    case None => t
  }

  // ---------------------------------------------------------------------------
  // The rules of one mapping
  // ---------------------------------------------------------------------------

  function Itoa(n: int): string {
    if n < 0 then "-" + Numeral(-n) else Numeral(n)
  }

  function Protocol(m: PortMapping): string {
    if m.protocol == "" then "tcp" else m.protocol
  }

  predicate AnyInterface(iface: string) {
    iface == "" || iface == "0.0.0.0"
  }

  /** Mappings the host itself may use, through the OUTPUT chain. */
  predicate Local(iface: string) {
    AnyInterface(iface) || iface == "127.0.0.1"
  }

  function Destination(ip: string, m: PortMapping): string {
    ip + [':'] + Itoa(m.guestPort)
  }

  function InterfaceMatch(isIp: string -> bool, iface: string): seq<string> {
    if AnyInterface(iface) then ["-m", "addrtype", "--dst-type", "LOCAL"]
    else if isIp(iface) then ["-d", iface]
    else ["-i", iface]
  }

  function DnatRule(isIp: string -> bool, m: PortMapping, ip: string): Rule {
    Rule("nat", "PREROUTING", ["-p", Protocol(m)] + InterfaceMatch(isIp, m.hostInterface)
      + ["--dport", Itoa(m.hostPort), "-j", "DNAT", "--to-destination", Destination(ip, m)])
  }

  function OutputRule(m: PortMapping, ip: string): Rule {
    Rule("nat", "OUTPUT", ["-p", Protocol(m), "-m", "addrtype", "--dst-type", "LOCAL",
      "--dport", Itoa(m.hostPort), "-j", "DNAT", "--to-destination", Destination(ip, m)])
  }

  function ForwardRule(m: PortMapping, ip: string): Rule {
    Rule("filter", "FORWARD", ["-p", Protocol(m), "!", "-s", SUBNET, "-d", ip,
      "--dport", Itoa(m.guestPort), "-j", "ACCEPT"])
  }

  function Added(rule: Rule, yes: bool): Tables {
    if yes then multiset{rule} else multiset{}
  }

  /** The rules a mapping needs: traffic in, and permission to forward it. */
  function Needed(isIp: string -> bool, m: PortMapping, ip: string): Tables {
    multiset{DnatRule(isIp, m, ip)} + multiset{ForwardRule(m, ip)}
  }

  /** The rules a mapping may have: those, and the OUTPUT rule of a local one. */
  function RuleSet(isIp: string -> bool, m: PortMapping, ip: string): Tables {
    Needed(isIp, m, ip) + Added(OutputRule(m, ip), Local(m.hostInterface))
  }

  /** What iptables answers to the three appends of a mapping. */
  datatype Outcome = Outcome(dnat: bool, output: bool, forward: bool)

  /** The rules a successful AddPortMapping adds. */
  function Installed(isIp: string -> bool, m: PortMapping, ip: string, oc: Outcome): Tables {
    Needed(isIp, m, ip) + Added(OutputRule(m, ip), Local(m.hostInterface) && oc.output)
  }

  /** The tables a failed AddPortMapping leaves. */
  function AfterRollback(t: Tables, m: PortMapping, ip: string, oc: Outcome): Tables {
    if !oc.dnat || (Local(m.hostInterface) && oc.output) then t else t - multiset{OutputRule(m, ip)}
  }

  /** The rules of a mapping for a guest. */
  type RuleFn = (PortMapping, string) -> Tables

  // ---------------------------------------------------------------------------
  // The host
  // ---------------------------------------------------------------------------

  class Host {
    var rules: Tables
    /** UIDs that own a running Firecracker process. */
    var processes: set<int>
    /** Whether net.ParseIP accepts a string. */
    const isIp: string -> bool
    /** The rules a mapping may have and those it needs, as values. */
    ghost const all: RuleFn
    ghost const needed: RuleFn

    ghost predicate Valid() {
      && (forall m, ip {:trigger RuleSet(isIp, m, ip)} :: all(m, ip) == RuleSet(isIp, m, ip))
      && (forall m, ip {:trigger Needed(isIp, m, ip)} :: needed(m, ip) == Needed(isIp, m, ip))
    }

    constructor (isIp: string -> bool, rules: Tables)
      ensures Valid() && this.isIp == isIp && this.rules == rules && processes == {}
    {
      this.isIp := isIp;
      this.rules := rules;
      processes := {};
      all := (m, ip) => RuleSet(isIp, m, ip);
      needed := (m, ip) => Needed(isIp, m, ip);
    }

    method RunCmd(args: seq<string>, ok: bool)
      modifies this`rules
      ensures rules == Exec(old(rules), args, ok)
    {
      rules := Exec(rules, args, ok);
    }

    /** RunCmd on an argument list that spells op and rule. */
    method RunRule(args: seq<string>, ghost op: string, ghost rule: Rule, ok: bool)
      requires op in {"-A", "-D"} && rule.table in {"nat", "filter"} && args == Args(op, rule)
      modifies this`rules
      ensures rules == if !ok then old(rules)
                       else if op == "-A" then old(rules) + multiset{rule} else old(rules) - multiset{rule}
    {
      ParseArgs(op, rule);
      RunCmd(args, ok);
    }

    method DnatArgs(op: string, m: PortMapping, ip: string) returns (args: seq<string>)
      ensures args == Args(op, DnatRule(isIp, m, ip))
    {
      args := ["-t", "nat", op, "PREROUTING"] + ["-p", Protocol(m)];
      if m.hostInterface != "" && m.hostInterface != "0.0.0.0" {
        if isIp(m.hostInterface) {
          args := args + ["-d", m.hostInterface];
        } else {
          args := args + ["-i", m.hostInterface];
        }
      } else {
        args := args + ["-m", "addrtype", "--dst-type", "LOCAL"];
      }
      assert args == ["-t", "nat", op, "PREROUTING"] + ["-p", Protocol(m)] + InterfaceMatch(isIp, m.hostInterface);
      ghost var target := ["--dport", Itoa(m.hostPort), "-j", "DNAT", "--to-destination", Destination(ip, m)];
      Regroup(["-t", "nat", op, "PREROUTING"], ["-p", Protocol(m)], InterfaceMatch(isIp, m.hostInterface), target);
      args := args + ["--dport", Itoa(m.hostPort), "-j", "DNAT", "--to-destination", Destination(ip, m)];
    }

    method OutputArgs(op: string, m: PortMapping, ip: string) returns (args: seq<string>)
      ensures args == Args(op, OutputRule(m, ip))
    {
      args := ["-t", "nat", op, "OUTPUT"] + ["-p", Protocol(m), "-m", "addrtype", "--dst-type", "LOCAL",
        "--dport", Itoa(m.hostPort), "-j", "DNAT", "--to-destination", Destination(ip, m)];
    }

    method ForwardArgs(op: string, m: PortMapping, ip: string) returns (args: seq<string>)
      ensures args == Args(op, ForwardRule(m, ip))
    {
      args := [op, "FORWARD"] + ["-p", Protocol(m), "!", "-s", SUBNET, "-d", ip,
        "--dport", Itoa(m.guestPort), "-j", "ACCEPT"];
    }

    /** Delete what the two argument lists append, by overwriting their operation. */
    method Rollback(dnatArgs: seq<string>, outputArgs: seq<string>, ghost dnat: Rule, ghost output: Rule)
      requires dnat.table == output.table == "nat"
      requires dnatArgs == Args("-A", dnat) && outputArgs == Args("-A", output)
      modifies this`rules
      ensures rules == old(rules) - multiset{dnat} - multiset{output}
    {
      OverwriteOperation(dnat);
      RunRule(dnatArgs[2 := "-D"], "-D", dnat, true);
      OverwriteOperation(output);
      RunRule(outputArgs[2 := "-D"], "-D", output, true);
    }

    /** The three appends in order, then the rollback if the last one fails; it deletes the OUTPUT
        rule whether or not it was added. */
    method Install(dnatArgs: seq<string>, outputArgs: seq<string>, fwdArgs: seq<string>, local: bool, oc: Outcome,
        ghost dnat: Rule, ghost output: Rule, ghost forward: Rule) returns (ok: bool)
      requires dnat.table == output.table == "nat" && forward.table == "filter"
      requires dnatArgs == Args("-A", dnat) && outputArgs == Args("-A", output) && fwdArgs == Args("-A", forward)
      modifies this`rules
      ensures ok <==> oc.dnat && oc.forward
      ensures rules == if ok then old(rules) + multiset{dnat} + Added(output, local && oc.output) + multiset{forward}
                       else if !oc.dnat || (local && oc.output) then old(rules)
                       else old(rules) - multiset{output}
    {
      RunRule(dnatArgs, "-A", dnat, oc.dnat);
      if !oc.dnat {
        return false;
      }
      if local {
        RunRule(outputArgs, "-A", output, oc.output);
      }
      assert rules == old(rules) + multiset{dnat} + Added(output, local && oc.output);
      RunRule(fwdArgs, "-A", forward, oc.forward);
      if !oc.forward {
        Rollback(dnatArgs, outputArgs, dnat, output);
        AddThenDelete(old(rules), dnat, output, local && oc.output);
        return false;
      }
      return true;
    }

    /** Success installs the needed rules and, for a local mapping, the OUTPUT rule if iptables
        took it. Failure leaves the tables as they were, except that the rollback deletes an
        OUTPUT rule whether or not this call had added it. */
    method AddPortMapping(m: PortMapping, ip: string, oc: Outcome) returns (ok: bool)
      modifies this`rules
      ensures ok <==> oc.dnat && oc.forward
      ensures rules == if ok then old(rules) + Installed(isIp, m, ip, oc) else AfterRollback(old(rules), m, ip, oc)
      ensures ok && Free(ip, ':') ==> Forwards(isIp, m, ip, oc.output, old(rules), rules)
    {
      ghost var dnat, output, forward := DnatRule(isIp, m, ip), OutputRule(m, ip), ForwardRule(m, ip);
      var local := Local(m.hostInterface);
      var dnatArgs := DnatArgs("-A", m, ip);
      var outputArgs := OutputArgs("-A", m, ip);
      var fwdArgs := ForwardArgs("-A", m, ip);
      ok := Install(dnatArgs, outputArgs, fwdArgs, local, oc, dnat, output, forward);
      AddThree(old(rules), dnat, output, forward, local && oc.output);
      if ok && Free(ip, ':') {
        InstalledForwards(isIp, m, ip, oc, old(rules));
      }
    }

    /** AddPortMapping, said without naming the rules. */
    method TryMapping(m: PortMapping, ip: string, oc: Outcome) returns (ok: bool)
      requires Valid()
      modifies this`rules
      ensures ok <==> oc.dnat && oc.forward
      ensures ok ==> old(rules) + needed(m, ip) <= rules <= old(rules) + all(m, ip)
      ensures !ok ==> rules == old(rules) || rules == old(rules) - multiset{OutputRule(m, ip)}
    {
      ok := AddPortMapping(m, ip, oc);
      InstalledBounds(isIp, m, ip, oc);
    }

    /** RemovePortMapping, said without naming the rules. */
    method DropMapping(m: PortMapping, ip: string)
      requires Valid()
      modifies this`rules
      ensures rules == old(rules) - all(m, ip)
    {
      RemovePortMapping(m, ip);
    }

    /** Deletes one occurrence of every rule the mapping may have. */
    method RemovePortMapping(m: PortMapping, ip: string)
      modifies this`rules
      ensures rules == old(rules) - RuleSet(isIp, m, ip)
    {
      ghost var dnat, output, forward := DnatRule(isIp, m, ip), OutputRule(m, ip), ForwardRule(m, ip);
      var dnatArgs := DnatArgs("-D", m, ip);
      RunRule(dnatArgs, "-D", dnat, true);
      if Local(m.hostInterface) {
        var outputArgs := OutputArgs("-D", m, ip);
        RunRule(outputArgs, "-D", output, true);
      }
      var fwdArgs := ForwardArgs("-D", m, ip);
      RunRule(fwdArgs, "-D", forward, true);
      DeleteThree(old(rules), dnat, output, forward, Local(m.hostInterface));
    }
  }

  /** The argument list of an operation on a rule. */
  function Args(op: string, rule: Rule): seq<string> {
    if rule.table == "nat" then ["-t", "nat", op, rule.chain] + rule.spec else [op, rule.chain] + rule.spec
  }

  lemma Regroup(head: seq<string>, a: seq<string>, b: seq<string>, c: seq<string>)
    ensures head + a + b + c == head + (a + b + c)
  {
  }

  lemma InstalledBounds(isIp: string -> bool, m: PortMapping, ip: string, oc: Outcome)
    ensures Needed(isIp, m, ip) <= Installed(isIp, m, ip, oc) <= RuleSet(isIp, m, ip)
  {
  }

  /** Index 2 of a NAT argument list is its operation. */
  lemma OverwriteOperation(rule: Rule)
    requires rule.table == "nat"
    ensures |Args("-A", rule)| > 2 && Args("-A", rule)[2 := "-D"] == Args("-D", rule)
  {
  }

  lemma ParseArgs(op: string, rule: Rule)
    requires op in {"-A", "-D"} && rule.table in {"nat", "filter"}
    ensures Parse(Args(op, rule)) == Some(if op == "-A" then Append(rule) else Delete(rule))
  {
    if rule.table == "nat" {
      ParseTable(op, rule);
    } else {
      ParseFilter(op, rule);
    }
  }

  lemma ParseTable(op: string, rule: Rule)
    requires op in {"-A", "-D"} && rule.table == "nat"
    ensures Parse(["-t", "nat", op, rule.chain] + rule.spec) == Some(if op == "-A" then Append(rule) else Delete(rule))
  {
    var args := ["-t", "nat", op, rule.chain] + rule.spec;
    assert args[2..][2..] == rule.spec;
  }

  lemma ParseFilter(op: string, rule: Rule)
    requires op in {"-A", "-D"} && rule.table == "filter"
    ensures Parse([op, rule.chain] + rule.spec) == Some(if op == "-A" then Append(rule) else Delete(rule))
  {
    var args := [op, rule.chain] + rule.spec;
    assert args[0] != "-t" && args[2..] == rule.spec;
  }

  lemma AddThenDelete(t: Tables, a: Rule, b: Rule, withB: bool)
    ensures t + multiset{a} + Added(b, withB) - multiset{a} - multiset{b}
         == if withB then t else t - multiset{b}
  {
  }

  lemma AddThree(t: Tables, a: Rule, b: Rule, c: Rule, withB: bool)
    ensures t + multiset{a} + Added(b, withB) + multiset{c}
         == t + (multiset{a} + multiset{c} + Added(b, withB))
  {
  }

  lemma DeleteThree(t: Tables, a: Rule, b: Rule, c: Rule, withB: bool)
    ensures t - multiset{a} - Added(b, withB) - multiset{c}
         == t - (multiset{a} + multiset{c} + Added(b, withB))
  {
  }

  /** Exactly when a failed AddPortMapping leaves the tables as it found them: the DNAT rule was
      refused, or the OUTPUT rule it deletes is one it added, or there is no such rule. */
  lemma FailureIsClean(t: Tables, m: PortMapping, ip: string, oc: Outcome)
    requires !(oc.dnat && oc.forward)
    ensures AfterRollback(t, m, ip, oc) == t <==>
      !oc.dnat || (Local(m.hostInterface) && oc.output) || OutputRule(m, ip) !in t
  {
    var o := OutputRule(m, ip);
    if o in t {
      assert (t - multiset{o})[o] == t[o] - 1;
    }
  }

  /** It comes to that when a VM maps one port twice, first on every interface and then on a named
      one: if the second mapping's FORWARD rule is refused, the first has lost its OUTPUT rule. */
  lemma FailureLosesRule(t: Tables, isIp: string -> bool, m: PortMapping, iface: string, ip: string)
    requires AnyInterface(m.hostInterface) && !Local(iface)
    ensures var first := t + Installed(isIp, m, ip, Outcome(true, true, true));
      AfterRollback(first, m.(hostInterface := iface), ip, Outcome(true, true, false))
        == t + Installed(isIp, m, ip, Outcome(true, false, true))
  {
    var first := t + Installed(isIp, m, ip, Outcome(true, true, true));
    assert OutputRule(m.(hostInterface := iface), ip) == OutputRule(m, ip);
    assert first == t + Installed(isIp, m, ip, Outcome(true, false, true)) + multiset{OutputRule(m, ip)};
  }

  // ---------------------------------------------------------------------------
  // What the rules do to packets
  // ---------------------------------------------------------------------------

  /** What the rules of a chain that match the packet say. */
  ghost function Verdicts(t: Tables, table: string, chain: string, net: Net, k: Packet): set<Verdict> {
    set r | r in t && r.table == table && r.chain == chain && VerdictOf(net, r.spec, k).Some?
      :: VerdictOf(net, r.spec, k).value
  }

  /** Of the mapping's protocol, tcp if it names none, and to its host port. */
  predicate ToHostPort(m: PortMapping, k: Packet) {
    k.protocol == (if m.protocol == "" then "tcp" else m.protocol) && k.dport == m.hostPort
  }

  /** And arriving where the mapping listens: on any address of the host, on the address that it
      names, or on the interface that it names. */
  predicate Arrives(isIp: string -> bool, net: Net, m: PortMapping, k: Packet) {
    && ToHostPort(m, k)
    && if m.hostInterface == "" || m.hostInterface == "0.0.0.0" then net.local(k.dst)
       else if isIp(m.hostInterface) then k.dst == m.hostInterface
       else net.named(m.hostInterface, k.inInterface)
  }

  /** From outside the guests' subnet, to the guest at its port. */
  predicate ToGuest(net: Net, m: PortMapping, ip: string, k: Packet) {
    && k.protocol == (if m.protocol == "" then "tcp" else m.protocol)
    && k.dst == ip && k.dport == m.guestPort && !net.within(k.src, "10.200.0.0/16")
  }

  /** To the guest, if the packet is one that the mapping wants and the guest port is one. */
  function Redirect(wanted: bool, m: PortMapping, ip: string): set<Verdict> {
    if wanted && m.guestPort >= 0 then {Dnat(ip, m.guestPort)} else {}
  }

  /** From tables t to tables t' the mapping has come into force, and no other packet is treated otherwise:
      packets that arrive for it are redirected to the guest, so are the host's own to any of its
      addresses if the mapping is local and its OUTPUT rule was taken, and the guest admits them. */
  ghost predicate Forwards(isIp: string -> bool, m: PortMapping, ip: string, output: bool, t: Tables, t': Tables) {
    forall net, k :: ForwardsOne(isIp, m, ip, output, t, t', net, k)
  }

  ghost predicate ForwardsOne(isIp: string -> bool, m: PortMapping, ip: string, output: bool, t: Tables, t': Tables,
      net: Net, k: Packet)
  {
    && Verdicts(t', "nat", "PREROUTING", net, k)
       == Verdicts(t, "nat", "PREROUTING", net, k) + Redirect(Arrives(isIp, net, m, k), m, ip)
    && Verdicts(t', "nat", "OUTPUT", net, k)
       == Verdicts(t, "nat", "OUTPUT", net, k)
          + Redirect(output && m.hostInterface in {"", "0.0.0.0", "127.0.0.1"}
                     && ToHostPort(m, k) && net.local(k.dst), m, ip)
    && Verdicts(t', "filter", "FORWARD", net, k)
       == Verdicts(t, "filter", "FORWARD", net, k) + if ToGuest(net, m, ip, k) then {Accept} else {}
  }

  lemma ItoaIsPort(n: int)
    ensures Port(Itoa(n)) == if n >= 0 then Some(n) else None
  {
    if n < 0 {
      assert !IsDigit(Itoa(n)[0]);
    }
  }

  lemma EndpointOf(ip: string, m: PortMapping)
    requires Free(ip, ':')
    ensures Endpoint(Destination(ip, m)) == if m.guestPort >= 0 then Some(Dnat(ip, m.guestPort)) else None
  {
    SplitTwo(ip, Itoa(m.guestPort), ':');
    ItoaIsPort(m.guestPort);
  }

  /** The common end of the two NAT rules. */
  lemma RedirectEnd(net: Net, m: PortMapping, ip: string, k: Packet)
    requires Free(ip, ':')
    ensures VerdictOf(net, ["--dport", Itoa(m.hostPort), "-j", "DNAT", "--to-destination", Destination(ip, m)], k)
         == if k.dport == m.hostPort && m.guestPort >= 0 then Some(Dnat(ip, m.guestPort)) else None
  {
    var target := ["-j", "DNAT", "--to-destination", Destination(ip, m)];
    TestFirst(net, "--dport", Itoa(m.hostPort), target, k);
    ItoaIsPort(m.hostPort);
    EndpointOf(ip, m);
    assert ["--dport", Itoa(m.hostPort)] + target
        == ["--dport", Itoa(m.hostPort), "-j", "DNAT", "--to-destination", Destination(ip, m)];
  }

  lemma DnatVerdict(isIp: string -> bool, net: Net, m: PortMapping, ip: string, k: Packet)
    requires Free(ip, ':')
    ensures VerdictOf(net, DnatRule(isIp, m, ip).spec, k)
         == if Arrives(isIp, net, m, k) && m.guestPort >= 0 then Some(Dnat(ip, m.guestPort)) else None
  {
    var end := ["--dport", Itoa(m.hostPort), "-j", "DNAT", "--to-destination", Destination(ip, m)];
    var iface := InterfaceMatch(isIp, m.hostInterface);
    assert DnatRule(isIp, m, ip).spec == ["-p", Protocol(m)] + (iface + end);
    TestFirst(net, "-p", Protocol(m), iface + end, k);
    RedirectEnd(net, m, ip, k);
    if AnyInterface(m.hostInterface) {
      LocalFirst(net, end, k);
    } else {
      TestFirst(net, iface[0], m.hostInterface, end, k);
    }
  }

  lemma OutputVerdict(net: Net, m: PortMapping, ip: string, k: Packet)
    requires Free(ip, ':')
    ensures VerdictOf(net, OutputRule(m, ip).spec, k)
         == if ToHostPort(m, k) && net.local(k.dst) && m.guestPort >= 0 then Some(Dnat(ip, m.guestPort)) else None
  {
    var end := ["--dport", Itoa(m.hostPort), "-j", "DNAT", "--to-destination", Destination(ip, m)];
    var local := ["-m", "addrtype", "--dst-type", "LOCAL"];
    assert OutputRule(m, ip).spec == ["-p", Protocol(m)] + (local + end);
    TestFirst(net, "-p", Protocol(m), local + end, k);
    LocalFirst(net, end, k);
    RedirectEnd(net, m, ip, k);
  }

  lemma ForwardVerdict(net: Net, m: PortMapping, ip: string, k: Packet)
    ensures VerdictOf(net, ForwardRule(m, ip).spec, k) == if ToGuest(net, m, ip, k) then Some(Accept) else None
  {
    var port := ["--dport", Itoa(m.guestPort)] + ["-j", "ACCEPT"];
    var dst := ["-d", ip] + port;
    var src := ["!", "-s", SUBNET] + dst;
    assert ForwardRule(m, ip).spec == ["-p", Protocol(m)] + src;
    TestFirst(net, "-p", Protocol(m), src, k);
    SourceFirst(net, SUBNET, dst, k);
    TestFirst(net, "-d", ip, port, k);
    TestFirst(net, "--dport", Itoa(m.guestPort), ["-j", "ACCEPT"], k);
    ItoaIsPort(m.guestPort);
  }

  function Said(r: Rule, table: string, chain: string, net: Net, k: Packet): set<Verdict> {
    if r.table == table && r.chain == chain && VerdictOf(net, r.spec, k).Some?
    then {VerdictOf(net, r.spec, k).value} else {}
  }

  lemma VerdictsAdd(t: Tables, r: Rule, table: string, chain: string, net: Net, k: Packet)
    ensures Verdicts(t + multiset{r}, table, chain, net, k)
         == Verdicts(t, table, chain, net, k) + Said(r, table, chain, net, k)
  {
    assert forall q :: q in t + multiset{r} <==> q in t || q == r;
  }

  lemma InstalledVerdicts(isIp: string -> bool, m: PortMapping, ip: string, oc: Outcome, t: Tables,
      table: string, chain: string, net: Net, k: Packet)
    ensures Verdicts(t + Installed(isIp, m, ip, oc), table, chain, net, k)
         == Verdicts(t, table, chain, net, k) + Said(DnatRule(isIp, m, ip), table, chain, net, k)
            + Said(ForwardRule(m, ip), table, chain, net, k)
            + if Local(m.hostInterface) && oc.output then Said(OutputRule(m, ip), table, chain, net, k) else {}
  {
    var dnat, output, forward := DnatRule(isIp, m, ip), OutputRule(m, ip), ForwardRule(m, ip);
    var two := t + multiset{dnat} + multiset{forward};
    VerdictsAdd(t, dnat, table, chain, net, k);
    VerdictsAdd(t + multiset{dnat}, forward, table, chain, net, k);
    VerdictsAdd(two, output, table, chain, net, k);
    assert t + Installed(isIp, m, ip, oc)
        == if Local(m.hostInterface) && oc.output then two + multiset{output} else two;
  }

  /** A successful AddPortMapping forwards exactly the packets for its host port. */
  lemma InstalledForwards(isIp: string -> bool, m: PortMapping, ip: string, oc: Outcome, t: Tables)
    requires Free(ip, ':')
    ensures Forwards(isIp, m, ip, oc.output, t, t + Installed(isIp, m, ip, oc))
  {
    forall net, k
      ensures ForwardsOne(isIp, m, ip, oc.output, t, t + Installed(isIp, m, ip, oc), net, k)
    {
      InstalledInPrerouting(isIp, m, ip, oc, t, net, k);
      InstalledInOutput(isIp, m, ip, oc, t, net, k);
      InstalledInForward(isIp, m, ip, oc, t, net, k);
    }
  }

  lemma InstalledInPrerouting(isIp: string -> bool, m: PortMapping, ip: string, oc: Outcome, t: Tables,
      net: Net, k: Packet)
    requires Free(ip, ':')
    ensures Verdicts(t + Installed(isIp, m, ip, oc), "nat", "PREROUTING", net, k)
         == Verdicts(t, "nat", "PREROUTING", net, k) + Redirect(Arrives(isIp, net, m, k), m, ip)
  {
    InstalledVerdicts(isIp, m, ip, oc, t, "nat", "PREROUTING", net, k);
    DnatVerdict(isIp, net, m, ip, k);
  }

  lemma InstalledInOutput(isIp: string -> bool, m: PortMapping, ip: string, oc: Outcome, t: Tables,
      net: Net, k: Packet)
    requires Free(ip, ':')
    ensures Verdicts(t + Installed(isIp, m, ip, oc), "nat", "OUTPUT", net, k)
         == Verdicts(t, "nat", "OUTPUT", net, k)
            + Redirect(oc.output && m.hostInterface in {"", "0.0.0.0", "127.0.0.1"}
                       && ToHostPort(m, k) && net.local(k.dst), m, ip)
  {
    InstalledVerdicts(isIp, m, ip, oc, t, "nat", "OUTPUT", net, k);
    OutputVerdict(net, m, ip, k);
  }

  lemma InstalledInForward(isIp: string -> bool, m: PortMapping, ip: string, oc: Outcome, t: Tables,
      net: Net, k: Packet)
    ensures Verdicts(t + Installed(isIp, m, ip, oc), "filter", "FORWARD", net, k)
         == Verdicts(t, "filter", "FORWARD", net, k) + if ToGuest(net, m, ip, k) then {Accept} else {}
  {
    InstalledVerdicts(isIp, m, ip, oc, t, "filter", "FORWARD", net, k);
    ForwardVerdict(net, m, ip, k);
  }

  // ---------------------------------------------------------------------------
  // Which guest a rule is for
  // ---------------------------------------------------------------------------

  /** The guest address a rule sends or admits traffic to. */
  function Target(rule: Rule): Option<string> {
    if rule.table == "nat" && |rule.spec| > 0 then Some(Split(rule.spec[|rule.spec| - 1], ':')[0])
    else if rule.table == "filter" && |rule.spec| > 6 then Some(rule.spec[6])
    else None
  }

  /** A rule that redirects packets to an address is for the guest there. */
  lemma RedirectTarget(net: Net, rule: Rule, k: Packet)
    requires rule.table == "nat" && VerdictOf(net, rule.spec, k).Some? && VerdictOf(net, rule.spec, k).value.Dnat?
    ensures Target(rule) == Some(VerdictOf(net, rule.spec, k).value.ip)
  {
    RedirectIsLast(net, rule.spec, k);
  }

  lemma DestinationTarget(ip: string, m: PortMapping)
    requires Free(ip, ':')
    ensures Split(Destination(ip, m), ':')[0] == ip
  {
    SplitTwo(ip, Itoa(m.guestPort), ':');
  }

  /** Every rule installed or deleted for a mapping is for that guest, so the rules of two guests
      are never the same rule. */
  lemma RulesTarget(isIp: string -> bool, m: PortMapping, ip: string)
    requires Free(ip, ':')
    ensures Target(OutputRule(m, ip)) == Some(ip)
    ensures forall r :: r in RuleSet(isIp, m, ip) ==> Target(r) == Some(ip)
  {
    DestinationTarget(ip, m);
    assert Target(DnatRule(isIp, m, ip)) == Some(ip);
  }
}
