// The firewall compiler: Firewall objects become nft rules that one loop
// appends to many chains (src/dros/plugins/network_firewall.py:69-380).
module Firewall {
  import opened Wrappers
  import opened Ordering

  // ----------------------------------------------------------------- packets

  datatype Dev = Dev(name: string, group: int)

  datatype CtState = New | Established | Related | Invalid

  // What the rules look at. oif is None before routing; origDaddr and origDport
  // are the destination the connection was opened with.
  datatype Packet = Packet(
    iif: Option<Dev>, oif: Option<Dev>, v6: bool, proto: string, icmpType: string,
    saddr: nat, daddr: nat, sport: int, dport: int,
    ct: CtState, dnat: bool, origDaddr: nat, origDport: int)

  // ------------------------------------------------------------------- rules

  datatype Match =
    | IifName(name: string)
    | IifGroup(id: int)
    | OifName(name: string)
    | OifGroup(id: int)
    | Nfproto(v6: bool)
    | L4proto(proto: string)
    | IcmpType(v6: bool, types: set<string>)
    | Sport(proto: string, ports: set<int>)
    | Dport(proto: string, ports: set<int>)
    | Saddr(v6: bool, net: string)
    | Daddr(v6: bool, net: string)
    | DaddrNot(v6: bool, net: string)
    | DaddrIs(v6: bool, addr: nat)
    | CtIn(states: set<CtState>)
    | CtDnat
    | OrigDaddr(v6: bool, net: string)
    | OrigDaddrNot(v6: bool, net: string)
    | OrigDport(ports: set<int>)

  datatype Verdict = Accept | Drop

  datatype Statement =
    | Give(verdict: Verdict)
    | Raw(text: string)
    | DnatTo(addr: nat, port: Option<int>)
    | RedirectTo(port: Option<int>)
    | SnatTo(text: string)
    | Masquerade

  // What a raw rule, or a chain, does to a packet.
  datatype Outcome = Final(verdict: Verdict) | Return | Continue

  datatype Rule = Rule(matches: seq<Match>, statement: Statement)

  datatype Chain =
    | InputPre | InputAuto | InputUser | InputPost | InputPolicy
    | OutputUser | OutputPolicy
    | ForwardPre | PortmapForward | ForwardAuto | ForwardUser | ForwardPost | ForwardPolicy
    | DnatPrerouting | DnatOutput | SnatPostrouting | MasqueradePostrouting

  // One "add rule" line of the generated file.
  datatype Line = Line(chain: Chain, rule: Rule)

  // Meaning of the texts that the compiler copies: address expressions, raw
  // rules (device groups resolved), and device group ids.
  datatype Env = Env(
    inNet: (string, nat) -> bool, raw: (string, Packet) -> Outcome, group: string -> int)

  predicate IsIcmp(p: Packet, v6: bool) {
    p.v6 == v6 && p.proto == if v6 then "icmpv6" else "icmp"
  }

  predicate Holds(env: Env, m: Match, p: Packet) {
    match m
    case IifName(name) => p.iif.Some? && p.iif.value.name == name
    case IifGroup(id) => p.iif.Some? && p.iif.value.group == id
    case OifName(name) => p.oif.Some? && p.oif.value.name == name
    case OifGroup(id) => p.oif.Some? && p.oif.value.group == id
    case Nfproto(v6) => p.v6 == v6
    case L4proto(proto) => p.proto == proto
    case IcmpType(v6, types) => IsIcmp(p, v6) && p.icmpType in types
    case Sport(proto, ports) => p.proto == proto && p.sport in ports
    case Dport(proto, ports) => p.proto == proto && p.dport in ports
    case Saddr(v6, net) => p.v6 == v6 && env.inNet(net, p.saddr)
    case Daddr(v6, net) => p.v6 == v6 && env.inNet(net, p.daddr)
    case DaddrNot(v6, net) => p.v6 == v6 && !env.inNet(net, p.daddr)
    case DaddrIs(v6, addr) => p.v6 == v6 && p.daddr == addr
    case CtIn(states) => p.ct in states
    case CtDnat => p.dnat
    case OrigDaddr(v6, net) => p.v6 == v6 && env.inNet(net, p.origDaddr)
    case OrigDaddrNot(v6, net) => p.v6 == v6 && !env.inNet(net, p.origDaddr)
    case OrigDport(ports) => p.origDport in ports
  }

  predicate AllHold(env: Env, ms: seq<Match>, p: Packet) {
    forall i :: 0 <= i < |ms| ==> Holds(env, ms[i], p)
  }

  // A NAT statement does not end a filter chain.
  function Apply(env: Env, r: Rule, p: Packet): Outcome {
    if !AllHold(env, r.matches, p) then Continue
    else
      match r.statement
      case Give(v) => Final(v)
      case Raw(text) => env.raw(text, p)
      case _ => Continue
  }

  function Then(first: Outcome, second: Outcome): Outcome {
    if first == Continue then second else first
  }

  // A chain: the first rule that does not let the packet continue decides.
  function Run(env: Env, rules: seq<Rule>, p: Packet): Outcome {
    if rules == [] then Continue else Then(Apply(env, rules[0], p), Run(env, rules[1..], p))
  }

  // The rules that a list of lines adds to a chain.
  function RulesOf(lines: seq<Line>, c: Chain): seq<Rule> {
    if lines == [] then []
    else (if lines[0].chain == c then [lines[0].rule] else []) + RulesOf(lines[1..], c)
  }

  datatype Hook = Input | Forward | Output

  // The jumps of a base chain, in order.
  function Jumps(h: Hook): seq<Chain> {
    match h
    case Input => [InputPre, InputAuto, InputUser, InputPost, InputPolicy]
    case Forward => [ForwardPre, PortmapForward, ForwardAuto, ForwardUser, ForwardPost, ForwardPolicy]
    case Output => [OutputUser, OutputPolicy]
  }

  // A base chain: a jumped-to chain that returns or runs out goes on with the
  // next jump, and the policy decides in the end.
  function EvalJumps(env: Env, d: Defaults, lines: seq<Line>, jumps: seq<Chain>, policy: Verdict, p: Packet): Verdict {
    if jumps == [] then policy
    else
      match Run(env, MainRules(d, jumps[0]) + RulesOf(lines, jumps[0]), p)
      case Final(v) => v
      case _ => EvalJumps(env, d, lines, jumps[1..], policy, p)
  }

  function EvalHook(env: Env, d: Defaults, lines: seq<Line>, h: Hook, p: Packet): Verdict {
    EvalJumps(env, d, lines, Jumps(h), Policy(d, h), p)
  }

  // ----------------------------------------------------------- configuration

  // spec.defaults with its default values filled in. allowIcmpv6 is None for
  // null, which follows allowEssentialIcmp.
  datatype Defaults = Defaults(
    inputPolicy: Verdict, forwardPolicy: Verdict, outputPolicy: Verdict,
    allowLoopback: bool, allowEstablished: bool, allowEssentialIcmp: bool, allowIcmpv6: Option<bool>)

  const NO_DEFAULTS := Defaults(Drop, Drop, Accept, true, true, true, None)

  function Policy(d: Defaults, h: Hook): Verdict {
    match h
    case Input => d.inputPolicy
    case Forward => d.forwardPolicy
    case Output => d.outputPolicy
  }

  datatype Service = IpProtocol(name: string) | Ports(proto: string, ports: set<int>)

  // Policies are raw texts.
  datatype InterfaceRule = InterfaceRule(
    subject: string, ping: Option<bool>, dhcpv6Client: bool, services: seq<Service>, inputPolicy: Option<string>,
    allowTo: seq<string>, denyPrivateNetworks: bool, forwardPolicy: Option<string>,
    outputPolicy: Option<string>, masquerade: bool)

  datatype FirewallRule = FirewallRule(hook: Hook, rule: string)

  datatype NatKind = Portmap | Ipmap | Redirect | Snat | Masq | RawKind

  datatype Family = Ip | Ip6 | Inet

  // snatTo is None for preserve-low24.
  datatype Hairpin = Hairpin(sourceNet: string, snatTo: Option<string>)

  // An ipmap may come without a protocol or ports; they are "" and {} then.
  datatype NatRule =
    | RawNat(kind: NatKind, rule: string, localOutput: bool, forwardAllow: Option<string>)
    | NatRule(
        kind: NatKind, family: Family, iif: Option<string>, oif: Option<string>,
        saddr: Option<string>, daddr: Option<string>, daddrNot: Option<string>,
        proto: string, dport: set<int>, to: nat, toPort: Option<int>, snatTo: string, localOutput: bool,
        hairpin: Option<Hairpin>)

  datatype Config = Config(
    defaults: Defaults, interfaceRules: seq<InterfaceRule>, firewallRules: seq<FirewallRule>, natRules: seq<NatRule>)

  // ----------------------------------------------------------- the main table

  const ESSENTIAL_ICMP := {"destination-unreachable", "time-exceeded", "parameter-problem"}
  const ESSENTIAL_ICMPV6 := {
    "destination-unreachable", "packet-too-big", "time-exceeded", "parameter-problem",
    "nd-neighbor-solicit", "nd-neighbor-advert"}

  function AllowIcmpv6(d: Defaults): bool {
    if d.allowIcmpv6.Some? then d.allowIcmpv6.value else d.allowEssentialIcmp
  }

  function EstablishedRules(d: Defaults): seq<Rule> {
    if d.allowEstablished then
      [Rule([CtIn({Established, Related})], Give(Accept)), Rule([CtIn({Invalid})], Give(Drop))]
    else []
  }

  // The rules that _render_main itself puts into the chains.
  function MainRules(d: Defaults, c: Chain): seq<Rule> {
    match c
    case InputPre =>
      (if d.allowLoopback then [Rule([IifName("lo")], Give(Accept))] else [])
      + EstablishedRules(d)
      + (if d.allowEssentialIcmp then [Rule([Nfproto(false), IcmpType(false, ESSENTIAL_ICMP)], Give(Accept))] else [])
      + (if AllowIcmpv6(d) then [Rule([Nfproto(true), IcmpType(true, ESSENTIAL_ICMPV6)], Give(Accept))] else [])
    case ForwardPre => EstablishedRules(d)
    case _ => []
  }

  // ------------------------------------------------------------- the compiler

  // _subject_selector
  function Selector(env: Env, value: string, ingress: bool): Match {
    if "devgroup/" <= value then
      var id := env.group(value[9..]);
      if ingress then IifGroup(id) else OifGroup(id)
    else
      var name := if "interface/" <= value then value[10..] else value;
      if ingress then IifName(name) else OifName(name)
  }

  function ServiceMatch(s: Service): Match {
    match s
    case IpProtocol(name) => L4proto(name)
    case Ports(proto, ports) => Dport(proto, ports)
  }

  const PRIVATE_NETWORKS := "{ 10.0.0.0/8, 172.16.0.0/12, 192.168.0.0/16 }"

  function PingLines(selector: Match, ping: bool): seq<Line> {
    var v := if ping then Accept else Drop;
    [ Line(InputAuto, Rule([selector, Nfproto(false), IcmpType(false, {"echo-request"})], Give(v))),
      Line(InputAuto, Rule([selector, Nfproto(true), IcmpType(true, {"echo-request"})], Give(v))) ]
  }

  function DhcpLine(selector: Match): Line {
    Line(InputAuto, Rule([selector, Sport("udp", {547}), Dport("udp", {546})], Give(Accept)))
  }

  function PrivateLine(selector: Match): Line {
    Line(ForwardAuto, Rule([selector, Daddr(false, PRIVATE_NETWORKS)], Give(Drop)))
  }

  function MasqueradeLine(outSelector: Match): Line {
    Line(MasqueradePostrouting, Rule([outSelector, Nfproto(false)], Masquerade))
  }

  function ServiceLines(selector: Match, services: seq<Service>): seq<Line> {
    if services == [] then []
    else
      ServiceLines(selector, services[..|services| - 1])
      + [Line(InputAuto, Rule([selector, ServiceMatch(services[|services| - 1])], Give(Accept)))]
  }

  function AllowToLines(env: Env, selector: Match, targets: seq<string>): seq<Line> {
    if targets == [] then []
    else
      AllowToLines(env, selector, targets[..|targets| - 1])
      + [Line(ForwardAuto, Rule([selector, Selector(env, targets[|targets| - 1], false)], Give(Accept)))]
  }

  function PolicyLine(c: Chain, selector: Match, policy: Option<string>): seq<Line> {
    if policy.Some? then [Line(c, Rule([selector], Raw(policy.value)))] else []
  }

  function InterfaceLines(env: Env, item: InterfaceRule): seq<Line> {
    var selector := Selector(env, item.subject, true);
    var outSelector := Selector(env, item.subject, false);
    (if item.ping.Some? then PingLines(selector, item.ping.value) else [])
    + (if item.dhcpv6Client then [DhcpLine(selector)] else [])
    + ServiceLines(selector, item.services)
    + PolicyLine(InputPolicy, selector, item.inputPolicy)
    + AllowToLines(env, selector, item.allowTo)
    + (if item.denyPrivateNetworks then [PrivateLine(selector)] else [])
    + PolicyLine(ForwardPolicy, selector, item.forwardPolicy)
    + PolicyLine(OutputPolicy, outSelector, item.outputPolicy)
    + (if item.masquerade then [MasqueradeLine(outSelector)] else [])
  }

  function UserChain(h: Hook): Chain {
    match h
    case Input => InputUser
    case Forward => ForwardUser
    case Output => OutputUser
  }

  function InterfacesLines(env: Env, items: seq<InterfaceRule>): seq<Line> {
    if items == [] then []
    else InterfacesLines(env, items[..|items| - 1]) + InterfaceLines(env, items[|items| - 1])
  }

  function UserLines(rules: seq<FirewallRule>): seq<Line> {
    if rules == [] then []
    else
      var r := rules[|rules| - 1];
      UserLines(rules[..|rules| - 1]) + [Line(UserChain(r.hook), Rule([], Raw(r.rule)))]
  }

  // ----------------------------------------------------------------- NAT rules

  function FamilyMatch(f: Family): seq<Match> {
    match f
    case Ip => [Nfproto(false)]
    case Ip6 => [Nfproto(true)]
    case Inet => []
  }

  function DevMatch(env: Env, value: Option<string>, ingress: bool): seq<Match> {
    if value.Some? then [Selector(env, value.value, ingress)] else []
  }

  // _nat_match without the destination
  function SourceMatch(env: Env, r: NatRule): seq<Match>
    requires r.NatRule?
  {
    FamilyMatch(r.family) + DevMatch(env, r.iif, true) + DevMatch(env, r.oif, false)
    + if r.saddr.Some? then [Saddr(r.family == Ip6, r.saddr.value)] else []
  }

  function DestinationMatch(r: NatRule): seq<Match>
    requires r.NatRule?
  {
    (if r.daddr.Some? then [Daddr(r.family == Ip6, r.daddr.value)] else [])
    + if r.daddrNot.Some? then [DaddrNot(r.family == Ip6, r.daddrNot.value)] else []
  }

  function OriginalMatch(r: NatRule): seq<Match>
    requires r.NatRule?
  {
    (if r.daddr.Some? then [OrigDaddr(r.family == Ip6, r.daddr.value)] else [])
    + if r.daddrNot.Some? then [OrigDaddrNot(r.family == Ip6, r.daddrNot.value)] else []
  }

  // _nat_match
  function NatMatch(env: Env, r: NatRule): seq<Match>
    requires r.NatRule?
  {
    SourceMatch(env, r) + DestinationMatch(r)
  }

  function TargetPorts(r: NatRule): set<int>
    requires r.NatRule?
  {
    if r.toPort.Some? then {r.toPort.value} else r.dport
  }

  // The rule that translates, in dnat_prerouting.
  function Translation(env: Env, r: NatRule): Rule
    requires r.NatRule? && r.kind in {Portmap, Ipmap, Redirect}
  {
    match r.kind
    case Portmap => Rule(NatMatch(env, r) + [Dport(r.proto, r.dport)], DnatTo(r.to, r.toPort))
    case Redirect => Rule(NatMatch(env, r) + [Dport(r.proto, r.dport)], RedirectTo(r.toPort))
    case _ => Rule(NatMatch(env, r), DnatTo(r.to, None))
  }

  // The filter rule that lets the translated packets pass.
  function Admission(env: Env, r: NatRule): Line
    requires r.NatRule? && r.kind in {Portmap, Ipmap, Redirect}
  {
    match r.kind
    case Portmap =>
      Line(PortmapForward, Rule(
        SourceMatch(env, r) + [DaddrIs(r.family == Ip6, r.to), Dport(r.proto, TargetPorts(r))], Give(Accept)))
    case Redirect =>
      Line(InputAuto, Rule(
        SourceMatch(env, r) + [CtDnat] + OriginalMatch(r) + [OrigDport(r.dport), Dport(r.proto, TargetPorts(r))],
        Give(Accept)))
    case _ => Line(PortmapForward, Rule(NatMatch(env, r), Give(Accept)))
  }

  function FamilyName(f: Family): string {
    match f
    case Ip => "ip"
    case Ip6 => "ip6"
    case Inet => "inet"
  }

  // _render_hairpin
  function HairpinRule(r: NatRule, h: Hairpin): Rule
    requires r.NatRule?
  {
    var v6 := r.family == Ip6;
    Rule([Saddr(v6, h.sourceNet), DaddrIs(v6, r.to)]
         + (if r.proto != "" && r.dport != {} then [Dport(r.proto, TargetPorts(r))] else []),
         SnatTo(if h.snatTo.Some? then h.snatTo.value else FamilyName(r.family) + " saddr & 0.255.255.255 | 255.0.0.0"))
  }

  function HairpinLines(r: NatRule): seq<Line>
    requires r.NatRule?
  {
    if r.kind in {Portmap, Ipmap} && r.hairpin.Some? then [Line(SnatPostrouting, HairpinRule(r, r.hairpin.value))] else []
  }

  function NatChain(kind: NatKind): Chain {
    match kind
    case Snat => SnatPostrouting
    case Masq => MasqueradePostrouting
    case Redirect => MasqueradePostrouting
    case _ => DnatPrerouting
  }

  function NatRuleLines(env: Env, r: NatRule): seq<Line> {
    match r
    case RawNat(kind, rule, localOutput, forwardAllow) =>
      [Line(NatChain(kind), Rule([], Raw(rule)))]
      + (if localOutput then [Line(DnatOutput, Rule([], Raw(rule)))] else [])
      + if forwardAllow.Some? then [Line(PortmapForward, Rule([], Raw(forwardAllow.value)))] else []
    case _ =>
      match r.kind
      case Snat => [Line(SnatPostrouting, Rule(NatMatch(env, r), SnatTo(r.snatTo)))]
      case Masq => [Line(MasqueradePostrouting, Rule(NatMatch(env, r), Masquerade))]
      case RawKind => []
      case _ =>
        [Line(DnatPrerouting, Translation(env, r))]
        + (if r.localOutput then [Line(DnatOutput, Translation(env, r))] else [])
        + [Admission(env, r)]
        + HairpinLines(r)
  }

  function NatLines(env: Env, rules: seq<NatRule>): seq<Line> {
    if rules == [] then []
    else NatLines(env, rules[..|rules| - 1]) + NatRuleLines(env, rules[|rules| - 1])
  }

  // What the loop body of _render_firewall adds for one object.
  function ConfigLines(env: Env, c: Config): seq<Line> {
    InterfacesLines(env, c.interfaceRules) + UserLines(c.firewallRules) + NatLines(env, c.natRules)
  }

  function AllLines(env: Env, configs: seq<Config>): seq<Line> {
    if configs == [] then []
    else AllLines(env, configs[..|configs| - 1]) + ConfigLines(env, configs[|configs| - 1])
  }

  // _render_policy
  method RenderPolicy(env: Env, c: Config) returns (lines: seq<Line>)
    ensures lines == InterfacesLines(env, c.interfaceRules) + UserLines(c.firewallRules)
  {
    lines := [];
    for i := 0 to |c.interfaceRules|
      invariant lines == InterfacesLines(env, c.interfaceRules[..i])
    {
      assert c.interfaceRules[..i + 1][..i] == c.interfaceRules[..i];
      var more := RenderInterface(env, c.interfaceRules[i]);
      lines := lines + more;
    }
    assert c.interfaceRules[..|c.interfaceRules|] == c.interfaceRules;
    var interfaces := lines;
    for i := 0 to |c.firewallRules|
      invariant lines == interfaces + UserLines(c.firewallRules[..i])
    {
      var r := c.firewallRules[i];
      assert c.firewallRules[..i + 1][..i] == c.firewallRules[..i];
      lines := lines + [Line(UserChain(r.hook), Rule([], Raw(r.rule)))];
    }
    assert c.firewallRules[..|c.firewallRules|] == c.firewallRules;
  }

  method AddServices(lines: seq<Line>, selector: Match, services: seq<Service>) returns (more: seq<Line>)
    ensures more == lines + ServiceLines(selector, services)
  {
    more := lines;
    for i := 0 to |services|
      invariant more == lines + ServiceLines(selector, services[..i])
    {
      assert services[..i + 1][..i] == services[..i];
      more := more + [Line(InputAuto, Rule([selector, ServiceMatch(services[i])], Give(Accept)))];
    }
    assert services[..|services|] == services;
  }

  method AddTargets(env: Env, lines: seq<Line>, selector: Match, targets: seq<string>) returns (more: seq<Line>)
    ensures more == lines + AllowToLines(env, selector, targets)
  {
    more := lines;
    for i := 0 to |targets|
      invariant more == lines + AllowToLines(env, selector, targets[..i])
    {
      assert targets[..i + 1][..i] == targets[..i];
      more := more + [Line(ForwardAuto, Rule([selector, Selector(env, targets[i], false)], Give(Accept)))];
    }
    assert targets[..|targets|] == targets;
  }

  // One round of the first loop of _render_policy.
  method RenderInterface(env: Env, item: InterfaceRule) returns (lines: seq<Line>)
    ensures lines == InterfaceLines(env, item)
  {
    hide Selector, PingLines, DhcpLine, PrivateLine, MasqueradeLine, ServiceLines, AllowToLines, PolicyLine;
    var selector := Selector(env, item.subject, true);
    var outSelector := Selector(env, item.subject, false);
    lines := [];
    if item.ping.Some? {
      lines := lines + PingLines(selector, item.ping.value);
    }
    if item.dhcpv6Client {
      lines := lines + [DhcpLine(selector)];
    }
    lines := AddServices(lines, selector, item.services);
    lines := lines + PolicyLine(InputPolicy, selector, item.inputPolicy);
    lines := AddTargets(env, lines, selector, item.allowTo);
    if item.denyPrivateNetworks {
      lines := lines + [PrivateLine(selector)];
    }
    lines := lines + PolicyLine(ForwardPolicy, selector, item.forwardPolicy);
    lines := lines + PolicyLine(OutputPolicy, outSelector, item.outputPolicy);
    if item.masquerade {
      lines := lines + [MasqueradeLine(outSelector)];
    }
  }

  // _render_nat
  method RenderNat(env: Env, c: Config) returns (lines: seq<Line>)
    ensures lines == NatLines(env, c.natRules)
  {
    lines := [];
    for i := 0 to |c.natRules|
      invariant lines == NatLines(env, c.natRules[..i])
    {
      assert c.natRules[..i + 1][..i] == c.natRules[..i];
      lines := lines + NatRuleLines(env, c.natRules[i]);
    }
    assert c.natRules[..|c.natRules|] == c.natRules;
  }

  // The configurations in the order of their object names.
  ghost function InNameOrder(objects: map<string, Config>): seq<Config> {
    StringsAreOrdered();
    SortedSetFacts(AtMost, objects.Keys);
    var names := SortedSet(AtMost, objects.Keys);
    seq(|names|, i requires 0 <= i < |names| => assert names[i] in names; objects[names[i]])
  }

  lemma LeastIsFirst(keys: set<string>, names: seq<string>, n: string)
    requires n in keys && forall m :: m in keys ==> AtMost(n, m)
    requires Increasing(AtMost, names) && forall m :: m in names <==> m in keys
    ensures names != [] && names[0] == n
  {
    hide AtMost, Less;
    StringsAreOrdered();
    assert n in names;
    assert names[0] in names;
    var i :| 0 <= i < |names| && names[i] == n;
    assert i > 0 ==> AtMost(names[0], names[i]);
  }

  // The order is the one of the names: whichever list has each name once, in
  // increasing order, gives the configurations in turn.
  lemma NameOrderIs(objects: map<string, Config>, names: seq<string>)
    requires forall n :: n in names <==> n in objects
    requires forall i, j :: 0 <= i < j < |names| ==> Less(names[i], names[j])
    ensures |InNameOrder(objects)| == |names|
    ensures forall i :: 0 <= i < |names| ==> InNameOrder(objects)[i] == objects[names[i]]
  {
    hide AtMost, Less;
    StringsAreOrdered();
    SortedSetFacts(AtMost, objects.Keys);
    LessIsAtMost();
    OnlyIncreasing(AtMost, objects.Keys, names);
    assert forall i :: 0 <= i < |names| ==> names[i] in names;
  }

  lemma LessIsAtMost()
    ensures forall a, b :: Less(a, b) ==> AtMost(a, b) && a != b
  {
    forall a { LessIrreflexive(a); }
  }

  // _default_firewall_config
  ghost function DefaultsOf(objects: map<string, Config>): Defaults {
    if "main" in objects then objects["main"].defaults
    else if objects == map[] then NO_DEFAULTS
    else
      StringsAreOrdered();
      SortedSetFacts(AtMost, objects.Keys);
      assert |SortedSet(AtMost, objects.Keys)| == |objects|;
      InNameOrder(objects)[0].defaults
  }

  // update and _render_firewall: the defaults the main table is made from, and
  // the lines that follow it.
  method RenderFirewall(env: Env, objects: map<string, Config>) returns (d: Defaults, lines: seq<Line>)
    ensures d == DefaultsOf(objects)
    ensures "main" in objects ==> d == objects["main"].defaults
    ensures forall n :: "main" !in objects && n in objects && (forall m :: m in objects ==> AtMost(n, m)) ==>
              d == objects[n].defaults
    ensures objects == map[] ==>
              && d.inputPolicy == Drop && d.forwardPolicy == Drop && d.outputPolicy == Accept
              && d.allowLoopback && d.allowEstablished && d.allowEssentialIcmp && d.allowIcmpv6 == None
    ensures lines == AllLines(env, InNameOrder(objects))
  {
    hide AtMost, TotalOrder, Increasing, InterfacesLines, UserLines, NatLines;
    StringsAreOrdered();
    var names := Sorted(AtMost, objects.Keys);
    SortedSetFacts(AtMost, objects.Keys);
    d := NO_DEFAULTS;
    if "main" in objects {
      d := objects["main"].defaults;
    } else if names != [] {
      assert names[0] in names;
      d := objects[names[0]].defaults;
    } else {
      assert objects == map[];
    }
    if "main" !in objects {
      forall n | n in objects && forall m :: m in objects ==> AtMost(n, m)
        ensures d == objects[n].defaults
      {
        LeastIsFirst(objects.Keys, names, n);
      }
    }
    lines := [];
    ghost var configs := InNameOrder(objects);
    for i := 0 to |names|
      invariant lines == AllLines(env, configs[..i])
    {
      assert names[i] in names;
      var c := objects[names[i]];
      assert c == configs[i] && configs[..i + 1][..i] == configs[..i];
      var policy := RenderPolicy(env, c);
      var nat_ := RenderNat(env, c);
      assert lines + policy + nat_ == lines + (policy + nat_);
      lines := lines + policy + nat_;
    }
    assert configs[..|names|] == configs;
  }
}
