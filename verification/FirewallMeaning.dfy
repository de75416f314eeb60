// The compiler preserves meaning: evaluating the generated rules decides every
// packet as a direct reading of the configuration does
// (src/dros/plugins/network_firewall.py:69-380).
module FirewallMeaning {
  import opened Wrappers
  import opened Firewall

  // ---------------------------------------------------- a direct interpreter

  // The stages a configuration is consulted in, after which the default decides.
  datatype Stage = AtPre | AtPortmap | AtAuto | AtUser | AtPolicy

  function Stages(h: Hook): seq<Stage> {
    match h
    case Input => [AtPre, AtAuto, AtUser, AtPolicy]
    case Forward => [AtPre, AtPortmap, AtAuto, AtUser, AtPolicy]
    case Output => [AtUser, AtPolicy]
  }

  predicate OnSubject(env: Env, subject: string, dev: Option<Dev>) {
    && dev.Some?
    && if "devgroup/" <= subject then dev.value.group == env.group(subject[9..])
       else dev.value.name == if "interface/" <= subject then subject[10..] else subject
  }

  // The messages that hosts have to be able to get.
  predicate Essential(message: string) {
    message == "destination-unreachable" || message == "time-exceeded" || message == "parameter-problem"
  }

  predicate Essential6(message: string) {
    Essential(message) || message == "packet-too-big" || message == "nd-neighbor-solicit" || message == "nd-neighbor-advert"
  }

  // The defaults' answer for a hook when nothing else decides.
  function LastWord(d: Defaults, h: Hook): Verdict {
    match h
    case Input => d.inputPolicy
    case Forward => d.forwardPolicy
    case Output => d.outputPolicy
  }

  // What the defaults settle before any object is consulted.
  function PreOutcome(d: Defaults, h: Hook, p: Packet): Outcome {
    if h == Input && d.allowLoopback && p.iif.Some? && p.iif.value.name == "lo" then Final(Accept)
    else if d.allowEstablished && p.ct in {Established, Related} then Final(Accept)
    else if d.allowEstablished && p.ct == Invalid then Final(Drop)
    else if h == Input && d.allowEssentialIcmp && !p.v6 && p.proto == "icmp" && Essential(p.icmpType) then Final(Accept)
    else if h == Input && (d.allowIcmpv6 == Some(true) || (d.allowIcmpv6 == None && d.allowEssentialIcmp))
            && p.v6 && p.proto == "icmpv6" && Essential6(p.icmpType) then Final(Accept)
    else Continue
  }

  predicate Offers(s: Service, p: Packet) {
    match s
    case IpProtocol(name) => p.proto == name
    case Ports(proto, ports) => p.proto == proto && p.dport in ports
  }

  predicate Pings(p: Packet) {
    p.icmpType == "echo-request" && p.proto == if p.v6 then "icmpv6" else "icmp"
  }

  predicate Dhcpv6Reply(p: Packet) {
    p.proto == "udp" && p.sport == 547 && p.dport == 546
  }

  function ItemInput(item: InterfaceRule, p: Packet): Outcome {
    if item.ping.Some? && Pings(p) then Final(if item.ping.value then Accept else Drop)
    else if item.dhcpv6Client && Dhcpv6Reply(p) then Final(Accept)
    else if exists s :: s in item.services && Offers(s, p) then Final(Accept)
    else Continue
  }

  function ItemForward(env: Env, item: InterfaceRule, p: Packet): Outcome {
    if exists t :: t in item.allowTo && OnSubject(env, t, p.oif) then Final(Accept)
    else if item.denyPrivateNetworks && !p.v6 && env.inNet("{ 10.0.0.0/8, 172.16.0.0/12, 192.168.0.0/16 }", p.daddr)
    then Final(Drop)
    else Continue
  }

  function PolicyOutcome(env: Env, policy: Option<string>, p: Packet): Outcome {
    if policy.Some? then env.raw(policy.value, p) else Continue
  }

  // What one interface rule says of a packet.
  function ItemOutcome(env: Env, item: InterfaceRule, h: Hook, st: Stage, p: Packet): Outcome {
    if !OnSubject(env, item.subject, if h == Output then p.oif else p.iif) then Continue
    else
      match (h, st)
      case (Input, AtAuto) => ItemInput(item, p)
      case (Input, AtPolicy) => PolicyOutcome(env, item.inputPolicy, p)
      case (Forward, AtAuto) => ItemForward(env, item, p)
      case (Forward, AtPolicy) => PolicyOutcome(env, item.forwardPolicy, p)
      case (Output, AtPolicy) => PolicyOutcome(env, item.outputPolicy, p)
      case _ => Continue
  }

  predicate SourceOk(env: Env, r: NatRule, p: Packet)
    requires r.NatRule?
  {
    && (r.family == Ip ==> !p.v6)
    && (r.family == Ip6 ==> p.v6)
    && (r.iif.Some? ==> OnSubject(env, r.iif.value, p.iif))
    && (r.oif.Some? ==> OnSubject(env, r.oif.value, p.oif))
    && (r.saddr.Some? ==> p.v6 == (r.family == Ip6) && env.inNet(r.saddr.value, p.saddr))
  }

  // The destination a rule asks for, of an address.
  predicate AddressOk(env: Env, r: NatRule, v6: bool, addr: nat)
    requires r.NatRule?
  {
    && (r.daddr.Some? ==> v6 == (r.family == Ip6) && env.inNet(r.daddr.value, addr))
    && (r.daddrNot.Some? ==> v6 == (r.family == Ip6) && !env.inNet(r.daddrNot.value, addr))
  }

  predicate ReachesPorts(r: NatRule, p: Packet)
    requires r.NatRule?
  {
    p.proto == r.proto && p.dport in TargetPorts(r)
  }

  // What one NAT rule lets pass: forwarded packets to a portmap's target,
  // packets an ipmap matches, redirected packets at the input.
  function NatOutcome(env: Env, r: NatRule, h: Hook, st: Stage, p: Packet): Outcome {
    match (h, st)
    case (Forward, AtPortmap) =>
      if r.RawNat? then PolicyOutcome(env, r.forwardAllow, p)
      else if r.kind == Portmap && SourceOk(env, r, p) && p.v6 == (r.family == Ip6) && p.daddr == r.to && ReachesPorts(r, p)
      then Final(Accept)
      else if r.kind == Ipmap && SourceOk(env, r, p) && AddressOk(env, r, p.v6, p.daddr) then Final(Accept)
      else Continue
    case (Input, AtAuto) =>
      if r.NatRule? && r.kind == Redirect && SourceOk(env, r, p) && p.dnat
         && AddressOk(env, r, p.v6, p.origDaddr) && p.origDport in r.dport && ReachesPorts(r, p)
      then Final(Accept)
      else Continue
    case _ => Continue
  }

  // The first member of a list that decides.
  function Items(env: Env, items: seq<InterfaceRule>, h: Hook, st: Stage, p: Packet): Outcome {
    if items == [] then Continue
    else Then(Items(env, items[..|items| - 1], h, st, p), ItemOutcome(env, items[|items| - 1], h, st, p))
  }

  function Users(env: Env, rules: seq<FirewallRule>, h: Hook, p: Packet): Outcome {
    if rules == [] then Continue
    else
      var r := rules[|rules| - 1];
      Then(Users(env, rules[..|rules| - 1], h, p), if r.hook == h then env.raw(r.rule, p) else Continue)
  }

  function Nats(env: Env, rules: seq<NatRule>, h: Hook, st: Stage, p: Packet): Outcome {
    if rules == [] then Continue
    else Then(Nats(env, rules[..|rules| - 1], h, st, p), NatOutcome(env, rules[|rules| - 1], h, st, p))
  }

  // What one object says at a stage.
  function ObjectOutcome(env: Env, c: Config, h: Hook, st: Stage, p: Packet): Outcome {
    match st
    case AtPre => Continue
    case AtPortmap => Nats(env, c.natRules, h, st, p)
    case AtAuto => Then(Items(env, c.interfaceRules, h, st, p), Nats(env, c.natRules, h, st, p))
    case AtUser => Users(env, c.firewallRules, h, p)
    case AtPolicy => Items(env, c.interfaceRules, h, st, p)
  }

  function Objects(env: Env, configs: seq<Config>, h: Hook, st: Stage, p: Packet): Outcome {
    if configs == [] then Continue
    else Then(Objects(env, configs[..|configs| - 1], h, st, p), ObjectOutcome(env, configs[|configs| - 1], h, st, p))
  }

  // Stage by stage; a stage that returns or says nothing leaves it to the next.
  function Consult(env: Env, d: Defaults, configs: seq<Config>, h: Hook, stages: seq<Stage>, p: Packet): Verdict {
    if stages == [] then LastWord(d, h)
    else
      match (if stages[0] == AtPre then PreOutcome(d, h, p) else Objects(env, configs, h, stages[0], p))
      case Final(v) => v
      case _ => Consult(env, d, configs, h, stages[1..], p)
  }

  function Interpret(env: Env, d: Defaults, configs: seq<Config>, h: Hook, p: Packet): Verdict {
    Consult(env, d, configs, h, Stages(h), p)
  }

  // -------------------------------------------------- the effect of the lines

  lemma {:induction false} RulesOfAppend(a: seq<Line>, b: seq<Line>, c: Chain)
    ensures RulesOf(a + b, c) == RulesOf(a, c) + RulesOf(b, c)
  {
    if a == [] {
      assert a + b == b;
    } else {
      assert (a + b)[1..] == a[1..] + b;
      RulesOfAppend(a[1..], b, c);
      var first := if a[0].chain == c then [a[0].rule] else [];
      assert first + (RulesOf(a[1..], c) + RulesOf(b, c)) == first + RulesOf(a[1..], c) + RulesOf(b, c);
    }
  }

  lemma {:induction false} RunAppend(env: Env, a: seq<Rule>, b: seq<Rule>, p: Packet)
    ensures Run(env, a + b, p) == Then(Run(env, a, p), Run(env, b, p))
  {
    if a == [] {
      assert a + b == b;
    } else {
      assert (a + b)[1..] == a[1..] + b;
      RunAppend(env, a[1..], b, p);
    }
  }

  function Effect(env: Env, lines: seq<Line>, c: Chain, p: Packet): Outcome {
    Run(env, RulesOf(lines, c), p)
  }

  lemma EffectAppend(env: Env, a: seq<Line>, b: seq<Line>, c: Chain, p: Packet)
    ensures Effect(env, a + b, c, p) == Then(Effect(env, a, c, p), Effect(env, b, c, p))
  {
    RulesOfAppend(a, b, c);
    RunAppend(env, RulesOf(a, c), RulesOf(b, c), p);
  }

  lemma EffectOne(env: Env, line: Line, c: Chain, p: Packet)
    ensures Effect(env, [line], c, p) == if line.chain == c then Apply(env, line.rule, p) else Continue
  {
    hide Apply;
    assert [line][1..] == [] && RulesOf([], c) == [];
    if line.chain == c {
      assert RulesOf([line], c) == [line.rule] && [line.rule][1..] == [];
      assert Run(env, [line.rule], p) == Then(Apply(env, line.rule, p), Run(env, [], p));
    }
  }

  lemma SelectorMeans(env: Env, subject: string, p: Packet)
    ensures Holds(env, Selector(env, subject, true), p) == OnSubject(env, subject, p.iif)
    ensures Holds(env, Selector(env, subject, false), p) == OnSubject(env, subject, p.oif)
  {
  }

  // --------------------------------------------------------- interface rules

  function ChainOf(h: Hook, st: Stage): Chain
    requires st in Stages(h)
  {
    match (h, st)
    case (Input, AtPre) => InputPre
    case (Input, AtAuto) => InputAuto
    case (Input, AtUser) => InputUser
    case (Input, AtPolicy) => InputPolicy
    case (Forward, AtPre) => ForwardPre
    case (Forward, AtPortmap) => PortmapForward
    case (Forward, AtAuto) => ForwardAuto
    case (Forward, AtUser) => ForwardUser
    case (Forward, AtPolicy) => ForwardPolicy
    case (Output, AtUser) => OutputUser
    case _ => OutputPolicy
  }

  lemma TwoHold(env: Env, a: Match, b: Match, p: Packet)
    ensures AllHold(env, [a, b], p) == (Holds(env, a, p) && Holds(env, b, p))
  {
    hide Holds;
    assert [a, b][0] == a && [a, b][1] == b;
  }

  lemma ThreeHold(env: Env, a: Match, b: Match, c: Match, p: Packet)
    ensures AllHold(env, [a, b, c], p) == (Holds(env, a, p) && Holds(env, b, p) && Holds(env, c, p))
  {
    hide Holds;
    assert [a, b, c][0] == a && [a, b, c][1] == b && [a, b, c][2] == c;
  }

  lemma PingEffect(env: Env, subject: string, ping: bool, c: Chain, p: Packet)
    ensures Effect(env, PingLines(Selector(env, subject, true), ping), c, p)
         == if c == InputAuto && OnSubject(env, subject, p.iif) && Pings(p) then Final(if ping then Accept else Drop)
            else Continue
  {
    hide Effect, AllHold;
    var selector := Selector(env, subject, true);
    var lines := PingLines(selector, ping);
    assert lines == [lines[0]] + [lines[1]];
    EffectAppend(env, [lines[0]], [lines[1]], c, p);
    EffectOne(env, lines[0], c, p);
    EffectOne(env, lines[1], c, p);
    SelectorMeans(env, subject, p);
    ThreeHold(env, selector, Nfproto(false), IcmpType(false, {"echo-request"}), p);
    ThreeHold(env, selector, Nfproto(true), IcmpType(true, {"echo-request"}), p);
  }

  lemma DhcpEffect(env: Env, subject: string, c: Chain, p: Packet)
    ensures Effect(env, [DhcpLine(Selector(env, subject, true))], c, p)
         == if c == InputAuto && OnSubject(env, subject, p.iif) && Dhcpv6Reply(p) then Final(Accept) else Continue
  {
    hide Effect, AllHold;
    var selector := Selector(env, subject, true);
    EffectOne(env, DhcpLine(selector), c, p);
    SelectorMeans(env, subject, p);
    ThreeHold(env, selector, Sport("udp", {547}), Dport("udp", {546}), p);
  }

  lemma AcceptNext(env: Env, lines: seq<Line>, chain: Chain, selector: Match, other: Match, c: Chain, p: Packet)
    ensures Effect(env, lines + [Line(chain, Rule([selector, other], Give(Accept)))], c, p)
         == Then(Effect(env, lines, c, p),
                 if c == chain && Holds(env, selector, p) && Holds(env, other, p) then Final(Accept) else Continue)
  {
    hide Effect, AllHold, Holds;
    var line := Line(chain, Rule([selector, other], Give(Accept)));
    EffectAppend(env, lines, [line], c, p);
    EffectOne(env, line, c, p);
    TwoHold(env, selector, other, p);
  }

  ghost predicate AnyOffers(services: seq<Service>, p: Packet) {
    exists s :: s in services && Offers(s, p)
  }

  lemma OffersNext(services: seq<Service>, p: Packet)
    requires services != []
    ensures AnyOffers(services, p) == (AnyOffers(services[..|services| - 1], p) || Offers(services[|services| - 1], p))
  {
  }

  lemma {:induction false} ServicesEffect(env: Env, subject: string, services: seq<Service>, c: Chain, p: Packet)
    ensures Effect(env, ServiceLines(Selector(env, subject, true), services), c, p)
         == if c == InputAuto && OnSubject(env, subject, p.iif) && AnyOffers(services, p) then Final(Accept) else Continue
  {
    if services == [] {
    } else {
      hide Effect, AllHold, Selector, OnSubject, AnyOffers;
      var selector := Selector(env, subject, true);
      var init, last := services[..|services| - 1], services[|services| - 1];
      ServicesEffect(env, subject, init, c, p);
      AcceptNext(env, ServiceLines(selector, init), InputAuto, selector, ServiceMatch(last), c, p);
      SelectorMeans(env, subject, p);
      OffersNext(services, p);
    }
  }

  ghost predicate AnyTarget(env: Env, targets: seq<string>, p: Packet) {
    exists t :: t in targets && OnSubject(env, t, p.oif)
  }

  lemma TargetNext(env: Env, targets: seq<string>, p: Packet)
    requires targets != []
    ensures AnyTarget(env, targets, p)
         == (AnyTarget(env, targets[..|targets| - 1], p) || OnSubject(env, targets[|targets| - 1], p.oif))
  {
  }

  lemma {:induction false} TargetsEffect(env: Env, subject: string, targets: seq<string>, c: Chain, p: Packet)
    ensures Effect(env, AllowToLines(env, Selector(env, subject, true), targets), c, p)
         == if c == ForwardAuto && OnSubject(env, subject, p.iif) && AnyTarget(env, targets, p) then Final(Accept) else Continue
  {
    if targets == [] {
    } else {
      hide Effect, Holds, Selector, OnSubject, AnyTarget;
      var selector := Selector(env, subject, true);
      var init, last := targets[..|targets| - 1], targets[|targets| - 1];
      TargetsEffect(env, subject, init, c, p);
      AcceptNext(env, AllowToLines(env, selector, init), ForwardAuto, selector, Selector(env, last, false), c, p);
      SelectorMeans(env, subject, p);
      SelectorMeans(env, last, p);
      TargetNext(env, targets, p);
    }
  }

  lemma PrivateEffect(env: Env, subject: string, c: Chain, p: Packet)
    ensures Effect(env, [PrivateLine(Selector(env, subject, true))], c, p)
         == if c == ForwardAuto && OnSubject(env, subject, p.iif) && !p.v6 && env.inNet(PRIVATE_NETWORKS, p.daddr)
            then Final(Drop) else Continue
  {
    hide Effect, AllHold;
    var selector := Selector(env, subject, true);
    EffectOne(env, PrivateLine(selector), c, p);
    SelectorMeans(env, subject, p);
    TwoHold(env, selector, Daddr(false, PRIVATE_NETWORKS), p);
  }

  lemma PolicyEffect(env: Env, chain: Chain, subject: string, ingress: bool, policy: Option<string>, c: Chain, p: Packet)
    ensures Effect(env, PolicyLine(chain, Selector(env, subject, ingress), policy), c, p)
         == if c == chain && OnSubject(env, subject, if ingress then p.iif else p.oif) then PolicyOutcome(env, policy, p)
            else Continue
  {
    var selector := Selector(env, subject, ingress);
    SelectorMeans(env, subject, p);
    if policy.Some? {
      hide Effect, Selector, OnSubject;
      EffectOne(env, Line(chain, Rule([selector], Raw(policy.value))), c, p);
      assert [selector][0] == selector;
    }
  }

  lemma NineEffects(env: Env, a: seq<Line>, b: seq<Line>, d: seq<Line>, e: seq<Line>, f: seq<Line>, g: seq<Line>,
                    h: seq<Line>, i: seq<Line>, j: seq<Line>, c: Chain, p: Packet)
    ensures Effect(env, a + b + d + e + f + g + h + i + j, c, p)
         == Then(Then(Then(Then(Then(Then(Then(Then(
              Effect(env, a, c, p), Effect(env, b, c, p)), Effect(env, d, c, p)), Effect(env, e, c, p)), Effect(env, f, c, p)),
              Effect(env, g, c, p)), Effect(env, h, c, p)), Effect(env, i, c, p)), Effect(env, j, c, p))
  {
    hide Effect;
    EffectAppend(env, a, b, c, p);
    EffectAppend(env, a + b, d, c, p);
    EffectAppend(env, a + b + d, e, c, p);
    EffectAppend(env, a + b + d + e, f, c, p);
    EffectAppend(env, a + b + d + e + f, g, c, p);
    EffectAppend(env, a + b + d + e + f + g, h, c, p);
    EffectAppend(env, a + b + d + e + f + g + h, i, c, p);
    EffectAppend(env, a + b + d + e + f + g + h + i, j, c, p);
  }

  // What one interface rule adds to a chain.
  ghost function InterfaceEffect(env: Env, item: InterfaceRule, c: Chain, p: Packet): Outcome {
    var incoming := OnSubject(env, item.subject, p.iif);
    match c
    case InputAuto => if incoming then ItemInput(item, p) else Continue
    case InputPolicy => if incoming then PolicyOutcome(env, item.inputPolicy, p) else Continue
    case ForwardAuto => if incoming then ItemForward(env, item, p) else Continue
    case ForwardPolicy => if incoming then PolicyOutcome(env, item.forwardPolicy, p) else Continue
    case OutputPolicy => if OnSubject(env, item.subject, p.oif) then PolicyOutcome(env, item.outputPolicy, p) else Continue
    case _ => Continue
  }

  lemma NoEffect(env: Env, c: Chain, p: Packet)
    ensures Effect(env, [], c, p) == Continue
  {
  }

  lemma MasqueradeEffect(env: Env, selector: Match, c: Chain, p: Packet)
    ensures Effect(env, [MasqueradeLine(selector)], c, p) == Continue
  {
    EffectOne(env, MasqueradeLine(selector), c, p);
  }

  lemma InterfaceMeans(env: Env, item: InterfaceRule, c: Chain, p: Packet)
    ensures Effect(env, InterfaceLines(env, item), c, p) == InterfaceEffect(env, item, c, p)
  {
    hide Effect, Selector, OnSubject, PingLines, DhcpLine, PrivateLine, MasqueradeLine, ServiceLines, AllowToLines, PolicyLine,
         Pings, Dhcpv6Reply, Offers, PolicyOutcome;
    var selector := Selector(env, item.subject, true);
    var outSelector := Selector(env, item.subject, false);
    var ping := if item.ping.Some? then PingLines(selector, item.ping.value) else [];
    var dhcp := if item.dhcpv6Client then [DhcpLine(selector)] else [];
    var private_ := if item.denyPrivateNetworks then [PrivateLine(selector)] else [];
    var masquerade := if item.masquerade then [MasqueradeLine(outSelector)] else [];
    NineEffects(env, ping, dhcp, ServiceLines(selector, item.services), PolicyLine(InputPolicy, selector, item.inputPolicy),
                AllowToLines(env, selector, item.allowTo), private_, PolicyLine(ForwardPolicy, selector, item.forwardPolicy),
                PolicyLine(OutputPolicy, outSelector, item.outputPolicy), masquerade, c, p);
    NoEffect(env, c, p);
    if item.ping.Some? { PingEffect(env, item.subject, item.ping.value, c, p); }
    DhcpEffect(env, item.subject, c, p);
    ServicesEffect(env, item.subject, item.services, c, p);
    PolicyEffect(env, InputPolicy, item.subject, true, item.inputPolicy, c, p);
    TargetsEffect(env, item.subject, item.allowTo, c, p);
    PrivateEffect(env, item.subject, c, p);
    PolicyEffect(env, ForwardPolicy, item.subject, true, item.forwardPolicy, c, p);
    PolicyEffect(env, OutputPolicy, item.subject, false, item.outputPolicy, c, p);
    MasqueradeEffect(env, outSelector, c, p);
  }

  // -------------------------------------------------------------- user rules

  lemma {:induction false} InterfacesMean(env: Env, items: seq<InterfaceRule>, h: Hook, st: Stage, p: Packet)
    requires st in Stages(h)
    ensures Effect(env, InterfacesLines(env, items), ChainOf(h, st), p) == Items(env, items, h, st, p)
  {
    hide Effect, InterfaceLines;
    var c := ChainOf(h, st);
    if items == [] {
      NoEffect(env, c, p);
    } else {
      var init, last := items[..|items| - 1], items[|items| - 1];
      InterfacesMean(env, init, h, st, p);
      EffectAppend(env, InterfacesLines(env, init), InterfaceLines(env, last), c, p);
      InterfaceMeans(env, last, c, p);
    }
  }

  lemma {:induction false} UsersMean(env: Env, rules: seq<FirewallRule>, h: Hook, st: Stage, p: Packet)
    requires st in Stages(h)
    ensures Effect(env, UserLines(rules), ChainOf(h, st), p) == if st == AtUser then Users(env, rules, h, p) else Continue
  {
    hide Effect;
    var c := ChainOf(h, st);
    if rules == [] {
      NoEffect(env, c, p);
    } else {
      var init, last := rules[..|rules| - 1], rules[|rules| - 1];
      var line := Line(UserChain(last.hook), Rule([], Raw(last.rule)));
      UsersMean(env, init, h, st, p);
      EffectAppend(env, UserLines(init), [line], c, p);
      EffectOne(env, line, c, p);
    }
  }

  // --------------------------------------------------------------- NAT rules

  lemma HoldAppend(env: Env, a: seq<Match>, b: seq<Match>, p: Packet)
    ensures AllHold(env, a + b, p) == (AllHold(env, a, p) && AllHold(env, b, p))
  {
    hide Holds;
    if AllHold(env, a + b, p) {
      forall i | 0 <= i < |a|
        ensures Holds(env, a[i], p)
      {
        assert (a + b)[i] == a[i];
      }
      forall i | 0 <= i < |b|
        ensures Holds(env, b[i], p)
      {
        assert (a + b)[|a| + i] == b[i];
      }
    }
  }

  lemma HoldOne(env: Env, m: Match, p: Packet)
    ensures AllHold(env, [m], p) == Holds(env, m, p)
  {
    hide Holds;
    assert [m][0] == m;
  }

  lemma HoldNone(env: Env, p: Packet)
    ensures AllHold(env, [], p)
  {
  }

  lemma SourceMeans(env: Env, r: NatRule, p: Packet)
    requires r.NatRule?
    ensures AllHold(env, SourceMatch(env, r), p) == SourceOk(env, r, p)
  {
    hide AllHold, Selector, OnSubject;
    var a, b, c := FamilyMatch(r.family), DevMatch(env, r.iif, true), DevMatch(env, r.oif, false);
    var d := if r.saddr.Some? then [Saddr(r.family == Ip6, r.saddr.value)] else [];
    HoldAppend(env, a, b, p);
    HoldAppend(env, a + b, c, p);
    HoldAppend(env, a + b + c, d, p);
    HoldNone(env, p);
    forall m
      ensures AllHold(env, [m], p) == Holds(env, m, p)
    {
      HoldOne(env, m, p);
    }
    if r.iif.Some? { SelectorMeans(env, r.iif.value, p); }
    if r.oif.Some? { SelectorMeans(env, r.oif.value, p); }
  }

  lemma TwoOptionsHold(env: Env, a: Option<Match>, b: Option<Match>, ms: seq<Match>, p: Packet)
    requires ms == (if a.Some? then [a.value] else []) + if b.Some? then [b.value] else []
    ensures AllHold(env, ms, p) == ((a.Some? ==> Holds(env, a.value, p)) && (b.Some? ==> Holds(env, b.value, p)))
  {
    hide AllHold, Holds;
    HoldAppend(env, if a.Some? then [a.value] else [], if b.Some? then [b.value] else [], p);
    HoldNone(env, p);
    if a.Some? { HoldOne(env, a.value, p); }
    if b.Some? { HoldOne(env, b.value, p); }
  }

  lemma DestinationMeans(env: Env, r: NatRule, p: Packet)
    requires r.NatRule?
    ensures AllHold(env, DestinationMatch(r), p) == AddressOk(env, r, p.v6, p.daddr)
    ensures AllHold(env, NatMatch(env, r), p) == (SourceOk(env, r, p) && AddressOk(env, r, p.v6, p.daddr))
  {
    hide AllHold, SourceMatch, SourceOk;
    var v6 := r.family == Ip6;
    TwoOptionsHold(env, if r.daddr.Some? then Some(Daddr(v6, r.daddr.value)) else None,
                   if r.daddrNot.Some? then Some(DaddrNot(v6, r.daddrNot.value)) else None, DestinationMatch(r), p);
    HoldAppend(env, SourceMatch(env, r), DestinationMatch(r), p);
    SourceMeans(env, r, p);
  }

  lemma OriginalMeans(env: Env, r: NatRule, p: Packet)
    requires r.NatRule?
    ensures AllHold(env, OriginalMatch(r), p) == AddressOk(env, r, p.v6, p.origDaddr)
  {
    hide AllHold;
    var v6 := r.family == Ip6;
    TwoOptionsHold(env, if r.daddr.Some? then Some(OrigDaddr(v6, r.daddr.value)) else None,
                   if r.daddrNot.Some? then Some(OrigDaddrNot(v6, r.daddrNot.value)) else None, OriginalMatch(r), p);
  }

  lemma AdmissionMeans(env: Env, r: NatRule, p: Packet)
    requires r.NatRule? && r.kind in {Portmap, Ipmap, Redirect}
    ensures Apply(env, Admission(env, r).rule, p)
         == if r.kind == Redirect then NatOutcome(env, r, Input, AtAuto, p) else NatOutcome(env, r, Forward, AtPortmap, p)
  {
    hide AllHold, SourceMatch, OriginalMatch, SourceOk, AddressOk, NatMatch, TargetPorts;
    SourceMeans(env, r, p);
    DestinationMeans(env, r, p);
    OriginalMeans(env, r, p);
    var v6 := r.family == Ip6;
    var source, original := SourceMatch(env, r), OriginalMatch(r);
    TwoHold(env, DaddrIs(v6, r.to), Dport(r.proto, TargetPorts(r)), p);
    HoldAppend(env, source, [DaddrIs(v6, r.to), Dport(r.proto, TargetPorts(r))], p);
    HoldOne(env, CtDnat, p);
    TwoHold(env, OrigDport(r.dport), Dport(r.proto, TargetPorts(r)), p);
    HoldAppend(env, source, [CtDnat], p);
    HoldAppend(env, source + [CtDnat], original, p);
    HoldAppend(env, source + [CtDnat] + original, [OrigDport(r.dport), Dport(r.proto, TargetPorts(r))], p);
  }

  // The NAT table's chains are none of the filter stages.
  lemma RawMeans(env: Env, r: NatRule, h: Hook, st: Stage, p: Packet)
    requires st in Stages(h) && r.RawNat?
    ensures Effect(env, NatRuleLines(env, r), ChainOf(h, st), p) == NatOutcome(env, r, h, st, p)
  {
    hide Effect;
    var c := ChainOf(h, st);
    var first := Line(NatChain(r.kind), Rule([], Raw(r.rule)));
    var second := if r.localOutput then [Line(DnatOutput, Rule([], Raw(r.rule)))] else [];
    var third := if r.forwardAllow.Some? then [Line(PortmapForward, Rule([], Raw(r.forwardAllow.value)))] else [];
    EffectAppend(env, [first], second, c, p);
    EffectAppend(env, [first] + second, third, c, p);
    NoEffect(env, c, p);
    EffectOne(env, first, c, p);
    if r.localOutput { EffectOne(env, second[0], c, p); }
    if r.forwardAllow.Some? { EffectOne(env, third[0], c, p); }
  }

  lemma HairpinEffect(env: Env, r: NatRule, h: Hook, st: Stage, p: Packet)
    requires st in Stages(h) && r.NatRule?
    ensures Effect(env, HairpinLines(r), ChainOf(h, st), p) == Continue
  {
    hide Effect, HairpinRule;
    NoEffect(env, ChainOf(h, st), p);
    if r.hairpin.Some? {
      EffectOne(env, Line(SnatPostrouting, HairpinRule(r, r.hairpin.value)), ChainOf(h, st), p);
    }
  }

  lemma StructuredMeans(env: Env, r: NatRule, h: Hook, st: Stage, p: Packet)
    requires st in Stages(h) && r.NatRule?
    ensures Effect(env, NatRuleLines(env, r), ChainOf(h, st), p) == NatOutcome(env, r, h, st, p)
  {
    hide Effect, Apply, NatMatch, SourceOk, AddressOk, ReachesPorts, HairpinLines;
    var c := ChainOf(h, st);
    NoEffect(env, c, p);
    if r.kind in {Portmap, Ipmap, Redirect} {
      var t := Translation(env, r);
      var first, admission := Line(DnatPrerouting, t), Admission(env, r);
      var second := if r.localOutput then [Line(DnatOutput, t)] else [];
      EffectAppend(env, [first], second, c, p);
      EffectAppend(env, [first] + second, [admission], c, p);
      EffectOne(env, first, c, p);
      if r.localOutput { EffectOne(env, second[0], c, p); }
      EffectAppend(env, [first] + second + [admission], HairpinLines(r), c, p);
      EffectOne(env, admission, c, p);
      HairpinEffect(env, r, h, st, p);
      AdmissionMeans(env, r, p);
    } else {
      EffectOne(env, Line(SnatPostrouting, Rule(NatMatch(env, r), SnatTo(r.snatTo))), c, p);
      EffectOne(env, Line(MasqueradePostrouting, Rule(NatMatch(env, r), Masquerade)), c, p);
    }
  }

  lemma {:induction false} NatsMean(env: Env, rules: seq<NatRule>, h: Hook, st: Stage, p: Packet)
    requires st in Stages(h)
    ensures Effect(env, NatLines(env, rules), ChainOf(h, st), p) == Nats(env, rules, h, st, p)
  {
    hide Effect, NatRuleLines, NatOutcome;
    var c := ChainOf(h, st);
    if rules == [] {
      NoEffect(env, c, p);
    } else {
      var init, last := rules[..|rules| - 1], rules[|rules| - 1];
      NatsMean(env, init, h, st, p);
      EffectAppend(env, NatLines(env, init), NatRuleLines(env, last), c, p);
      if last.RawNat? { RawMeans(env, last, h, st, p); } else { StructuredMeans(env, last, h, st, p); }
    }
  }

  // ------------------------------------------------------------- the theorem

  lemma {:induction false} IrrelevantItems(env: Env, items: seq<InterfaceRule>, h: Hook, st: Stage, p: Packet)
    requires st in {AtPre, AtPortmap, AtUser}
    ensures Items(env, items, h, st, p) == Continue
  {
    if items != [] { IrrelevantItems(env, items[..|items| - 1], h, st, p); }
  }

  lemma {:induction false} IrrelevantNats(env: Env, rules: seq<NatRule>, h: Hook, st: Stage, p: Packet)
    requires st in {AtPre, AtUser, AtPolicy}
    ensures Nats(env, rules, h, st, p) == Continue
  {
    if rules != [] { IrrelevantNats(env, rules[..|rules| - 1], h, st, p); }
  }

  lemma ObjectMeans(env: Env, c: Config, h: Hook, st: Stage, p: Packet)
    requires st in Stages(h)
    ensures Effect(env, ConfigLines(env, c), ChainOf(h, st), p) == ObjectOutcome(env, c, h, st, p)
  {
    hide Effect, Items, Nats, Users;
    var chain := ChainOf(h, st);
    var a, b := InterfacesLines(env, c.interfaceRules), UserLines(c.firewallRules);
    EffectAppend(env, a, b, chain, p);
    EffectAppend(env, a + b, NatLines(env, c.natRules), chain, p);
    InterfacesMean(env, c.interfaceRules, h, st, p);
    UsersMean(env, c.firewallRules, h, st, p);
    NatsMean(env, c.natRules, h, st, p);
    if st in {AtPre, AtPortmap, AtUser} { IrrelevantItems(env, c.interfaceRules, h, st, p); }
    if st in {AtPre, AtUser, AtPolicy} { IrrelevantNats(env, c.natRules, h, st, p); }
  }

  lemma {:induction false} ObjectsMean(env: Env, configs: seq<Config>, h: Hook, st: Stage, p: Packet)
    requires st in Stages(h)
    ensures Effect(env, AllLines(env, configs), ChainOf(h, st), p) == Objects(env, configs, h, st, p)
  {
    hide Effect, ConfigLines, ObjectOutcome;
    var c := ChainOf(h, st);
    if configs == [] {
      NoEffect(env, c, p);
    } else {
      var init, last := configs[..|configs| - 1], configs[|configs| - 1];
      ObjectsMean(env, init, h, st, p);
      EffectAppend(env, AllLines(env, init), ConfigLines(env, last), c, p);
      ObjectMeans(env, last, h, st, p);
    }
  }

  predicate Emitted(c: Chain) {
    c !in {InputPre, InputPost, ForwardPre, ForwardPost}
  }

  // No line is ever added to the pre and post chains.
  lemma {:induction false} NothingEmitted(env: Env, configs: seq<Config>, c: Chain)
    requires !Emitted(c)
    ensures RulesOf(AllLines(env, configs), c) == []
  {
    hide RulesOf;
    assert RulesOf([], c) == [] by { EmptyRules(c); }
    if configs != [] {
      var last := configs[|configs| - 1];
      NothingEmitted(env, configs[..|configs| - 1], c);
      RulesOfAppend(AllLines(env, configs[..|configs| - 1]), ConfigLines(env, last), c);
      var a, b := InterfacesLines(env, last.interfaceRules), UserLines(last.firewallRules);
      RulesOfAppend(a, b, c);
      RulesOfAppend(a + b, NatLines(env, last.natRules), c);
      InterfacesEmit(env, last.interfaceRules, c);
      UsersEmit(last.firewallRules, c);
      NatsEmit(env, last.natRules, c);
    }
  }

  lemma EmptyRules(c: Chain)
    ensures RulesOf([], c) == []
  {
  }

  lemma {:induction false} NoRules(lines: seq<Line>, c: Chain)
    requires forall i :: 0 <= i < |lines| ==> lines[i].chain != c
    ensures RulesOf(lines, c) == []
  {
    if lines != [] { NoRules(lines[1..], c); }
  }

  ghost predicate AllEmitted(lines: seq<Line>) {
    forall i :: 0 <= i < |lines| ==> Emitted(lines[i].chain)
  }

  lemma {:induction false} InterfacesEmit(env: Env, items: seq<InterfaceRule>, c: Chain)
    requires !Emitted(c)
    ensures RulesOf(InterfacesLines(env, items), c) == []
  {
    if items != [] {
      hide RulesOf, InterfaceLines;
      var init, last := items[..|items| - 1], items[|items| - 1];
      InterfacesEmit(env, init, c);
      RulesOfAppend(InterfacesLines(env, init), InterfaceLines(env, last), c);
      InterfaceEmits(env, last);
      NoRules(InterfaceLines(env, last), c);
    }
  }

  lemma EmitsOne(line: Line)
    ensures Emitted(line.chain) ==> AllEmitted([line])
  {
  }

  lemma EmitsNone()
    ensures AllEmitted([])
  {
  }

  lemma PingEmits(selector: Match, ping: bool)
    ensures AllEmitted(PingLines(selector, ping))
  {
  }

  lemma PolicyEmits(c: Chain, selector: Match, policy: Option<string>)
    ensures Emitted(c) ==> AllEmitted(PolicyLine(c, selector, policy))
  {
  }

  lemma InterfaceEmits(env: Env, item: InterfaceRule)
    ensures AllEmitted(InterfaceLines(env, item))
  {
    hide Selector, PingLines, ServiceLines, AllowToLines, PolicyLine, AllEmitted;
    var selector, outSelector := Selector(env, item.subject, true), Selector(env, item.subject, false);
    var a := if item.ping.Some? then PingLines(selector, item.ping.value) else [];
    var b := if item.dhcpv6Client then [DhcpLine(selector)] else [];
    var c, d := ServiceLines(selector, item.services), PolicyLine(InputPolicy, selector, item.inputPolicy);
    var e := AllowToLines(env, selector, item.allowTo);
    var f := if item.denyPrivateNetworks then [PrivateLine(selector)] else [];
    var g, h := PolicyLine(ForwardPolicy, selector, item.forwardPolicy), PolicyLine(OutputPolicy, outSelector, item.outputPolicy);
    var i := if item.masquerade then [MasqueradeLine(outSelector)] else [];
    if item.ping.Some? { PingEmits(selector, item.ping.value); }
    EmitsNone();
    if item.dhcpv6Client { EmitsOne(b[0]); }
    if item.denyPrivateNetworks { EmitsOne(f[0]); }
    if item.masquerade { EmitsOne(i[0]); }
    ServicesEmit(selector, item.services);
    PolicyEmits(InputPolicy, selector, item.inputPolicy);
    TargetsEmit(env, selector, item.allowTo);
    PolicyEmits(ForwardPolicy, selector, item.forwardPolicy);
    PolicyEmits(OutputPolicy, outSelector, item.outputPolicy);
    NineEmit(a, b, c, d, e, f, g, h, i);
  }

  lemma NineEmit(a: seq<Line>, b: seq<Line>, c: seq<Line>, d: seq<Line>, e: seq<Line>, f: seq<Line>, g: seq<Line>,
                 h: seq<Line>, i: seq<Line>)
    requires AllEmitted(a) && AllEmitted(b) && AllEmitted(c) && AllEmitted(d) && AllEmitted(e) && AllEmitted(f)
    requires AllEmitted(g) && AllEmitted(h) && AllEmitted(i)
    ensures AllEmitted(a + b + c + d + e + f + g + h + i)
  {
  }

  lemma {:induction false} ServicesEmit(selector: Match, services: seq<Service>)
    ensures AllEmitted(ServiceLines(selector, services))
  {
    if services != [] { ServicesEmit(selector, services[..|services| - 1]); }
  }

  lemma {:induction false} TargetsEmit(env: Env, selector: Match, targets: seq<string>)
    ensures AllEmitted(AllowToLines(env, selector, targets))
  {
    hide Selector;
    if targets != [] { TargetsEmit(env, selector, targets[..|targets| - 1]); }
  }

  lemma {:induction false} UsersEmit(rules: seq<FirewallRule>, c: Chain)
    requires !Emitted(c)
    ensures RulesOf(UserLines(rules), c) == []
  {
    if rules != [] {
      var init, last := rules[..|rules| - 1], rules[|rules| - 1];
      UsersEmit(init, c);
      RulesOfAppend(UserLines(init), [Line(UserChain(last.hook), Rule([], Raw(last.rule)))], c);
      NoRules([Line(UserChain(last.hook), Rule([], Raw(last.rule)))], c);
    }
  }

  lemma NatEmits(env: Env, r: NatRule)
    ensures AllEmitted(NatRuleLines(env, r))
  {
  }

  lemma {:induction false} NatsEmit(env: Env, rules: seq<NatRule>, c: Chain)
    requires !Emitted(c)
    ensures RulesOf(NatLines(env, rules), c) == []
  {
    if rules != [] {
      hide RulesOf, NatRuleLines;
      var init, last := rules[..|rules| - 1], rules[|rules| - 1];
      NatsEmit(env, init, c);
      RulesOfAppend(NatLines(env, init), NatRuleLines(env, last), c);
      NatEmits(env, last);
      NoRules(NatRuleLines(env, last), c);
    }
  }

  // A rule that only some defaults put into the chain.
  lemma RunIf(env: Env, b: bool, ms: seq<Match>, v: Verdict, p: Packet)
    ensures Run(env, if b then [Rule(ms, Give(v))] else [], p) == if b && AllHold(env, ms, p) then Final(v) else Continue
  {
  }

  lemma EstablishedMeans(env: Env, d: Defaults, p: Packet)
    ensures Run(env, EstablishedRules(d), p)
         == if d.allowEstablished && p.ct in {Established, Related} then Final(Accept)
            else if d.allowEstablished && p.ct == Invalid then Final(Drop)
            else Continue
  {
    hide AllHold, Run;
    HoldOne(env, CtIn({Established, Related}), p);
    HoldOne(env, CtIn({Invalid}), p);
    RunIf(env, d.allowEstablished, [CtIn({Established, Related})], Accept, p);
    RunIf(env, d.allowEstablished, [CtIn({Invalid})], Drop, p);
    var first := if d.allowEstablished then [Rule([CtIn({Established, Related})], Give(Accept))] else [];
    var second := if d.allowEstablished then [Rule([CtIn({Invalid})], Give(Drop))] else [];
    RunAppend(env, first, second, p);
    assert EstablishedRules(d) == first + second;
  }

  lemma IcmpMeans(env: Env, v6: bool, types: set<string>, p: Packet)
    ensures AllHold(env, [Nfproto(v6), IcmpType(v6, types)], p) == (IsIcmp(p, v6) && p.icmpType in types)
  {
    TwoHold(env, Nfproto(v6), IcmpType(v6, types), p);
  }

  lemma EssentialsMean(d: Defaults, p: Packet)
    ensures IsIcmp(p, false) && p.icmpType in ESSENTIAL_ICMP <==> !p.v6 && p.proto == "icmp" && Essential(p.icmpType)
    ensures IsIcmp(p, true) && p.icmpType in ESSENTIAL_ICMPV6 <==> p.v6 && p.proto == "icmpv6" && Essential6(p.icmpType)
    ensures AllowIcmpv6(d) <==> d.allowIcmpv6 == Some(true) || (d.allowIcmpv6 == None && d.allowEssentialIcmp)
  {
  }

  lemma PreMeans(env: Env, d: Defaults, p: Packet)
    ensures Run(env, MainRules(d, InputPre), p) == PreOutcome(d, Input, p)
    ensures Run(env, MainRules(d, ForwardPre), p) == PreOutcome(d, Forward, p)
  {
    hide AllHold, Run, EstablishedRules, IsIcmp, AllowIcmpv6, Essential, Essential6;
    EssentialsMean(d, p);
    var loopback := if d.allowLoopback then [Rule([IifName("lo")], Give(Accept))] else [];
    var essential := if d.allowEssentialIcmp then [Rule([Nfproto(false), IcmpType(false, ESSENTIAL_ICMP)], Give(Accept))] else [];
    var essential6 := if AllowIcmpv6(d) then [Rule([Nfproto(true), IcmpType(true, ESSENTIAL_ICMPV6)], Give(Accept))] else [];
    var established := EstablishedRules(d);
    EstablishedMeans(env, d, p);
    HoldOne(env, IifName("lo"), p);
    IcmpMeans(env, false, ESSENTIAL_ICMP, p);
    IcmpMeans(env, true, ESSENTIAL_ICMPV6, p);
    RunIf(env, d.allowLoopback, [IifName("lo")], Accept, p);
    RunIf(env, d.allowEssentialIcmp, [Nfproto(false), IcmpType(false, ESSENTIAL_ICMP)], Accept, p);
    RunIf(env, AllowIcmpv6(d), [Nfproto(true), IcmpType(true, ESSENTIAL_ICMPV6)], Accept, p);
    RunAppend(env, loopback, established, p);
    RunAppend(env, loopback + established, essential, p);
    RunAppend(env, loopback + established + essential, essential6, p);
  }

  // What a jump of a base chain comes to.
  lemma JumpMeans(env: Env, d: Defaults, configs: seq<Config>, h: Hook, st: Stage, p: Packet)
    requires st in Stages(h)
    ensures Run(env, MainRules(d, ChainOf(h, st)) + RulesOf(AllLines(env, configs), ChainOf(h, st)), p)
         == if st == AtPre then PreOutcome(d, h, p) else Objects(env, configs, h, st, p)
  {
    hide Run, RulesOf, AllLines, Objects, PreOutcome, EstablishedRules, AllowIcmpv6;
    var c := ChainOf(h, st);
    var rules := RulesOf(AllLines(env, configs), c);
    if st == AtPre {
      NothingEmitted(env, configs, c);
      assert MainRules(d, c) + [] == MainRules(d, c);
      PreMeans(env, d, p);
    } else {
      assert [] + rules == rules;
      ObjectsMean(env, configs, h, st, p);
    }
  }

  lemma PostMeans(env: Env, d: Defaults, configs: seq<Config>, c: Chain, p: Packet)
    requires c in {InputPost, ForwardPost}
    ensures Run(env, MainRules(d, c) + RulesOf(AllLines(env, configs), c), p) == Continue
  {
    NothingEmitted(env, configs, c);
  }

  function Rank(c: Chain): Option<Stage> {
    match c
    case InputPre => Some(AtPre)
    case ForwardPre => Some(AtPre)
    case PortmapForward => Some(AtPortmap)
    case InputAuto => Some(AtAuto)
    case ForwardAuto => Some(AtAuto)
    case InputUser => Some(AtUser)
    case ForwardUser => Some(AtUser)
    case OutputUser => Some(AtUser)
    case InputPolicy => Some(AtPolicy)
    case ForwardPolicy => Some(AtPolicy)
    case OutputPolicy => Some(AtPolicy)
    case _ => None
  }

  function StagesOf(jumps: seq<Chain>): seq<Stage> {
    if jumps == [] then []
    else (if Rank(jumps[0]).Some? then [Rank(jumps[0]).value] else []) + StagesOf(jumps[1..])
  }

  // A jump of the hook that is no stage is a post chain.
  ghost predicate JumpsOf(h: Hook, jumps: seq<Chain>) {
    forall i :: 0 <= i < |jumps| ==>
      match Rank(jumps[i])
      case Some(st) => st in Stages(h) && jumps[i] == ChainOf(h, st)
      case None => jumps[i] in {InputPost, ForwardPost}
  }

  lemma {:induction false} JumpsMean(env: Env, d: Defaults, configs: seq<Config>, h: Hook, jumps: seq<Chain>, p: Packet)
    requires JumpsOf(h, jumps)
    ensures EvalJumps(env, d, AllLines(env, configs), jumps, Policy(d, h), p)
         == Consult(env, d, configs, h, StagesOf(jumps), p)
  {
    hide Run, RulesOf, AllLines, Objects, PreOutcome, MainRules;
    if jumps != [] {
      JumpsMean(env, d, configs, h, jumps[1..], p);
      match Rank(jumps[0])
      case Some(st) =>
        JumpMeans(env, d, configs, h, st, p);
        assert StagesOf(jumps)[1..] == StagesOf(jumps[1..]);
      case None =>
        PostMeans(env, d, configs, jumps[0], p);
        assert StagesOf(jumps) == StagesOf(jumps[1..]);
    }
  }

  lemma StagesOfOne(c: Chain, rest: seq<Chain>)
    ensures StagesOf([c] + rest) == (if Rank(c).Some? then [Rank(c).value] else []) + StagesOf(rest)
  {
  }

  lemma HookJumps(h: Hook)
    ensures JumpsOf(h, Jumps(h))
  {
  }

  // The last jumps of the input and forward chains.
  lemma LastStages(user: Chain, post: Chain, policy: Chain)
    requires Rank(user) == Some(AtUser) && Rank(post) == None && Rank(policy) == Some(AtPolicy)
    ensures StagesOf([user] + ([post] + ([policy] + []))) == [AtUser, AtPolicy]
  {
    NoStages();
    hide StagesOf, Rank;
    StagesOfOne(user, [post] + ([policy] + []));
    StagesOfOne(post, [policy] + []);
    StagesOfOne(policy, []);
  }

  lemma InputStages()
    ensures StagesOf(Jumps(Input)) == Stages(Input)
  {
  }

  lemma ForwardStages()
    ensures StagesOf(Jumps(Forward)) == Stages(Forward)
  {
    hide StagesOf;
    var user := [ForwardUser] + ([ForwardPost] + ([ForwardPolicy] + []));
    LastStages(ForwardUser, ForwardPost, ForwardPolicy);
    StagesOfOne(ForwardAuto, user);
    StagesOfOne(PortmapForward, [ForwardAuto] + user);
    StagesOfOne(ForwardPre, [PortmapForward] + ([ForwardAuto] + user));
    assert Jumps(Forward) == [ForwardPre] + ([PortmapForward] + ([ForwardAuto] + user));
  }

  lemma OutputStages()
    ensures StagesOf(Jumps(Output)) == Stages(Output)
  {
  }

  lemma HookStages(h: Hook)
    ensures StagesOf(Jumps(h)) == Stages(h)
  {
    hide StagesOf;
    match h
    case Input => InputStages();
    case Forward => ForwardStages();
    case Output => OutputStages();
  }

  lemma NoStages()
    ensures StagesOf([]) == []
  {
  }

  // For all objects and all packets the generated rules decide what the direct
  // interpreter decides, objects in the order of their names.
  lemma CompilerPreservesMeaning(env: Env, objects: map<string, Config>, h: Hook, p: Packet)
    ensures EvalHook(env, DefaultsOf(objects), AllLines(env, InNameOrder(objects)), h, p)
         == Interpret(env, DefaultsOf(objects), InNameOrder(objects), h, p)
  {
    hide EvalJumps, Consult, AllLines, InNameOrder, DefaultsOf, Policy, StagesOf, JumpsOf;
    HookJumps(h);
    HookStages(h);
    JumpsMean(env, DefaultsOf(objects), InNameOrder(objects), h, Jumps(h), p);
  }
}
