// What the generated NAT rules do to a packet, and that it is what the
// configuration says (src/dros/plugins/network_firewall.py:206-236, 292-380 and
// 735-775).
module FirewallTranslation {
  import opened Wrappers
  import opened Firewall
  import opened FirewallMeaning

  // ------------------------------------------------------- the rules' meaning

  // What a rule or a chain of the NAT table does to a packet: nothing yet, back
  // to the caller, on with this packet, or nothing more of it.
  datatype Rewrite = Onward | Back | To(packet: Packet) | Lost

  // Meaning of raw rules and of source address expressions, and the addresses
  // of the router that redirect and masquerade use.
  datatype World = World(
    raw: (string, Packet) -> Rewrite, source: (string, Packet) -> nat, ingress: Packet -> nat, egress: Packet -> nat)

  // A new destination; conntrack keeps the old one.
  function WithDestination(p: Packet, addr: nat, port: int): Packet {
    p.(daddr := addr, dport := port, dnat := true, origDaddr := p.daddr, origDport := p.dport)
  }

  function PortOr(port: Option<int>, p: Packet): int {
    if port.Some? then port.value else p.dport
  }

  // A statement that translates ends the evaluation.
  function Perform(w: World, s: Statement, p: Packet): Rewrite {
    match s
    case DnatTo(addr, port) => To(WithDestination(p, addr, PortOr(port, p)))
    case RedirectTo(port) => To(WithDestination(p, w.ingress(p), PortOr(port, p)))
    case SnatTo(text) => To(p.(saddr := w.source(text, p)))
    case Masquerade => To(p.(saddr := w.egress(p)))
    case Raw(text) => w.raw(text, p)
    case Give(v) => if v == Accept then To(p) else Lost
  }

  function ApplyNat(env: Env, w: World, r: Rule, p: Packet): Rewrite {
    if AllHold(env, r.matches, p) then Perform(w, r.statement, p) else Onward
  }

  function Else(first: Rewrite, second: Rewrite): Rewrite {
    if first == Onward then second else first
  }

  function RunNat(env: Env, w: World, rules: seq<Rule>, p: Packet): Rewrite {
    if rules == [] then Onward else Else(ApplyNat(env, w, rules[0], p), RunNat(env, w, rules[1..], p))
  }

  datatype NatHook = Prerouting | LocalOutput | Postrouting

  // The jumps of a base chain of the NAT table.
  function NatJumps(h: NatHook): seq<Chain> {
    match h
    case Prerouting => [DnatPrerouting]
    case LocalOutput => [DnatOutput]
    case Postrouting => [SnatPostrouting, MasqueradePostrouting]
  }

  // A packet that no chain has moved goes on as it is.
  function EvalNatJumps(env: Env, w: World, lines: seq<Line>, jumps: seq<Chain>, p: Packet): Rewrite {
    if jumps == [] then To(p)
    else
      match RunNat(env, w, RulesOf(lines, jumps[0]), p)
      case To(q) => To(q)
      case Lost => Lost
      case _ => EvalNatJumps(env, w, lines, jumps[1..], p)
  }

  function EvalNat(env: Env, w: World, lines: seq<Line>, h: NatHook, p: Packet): Rewrite {
    EvalNatJumps(env, w, lines, NatJumps(h), p)
  }

  // ---------------------------------------------------- a direct interpreter

  datatype NatStage = AtDnat | AtLocalDnat | AtSnat | AtMasquerade

  function NatStages(h: NatHook): seq<NatStage> {
    match h
    case Prerouting => [AtDnat]
    case LocalOutput => [AtLocalDnat]
    case Postrouting => [AtSnat, AtMasquerade]
  }

  // Where a raw rule is consulted.
  predicate RawStage(kind: NatKind, localOutput: bool, st: NatStage) {
    match st
    case AtDnat => kind in {Portmap, Ipmap, RawKind}
    case AtLocalDnat => localOutput
    case AtSnat => kind == Snat
    case AtMasquerade => kind in {Masq, Redirect}
  }

  // The packets whose destination a rule translates.
  predicate Wants(env: Env, r: NatRule, p: Packet)
    requires r.NatRule?
  {
    && SourceOk(env, r, p) && AddressOk(env, r, p.v6, p.daddr)
    && (r.kind != Ipmap ==> p.proto == r.proto && p.dport in r.dport)
  }

  // Packets from the hairpin network to the target of the rule.
  predicate Hairpins(env: Env, r: NatRule, h: Hairpin, p: Packet)
    requires r.NatRule?
  {
    && p.v6 == (r.family == Ip6) && env.inNet(h.sourceNet, p.saddr) && p.daddr == r.to
    && (r.proto != "" && r.dport != {} ==>
          p.proto == r.proto && (if r.toPort.Some? then p.dport == r.toPort.value else p.dport in r.dport))
  }

  // The source that a hairpin asks for; without an address the low 24 bits stay.
  function HairpinSource(r: NatRule, h: Hairpin): string
    requires r.NatRule?
  {
    match h.snatTo
    case Some(text) => text
    case None =>
      match r.family
      case Ip => "ip" + " saddr & 0.255.255.255 | 255.0.0.0"
      case Ip6 => "ip6" + " saddr & 0.255.255.255 | 255.0.0.0"
      case Inet => "inet" + " saddr & 0.255.255.255 | 255.0.0.0"
  }

  // What one NAT rule does to a packet.
  function RuleRewrite(env: Env, w: World, r: NatRule, st: NatStage, p: Packet): Rewrite {
    match r
    case RawNat(kind, rule, localOutput, _) => if RawStage(kind, localOutput, st) then w.raw(rule, p) else Onward
    case _ =>
      if st == AtDnat || (st == AtLocalDnat && r.localOutput) then
        if r.kind in {Portmap, Ipmap, Redirect} && Wants(env, r, p) then
          To(WithDestination(p, if r.kind == Redirect then w.ingress(p) else r.to,
                             if r.kind == Ipmap then p.dport else PortOr(r.toPort, p)))
        else Onward
      else if st == AtSnat && r.kind == Snat then
        if SourceOk(env, r, p) && AddressOk(env, r, p.v6, p.daddr) then To(p.(saddr := w.source(r.snatTo, p))) else Onward
      else if st == AtSnat && r.kind in {Portmap, Ipmap} && r.hairpin.Some? && Hairpins(env, r, r.hairpin.value, p) then
        To(p.(saddr := w.source(HairpinSource(r, r.hairpin.value), p)))
      else if st == AtMasquerade && r.kind == Masq && SourceOk(env, r, p) && AddressOk(env, r, p.v6, p.daddr) then
        To(p.(saddr := w.egress(p)))
      else Onward
  }

  // An interface rule may masquerade what leaves through its interfaces, IPv4 only.
  function ItemRewrite(env: Env, w: World, item: InterfaceRule, st: NatStage, p: Packet): Rewrite {
    if st == AtMasquerade && item.masquerade && OnSubject(env, item.subject, p.oif) && !p.v6 then To(p.(saddr := w.egress(p)))
    else Onward
  }

  function ItemsRewrite(env: Env, w: World, items: seq<InterfaceRule>, st: NatStage, p: Packet): Rewrite {
    if items == [] then Onward
    else Else(ItemsRewrite(env, w, items[..|items| - 1], st, p), ItemRewrite(env, w, items[|items| - 1], st, p))
  }

  function RulesRewrite(env: Env, w: World, rules: seq<NatRule>, st: NatStage, p: Packet): Rewrite {
    if rules == [] then Onward
    else Else(RulesRewrite(env, w, rules[..|rules| - 1], st, p), RuleRewrite(env, w, rules[|rules| - 1], st, p))
  }

  function ObjectsRewrite(env: Env, w: World, configs: seq<Config>, st: NatStage, p: Packet): Rewrite {
    if configs == [] then Onward
    else
      var c := configs[|configs| - 1];
      Else(ObjectsRewrite(env, w, configs[..|configs| - 1], st, p),
           Else(ItemsRewrite(env, w, c.interfaceRules, st, p), RulesRewrite(env, w, c.natRules, st, p)))
  }

  function ReadStages(env: Env, w: World, configs: seq<Config>, stages: seq<NatStage>, p: Packet): Rewrite {
    if stages == [] then To(p)
    else
      match ObjectsRewrite(env, w, configs, stages[0], p)
      case To(q) => To(q)
      case Lost => Lost
      case _ => ReadStages(env, w, configs, stages[1..], p)
  }

  // -------------------------------------------------- the effect of the lines

  function NatEffect(env: Env, w: World, lines: seq<Line>, c: Chain, p: Packet): Rewrite {
    RunNat(env, w, RulesOf(lines, c), p)
  }

  lemma {:induction false} RunNatAppend(env: Env, w: World, a: seq<Rule>, b: seq<Rule>, p: Packet)
    ensures RunNat(env, w, a + b, p) == Else(RunNat(env, w, a, p), RunNat(env, w, b, p))
  {
    hide ApplyNat;
    if a == [] {
      assert a + b == b;
    } else {
      assert (a + b)[1..] == a[1..] + b;
      RunNatAppend(env, w, a[1..], b, p);
    }
  }

  lemma NatEffectAppend(env: Env, w: World, a: seq<Line>, b: seq<Line>, c: Chain, p: Packet)
    ensures NatEffect(env, w, a + b, c, p) == Else(NatEffect(env, w, a, c, p), NatEffect(env, w, b, c, p))
  {
    hide RunNat, RulesOf;
    RulesOfAppend(a, b, c);
    RunNatAppend(env, w, RulesOf(a, c), RulesOf(b, c), p);
  }

  lemma NatEffectOne(env: Env, w: World, line: Line, c: Chain, p: Packet)
    ensures NatEffect(env, w, [line], c, p) == if line.chain == c then ApplyNat(env, w, line.rule, p) else Onward
    ensures NatEffect(env, w, [], c, p) == Onward
  {
    hide ApplyNat;
    assert [line][1..] == [] && RulesOf([], c) == [];
    if line.chain == c {
      assert RulesOf([line], c) == [line.rule] && [line.rule][1..] == [];
      assert RunNat(env, w, [line.rule], p) == Else(ApplyNat(env, w, line.rule, p), RunNat(env, w, [], p));
    }
  }

  function ChainAt(st: NatStage): Chain {
    match st
    case AtDnat => DnatPrerouting
    case AtLocalDnat => DnatOutput
    case AtSnat => SnatPostrouting
    case AtMasquerade => MasqueradePostrouting
  }

  // No line goes to the NAT table.
  ghost predicate AllFilter(lines: seq<Line>) {
    forall i :: 0 <= i < |lines| ==> forall st :: lines[i].chain != ChainAt(st)
  }

  lemma FilterHasNoEffect(env: Env, w: World, lines: seq<Line>, st: NatStage, p: Packet)
    requires AllFilter(lines)
    ensures NatEffect(env, w, lines, ChainAt(st), p) == Onward
  {
    NoRules(lines, ChainAt(st));
  }

  lemma {:induction false} ServicesFilter(selector: Match, services: seq<Service>)
    ensures AllFilter(ServiceLines(selector, services))
  {
    if services != [] {
      ServicesFilter(selector, services[..|services| - 1]);
    }
  }

  lemma {:induction false} TargetsFilter(env: Env, selector: Match, targets: seq<string>)
    ensures AllFilter(AllowToLines(env, selector, targets))
  {
    hide Selector;
    if targets != [] {
      TargetsFilter(env, selector, targets[..|targets| - 1]);
    }
  }

  lemma PoliciesFilter(selector: Match, policy: Option<string>)
    ensures AllFilter(PolicyLine(InputPolicy, selector, policy))
    ensures AllFilter(PolicyLine(ForwardPolicy, selector, policy))
    ensures AllFilter(PolicyLine(OutputPolicy, selector, policy))
  {
  }

  lemma SmallFilter(selector: Match, ping: bool)
    ensures AllFilter(PingLines(selector, ping)) && AllFilter([DhcpLine(selector)]) && AllFilter([PrivateLine(selector)])
    ensures AllFilter([])
  {
  }

  lemma FilterAppends(a: seq<Line>, b: seq<Line>)
    requires AllFilter(a) && AllFilter(b)
    ensures AllFilter(a + b)
  {
  }

  // All lines of an interface rule but the masquerading one.
  lemma FrontFilter(env: Env, item: InterfaceRule) returns (front: seq<Line>)
    ensures AllFilter(front)
    ensures InterfaceLines(env, item)
         == front + if item.masquerade then [MasqueradeLine(Selector(env, item.subject, false))] else []
  {
    hide AllFilter, Selector, PingLines, DhcpLine, PrivateLine, ServiceLines, AllowToLines, PolicyLine, MasqueradeLine;
    var selector, outSelector := Selector(env, item.subject, true), Selector(env, item.subject, false);
    SmallFilter(selector, item.ping.Some? && item.ping.value);
    ServicesFilter(selector, item.services);
    TargetsFilter(env, selector, item.allowTo);
    PoliciesFilter(selector, item.inputPolicy);
    PoliciesFilter(selector, item.forwardPolicy);
    PoliciesFilter(outSelector, item.outputPolicy);
    front := if item.ping.Some? then PingLines(selector, item.ping.value) else [];
    var dhcp := if item.dhcpv6Client then [DhcpLine(selector)] else [];
    var deny := if item.denyPrivateNetworks then [PrivateLine(selector)] else [];
    FilterAppends(front, dhcp);
    front := front + dhcp;
    FilterAppends(front, ServiceLines(selector, item.services));
    front := front + ServiceLines(selector, item.services);
    FilterAppends(front, PolicyLine(InputPolicy, selector, item.inputPolicy));
    front := front + PolicyLine(InputPolicy, selector, item.inputPolicy);
    FilterAppends(front, AllowToLines(env, selector, item.allowTo));
    front := front + AllowToLines(env, selector, item.allowTo);
    FilterAppends(front, deny);
    front := front + deny;
    FilterAppends(front, PolicyLine(ForwardPolicy, selector, item.forwardPolicy));
    front := front + PolicyLine(ForwardPolicy, selector, item.forwardPolicy);
    FilterAppends(front, PolicyLine(OutputPolicy, outSelector, item.outputPolicy));
    front := front + PolicyLine(OutputPolicy, outSelector, item.outputPolicy);
  }

  lemma ItemTranslates(env: Env, w: World, item: InterfaceRule, st: NatStage, p: Packet)
    ensures NatEffect(env, w, InterfaceLines(env, item), ChainAt(st), p) == ItemRewrite(env, w, item, st, p)
  {
    hide NatEffect, InterfaceLines, AllFilter, OnSubject, Selector, Holds, AllHold;
    var front := FrontFilter(env, item);
    FilterHasNoEffect(env, w, front, st, p);
    var line := MasqueradeLine(Selector(env, item.subject, false));
    NatEffectAppend(env, w, front, if item.masquerade then [line] else [], ChainAt(st), p);
    NatEffectOne(env, w, line, ChainAt(st), p);
    TwoHold(env, Selector(env, item.subject, false), Nfproto(false), p);
    SelectorMeans(env, item.subject, p);
    assert Holds(env, Nfproto(false), p) == !p.v6 by { NfprotoMeans(env, p); }
  }

  lemma NfprotoMeans(env: Env, p: Packet)
    ensures Holds(env, Nfproto(false), p) == !p.v6
  {
  }

  lemma {:induction false} ItemsTranslate(env: Env, w: World, items: seq<InterfaceRule>, st: NatStage, p: Packet)
    ensures NatEffect(env, w, InterfacesLines(env, items), ChainAt(st), p) == ItemsRewrite(env, w, items, st, p)
  {
    hide NatEffect, InterfaceLines, ItemRewrite;
    if items == [] {
      NatEffectOne(env, w, Line(InputUser, Rule([], Masquerade)), ChainAt(st), p);
    } else {
      var init, last := items[..|items| - 1], items[|items| - 1];
      ItemsTranslate(env, w, init, st, p);
      NatEffectAppend(env, w, InterfacesLines(env, init), InterfaceLines(env, last), ChainAt(st), p);
      ItemTranslates(env, w, last, st, p);
    }
  }

  lemma {:induction false} UsersFilter(rules: seq<FirewallRule>)
    ensures AllFilter(UserLines(rules))
  {
    if rules != [] {
      UsersFilter(rules[..|rules| - 1]);
    }
  }

  // ---------------------------------------------------------------- NAT rules

  lemma TranslationPerforms(env: Env, w: World, r: NatRule, p: Packet)
    requires r.NatRule? && r.kind in {Portmap, Ipmap, Redirect}
    ensures ApplyNat(env, w, Translation(env, r), p) == RuleRewrite(env, w, r, AtDnat, p)
  {
    hide AllHold, SourceOk, AddressOk, NatMatch;
    DestinationMeans(env, r, p);
    HoldAppend(env, NatMatch(env, r), [Dport(r.proto, r.dport)], p);
    HoldOne(env, Dport(r.proto, r.dport), p);
  }

  lemma HairpinPerforms(env: Env, w: World, r: NatRule, h: Hairpin, p: Packet)
    requires r.NatRule?
    ensures ApplyNat(env, w, HairpinRule(r, h), p)
         == if Hairpins(env, r, h, p) then To(p.(saddr := w.source(HairpinSource(r, h), p))) else Onward
  {
    hide AllHold;
    var v6 := r.family == Ip6;
    var ports := if r.proto != "" && r.dport != {} then [Dport(r.proto, TargetPorts(r))] else [];
    TwoHold(env, Saddr(v6, h.sourceNet), DaddrIs(v6, r.to), p);
    HoldAppend(env, [Saddr(v6, h.sourceNet), DaddrIs(v6, r.to)], ports, p);
    HoldOne(env, Dport(r.proto, TargetPorts(r)), p);
    HoldNone(env, p);
    HairpinText(r, h);
  }

  lemma HairpinText(r: NatRule, h: Hairpin)
    requires r.NatRule?
    ensures HairpinRule(r, h).statement == SnatTo(HairpinSource(r, h))
  {
  }

  lemma RawTranslates(env: Env, w: World, r: NatRule, st: NatStage, p: Packet)
    requires r.RawNat?
    ensures NatEffect(env, w, NatRuleLines(env, r), ChainAt(st), p) == RuleRewrite(env, w, r, st, p)
  {
    hide NatEffect;
    var c := ChainAt(st);
    var first := Line(NatChain(r.kind), Rule([], Raw(r.rule)));
    var second := if r.localOutput then [Line(DnatOutput, Rule([], Raw(r.rule)))] else [];
    var third := if r.forwardAllow.Some? then [Line(PortmapForward, Rule([], Raw(r.forwardAllow.value)))] else [];
    NatEffectAppend(env, w, [first], second, c, p);
    NatEffectAppend(env, w, [first] + second, third, c, p);
    NatEffectOne(env, w, first, c, p);
    if r.localOutput { NatEffectOne(env, w, second[0], c, p); }
    if r.forwardAllow.Some? { NatEffectOne(env, w, third[0], c, p); }
  }

  lemma SourceRulesTranslate(env: Env, w: World, r: NatRule, st: NatStage, p: Packet)
    requires r.NatRule? && r.kind !in {Portmap, Ipmap, Redirect}
    ensures NatEffect(env, w, NatRuleLines(env, r), ChainAt(st), p) == RuleRewrite(env, w, r, st, p)
  {
    hide NatEffect, AllHold, SourceOk, AddressOk, NatMatch;
    NatEffectOne(env, w, Line(SnatPostrouting, Rule(NatMatch(env, r), SnatTo(r.snatTo))), ChainAt(st), p);
    NatEffectOne(env, w, Line(MasqueradePostrouting, Rule(NatMatch(env, r), Masquerade)), ChainAt(st), p);
    DestinationMeans(env, r, p);
  }

  lemma DestinationRulesTranslate(env: Env, w: World, r: NatRule, st: NatStage, p: Packet)
    requires r.NatRule? && r.kind in {Portmap, Ipmap, Redirect}
    ensures NatEffect(env, w, NatRuleLines(env, r), ChainAt(st), p) == RuleRewrite(env, w, r, st, p)
  {
    hide NatEffect, ApplyNat, Wants, Hairpins, HairpinSource, HairpinRule;
    var c, t := ChainAt(st), Translation(env, r);
    var first, admission := Line(DnatPrerouting, t), Admission(env, r);
    var second := if r.localOutput then [Line(DnatOutput, t)] else [];
    NatEffectAppend(env, w, [first], second, c, p);
    NatEffectAppend(env, w, [first] + second, [admission], c, p);
    NatEffectAppend(env, w, [first] + second + [admission], HairpinLines(r), c, p);
    NatEffectOne(env, w, first, c, p);
    if r.localOutput { NatEffectOne(env, w, second[0], c, p); }
    NatEffectOne(env, w, admission, c, p);
    TranslationPerforms(env, w, r, p);
    if r.hairpin.Some? {
      NatEffectOne(env, w, Line(SnatPostrouting, HairpinRule(r, r.hairpin.value)), c, p);
      HairpinPerforms(env, w, r, r.hairpin.value, p);
    }
  }

  lemma {:induction false} RulesTranslate(env: Env, w: World, rules: seq<NatRule>, st: NatStage, p: Packet)
    ensures NatEffect(env, w, NatLines(env, rules), ChainAt(st), p) == RulesRewrite(env, w, rules, st, p)
  {
    hide NatEffect, NatRuleLines, RuleRewrite;
    if rules == [] {
      NatEffectOne(env, w, Line(InputUser, Rule([], Masquerade)), ChainAt(st), p);
    } else {
      var init, last := rules[..|rules| - 1], rules[|rules| - 1];
      RulesTranslate(env, w, init, st, p);
      NatEffectAppend(env, w, NatLines(env, init), NatRuleLines(env, last), ChainAt(st), p);
      if last.RawNat? {
        RawTranslates(env, w, last, st, p);
      } else if last.kind in {Portmap, Ipmap, Redirect} {
        DestinationRulesTranslate(env, w, last, st, p);
      } else {
        SourceRulesTranslate(env, w, last, st, p);
      }
    }
  }

  lemma {:induction false} ObjectsTranslate(env: Env, w: World, configs: seq<Config>, st: NatStage, p: Packet)
    ensures NatEffect(env, w, AllLines(env, configs), ChainAt(st), p) == ObjectsRewrite(env, w, configs, st, p)
  {
    hide NatEffect, InterfacesLines, UserLines, NatLines, ItemsRewrite, RulesRewrite, AllFilter;
    if configs == [] {
      NatEffectOne(env, w, Line(InputUser, Rule([], Masquerade)), ChainAt(st), p);
    } else {
      var init, last, chain := configs[..|configs| - 1], configs[|configs| - 1], ChainAt(st);
      var a, b := InterfacesLines(env, last.interfaceRules), UserLines(last.firewallRules);
      ObjectsTranslate(env, w, init, st, p);
      NatEffectAppend(env, w, AllLines(env, init), ConfigLines(env, last), chain, p);
      NatEffectAppend(env, w, a + b, NatLines(env, last.natRules), chain, p);
      NatEffectAppend(env, w, a, b, chain, p);
      ItemsTranslate(env, w, last.interfaceRules, st, p);
      UsersFilter(last.firewallRules);
      FilterHasNoEffect(env, w, b, st, p);
      RulesTranslate(env, w, last.natRules, st, p);
    }
  }

  lemma StageTranslates(env: Env, w: World, configs: seq<Config>, st: NatStage, p: Packet)
    ensures RunNat(env, w, RulesOf(AllLines(env, configs), ChainAt(st)), p) == ObjectsRewrite(env, w, configs, st, p)
  {
    hide RunNat, RulesOf, ObjectsRewrite, AllLines;
    ObjectsTranslate(env, w, configs, st, p);
  }

  // For all objects, hooks and packets the generated NAT table does to a packet
  // what the configuration says: the first rule that wants it decides, source
  // rules before masquerading.
  lemma NatTablePreservesMeaning(env: Env, w: World, configs: seq<Config>, h: NatHook, p: Packet)
    ensures EvalNat(env, w, AllLines(env, configs), h, p) == ReadStages(env, w, configs, NatStages(h), p)
  {
    hide RunNat, RulesOf, ObjectsRewrite, AllLines;
    forall st ensures RunNat(env, w, RulesOf(AllLines(env, configs), ChainAt(st)), p) == ObjectsRewrite(env, w, configs, st, p) {
      StageTranslates(env, w, configs, st, p);
    }
    match h
    case Prerouting => OneStage(env, w, configs, AtDnat, p);
    case LocalOutput => OneStage(env, w, configs, AtLocalDnat, p);
    case Postrouting =>
      OneStage(env, w, configs, AtMasquerade, p);
      assert [SnatPostrouting, MasqueradePostrouting][1..] == [MasqueradePostrouting];
      assert [AtSnat, AtMasquerade][1..] == [AtMasquerade];
      assert ChainAt(AtSnat) == SnatPostrouting;
  }

  lemma OneStage(env: Env, w: World, configs: seq<Config>, st: NatStage, p: Packet)
    ensures EvalNatJumps(env, w, AllLines(env, configs), [ChainAt(st)], p) == ReadStages(env, w, configs, [st], p)
    ensures EvalNatJumps(env, w, AllLines(env, configs), [ChainAt(st)], p)
         == match ObjectsRewrite(env, w, configs, st, p)
            case To(q) => To(q)
            case Lost => Lost
            case _ => To(p)
  {
    hide RunNat, RulesOf, ObjectsRewrite, AllLines;
    StageTranslates(env, w, configs, st, p);
    assert [ChainAt(st)][1..] == [] && [st][1..] == [];
  }
}
