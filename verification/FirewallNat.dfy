// NAT and filter agree on translated packets
// (src/dros/plugins/network_firewall.py:329-374).
module FirewallNat {
  import opened Wrappers
  import opened Firewall
  import opened FirewallMeaning
  import opened FirewallTranslation

  // ------------------------------------------------------------- translation

  // The packet before its destination was translated.
  function Original(q: Packet): Packet {
    q.(daddr := q.origDaddr, dport := q.origDport, oif := None, dnat := false)
  }

  predicate Configured(configs: seq<Config>, r: NatRule) {
    exists i :: 0 <= i < |configs| && r in configs[i].natRules
  }

  // No raw forwardAllow rule takes the packet away from the structured ones.
  predicate RawIsQuiet(env: Env, rules: seq<NatRule>, q: Packet) {
    forall r :: r in rules && r.RawNat? ==> PolicyOutcome(env, r.forwardAllow, q) in {Continue, Final(Accept)}
  }

  const ACCEPTED := Final(Accept)

  predicate Lenient(o: Outcome) {
    o == Continue || o == ACCEPTED
  }

  // ------------------------------------------------- the rules in their order

  // The NAT rules of all objects, in the order in which they are rendered.
  function AllNats(configs: seq<Config>): seq<NatRule> {
    if configs == [] then []
    else AllNats(configs[..|configs| - 1]) + configs[|configs| - 1].natRules
  }

  // Rule number j of object number i.
  predicate At(configs: seq<Config>, i: nat, j: nat) {
    i < |configs| && j < |configs[i].natRules|
  }

  function Earlier(configs: seq<Config>, i: nat, j: nat): seq<NatRule>
    requires At(configs, i, j)
  {
    AllNats(configs[..i]) + configs[i].natRules[..j]
  }

  function Later(configs: seq<Config>, i: nat, j: nat): seq<NatRule>
    requires At(configs, i, j)
  {
    configs[i].natRules[j + 1..] + AllNats(configs[i + 1..])
  }

  // The same configuration without that rule.
  function Removed(configs: seq<Config>, i: nat, j: nat): seq<Config>
    requires At(configs, i, j)
  {
    var rules := configs[i].natRules;
    configs[i := configs[i].(natRules := rules[..j] + rules[j + 1..])]
  }

  lemma {:induction false} AllNatsAppend(a: seq<Config>, b: seq<Config>)
    ensures AllNats(a + b) == AllNats(a) + AllNats(b)
  {
    if b == [] {
      assert a + b == a;
    } else {
      var init, last := b[..|b| - 1], b[|b| - 1];
      assert (a + b)[..|a + b| - 1] == a + init;
      AllNatsAppend(a, init);
    }
  }

  lemma AllNatsOne(c: Config)
    ensures AllNats([c]) == c.natRules
  {
    assert [c][..0] == [];
  }

  lemma AllNatsAt(configs: seq<Config>, i: nat, j: nat)
    requires At(configs, i, j)
    ensures AllNats(configs) == Earlier(configs, i, j) + [configs[i].natRules[j]] + Later(configs, i, j)
    ensures AllNats(Removed(configs, i, j)) == Earlier(configs, i, j) + Later(configs, i, j)
  {
    hide AllNats;
    var c, rules := configs[i], configs[i].natRules;
    var c' := c.(natRules := rules[..j] + rules[j + 1..]);
    var before, after := configs[..i], configs[i + 1..];
    assert configs == before + ([c] + after);
    assert Removed(configs, i, j) == before + ([c'] + after);
    AllNatsAppend(before, [c] + after);
    AllNatsAppend(before, [c'] + after);
    AllNatsAppend([c], after);
    AllNatsAppend([c'], after);
    AllNatsOne(c);
    AllNatsOne(c');
    assert rules == rules[..j] + [rules[j]] + rules[j + 1..];
  }

  lemma {:induction false} NatsAppend(env: Env, a: seq<NatRule>, b: seq<NatRule>, h: Hook, st: Stage, q: Packet)
    ensures Nats(env, a + b, h, st, q) == Then(Nats(env, a, h, st, q), Nats(env, b, h, st, q))
  {
    hide NatOutcome;
    if b == [] {
      assert a + b == a;
    } else {
      var init := b[..|b| - 1];
      assert (a + b)[..|a + b| - 1] == a + init;
      NatsAppend(env, a, init, h, st, q);
    }
  }

  lemma {:induction false} PortmapStage(env: Env, configs: seq<Config>, q: Packet)
    ensures Objects(env, configs, Forward, AtPortmap, q) == Nats(env, AllNats(configs), Forward, AtPortmap, q)
  {
    if configs != [] {
      hide Nats;
      var init, last := configs[..|configs| - 1], configs[|configs| - 1];
      PortmapStage(env, init, q);
      NatsAppend(env, AllNats(init), last.natRules, Forward, AtPortmap, q);
    }
  }

  lemma {:induction false} NatsLenient(env: Env, rules: seq<NatRule>, h: Hook, st: Stage, q: Packet)
    requires RawIsQuiet(env, rules, q)
    ensures Lenient(Nats(env, rules, h, st, q))
  {
    if rules != [] {
      var init, last := rules[..|rules| - 1], rules[|rules| - 1];
      assert rules == init + [last] && last in rules;
      NatsLenient(env, init, h, st, q);
      NatLenient(env, last, h, st, q);
      hide NatOutcome;
    }
  }

  lemma NatLenient(env: Env, r: NatRule, h: Hook, st: Stage, q: Packet)
    requires r.RawNat? ==> PolicyOutcome(env, r.forwardAllow, q) in {Continue, ACCEPTED}
    ensures Lenient(NatOutcome(env, r, h, st, q))
  {
  }

  lemma NatsOne(env: Env, r: NatRule, h: Hook, st: Stage, q: Packet)
    ensures Nats(env, [r], h, st, q) == NatOutcome(env, r, h, st, q)
  {
    hide NatOutcome;
    assert [r][..0] == [];
  }

  // What the rules before rule number j of object number i say at the portmap stage.
  function Before(env: Env, configs: seq<Config>, i: nat, j: nat, q: Packet): Outcome
    requires At(configs, i, j)
  {
    Nats(env, Earlier(configs, i, j), Forward, AtPortmap, q)
  }

  // What a rule makes of the stage: it decides where the earlier ones do not,
  // and is as if it were not there when it says nothing.
  lemma RuleInStage(env: Env, configs: seq<Config>, i: nat, j: nat, q: Packet)
    requires At(configs, i, j)
    ensures NatOutcome(env, configs[i].natRules[j], Forward, AtPortmap, q) == ACCEPTED
            ==> Objects(env, configs, Forward, AtPortmap, q) == Then(Before(env, configs, i, j, q), ACCEPTED)
    ensures NatOutcome(env, configs[i].natRules[j], Forward, AtPortmap, q) == Continue
            ==> Objects(env, configs, Forward, AtPortmap, q) == Objects(env, Removed(configs, i, j), Forward, AtPortmap, q)
  {
    hide NatOutcome, Nats, AllNats, Removed, Earlier, Later;
    var r, earlier, later := configs[i].natRules[j], Earlier(configs, i, j), Later(configs, i, j);
    AllNatsAt(configs, i, j);
    PortmapStage(env, configs, q);
    PortmapStage(env, Removed(configs, i, j), q);
    NatsAppend(env, earlier + [r], later, Forward, AtPortmap, q);
    NatsAppend(env, earlier, [r], Forward, AtPortmap, q);
    NatsAppend(env, earlier, later, Forward, AtPortmap, q);
    NatsOne(env, r, Forward, AtPortmap, q);
  }

  lemma ConfiguredNext(configs: seq<Config>, r: NatRule)
    requires configs != []
    ensures Configured(configs, r)
        <==> Configured(configs[..|configs| - 1], r) || r in configs[|configs| - 1].natRules
  {
  }

  // ------------------------------------------------- who translates a packet

  // Rule number j of object number i is one that translates destinations.
  predicate TranslatesAt(configs: seq<Config>, i: nat, j: nat) {
    At(configs, i, j) && configs[i].natRules[j].NatRule? && configs[i].natRules[j].kind in {Portmap, Ipmap, Redirect}
  }

  // It wants the packet, and no earlier rule does anything with it.
  predicate Decides(env: Env, w: World, configs: seq<Config>, i: nat, j: nat, p: Packet)
    requires TranslatesAt(configs, i, j)
  {
    && RulesRewrite(env, w, Earlier(configs, i, j), AtDnat, p) == Onward
    && AllHold(env, Translation(env, configs[i].natRules[j]).matches, p)
  }

  lemma {:induction false} RewriteAppend(env: Env, w: World, a: seq<NatRule>, b: seq<NatRule>, st: NatStage, p: Packet)
    ensures RulesRewrite(env, w, a + b, st, p) == Else(RulesRewrite(env, w, a, st, p), RulesRewrite(env, w, b, st, p))
  {
    hide RuleRewrite;
    if b == [] {
      assert a + b == a;
    } else {
      var init := b[..|b| - 1];
      assert (a + b)[..|a + b| - 1] == a + init;
      RewriteAppend(env, w, a, init, st, p);
    }
  }

  lemma RewriteOne(env: Env, w: World, r: NatRule, st: NatStage, p: Packet)
    ensures RulesRewrite(env, w, [r], st, p) == RuleRewrite(env, w, r, st, p)
  {
    hide RuleRewrite;
    assert [r][..0] == [];
  }

  lemma {:induction false} ItemsLeave(env: Env, w: World, items: seq<InterfaceRule>, p: Packet)
    ensures ItemsRewrite(env, w, items, AtDnat, p) == Onward
  {
    if items != [] {
      ItemsLeave(env, w, items[..|items| - 1], p);
    }
  }

  lemma {:induction false} DnatStage(env: Env, w: World, configs: seq<Config>, p: Packet)
    ensures ObjectsRewrite(env, w, configs, AtDnat, p) == RulesRewrite(env, w, AllNats(configs), AtDnat, p)
  {
    if configs != [] {
      hide RulesRewrite, ItemsRewrite;
      var init, last := configs[..|configs| - 1], configs[|configs| - 1];
      DnatStage(env, w, init, p);
      ItemsLeave(env, w, last.interfaceRules, p);
      RewriteAppend(env, w, AllNats(init), last.natRules, AtDnat, p);
    }
  }

  // The prerouting chain does to a packet what the deciding rule says.
  lemma DecidedAt(env: Env, w: World, configs: seq<Config>, i: nat, j: nat, p: Packet)
    requires TranslatesAt(configs, i, j) && Decides(env, w, configs, i, j, p)
    ensures EvalNat(env, w, AllLines(env, configs), Prerouting, p)
         == ApplyNat(env, w, Translation(env, configs[i].natRules[j]), p)
    ensures EvalNat(env, w, AllLines(env, configs), Prerouting, p).To?
  {
    hide AllLines, ObjectsRewrite, RulesRewrite, AllNats, Earlier, Later, Removed, AllHold, Wants;
    var r := configs[i].natRules[j];
    assert NatJumps(Prerouting) == [ChainAt(AtDnat)];
    OneStage(env, w, configs, AtDnat, p);
    DnatStage(env, w, configs, p);
    AllNatsAt(configs, i, j);
    RewriteAppend(env, w, Earlier(configs, i, j) + [r], Later(configs, i, j), AtDnat, p);
    RewriteAppend(env, w, Earlier(configs, i, j), [r], AtDnat, p);
    RewriteOne(env, w, r, AtDnat, p);
    TranslationPerforms(env, w, r, p);
  }

  // ------------------------------------------------------------------ portmap

  lemma TranslationMeans(env: Env, r: NatRule, p: Packet)
    requires r.NatRule? && r.kind in {Portmap, Ipmap, Redirect}
    ensures AllHold(env, Translation(env, r).matches, p)
        <==> SourceOk(env, r, p) && AddressOk(env, r, p.v6, p.daddr)
             && (r.kind != Ipmap ==> p.proto == r.proto && p.dport in r.dport)
  {
    hide AllHold, SourceOk, AddressOk, NatMatch;
    DestinationMeans(env, r, p);
    HoldAppend(env, NatMatch(env, r), [Dport(r.proto, r.dport)], p);
    HoldOne(env, Dport(r.proto, r.dport), p);
  }

  lemma EvaluatedAsInterpreted(env: Env, d: Defaults, configs: seq<Config>, h: Hook, q: Packet)
    ensures EvalHook(env, d, AllLines(env, configs), h, q) == Consult(env, d, configs, h, Stages(h), q)
  {
    hide EvalJumps, Consult, AllLines, StagesOf, JumpsOf;
    HookJumps(h);
    HookStages(h);
    JumpsMean(env, d, configs, h, Jumps(h), q);
  }

  // The verdict on a packet that its own rule admits: connection state comes
  // first, then the earlier rules; one that returns skips the rest of the stage.
  function Admitted(env: Env, d: Defaults, configs: seq<Config>, before: Outcome, q: Packet): Verdict {
    match PreOutcome(d, Forward, q)
    case Final(v) => v
    case _ =>
      match before
      case Final(v) => v
      case Continue => Accept
      case Return => Consult(env, d, configs, Forward, [AtAuto, AtUser, AtPolicy], q)
  }

  function Passed(d: Defaults, q: Packet): Verdict {
    if d.allowEstablished && q.ct == Invalid then Drop else Accept
  }

  lemma AdmittedAtPortmap(env: Env, d: Defaults, configs: seq<Config>, before: Outcome, q: Packet)
    requires Objects(env, configs, Forward, AtPortmap, q) == Then(before, ACCEPTED)
    ensures EvalHook(env, d, AllLines(env, configs), Forward, q) == Admitted(env, d, configs, before, q)
  {
    hide Objects, AllLines, EvalHook;
    EvaluatedAsInterpreted(env, d, configs, Forward, q);
    ConsultNext(env, d, configs, Forward, [AtPre, AtPortmap, AtAuto, AtUser, AtPolicy], q);
    ConsultNext(env, d, configs, Forward, [AtPortmap, AtAuto, AtUser, AtPolicy], q);
  }

  // Earlier rules that only accept, or say nothing, change nothing.
  lemma QuietAdmits(env: Env, d: Defaults, configs: seq<Config>, i: nat, j: nat, q: Packet)
    requires At(configs, i, j) && RawIsQuiet(env, Earlier(configs, i, j), q)
    ensures Admitted(env, d, configs, Before(env, configs, i, j, q), q) == Passed(d, q)
  {
    hide Nats, Consult;
    NatsLenient(env, Earlier(configs, i, j), Forward, AtPortmap, q);
  }

  // The forward verdict on a packet that a portmap rule translated, in any
  // configuration.
  lemma PortmapIsForwarded(env: Env, w: World, d: Defaults, configs: seq<Config>, i: nat, j: nat, p: Packet, out: Dev)
    requires TranslatesAt(configs, i, j) && Decides(env, w, configs, i, j, p) && p.oif == None
    requires configs[i].natRules[j].kind == Portmap && configs[i].natRules[j].family in {Ip, Ip6}
    ensures EvalNat(env, w, AllLines(env, configs), Prerouting, p).To?
    ensures var q := EvalNat(env, w, AllLines(env, configs), Prerouting, p).packet.(oif := Some(out));
            EvalHook(env, d, AllLines(env, configs), Forward, q) == Admitted(env, d, configs, Before(env, configs, i, j, q), q)
  {
    hide AllHold, Objects, Translation, Before, Removed, AllLines, EvalHook, AddressOk, Admitted, EvalNat, RulesRewrite;
    var r := configs[i].natRules[j];
    DecidedAt(env, w, configs, i, j, p);
    TranslationPerforms(env, w, r, p);
    TranslationMeans(env, r, p);
    var q := EvalNat(env, w, AllLines(env, configs), Prerouting, p).packet.(oif := Some(out));
    SourceKept(env, r, p, q);
    RuleInStage(env, configs, i, j, q);
    AdmittedAtPortmap(env, d, configs, Before(env, configs, i, j, q), q);
  }

  // So it is accepted, unless conntrack calls it invalid, when no earlier raw
  // rule drops or returns it.
  lemma PortmapIsAccepted(env: Env, w: World, d: Defaults, configs: seq<Config>, i: nat, j: nat, p: Packet, out: Dev)
    requires TranslatesAt(configs, i, j) && Decides(env, w, configs, i, j, p) && p.oif == None
    requires configs[i].natRules[j].kind == Portmap && configs[i].natRules[j].family in {Ip, Ip6}
    ensures EvalNat(env, w, AllLines(env, configs), Prerouting, p).To?
    ensures var q := EvalNat(env, w, AllLines(env, configs), Prerouting, p).packet.(oif := Some(out));
            RawIsQuiet(env, Earlier(configs, i, j), q) ==>
              EvalHook(env, d, AllLines(env, configs), Forward, q) == Passed(d, p)
  {
    hide AllHold, Translation, RawIsQuiet, Earlier, AllLines, EvalHook, Admitted, Before, EvalNat, RulesRewrite, Wants;
    PortmapIsForwarded(env, w, d, configs, i, j, p, out);
    var q := EvalNat(env, w, AllLines(env, configs), Prerouting, p).packet.(oif := Some(out));
    SameState(env, w, configs, i, j, p);
    if RawIsQuiet(env, Earlier(configs, i, j), q) {
      QuietAdmits(env, d, configs, i, j, q);
    }
  }

  // Translation leaves the connection state, and where a packet came from, alone.
  lemma SameState(env: Env, w: World, configs: seq<Config>, i: nat, j: nat, p: Packet)
    requires TranslatesAt(configs, i, j) && Decides(env, w, configs, i, j, p)
    ensures var t := EvalNat(env, w, AllLines(env, configs), Prerouting, p);
            t.To? && t.packet.ct == p.ct && t.packet.iif == p.iif && t.packet.saddr == p.saddr
  {
    hide AllHold, AllLines, EvalNat, RulesRewrite, Wants, Translation;
    DecidedAt(env, w, configs, i, j, p);
    TranslationPerforms(env, w, configs[i].natRules[j], p);
  }

  lemma SourceKept(env: Env, r: NatRule, p: Packet, q: Packet)
    requires r.NatRule? && p.oif == None && SourceOk(env, r, p)
    requires q.v6 == p.v6 && q.iif == p.iif && q.saddr == p.saddr
    ensures SourceOk(env, r, q)
  {
  }

  lemma ConsultNext(env: Env, d: Defaults, configs: seq<Config>, h: Hook, stages: seq<Stage>, q: Packet)
    requires stages != []
    ensures Consult(env, d, configs, h, stages, q)
         == match (if stages[0] == AtPre then PreOutcome(d, h, q) else Objects(env, configs, h, stages[0], q))
            case Final(v) => v
            case _ => Consult(env, d, configs, h, stages[1..], q)
  {
  }

  // ----------------------------------------------------------------- redirect

  lemma {:induction false} ItemsLenient(env: Env, items: seq<InterfaceRule>, q: Packet)
    requires !Pings(q)
    ensures Lenient(Items(env, items, Input, AtAuto, q))
  {
    hide Pings, OnSubject;
    if items != [] {
      ItemsLenient(env, items[..|items| - 1], q);
    }
  }

  lemma {:induction false} InputNatsLenient(env: Env, rules: seq<NatRule>, q: Packet)
    ensures Lenient(Nats(env, rules, Input, AtAuto, q))
    ensures (exists r :: r in rules && NatOutcome(env, r, Input, AtAuto, q) == ACCEPTED)
            ==> Nats(env, rules, Input, AtAuto, q) == ACCEPTED
    ensures !q.dnat ==> Nats(env, rules, Input, AtAuto, q) == Continue
  {
    if rules != [] {
      var init, last := rules[..|rules| - 1], rules[|rules| - 1];
      assert rules == init + [last] && last in rules;
      InputNatsLenient(env, init, q);
      assert Lenient(NatOutcome(env, last, Input, AtAuto, q));
      assert !q.dnat ==> NatOutcome(env, last, Input, AtAuto, q) == Continue;
      hide NatOutcome;
    }
  }

  lemma {:induction false} RedirectStage(env: Env, configs: seq<Config>, r: NatRule, q: Packet)
    requires !Pings(q)
    ensures Lenient(Objects(env, configs, Input, AtAuto, q))
    ensures Configured(configs, r) && NatOutcome(env, r, Input, AtAuto, q) == ACCEPTED
            ==> Objects(env, configs, Input, AtAuto, q) == ACCEPTED
  {
    hide NatOutcome, Pings, Items;
    if configs != [] {
      var init, last := configs[..|configs| - 1], configs[|configs| - 1];
      RedirectStage(env, init, r, q);
      ItemsLenient(env, last.interfaceRules, q);
      InputNatsLenient(env, last.natRules, q);
      ConfiguredNext(configs, r);
    }
  }

  // The input rule of a redirect accepts what its prerouting rule translated, to
  // whatever local address, again unless conntrack calls the packet invalid.
  lemma RedirectIsAccepted(env: Env, w: World, d: Defaults, configs: seq<Config>, i: nat, j: nat, p: Packet)
    requires TranslatesAt(configs, i, j) && Decides(env, w, configs, i, j, p) && p.oif == None
    requires configs[i].natRules[j].kind == Redirect && configs[i].natRules[j].proto in {"tcp", "udp"}
    ensures EvalNat(env, w, AllLines(env, configs), Prerouting, p).To?
    ensures EvalHook(env, d, AllLines(env, configs), Input, EvalNat(env, w, AllLines(env, configs), Prerouting, p).packet)
         == if !Looped(d, p) && d.allowEstablished && p.ct == Invalid then Drop else Accept
  {
    hide AllHold, Objects, Translation, Configured, AllLines, EvalHook, AddressOk, EvalNat, RulesRewrite;
    var r := configs[i].natRules[j];
    DecidedAt(env, w, configs, i, j, p);
    TranslationPerforms(env, w, r, p);
    TranslationMeans(env, r, p);
    var q := EvalNat(env, w, AllLines(env, configs), Prerouting, p).packet;
    SourceKept(env, r, p, q);
    EvaluatedAsInterpreted(env, d, configs, Input, q);
    assert Configured(configs, r) by { AtIsConfigured(configs, i, j); }
    RedirectStage(env, configs, r, q);
    ConsultNext(env, d, configs, Input, [AtPre, AtAuto, AtUser, AtPolicy], q);
    ConsultNext(env, d, configs, Input, [AtAuto, AtUser, AtPolicy], q);
  }

  lemma AtIsConfigured(configs: seq<Config>, i: nat, j: nat)
    requires At(configs, i, j)
    ensures Configured(configs, configs[i].natRules[j])
  {
  }

  predicate Looped(d: Defaults, p: Packet) {
    d.allowLoopback && p.iif.Some? && p.iif.value.name == "lo"
  }

  // And it matches nothing else: exactly the packets that were translated and
  // whose original destination its prerouting rule matches.
  lemma RedirectAdmitsOnlyTranslated(env: Env, r: NatRule, q: Packet)
    requires r.NatRule? && r.kind == Redirect && r.oif == None
    ensures AllHold(env, Admission(env, r).rule.matches, q)
        <==> q.dnat && AllHold(env, Translation(env, r).matches, Original(q)) && q.dport in TargetPorts(r)
  {
    hide AllHold, Translation, AddressOk, Admission, TargetPorts;
    AdmissionMeans(env, r, q);
    AdmissionDecides(env, r, q);
    TranslationMeans(env, r, Original(q));
  }

  lemma AdmissionDecides(env: Env, r: NatRule, q: Packet)
    requires r.NatRule? && r.kind in {Portmap, Ipmap, Redirect}
    ensures AllHold(env, Admission(env, r).rule.matches, q) <==> Apply(env, Admission(env, r).rule, q) == ACCEPTED
  {
  }

  function WithoutNat(configs: seq<Config>): seq<Config> {
    if configs == [] then []
    else WithoutNat(configs[..|configs| - 1]) + [configs[|configs| - 1].(natRules := [])]
  }

  lemma {:induction false} StageWithoutNat(env: Env, configs: seq<Config>, st: Stage, q: Packet)
    requires !q.dnat && st in {AtAuto, AtUser, AtPolicy}
    ensures Objects(env, configs, Input, st, q) == Objects(env, WithoutNat(configs), Input, st, q)
  {
    hide Items, Users;
    if configs != [] {
      var init, last := configs[..|configs| - 1], configs[|configs| - 1];
      StageWithoutNat(env, init, st, q);
      InputNatsLenient(env, last.natRules, q);
      var rest := WithoutNat(configs);
      assert rest[..|rest| - 1] == WithoutNat(init);
    }
  }

  // So NAT rules open no port to a packet that was not translated.
  lemma NatOpensNothing(env: Env, d: Defaults, configs: seq<Config>, q: Packet)
    requires !q.dnat
    ensures EvalHook(env, d, AllLines(env, configs), Input, q)
         == EvalHook(env, d, AllLines(env, WithoutNat(configs)), Input, q)
  {
    hide Objects, AllLines, EvalHook, WithoutNat, PreOutcome;
    EvaluatedAsInterpreted(env, d, configs, Input, q);
    EvaluatedAsInterpreted(env, d, WithoutNat(configs), Input, q);
    StageWithoutNat(env, configs, AtAuto, q);
    StageWithoutNat(env, configs, AtUser, q);
    StageWithoutNat(env, configs, AtPolicy, q);
    ConsultSame(env, d, configs, WithoutNat(configs), Input, [AtPre, AtAuto, AtUser, AtPolicy], q);
  }

  lemma {:induction false} ConsultSame(
    env: Env, d: Defaults, a: seq<Config>, b: seq<Config>, h: Hook, stages: seq<Stage>, q: Packet)
    requires forall i :: 0 <= i < |stages| && stages[i] != AtPre ==>
               Objects(env, a, h, stages[i], q) == Objects(env, b, h, stages[i], q)
    ensures Consult(env, d, a, h, stages, q) == Consult(env, d, b, h, stages, q)
  {
    hide Objects, PreOutcome;
    if stages != [] {
      ConsultSame(env, d, a, b, h, stages[1..], q);
    }
  }

  // -------------------------------------------------------------------- ipmap

  // An ipmap's forward rule looks at the destination before translation, but
  // runs after it: it admits the packets that the ipmap translated if and only if
  // the target address also satisfies daddr and daddrNot.
  lemma IpmapAdmitsIff(env: Env, w: World, r: NatRule, p: Packet, out: Dev)
    requires r.NatRule? && r.kind == Ipmap && p.oif == None
    requires ApplyNat(env, w, Translation(env, r), p).To?
    ensures AllHold(env, Admission(env, r).rule.matches, ApplyNat(env, w, Translation(env, r), p).packet.(oif := Some(out)))
        <==> AddressOk(env, r, p.v6, r.to)
  {
    hide AllHold, AddressOk;
    TranslationPerforms(env, w, r, p);
    TranslationMeans(env, r, p);
    var q := ApplyNat(env, w, Translation(env, r), p).packet.(oif := Some(out));
    SourceKept(env, r, p, q);
    DestinationMeans(env, r, q);
  }

  lemma {:induction false} ForwardNatsContinue(env: Env, rules: seq<NatRule>, st: Stage, q: Packet)
    requires st != AtPortmap
    ensures Nats(env, rules, Forward, st, q) == Continue
  {
    if rules != [] {
      ForwardNatsContinue(env, rules[..|rules| - 1], st, q);
    }
  }

  // Only the portmap stage looks at the NAT rules of forwarded packets.
  lemma {:induction false} StageWithout(env: Env, a: seq<Config>, b: seq<Config>, st: Stage, q: Packet)
    requires st in {AtAuto, AtUser, AtPolicy} && |a| == |b|
    requires forall i :: 0 <= i < |a| ==> a[i].interfaceRules == b[i].interfaceRules && a[i].firewallRules == b[i].firewallRules
    ensures Objects(env, a, Forward, st, q) == Objects(env, b, Forward, st, q)
  {
    hide Items, Users, Nats;
    if a != [] {
      StageWithout(env, a[..|a| - 1], b[..|b| - 1], st, q);
      ForwardNatsContinue(env, a[|a| - 1].natRules, st, q);
      ForwardNatsContinue(env, b[|b| - 1].natRules, st, q);
    }
  }

  // A rule that says nothing of a packet might as well not be there.
  lemma SilentRule(env: Env, d: Defaults, configs: seq<Config>, i: nat, j: nat, q: Packet)
    requires At(configs, i, j) && NatOutcome(env, configs[i].natRules[j], Forward, AtPortmap, q) == Continue
    ensures EvalHook(env, d, AllLines(env, configs), Forward, q)
         == EvalHook(env, d, AllLines(env, Removed(configs, i, j)), Forward, q)
  {
    hide Objects, AllLines, EvalHook, PreOutcome, NatOutcome, RawIsQuiet;
    var without := Removed(configs, i, j);
    EvaluatedAsInterpreted(env, d, configs, Forward, q);
    EvaluatedAsInterpreted(env, d, without, Forward, q);
    RuleInStage(env, configs, i, j, q);
    StageWithout(env, configs, without, AtAuto, q);
    StageWithout(env, configs, without, AtUser, q);
    StageWithout(env, configs, without, AtPolicy, q);
    ConsultSame(env, d, configs, without, Forward, [AtPre, AtPortmap, AtAuto, AtUser, AtPolicy], q);
  }

  // The forward verdict on a packet that an ipmap translated, in any
  // configuration: the one of an admitted packet when the target address
  // satisfies daddr and daddrNot; otherwise the one without the rule.
  lemma IpmapIsForwarded(env: Env, w: World, d: Defaults, configs: seq<Config>, i: nat, j: nat, p: Packet, out: Dev)
    requires TranslatesAt(configs, i, j) && Decides(env, w, configs, i, j, p) && p.oif == None
    requires configs[i].natRules[j].kind == Ipmap
    ensures EvalNat(env, w, AllLines(env, configs), Prerouting, p).To?
    ensures var r := configs[i].natRules[j];
            var q := EvalNat(env, w, AllLines(env, configs), Prerouting, p).packet.(oif := Some(out));
            (EvalHook(env, d, AllLines(env, configs), Forward, q)
             == if AddressOk(env, r, p.v6, r.to) then Admitted(env, d, configs, Before(env, configs, i, j, q), q)
                else EvalHook(env, d, AllLines(env, Removed(configs, i, j)), Forward, q))
  {
    hide AllHold, Objects, Translation, Before, Removed, AllLines, EvalHook, AddressOk, Admitted, EvalNat, RulesRewrite;
    var r := configs[i].natRules[j];
    DecidedAt(env, w, configs, i, j, p);
    TranslationPerforms(env, w, r, p);
    TranslationMeans(env, r, p);
    var q := EvalNat(env, w, AllLines(env, configs), Prerouting, p).packet.(oif := Some(out));
    SourceKept(env, r, p, q);
    if AddressOk(env, r, p.v6, r.to) {
      RuleInStage(env, configs, i, j, q);
      AdmittedAtPortmap(env, d, configs, Before(env, configs, i, j, q), q);
    } else {
      SilentRule(env, d, configs, i, j, q);
    }
  }

  // So with a target that satisfies them it is accepted, unless conntrack calls
  // it invalid, when no earlier raw rule drops or returns it.
  lemma IpmapIsAccepted(env: Env, w: World, d: Defaults, configs: seq<Config>, i: nat, j: nat, p: Packet, out: Dev)
    requires TranslatesAt(configs, i, j) && Decides(env, w, configs, i, j, p) && p.oif == None
    requires configs[i].natRules[j].kind == Ipmap
    requires AddressOk(env, configs[i].natRules[j], p.v6, configs[i].natRules[j].to)
    ensures EvalNat(env, w, AllLines(env, configs), Prerouting, p).To?
    ensures var q := EvalNat(env, w, AllLines(env, configs), Prerouting, p).packet.(oif := Some(out));
            RawIsQuiet(env, Earlier(configs, i, j), q) ==>
              EvalHook(env, d, AllLines(env, configs), Forward, q) == Passed(d, p)
  {
    hide AllHold, Translation, RawIsQuiet, Earlier, Removed, AllLines, EvalHook, Admitted, Before, EvalNat, RulesRewrite,
         Wants, AddressOk;
    IpmapIsForwarded(env, w, d, configs, i, j, p, out);
    var q := EvalNat(env, w, AllLines(env, configs), Prerouting, p).packet.(oif := Some(out));
    SameState(env, w, configs, i, j, p);
    if RawIsQuiet(env, Earlier(configs, i, j), q) {
      QuietAdmits(env, d, configs, i, j, q);
    }
  }

  // An earlier raw rule has the say: with a forwardAllowRule that drops every
  // packet in front of it, an ipmap without daddr admits nothing new.
  lemma EarlierRawDrops(env: Env, w: World, skip: string, drop: string, to: nat, p: Packet, out: Dev)
    requires p.oif == None && !p.v6 && p.ct == New
    requires w.raw(skip, p) == Onward && forall q :: env.raw(drop, q) == Final(Drop)
    ensures var r := NatRule(Ipmap, Ip, None, None, None, None, None, "", {}, to, None, "", false, None);
            var c := Config(NO_DEFAULTS, [], [], [RawNat(RawKind, skip, false, Some(drop)), r]);
            && EvalNat(env, w, AllLines(env, [c]), Prerouting, p).To? && AddressOk(env, r, p.v6, r.to)
            && EvalHook(env, NO_DEFAULTS, AllLines(env, [c]), Forward,
                        EvalNat(env, w, AllLines(env, [c]), Prerouting, p).packet.(oif := Some(out))) == Drop
  {
    hide AllHold, EvalHook, AllLines, Nats, AllNats, EvalNat, RulesRewrite, Wants, Removed;
    var raw := RawNat(RawKind, skip, false, Some(drop));
    var r := NatRule(Ipmap, Ip, None, None, None, None, None, "", {}, to, None, "", false, None);
    var c := Config(NO_DEFAULTS, [], [], [raw, r]);
    assert AllNats([c][..0]) == [] by { NoNats([c][..0]); }
    assert Earlier([c], 0, 1) == [raw];
    RewriteOne(env, w, raw, AtDnat, p);
    TranslationMeans(env, r, p);
    IpmapIsForwarded(env, w, NO_DEFAULTS, [c], 0, 1, p, out);
    SameState(env, w, [c], 0, 1, p);
    NatsOne(env, raw, Forward, AtPortmap, EvalNat(env, w, AllLines(env, [c]), Prerouting, p).packet.(oif := Some(out)));
  }

  lemma NoNats(configs: seq<Config>)
    requires configs == []
    ensures AllNats(configs) == []
  {
  }

  const PUBLIC := 0xC6336407 // 198.51.100.7
  const INSIDE := 0x0A000005 // 10.0.0.5

  const HOST_MAP := NatRule(Ipmap, Ip, None, None, None, Some("198.51.100.7"), None, "", {}, INSIDE, None, "", false, None)

  const ONLY_HOST_MAP := Config(NO_DEFAULTS, [], [], [HOST_MAP])

  // The ordinary use, mapping one public address to a host inside: whatever the
  // interfaces, the packet is translated and then dropped.
  lemma IpmapCanDrop(env: Env, w: World, iface: Dev, out: Dev) returns (p: Packet)
    requires forall a :: env.inNet("198.51.100.7", a) <==> a == PUBLIC
    ensures p.iif == Some(iface) && p.oif == None
    ensures var t := EvalNat(env, w, AllLines(env, [ONLY_HOST_MAP]), Prerouting, p);
            && t.To? && t.packet.daddr == INSIDE
            && EvalHook(env, NO_DEFAULTS, AllLines(env, [ONLY_HOST_MAP]), Forward, t.packet.(oif := Some(out))) == Drop
  {
    p := Packet(Some(iface), None, false, "tcp", "", 1, PUBLIC, 1024, 80, New, false, PUBLIC, 80);
    hide AllHold, EvalHook, AllLines, EvalNat, RulesRewrite, Wants, AllNats;
    assert AllNats([ONLY_HOST_MAP][..0]) == [] by { NoNats([ONLY_HOST_MAP][..0]); }
    assert Earlier([ONLY_HOST_MAP], 0, 0) == [];
    assert RulesRewrite(env, w, [], AtDnat, p) == Onward by { NoRewrite(env, w, p); }
    TranslationMeans(env, HOST_MAP, p);
    DecidedAt(env, w, [ONLY_HOST_MAP], 0, 0, p);
    TranslationPerforms(env, w, HOST_MAP, p);
    SameState(env, w, [ONLY_HOST_MAP], 0, 0, p);
    IpmapIsForwarded(env, w, NO_DEFAULTS, [ONLY_HOST_MAP], 0, 0, p, out);
    var none := ONLY_HOST_MAP.(natRules := []);
    assert Removed([ONLY_HOST_MAP], 0, 0) == [none];
    NothingDrops(env, none, EvalNat(env, w, AllLines(env, [ONLY_HOST_MAP]), Prerouting, p).packet.(oif := Some(out)));
  }

  lemma NoRewrite(env: Env, w: World, p: Packet)
    ensures RulesRewrite(env, w, [], AtDnat, p) == Onward
  {
  }

  lemma NothingDrops(env: Env, c: Config, q: Packet)
    requires c == Config(NO_DEFAULTS, [], [], []) && q.ct == New
    ensures EvalHook(env, NO_DEFAULTS, AllLines(env, [c]), Forward, q) == Drop
  {
    hide AllLines, EvalHook, Objects;
    EvaluatedAsInterpreted(env, NO_DEFAULTS, [c], Forward, q);
    forall st ensures Objects(env, [c], Forward, st, q) == Continue {
      SaysNothing(env, c, st, q);
    }
    ConsultNext(env, NO_DEFAULTS, [c], Forward, [AtPre, AtPortmap, AtAuto, AtUser, AtPolicy], q);
    ConsultNext(env, NO_DEFAULTS, [c], Forward, [AtPortmap, AtAuto, AtUser, AtPolicy], q);
    ConsultNext(env, NO_DEFAULTS, [c], Forward, [AtAuto, AtUser, AtPolicy], q);
    ConsultNext(env, NO_DEFAULTS, [c], Forward, [AtUser, AtPolicy], q);
    ConsultNext(env, NO_DEFAULTS, [c], Forward, [AtPolicy], q);
  }

  lemma SaysNothing(env: Env, c: Config, st: Stage, q: Packet)
    requires c == Config(NO_DEFAULTS, [], [], [])
    ensures Objects(env, [c], Forward, st, q) == Continue
  {
    assert [c][..0] == [];
  }
}
