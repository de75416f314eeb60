// Packet marks: the firewall sets them, the policy routing rules match them
// (src/dros/plugins/network_firewall.py:383-414, 788-828 and
// src/dros/plugins/network_routing.py:434-439).
module FirewallMark {
  import opened Wrappers
  import opened Firewall

  // ----------------------------------------------------------- mark and mask

  datatype FwMark = FwMark(mark: bv32, mask: bv32)

  // The nft statement "meta mark set meta mark & ~mask | mark".
  function SetMark(m: bv32, f: FwMark): bv32 {
    (m & !f.mask) | f.mark
  }

  function In(m: bv32, mask: bv32): bv32 {
    m & mask
  }

  function Outside(m: bv32, mask: bv32): bv32 {
    m & !mask
  }

  predicate Disjoint(a: bv32, b: bv32) {
    a & b == 0
  }

  // The routing rule "fwmark mark/mask".
  predicate Matches(m: bv32, f: FwMark) {
    In(m, f.mask) == In(f.mark, f.mask)
  }

  predicate Within(f: FwMark) {
    Outside(f.mark, f.mask) == 0
  }

  // A marked packet matches, whatever mark it had and whatever the mask is.
  lemma SetThenMatches(m: bv32, f: FwMark)
    ensures Matches(SetMark(m, f), f)
  {
  }

  // Setting a mark keeps the bits outside the mask, for every packet, if and
  // only if the mark lies within its mask.
  lemma KeepsOtherBitsIff(f: FwMark)
    ensures (forall m :: Outside(SetMark(m, f), f.mask) == Outside(m, f.mask)) <==> Within(f)
  {
    SetOnZero(f);
    forall m | Within(f)
      ensures Outside(SetMark(m, f), f.mask) == Outside(m, f.mask)
    {
      SetKeepsOutside(m, f);
    }
    hide SetMark, Outside;
    if !Within(f) {
      assert Outside(SetMark(0, f), f.mask) != Outside(0, f.mask);
    }
  }

  lemma SetOnZero(f: FwMark)
    ensures Outside(SetMark(0, f), f.mask) == Outside(f.mark, f.mask)
    ensures Outside(0, f.mask) == 0
  {
  }

  lemma SetKeepsDisjoint(m: bv32, f: FwMark, other: bv32)
    requires Within(f) && Disjoint(f.mask, other)
    ensures In(SetMark(m, f), other) == In(m, other)
  {
  }

  lemma SetKeepsOutside(m: bv32, f: FwMark)
    requires Within(f)
    ensures Outside(SetMark(m, f), f.mask) == Outside(m, f.mask)
  {
  }

  lemma SameMark(a: FwMark, b: FwMark)
    requires Within(a) && Within(b) && a.mask == b.mask
    ensures In(a.mark, a.mask) == In(b.mark, a.mask) <==> a.mark == b.mark
  {
    InOwnMask(a);
    InOwnMask(b);
    hide In, Within, Outside;
  }

  lemma InOwnMask(f: FwMark)
    requires Within(f)
    ensures In(f.mark, f.mask) == f.mark
  {
  }

  // --------------------------------------------------- a sequence of settings

  function SetAll(m: bv32, fs: seq<FwMark>): bv32 {
    if fs == [] then m else SetMark(SetAll(m, fs[..|fs| - 1]), fs[|fs| - 1])
  }

  // The marks lie within their masks, and the masks are equal to or disjoint
  // from a given one.
  ghost predicate Around(fs: seq<FwMark>, mask: bv32) {
    forall i :: 0 <= i < |fs| ==> Within(fs[i]) && (fs[i].mask == mask || Disjoint(fs[i].mask, mask))
  }

  // The last mark set in the class of a mask.
  function LastOf(fs: seq<FwMark>, mask: bv32): Option<FwMark> {
    if fs == [] then None
    else if fs[|fs| - 1].mask == mask then Some(fs[|fs| - 1])
    else LastOf(fs[..|fs| - 1], mask)
  }

  // Each class holds the last mark set for it, or what it held before.
  lemma {:induction false} ClassHoldsLast(m: bv32, fs: seq<FwMark>, mask: bv32)
    requires Around(fs, mask)
    ensures match LastOf(fs, mask)
            case Some(f) => f.mask == mask && Within(f) && Matches(SetAll(m, fs), f)
            case None => In(SetAll(m, fs), mask) == In(m, mask)
  {
    hide SetMark, Within, In, Outside, Disjoint;
    if fs != [] {
      var init, last := fs[..|fs| - 1], fs[|fs| - 1];
      if last.mask == mask {
        SetThenMatches(SetAll(m, init), last);
      } else {
        ClassHoldsLast(m, init, mask);
        SetKeepsDisjoint(SetAll(m, init), last, mask);
      }
    }
  }

  // So a routing rule of a class that was marked matches exactly when it names
  // the last mark.
  lemma RuleMatchesLast(m: bv32, fs: seq<FwMark>, f: FwMark)
    requires Within(f) && Around(fs, f.mask) && LastOf(fs, f.mask).Some?
    ensures Matches(SetAll(m, fs), f) <==> LastOf(fs, f.mask) == Some(f)
  {
    hide SetMark, Within, In, Outside, Disjoint, SetAll;
    ClassHoldsLast(m, fs, f.mask);
    SameMark(LastOf(fs, f.mask).value, f);
  }

  // Bits outside all the masks are never touched.
  lemma {:induction false} OutsideAllKept(m: bv32, fs: seq<FwMark>, outside: bv32)
    requires forall i :: 0 <= i < |fs| ==> Within(fs[i]) && Disjoint(fs[i].mask, outside)
    ensures In(SetAll(m, fs), outside) == In(m, outside)
  {
    hide SetMark, Within, In, Outside, Disjoint;
    if fs != [] {
      var init, last := fs[..|fs| - 1], fs[|fs| - 1];
      OutsideAllKept(m, init, outside);
      SetKeepsDisjoint(SetAll(m, init), last, outside);
    }
  }

  // ------------------------------------------------------------ the compiler

  datatype MarkMatch = MarkMatch(iifs: set<string>, groups: set<string>, tcpDports: set<int>, udpDports: set<int>, icmp: bool)

  // One entry of spec.markRules; fwMark references are resolved. Rules are raw texts.
  datatype MarkItem = MarkItem(chains: seq<string>, rules: seq<string>, matching: Option<MarkMatch>, fwMark: FwMark)

  datatype Transport = AnyTransport | PortsOf(proto: string, ports: set<int>) | Icmp4

  datatype Step =
    | Marking(iifs: set<string>, groups: set<int>, transport: Transport, fwMark: FwMark)
    | RawStep(text: string)

  datatype MarkChain = MarkPrerouting | MarkOutput

  // The meaning of a raw rule in a mark chain: the mark it leaves.
  type RawMarks = (string, Packet, bv32) -> bv32

  predicate FromIngress(iifs: set<string>, groups: set<int>, p: Packet) {
    && (iifs != {} ==> p.iif.Some? && p.iif.value.name in iifs)
    && (groups != {} ==> p.iif.Some? && p.iif.value.group in groups)
  }

  predicate Carries(t: Transport, p: Packet) {
    match t
    case AnyTransport => true
    case PortsOf(proto, ports) => p.proto == proto && p.dport in ports
    case Icmp4 => !p.v6 && p.proto == "icmp"
  }

  function Mark(raw: RawMarks, s: Step, p: Packet, m: bv32): bv32 {
    match s
    case Marking(iifs, groups, transport, fwMark) =>
      if FromIngress(iifs, groups, p) && Carries(transport, p) then SetMark(m, fwMark) else m
    case RawStep(text) => raw(text, p, m)
  }

  // Setting a mark does not end a chain: every rule that matches applies.
  function MarkAll(raw: RawMarks, steps: seq<Step>, p: Packet, m: bv32): bv32 {
    if steps == [] then m
    else Mark(raw, steps[|steps| - 1], p, MarkAll(raw, steps[..|steps| - 1], p, m))
  }

  function GroupIds(env: Env, groups: set<string>): set<int> {
    set g | g in groups :: env.group(g)
  }

  // _structured_mark_rules
  function StructuredSteps(env: Env, item: MarkItem, chain: string): seq<Step> {
    if item.matching.None? then []
    else
      var match_ := item.matching.value;
      var iifs, groups := match_.iifs, GroupIds(env, match_.groups);
      var ingress := iifs != {} || groups != {};
      if ingress && chain == "output" then []
      else
        var steps :=
          (if match_.tcpDports != {} then [Marking(iifs, groups, PortsOf("tcp", match_.tcpDports), item.fwMark)] else [])
          + (if match_.udpDports != {} then [Marking(iifs, groups, PortsOf("udp", match_.udpDports), item.fwMark)] else [])
          + (if match_.icmp then [Marking(iifs, groups, Icmp4, item.fwMark)] else []);
        if steps == [] && ingress then [Marking(iifs, groups, AnyTransport, item.fwMark)] else steps
  }

  function ChainNamed(chain: string): MarkChain {
    if chain == "prerouting" then MarkPrerouting else MarkOutput
  }

  function RawSteps(rules: seq<string>): seq<Step> {
    if rules == [] then [] else RawSteps(rules[..|rules| - 1]) + [RawStep(rules[|rules| - 1])]
  }

  function ChainSteps(env: Env, item: MarkItem, chains: seq<string>, c: MarkChain): seq<Step> {
    if chains == [] then []
    else
      var chain := chains[|chains| - 1];
      ChainSteps(env, item, chains[..|chains| - 1], c)
      + if ChainNamed(chain) == c then RawSteps(item.rules) + StructuredSteps(env, item, chain) else []
  }

  function MarkSteps(env: Env, items: seq<MarkItem>, c: MarkChain): seq<Step> {
    if items == [] then []
    else
      var item := items[|items| - 1];
      MarkSteps(env, items[..|items| - 1], c) + ChainSteps(env, item, item.chains, c)
  }

  // _render_mark: the rules it adds to the two chains.
  method RenderMark(env: Env, items: seq<MarkItem>) returns (prerouting: seq<Step>, output: seq<Step>)
    ensures prerouting == MarkSteps(env, items, MarkPrerouting)
    ensures output == MarkSteps(env, items, MarkOutput)
  {
    hide StructuredSteps;
    prerouting, output := [], [];
    for i := 0 to |items|
      invariant prerouting == MarkSteps(env, items[..i], MarkPrerouting)
      invariant output == MarkSteps(env, items[..i], MarkOutput)
    {
      assert items[..i + 1][..i] == items[..i];
      var more, moreOut := RenderItem(env, items[i]);
      prerouting, output := prerouting + more, output + moreOut;
    }
    assert items[..|items|] == items;
  }

  method RenderItem(env: Env, item: MarkItem) returns (prerouting: seq<Step>, output: seq<Step>)
    ensures prerouting == ChainSteps(env, item, item.chains, MarkPrerouting)
    ensures output == ChainSteps(env, item, item.chains, MarkOutput)
  {
    hide StructuredSteps;
    prerouting, output := [], [];
    for i := 0 to |item.chains|
      invariant prerouting == ChainSteps(env, item, item.chains[..i], MarkPrerouting)
      invariant output == ChainSteps(env, item, item.chains[..i], MarkOutput)
    {
      var chain := item.chains[i];
      assert item.chains[..i + 1][..i] == item.chains[..i];
      var raw := CopyRules(item.rules);
      var steps := raw + StructuredSteps(env, item, chain);
      if ChainNamed(chain) == MarkPrerouting {
        prerouting := prerouting + steps;
      } else {
        output := output + steps;
      }
    }
    assert item.chains[..|item.chains|] == item.chains;
  }

  method CopyRules(rules: seq<string>) returns (steps: seq<Step>)
    ensures steps == RawSteps(rules)
  {
    steps := [];
    for i := 0 to |rules|
      invariant steps == RawSteps(rules[..i])
    {
      assert rules[..i + 1][..i] == rules[..i];
      steps := steps + [RawStep(rules[i])];
    }
    assert rules[..|rules|] == rules;
  }

  // ---------------------------------------------------- a direct interpreter

  // The item may ask for an ingress device by name and by group, or leave it open.
  predicate Enters(env: Env, match_: MarkMatch, p: Packet) {
    && (match_.iifs != {} ==> p.iif.Some? && p.iif.value.name in match_.iifs)
    && (match_.groups != {} ==> p.iif.Some? && exists g :: g in match_.groups && env.group(g) == p.iif.value.group)
  }

  predicate InChain(chain: string, c: MarkChain) {
    match c
    case MarkPrerouting => chain == "prerouting"
    case MarkOutput => chain != "prerouting"
  }

  lemma EntersIff(env: Env, match_: MarkMatch, p: Packet)
    ensures Enters(env, match_, p) <==> FromIngress(match_.iifs, GroupIds(env, match_.groups), p)
  {
    GroupsKept(env, match_.groups);
  }

  // The packets an item is about. An item that asks for an ingress device is
  // not about packets of the router itself, which have none.
  predicate Selects(env: Env, match_: MarkMatch, p: Packet) {
    && Enters(env, match_, p)
    && ( || (p.proto == "tcp" && p.dport in match_.tcpDports)
         || (p.proto == "udp" && p.dport in match_.udpDports)
         || (match_.icmp && !p.v6 && p.proto == "icmp")
         || (match_.tcpDports == {} && match_.udpDports == {} && !match_.icmp && (match_.iifs != {} || match_.groups != {})))
  }

  function RawMark(raw: RawMarks, rules: seq<string>, p: Packet, m: bv32): bv32 {
    if rules == [] then m else raw(rules[|rules| - 1], p, RawMark(raw, rules[..|rules| - 1], p, m))
  }

  // One visit of an item: its raw rules, then its mark.
  function Visit(raw: RawMarks, env: Env, item: MarkItem, p: Packet, m: bv32): bv32 {
    var before := RawMark(raw, item.rules, p, m);
    if item.matching.Some? && Selects(env, item.matching.value, p) then SetMark(before, item.fwMark) else before
  }

  // An item is visited once for each time it names the chain.
  function VisitChains(raw: RawMarks, env: Env, item: MarkItem, chains: seq<string>, c: MarkChain, p: Packet, m: bv32): bv32 {
    if chains == [] then m
    else
      var before := VisitChains(raw, env, item, chains[..|chains| - 1], c, p, m);
      if InChain(chains[|chains| - 1], c) then Visit(raw, env, item, p, before) else before
  }

  function InterpretMarks(raw: RawMarks, env: Env, items: seq<MarkItem>, c: MarkChain, p: Packet, m: bv32): bv32 {
    if items == [] then m
    else
      var item := items[|items| - 1];
      VisitChains(raw, env, item, item.chains, c, p, InterpretMarks(raw, env, items[..|items| - 1], c, p, m))
  }

  lemma {:induction false} MarkAppend(raw: RawMarks, a: seq<Step>, b: seq<Step>, p: Packet, m: bv32)
    ensures MarkAll(raw, a + b, p, m) == MarkAll(raw, b, p, MarkAll(raw, a, p, m))
  {
    if b == [] {
      assert a + b == a;
    } else {
      assert (a + b)[..|a + b| - 1] == a + b[..|b| - 1];
      MarkAppend(raw, a, b[..|b| - 1], p, m);
    }
  }

  lemma {:induction false} RawStepsMean(raw: RawMarks, rules: seq<string>, p: Packet, m: bv32)
    ensures MarkAll(raw, RawSteps(rules), p, m) == RawMark(raw, rules, p, m)
  {
    if rules != [] {
      RawStepsMean(raw, rules[..|rules| - 1], p, m);
      assert RawSteps(rules)[..|RawSteps(rules)| - 1] == RawSteps(rules[..|rules| - 1]);
    }
  }

  lemma MarkOne(raw: RawMarks, s: Step, p: Packet, m: bv32)
    ensures MarkAll(raw, [s], p, m) == Mark(raw, s, p, m)
    ensures MarkAll(raw, [], p, m) == m
  {
  }

  lemma MarkIf(raw: RawMarks, b: bool, s: Step, p: Packet, m: bv32)
    ensures MarkAll(raw, if b then [s] else [], p, m) == if b then Mark(raw, s, p, m) else m
  {
  }

  lemma GroupsKept(env: Env, groups: set<string>)
    ensures GroupIds(env, groups) == {} <==> groups == {}
  {
    if groups != {} {
      var g :| g in groups;
      assert env.group(g) in GroupIds(env, groups);
    }
  }

  // At most one of the three transports carries a packet.
  lemma TransportsMean(raw: RawMarks, iifs: set<string>, groups: set<int>, tcp: set<int>, udp: set<int>, icmp: bool, f: FwMark,
                       p: Packet, m: bv32)
    ensures MarkAll(raw, (if tcp != {} then [Marking(iifs, groups, PortsOf("tcp", tcp), f)] else [])
              + (if udp != {} then [Marking(iifs, groups, PortsOf("udp", udp), f)] else [])
              + (if icmp then [Marking(iifs, groups, Icmp4, f)] else []), p, m)
         == if FromIngress(iifs, groups, p)
               && (|| (p.proto == "tcp" && p.dport in tcp)
                   || (p.proto == "udp" && p.dport in udp)
                   || (icmp && !p.v6 && p.proto == "icmp"))
            then SetMark(m, f) else m
  {
    hide MarkAll, SetMark, FromIngress;
    var a := if tcp != {} then [Marking(iifs, groups, PortsOf("tcp", tcp), f)] else [];
    var b := if udp != {} then [Marking(iifs, groups, PortsOf("udp", udp), f)] else [];
    var c := if icmp then [Marking(iifs, groups, Icmp4, f)] else [];
    ThreeMark(raw, a, b, c, p, m);
    MarkIf(raw, tcp != {}, Marking(iifs, groups, PortsOf("tcp", tcp), f), p, m);
    var n := MarkAll(raw, a, p, m);
    MarkIf(raw, udp != {}, Marking(iifs, groups, PortsOf("udp", udp), f), p, n);
    var o := MarkAll(raw, b, p, n);
    MarkIf(raw, icmp, Marking(iifs, groups, Icmp4, f), p, o);
  }

  // The rules of an item mark exactly the packets it selects, once.
  lemma StructuredMeans(raw: RawMarks, env: Env, item: MarkItem, chain: string, p: Packet, m: bv32)
    requires InChain(chain, MarkOutput) ==> p.iif == None
    ensures MarkAll(raw, StructuredSteps(env, item, chain), p, m)
         == if item.matching.Some? && Selects(env, item.matching.value, p) then SetMark(m, item.fwMark) else m
  {
    hide MarkAll, SetMark, GroupIds, Carries, FromIngress, Enters;
    MarkOne(raw, RawStep(""), p, m);
    if item.matching.Some? {
      var match_ := item.matching.value;
      var iifs, groups := match_.iifs, GroupIds(env, match_.groups);
      EntersIff(env, match_, p);
      GroupsKept(env, match_.groups);
      IngressFacts(iifs, groups, p);
      TransportsMean(raw, iifs, groups, match_.tcpDports, match_.udpDports, match_.icmp, item.fwMark, p, m);
      MarkOne(raw, Marking(iifs, groups, AnyTransport, item.fwMark), p, m);
      assert Carries(AnyTransport, p) by { AlwaysCarried(p); }
    }
  }

  // No rule of an output chain asks for an ingress device.
  lemma NoIngressInOutput(env: Env, item: MarkItem)
    ensures forall s :: s in StructuredSteps(env, item, "output") ==> s.Marking? && s.iifs == {} && s.groups == {}
  {
  }

  lemma IngressFacts(iifs: set<string>, groups: set<int>, p: Packet)
    ensures iifs == {} && groups == {} ==> FromIngress(iifs, groups, p)
    ensures (iifs != {} || groups != {}) && p.iif == None ==> !FromIngress(iifs, groups, p)
  {
  }

  lemma AlwaysCarried(p: Packet)
    ensures Carries(AnyTransport, p)
  {
  }

  lemma ThreeMark(raw: RawMarks, a: seq<Step>, b: seq<Step>, c: seq<Step>, p: Packet, m: bv32)
    ensures MarkAll(raw, a + b + c, p, m) == MarkAll(raw, c, p, MarkAll(raw, b, p, MarkAll(raw, a, p, m)))
  {
    MarkAppend(raw, a, b, p, m);
    MarkAppend(raw, a + b, c, p, m);
  }

  lemma {:induction false} ChainsMean(
    raw: RawMarks, env: Env, item: MarkItem, chains: seq<string>, c: MarkChain, p: Packet, m: bv32)
    requires c == MarkOutput ==> p.iif == None
    ensures MarkAll(raw, ChainSteps(env, item, chains, c), p, m) == VisitChains(raw, env, item, chains, c, p, m)
  {
    if chains != [] {
      hide MarkAll, StructuredSteps, RawSteps, Selects, SetMark, RawMark;
      var init, chain := chains[..|chains| - 1], chains[|chains| - 1];
      ChainsMean(raw, env, item, init, c, p, m);
      var before := ChainSteps(env, item, init, c);
      var n := MarkAll(raw, before, p, m);
      if ChainNamed(chain) == c {
        var steps := StructuredSteps(env, item, chain);
        assert ChainSteps(env, item, chains, c) == before + (RawSteps(item.rules) + steps);
        MarkAppend(raw, before, RawSteps(item.rules) + steps, p, m);
        MarkAppend(raw, RawSteps(item.rules), steps, p, n);
        RawStepsMean(raw, item.rules, p, n);
        StructuredMeans(raw, env, item, chain, p, RawMark(raw, item.rules, p, n));
      } else {
        assert before + [] == before;
      }
    }
  }

  // The mark chains leave on every packet the mark the configuration asks for.
  lemma {:induction false} MarksPreserveMeaning(raw: RawMarks, env: Env, items: seq<MarkItem>, c: MarkChain, p: Packet, m: bv32)
    requires c == MarkOutput ==> p.iif == None
    ensures MarkAll(raw, MarkSteps(env, items, c), p, m) == InterpretMarks(raw, env, items, c, p, m)
  {
    if items != [] {
      hide MarkAll, ChainSteps, VisitChains;
      var init, item := items[..|items| - 1], items[|items| - 1];
      MarksPreserveMeaning(raw, env, init, c, p, m);
      MarkAppend(raw, MarkSteps(env, init, c), ChainSteps(env, item, item.chains, c), p, m);
      ChainsMean(raw, env, item, item.chains, c, p, MarkAll(raw, MarkSteps(env, init, c), p, m));
    }
  }

  // ----------------------------------------- the marks of a whole chain's run

  // The marks that an item asks for, once for each time it names the chain.
  function VisitMarks(env: Env, item: MarkItem, chains: seq<string>, c: MarkChain, p: Packet): seq<FwMark> {
    if chains == [] then []
    else
      VisitMarks(env, item, chains[..|chains| - 1], c, p)
      + if InChain(chains[|chains| - 1], c) && item.matching.Some? && Selects(env, item.matching.value, p)
        then [item.fwMark] else []
  }

  // The marks that the configuration asks for, in order.
  function Asked(env: Env, items: seq<MarkItem>, c: MarkChain, p: Packet): seq<FwMark> {
    if items == [] then []
    else
      var item := items[|items| - 1];
      Asked(env, items[..|items| - 1], c, p) + VisitMarks(env, item, item.chains, c, p)
  }

  // Raw rules leave the class alone.
  ghost predicate RawKeeps(raw: RawMarks, rules: seq<string>, mask: bv32) {
    forall r, p, m :: r in rules ==> In(raw(r, p, m), mask) == In(m, mask)
  }

  lemma SameBits(a: bv32, b: bv32, keep: bv32, set_: bv32, mask: bv32)
    requires a & mask == b & mask
    ensures ((a & keep) | set_) & mask == ((b & keep) | set_) & mask
  {
  }

  lemma SetMarkBits(m: bv32, f: FwMark, mask: bv32)
    ensures In(SetMark(m, f), mask) == ((m & !f.mask) | f.mark) & mask && In(m, mask) == m & mask
  {
  }

  // A class after a setting depends on the class before it.
  lemma SameClass(m: bv32, n: bv32, f: FwMark, mask: bv32)
    requires In(m, mask) == In(n, mask)
    ensures In(SetMark(m, f), mask) == In(SetMark(n, f), mask)
  {
    hide In, SetMark;
    SetMarkBits(m, f, mask);
    SetMarkBits(n, f, mask);
    SameBits(m, n, !f.mask, f.mark, mask);
  }

  lemma {:induction false} RawMarkKeeps(raw: RawMarks, rules: seq<string>, p: Packet, m: bv32, mask: bv32)
    requires RawKeeps(raw, rules, mask)
    ensures In(RawMark(raw, rules, p, m), mask) == In(m, mask)
  {
    if rules != [] {
      hide In;
      var init := rules[..|rules| - 1];
      assert RawKeeps(raw, init, mask);
      RawMarkKeeps(raw, init, p, m, mask);
    }
  }

  lemma {:induction false} SetAllAppend(m: bv32, a: seq<FwMark>, b: seq<FwMark>)
    ensures SetAll(m, a + b) == SetAll(SetAll(m, a), b)
  {
    hide SetMark;
    if b == [] {
      assert a + b == a;
    } else {
      assert (a + b)[..|a + b| - 1] == a + b[..|b| - 1];
      SetAllAppend(m, a, b[..|b| - 1]);
    }
  }

  lemma SetAllOne(m: bv32, f: FwMark)
    ensures SetAll(m, [f]) == SetMark(m, f) && SetAll(m, []) == m
  {
    hide SetMark;
    assert [f][..0] == [];
  }

  lemma {:induction false} VisitedClass(
    raw: RawMarks, env: Env, item: MarkItem, chains: seq<string>, c: MarkChain, p: Packet, m: bv32, n: bv32, mask: bv32)
    requires RawKeeps(raw, item.rules, mask) && In(m, mask) == In(n, mask)
    ensures In(VisitChains(raw, env, item, chains, c, p, m), mask)
         == In(SetAll(n, VisitMarks(env, item, chains, c, p)), mask)
  {
    hide In, SetMark, SetAll, Selects, RawMark, RawKeeps;
    SetAllOne(n, item.fwMark);
    if chains != [] {
      var init := chains[..|chains| - 1];
      VisitedClass(raw, env, item, init, c, p, m, n, mask);
      var before := VisitChains(raw, env, item, init, c, p, m);
      var set_ := SetAll(n, VisitMarks(env, item, init, c, p));
      RawMarkKeeps(raw, item.rules, p, before, mask);
      SameClass(RawMark(raw, item.rules, p, before), set_, item.fwMark, mask);
      SetAllAppend(n, VisitMarks(env, item, init, c, p), [item.fwMark]);
      SetAllAppend(n, VisitMarks(env, item, init, c, p), []);
      SetAllOne(set_, item.fwMark);
    }
  }

  // On a class that raw rules leave alone, the chain does what the marks asked
  // for do one after the other.
  lemma {:induction false} ClassFollows(
    raw: RawMarks, env: Env, items: seq<MarkItem>, c: MarkChain, p: Packet, m: bv32, mask: bv32)
    requires forall i :: 0 <= i < |items| ==> RawKeeps(raw, items[i].rules, mask)
    ensures In(InterpretMarks(raw, env, items, c, p, m), mask) == In(SetAll(m, Asked(env, items, c, p)), mask)
  {
    hide In, SetAll, VisitChains, VisitMarks, RawKeeps;
    if items == [] {
      SetAllOne(m, FwMark(0, 0));
    } else {
      var init, item := items[..|items| - 1], items[|items| - 1];
      ClassFollows(raw, env, init, c, p, m, mask);
      var before, set_ := InterpretMarks(raw, env, init, c, p, m), SetAll(m, Asked(env, init, c, p));
      VisitedClass(raw, env, item, item.chains, c, p, before, set_, mask);
      SetAllAppend(m, Asked(env, init, c, p), VisitMarks(env, item, item.chains, c, p));
    }
  }

  // The chain that the mark rules compile to, over marks in disjoint classes: a
  // routing rule of a class that the packet was marked in matches exactly when
  // it names the last mark asked for; in any other class it matches as before.
  lemma RoutingFollowsMarks(raw: RawMarks, env: Env, items: seq<MarkItem>, c: MarkChain, p: Packet, m: bv32, f: FwMark)
    requires c == MarkOutput ==> p.iif == None
    requires forall i :: 0 <= i < |items| ==> RawKeeps(raw, items[i].rules, f.mask)
    requires Within(f) && Around(Asked(env, items, c, p), f.mask)
    ensures Matches(MarkAll(raw, MarkSteps(env, items, c), p, m), f)
       <==> match LastOf(Asked(env, items, c, p), f.mask)
            case Some(last) => last == f
            case None => Matches(m, f)
  {
    hide MarkAll, Asked, In, Within, Around, LastOf, SetAll, InterpretMarks, MarkSteps, RawKeeps;
    var fs := Asked(env, items, c, p);
    MarksPreserveMeaning(raw, env, items, c, p, m);
    ClassFollows(raw, env, items, c, p, m, f.mask);
    ClassHoldsLast(m, fs, f.mask);
    if LastOf(fs, f.mask).Some? {
      RuleMatchesLast(m, fs, f);
    }
  }

  // And bits outside the masks of all marks asked for stay as they were.
  lemma ChainKeepsOthers(raw: RawMarks, env: Env, items: seq<MarkItem>, c: MarkChain, p: Packet, m: bv32, outside: bv32)
    requires c == MarkOutput ==> p.iif == None
    requires forall i :: 0 <= i < |items| ==> RawKeeps(raw, items[i].rules, outside)
    requires forall i :: 0 <= i < |Asked(env, items, c, p)| ==>
               Within(Asked(env, items, c, p)[i]) && Disjoint(Asked(env, items, c, p)[i].mask, outside)
    ensures In(MarkAll(raw, MarkSteps(env, items, c), p, m), outside) == In(m, outside)
  {
    hide MarkAll, Asked, In, Within, Disjoint, SetAll, InterpretMarks, MarkSteps, RawKeeps;
    MarksPreserveMeaning(raw, env, items, c, p, m);
    ClassFollows(raw, env, items, c, p, m, outside);
    OutsideAllKept(m, Asked(env, items, c, p), outside);
  }
}
