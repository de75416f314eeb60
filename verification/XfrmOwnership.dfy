// Which listed entries the uninstall takes for its own: those that read as the
// entry DROS installs, and no others (src/dros/xfrm_delete.py:187-201 and
// 332-413).
module XfrmOwnership {
  import opened Wrappers
  import opened Texts
  import opened Numerals
  import opened XfrmInventory
  import opened XfrmSections
  import opened XfrmListing

  // --------------------------------------------------------- entries as values

  // A selector by what it selects: two addresses, each with the number of hosts
  // it stands for, a protocol, and whatever narrows it further.
  datatype Selector = Selector(
    src: Option<string>, srcHosts: Option<nat>, dst: Option<string>, dstHosts: Option<nat>,
    proto: Option<string>, narrowed: set<string>)

  // The names that a template's, a policy's and a state's fields have when they
  // are left out are filled in.
  datatype Template = Template(
    src: Option<string>, dst: Option<string>, proto: Option<string>, mode: Option<string>,
    reqid: Option<nat>, spi: Option<nat>, level: string)

  datatype PolicyValue = PolicyValue(
    dir: Option<string>, selector: Selector, action: string, ptype: string, priority: Option<nat>,
    templates: seq<Template>, scope: set<string>, unrecognized: bool)

  datatype StateValue = StateValue(
    src: Option<string>, dst: Option<string>, proto: Option<string>, spi: Option<nat>, reqid: Option<nat>,
    mode: Option<string>, selector: Selector, scope: set<string>, unrecognized: bool)

  // The named fields that say something.
  function Said(fields: Fields, names: set<string>): set<string> {
    set n | n in names && n in fields && fields[n] != ""
  }

  function ProtoOf(fields: Fields): Option<string> {
    if "proto" in fields then Some(Proto(Some(fields["proto"]))) else None
  }

  function NumberOr(fields: Fields, name: string, default: nat): Option<nat> {
    if name in fields then IntegerOf(fields, name) else Some(default)
  }

  function ReadSelector(ip: Addresses, f: Fields, proto: Option<string>): Selector {
    Selector(HostOf(ip, f, "src"), SizeOf(ip, f, "src"), HostOf(ip, f, "dst"), SizeOf(ip, f, "dst"), proto,
             Said(f, {"sport", "dport", "dev", "ifindex", "uid"}))
  }

  function ReadTemplate(ip: Addresses, t: Fields): Template {
    Template(HostOf(ip, t, "src"), HostOf(ip, t, "dst"), ProtoOf(t), Get(t, "mode"), IntegerOf(t, "reqid"),
             NumberOr(t, "spi", 0), GetOr(t, "level", "required"))
  }

  function Scope(fields: Fields): set<string> {
    Said(fields, {"mark", "if_id", "ifid", "ctx", "secctx", "offload", "encap", "output_mark"})
  }

  // A selector section of its own takes the place of the policy's own fields; a
  // missing protocol is compared as text.
  function ReadPolicy(ip: Addresses, item: Record): PolicyValue {
    var f := item.fields;
    var sel := match item.sel case Some(s) => s case None => f;
    PolicyValue(
      Get(f, "dir"), ReadSelector(ip, sel, Some(Proto(Get(sel, "proto")))),
      GetOr(f, "action", "allow"), GetOr(f, "ptype", "main"), NumberOr(f, "priority", 0),
      seq(|item.tmpl|, i requires 0 <= i < |item.tmpl| => ReadTemplate(ip, item.tmpl[i])),
      Scope(f), item.unrecognized)
  }

  function ReadState(ip: Addresses, item: Record): StateValue {
    var f := item.fields;
    var sel := match item.sel case Some(s) => s case None => map[];
    StateValue(
      HostOf(ip, f, "src"), HostOf(ip, f, "dst"), ProtoOf(f), IntegerOf(f, "spi"), IntegerOf(f, "reqid"), Get(f, "mode"),
      ReadSelector(ip, sel, ProtoOf(sel)), Scope(f), item.unrecognized)
  }

  // Two hosts and the protocol, nothing narrower.
  function HostPair(d: Direction): Selector {
    Selector(Some(d.src), Some(1), Some(d.dst), Some(1), Some(d.selectorProto), {})
  }

  // What DROS installs for a direction.
  function OwnTemplate(d: Direction): Template {
    Template(Some(d.src), Some(d.dst), Some("esp"), Some("transport"), Some(d.reqid), Some(0), "required")
  }

  function OwnPolicy(d: Direction): PolicyValue {
    PolicyValue(
      Some(d.dir), HostPair(d), "allow", "main", Some(0),
      [OwnTemplate(d)], {}, false)
  }

  function OwnState(d: Direction): StateValue {
    StateValue(Some(d.src), Some(d.dst), Some("esp"), Some(d.spi), Some(d.reqid), Some("transport"), HostPair(d), {}, false)
  }

  predicate ReadsAsOwn(ip: Addresses, kind: Kind, item: Record, d: Direction) {
    if kind.Policies? then ReadPolicy(ip, item) == OwnPolicy(d) else ReadState(ip, item) == OwnState(d)
  }

  // ------------------------------------------------------------- the equivalence

  lemma UnscopedIff(item: Record)
    ensures Unscoped(item) <==> !item.unrecognized && Scope(item.fields) == {}
  {
    if Unscoped(item) {
      forall n ensures n !in Scope(item.fields) {
        assert n in SCOPE_FIELDS ==> GetOr(item.fields, n, "") == "";
      }
    } else if !item.unrecognized {
      var n :| n in SCOPE_FIELDS && GetOr(item.fields, n, "") != "";
      assert n in Scope(item.fields);
    }
  }

  lemma NotNarrowedIff(f: Fields)
    ensures NotNarrowed(f) <==> Said(f, {"sport", "dport", "dev", "ifindex", "uid"}) == {}
  {
    var said := Said(f, {"sport", "dport", "dev", "ifindex", "uid"});
    if NotNarrowed(f) {
      forall n ensures n !in said {
        assert n in NARROWING_FIELDS ==> GetOr(f, n, "") == "";
      }
    } else {
      var n :| n in NARROWING_FIELDS && GetOr(f, n, "") != "";
      assert n in said;
    }
  }

  lemma HostPairIff(ip: Addresses, f: Fields, proto: Option<string>, d: Direction)
    ensures ReadSelector(ip, f, proto) == HostPair(d)
       <==> HostSelector(ip, f) && HostOf(ip, f, "src") == Some(d.src) && HostOf(ip, f, "dst") == Some(d.dst)
            && proto == Some(d.selectorProto)
  {
    hide NotNarrowed, Said, HostOf, SizeOf;
    NotNarrowedIff(f);
  }

  lemma TemplateIff(ip: Addresses, t: Fields, d: Direction)
    ensures OwnedTemplate(ip, t, d)
       <==> ReadTemplate(ip, t) == OwnTemplate(d)
  {
    hide HostOf, Proto, ParseInteger;
  }

  lemma PolicyIff(ip: Addresses, item: Record, d: Direction)
    ensures PolicyMatches(ip, item, d) == Some(true) && OwnedPolicy(ip, item, d) <==> ReadPolicy(ip, item) == OwnPolicy(d)
  {
    hide HostOf, SizeOf, Proto, ParseInteger, HostSelector, OwnedTemplate, ReadTemplate, ReadSelector, Unscoped, Scope;
    var sel := PolicySelector(item);
    UnscopedIff(item);
    HostPairIff(ip, sel, Some(Proto(Get(sel, "proto"))), d);
    if |item.tmpl| == 1 {
      TemplateIff(ip, item.tmpl[0], d);
    }
    var read := ReadPolicy(ip, item);
    assert |read.templates| == |item.tmpl|;
    assert |item.tmpl| == 1 ==> read.templates == [ReadTemplate(ip, item.tmpl[0])];
    PrioritiesIff(item.fields);
  }

  lemma PrioritiesIff(f: Fields)
    ensures NumberOr(f, "priority", 0) == Some(0) <==> ("priority" in f ==> IntegerOf(f, "priority") == Some(0))
  {
  }

  lemma StateIff(ip: Addresses, item: Record, d: Direction)
    ensures StateMatches(ip, item, d) == Some(true) && OwnedState(ip, item, d) <==> ReadState(ip, item) == OwnState(d)
  {
    hide HostOf, SizeOf, Proto, IntegerOf, HostSelector, ReadSelector, Unscoped, Scope;
    var sel := if item.sel.Some? then item.sel.value else map[];
    UnscopedIff(item);
    HostPairIff(ip, sel, ProtoOf(sel), d);
  }

  // What an entry is recognised by: its direction, hosts and selector protocol, or
  // its destination and SPI, for ESP. Where these cannot be read it raises; a
  // state's protocol is only looked at when the rest agrees.
  lemma IdentityIff(ip: Addresses, item: Record, d: Direction)
    ensures var p, s := ReadPolicy(ip, item), ReadState(ip, item);
            && (Matches(ip, Policies, item, d) == None <==> p.selector.src == None || p.selector.dst == None)
            && (Matches(ip, Policies, item, d) == Some(true) <==>
                  && p.dir == Some(d.dir) && p.selector.src == Some(d.src) && p.selector.dst == Some(d.dst)
                  && p.selector.proto == Some(d.selectorProto))
            && (Matches(ip, States, item, d) == None <==>
                  || s.dst == None || s.spi == None
                  || (s.dst == Some(d.dst) && s.spi == Some(d.spi) && s.proto == None))
            && (Matches(ip, States, item, d) == Some(true) <==>
                  s.dst == Some(d.dst) && s.spi == Some(d.spi) && s.proto == Some("esp"))
  {
    hide HostOf, SizeOf, Proto, IntegerOf, Scope, ReadTemplate;
  }

  // An entry has the identity of a direction and passes its ownership test if and
  // only if it reads as what DROS installs for the direction.
  lemma OwnedIff(ip: Addresses, kind: Kind, item: Record, d: Direction)
    ensures Matches(ip, kind, item, d) == Some(true) && Owned(ip, kind, item, d) <==> ReadsAsOwn(ip, kind, item, d)
  {
    hide PolicyMatches, StateMatches, OwnedPolicy, OwnedState, ReadPolicy, ReadState;
    PolicyIff(ip, item, d);
    StateIff(ip, item, d);
  }

  // What the start installs does read so.
  lemma InstalledReadsAsOwn(ip: Addresses, kind: Kind, d: Direction)
    requires GoodDirection(ip, d)
    ensures ReadsAsOwn(ip, kind, RecordOf(ip, kind, d), d)
  {
    hide Matches, Owned, ReadsAsOwn, RecordOf, GoodDirection;
    RecordMatches(ip, kind, d, d);
    SelfIdentity(kind, d);
    RecordIsOwned(ip, kind, d);
    OwnedIff(ip, kind, RecordOf(ip, kind, d), d);
  }

  // An entry that has the identity, but differs in anything else, is refused: its
  // mode, request id, an address, a template, the selector's protocol or size, its
  // action, type, priority or level, or a field that scopes or narrows it.
  lemma DifferentIsRefused(ip: Addresses, kind: Kind, items: seq<Record>, n: nat, d: Direction)
    requires n < |items| && Matches(ip, kind, items[n], d) == Some(true) && !ReadsAsOwn(ip, kind, items[n], d)
    ensures MatchingOf(ip, kind, items, d).Failure?
  {
    hide Matches, Owned, ReadsAsOwn;
    OwnedIff(ip, kind, items[n], d);
    MatchingIsUniqueOwned(ip, kind, items, d);
    assert HasIdentity(ip, kind, d)(items[n]);
  }

  // So an entry is claimed exactly when every entry can be read, just one has the
  // identity, and that one reads as what DROS installs.
  lemma ClaimedIff(ip: Addresses, kind: Kind, items: seq<Record>, d: Direction)
    ensures MatchingOf(ip, kind, items, d) == Success(true) <==>
              && Readable(ip, kind, items, d)
              && exists n :: Sole(ip, kind, items, d, n) && ReadsAsOwn(ip, kind, items[n], d)
  {
    hide Matches, Owned, ReadsAsOwn, MatchingOf;
    MatchingIsUniqueOwned(ip, kind, items, d);
    forall n | Sole(ip, kind, items, d, n)
      ensures Owned(ip, kind, items[n], d) <==> ReadsAsOwn(ip, kind, items[n], d)
    {
      assert HasIdentity(ip, kind, d)(items[n]);
      OwnedIff(ip, kind, items[n], d);
    }
  }

  // The protocols go by number or by name, in either case.
  lemma ProtocolNames(text: string)
    ensures Proto(Some("47")) == "gre" && Proto(Some("17")) == "udp" && Proto(Some("50")) == "esp"
    ensures Proto(Some("GRE")) == "gre" && Proto(Some("UDP")) == "udp" && Proto(Some("ESP")) == "esp"
    ensures Lower(text) !in {"47", "17", "50"} ==> Proto(Some(text)) == Lower(text)
    ensures Proto(None) == "none"
  {
    assert Lower("GRE") == "gre" && Lower("UDP") == "udp" && Lower("ESP") == "esp";
    assert Lower("47") == "47" && Lower("17") == "17" && Lower("50") == "50";
  }
}
