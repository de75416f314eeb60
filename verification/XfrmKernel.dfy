// The kernel's XFRM policies and states, and installing a transport into them
// (src/dros/plugins/network_xfrm.py:178-201 and 300-426).
module XfrmKernel {
  import opened Wrappers
  import opened Sequences
  import opened Texts
  import opened XfrmInventory
  import opened XfrmListing
  import opened XfrmSections

  // ------------------------------------------------- directions of a transport

  datatype Party = PartyA | PartyB

  datatype PartyConfig = PartyConfig(publicIp: string, privateIp: Option<string>)

  // The fields of XfrmTransportConfig that decide identities; pairs are
  // (partyAToPartyB, partyBToPartyA).
  datatype TransportConfig = TransportConfig(
    localParty: Party, partyA: PartyConfig, partyB: PartyConfig,
    spi: (nat, nat), reqid: (nat, nat), selectorProto: string)

  function Remote(p: Party): Party {
    if p == PartyA then PartyB else PartyA
  }

  function PartyOf(c: TransportConfig, p: Party): PartyConfig {
    if p == PartyA then c.partyA else c.partyB
  }

  function PrivateIp(p: PartyConfig): string {
    if p.privateIp.Some? && p.privateIp.value != "" then p.privateIp.value else p.publicIp
  }

  // The material of the direction that leaves the party.
  function From(pair: (nat, nat), p: Party): nat {
    if p == PartyA then pair.0 else pair.1
  }

  // An address as the ipaddress module, and the kernel, write it.
  function Canonical(ip: Addresses, a: string): string {
    match ip.host(a)
    case Some(h) => h
    case None => a
  }

  // _resolve_transport and _direction, with the addresses as the kernel has them.
  function DirectionOf(ip: Addresses, c: TransportConfig, outgoing: bool): Direction {
    var here := Canonical(ip, PrivateIp(PartyOf(c, c.localParty)));
    var there := Canonical(ip, PartyOf(c, Remote(c.localParty)).publicIp);
    if outgoing then
      Direction("out", here, there, c.selectorProto, From(c.spi, c.localParty), From(c.reqid, c.localParty))
    else
      Direction("in", there, here, c.selectorProto,
                From(c.spi, Remote(c.localParty)), From(c.reqid, Remote(c.localParty)))
  }

  function Directions(ip: Addresses, c: TransportConfig): seq<Direction> {
    [DirectionOf(ip, c, true), DirectionOf(ip, c, false)]
  }

  // What the ipaddress module guarantees of the addresses it writes.
  ghost predicate ValidAddresses(ip: Addresses) {
    forall a, h :: ip.host(a) == Some(h) ==> GoodAddress(ip, h)
  }

  // What XfrmTransportConfig and _validate_transport accept.
  predicate ValidTransport(ip: Addresses, c: TransportConfig) {
    && ip.host(c.partyA.publicIp).Some? && ip.host(c.partyB.publicIp).Some?
    && ip.host(PrivateIp(c.partyA)).Some? && ip.host(PrivateIp(c.partyB)).Some?
    && (c.selectorProto == "gre" || c.selectorProto == "udp")
  }

  lemma ValidDirections(ip: Addresses, c: TransportConfig, outgoing: bool)
    requires ValidAddresses(ip) && ValidTransport(ip, c)
    ensures GoodDirection(ip, DirectionOf(ip, c, outgoing))
  {
    assert Lower("gre") == "gre" && Lower("udp") == "udp";
    hide GoodAddress;
    assert c.selectorProto == "gre" || c.selectorProto == "udp";
    PlainWords();
  }

  lemma PlainWords()
    ensures Plain("gre") && Plain("udp") && Plain("in") && Plain("out")
  {
  }

  // The address a party sends from: its private one, if it has any.
  function SendsFrom(p: PartyConfig): string {
    match p.privateIp
    case Some(a) => if |a| > 0 then a else p.publicIp
    case None => p.publicIp
  }

  // This end, and the other one.
  function Mine(c: TransportConfig): PartyConfig {
    match c.localParty
    case PartyA => c.partyA
    case PartyB => c.partyB
  }

  function Theirs(c: TransportConfig): PartyConfig {
    match c.localParty
    case PartyA => c.partyB
    case PartyB => c.partyA
  }

  // Whichever end this is: what party A sends carries the first number of each
  // pair, what party B sends the second; the local end sends from its own address
  // and receives there, and the remote end is known by its public address.
  lemma DirectionsByParty(ip: Addresses, c: TransportConfig)
    ensures var a, b := DirectionOf(ip, c, c.localParty == PartyA), DirectionOf(ip, c, c.localParty == PartyB);
            a.spi == c.spi.0 && a.reqid == c.reqid.0 && b.spi == c.spi.1 && b.reqid == c.reqid.1
    ensures var out, in_ := DirectionOf(ip, c, true), DirectionOf(ip, c, false);
            && out.dir == "out" && in_.dir == "in" && out.selectorProto == in_.selectorProto == c.selectorProto
            && out.src == in_.dst == Canonical(ip, SendsFrom(Mine(c)))
            && out.dst == in_.src == Canonical(ip, Theirs(c).publicIp)
  {
  }

  // -------------------------------------------------------------- the kernel

  // An entry as it is listed. It is plain when the kernel's own key for it has
  // host prefixes and no ports, mark or interface id: the commands of DROS name
  // such keys, and touch no other entry.
  datatype KernelEntry = KernelEntry(record: Record, plain: bool)

  predicate Hits(ip: Addresses, kind: Kind, e: KernelEntry, d: Direction) {
    e.plain && Matches(ip, kind, e.record, d) == Some(true)
  }

  function HitBy(ip: Addresses, kind: Kind, d: Direction): KernelEntry -> bool {
    (e: KernelEntry) => Hits(ip, kind, e, d)
  }

  function EntryOf(ip: Addresses, kind: Kind, d: Direction): KernelEntry {
    KernelEntry(RecordOf(ip, kind, d), true)
  }

  function Listed(entries: seq<KernelEntry>): seq<Record> {
    seq(|entries|, i requires 0 <= i < |entries| => entries[i].record)
  }

  function OneOf(ip: Addresses, kind: Kind, ds: seq<Direction>): KernelEntry -> bool {
    (e: KernelEntry) => exists i :: 0 <= i < |ds| && Hits(ip, kind, e, ds[i])
  }

  // The entries that have none of the keys, in order.
  function Others(ip: Addresses, kind: Kind, entries: seq<KernelEntry>, ds: seq<Direction>): seq<KernelEntry> {
    Drop(entries, OneOf(ip, kind, ds))
  }

  // An entry with a mark, an interface id, ports or a wider prefix is never taken out.
  lemma ScopedStay(ip: Addresses, kind: Kind, entries: seq<KernelEntry>, ds: seq<Direction>, e: KernelEntry)
    requires e in entries && !e.plain
    ensures e in Others(ip, kind, entries, ds)
  {
    FilterMember(entries, Not(OneOf(ip, kind, ds)), e);
  }

  lemma EntryHits(ip: Addresses, kind: Kind, d: Direction, target: Direction)
    requires GoodDirection(ip, d)
    ensures Hits(ip, kind, EntryOf(ip, kind, d), target) <==> SameIdentity(kind, d, target)
  {
    hide Matches, RecordOf, GoodDirection;
    RecordMatches(ip, kind, d, target);
    if SameIdentity(kind, d, target) {
    } else {
    }
  }

  // The entry with the key goes, if there is one.
  function Deleted(ip: Addresses, kind: Kind, entries: seq<KernelEntry>, d: Direction): seq<KernelEntry> {
    RemoveFirst(entries, HitBy(ip, kind, d))
  }

  // An addition is refused when the key is taken.
  predicate Free(ip: Addresses, kind: Kind, entries: seq<KernelEntry>, d: Direction) {
    Filter(entries, HitBy(ip, kind, d)) == []
  }

  class Kernel {
    var policies: seq<KernelEntry>
    var states: seq<KernelEntry>

    constructor (policies: seq<KernelEntry>, states: seq<KernelEntry>)
      ensures this.policies == policies && this.states == states
    {
      this.policies, this.states := policies, states;
    }

    function Entries(kind: Kind): seq<KernelEntry>
      reads this
    {
      if kind.Policies? then policies else states
    }

    // ip xfrm policy delete and ip xfrm state delete: the entry with the key
    // goes, or the command fails because there is none.
    method DeleteEntry(ip: Addresses, kind: Kind, d: Direction) returns (found: bool)
      modifies this
      ensures found <==> !Free(ip, kind, old(Entries(kind)), d)
      ensures Entries(kind) == Deleted(ip, kind, old(Entries(kind)), d)
      ensures forall other: Kind :: other != kind ==> Entries(other) == old(Entries(other))
    {
      found := !Free(ip, kind, Entries(kind), d);
      if kind.Policies? {
        policies := Deleted(ip, kind, policies, d);
      } else {
        states := Deleted(ip, kind, states, d);
      }
    }

    // ip xfrm policy add and ip xfrm state add: refused when the key is taken.
    method AddEntry(ip: Addresses, kind: Kind, d: Direction) returns (ok: bool)
      modifies this
      ensures ok <==> Free(ip, kind, old(Entries(kind)), d)
      ensures Entries(kind) == old(Entries(kind)) + if ok then [EntryOf(ip, kind, d)] else []
      ensures forall other: Kind :: other != kind ==> Entries(other) == old(Entries(other))
    {
      ok := Free(ip, kind, Entries(kind), d);
      if ok {
        if kind.Policies? {
          policies := policies + [EntryOf(ip, kind, d)];
        } else {
          states := states + [EntryOf(ip, kind, d)];
        }
      }
    }
  }

  // The kernel never holds two entries with one key.
  ghost predicate Unambiguous(ip: Addresses, kind: Kind, entries: seq<KernelEntry>) {
    forall d :: |Filter(entries, HitBy(ip, kind, d))| <= 1
  }

  lemma OthersNext(ip: Addresses, kind: Kind, entries: seq<KernelEntry>, ds: seq<Direction>, i: nat)
    requires i < |ds|
    ensures Drop(Others(ip, kind, entries, ds[..i]), HitBy(ip, kind, ds[i]))
         == Others(ip, kind, entries, ds[..i + 1])
  {
    hide Hits;
    var before, here := OneOf(ip, kind, ds[..i]), HitBy(ip, kind, ds[i]);
    FilterTwice(entries, Not(before), Not(here));
    forall x: KernelEntry
      ensures (!before(x) && !here(x)) == !OneOf(ip, kind, ds[..i + 1])(x)
    {
      if OneOf(ip, kind, ds[..i + 1])(x) {
        var j :| 0 <= j < i + 1 && Hits(ip, kind, x, ds[..i + 1][j]);
        assert j < i ==> ds[..i][j] == ds[..i + 1][j];
      }
      if before(x) {
        var j :| 0 <= j < i && Hits(ip, kind, x, ds[..i][j]);
        assert ds[..i + 1][j] == ds[..i][j];
      }
      if here(x) {
        assert ds[..i + 1][i] == ds[i];
      }
    }
    FilterSame(entries, Both(Not(before), Not(here)), Not(OneOf(ip, kind, ds[..i + 1])));
  }

  lemma OthersNone(ip: Addresses, kind: Kind, entries: seq<KernelEntry>)
    ensures Others(ip, kind, entries, []) == entries
  {
    FilterAll(entries, Not(OneOf(ip, kind, [])));
  }

  // Deleting the next key, when it is ambiguous nowhere.
  lemma DeleteNext(ip: Addresses, kind: Kind, entries: seq<KernelEntry>, ds: seq<Direction>, i: nat)
    requires i < |ds| && |Filter(entries, HitBy(ip, kind, ds[i]))| <= 1
    ensures Deleted(ip, kind, Others(ip, kind, entries, ds[..i]), ds[i]) == Others(ip, kind, entries, ds[..i + 1])
  {
    FilterFewer(entries, Not(OneOf(ip, kind, ds[..i])), HitBy(ip, kind, ds[i]));
    RemoveSole(Others(ip, kind, entries, ds[..i]), HitBy(ip, kind, ds[i]));
    OthersNext(ip, kind, entries, ds, i);
  }

  // -------------------------------------------------------- start and stop

  method DeleteAll(ip: Addresses, k: Kernel, kind: Kind, ds: seq<Direction>)
    requires Unambiguous(ip, kind, k.Entries(kind))
    modifies k
    ensures k.Entries(kind) == Others(ip, kind, old(k.Entries(kind)), ds)
    ensures forall other: Kind :: other != kind ==> k.Entries(other) == old(k.Entries(other))
  {
    ghost var entries := k.Entries(kind);
    OthersNone(ip, kind, entries);
    assert ds[..0] == [];
    for i := 0 to |ds|
      invariant k.Entries(kind) == Others(ip, kind, entries, ds[..i])
      invariant forall other: Kind :: other != kind ==> k.Entries(other) == old(k.Entries(other))
    {
      DeleteNext(ip, kind, entries, ds, i);
      var found := k.DeleteEntry(ip, kind, ds[i]);
    }
    assert ds[..|ds|] == ds;
  }

  // _stop_transport: failures are ignored.
  method StopTransport(ip: Addresses, k: Kernel, ds: seq<Direction>)
    requires Unambiguous(ip, Policies, k.policies) && Unambiguous(ip, States, k.states)
    modifies k
    ensures k.policies == Others(ip, Policies, old(k.policies), ds)
    ensures k.states == Others(ip, States, old(k.states), ds)
  {
    DeleteAll(ip, k, Policies, ds);
    assert k.Entries(States) == k.states;
    DeleteAll(ip, k, States, ds);
    assert k.Entries(Policies) == k.policies;
  }

  // What a start leaves of one kind of entries.
  function Restarted(ip: Addresses, kind: Kind, entries: seq<KernelEntry>, ds: seq<Direction>): seq<KernelEntry> {
    Others(ip, kind, entries, ds) + seq(|ds|, i requires 0 <= i < |ds| => EntryOf(ip, kind, ds[i]))
  }

  method AddBoth(ip: Addresses, k: Kernel, kind: Kind, ds: seq<Direction>, ghost entries: seq<KernelEntry>)
    returns (ok: bool)
    requires |ds| == 2 && GoodDirection(ip, ds[0]) && GoodDirection(ip, ds[1])
    requires k.Entries(kind) == Others(ip, kind, entries, ds)
    modifies k
    ensures ok <==> !SameIdentity(kind, ds[0], ds[1])
    ensures ok ==> k.Entries(kind) == Restarted(ip, kind, entries, ds)
    ensures !ok ==> k.Entries(kind) == Others(ip, kind, entries, ds) + [EntryOf(ip, kind, ds[0])]
    ensures forall other: Kind :: other != kind ==> k.Entries(other) == old(k.Entries(other))
  {
    hide Hits, EntryOf, GoodDirection;
    OthersHaveNone(ip, kind, entries, ds);
    ok := k.AddEntry(ip, kind, ds[0]);
    EntryHits(ip, kind, ds[0], ds[1]);
    FilterAppend(Others(ip, kind, entries, ds), [EntryOf(ip, kind, ds[0])], HitBy(ip, kind, ds[1]));
    FilterNone([EntryOf(ip, kind, ds[0])], HitBy(ip, kind, ds[1]));
    ok := k.AddEntry(ip, kind, ds[1]);
  }

  lemma OthersHaveNone(ip: Addresses, kind: Kind, entries: seq<KernelEntry>, ds: seq<Direction>)
    ensures forall i :: 0 <= i < |ds| ==> Free(ip, kind, Others(ip, kind, entries, ds), ds[i])
  {
    hide Hits;
    forall i | 0 <= i < |ds|
      ensures Free(ip, kind, Others(ip, kind, entries, ds), ds[i])
    {
      var others := Others(ip, kind, entries, ds);
      forall j | 0 <= j < |others|
        ensures !HitBy(ip, kind, ds[i])(others[j])
      {
        FilterMember(entries, Not(OneOf(ip, kind, ds)), others[j]);
      }
      FilterNone(others, HitBy(ip, kind, ds[i]));
    }
  }

  // start_xfrm: it raises exactly when the two directions collide on their ESP
  // identity, which leaves the first state behind; otherwise both directions
  // are installed. Entries with other keys stay, in order.
  method StartXfrm(ip: Addresses, k: Kernel, c: TransportConfig) returns (ok: bool)
    requires Unambiguous(ip, Policies, k.policies) && Unambiguous(ip, States, k.states)
    requires ValidAddresses(ip) && ValidTransport(ip, c)
    modifies k
    ensures ok <==> !SameIdentity(States, DirectionOf(ip, c, true), DirectionOf(ip, c, false))
    ensures ok ==> k.policies == Restarted(ip, Policies, old(k.policies), Directions(ip, c))
    ensures ok ==> k.states == Restarted(ip, States, old(k.states), Directions(ip, c))
    ensures ok ==> Joins(ip, c, k.policies, k.states)
    ensures !ok ==> k.policies == Others(ip, Policies, old(k.policies), Directions(ip, c))
    ensures !ok ==>
              k.states == Others(ip, States, old(k.states), Directions(ip, c)) + [EntryOf(ip, States, DirectionOf(ip, c, true))]
  {
    hide EntryOf, Others, Restarted, Unambiguous, GoodDirection, DirectionOf, ValidTransport, Joins;
    StartJoins(ip, c, k.policies, k.states);
    var ds := Directions(ip, c);
    ValidDirections(ip, c, true);
    ValidDirections(ip, c, false);
    StopTransport(ip, k, ds);
    ok := AddBoth(ip, k, States, ds, old(k.states));
    assert k.Entries(Policies) == k.policies;
    if ok {
      ok := AddBoth(ip, k, Policies, ds, old(k.policies));
      PoliciesDiffer(ip, c);
    }
    assert k.Entries(States) == k.states;
  }

  // The last two entries of each kind lead from here to there and back, and
  // carry the numbers of the party that sends.
  ghost predicate Joins(ip: Addresses, c: TransportConfig, policies: seq<KernelEntry>, states: seq<KernelEntry>) {
    var here, there := Canonical(ip, SendsFrom(Mine(c))), Canonical(ip, Theirs(c).publicIp);
    var proto := c.selectorProto;
    && (c.localParty == PartyA ==>
          EndWith(ip, policies, states, Direction("out", here, there, proto, c.spi.0, c.reqid.0),
                  Direction("in", there, here, proto, c.spi.1, c.reqid.1)))
    && (c.localParty == PartyB ==>
          EndWith(ip, policies, states, Direction("out", here, there, proto, c.spi.1, c.reqid.1),
                  Direction("in", there, here, proto, c.spi.0, c.reqid.0)))
  }

  ghost predicate EndWith(ip: Addresses, policies: seq<KernelEntry>, states: seq<KernelEntry>, out: Direction, in_: Direction) {
    var p, s := |policies|, |states|;
    && p >= 2 && policies[p - 2] == EntryOf(ip, Policies, out) && policies[p - 1] == EntryOf(ip, Policies, in_)
    && s >= 2 && states[s - 2] == EntryOf(ip, States, out) && states[s - 1] == EntryOf(ip, States, in_)
  }

  lemma StartJoins(ip: Addresses, c: TransportConfig, policies: seq<KernelEntry>, states: seq<KernelEntry>)
    ensures Joins(ip, c, Restarted(ip, Policies, policies, Directions(ip, c)), Restarted(ip, States, states, Directions(ip, c)))
  {
    hide EntryOf, DirectionOf, Others, Canonical;
    DirectionsByParty(ip, c);
  }

  lemma PoliciesDiffer(ip: Addresses, c: TransportConfig)
    ensures !SameIdentity(Policies, DirectionOf(ip, c, true), DirectionOf(ip, c, false))
  {
    assert DirectionOf(ip, c, true).dir[0] == 'o' && DirectionOf(ip, c, false).dir[0] == 'i';
  }

  // Whatever a start installed, the uninstall's inspection claims as its own.
  lemma StartedIsClaimed(ip: Addresses, kind: Kind, entries: seq<KernelEntry>, ds: seq<Direction>, i: nat)
    requires |ds| == 2 && i < 2 && GoodDirection(ip, ds[0]) && GoodDirection(ip, ds[1])
    requires !SameIdentity(kind, ds[0], ds[1])
    requires Readable(ip, kind, Listed(entries), ds[i])
    requires forall e :: e in entries && Matches(ip, kind, e.record, ds[i]) == Some(true) ==> e.plain
    ensures MatchingOf(ip, kind, Listed(Restarted(ip, kind, entries, ds)), ds[i]) == Success(true)
  {
    hide RecordOf, Matches, Owned, GoodDirection, TargetPolicyId, MatchingOf;
    var others := Others(ip, kind, entries, ds);
    var all := Restarted(ip, kind, entries, ds);
    RecordMatches(ip, kind, ds[0], ds[i]);
    RecordMatches(ip, kind, ds[1], ds[i]);
    RecordIsOwned(ip, kind, ds[i]);
    SelfIdentity(kind, ds[i]);
    SymmetricIdentity(kind);
    var at := |others| + i;
    forall j | 0 <= j < |all|
      ensures Matches(ip, kind, all[j].record, ds[i]).Some?
      ensures HasIdentity(ip, kind, ds[i])(all[j].record) <==> j == at
    {
      if j < |others| {
        assert all[j] == others[j];
        FilterMember(entries, Not(OneOf(ip, kind, ds)), others[j]);
        var n :| 0 <= n < |entries| && entries[n] == others[j];
        assert Listed(entries)[n] == others[j].record;
        assert !Hits(ip, kind, others[j], ds[i]);
      } else {
        assert all[j] == EntryOf(ip, kind, ds[j - |others|]);
      }
    }
    assert Sole(ip, kind, Listed(all), ds[i], at);
    MatchingIsUniqueOwned(ip, kind, Listed(all), ds[i]);
  }

  // Starting again changes nothing that is listed, and taking the keys out again
  // leaves what was there besides them.
  lemma StopUndoesStart(ip: Addresses, kind: Kind, entries: seq<KernelEntry>, ds: seq<Direction>)
    requires forall i :: 0 <= i < |ds| ==> GoodDirection(ip, ds[i])
    ensures Others(ip, kind, Restarted(ip, kind, entries, ds), ds) == Others(ip, kind, entries, ds)
    ensures Restarted(ip, kind, Restarted(ip, kind, entries, ds), ds) == Restarted(ip, kind, entries, ds)
  {
    hide EntryOf, Hits, GoodDirection;
    var test := OneOf(ip, kind, ds);
    var others := Others(ip, kind, entries, ds);
    var added := seq(|ds|, i requires 0 <= i < |ds| => EntryOf(ip, kind, ds[i]));
    FilterAppend(others, added, Not(test));
    forall i | 0 <= i < |others|
      ensures !test(others[i])
    {
      FilterMember(entries, Not(test), others[i]);
    }
    FilterAll(others, Not(test));
    forall i | 0 <= i < |added|
      ensures test(added[i])
    {
      EntryHits(ip, kind, ds[i], ds[i]);
      SelfIdentity(kind, ds[i]);
    }
    FilterNone(added, Not(test));
  }
}
