// Listings of XFRM entries as iproute2 prints them: reading one back recovers
// its entries, and the ownership tests claim them (src/dros/xfrm_delete.py:204-413).
module XfrmListing {
  import opened Wrappers
  import opened Texts
  import opened Numerals
  import opened XfrmInventory
  import opened XfrmSections

  // ----------------------------------------------------------- the round trip

  // One listed entry: a direction, the cells of its line, and for a state the
  // metadata sections in between.
  datatype Entry = Entry(d: Direction, cells: seq<Cell>, metadata: seq<string>)

  ghost predicate Prints(ip: Addresses, kind: Kind, e: Entry) {
    && GoodDirection(ip, e.d) && ValidCells(e.cells)
    && (forall i :: 0 <= i < |e.metadata| ==> StateMetadata(e.metadata[i]))
    && Cores(e.cells) == if kind.Policies? then PolicySections(ip, e.d) else StateSections(ip, e.d, e.metadata)
  }

  function RecordOf(ip: Addresses, kind: Kind, d: Direction): Record {
    if kind.Policies? then PolicyRecord(ip, d) else StateRecord(ip, d)
  }

  predicate SameIdentity(kind: Kind, d: Direction, e: Direction) {
    if kind.Policies? then TargetPolicyId(d) == TargetPolicyId(e) else d.dst == e.dst && d.spi == e.spi
  }

  function Lines(entries: seq<Entry>): seq<string> {
    seq(|entries|, i requires 0 <= i < |entries| => Line(entries[i].cells))
  }

  function Records(ip: Addresses, kind: Kind, entries: seq<Entry>): seq<Record> {
    seq(|entries|, i requires 0 <= i < |entries| => RecordOf(ip, kind, entries[i].d))
  }

  lemma LineParses(ip: Addresses, kind: Kind, e: Entry, records: seq<Record>)
    requires Prints(ip, kind, e)
    ensures ParseLine(kind, records, Line(e.cells)) == Some(records + [RecordOf(ip, kind, e.d)])
  {
    hide ParseRecord, Strip, Sections, Line, PolicyRecord, StateRecord, PolicySections, StateSections;
    LineSections(e.cells);
    if kind.Policies? {
      PolicyParses(ip, e.d);
    } else {
      StateParses(ip, e.d, e.metadata);
    }
    NoSections(kind);
    LineNotBlank(e.cells);
  }

  lemma NoSections(kind: Kind)
    ensures ParseRecord(kind, []) == None
  {
  }

  lemma {:induction false} JoinOnHasSeparator(parts: seq<string>)
    requires |parts| > 1
    ensures Strip(JoinOn(parts, '\\')) != ""
  {
    var text := JoinOn(parts, '\\');
    assert text[|parts[0]|] == '\\';
    StripNotBlank(text, |parts[0]|);
  }

  lemma LineNotBlank(cells: seq<Cell>)
    ensures cells != [] ==> Strip(Line(cells)) != ""
    ensures cells == [] ==> Cores(cells) == []
  {
    if cells != [] {
      JoinOnHasSeparator(CellTexts(cells) + [""]);
    }
  }

  lemma {:induction false} LinesParse(ip: Addresses, kind: Kind, entries: seq<Entry>)
    requires forall i :: 0 <= i < |entries| ==> Prints(ip, kind, entries[i])
    ensures ParseLines(kind, Lines(entries)) == Some(Records(ip, kind, entries))
  {
    hide ParseLine, Line, Prints, RecordOf;
    if entries != [] {
      var n := |entries| - 1;
      LinesParse(ip, kind, entries[..n]);
      assert Lines(entries)[..n] == Lines(entries[..n]);
      LineParses(ip, kind, entries[n], Records(ip, kind, entries[..n]));
      assert Records(ip, kind, entries) == Records(ip, kind, entries[..n]) + [RecordOf(ip, kind, entries[n].d)];
    }
  }

  // Printing any number of entries and reading the text back recovers them.
  lemma ListingRoundTrip(ip: Addresses, kind: Kind, entries: seq<Entry>)
    requires forall i :: 0 <= i < |entries| ==> Prints(ip, kind, entries[i])
    ensures ParseLines(kind, SplitLines(JoinLines(Lines(entries)))) == Some(Records(ip, kind, entries))
  {
    forall i | 0 <= i < |entries|
      ensures SingleLine(Lines(entries)[i])
    {
      assert Prints(ip, kind, entries[i]);
      LineIsSingle(entries[i].cells);
    }
    SplitJoin(Lines(entries));
    LinesParse(ip, kind, entries);
  }

  // The identity fields survive: a record matches exactly the directions that
  // share its identity, and it passes the ownership test of its own direction.
  lemma RecordMatches(ip: Addresses, kind: Kind, d: Direction, target: Direction)
    requires GoodDirection(ip, d)
    ensures Matches(ip, kind, RecordOf(ip, kind, d), target) == Some(SameIdentity(kind, d, target))
  {
    var r := RecordOf(ip, kind, d);
    ParsePrinted(d.spi);
    LowerEsp();
    if kind.Policies? {
      assert PolicySelector(r)["src"] == ip.hostPrefix(d.src) && PolicySelector(r)["dst"] == ip.hostPrefix(d.dst);
      assert PolicySelector(r)["proto"] == d.selectorProto && r.fields["dir"] == d.dir;
    } else {
      assert r.fields["dst"] == d.dst && r.fields["spi"] == Hex32(d.spi) && r.fields["proto"] == "esp";
    }
  }

  lemma LowerEsp()
    ensures Proto(Some("esp")) == "esp"
  {
  }

  lemma ParseZero()
    ensures ParseInteger("0") == Some(0)
  {
  }

  const PRINTED_FIELDS := {"src", "dst", "proto", "dir", "priority", "ptype", "spi", "reqid", "mode"}

  lemma PrintedIsUnscoped(item: Record)
    requires item.fields.Keys <= PRINTED_FIELDS && !item.unrecognized
    ensures Unscoped(item) && GetOr(item.fields, "action", "allow") == "allow"
  {
  }

  lemma PlainIsNotNarrowed(selector: Fields)
    requires selector.Keys <= {"src", "dst", "proto", "dir", "priority", "ptype"}
    ensures NotNarrowed(selector)
  {
  }

  lemma PolicyFields(ip: Addresses, d: Direction, f: Fields)
    requires f == SelectorFields(ip, d) + DirFields(d)
    ensures f.Keys == {"src", "dst", "proto", "dir", "priority", "ptype"} <= PRINTED_FIELDS
    ensures f["src"] == ip.hostPrefix(d.src) && f["dst"] == ip.hostPrefix(d.dst)
    ensures f["priority"] == "0" && f["ptype"] == "main"
  {
  }

  lemma PolicyIsOwned(ip: Addresses, d: Direction)
    requires GoodDirection(ip, d)
    ensures OwnedPolicy(ip, PolicyRecord(ip, d), d)
  {
    hide ParseInteger, Decimal, Hex32, Proto, SelectorFields, DirFields, HostFields, TemplateFields,
         OwnedTemplate, Unscoped, NotNarrowed;
    var r := PolicyRecord(ip, d);
    ParseZero();
    PolicyFields(ip, d, r.fields);
    PrintedIsUnscoped(r);
    PlainIsNotNarrowed(r.fields);
    TemplateIsOwned(ip, d);
  }

  lemma TemplateIsOwned(ip: Addresses, d: Direction)
    requires GoodDirection(ip, d)
    ensures OwnedTemplate(ip, HostFields(d) + TemplateFields(d), d)
  {
    hide ParseInteger, Decimal, Hex32, Proto;
    ParsePrinted(d.reqid);
    LowerEsp();
    assert HostFields(d) + TemplateFields(d)
        == map["src" := d.src, "dst" := d.dst, "proto" := "esp", "reqid" := Decimal(d.reqid), "mode" := "transport"];
  }

  lemma StateRecordFields(d: Direction, f: Fields)
    requires f == HostFields(d) + StateFields(d)
    ensures f.Keys == {"src", "dst", "proto", "spi", "reqid", "mode"} <= PRINTED_FIELDS
    ensures f["src"] == d.src && f["mode"] == "transport" && f["reqid"] == Decimal(d.reqid)
  {
  }

  lemma StateIsOwned(ip: Addresses, d: Direction)
    requires GoodDirection(ip, d)
    ensures OwnedState(ip, StateRecord(ip, d), d)
  {
    hide ParseInteger, Decimal, Hex32, Proto, HostFields, StateFields, Unscoped, NotNarrowed;
    var r := StateRecord(ip, d);
    ParsePrinted(d.reqid);
    StateRecordFields(d, r.fields);
    PrintedIsUnscoped(r);
    PlainIsNotNarrowed(r.sel.value);
  }

  lemma RecordIsOwned(ip: Addresses, kind: Kind, d: Direction)
    requires GoodDirection(ip, d)
    ensures Owned(ip, kind, RecordOf(ip, kind, d), d)
  {
    hide OwnedPolicy, OwnedState, PolicyRecord, StateRecord;
    PolicyIsOwned(ip, d);
    StateIsOwned(ip, d);
  }

  lemma PrintsGood(ip: Addresses, kind: Kind, e: Entry)
    requires Prints(ip, kind, e)
    ensures GoodDirection(ip, e.d)
  {
  }

  lemma SelfIdentity(kind: Kind, d: Direction)
    ensures SameIdentity(kind, d, d)
  {
  }

  lemma SymmetricIdentity(kind: Kind)
    ensures forall d, e :: SameIdentity(kind, d, e) ==> SameIdentity(kind, e, d)
  {
  }

  // In a printed listing of entries with distinct identities, the inventory
  // claims each of them, and reports any other identity as absent.
  lemma ListedIsClaimed(ip: Addresses, kind: Kind, entries: seq<Entry>, target: Direction)
    requires forall i :: 0 <= i < |entries| ==> Prints(ip, kind, entries[i])
    requires forall i, j :: 0 <= i < j < |entries| ==> !SameIdentity(kind, entries[i].d, entries[j].d)
    ensures (exists i :: 0 <= i < |entries| && entries[i].d == target) ==>
              MatchingOf(ip, kind, Records(ip, kind, entries), target) == Success(true)
    ensures (forall i :: 0 <= i < |entries| ==> !SameIdentity(kind, entries[i].d, target)) ==>
              MatchingOf(ip, kind, Records(ip, kind, entries), target) == Success(false)
  {
    hide RecordOf, MatchingOf, Owned, Matches, Prints, GoodDirection, TargetPolicyId;
    var records := Records(ip, kind, entries);
    forall i | 0 <= i < |entries|
      ensures Matches(ip, kind, records[i], target) == Some(SameIdentity(kind, entries[i].d, target))
    {
      assert Prints(ip, kind, entries[i]);
      PrintsGood(ip, kind, entries[i]);
      RecordMatches(ip, kind, entries[i].d, target);
    }
    MatchingIsUniqueOwned(ip, kind, records, target);
    if i :| 0 <= i < |entries| && entries[i].d == target {
      assert Prints(ip, kind, entries[i]);
      PrintsGood(ip, kind, entries[i]);
      RecordIsOwned(ip, kind, target);
      SelfIdentity(kind, target);
      SymmetricIdentity(kind);
      assert Sole(ip, kind, records, target, i);
    }
  }
}
