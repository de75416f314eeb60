// The one-line XFRM inventory of iproute2 and the ownership tests made on it
// (src/dros/xfrm_delete.py:187-413). Policies and states are the entries of the
// SPD and the SAD of section 4.4 of RFC 4301.
module XfrmInventory {
  import opened Wrappers
  import opened Sequences
  import opened Texts
  import opened Numerals

  datatype Kind = Policies | States

  type Fields = map<string, string>

  // One parsed line. None stands for an absent selector section; the last
  // template is the one that a following "proto" section completes.
  datatype Record = Record(fields: Fields, sel: Option<Fields>, tmpl: seq<Fields>, unrecognized: bool)

  // XfrmDirection
  datatype Direction = Direction(
    dir: string, src: string, dst: string, selectorProto: string, spi: nat, reqid: nat)

  // What the ipaddress module computes: the host part of an address with an
  // optional prefix length, the number of addresses it covers, and the host
  // written with the full prefix length. None is a ValueError.
  datatype Addresses = Addresses(
    host: string -> Option<string>, size: string -> Option<nat>, hostPrefix: string -> string)

  // -------------------------------------------------------------- the parser

  const SELECTOR_FIELDS := {"src", "dst", "proto", "sport", "dport", "dev", "ifindex", "uid"}
  const NARROWING_FIELDS := {"sport", "dport", "dev", "ifindex", "uid"}
  const SCOPE_FIELDS := {"mark", "if_id", "ifid", "ctx", "secctx", "offload", "encap", "output_mark"}

  // _pairs: alternating keys and values, each key allowed and new.
  function PairsOf(words: seq<string>, allowed: set<string>): Option<Fields> {
    if words == [] then Some(map[])
    else if |words| == 1 then None
    else
      match PairsOf(words[..|words| - 2], allowed)
      case None => None
      case Some(fields) =>
        var key := words[|words| - 2];
        if key !in allowed || key in fields then None else Some(fields[key := words[|words| - 1]])
  }

  method Pairs(text: string, allowed: set<string>) returns (result: Option<Fields>)
    ensures result == PairsOf(Words(text), allowed)
  {
    var words := Words(text);
    if |words| % 2 != 0 {
      OddPairs(words, allowed);
      return None;
    }
    var fields: Fields := map[];
    var i := 0;
    while i < |words|
      invariant 0 <= i <= |words| && i % 2 == 0
      invariant PairsOf(words[..i], allowed) == Some(fields)
    {
      assert words[..i + 2][..i] == words[..i];
      if words[i] !in allowed || words[i] in fields {
        FailedPairs(words, i + 2, allowed);
        return None;
      }
      fields := fields[words[i] := words[i + 1]];
      i := i + 2;
    }
    assert words[..i] == words;
    return Some(fields);
  }

  lemma {:induction false} OddPairs(words: seq<string>, allowed: set<string>)
    requires |words| % 2 != 0
    ensures PairsOf(words, allowed) == None
  {
    if |words| > 1 {
      OddPairs(words[..|words| - 2], allowed);
    }
  }

  lemma {:induction false} FailedPairs(words: seq<string>, n: nat, allowed: set<string>)
    requires n <= |words| && (|words| - n) % 2 == 0
    requires PairsOf(words[..n], allowed) == None
    ensures PairsOf(words, allowed) == None
    decreases |words|
  {
    if n == |words| {
      assert words[..n] == words;
    } else {
      assert words[..|words| - 2][..n] == words[..n];
      FailedPairs(words[..|words| - 2], n, allowed);
    }
  }

  predicate IsDigit(c: char) {
    '0' <= c <= '9'
  }

  // [0-9]{4}-[0-9]{2}-[0-9]{2} [0-9]{2}:[0-9]{2}:[0-9]{2}
  predicate IsTimestamp(t: string) {
    && |t| == 19
    && t[4] == '-' && t[7] == '-' && t[10] == ' ' && t[13] == ':' && t[16] == ':'
    && forall i :: 0 <= i < 19 && i !in {4, 7, 10, 13, 16} ==> IsDigit(t[i])
  }

  predicate IsLastUsed(section: string) {
    && "lastused " <= section
    && (section[9..] == "-" || section[9..] == "invalid-time" || IsTimestamp(section[9..]))
  }

  const STATE_FIELDS := {"proto", "spi", "reqid", "mode"}
  const POLICY_FIELDS := {"dir", "priority", "ptype", "action"}
  const TEMPLATE_FIELDS := {"proto", "spi", "reqid", "mode", "level"}

  // What a section that was read into values (None: it raised) does to the item.
  function AddFields(item: Record, values: Option<Fields>): Option<Record> {
    if values.None? || values.value.Keys * item.fields.Keys != {} then None
    else Some(item.(fields := item.fields + values.value))
  }

  function AddSelector(item: Record, values: Option<Fields>): Option<Record> {
    if item.sel.Some? || values.None? then None else Some(item.(sel := values))
  }

  function AddTemplate(item: Record, values: Option<Fields>): Option<Record> {
    if values.None? then None else Some(item.(tmpl := item.tmpl + [values.value]))
  }

  function CompleteTemplate(item: Record, values: Option<Fields>): Option<Record>
    requires item.tmpl != []
  {
    var last := item.tmpl[|item.tmpl| - 1];
    if values.None? || values.value.Keys * last.Keys != {} then None
    else
      Some(item.(
        tmpl := item.tmpl[|item.tmpl| - 1 := last + values.value],
        unrecognized := item.unrecognized || GetOr(values.value, "level", "required") != "required"))
  }

  function ParsePolicySection(item: Record, section: string): Option<Record> {
    if "dir " <= section then AddFields(item, PairsOf(Words(section), POLICY_FIELDS))
    else if "tmpl " <= section then AddTemplate(item, PairsOf(Words(section[5..]), {"src", "dst"}))
    else if "proto " <= section && item.tmpl != [] then
      CompleteTemplate(item, PairsOf(Words(section), TEMPLATE_FIELDS))
    else Some(item.(unrecognized := true))
  }

  // Replay counters and usage times do not bear on ownership. A key that was
  // not redacted raises.
  function ParseStateSection(item: Record, section: string): Option<Record> {
    if "proto " <= section then AddFields(item, PairsOf(Words(section), STATE_FIELDS))
    else if "sel " <= section then AddSelector(item, PairsOf(Words(section[4..]), SELECTOR_FIELDS))
    else if "replay-window " <= section || "anti-replay context: " <= section then Some(item)
    else if IsLastUsed(section) then Some(item)
    else if "aead " <= section then if Contains(section, "<<Keys hidden>>") then Some(item) else None
    else Some(item.(unrecognized := true))
  }

  // None raises.
  function ParseSection(kind: Kind, item: Record, section: string): Option<Record> {
    if kind.Policies? then ParsePolicySection(item, section) else ParseStateSection(item, section)
  }

  // The non-empty sections of a line.
  function Cleaned(parts: seq<string>): seq<string> {
    if parts == [] then []
    else
      var rest := Cleaned(parts[1..]);
      if Strip(parts[0]) == "" then rest else [Strip(parts[0])] + rest
  }

  function Sections(line: string): seq<string> {
    Cleaned(SplitOn(line, '\\'))
  }

  function ParseSections(kind: Kind, first: Record, sections: seq<string>): Option<Record> {
    if sections == [] then Some(first)
    else
      match ParseSections(kind, first, sections[..|sections| - 1])
      case None => None
      case Some(item) => ParseSection(kind, item, sections[|sections| - 1])
  }

  function RequiredFields(kind: Kind): set<string> {
    if kind.Policies? then {"dir"} else STATE_FIELDS
  }

  function ParseFirst(kind: Kind, section: string): Option<Record> {
    if !("src " <= section) then None
    else
      match PairsOf(Words(section), if kind.Policies? then SELECTOR_FIELDS else {"src", "dst"})
      case None => None
      case Some(fields) =>
        if {"src", "dst"} <= fields.Keys then Some(Record(fields, None, [], false)) else None
  }

  function ParseRecord(kind: Kind, sections: seq<string>): Option<Record> {
    if sections == [] then None
    else
      match ParseFirst(kind, sections[0])
      case None => None
      case Some(first) =>
        match ParseSections(kind, first, sections[1..])
        case None => None
        case Some(item) => if RequiredFields(kind) <= item.fields.Keys then Some(item) else None
  }

  function ParseLine(kind: Kind, records: seq<Record>, line: string): Option<seq<Record>> {
    if Strip(line) == "" then Some(records)
    else
      match ParseRecord(kind, Sections(line))
      case None => None
      case Some(item) => Some(records + [item])
  }

  function ParseLines(kind: Kind, lines: seq<string>): Option<seq<Record>> {
    if lines == [] then Some([])
    else
      match ParseLines(kind, lines[..|lines| - 1])
      case None => None
      case Some(records) => ParseLine(kind, records, lines[|lines| - 1])
  }

  // _text_inventory
  method TextInventory(kind: Kind, text: string) returns (result: Option<seq<Record>>)
    ensures result == ParseLines(kind, SplitLines(text))
  {
    result := LinesInventory(kind, SplitLines(text));
  }

  method LinesInventory(kind: Kind, lines: seq<string>) returns (result: Option<seq<Record>>)
    ensures result == ParseLines(kind, lines)
  {
    var records: seq<Record> := [];
    for i := 0 to |lines|
      invariant ParseLines(kind, lines[..i]) == Some(records)
    {
      var next := NextRecord(kind, records, lines[i]);
      assert lines[..i + 1][..i] == lines[..i];
      if next.None? {
        FailedLines(kind, lines, i + 1);
        return None;
      }
      records := next.value;
    }
    assert lines[..|lines|] == lines;
    return Some(records);
  }

  method NextRecord(kind: Kind, records: seq<Record>, line: string) returns (result: Option<seq<Record>>)
    ensures result == ParseLine(kind, records, line)
  {
    if Strip(line) == "" {
      return Some(records);
    }
    var item := TextRecord(kind, Sections(line));
    if item.None? {
      return None;
    }
    return Some(records + [item.value]);
  }

  method TextRecord(kind: Kind, sections: seq<string>) returns (result: Option<Record>)
    ensures result == ParseRecord(kind, sections)
  {
    hide ParseSection, ParseFirst, ParseSections;
    if sections == [] {
      return None;
    }
    var first := ParseFirst(kind, sections[0]);
    if first.None? {
      return None;
    }
    var item := first.value;
    var rest := sections[1..];
    NoSectionsYet(kind, first.value, rest[..0]);
    for i := 0 to |rest|
      invariant ParseSections(kind, first.value, rest[..i]) == Some(item)
    {
      SectionsNext(kind, first.value, rest, i);
      var next := ParseSection(kind, item, rest[i]);
      if next.None? {
        FailedSections(kind, first.value, rest, i + 1);
        return None;
      }
      item := next.value;
    }
    assert rest[..|rest|] == rest;
    if RequiredFields(kind) <= item.fields.Keys {
      return Some(item);
    }
    return None;
  }

  lemma NoSectionsYet(kind: Kind, first: Record, sections: seq<string>)
    requires sections == []
    ensures ParseSections(kind, first, sections) == Some(first)
  {
  }

  lemma SectionsNext(kind: Kind, first: Record, sections: seq<string>, i: nat)
    requires i < |sections|
    ensures ParseSections(kind, first, sections[..i + 1])
         == match ParseSections(kind, first, sections[..i])
            case None => None
            case Some(item) => ParseSection(kind, item, sections[i])
  {
    hide ParseSection;
    assert sections[..i + 1][..i] == sections[..i];
  }

  lemma {:induction false} FailedLines(kind: Kind, lines: seq<string>, n: nat)
    requires n <= |lines| && ParseLines(kind, lines[..n]) == None
    ensures ParseLines(kind, lines) == None
    decreases |lines|
  {
    if n == |lines| {
      assert lines[..n] == lines;
    } else {
      assert lines[..|lines| - 1][..n] == lines[..n];
      FailedLines(kind, lines[..|lines| - 1], n);
    }
  }

  lemma {:induction false} FailedSections(kind: Kind, first: Record, sections: seq<string>, n: nat)
    requires n <= |sections| && ParseSections(kind, first, sections[..n]) == None
    ensures ParseSections(kind, first, sections) == None
    decreases |sections|
  {
    if n == |sections| {
      assert sections[..n] == sections;
    } else {
      assert sections[..|sections| - 1][..n] == sections[..n];
      FailedSections(kind, first, sections[..|sections| - 1], n);
    }
  }

  // ----------------------------------------------------------- ownership tests

  datatype Refusal = InvalidRecord | Ambiguous | NotOwned | Shared

  datatype PolicyId = PolicyId(dir: Option<string>, src: string, dst: string, proto: string)

  function Get(fields: Fields, key: string): Option<string> {
    if key in fields then Some(fields[key]) else None
  }

  function GetOr(fields: Fields, key: string, default: string): string {
    if key in fields then fields[key] else default
  }

  // _proto, where a missing protocol reads as the text of None
  function Proto(value: Option<string>): string {
    var text := if value.None? then "none" else Lower(value.value);
    if text == "47" then "gre" else if text == "17" then "udp" else if text == "50" then "esp" else text
  }

  function HostOf(ip: Addresses, fields: Fields, key: string): Option<string> {
    if key in fields then ip.host(fields[key]) else None
  }

  function SizeOf(ip: Addresses, fields: Fields, key: string): Option<nat> {
    if key in fields then ip.size(fields[key]) else None
  }

  function IntegerOf(fields: Fields, key: string): Option<nat> {
    if key in fields then ParseInteger(fields[key]) else None
  }

  function PolicySelector(item: Record): Fields {
    if item.sel.Some? then item.sel.value else item.fields
  }

  // The identity of a listed policy; None when its selector cannot be read.
  function PolicyIdentity(ip: Addresses, item: Record): Option<PolicyId> {
    var selector := PolicySelector(item);
    match (HostOf(ip, selector, "src"), HostOf(ip, selector, "dst"))
    case (Some(src), Some(dst)) =>
      Some(PolicyId(Get(item.fields, "dir"), src, dst, Proto(Get(selector, "proto"))))
    case _ => None
  }

  function TargetPolicyId(target: Direction): PolicyId {
    PolicyId(Some(target.dir), target.src, target.dst, target.selectorProto)
  }

  predicate Unscoped(item: Record) {
    !item.unrecognized && forall k :: k in SCOPE_FIELDS ==> GetOr(item.fields, k, "") == ""
  }

  predicate NotNarrowed(selector: Fields) {
    forall k :: k in NARROWING_FIELDS ==> GetOr(selector, k, "") == ""
  }

  predicate HostSelector(ip: Addresses, selector: Fields) {
    NotNarrowed(selector) && SizeOf(ip, selector, "src") == Some(1) && SizeOf(ip, selector, "dst") == Some(1)
  }

  predicate OwnedTemplate(ip: Addresses, t: Fields, target: Direction) {
    && HostOf(ip, t, "src") == Some(target.src)
    && HostOf(ip, t, "dst") == Some(target.dst)
    && "proto" in t && Proto(Get(t, "proto")) == "esp"
    && Get(t, "mode") == Some("transport")
    && IntegerOf(t, "reqid") == Some(target.reqid)
    && ("spi" in t ==> IntegerOf(t, "spi") == Some(0))
    && GetOr(t, "level", "required") == "required"
  }

  predicate OwnedPolicy(ip: Addresses, item: Record, target: Direction) {
    && Unscoped(item)
    && GetOr(item.fields, "action", "allow") == "allow"
    && GetOr(item.fields, "ptype", "main") == "main"
    && ("priority" in item.fields ==> IntegerOf(item.fields, "priority") == Some(0))
    && HostSelector(ip, PolicySelector(item))
    && |item.tmpl| == 1 && OwnedTemplate(ip, item.tmpl[0], target)
  }

  // Whether a listed state has the ESP identity of the target; None raises.
  function StateMatches(ip: Addresses, item: Record, target: Direction): Option<bool> {
    match (HostOf(ip, item.fields, "dst"), IntegerOf(item.fields, "spi"))
    case (Some(dst), Some(spi)) =>
      if dst != target.dst || spi != target.spi then Some(false)
      else if "proto" !in item.fields then None
      else Some(Proto(Get(item.fields, "proto")) == "esp")
    case _ => None
  }

  function PolicyMatches(ip: Addresses, item: Record, target: Direction): Option<bool> {
    match PolicyIdentity(ip, item)
    case None => None
    case Some(id) => Some(id == TargetPolicyId(target))
  }

  predicate OwnedState(ip: Addresses, item: Record, target: Direction) {
    var selector := if item.sel.Some? then item.sel.value else map[];
    && Unscoped(item)
    && HostOf(ip, item.fields, "src") == Some(target.src)
    && Get(item.fields, "mode") == Some("transport")
    && IntegerOf(item.fields, "reqid") == Some(target.reqid)
    && HostOf(ip, selector, "src") == Some(target.src)
    && HostOf(ip, selector, "dst") == Some(target.dst)
    && HostSelector(ip, selector)
    && "proto" in selector && Proto(Get(selector, "proto")) == target.selectorProto
  }

  function Matches(ip: Addresses, kind: Kind, item: Record, target: Direction): Option<bool> {
    if kind.Policies? then PolicyMatches(ip, item, target) else StateMatches(ip, item, target)
  }

  predicate Owned(ip: Addresses, kind: Kind, item: Record, target: Direction) {
    if kind.Policies? then OwnedPolicy(ip, item, target) else OwnedState(ip, item, target)
  }

  function HasIdentity(ip: Addresses, kind: Kind, target: Direction): Record -> bool {
    item => Matches(ip, kind, item, target) == Some(true)
  }

  // The listed entries with the identity of the target, in order.
  function Candidates(ip: Addresses, kind: Kind, items: seq<Record>, target: Direction): seq<Record> {
    Filter(items, HasIdentity(ip, kind, target))
  }

  predicate Readable(ip: Addresses, kind: Kind, items: seq<Record>, target: Direction) {
    forall i :: 0 <= i < |items| ==> Matches(ip, kind, items[i], target).Some?
  }

  lemma NoCandidates(ip: Addresses, kind: Kind, target: Direction)
    ensures Candidates(ip, kind, [], target) == []
  {
  }

  // matching_policy and matching_state
  method Matching(ip: Addresses, kind: Kind, items: seq<Record>, target: Direction)
    returns (result: Result<bool, Refusal>)
    ensures result == MatchingOf(ip, kind, items, target)
  {
    hide Matches, Owned, Filter;
    var candidates: seq<Record> := [];
    NoCandidates(ip, kind, target);
    for i := 0 to |items|
      invariant forall j :: 0 <= j < i ==> Matches(ip, kind, items[j], target).Some?
      invariant candidates == Candidates(ip, kind, items[..i], target)
    {
      FilterNext(items, i, HasIdentity(ip, kind, target));
      var same := Matches(ip, kind, items[i], target);
      if same.None? {
        return Failure(InvalidRecord);
      }
      if same.value {
        candidates := candidates + [items[i]];
      }
    }
    assert items[..|items|] == items;
    if candidates == [] {
      return Success(false);
    }
    if |candidates| != 1 {
      return Failure(Ambiguous);
    }
    if !Owned(ip, kind, candidates[0], target) {
      return Failure(NotOwned);
    }
    return Success(true);
  }

  function MatchingOf(ip: Addresses, kind: Kind, items: seq<Record>, target: Direction): Result<bool, Refusal> {
    var candidates := Candidates(ip, kind, items, target);
    if !Readable(ip, kind, items, target) then Failure(InvalidRecord)
    else if candidates == [] then Success(false)
    else if |candidates| != 1 then Failure(Ambiguous)
    else if !Owned(ip, kind, candidates[0], target) then Failure(NotOwned)
    else Success(true)
  }

  // Entry i alone has the identity of the target.
  ghost predicate Sole(ip: Addresses, kind: Kind, items: seq<Record>, target: Direction, i: int) {
    Only(items, HasIdentity(ip, kind, target), i)
  }

  // What the answers mean. True: exactly one entry has the identity, and it
  // passes the ownership test. False: every entry was read, and none has it.
  lemma MatchingIsUniqueOwned(ip: Addresses, kind: Kind, items: seq<Record>, target: Direction)
    ensures MatchingOf(ip, kind, items, target) == Success(true) <==>
              && Readable(ip, kind, items, target)
              && exists i :: Sole(ip, kind, items, target, i) && Owned(ip, kind, items[i], target)
    ensures MatchingOf(ip, kind, items, target) == Success(false) <==>
              forall j :: 0 <= j < |items| ==> Matches(ip, kind, items[j], target) == Some(false)
    ensures MatchingOf(ip, kind, items, target) == Failure(InvalidRecord) <==>
              exists j :: 0 <= j < |items| && Matches(ip, kind, items[j], target) == None
    ensures MatchingOf(ip, kind, items, target) == Failure(NotOwned) <==>
              && Readable(ip, kind, items, target)
              && exists i :: Sole(ip, kind, items, target, i) && !Owned(ip, kind, items[i], target)
  {
    var test := HasIdentity(ip, kind, target);
    FilterNone(items, test);
    if |Filter(items, test)| == 1 {
      var i := FilterOne(items, test);
      assert Sole(ip, kind, items, target, i);
    }
    forall i | Sole(ip, kind, items, target, i)
      ensures Filter(items, test) == [items[i]]
    {
      FilterOnly(items, test, i);
    }
    assert forall j :: 0 <= j < |items| ==>
        (test(items[j]) <==> Matches(ip, kind, items[j], target) == Some(true));
  }
}
