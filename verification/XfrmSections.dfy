// The sections that iproute2 prints for the entries DROS installs, and what the
// inventory reads from them (src/dros/plugins/network_xfrm.py:334-406,
// src/dros/xfrm_delete.py:204-287).
module XfrmSections {
  import opened Wrappers
  import opened Texts
  import opened Numerals
  import opened XfrmInventory

  // One section of a printed line with the white space around it.
  datatype Cell = Cell(left: string, core: string, right: string)

  predicate Padding(text: string) {
    forall i :: 0 <= i < |text| ==> text[i] in " \t"
  }

  predicate ValidCell(c: Cell) {
    Padding(c.left) && Padding(c.right) && Trimmed(c.core) && Lacks(c.core, '\\') && SingleLine(c.core)
  }

  function CellText(c: Cell): string {
    c.left + c.core + c.right
  }

  function CellTexts(cells: seq<Cell>): seq<string> {
    seq(|cells|, i requires 0 <= i < |cells| => CellText(cells[i]))
  }

  function Cores(cells: seq<Cell>): seq<string> {
    seq(|cells|, i requires 0 <= i < |cells| => cells[i].core)
  }

  predicate ValidCells(cells: seq<Cell>) {
    forall i :: 0 <= i < |cells| ==> ValidCell(cells[i])
  }

  // Every section is followed by a backslash.
  function Line(cells: seq<Cell>): string {
    JoinOn(CellTexts(cells) + [""], '\\')
  }

  lemma CleanedFirst(parts: seq<string>, core: string)
    requires parts != [] && core != "" && Strip(parts[0]) == core
    ensures Cleaned(parts) == [core] + Cleaned(parts[1..])
  {
  }

  lemma CleanedEmpty()
    ensures Cleaned([""]) == []
  {
  }

  lemma {:induction false} CleanedCells(cells: seq<Cell>)
    requires ValidCells(cells)
    ensures Cleaned(CellTexts(cells) + [""]) == Cores(cells)
  {
    hide Cleaned, Strip;
    if cells == [] {
      CleanedEmpty();
      assert CellTexts(cells) + [""] == [""];
    } else {
      var parts := CellTexts(cells) + [""];
      CleanedCells(cells[1..]);
      assert parts[1..] == CellTexts(cells[1..]) + [""];
      StripPadded(cells[0].left, cells[0].core, cells[0].right);
      CleanedFirst(parts, cells[0].core);
      assert Cores(cells) == [cells[0].core] + Cores(cells[1..]);
    }
  }

  lemma LineSections(cells: seq<Cell>)
    requires ValidCells(cells)
    ensures Sections(Line(cells)) == Cores(cells)
  {
    var parts := CellTexts(cells) + [""];
    forall i | 0 <= i < |parts|
      ensures Lacks(parts[i], '\\')
    {
      if i < |cells| {
        assert parts[i] == CellText(cells[i]);
      }
    }
    SplitOnJoin(parts, '\\');
    CleanedCells(cells);
  }

  lemma {:induction false} JoinOnSingleLine(parts: seq<string>)
    requires forall i :: 0 <= i < |parts| ==> SingleLine(parts[i])
    ensures SingleLine(JoinOn(parts, '\\'))
  {
    if |parts| > 1 {
      JoinOnSingleLine(parts[1..]);
    }
  }

  lemma LineIsSingle(cells: seq<Cell>)
    requires ValidCells(cells)
    ensures SingleLine(Line(cells))
  {
    forall i | 0 <= i < |CellTexts(cells) + [""]|
      ensures SingleLine((CellTexts(cells) + [""])[i])
    {
      if i < |cells| {
        assert (CellTexts(cells) + [""])[i] == CellText(cells[i]);
      }
    }
    JoinOnSingleLine(CellTexts(cells) + [""]);
  }

  // ----------------------------------------------------------- printed fields

  predicate Plain(w: string) {
    IsWord(w) && Lacks(w, '\\')
  }

  // What an address of a transport has to satisfy: the ipaddress module reads
  // it, alone and as a host prefix, as itself.
  predicate GoodAddress(ip: Addresses, a: string) {
    && Plain(a) && Plain(ip.hostPrefix(a))
    && ip.host(a) == Some(a) && ip.host(ip.hostPrefix(a)) == Some(a)
    && ip.size(ip.hostPrefix(a)) == Some(1)
  }

  predicate GoodDirection(ip: Addresses, d: Direction) {
    && GoodAddress(ip, d.src) && GoodAddress(ip, d.dst)
    && Plain(d.dir) && Plain(d.selectorProto) && Proto(Some(d.selectorProto)) == d.selectorProto
  }

  function SelectorWords(ip: Addresses, d: Direction): seq<string> {
    ["src", ip.hostPrefix(d.src), "dst", ip.hostPrefix(d.dst), "proto", d.selectorProto]
  }

  function HostWords(d: Direction): seq<string> {
    ["src", d.src, "dst", d.dst]
  }

  function DirWords(d: Direction): seq<string> {
    ["dir", d.dir, "priority", "0", "ptype", "main"]
  }

  function TemplateWords(d: Direction): seq<string> {
    ["proto", "esp", "reqid", Decimal(d.reqid), "mode", "transport"]
  }

  function StateWords(d: Direction): seq<string> {
    ["proto", "esp", "spi", Hex32(d.spi), "reqid", Decimal(d.reqid), "mode", "transport"]
  }

  function PolicySections(ip: Addresses, d: Direction): seq<string> {
    [Spaced(SelectorWords(ip, d)), Spaced(DirWords(d)), Spaced(["tmpl"] + HostWords(d)), Spaced(TemplateWords(d))]
  }

  // Usage counters and the redacted algorithm, in any number and order.
  predicate StateMetadata(section: string) {
    || "replay-window " <= section || "anti-replay context: " <= section || IsLastUsed(section)
    || ("aead " <= section && Contains(section, "<<Keys hidden>>"))
  }

  function StateSections(ip: Addresses, d: Direction, metadata: seq<string>): seq<string> {
    [Spaced(HostWords(d)), Spaced(StateWords(d))] + metadata + [Spaced(["sel"] + SelectorWords(ip, d))]
  }

  // What the sections read as.
  function SelectorFields(ip: Addresses, d: Direction): Fields {
    map["src" := ip.hostPrefix(d.src), "dst" := ip.hostPrefix(d.dst), "proto" := d.selectorProto]
  }

  function HostFields(d: Direction): Fields {
    map["src" := d.src, "dst" := d.dst]
  }

  function DirFields(d: Direction): Fields {
    map["dir" := d.dir, "priority" := "0", "ptype" := "main"]
  }

  function TemplateFields(d: Direction): Fields {
    map["proto" := "esp", "reqid" := Decimal(d.reqid), "mode" := "transport"]
  }

  function StateFields(d: Direction): Fields {
    map["proto" := "esp", "spi" := Hex32(d.spi), "reqid" := Decimal(d.reqid), "mode" := "transport"]
  }

  function PolicyRecord(ip: Addresses, d: Direction): Record {
    Record(SelectorFields(ip, d) + DirFields(d), None, [HostFields(d) + TemplateFields(d)], false)
  }

  function StateRecord(ip: Addresses, d: Direction): Record {
    Record(HostFields(d) + StateFields(d), Some(SelectorFields(ip, d)), [], false)
  }

  // ------------------------------------------------------------- reading back

  lemma PairsMore(words: seq<string>, key: string, value: string, allowed: set<string>)
    requires PairsOf(words, allowed).Some?
    requires key in allowed && key !in PairsOf(words, allowed).value
    ensures PairsOf(words + [key, value], allowed) == Some(PairsOf(words, allowed).value[key := value])
  {
  }

  lemma Pairs2(k1: string, v1: string, k2: string, v2: string, allowed: set<string>)
    requires {k1, k2} <= allowed && k1 != k2
    ensures PairsOf([k1, v1, k2, v2], allowed) == Some(map[k1 := v1, k2 := v2])
  {
    assert [] + [k1, v1] == [k1, v1];
    PairsMore([], k1, v1, allowed);
    PairsMore([k1, v1], k2, v2, allowed);
    assert [k1, v1] + [k2, v2] == [k1, v1, k2, v2];
  }

  lemma Pairs3(k1: string, v1: string, k2: string, v2: string, k3: string, v3: string, allowed: set<string>)
    requires {k1, k2, k3} <= allowed && k1 != k2 && k3 !in {k1, k2}
    ensures PairsOf([k1, v1, k2, v2, k3, v3], allowed) == Some(map[k1 := v1, k2 := v2, k3 := v3])
  {
    Pairs2(k1, v1, k2, v2, allowed);
    PairsMore([k1, v1, k2, v2], k3, v3, allowed);
    assert [k1, v1, k2, v2] + [k3, v3] == [k1, v1, k2, v2, k3, v3];
  }

  lemma {:induction false} DigitsArePlain(n: nat, b: nat)
    requires IsBase(b)
    ensures Plain(Digits(n, b))
  {
    if n >= b {
      DigitsArePlain(n / b, b);
    }
  }

  lemma {:induction false} PadIsPlain(s: string, width: nat)
    requires Plain(s)
    ensures Plain(Pad(s, width))
    decreases width - |s|
  {
    if |s| < width {
      PadIsPlain("0" + s, width);
    }
  }

  lemma NumbersArePlain(n: nat)
    ensures Plain(Decimal(n)) && Plain(Hex32(n))
  {
    DigitsArePlain(n, 10);
    DigitsArePlain(n, 16);
    PadIsPlain(Digits(n, 16), 8);
  }

  lemma Read2(k1: string, v1: string, k2: string, v2: string, allowed: set<string>)
    requires {k1, k2} <= allowed && k1 != k2
    requires IsWord(k1) && IsWord(v1) && IsWord(k2) && IsWord(v2)
    ensures PairsOf(Words(Spaced([k1, v1, k2, v2])), allowed) == Some(map[k1 := v1, k2 := v2])
    ensures k1 + " " <= Spaced([k1, v1, k2, v2])
  {
    WordsOfSpaced([k1, v1, k2, v2]);
    SpacedTrimmed([k1, v1, k2, v2]);
    Pairs2(k1, v1, k2, v2, allowed);
  }

  lemma Read3(k1: string, v1: string, k2: string, v2: string, k3: string, v3: string, allowed: set<string>)
    requires {k1, k2, k3} <= allowed && k1 != k2 && k3 !in {k1, k2}
    requires IsWord(k1) && IsWord(v1) && IsWord(k2) && IsWord(v2) && IsWord(k3) && IsWord(v3)
    ensures PairsOf(Words(Spaced([k1, v1, k2, v2, k3, v3])), allowed)
         == Some(map[k1 := v1, k2 := v2, k3 := v3])
    ensures k1 + " " <= Spaced([k1, v1, k2, v2, k3, v3])
  {
    WordsOfSpaced([k1, v1, k2, v2, k3, v3]);
    SpacedTrimmed([k1, v1, k2, v2, k3, v3]);
    Pairs3(k1, v1, k2, v2, k3, v3, allowed);
  }

  lemma Read4(
    k1: string, v1: string, k2: string, v2: string, k3: string, v3: string, k4: string, v4: string,
    allowed: set<string>)
    requires {k1, k2, k3, k4} <= allowed && k1 != k2 && k3 !in {k1, k2} && k4 !in {k1, k2, k3}
    requires IsWord(k1) && IsWord(v1) && IsWord(k2) && IsWord(v2)
    requires IsWord(k3) && IsWord(v3) && IsWord(k4) && IsWord(v4)
    ensures PairsOf(Words(Spaced([k1, v1, k2, v2, k3, v3, k4, v4])), allowed)
         == Some(map[k1 := v1, k2 := v2, k3 := v3, k4 := v4])
    ensures k1 + " " <= Spaced([k1, v1, k2, v2, k3, v3, k4, v4])
  {
    WordsOfSpaced([k1, v1, k2, v2, k3, v3, k4, v4]);
    SpacedTrimmed([k1, v1, k2, v2, k3, v3, k4, v4]);
    Pairs3(k1, v1, k2, v2, k3, v3, allowed);
    PairsMore([k1, v1, k2, v2, k3, v3], k4, v4, allowed);
    assert [k1, v1, k2, v2, k3, v3] + [k4, v4] == [k1, v1, k2, v2, k3, v3, k4, v4];
  }

  lemma PrefixedSpaced(word: string, words: seq<string>)
    requires words != [] && word != ""
    ensures word + " " <= Spaced([word] + words)
    ensures Spaced([word] + words)[|word| + 1..] == Spaced(words)
  {
  }

  lemma SelectorReads(ip: Addresses, d: Direction)
    requires GoodDirection(ip, d)
    ensures "src " <= Spaced(SelectorWords(ip, d))
    ensures PairsOf(Words(Spaced(SelectorWords(ip, d))), SELECTOR_FIELDS) == Some(SelectorFields(ip, d))
  {
    hide PairsOf, Words, Spaced, Decimal, Hex32;
    Read3("src", ip.hostPrefix(d.src), "dst", ip.hostPrefix(d.dst), "proto", d.selectorProto, SELECTOR_FIELDS);
  }

  lemma HostsRead(ip: Addresses, d: Direction)
    requires GoodDirection(ip, d)
    ensures "src " <= Spaced(HostWords(d))
    ensures PairsOf(Words(Spaced(HostWords(d))), {"src", "dst"}) == Some(HostFields(d))
  {
    hide PairsOf, Words, Spaced, Decimal, Hex32;
    Read2("src", d.src, "dst", d.dst, {"src", "dst"});
  }

  lemma DirReads(d: Direction)
    requires Plain(d.dir)
    ensures "dir " <= Spaced(DirWords(d))
    ensures PairsOf(Words(Spaced(DirWords(d))), POLICY_FIELDS) == Some(DirFields(d))
  {
    hide PairsOf, Words, Spaced, Decimal, Hex32;
    Read3("dir", d.dir, "priority", "0", "ptype", "main", POLICY_FIELDS);
  }

  lemma TemplateReads(d: Direction)
    ensures "proto " <= Spaced(TemplateWords(d))
    ensures PairsOf(Words(Spaced(TemplateWords(d))), TEMPLATE_FIELDS) == Some(TemplateFields(d))
  {
    hide PairsOf, Words, Spaced, Decimal, Hex32;
    NumbersArePlain(d.reqid);
    Read3("proto", "esp", "reqid", Decimal(d.reqid), "mode", "transport", TEMPLATE_FIELDS);
  }

  lemma StateReads(d: Direction)
    ensures "proto " <= Spaced(StateWords(d))
    ensures PairsOf(Words(Spaced(StateWords(d))), STATE_FIELDS) == Some(StateFields(d))
  {
    hide PairsOf, Words, Spaced, Decimal, Hex32;
    NumbersArePlain(d.reqid);
    NumbersArePlain(d.spi);
    Read4("proto", "esp", "spi", Hex32(d.spi), "reqid", Decimal(d.reqid), "mode", "transport", STATE_FIELDS);
  }

  lemma ParseSectionsNext(kind: Kind, first: Record, sections: seq<string>, item: Record, section: string)
    requires ParseSections(kind, first, sections) == Some(item)
    ensures ParseSections(kind, first, sections + [section]) == ParseSection(kind, item, section)
  {
  }

  lemma Prefixes(section: string)
    ensures "dir " <= section ==> section[0] == 'd'
    ensures "tmpl " <= section ==> section[0] == 't'
    ensures "proto " <= section ==> section[0] == 'p'
    ensures "sel " <= section ==> section[0] == 's'
    ensures "aead " <= section ==> section[0] == 'a' && section[1] == 'e'
    ensures "replay-window " <= section ==> section[0] == 'r'
    ensures "anti-replay context: " <= section ==> section[0] == 'a' && section[1] == 'n'
    ensures IsLastUsed(section) ==> section[0] == 'l'
  {
  }

  lemma TemplateSection(item: Record, section: string)
    requires "tmpl " <= section
    ensures ParseSection(Policies, item, section)
         == AddTemplate(item, PairsOf(Words(section[5..]), {"src", "dst"}))
  {
  }

  lemma TemplateProtoSection(item: Record, section: string)
    requires "proto " <= section && item.tmpl != []
    ensures ParseSection(Policies, item, section)
         == CompleteTemplate(item, PairsOf(Words(section), TEMPLATE_FIELDS))
  {
  }

  lemma SelectorSection(item: Record, section: string)
    requires "sel " <= section
    ensures ParseSection(States, item, section)
         == AddSelector(item, PairsOf(Words(section[4..]), SELECTOR_FIELDS))
  {
  }

  lemma MetadataIgnored(item: Record, section: string)
    requires StateMetadata(section)
    ensures ParseSection(States, item, section) == Some(item)
  {
    Prefixes(section);
  }

  // The four sections of a policy, given what each of them reads as.
  lemma PolicySectionsParse(sections: seq<string>, f0: Fields, f1: Fields, f2: Fields, f3: Fields)
    requires |sections| == 4
    requires "src " <= sections[0] && PairsOf(Words(sections[0]), SELECTOR_FIELDS) == Some(f0)
    requires "dir " <= sections[1] && PairsOf(Words(sections[1]), POLICY_FIELDS) == Some(f1)
    requires "tmpl " <= sections[2] && PairsOf(Words(sections[2][5..]), {"src", "dst"}) == Some(f2)
    requires "proto " <= sections[3] && PairsOf(Words(sections[3]), TEMPLATE_FIELDS) == Some(f3)
    requires {"src", "dst"} <= f0.Keys && f0.Keys * f1.Keys == {} && "dir" in f1
    requires f2.Keys * f3.Keys == {} && "level" !in f3
    ensures ParseRecord(Policies, sections) == Some(Record(f0 + f1, None, [f2 + f3], false))
  {
    hide PairsOf, Words;
    var r0 := Record(f0, None, [], false);
    var r1 := Record(f0 + f1, None, [], false);
    var r2 := Record(f0 + f1, None, [f2], false);
    var r3 := Record(f0 + f1, None, [f2 + f3], false);
    assert ParseFirst(Policies, sections[0]) == Some(r0);
    assert ParseSections(Policies, r0, []) == Some(r0);
    ParseSectionsNext(Policies, r0, [], r0, sections[1]);
    assert ParseSection(Policies, r0, sections[1]) == Some(r1);
    TemplateSection(r1, sections[2]);
    assert [] + [f2] == [f2];
    assert AddTemplate(r1, Some(f2)) == Some(r2);
    ParseSectionsNext(Policies, r0, [] + [sections[1]], r1, sections[2]);
    TemplateProtoSection(r2, sections[3]);
    assert [f2][0 := f2 + f3] == [f2 + f3];
    assert CompleteTemplate(r2, Some(f3)) == Some(r3);
    ParseSectionsNext(Policies, r0, [] + [sections[1]] + [sections[2]], r2, sections[3]);
    assert [] + [sections[1]] + [sections[2]] + [sections[3]] == sections[1..];
  }

  lemma PolicyParses(ip: Addresses, d: Direction)
    requires GoodDirection(ip, d)
    ensures ParseRecord(Policies, PolicySections(ip, d)) == Some(PolicyRecord(ip, d))
  {
    hide PairsOf, Words, Spaced, ParseRecord, SelectorWords, DirWords, HostWords, TemplateWords;
    SelectorReads(ip, d);
    DirReads(d);
    HostsRead(ip, d);
    TemplateReads(d);
    HostWordsNotEmpty(d);
    PrefixedSpaced("tmpl", HostWords(d));
    PolicySectionsParse(PolicySections(ip, d), SelectorFields(ip, d), DirFields(d), HostFields(d), TemplateFields(d));
  }

  lemma HostWordsNotEmpty(d: Direction)
    ensures HostWords(d) != []
  {
  }

  lemma {:induction false} ManyMetadataIgnored(first: Record, sections: seq<string>, item: Record, metadata: seq<string>)
    requires ParseSections(States, first, sections) == Some(item)
    requires forall i :: 0 <= i < |metadata| ==> StateMetadata(metadata[i])
    ensures ParseSections(States, first, sections + metadata) == Some(item)
  {
    if metadata == [] {
      assert sections + metadata == sections;
    } else {
      var n := |metadata| - 1;
      ManyMetadataIgnored(first, sections, item, metadata[..n]);
      ParseSectionsNext(States, first, sections + metadata[..n], item, metadata[n]);
      MetadataIgnored(item, metadata[n]);
      assert sections + metadata[..n] + [metadata[n]] == sections + metadata;
    }
  }

  lemma StateStartParses(s0: string, s1: string, f0: Fields, f1: Fields)
    requires "src " <= s0 && PairsOf(Words(s0), {"src", "dst"}) == Some(f0)
    requires "proto " <= s1 && PairsOf(Words(s1), STATE_FIELDS) == Some(f1)
    requires {"src", "dst"} <= f0.Keys && f0.Keys * f1.Keys == {}
    ensures ParseFirst(States, s0) == Some(Record(f0, None, [], false))
    ensures ParseSections(States, Record(f0, None, [], false), [s1]) == Some(Record(f0 + f1, None, [], false))
  {
    hide PairsOf, Words;
    var r0 := Record(f0, None, [], false);
    assert ParseSections(States, r0, []) == Some(r0);
    ParseSectionsNext(States, r0, [], r0, s1);
    assert [] + [s1] == [s1];
    assert ParseSection(States, r0, s1) == Some(Record(f0 + f1, None, [], false));
  }

  // The sections of a state, given what each of them reads as.
  lemma StateSectionsParse(
    s0: string, s1: string, metadata: seq<string>, s2: string, f0: Fields, f1: Fields, f2: Fields)
    requires "src " <= s0 && PairsOf(Words(s0), {"src", "dst"}) == Some(f0)
    requires "proto " <= s1 && PairsOf(Words(s1), STATE_FIELDS) == Some(f1)
    requires forall i :: 0 <= i < |metadata| ==> StateMetadata(metadata[i])
    requires "sel " <= s2 && PairsOf(Words(s2[4..]), SELECTOR_FIELDS) == Some(f2)
    requires {"src", "dst"} <= f0.Keys && f0.Keys * f1.Keys == {} && STATE_FIELDS <= f1.Keys
    ensures ParseRecord(States, [s0, s1] + metadata + [s2]) == Some(Record(f0 + f1, Some(f2), [], false))
  {
    hide PairsOf, Words, ParseFirst, ParseSections, ParseSection, StateMetadata;
    var r0, r1 := Record(f0, None, [], false), Record(f0 + f1, None, [], false);
    StateStartParses(s0, s1, f0, f1);
    ManyMetadataIgnored(r0, [s1], r1, metadata);
    SelectorSection(r1, s2);
    ParseSectionsNext(States, r0, [s1] + metadata, r1, s2);
    var sections := [s0, s1] + metadata + [s2];
    assert [s1] + metadata + [s2] == sections[1..];
  }

  lemma SelectorWordsNotEmpty(ip: Addresses, d: Direction)
    ensures SelectorWords(ip, d) != []
  {
  }

  lemma StateParses(ip: Addresses, d: Direction, metadata: seq<string>)
    requires GoodDirection(ip, d)
    requires forall i :: 0 <= i < |metadata| ==> StateMetadata(metadata[i])
    ensures ParseRecord(States, StateSections(ip, d, metadata)) == Some(StateRecord(ip, d))
  {
    hide PairsOf, Words, Spaced, ParseRecord, SelectorWords, HostWords, StateWords, StateMetadata;
    HostsRead(ip, d);
    StateReads(d);
    SelectorReads(ip, d);
    SelectorWordsNotEmpty(ip, d);
    PrefixedSpaced("sel", SelectorWords(ip, d));
    StateSectionsParse(
      Spaced(HostWords(d)), Spaced(StateWords(d)), metadata, Spaced(["sel"] + SelectorWords(ip, d)),
      HostFields(d), StateFields(d), SelectorFields(ip, d));
  }
}
