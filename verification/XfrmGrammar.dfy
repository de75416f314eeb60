// The grammar of a one-line XFRM record, apart from how it is read, and what
// becomes of a line outside it (src/dros/xfrm_delete.py:187-413).
module XfrmGrammar {
  import opened Wrappers
  import opened Texts
  import opened Numerals
  import opened XfrmInventory

  // ------------------------------------------------------------------- fields

  function Name(words: seq<string>, i: nat): string
    requires 2 * i < |words|
  {
    words[2 * i]
  }

  // Names and values alternate; each name is known and comes once.
  ghost predicate Paired(words: seq<string>, allowed: set<string>) {
    && |words| % 2 == 0
    && (forall i: nat :: 2 * i < |words| ==> Name(words, i) in allowed)
    && (forall i: nat, j: nat :: i < j && 2 * j < |words| ==> Name(words, i) != Name(words, j))
  }

  ghost predicate Names(words: seq<string>, name: string) {
    exists i: nat :: 2 * i < |words| && Name(words, i) == name
  }

  // The names of the set are all there.
  ghost predicate NamesAll(words: seq<string>, names: set<string>) {
    forall n :: n in names ==> Names(words, n)
  }

  // Reading fields succeeds exactly on paired words, and each name then has the
  // word that follows it.
  lemma {:induction false} PairsIff(words: seq<string>, allowed: set<string>)
    ensures PairsOf(words, allowed).Some? <==> Paired(words, allowed)
    ensures PairsOf(words, allowed).Some? ==>
              forall i: nat :: 2 * i + 1 < |words| ==>
                Name(words, i) in PairsOf(words, allowed).value
                && PairsOf(words, allowed).value[Name(words, i)] == words[2 * i + 1]
    ensures PairsOf(words, allowed).Some? ==> forall n :: n in PairsOf(words, allowed).value <==> Names(words, n)
  {
    if |words| < 2 {
    } else {
      var front := words[..|words| - 2];
      var last := (|words| - 2) / 2;
      PairsIff(front, allowed);
      PairedNext(words, allowed);
      if Paired(words, allowed) {
        assert 2 * last == |words| - 2 && Name(words, last) == words[|words| - 2];
        forall n
          ensures Names(words, n) <==> Names(front, n) || n == words[|words| - 2]
        {
          NamesNext(words, n);
        }
        forall i: nat | 2 * i + 1 < |words| && i != last
          ensures Name(words, i) == Name(front, i)
        {
        }
      }
    }
  }

  lemma NamesNext(words: seq<string>, n: string)
    requires |words| >= 2 && |words| % 2 == 0
    ensures Names(words, n) <==> Names(words[..|words| - 2], n) || n == words[|words| - 2]
  {
    var front, last := words[..|words| - 2], (|words| - 2) / 2;
    assert Name(words, last) == words[|words| - 2];
    if i: nat :| 2 * i < |words| && Name(words, i) == n {
      assert i != last ==> Name(front, i) == n;
    }
    if i: nat :| 2 * i < |front| && Name(front, i) == n {
      assert Name(words, i) == n;
    }
  }

  lemma PairedNext(words: seq<string>, allowed: set<string>)
    requires |words| >= 2
    ensures Paired(words, allowed) <==>
              && Paired(words[..|words| - 2], allowed)
              && words[|words| - 2] in allowed && !Names(words[..|words| - 2], words[|words| - 2])
  {
    var front := words[..|words| - 2];
    if |words| % 2 == 0 {
      var last := (|words| - 2) / 2;
      assert Name(words, last) == words[|words| - 2];
      assert forall i: nat :: 2 * i < |front| ==> Name(words, i) == Name(front, i);
      assert forall i: nat :: 2 * i < |words| && i != last ==> 2 * i < |front|;
    }
  }

  lemma StartsWithWord(section: string, word: string)
    requires IsWord(word) && word + " " <= section
    ensures Words(section) != [] && Words(section)[0] == word && Names(Words(section), word)
  {
    assert section == word + section[|word|..];
    FirstWord(word, section[|word|..]);
    assert Name(Words(section), 0) == word;
  }

  // ----------------------------------------------------------------- sections

  // A selector is two addresses, a protocol, and the fields that narrow it; a
  // template is read like a state, and may name its level.
  lemma FieldNames(name: string)
    ensures name in SELECTOR_FIELDS <==> name in {"src", "dst", "proto"} || name in NARROWING_FIELDS
    ensures name in POLICY_FIELDS <==> name in {"dir", "priority", "ptype", "action"}
    ensures name in TEMPLATE_FIELDS <==> name in STATE_FIELDS || name == "level"
    ensures name in STATE_FIELDS <==> name in {"proto", "spi", "reqid", "mode"}
  {
  }

  predicate AllDigits(text: string, n: nat) {
    |text| == n && forall i :: 0 <= i < n ==> '0' <= text[i] <= '9'
  }

  function Stamp(y: string, mo: string, d: string, h: string, mi: string, s: string): string {
    y + "-" + mo + "-" + d + " " + h + ":" + mi + ":" + s
  }

  ghost predicate StampOf(text: string, y: string, mo: string, d: string, h: string, mi: string, s: string) {
    && AllDigits(y, 4) && AllDigits(mo, 2) && AllDigits(d, 2) && AllDigits(h, 2) && AllDigits(mi, 2) && AllDigits(s, 2)
    && text == Stamp(y, mo, d, h, mi, s)
  }

  lemma TimestampIff(text: string)
    ensures IsTimestamp(text) <==> exists y, mo, d, h, mi, s :: StampOf(text, y, mo, d, h, mi, s)
  {
    if IsTimestamp(text) {
      assert forall i {:trigger text[i]} :: 0 <= i < 19 && i !in {4, 7, 10, 13, 16} ==> '0' <= text[i] <= '9';
      assert StampOf(text, text[..4], text[5..7], text[8..10], text[11..13], text[14..16], text[17..19]);
    }
    if y, mo, d, h, mi, s :| StampOf(text, y, mo, d, h, mi, s) {
      assert |text| == 19;
      assert text[..4] == y && text[5..7] == mo && text[8..10] == d && text[11..13] == h && text[14..16] == mi;
      assert text[17..] == s;
      assert forall i :: 0 <= i < 4 ==> text[i] == y[i];
      assert forall i :: 5 <= i < 7 ==> text[i] == mo[i - 5];
      assert forall i :: 8 <= i < 10 ==> text[i] == d[i - 8];
      assert forall i :: 11 <= i < 13 ==> text[i] == h[i - 11];
      assert forall i :: 14 <= i < 16 ==> text[i] == mi[i - 14];
      assert forall i :: 17 <= i < 19 ==> text[i] == s[i - 17];
    }
  }

  // Only these usage times are passed over.
  lemma LastUsedIff(section: string)
    ensures IsLastUsed(section) <==>
              || section == "lastused -" || section == "lastused invalid-time"
              || exists t :: IsTimestamp(t) && section == "lastused " + t
  {
    hide IsTimestamp;
    if "lastused " <= section {
      assert section == "lastused " + section[9..];
    }
    if t :| IsTimestamp(t) && section == "lastused " + t {
      assert section[9..] == t;
    }
  }

  // A template may ask for the required level only.
  ghost predicate LevelRequired(words: seq<string>) {
    forall i: nat :: 2 * i + 1 < |words| && Name(words, i) == "level" ==> words[2 * i + 1] == "required"
  }

  // A section can be read, where so many templates came before it, unless its
  // fields are not in order, or it shows a key.
  ghost predicate SectionReads(kind: Kind, templates: nat, section: string) {
    if kind.Policies? then
      && ("dir " <= section ==> Paired(Words(section), POLICY_FIELDS))
      && ("tmpl " <= section ==> Paired(Words(section[5..]), {"src", "dst"}))
      && ("proto " <= section && templates > 0 ==> Paired(Words(section), TEMPLATE_FIELDS))
    else
      && ("proto " <= section ==> Paired(Words(section), STATE_FIELDS))
      && ("sel " <= section ==> Paired(Words(section[4..]), SELECTOR_FIELDS))
      && ("aead " <= section ==> Contains(section, "<<Keys hidden>>"))
  }

  // What it says is known: an entry without it may be one that DROS installed.
  ghost predicate SectionKnown(kind: Kind, templates: nat, section: string) {
    if kind.Policies? then
      "dir " <= section || "tmpl " <= section || ("proto " <= section && templates > 0 && LevelRequired(Words(section)))
    else
      || "proto " <= section || "sel " <= section || "aead " <= section
      || "replay-window " <= section || "anti-replay context: " <= section || IsLastUsed(section)
  }

  function TemplateCount(sections: seq<string>): nat {
    if sections == [] then 0
    else TemplateCount(sections[..|sections| - 1]) + if "tmpl " <= sections[|sections| - 1] then 1 else 0
  }

  ghost predicate Has(sections: seq<string>, prefix: string) {
    exists i :: 0 <= i < |sections| && prefix <= sections[i]
  }

  // The template that came last has been completed.
  ghost predicate Completed(sections: seq<string>) {
    exists i :: 0 <= i < |sections| && "proto " <= sections[i]
                && TemplateCount(sections[..i]) == TemplateCount(sections)
  }

  // The section would say again what one of the earlier sections said.
  ghost predicate Repeats(kind: Kind, earlier: seq<string>, section: string) {
    if kind.Policies? then
      || ("dir " <= section && Has(earlier, "dir "))
      || ("proto " <= section && TemplateCount(earlier) > 0 && Completed(earlier))
    else
      ("proto " <= section && Has(earlier, "proto ")) || ("sel " <= section && Has(earlier, "sel "))
  }

  ghost predicate FirstOk(kind: Kind, section: string) {
    && "src " <= section
    && Paired(Words(section), if kind.Policies? then SELECTOR_FIELDS else {"src", "dst"})
    && NamesAll(Words(section), {"src", "dst"})
  }

  ghost predicate RestReads(kind: Kind, rest: seq<string>) {
    forall i :: 0 <= i < |rest| ==>
      SectionReads(kind, TemplateCount(rest[..i]), rest[i]) && !Repeats(kind, rest[..i], rest[i])
  }

  ghost predicate RestKnown(kind: Kind, rest: seq<string>) {
    forall i :: 0 <= i < |rest| ==> SectionKnown(kind, TemplateCount(rest[..i]), rest[i])
  }

  // The identity of the entry is there.
  ghost predicate Identified(kind: Kind, rest: seq<string>) {
    if kind.Policies? then Has(rest, "dir ")
    else exists i :: 0 <= i < |rest| && "proto " <= rest[i] && NamesAll(Words(rest[i]), STATE_FIELDS)
  }

  // A line that can be read, and one with nothing unknown in it besides.
  ghost predicate Legible(kind: Kind, sections: seq<string>) {
    sections != [] && FirstOk(kind, sections[0]) && RestReads(kind, sections[1..]) && Identified(kind, sections[1..])
  }

  ghost predicate InGrammar(kind: Kind, sections: seq<string>) {
    Legible(kind, sections) && RestKnown(kind, sections[1..])
  }

  // ------------------------------------------------- the parser meets the grammar

  lemma HasNext(front: seq<string>, last: string, prefix: string)
    ensures Has(front + [last], prefix) <==> Has(front, prefix) || prefix <= last
  {
    var rest := front + [last];
    if i :| 0 <= i < |front| && prefix <= front[i] {
      assert rest[i] == front[i];
    }
    assert rest[|front|] == last;
  }

  lemma CountNext(front: seq<string>, last: string)
    ensures TemplateCount(front + [last]) == TemplateCount(front) + if "tmpl " <= last then 1 else 0
  {
    assert (front + [last])[..|front|] == front;
  }

  lemma {:induction false} CountGrows(sections: seq<string>, i: nat)
    requires i <= |sections|
    ensures TemplateCount(sections[..i]) <= TemplateCount(sections)
  {
    if i == |sections| {
      assert sections[..i] == sections;
    } else {
      assert sections[..|sections| - 1][..i] == sections[..i];
      CountGrows(sections[..|sections| - 1], i);
    }
  }

  lemma CompletedNext(front: seq<string>, last: string)
    ensures Completed(front + [last]) <==> !("tmpl " <= last) && (Completed(front) || "proto " <= last)
  {
    var rest := front + [last];
    CountNext(front, last);
    assert rest[..|front|] == front && rest[|front|] == last;
    assert "tmpl " <= last ==> last[0] == 't';
    assert "proto " <= last ==> last[0] == 'p';
    forall i | 0 <= i < |front|
      ensures rest[..i] == front[..i] && rest[i] == front[i] && TemplateCount(front[..i]) <= TemplateCount(front)
    {
      CountGrows(front, i);
    }
  }

  // What an item says of the sections read so far.
  ghost predicate PolicySummary(first: Record, rest: seq<string>, item: Record) {
    && (if Has(rest, "dir ") then "dir" in item.fields else item.fields == first.fields)
    && |item.tmpl| == TemplateCount(rest)
    && (item.tmpl != [] ==>
          if Completed(rest) then "proto" in item.tmpl[|item.tmpl| - 1] else item.tmpl[|item.tmpl| - 1].Keys <= {"src", "dst"})
  }

  ghost predicate StateSummary(first: Record, rest: seq<string>, item: Record) {
    && (if Has(rest, "proto ") then "proto" in item.fields else item.fields == first.fields)
    && (item.sel.Some? <==> Has(rest, "sel "))
    && (STATE_FIELDS <= item.fields.Keys <==> Identified(States, rest))
  }

  ghost predicate Summary(kind: Kind, first: Record, rest: seq<string>, item: Record) {
    if kind.Policies? then PolicySummary(first, rest, item) else StateSummary(first, rest, item)
  }

  // What the first section leaves.
  predicate Opening(kind: Kind, first: Record) {
    && first.sel == None && first.tmpl == [] && !first.unrecognized
    && first.fields.Keys <= if kind.Policies? then SELECTOR_FIELDS else {"src", "dst"}
  }

  lemma LevelRead(words: seq<string>)
    requires Paired(words, TEMPLATE_FIELDS)
    ensures PairsOf(words, TEMPLATE_FIELDS).Some?
    ensures GetOr(PairsOf(words, TEMPLATE_FIELDS).value, "level", "required") == "required" <==> LevelRequired(words)
  {
    PairsIff(words, TEMPLATE_FIELDS);
    var values := PairsOf(words, TEMPLATE_FIELDS).value;
    if "level" in values {
      assert Names(words, "level");
      var i: nat :| 2 * i < |words| && Name(words, i) == "level";
      assert 2 * i + 1 < |words| && values["level"] == words[2 * i + 1];
    }
  }

  lemma DirStep(first: Record, front: seq<string>, last: string, item: Record)
    requires Opening(Policies, first) && PolicySummary(first, front, item) && "dir " <= last
    ensures var r := ParsePolicySection(item, last);
            && (r.Some? <==> Paired(Words(last), POLICY_FIELDS) && !Has(front, "dir "))
            && (r.Some? ==> "dir" in r.value.fields && r.value.tmpl == item.tmpl && r.value.unrecognized == item.unrecognized)
  {
    hide Has, Completed, TemplateCount, Words, Paired, PairsOf;
    PairsIff(Words(last), POLICY_FIELDS);
    StartsWithWord(last, "dir");
    hide Names;
    var values := PairsOf(Words(last), POLICY_FIELDS);
    if values.Some? {
      assert "dir" in values.value;
      AllAllowed(Words(last), POLICY_FIELDS);
      if Has(front, "dir ") {
        assert "dir" in values.value.Keys * item.fields.Keys;
      } else {
        assert values.value.Keys * item.fields.Keys == {};
      }
    }
  }

  lemma AllAllowed(words: seq<string>, allowed: set<string>)
    requires PairsOf(words, allowed).Some?
    ensures PairsOf(words, allowed).value.Keys <= allowed
  {
    PairsIff(words, allowed);
  }

  lemma TemplateStep(item: Record, last: string)
    requires "tmpl " <= last
    ensures var r := ParsePolicySection(item, last);
            && (r.Some? <==> Paired(Words(last[5..]), {"src", "dst"}))
            && (r.Some? ==> r.value.fields == item.fields && |r.value.tmpl| == |item.tmpl| + 1
                            && r.value.tmpl[|item.tmpl|].Keys <= {"src", "dst"}
                            && r.value.unrecognized == item.unrecognized)
  {
    hide Words, Paired, PairsOf;
    assert last[0] == 't';
    var words := Words(last[5..]);
    PairsIff(words, {"src", "dst"});
    if PairsOf(words, {"src", "dst"}).Some? {
      AllAllowed(words, {"src", "dst"});
    }
  }

  lemma CompletionStep(front: seq<string>, last: string, item: Record)
    requires "proto " <= last && item.tmpl != []
    requires if Completed(front) then "proto" in item.tmpl[|item.tmpl| - 1]
             else item.tmpl[|item.tmpl| - 1].Keys <= {"src", "dst"}
    ensures var r := ParsePolicySection(item, last);
            && (r.Some? <==> Paired(Words(last), TEMPLATE_FIELDS) && !Completed(front))
            && (r.Some? ==> r.value.fields == item.fields && |r.value.tmpl| == |item.tmpl|
                            && "proto" in r.value.tmpl[|item.tmpl| - 1]
                            && (r.value.unrecognized <==> item.unrecognized || !LevelRequired(Words(last))))
  {
    hide Completed, Words, Paired, PairsOf, LevelRequired;
    assert last[0] == 'p';
    var words := Words(last);
    PairsIff(words, TEMPLATE_FIELDS);
    StartsWithWord(last, "proto");
    hide Names;
    if PairsOf(words, TEMPLATE_FIELDS).Some? {
      AllAllowed(words, TEMPLATE_FIELDS);
      LevelRead(words);
      var values, open := PairsOf(words, TEMPLATE_FIELDS).value, item.tmpl[|item.tmpl| - 1];
      assert "proto" in values;
      if Completed(front) {
        assert "proto" in values.Keys * open.Keys;
      } else {
        assert values.Keys * open.Keys == {};
      }
    }
  }

  lemma PolicyStep(first: Record, front: seq<string>, last: string, item: Record)
    requires Opening(Policies, first) && PolicySummary(first, front, item)
    ensures var r := ParsePolicySection(item, last);
            && (r.Some? <==> SectionReads(Policies, TemplateCount(front), last) && !Repeats(Policies, front, last))
            && (r.Some? ==> PolicySummary(first, front + [last], r.value))
            && (r.Some? ==>
                  (r.value.unrecognized <==> item.unrecognized || !SectionKnown(Policies, TemplateCount(front), last)))
  {
    hide Has, Completed, TemplateCount, Words, Paired, PairsOf, LevelRequired;
    HasNext(front, last, "dir ");
    CountNext(front, last);
    CompletedNext(front, last);
    if "dir " <= last {
      assert last[0] == 'd';
      DirStep(first, front, last, item);
    } else if "tmpl " <= last {
      assert last[0] == 't';
      TemplateStep(item, last);
    } else if "proto " <= last && item.tmpl != [] {
      CompletionStep(front, last, item);
    }
  }

  lemma IdentifiedNext(front: seq<string>, last: string)
    ensures Identified(States, front + [last])
       <==> Identified(States, front) || ("proto " <= last && NamesAll(Words(last), STATE_FIELDS))
  {
    hide Words, NamesAll;
    var rest := front + [last];
    assert rest[|front|] == last;
    if Identified(States, front) {
      var i :| 0 <= i < |front| && "proto " <= front[i] && NamesAll(Words(front[i]), STATE_FIELDS);
      assert rest[i] == front[i];
    }
  }

  lemma IdentifiedHas(front: seq<string>)
    ensures Identified(States, front) ==> Has(front, "proto ")
  {
    hide NamesAll;
  }

  lemma AllNamed(fields: Fields, values: Fields, words: seq<string>)
    requires fields.Keys <= {"src", "dst"} && forall n :: n in values <==> Names(words, n)
    ensures STATE_FIELDS <= (fields + values).Keys <==> NamesAll(words, STATE_FIELDS)
  {
    hide Names;
  }

  lemma ProtoStep(first: Record, front: seq<string>, last: string, item: Record)
    requires Opening(States, first) && StateSummary(first, front, item) && "proto " <= last
    ensures var r := ParseStateSection(item, last);
            && (r.Some? <==> Paired(Words(last), STATE_FIELDS) && !Has(front, "proto "))
            && (r.Some? ==> "proto" in r.value.fields && r.value.sel == item.sel && r.value.unrecognized == item.unrecognized
                            && (STATE_FIELDS <= r.value.fields.Keys <==> NamesAll(Words(last), STATE_FIELDS)))
  {
    hide Has, Words, Paired, PairsOf, Identified, NamesAll;
    var words := Words(last);
    PairsIff(words, STATE_FIELDS);
    StartsWithWord(last, "proto");
    hide Names;
    if PairsOf(words, STATE_FIELDS).Some? {
      var values := PairsOf(words, STATE_FIELDS).value;
      AllAllowed(words, STATE_FIELDS);
      assert "proto" in values;
      if Has(front, "proto ") {
        assert "proto" in values.Keys * item.fields.Keys;
      } else {
        assert values.Keys * item.fields.Keys == {};
        AllNamed(first.fields, values, words);
      }
    }
  }

  lemma StateStep(first: Record, front: seq<string>, last: string, item: Record)
    requires Opening(States, first) && StateSummary(first, front, item)
    ensures var r := ParseStateSection(item, last);
            && (r.Some? <==> SectionReads(States, TemplateCount(front), last) && !Repeats(States, front, last))
            && (r.Some? ==> StateSummary(first, front + [last], r.value))
            && (r.Some? ==>
                  (r.value.unrecognized <==> item.unrecognized || !SectionKnown(States, TemplateCount(front), last)))
  {
    hide Has, Words, Paired, PairsOf, Identified, NamesAll, Contains, IsTimestamp, TemplateCount;
    HasNext(front, last, "proto ");
    HasNext(front, last, "sel ");
    IdentifiedNext(front, last);
    IdentifiedHas(front);
    if "proto " <= last {
      assert last[0] == 'p';
      ProtoStep(first, front, last, item);
    } else if "sel " <= last {
      assert last[0] == 's';
      PairsIff(Words(last[4..]), SELECTOR_FIELDS);
    } else if "aead " <= last {
      assert last[0] == 'a' && last[1] == 'e';
    }
  }

  lemma RestNext(kind: Kind, rest: seq<string>)
    requires rest != []
    ensures var front, last := rest[..|rest| - 1], rest[|rest| - 1];
            && (RestReads(kind, rest) <==>
                  RestReads(kind, front) && SectionReads(kind, TemplateCount(front), last) && !Repeats(kind, front, last))
            && (RestKnown(kind, rest) <==> RestKnown(kind, front) && SectionKnown(kind, TemplateCount(front), last))
  {
    hide SectionReads, SectionKnown, Repeats, TemplateCount;
    var front := rest[..|rest| - 1];
    assert forall i :: 0 <= i < |front| ==> front[..i] == rest[..i] && front[i] == rest[i];
  }

  lemma {:induction false} SectionsMeet(kind: Kind, first: Record, rest: seq<string>)
    requires Opening(kind, first)
    ensures var r := ParseSections(kind, first, rest);
            && (r.Some? <==> RestReads(kind, rest))
            && (r.Some? ==> Summary(kind, first, rest, r.value) && (r.value.unrecognized <==> !RestKnown(kind, rest)))
  {
    hide SectionReads, SectionKnown, Repeats, PolicySummary, StateSummary, ParsePolicySection, ParseStateSection,
         RestReads, RestKnown;
    if rest == [] {
      NothingYet(kind, first);
    } else {
      var front, last := rest[..|rest| - 1], rest[|rest| - 1];
      SectionsMeet(kind, first, front);
      RestNext(kind, rest);
      assert rest == front + [last];
      var before := ParseSections(kind, first, front);
      if before.Some? {
        if kind.Policies? {
          PolicyStep(first, front, last, before.value);
        } else {
          StateStep(first, front, last, before.value);
        }
      }
    }
  }

  lemma NothingYet(kind: Kind, first: Record)
    requires Opening(kind, first)
    ensures RestReads(kind, []) && RestKnown(kind, []) && Summary(kind, first, [], first)
  {
    assert kind.States? ==> "mode" in STATE_FIELDS && "mode" !in first.fields;
  }

  lemma FirstMeets(kind: Kind, section: string)
    ensures ParseFirst(kind, section).Some? <==> FirstOk(kind, section)
    ensures ParseFirst(kind, section).Some? ==> Opening(kind, ParseFirst(kind, section).value)
  {
    hide Words, PairsOf, Paired, Names;
    var words, allowed := Words(section), if kind.Policies? then SELECTOR_FIELDS else {"src", "dst"};
    PairsIff(words, allowed);
    if PairsOf(words, allowed).Some? {
      AllAllowed(words, allowed);
    }
  }

  // The parser raises exactly for a line that is not legible, and recognises
  // exactly one with nothing unknown in it.
  lemma GrammarIff(kind: Kind, sections: seq<string>)
    ensures ParseRecord(kind, sections).Some? <==> Legible(kind, sections)
    ensures ParseRecord(kind, sections).Some? && !ParseRecord(kind, sections).value.unrecognized <==>
              InGrammar(kind, sections)
  {
    hide ParseFirst, ParseSections, FirstOk, RestReads, RestKnown, Identified, Summary, Opening;
    if sections != [] {
      FirstMeets(kind, sections[0]);
      if ParseFirst(kind, sections[0]).Some? {
        var first := ParseFirst(kind, sections[0]).value;
        SectionsMeet(kind, first, sections[1..]);
        if ParseSections(kind, first, sections[1..]).Some? {
          RequiredMeets(kind, first, sections[1..], ParseSections(kind, first, sections[1..]).value);
        }
      }
    }
  }

  lemma RequiredMeets(kind: Kind, first: Record, rest: seq<string>, item: Record)
    requires Opening(kind, first) && Summary(kind, first, rest, item)
    ensures RequiredFields(kind) <= item.fields.Keys <==> Identified(kind, rest)
  {
    hide Has, Completed;
  }

  // A blank line says nothing; any other is one record or raises.
  lemma LineIff(kind: Kind, records: seq<Record>, line: string)
    ensures Blank(line) ==> ParseLine(kind, records, line) == Some(records)
    ensures !Blank(line) && !Legible(kind, Sections(line)) ==> ParseLine(kind, records, line) == None
    ensures !Blank(line) && Legible(kind, Sections(line)) ==>
              && ParseRecord(kind, Sections(line)).Some?
              && ParseLine(kind, records, line) == Some(records + [ParseRecord(kind, Sections(line)).value])
  {
    hide ParseRecord, Legible, Sections, Strip, Blank;
    StripIff(line);
    GrammarIff(kind, Sections(line));
  }

  // -------------------------------------------------------------- fail closed

  // A line outside the grammar either raises or gives a record that is never
  // accepted, whatever else is listed and whatever is asked for.
  lemma FailClosed(ip: Addresses, kind: Kind, sections: seq<string>, items: seq<Record>, n: nat, target: Direction)
    requires !InGrammar(kind, sections)
    requires n < |items| && ParseRecord(kind, sections) == Some(items[n])
    requires Matches(ip, kind, items[n], target) == Some(true)
    ensures MatchingOf(ip, kind, items, target).Failure?
  {
    hide ParseRecord, InGrammar, Matches;
    GrammarIff(kind, sections);
    MatchingIsUniqueOwned(ip, kind, items, target);
    assert HasIdentity(ip, kind, target)(items[n]);
  }

  // The numbers that the ownership test of a kind reads.
  predicate NumbersRead(kind: Kind, item: Record) {
    if kind.Policies? then
      && ("priority" in item.fields ==> ParseInteger(item.fields["priority"]).Some?)
      && forall i :: 0 <= i < |item.tmpl| ==>
           "reqid" in item.tmpl[i] && ParseInteger(item.tmpl[i]["reqid"]).Some?
           && ("spi" in item.tmpl[i] ==> ParseInteger(item.tmpl[i]["spi"]).Some?)
    else
      && "spi" in item.fields && ParseInteger(item.fields["spi"]).Some?
      && "reqid" in item.fields && ParseInteger(item.fields["reqid"]).Some?
  }

  // A missing or unreadable number fails closed too; a state's SPI does so
  // whatever is asked for.
  lemma NumbersFailClosed(ip: Addresses, kind: Kind, items: seq<Record>, n: nat, target: Direction)
    requires n < |items| && !NumbersRead(kind, items[n])
    ensures Matches(ip, kind, items[n], target) == Some(true) ==> MatchingOf(ip, kind, items, target).Failure?
    ensures kind.States? && ("spi" in items[n].fields ==> ParseInteger(items[n].fields["spi"]).None?) ==>
              MatchingOf(ip, kind, items, target).Failure?
  {
    hide ParseInteger, Proto;
    MatchingIsUniqueOwned(ip, kind, items, target);
    if Matches(ip, kind, items[n], target) == Some(true) {
      assert HasIdentity(ip, kind, target)(items[n]);
    }
  }
}
