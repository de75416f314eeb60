// The managed priority range of the kernel's policy rules
// (src/dros/plugins/network_routing.py:211-230, 306-329 and 599-613).
module RouteRules {
  import opened Wrappers
  import opened Sequences
  import opened Numerals

  datatype Rule = Rule(priority: nat, action: string)

  // The kernel keeps its rules by priority.
  ghost predicate Ordered(rules: seq<Rule>) {
    forall i, j :: 0 <= i < j < |rules| ==> rules[i].priority <= rules[j].priority
  }

  // A new rule goes after all rules of its priority. Sorting a list by priority
  // as Python does, stably, is inserting its members in turn.
  function Insert(rules: seq<Rule>, r: Rule): seq<Rule> {
    if rules == [] || rules[0].priority > r.priority then [r] + rules else [rules[0]] + Insert(rules[1..], r)
  }

  function InsertAll(rules: seq<Rule>, more: seq<Rule>): seq<Rule> {
    if more == [] then rules else Insert(InsertAll(rules, more[..|more| - 1]), more[|more| - 1])
  }

  function ByPriority(rules: seq<Rule>): seq<Rule> {
    InsertAll([], rules)
  }

  // ----------------------------------------------------------- configuration

  datatype RuleSet = RuleSet(start: int, end: int, rules: seq<Rule>)

  predicate InRange(s: RuleSet, priority: nat) {
    s.start <= priority <= s.end
  }

  predicate Valid(s: RuleSet) {
    && s.start <= s.end
    && (forall i :: 0 <= i < |s.rules| ==> InRange(s, s.rules[i].priority))
    && forall i, j :: 0 <= i < j < |s.rules| ==> s.rules[i].priority != s.rules[j].priority
  }

  datatype RangeError = StartAfterEnd | Duplicate(index: nat) | OutOfRange(index: nat)

  predicate Repeated(rules: seq<Rule>, i: nat)
    requires i < |rules|
  {
    exists j :: 0 <= j < i && rules[j].priority == rules[i].priority
  }

  // _validate_route_rule_set, as far as it is about the range.
  method ValidateRuleSet(s: RuleSet) returns (errors: seq<RangeError>)
    ensures errors == [] <==> Valid(s)
    ensures StartAfterEnd in errors <==> s.start > s.end
    ensures forall i: nat :: Duplicate(i) in errors <==>
              i < |s.rules| && exists j :: 0 <= j < i && s.rules[j].priority == s.rules[i].priority
    ensures forall i: nat :: OutOfRange(i) in errors <==>
              i < |s.rules| && !(s.start <= s.rules[i].priority <= s.end)
  {
    errors := if s.start > s.end then [StartAfterEnd] else [];
    var priorities: set<nat> := {};
    for k := 0 to |s.rules|
      invariant forall p :: p in priorities <==> exists j :: 0 <= j < k && s.rules[j].priority == p
      invariant StartAfterEnd in errors <==> s.start > s.end
      invariant forall i: nat :: Duplicate(i) in errors <==> i < k && Repeated(s.rules, i)
      invariant forall i: nat :: OutOfRange(i) in errors <==> i < k && !InRange(s, s.rules[i].priority)
    {
      var priority := s.rules[k].priority;
      if priority in priorities {
        errors := errors + [Duplicate(k)];
      }
      priorities := priorities + {priority};
      if !InRange(s, priority) {
        errors := errors + [OutOfRange(k)];
      }
    }
    forall i, j | errors == [] && 0 <= i < j < |s.rules|
      ensures s.rules[i].priority != s.rules[j].priority
    {
      assert Duplicate(j) !in errors;
    }
    if errors != [] {
      match errors[0]
      case StartAfterEnd => assert StartAfterEnd in errors;
      case Duplicate(i) => assert Duplicate(i) in errors;
      case OutOfRange(i) => assert OutOfRange(i) in errors;
    }
  }

  // ------------------------------------------------------------------ listing

  // A line of "ip rule show".
  function Shown(r: Rule): string {
    Decimal(r.priority) + ":" + r.action
  }

  function Listing(rules: seq<Rule>): seq<string> {
    if rules == [] then [] else [Shown(rules[0])] + Listing(rules[1..])
  }

  // "${line%%:*}"
  function BeforeColon(line: string): string {
    if line == "" || line[0] == ':' then "" else [line[0]] + BeforeColon(line[1..])
  }

  // The priority that the script reads from a line, if it reads one.
  function ShownPriority(line: string): Option<nat> {
    var text := BeforeColon(line);
    if forall i :: 0 <= i < |text| ==> '0' <= text[i] <= '9' then ParseNat(text, 10) else None
  }

  // A priority is read exactly from digits in front of a colon, or of the end.
  lemma PriorityReadIff(text: string, rest: string)
    requires (forall i :: 0 <= i < |text| ==> text[i] != ':') && (rest == "" || rest[0] == ':')
    ensures ShownPriority(text + rest).Some? <==> text != "" && forall i :: 0 <= i < |text| ==> '0' <= text[i] <= '9'
    ensures ShownPriority(text + rest).Some? ==> ShownPriority(text + rest) == ParseNat(text, 10)
  {
    if rest == "" {
      assert text + rest == text;
      BeforeColonAll(text);
    } else {
      assert text + rest == text + ":" + rest[1..];
      BeforeColonOf(text, rest[1..]);
    }
    ParseNatIff(text, 10);
  }

  lemma {:induction false} BeforeColonAll(text: string)
    requires forall i :: 0 <= i < |text| ==> text[i] != ':'
    ensures BeforeColon(text) == text
  {
    if text != "" {
      BeforeColonAll(text[1..]);
      assert text == [text[0]] + text[1..];
    }
  }

  lemma {:induction false} BeforeColonOf(text: string, rest: string)
    requires forall i :: 0 <= i < |text| ==> text[i] != ':'
    ensures BeforeColon(text + ":" + rest) == text
  {
    var line := text + ":" + rest;
    if text != "" {
      BeforeColonOf(text[1..], rest);
      assert line[1..] == text[1..] + ":" + rest;
    }
  }

  lemma ShownIsRead(r: Rule)
    ensures ShownPriority(Shown(r)) == Some(r.priority)
  {
    DecimalDigits(r.priority);
    BeforeColonOf(Decimal(r.priority), r.action);
    DigitsRoundTrip(r.priority, 10);
  }

  lemma {:induction false} ListingAt(rules: seq<Rule>, i: nat)
    requires i < |rules|
    ensures |Listing(rules)| == |rules| && Listing(rules)[i] == Shown(rules[i])
  {
    hide Shown;
    if |rules| > 1 {
      ListingAt(rules[1..], if i == 0 then 0 else i - 1);
    }
  }

  // --------------------------------------------------------------- the kernel

  function HasPriority(priority: nat): Rule -> bool {
    (r: Rule) => r.priority == priority
  }

  function Outside(s: RuleSet): Rule -> bool {
    (r: Rule) => !InRange(s, r.priority)
  }

  function Within(s: RuleSet): Rule -> bool {
    (r: Rule) => InRange(s, r.priority)
  }

  function Below(s: RuleSet): Rule -> bool {
    (r: Rule) => r.priority < s.start
  }

  function Above(s: RuleSet): Rule -> bool {
    (r: Rule) => r.priority > s.end
  }

  // The rules of one address family.
  class RuleTable {
    var rules: seq<Rule>

    // ip rule del priority: the first rule of the priority, if there is one.
    method Delete(priority: nat)
      modifies this
      ensures rules == RemoveFirst(old(rules), HasPriority(priority))
    {
      rules := RemoveFirst(rules, HasPriority(priority));
    }

    // ip rule add: the kernel refuses a rule that it has already.
    method Add(r: Rule) returns (ok: bool)
      modifies this
      ensures ok <==> r !in old(rules)
      ensures rules == if ok then Insert(old(rules), r) else old(rules)
    {
      ok := r !in rules;
      if ok {
        rules := Insert(rules, r);
      }
    }

    // _flush_rules_script: one deletion for each line of the listing whose
    // priority lies in the range. Exactly the rules of the range are gone.
    method Flush(s: RuleSet)
      modifies this
      ensures rules == Filter(old(rules), Outside(s))
    {
      ghost var before := rules;
      var lines := Listing(rules);
      if before != [] {
        ListingAt(before, 0);
      }
      for i := 0 to |lines|
        invariant |lines| == |before|
        invariant Filter(rules, Outside(s)) == Filter(before, Outside(s))
        invariant forall p :: InRange(s, p) ==> Count(rules, p) == Count(before[i..], p)
      {
        ListingAt(before, i);
        ShownIsRead(before[i]);
        var priority := ShownPriority(lines[i]);
        if priority.Some? && InRange(s, priority.value) {
          RemoveKeeps(rules, HasPriority(priority.value), Outside(s));
          ghost var was := rules;
          Delete(priority.value);
          forall p
            ensures Count(rules, p) == if p == priority.value && Count(was, p) > 0 then Count(was, p) - 1 else Count(was, p)
          {
            RemoveCounts(was, priority.value, p);
          }
        }
        assert before[i..][1..] == before[i + 1..];
      }
      assert before[|lines|..] == [];
      NoneInRange(s, rules);
    }

    // _apply_route_rule_set
    method Apply(s: RuleSet) returns (ok: bool)
      requires Valid(s) && Ordered(rules)
      modifies this
      ensures ok && rules == Applied(s, old(rules))
      ensures Ordered(rules)
    {
      hide Valid, Ordered, ByPriority;
      ghost var before := rules;
      Flush(s);
      ghost var rest := rules;
      var sorted := ByPriority(s.rules);
      SortedFacts(s);
      for i := 0 to |sorted|
        invariant rules == InsertAll(rest, sorted[..i])
      {
        assert sorted[..i + 1][..i] == sorted[..i];
        NotThereYet(s, before, sorted, i);
        ok := Add(sorted[i]);
        assert ok;
      }
      assert sorted[..|sorted|] == sorted;
      AppliedIs(s, before);
      ok := true;
    }
  }

  // ------------------------------------------------- deletions per priority

  function Count(rules: seq<Rule>, priority: nat): nat {
    if rules == [] then 0 else (if rules[0].priority == priority then 1 else 0) + Count(rules[1..], priority)
  }

  lemma {:induction false} RemoveCounts(rules: seq<Rule>, priority: nat, p: nat)
    ensures Count(RemoveFirst(rules, HasPriority(priority)), p)
         == if p == priority && Count(rules, p) > 0 then Count(rules, p) - 1 else Count(rules, p)
  {
    if rules != [] && rules[0].priority != priority {
      RemoveCounts(rules[1..], priority, p);
      assert RemoveFirst(rules, HasPriority(priority))[1..] == RemoveFirst(rules[1..], HasPriority(priority));
    }
  }

  lemma {:induction false} RemoveKeeps(rules: seq<Rule>, test: Rule -> bool, keep: Rule -> bool)
    requires forall r :: test(r) ==> !keep(r)
    ensures Filter(RemoveFirst(rules, test), keep) == Filter(rules, keep)
  {
    if rules != [] && !test(rules[0]) {
      RemoveKeeps(rules[1..], test, keep);
      assert RemoveFirst(rules, test)[1..] == RemoveFirst(rules[1..], test);
    }
  }

  lemma NoneInRange(s: RuleSet, rules: seq<Rule>)
    requires forall p :: InRange(s, p) ==> Count(rules, p) == 0
    ensures Filter(rules, Outside(s)) == rules
  {
  }

  // --------------------------------------------------------- the whole update

  // What an update leaves: the rules below the range, the configured rules in
  // order, the rules above the range.
  function Applied(s: RuleSet, rules: seq<Rule>): seq<Rule> {
    Filter(rules, Below(s)) + ByPriority(s.rules) + Filter(rules, Above(s))
  }

  lemma {:induction false} OutsideIsTwoSides(s: RuleSet, rules: seq<Rule>)
    requires s.start <= s.end && Ordered(rules)
    ensures Filter(rules, Outside(s)) == Filter(rules, Below(s)) + Filter(rules, Above(s))
  {
    if rules != [] {
      OutsideIsTwoSides(s, rules[1..]);
      if rules[0].priority > s.end {
        FilterNone(rules[1..], Below(s));
      }
    }
  }

  // A rule of the range goes between the two sides.
  lemma {:induction false} InsertBetween(a: seq<Rule>, b: seq<Rule>, c: seq<Rule>, r: Rule)
    requires forall i :: 0 <= i < |a| ==> a[i].priority <= r.priority
    requires forall i :: 0 <= i < |c| ==> c[i].priority > r.priority
    ensures Insert(a + b + c, r) == a + Insert(b, r) + c
  {
    if a != [] {
      assert (a + b + c)[1..] == a[1..] + b + c;
      InsertBetween(a[1..], b, c, r);
    } else if b != [] && b[0].priority <= r.priority {
      assert a + b + c == b + c && (b + c)[1..] == a + b[1..] + c;
      InsertBetween(a, b[1..], c, r);
      assert a + b[1..] + c == b[1..] + c;
    } else {
      assert a + b + c == b + c;
    }
  }

  lemma {:induction false} InsertAllBetween(a: seq<Rule>, c: seq<Rule>, more: seq<Rule>)
    requires forall i, j :: 0 <= i < |a| && 0 <= j < |more| ==> a[i].priority <= more[j].priority
    requires forall i, j :: 0 <= i < |c| && 0 <= j < |more| ==> c[i].priority > more[j].priority
    ensures InsertAll(a + c, more) == a + InsertAll([], more) + c
  {
    if more == [] {
      assert a + [] + c == a + c;
    } else {
      var init, last := more[..|more| - 1], more[|more| - 1];
      InsertAllBetween(a, c, init);
      InsertBetween(a, InsertAll([], init), c, last);
    }
  }

  lemma {:induction false} InsertMember(rules: seq<Rule>, r: Rule, x: Rule)
    ensures x in Insert(rules, r) <==> x in rules || x == r
  {
    if rules != [] {
      InsertMember(rules[1..], r, x);
      assert rules == [rules[0]] + rules[1..];
    }
  }

  lemma {:induction false} InsertCounts(rules: seq<Rule>, r: Rule)
    ensures multiset(Insert(rules, r)) == multiset(rules) + multiset{r}
  {
    if rules != [] {
      InsertCounts(rules[1..], r);
      assert rules == [rules[0]] + rules[1..];
    }
  }

  lemma {:induction false} InsertOrdered(rules: seq<Rule>, r: Rule)
    requires Ordered(rules)
    ensures Ordered(Insert(rules, r))
  {
    if rules != [] && rules[0].priority <= r.priority {
      InsertOrdered(rules[1..], r);
      var rest := Insert(rules[1..], r);
      forall i | 0 <= i < |rest|
        ensures rules[0].priority <= rest[i].priority
      {
        InsertMember(rules[1..], r, rest[i]);
      }
    }
  }

  lemma {:induction false} InsertLast(rules: seq<Rule>, r: Rule)
    requires forall i :: 0 <= i < |rules| ==> rules[i].priority <= r.priority
    ensures Insert(rules, r) == rules + [r]
  {
    if rules != [] {
      InsertLast(rules[1..], r);
      assert rules == [rules[0]] + rules[1..];
    }
  }

  // Sorting by priority: ordered, with the same rules.
  lemma {:induction false} ByPrioritySorts(rules: seq<Rule>)
    ensures Ordered(ByPriority(rules)) && multiset(ByPriority(rules)) == multiset(rules)
    ensures forall x :: x in ByPriority(rules) <==> x in rules
  {
    if rules != [] {
      var init, last := rules[..|rules| - 1], rules[|rules| - 1];
      ByPrioritySorts(init);
      InsertOrdered(ByPriority(init), last);
      InsertCounts(ByPriority(init), last);
      assert rules == init + [last];
      forall x
        ensures x in ByPriority(rules) <==> x in rules
      {
        InsertMember(ByPriority(init), last, x);
      }
    }
  }

  lemma {:induction false} SortedStays(rules: seq<Rule>)
    requires Ordered(rules)
    ensures ByPriority(rules) == rules
  {
    if rules != [] {
      var init, last := rules[..|rules| - 1], rules[|rules| - 1];
      SortedStays(init);
      InsertLast(init, last);
      assert rules == init + [last];
    }
  }

  lemma SortedFacts(s: RuleSet)
    requires Valid(s)
    ensures Ordered(ByPriority(s.rules)) && forall x :: x in ByPriority(s.rules) ==> InRange(s, x.priority)
  {
    ByPrioritySorts(s.rules);
  }

  lemma Sides(s: RuleSet, rules: seq<Rule>)
    ensures forall i :: 0 <= i < |Filter(rules, Below(s))| ==> Filter(rules, Below(s))[i].priority < s.start
    ensures forall i :: 0 <= i < |Filter(rules, Above(s))| ==> Filter(rules, Above(s))[i].priority > s.end
  {
  }

  // Adding the sorted rules one by one to what the flush left.
  lemma AppliedIs(s: RuleSet, rules: seq<Rule>)
    requires Valid(s) && Ordered(rules)
    ensures InsertAll(Filter(rules, Outside(s)), ByPriority(s.rules)) == Applied(s, rules)
    ensures Ordered(Applied(s, rules))
  {
    OutsideIsTwoSides(s, rules);
    Sides(s, rules);
    SortedFacts(s);
    var sorted := ByPriority(s.rules);
    assert forall j :: 0 <= j < |sorted| ==> sorted[j] in sorted;
    InsertAllBetween(Filter(rules, Below(s)), Filter(rules, Above(s)), sorted);
    SortedStays(sorted);
    FilterOrdered(rules, Below(s));
    FilterOrdered(rules, Above(s));
  }

  lemma {:induction false} FilterOrdered(rules: seq<Rule>, keep: Rule -> bool)
    requires Ordered(rules)
    ensures Ordered(Filter(rules, keep))
  {
    if rules != [] {
      FilterOrdered(rules[1..], keep);
      var rest := Filter(rules[1..], keep);
      forall i | 0 <= i < |rest|
        ensures rest[i] in rules[1..]
      {
        FilterMember(rules[1..], keep, rest[i]);
      }
    }
  }

  // Distinct priorities: no rule is added twice.
  lemma NotThereYet(s: RuleSet, rules: seq<Rule>, sorted: seq<Rule>, i: nat)
    requires Valid(s) && sorted == ByPriority(s.rules) && i < |sorted|
    ensures sorted[i] !in InsertAll(Filter(rules, Outside(s)), sorted[..i])
  {
    SortedFacts(s);
    InsertAllMember(Filter(rules, Outside(s)), sorted[..i], sorted[i]);
    FilterMember(rules, Outside(s), sorted[i]);
    assert sorted[i] in sorted;
    if sorted[i] in sorted[..i] {
      var j :| 0 <= j < i && sorted[j] == sorted[i];
      ByPrioritySorts(s.rules);
      OnlyOnce(s.rules, sorted[i]);
      TwiceCounts(sorted, j, i);
    }
  }

  lemma {:induction false} InsertAllMember(rules: seq<Rule>, more: seq<Rule>, x: Rule)
    ensures x in InsertAll(rules, more) <==> x in rules || x in more
  {
    if more != [] {
      var init, last := more[..|more| - 1], more[|more| - 1];
      InsertAllMember(rules, init, x);
      InsertMember(InsertAll(rules, init), last, x);
      assert more == init + [last];
    }
  }

  lemma {:induction false} OnlyOnce(rules: seq<Rule>, x: Rule)
    requires forall i, j :: 0 <= i < j < |rules| ==> rules[i].priority != rules[j].priority
    ensures multiset(rules)[x] <= 1
  {
    if rules != [] {
      var init, last := rules[..|rules| - 1], rules[|rules| - 1];
      OnlyOnce(init, x);
      assert rules == init + [last];
      if last == x {
        assert x !in init;
      }
    }
  }

  lemma TwiceCounts(rules: seq<Rule>, j: nat, i: nat)
    requires j < i < |rules| && rules[j] == rules[i]
    ensures multiset(rules)[rules[i]] >= 2
  {
    var a, b := rules[..i], rules[i..];
    assert rules == a + b && a[j] == rules[i] && b[0] == rules[i];
    assert multiset(a)[rules[i]] >= 1 && multiset(b)[rules[i]] >= 1;
  }

  // ------------------------------------------------------------ its properties

  // The range holds exactly the configured rules, in order; everything else is
  // as before, in order.
  lemma AppliedHolds(s: RuleSet, rules: seq<Rule>)
    requires Valid(s) && Ordered(rules)
    ensures Filter(Applied(s, rules), Within(s)) == ByPriority(s.rules)
    ensures Filter(Applied(s, rules), Outside(s)) == Filter(rules, Outside(s))
  {
    Sides(s, rules);
    SortedFacts(s);
    OutsideIsTwoSides(s, rules);
    var sorted := ByPriority(s.rules);
    assert forall i :: 0 <= i < |sorted| ==> sorted[i] in sorted;
    Sandwich(Filter(rules, Below(s)), sorted, Filter(rules, Above(s)), Outside(s), Within(s));
  }

  lemma Sandwich(a: seq<Rule>, b: seq<Rule>, c: seq<Rule>, p: Rule -> bool, q: Rule -> bool)
    requires forall i :: 0 <= i < |a| ==> p(a[i]) && !q(a[i])
    requires forall i :: 0 <= i < |b| ==> !p(b[i]) && q(b[i])
    requires forall i :: 0 <= i < |c| ==> p(c[i]) && !q(c[i])
    ensures Filter(a + b + c, p) == a + c && Filter(a + b + c, q) == b
  {
    hide Filter;
    ThreeFilters(a, b, c, p);
    ThreeFilters(a, b, c, q);
    AllOrNone(a, p, q);
    AllOrNone(b, q, p);
    AllOrNone(c, p, q);
    WithoutMiddle(a, b, c);
  }

  lemma AllOrNone(a: seq<Rule>, p: Rule -> bool, q: Rule -> bool)
    requires forall i :: 0 <= i < |a| ==> p(a[i]) && !q(a[i])
    ensures Filter(a, p) == a && Filter(a, q) == []
  {
  }

  lemma WithoutMiddle(a: seq<Rule>, b: seq<Rule>, c: seq<Rule>)
    ensures a + [] + c == a + c && [] + b + [] == b
  {
  }

  lemma ThreeFilters(a: seq<Rule>, b: seq<Rule>, c: seq<Rule>, p: Rule -> bool)
    ensures Filter(a + b + c, p) == Filter(a, p) + Filter(b, p) + Filter(c, p)
  {
    FilterAppend(a + b, c, p);
    FilterAppend(a, b, p);
  }

  // What a side that lies beyond the range keeps.
  lemma AppliedSides(s: RuleSet, rules: seq<Rule>, keep: Rule -> bool)
    requires Valid(s) && Ordered(rules) && forall r :: keep(r) ==> !InRange(s, r.priority)
    ensures Filter(Applied(s, rules), keep) == Filter(rules, keep)
  {
    AppliedHolds(s, rules);
    var result := Applied(s, rules);
    FilterTwice(result, Outside(s), keep);
    FilterTwice(rules, Outside(s), keep);
    FilterSame(result, Both(Outside(s), keep), keep);
    FilterSame(rules, Both(Outside(s), keep), keep);
  }

  // Applying a rule set twice is applying it once.
  lemma AppliedTwice(s: RuleSet, rules: seq<Rule>)
    requires Valid(s) && Ordered(rules)
    ensures Applied(s, Applied(s, rules)) == Applied(s, rules)
  {
    AppliedSides(s, rules, Below(s));
    AppliedSides(s, rules, Above(s));
  }

  // An ordered list is what lies below, within and above a range.
  lemma {:induction false} ThreeParts(s: RuleSet, rules: seq<Rule>)
    requires s.start <= s.end && Ordered(rules)
    ensures rules == Filter(rules, Below(s)) + Filter(rules, Within(s)) + Filter(rules, Above(s))
  {
    hide Ordered, Filter;
    if rules == [] {
      NoParts(s);
    } else {
      var x, rest := rules[0], rules[1..];
      OrderedRest(rules);
      ThreeParts(s, rest);
      assert rules == [x] + rest;
      FirstPart(x, rest, Below(s));
      FirstPart(x, rest, Within(s));
      FirstPart(x, rest, Above(s));
      if x.priority >= s.start {
        FilterNone(rest, Below(s));
      }
      if x.priority > s.end {
        FilterNone(rest, Within(s));
      }
      Prepend([x], Filter(rest, Below(s)), Filter(rest, Within(s)), Filter(rest, Above(s)));
    }
  }

  lemma NoParts(s: RuleSet)
    ensures Filter([], Below(s)) + Filter([], Within(s)) + Filter([], Above(s)) == []
  {
  }

  lemma OrderedRest(rules: seq<Rule>)
    requires Ordered(rules) && rules != []
    ensures Ordered(rules[1..]) && forall i :: 0 <= i < |rules[1..]| ==> rules[1..][i].priority >= rules[0].priority
  {
  }

  lemma Prepend(x: seq<Rule>, b: seq<Rule>, w: seq<Rule>, a: seq<Rule>)
    ensures x + (b + w + a) == (x + b) + w + a
    ensures b == [] ==> x + (b + w + a) == ([] + b) + (x + w) + a
    ensures b == [] && w == [] ==> x + (b + w + a) == ([] + b) + ([] + w) + (x + a)
  {
  }

  lemma FirstPart(x: Rule, rest: seq<Rule>, keep: Rule -> bool)
    ensures Filter([x] + rest, keep) == (if keep(x) then [x] else []) + Filter(rest, keep)
  {
  }

  predicate Apart(s: RuleSet, t: RuleSet) {
    s.end < t.start || t.end < s.start
  }

  // Rule sets with disjoint ranges can be applied in either order.
  lemma DisjointCommute(s: RuleSet, t: RuleSet, rules: seq<Rule>)
    requires Valid(s) && Valid(t) && Apart(s, t) && Ordered(rules)
    ensures Applied(s, Applied(t, rules)) == Applied(t, Applied(s, rules))
  {
    hide Valid, Ordered, Applied;
    var a, b := Applied(s, Applied(t, rules)), Applied(t, Applied(s, rules));
    AppliedIs(t, rules);
    AppliedIs(s, rules);
    AppliedIs(s, Applied(t, rules));
    AppliedIs(t, Applied(s, rules));
    SideOfBoth(s, t, rules, Below(s));
    SideOfBoth(s, t, rules, Above(s));
    AppliedHolds(s, Applied(t, rules));
    WithinKept(s, t, Applied(s, rules));
    AppliedHolds(s, rules);
    StartsBefore(s);
    ThreeParts(s, a);
    ThreeParts(s, b);
  }

  lemma StartsBefore(s: RuleSet)
    requires Valid(s)
    ensures s.start <= s.end
  {
  }

  lemma WithinKept(s: RuleSet, t: RuleSet, rules: seq<Rule>)
    requires Valid(s) && Valid(t) && Apart(s, t) && Ordered(rules)
    ensures Filter(Applied(t, rules), Within(s)) == Filter(rules, Within(s))
  {
    AppliedSides(t, rules, Within(s));
  }

  // Below (or above) the range of s, both orders leave what t leaves.
  lemma SideOfBoth(s: RuleSet, t: RuleSet, rules: seq<Rule>, side: Rule -> bool)
    requires Valid(s) && Valid(t) && Apart(s, t) && Ordered(rules) && Ordered(Applied(s, rules)) && Ordered(Applied(t, rules))
    requires side == Below(s) || side == Above(s)
    ensures Filter(Applied(s, Applied(t, rules)), side) == Filter(Applied(t, Applied(s, rules)), side)
  {
    AppliedSides(s, Applied(t, rules), side);
    OneSide(s, t, rules, Applied(s, rules), side);
  }

  // Lists that agree on a side of s still agree there after t is applied.
  lemma OneSide(s: RuleSet, t: RuleSet, rules: seq<Rule>, other: seq<Rule>, side: Rule -> bool)
    requires Valid(s) && Valid(t) && Apart(s, t) && Ordered(rules) && other == Applied(s, rules)
    requires side == Below(s) || side == Above(s)
    ensures Filter(Applied(t, rules), side) == Filter(Applied(t, other), side)
  {
    AppliedSides(s, rules, Below(s));
    AppliedSides(s, rules, Above(s));
    SideOfApplied(t, rules, side);
    SideOfApplied(t, other, side);
    SameOnSide(rules, other, Below(t), side);
    SameOnSide(rules, other, Above(t), side);
  }

  lemma SideOfApplied(t: RuleSet, rules: seq<Rule>, side: Rule -> bool)
    ensures Filter(Applied(t, rules), side)
         == Filter(Filter(rules, Below(t)), side) + Filter(ByPriority(t.rules), side) + Filter(Filter(rules, Above(t)), side)
  {
    FilterAppend(Filter(rules, Below(t)) + ByPriority(t.rules), Filter(rules, Above(t)), side);
    FilterAppend(Filter(rules, Below(t)), ByPriority(t.rules), side);
  }

  lemma SameOnSide(rules: seq<Rule>, other: seq<Rule>, keep: Rule -> bool, side: Rule -> bool)
    requires Filter(rules, side) == Filter(other, side)
    ensures Filter(Filter(rules, keep), side) == Filter(Filter(other, keep), side)
  {
    FilterTwice(rules, keep, side);
    FilterTwice(other, keep, side);
    FilterTwice(rules, side, keep);
    FilterTwice(other, side, keep);
    FilterSame(rules, Both(keep, side), Both(side, keep));
    FilterSame(other, Both(keep, side), Both(side, keep));
  }
}
