// Interfaces in dependency order, and their ifupdown files
// (src/dros/plugins/network_interfaces.py:596-605 and 1639-1728).
module InterfaceOrder {
  import opened Wrappers
  import opened Sequences
  import opened Graphs
  import opened Ordering
  import opened Numerals
  import opened DepthFirst

  // The fields of an interface spec that name other interfaces. A field that is
  // not a string is None.
  datatype Interface = Interface(kind: string, parent: Option<string>, ports: seq<string>, device: Option<string>)

  // _normalized_interface_type
  function Normalized(kind: string): string {
    if kind == "ethernet" then "eth" else kind
  }

  const TYPE_ORDER := map[
    "eth" := 0, "ethernet" := 0, "bridge" := 1, "vlan" := 2, "loopback" := 3, "gre" := 4, "wireguard" := 5,
    "openvpn" := 6, "tailscale" := 7, "pppoe" := 8, "docker" := 9, "external" := 10]

  const IFUPDOWN_TYPES := {"eth", "bridge", "vlan", "loopback", "gre", "pppoe", "wireguard", "openvpn"}

  // What an interface depends on, as far as those interfaces exist.
  function Needs(i: Interface): set<string> {
    if Normalized(i.kind) == "vlan" then (if i.parent.Some? then {i.parent.value} else {})
    else if Normalized(i.kind) == "bridge" then set port | port in i.ports
    else if Normalized(i.kind) == "pppoe" then (if i.device.Some? then {i.device.value} else {})
    else {}
  }

  function DependencyGraph(interfaces: map<string, Interface>): Graph {
    map n | n in interfaces :: Needs(interfaces[n]) * interfaces.Keys
  }

  // _append_dependency
  method AppendDependency(dependencies: seq<string>, value: Option<string>, names: set<string>) returns (more: seq<string>)
    requires Distinct(dependencies)
    ensures Distinct(more)
    ensures forall d :: d in more <==> d in dependencies || (value == Some(d) && d in names)
  {
    more := dependencies;
    if value.Some? && value.value in names && value.value !in dependencies {
      more := dependencies + [value.value];
    }
  }

  // _interface_dependencies
  method InterfaceDependencies(i: Interface, names: set<string>) returns (dependencies: seq<string>)
    ensures Distinct(dependencies)
    ensures forall d :: d in dependencies <==> d in Needs(i) * names
    ensures forall d :: d in dependencies <==>
              d in names
              && ( || (i.kind == "vlan" && i.parent == Some(d))
                   || (i.kind == "bridge" && d in i.ports)
                   || (i.kind == "pppoe" && i.device == Some(d)))
  {
    dependencies := [];
    if Normalized(i.kind) == "vlan" {
      dependencies := AppendDependency(dependencies, i.parent, names);
    } else if Normalized(i.kind) == "bridge" {
      for k := 0 to |i.ports|
        invariant Distinct(dependencies)
        invariant forall d :: d in dependencies <==> d in i.ports[..k] && d in names
      {
        assert i.ports[..k + 1] == i.ports[..k] + [i.ports[k]];
        dependencies := AppendDependency(dependencies, Some(i.ports[k]), names);
      }
      assert i.ports[..|i.ports|] == i.ports;
    } else if Normalized(i.kind) == "pppoe" {
      dependencies := AppendDependency(dependencies, i.device, names);
    }
  }

  // ---------------------------------------------------------------- sort order

  function TypeRank(interfaces: map<string, Interface>, name: string): int {
    if name !in interfaces then 50
    else
      var kind := Normalized(interfaces[name].kind);
      if kind in TYPE_ORDER then TYPE_ORDER[kind] else 50
  }

  // Comparison by _interface_sort_key.
  predicate KeyAtMost(interfaces: map<string, Interface>, a: string, b: string) {
    TypeRank(interfaces, a) < TypeRank(interfaces, b)
    || (TypeRank(interfaces, a) == TypeRank(interfaces, b) && AtMost(a, b))
  }

  function ByKey(interfaces: map<string, Interface>): (string, string) -> bool {
    (a, b) => KeyAtMost(interfaces, a, b)
  }

  lemma KeysAreOrdered(interfaces: map<string, Interface>)
    ensures TotalOrder(ByKey(interfaces))
  {
    hide AtMost, TypeRank;
    StringsAreOrdered();
    var le := ByKey(interfaces);
    forall a, b
      ensures le(a, b) || le(b, a)
      ensures le(a, b) && le(b, a) ==> a == b
    {
    }
    forall a, b, c | le(a, b) && le(b, c)
      ensures le(a, c)
    {
    }
  }

  // Plain devices first, then what is built on them, tunnels and services last;
  // a kind of no known place comes after all of these.
  function Place(kind: string): nat {
    if kind == "eth" || kind == "ethernet" then 0
    else if kind == "bridge" then 1
    else if kind == "vlan" then 2
    else if kind == "loopback" then 3
    else if kind == "gre" then 4
    else if kind == "wireguard" then 5
    else if kind == "openvpn" then 6
    else if kind == "tailscale" then 7
    else if kind == "pppoe" then 8
    else if kind == "docker" then 9
    else if kind == "external" then 10
    else 11
  }

  lemma RankIff(interfaces: map<string, Interface>, a: string, b: string)
    requires a in interfaces && b in interfaces
    ensures TypeRank(interfaces, a) < TypeRank(interfaces, b) <==> Place(interfaces[a].kind) < Place(interfaces[b].kind)
  {
  }

  // Interfaces are sorted by the place of their kind, and by name among equals.
  lemma KeyIff(interfaces: map<string, Interface>, a: string, b: string)
    requires a in interfaces && b in interfaces
    ensures KeyAtMost(interfaces, a, b) <==>
              || Place(interfaces[a].kind) < Place(interfaces[b].kind)
              || (Place(interfaces[a].kind) == Place(interfaces[b].kind) && (a == b || Less(a, b)))
  {
    hide TypeRank, Place, Less;
    RankIff(interfaces, a, b);
    RankIff(interfaces, b, a);
  }

  // The dependencies of each interface in the order they are visited in.
  ghost function VisitLists(interfaces: map<string, Interface>): Lists {
    KeysAreOrdered(interfaces);
    map n | n in interfaces :: SortedSet(ByKey(interfaces), Needs(interfaces[n]) * interfaces.Keys)
  }

  lemma ListsMeanGraph(interfaces: map<string, Interface>)
    ensures WellFormed(VisitLists(interfaces)) && VisitLists(interfaces).Keys == interfaces.Keys
    ensures GraphOf(VisitLists(interfaces)) == DependencyGraph(interfaces)
  {
    hide Needs, SortedSet, TotalOrder, ByKey;
    KeysAreOrdered(interfaces);
    forall n | n in interfaces
      ensures (set b | b in VisitLists(interfaces)[n]) == Needs(interfaces[n]) * interfaces.Keys
    {
      SortedSetFacts(ByKey(interfaces), Needs(interfaces[n]) * interfaces.Keys);
    }
    forall a, b | a in interfaces && b in VisitLists(interfaces)[a]
      ensures b in interfaces
    {
      SortedSetFacts(ByKey(interfaces), Needs(interfaces[a]) * interfaces.Keys);
    }
  }

  ghost function SortState(interfaces: map<string, Interface>, roots: set<string>): State {
    KeysAreOrdered(interfaces);
    VisitAll(VisitLists(interfaces), SortedSet(ByKey(interfaces), roots), START)
  }

  // ------------------------------------------------------------------ the sort

  // The variables that visit() shares with _sort_interface_objects.
  class Sorter {
    const interfaces: map<string, Interface>
    var states: map<string, Mark>
    var stack: seq<string>
    var ordered: seq<string>
    var errors: seq<seq<string>>

    constructor (interfaces: map<string, Interface>)
      ensures this.interfaces == interfaces && Here() == START
    {
      this.interfaces := interfaces;
      states, stack, ordered, errors := map[], [], [], [];
    }

    function Here(): State
      reads this
    {
      State(states, stack, ordered, errors)
    }

    ghost function Unvisited(): nat
      reads this
    {
      Left(VisitLists(interfaces), Here())
    }

    method ReportCycle(name: string)
      requires name in stack
      modifies this`errors
      ensures Here() == Report(old(Here()), name)
    {
      var cycle := stack[Position(stack, name)..] + [name];
      if cycle !in errors {
        errors := errors + [cycle];
      }
    }

    // visit(name)
    method VisitName(name: string)
      requires OnStack(Here())
      modifies this
      ensures Here() == Visit(VisitLists(interfaces), name, old(Here()))
      decreases Unvisited(), 0
    {
      hide OnStack, VisitLists, Left, Enter, Leave, Report;
      ghost var st := Here();
      if name in states {
        if states[name] == Visiting {
          StackHolds(st, name);
          ReportCycle(name);
        }
        return;
      }
      ListsMeanGraph(interfaces);
      if name !in interfaces {
        return;
      }
      EnterLeavesLess(VisitLists(interfaces), st, name);
      states, stack := states[name := Visiting], stack + [name];
      EnterIs(st, name, Here());
      EnterOnStack(st, name);
      var dependencies := InterfaceDependencies(interfaces[name], interfaces.Keys);
      KeysAreOrdered(interfaces);
      var needed := set d | d in dependencies;
      var names := Sorted(ByKey(interfaces), needed);
      NamesAreList(interfaces, name, needed, names);
      VisitNames(names);
      ghost var after := Here();
      stack := stack[..|stack| - 1];
      states := states[name := Done];
      ordered := ordered + [name];
      LeaveIs(after, name, Here());
    }

    method VisitNames(names: seq<string>)
      requires OnStack(Here())
      modifies this
      ensures Here() == VisitAll(VisitLists(interfaces), names, old(Here()))
      decreases Unvisited(), |names|
    {
      hide OnStack, VisitLists, Left, Visit;
      ghost var st, lists := Here(), VisitLists(interfaces);
      for i := 0 to |names|
        invariant Here() == VisitAll(lists, names[..i], st)
      {
        assert names[..i + 1][..i] == names[..i];
        FewerLeft(lists, st, Here());
        VisitName(names[i]);
      }
      assert names[..|names|] == names;
    }
  }

  lemma StackHolds(st: State, name: string)
    requires OnStack(st) && name in st.states && st.states[name] == Visiting
    ensures name in st.stack
  {
  }

  lemma EnterIs(st: State, name: string, r: State)
    requires r == st.(states := st.states[name := Visiting], stack := st.stack + [name])
    ensures r == Enter(st, name)
  {
  }

  lemma LeaveIs(st: State, name: string, r: State)
    requires st.stack != []
    requires r == st.(states := st.states[name := Done], stack := st.stack[..|st.stack| - 1], ordered := st.ordered + [name])
    ensures r == Leave(st, name)
  {
  }

  lemma NamesAreList(interfaces: map<string, Interface>, name: string, dependencies: set<string>, names: seq<string>)
    requires name in interfaces && TotalOrder(ByKey(interfaces))
    requires forall d :: d in dependencies <==> d in Needs(interfaces[name]) * interfaces.Keys
    requires names == SortedSet(ByKey(interfaces), dependencies)
    ensures names == VisitLists(interfaces)[name]
  {
    assert dependencies == Needs(interfaces[name]) * interfaces.Keys;
  }

  // _sort_interface_objects; without roots, all interfaces are roots.
  method SortInterfaces(interfaces: map<string, Interface>, roots: Option<set<string>>)
    returns (ordered: seq<string>, errors: seq<seq<string>>)
    ensures errors == SortState(interfaces, RootNames(interfaces, roots)).errors
    ensures ordered == if errors == [] then SortState(interfaces, RootNames(interfaces, roots)).ordered else []
    ensures roots == None ==> errors == SortState(interfaces, interfaces.Keys).errors
    ensures forall rs :: roots == Some(rs) ==> errors == SortState(interfaces, rs * interfaces.Keys).errors
  {
    hide TotalOrder, VisitLists, VisitAll, SortedSet;
    var sorter := new Sorter(interfaces);
    KeysAreOrdered(interfaces);
    var rootNames := RootNames(interfaces, roots);
    var names := Sorted(ByKey(interfaces), rootNames);
    sorter.VisitNames(names);
    if sorter.errors != [] {
      return [], sorter.errors;
    }
    return sorter.ordered, [];
  }

  function RootNames(interfaces: map<string, Interface>, roots: Option<set<string>>): set<string> {
    if roots.None? then interfaces.Keys else roots.value * interfaces.Keys
  }

  // The sort fails if and only if a dependency cycle can be reached from the
  // roots, and reports only such cycles; otherwise it lists the dependency
  // closure of the roots, each interface once, after all it depends on.
  lemma SortedByDependency(interfaces: map<string, Interface>, roots: set<string>)
    requires roots <= interfaces.Keys
    ensures SortState(interfaces, roots).errors == [] <==> !ReachableCycle(DependencyGraph(interfaces), roots)
    ensures forall i :: 0 <= i < |SortState(interfaces, roots).errors|
                        ==> RealCycle(DependencyGraph(interfaces), roots, SortState(interfaces, roots).errors[i])
    ensures SortState(interfaces, roots).errors == []
            ==> Topological(DependencyGraph(interfaces), roots, SortState(interfaces, roots).ordered)
  {
    hide VisitAll, RealCycle, ReachableCycle, Topological, VisitLists, DependencyGraph, TotalOrder, ByKey;
    KeysAreOrdered(interfaces);
    ListsMeanGraph(interfaces);
    var names := SortedSet(ByKey(interfaces), roots);
    SortedSetFacts(ByKey(interfaces), roots);
    SortIsTopological(VisitLists(interfaces), roots, names);
  }

  // Roots without dependencies come in key order.
  lemma IndependentByKey(interfaces: map<string, Interface>, roots: set<string>)
    requires roots <= interfaces.Keys && forall r :: r in roots ==> DependencyGraph(interfaces)[r] == {}
    ensures TotalOrder(ByKey(interfaces)) && SortState(interfaces, roots).errors == []
    ensures SortState(interfaces, roots).ordered == SortedSet(ByKey(interfaces), roots)
  {
    hide TotalOrder, ByKey;
    KeysAreOrdered(interfaces);
    SortedSetFacts(ByKey(interfaces), roots);
    var names := SortedSet(ByKey(interfaces), roots);
    forall n | n in names
      ensures VisitLists(interfaces)[n] == []
    {
      assert DependencyGraph(interfaces)[n] == {};
    }
    assert Distinct(names) by { IncreasingIsDistinct(interfaces, names); }
    LeavesVisited(VisitLists(interfaces), names, START);
  }

  lemma IncreasingIsDistinct(interfaces: map<string, Interface>, names: seq<string>)
    requires Increasing(ByKey(interfaces), names)
    ensures Distinct(names)
  {
  }

  // An interface comes right after its dependencies, which come in key order.
  lemma DependenciesByKey(interfaces: map<string, Interface>, r: string)
    requires r in interfaces && r !in DependencyGraph(interfaces)[r]
    requires forall d :: d in DependencyGraph(interfaces)[r] ==> DependencyGraph(interfaces)[d] == {}
    ensures TotalOrder(ByKey(interfaces)) && SortState(interfaces, {r}).errors == []
    ensures SortState(interfaces, {r}).ordered == SortedSet(ByKey(interfaces), DependencyGraph(interfaces)[r]) + [r]
  {
    hide TotalOrder, ByKey;
    KeysAreOrdered(interfaces);
    var deps := DependencyGraph(interfaces)[r];
    SortedSetFacts(ByKey(interfaces), deps);
    IncreasingIsDistinct(interfaces, SortedSet(ByKey(interfaces), deps));
    OneInOrder(interfaces, r);
    forall n | n in VisitLists(interfaces)[r]
      ensures n in interfaces && VisitLists(interfaces)[n] == []
    {
      assert DependencyGraph(interfaces)[n] == {};
    }
    BranchVisited(VisitLists(interfaces), r);
  }

  lemma OneInOrder(interfaces: map<string, Interface>, r: string)
    requires TotalOrder(ByKey(interfaces))
    ensures SortedSet(ByKey(interfaces), {r}) == [r]
  {
    hide ByKey;
    assert ByKey(interfaces)(r, r);
    OnlyIncreasing(ByKey(interfaces), {r}, [r]);
  }

  // All interfaces, or the selected ones when another part is cyclic.
  ghost function UpdateRoots(interfaces: map<string, Interface>, selected: set<string>): set<string> {
    if !ReachableCycle(DependencyGraph(interfaces), interfaces.Keys) then interfaces.Keys
    else selected * interfaces.Keys
  }

  lemma MoreRootsMoreCycles(g: Graph, some: set<string>, roots: set<string>)
    requires some <= roots
    ensures ReachableCycle(g, some) ==> ReachableCycle(g, roots)
  {
    if c :| RealCycle(g, some, c) {
      assert RealCycle(g, roots, c);
    }
  }

  // _interfaces_for_update_order: it raises, with the cycles, if and only if one
  // can be reached from the selected interfaces.
  method InterfacesForUpdateOrder(interfaces: map<string, Interface>, selected: set<string>)
    returns (r: Result<seq<string>, seq<seq<string>>>)
    ensures r.Failure? <==> ReachableCycle(DependencyGraph(interfaces), selected * interfaces.Keys)
    ensures r.Failure? ==> forall i :: 0 <= i < |r.error| ==>
              RealCycle(DependencyGraph(interfaces), selected * interfaces.Keys, r.error[i])
    ensures r.Success? ==>
              && r.value == SortState(interfaces, UpdateRoots(interfaces, selected)).ordered
              && Topological(DependencyGraph(interfaces), UpdateRoots(interfaces, selected), r.value)
  {
    hide SortState, RealCycle, ReachableCycle, Topological, DependencyGraph;
    SortedByDependency(interfaces, interfaces.Keys);
    SortedByDependency(interfaces, selected * interfaces.Keys);
    MoreRootsMoreCycles(DependencyGraph(interfaces), selected * interfaces.Keys, interfaces.Keys);
    var ordered, errors := SortInterfaces(interfaces, None);
    if errors == [] {
      return Success(ordered);
    }
    var selectedOrdered, selectedErrors := SortInterfaces(interfaces, Some(selected));
    if selectedErrors != [] {
      return Failure(selectedErrors);
    }
    return Success(selectedOrdered);
  }

  // -------------------------------------------------------------- file names

  predicate HasFile(interfaces: map<string, Interface>, name: string) {
    name in interfaces && Normalized(interfaces[name].kind) in IFUPDOWN_TYPES
  }

  lemma HasFileIff(interfaces: map<string, Interface>, name: string)
    ensures HasFile(interfaces, name) <==>
              && name in interfaces
              && var kind := interfaces[name].kind;
                 || kind == "eth" || kind == "ethernet" || kind == "bridge" || kind == "vlan" || kind == "loopback"
                 || kind == "gre" || kind == "pppoe" || kind == "wireguard" || kind == "openvpn"
  {
  }

  // The interfaces that have a file, in order.
  function WithFiles(interfaces: map<string, Interface>, ordered: seq<string>): seq<string> {
    if ordered == [] then []
    else
      var last := ordered[|ordered| - 1];
      WithFiles(interfaces, ordered[..|ordered| - 1]) + if HasFile(interfaces, last) then [last] else []
  }

  // Each file with its place among the files.
  ghost predicate Places(files: seq<string>, order: map<string, nat>) {
    && Distinct(files) && |order| == |files|
    && (forall n :: n in order <==> n in files)
    && forall n :: n in order ==> order[n] == Position(files, n)
  }

  lemma PlacesNext(files: seq<string>, order: map<string, nat>, name: string)
    requires Places(files, order) && name !in files
    ensures Places(files + [name], order[name := |order|])
  {
  }

  // _ifupdown_file_order
  method FileOrder(interfaces: map<string, Interface>, ordered: seq<string>) returns (order: map<string, nat>)
    requires Distinct(ordered)
    ensures Places(WithFiles(interfaces, ordered), order)
  {
    hide HasFile, Places;
    order := map[];
    assert Places([], order) by { NoPlaces(); }
    for i := 0 to |ordered|
      invariant Places(WithFiles(interfaces, ordered[..i]), order)
    {
      var name := ordered[i];
      assert ordered[..i + 1][..i] == ordered[..i];
      WithFilesMember(interfaces, ordered[..i], name);
      if HasFile(interfaces, name) {
        PlacesNext(WithFiles(interfaces, ordered[..i]), order, name);
        order := order[name := |order|];
      } else {
        assert WithFiles(interfaces, ordered[..i]) + [] == WithFiles(interfaces, ordered[..i]);
      }
    }
    assert ordered[..|ordered|] == ordered;
  }

  lemma NoPlaces()
    ensures Places([], map[])
  {
  }

  lemma {:induction false} WithFilesMember(interfaces: map<string, Interface>, ordered: seq<string>, n: string)
    ensures n in WithFiles(interfaces, ordered) <==> n in ordered && HasFile(interfaces, n)
  {
    hide HasFile;
    if ordered != [] {
      WithFilesMember(interfaces, ordered[..|ordered| - 1], n);
      assert ordered == ordered[..|ordered| - 1] + [ordered[|ordered| - 1]];
    }
  }

  const FILE_STEP := 10

  // _safe_name
  function SafeName(name: string): string {
    if name == "" then ""
    else
      var c := name[0];
      [if 'a' <= c <= 'z' || 'A' <= c <= 'Z' || '0' <= c <= '9' || c == '_' || c == '.' || c == ':' || c == '-' then c else '_']
      + SafeName(name[1..])
  }

  // Letters, digits, underscore, dot, colon and hyphen, by their code points.
  predicate Allowed(c: char) {
    var n := c as int;
    97 <= n <= 122 || 65 <= n <= 90 || 48 <= n <= 57 || n == 95 || n == 46 || n == 58 || n == 45
  }

  // A file name keeps the allowed characters, each in its place.
  lemma {:induction false} SafeNameIs(name: string)
    ensures |SafeName(name)| == |name|
    ensures forall i :: 0 <= i < |name| ==> SafeName(name)[i] == if Allowed(name[i]) then name[i] else '_'
  {
    if name != "" {
      SafeNameIs(name[1..]);
      SafeNameNext(name);
      hide SafeName, Allowed;
      assert forall i :: 0 < i < |name| ==> SafeName(name)[i] == SafeName(name[1..])[i - 1] && name[i] == name[1..][i - 1];
    }
  }

  lemma SafeNameNext(name: string)
    requires name != ""
    ensures SafeName(name) == [if Allowed(name[0]) then name[0] else '_'] + SafeName(name[1..])
  {
  }

  function FileNumber(order: nat): string {
    Pad(Decimal((order + 1) * FILE_STEP), 3)
  }

  // _interface_file_path
  function FilePath(name: string, order: nat): string {
    "/etc/network/interfaces.d/" + (FileNumber(order) + ("-dros-" + SafeName(name) + ".cfg"))
  }

  predicate ThreeDigits(s: string) {
    |s| == 3 && forall i :: 0 <= i < 3 ==> '0' <= s[i] <= '9'
  }

  lemma ValueOfThree(s: string)
    requires ThreeDigits(s)
    ensures Value(s, 10) == Some((s[0] - '0') as nat * 100 + (s[1] - '0') as nat * 10 + (s[2] - '0') as nat)
  {
    assert s[..2][..1] == s[..1] && s[..1][..0] == "" && s[..2][1] == s[1] && s[..1][0] == s[0];
    assert Value(s[..1], 10) == Some((s[0] - '0') as nat);
    assert Value(s[..2], 10) == Some((s[0] - '0') as nat * 10 + (s[1] - '0') as nat);
  }

  lemma LessOfThree(s: string, t: string)
    requires ThreeDigits(s) && ThreeDigits(t) && Value(s, 10).Some? && Value(t, 10).Some?
    ensures Less(s, t) <==> Value(s, 10).value < Value(t, 10).value
  {
    ValueOfThree(s);
    ValueOfThree(t);
    hide Value, Less;
    LessNext(s, t);
    LessNext(s[1..], t[1..]);
    LessNext(s[1..][1..], t[1..][1..]);
    assert s[1..][1..][1..] == "" && t[1..][1..][1..] == "";
    LessIrreflexive("");
  }

  lemma LessNext(s: string, t: string)
    requires s != "" && t != ""
    ensures Less(s, t) <==> s[0] < t[0] || (s[0] == t[0] && Less(s[1..], t[1..]))
  {
  }

  lemma {:induction false} DigitsLength(n: nat, k: nat)
    requires k > 0 && n < Power10(k)
    ensures |Decimal(n)| <= k
  {
    if n >= 10 {
      assert k > 1;
      DigitsLength(n / 10, k - 1);
      assert Decimal(n) == Decimal(n / 10) + [DigitChar(n % 10)];
    } else {
      assert Decimal(n) == [DigitChar(n)];
    }
  }

  function Power10(k: nat): nat {
    if k == 0 then 1 else 10 * Power10(k - 1)
  }

  lemma {:induction false} PadDigits(s: string, width: nat)
    requires forall i :: 0 <= i < |s| ==> '0' <= s[i] <= '9'
    ensures forall i :: 0 <= i < |Pad(s, width)| ==> '0' <= Pad(s, width)[i] <= '9'
    decreases width - |s|
  {
    if |s| < width {
      PadDigits("0" + s, width);
    }
  }

  // Up to 99 files the number has three digits and its value.
  lemma ShortNumber(order: nat)
    requires order < 99
    ensures ThreeDigits(FileNumber(order)) && Value(FileNumber(order), 10) == Some((order + 1) * FILE_STEP)
  {
    var n := (order + 1) * FILE_STEP;
    assert Power10(3) == 1000 by {
      assert Power10(1) == 10 && Power10(2) == 100;
    }
    DigitsLength(n, 3);
    DecimalDigits(n);
    PadDigits(Decimal(n), 3);
    DigitsRoundTrip(n, 10);
    PadKeepsValue(Decimal(n), 3, 10);
    assert FileNumber(order) != "";
  }

  lemma PathsCompare(a: string, i: nat, b: string, j: nat)
    requires |FileNumber(i)| == |FileNumber(j)| && FileNumber(i) != FileNumber(j)
    ensures Less(FilePath(a, i), FilePath(b, j)) == Less(FileNumber(i), FileNumber(j))
  {
    hide FileNumber, SafeName;
    var x, y := "-dros-" + SafeName(a) + ".cfg", "-dros-" + SafeName(b) + ".cfg";
    LessAfterPrefix("/etc/network/interfaces.d/", FileNumber(i) + x, FileNumber(j) + y);
    LessInPrefix(FileNumber(i), FileNumber(j), x, y);
  }

  lemma OrderedBelow99(a: string, i: nat, b: string, j: nat)
    requires i < j < 99
    ensures Less(FilePath(a, i), FilePath(b, j))
  {
    ShortNumber(i);
    ShortNumber(j);
    hide FileNumber, FilePath, Value;
    LessOfThree(FileNumber(i), FileNumber(j));
    PathsCompare(a, i, b, j);
  }

  // "1000-..." sorts before "990-...".
  lemma DisorderedAt99(a: string, b: string)
    ensures !Less(FilePath(a, 98), FilePath(b, 99)) && Less(FilePath(b, 99), FilePath(a, 98))
  {
    var x, y := FileNumber(98) + ("-dros-" + SafeName(a) + ".cfg"), FileNumber(99) + ("-dros-" + SafeName(b) + ".cfg");
    LessAfterPrefix("/etc/network/interfaces.d/", x, y);
    LessAfterPrefix("/etc/network/interfaces.d/", y, x);
    ShortNumber(98);
    ValueOfThree(FileNumber(98));
    FirstDigitOf1000();
    hide FileNumber, SafeName;
    assert x[0] == FileNumber(98)[0] && y[0] == FileNumber(99)[0];
  }

  lemma FirstDigitOf1000()
    ensures FileNumber(99) != "" && FileNumber(99)[0] == '1'
  {
    assert Decimal(1) == "1";
    assert Decimal(10) == Decimal(1) + "0";
    assert Decimal(100) == Decimal(10) + "0";
    assert Decimal(1000) == Decimal(100) + "0";
  }

  // The file names of n files sort in their order, whatever the interfaces are
  // called, if and only if there are at most 99.
  lemma FilesInOrderIff(names: seq<string>)
    ensures (forall i, j :: 0 <= i < j < |names| ==> Less(FilePath(names[i], i), FilePath(names[j], j))) <==> |names| <= 99
  {
    hide FilePath;
    if |names| <= 99 {
      forall i, j | 0 <= i < j < |names|
        ensures Less(FilePath(names[i], i), FilePath(names[j], j))
      {
        OrderedBelow99(names[i], i, names[j], j);
      }
    } else {
      DisorderedAt99(names[98], names[99]);
    }
  }

  // ----------------------------------------------- file names and dependencies

  lemma {:induction false} WithFilesKeepsOrder(interfaces: map<string, Interface>, ordered: seq<string>, a: string, b: string)
    requires Distinct(ordered) && a in ordered && b in ordered && Position(ordered, a) < Position(ordered, b)
    requires HasFile(interfaces, a) && HasFile(interfaces, b)
    ensures Distinct(WithFiles(interfaces, ordered))
    ensures a in WithFiles(interfaces, ordered) && b in WithFiles(interfaces, ordered)
    ensures Position(WithFiles(interfaces, ordered), a) < Position(WithFiles(interfaces, ordered), b)
  {
    hide HasFile;
    var init, last := ordered[..|ordered| - 1], ordered[|ordered| - 1];
    var files := WithFiles(interfaces, init);
    WithFilesDistinct(interfaces, ordered);
    WithFilesDistinct(interfaces, init);
    WithFilesMember(interfaces, init, a);
    assert ordered == init + [last];
    assert a in init by {
      assert ordered[Position(ordered, a)] == a;
    }
    if b == last {
      PositionUnique(WithFiles(interfaces, ordered), Position(files, a));
      PositionUnique(WithFiles(interfaces, ordered), |files|);
    } else {
      assert b in init;
      PositionUnique(ordered, Position(init, a));
      PositionUnique(ordered, Position(init, b));
      WithFilesKeepsOrder(interfaces, init, a, b);
      PositionUnique(WithFiles(interfaces, ordered), Position(files, a));
      PositionUnique(WithFiles(interfaces, ordered), Position(files, b));
    }
  }

  lemma {:induction false} WithFilesDistinct(interfaces: map<string, Interface>, ordered: seq<string>)
    requires Distinct(ordered)
    ensures Distinct(WithFiles(interfaces, ordered))
  {
    if ordered != [] {
      hide HasFile;
      WithFilesDistinct(interfaces, ordered[..|ordered| - 1]);
      WithFilesMember(interfaces, ordered[..|ordered| - 1], ordered[|ordered| - 1]);
    }
  }

  // In an order without reported cycles and with at most 99 files, the file of a
  // dependency sorts before the file of everything that depends on it.
  lemma FilesFollowDependencies(interfaces: map<string, Interface>, roots: set<string>, a: string, b: string)
    requires roots <= interfaces.Keys && !ReachableCycle(DependencyGraph(interfaces), roots)
    requires FromRoots(DependencyGraph(interfaces), roots, a) && Edge(DependencyGraph(interfaces), a, b)
    requires HasFile(interfaces, a) && HasFile(interfaces, b)
    ensures Topological(DependencyGraph(interfaces), roots, SortState(interfaces, roots).ordered)
    ensures var files := WithFiles(interfaces, SortState(interfaces, roots).ordered);
            && a in files && b in files
            && (|files| <= 99 ==> Less(FilePath(b, Position(files, b)), FilePath(a, Position(files, a))))
  {
    hide SortState, HasFile, FilePath, FromRoots, ReachableCycle;
    var g, ordered := DependencyGraph(interfaces), SortState(interfaces, roots).ordered;
    SortedByDependency(interfaces, roots);
    DependencyIsEarlier(g, ordered, a, b);
    WithFilesKeepsOrder(interfaces, ordered, b, a);
    var files := WithFiles(interfaces, ordered);
    if |files| <= 99 {
      OrderedBelow99(b, Position(files, b), a, Position(files, a));
    }
  }

  lemma DependencyIsEarlier(g: Graph, ordered: seq<string>, a: string, b: string)
    requires Distinct(ordered) && DependenciesFirst(g, ordered) && a in ordered && Edge(g, a, b)
    ensures b in ordered && Position(ordered, b) < Position(ordered, a)
  {
  }
}
