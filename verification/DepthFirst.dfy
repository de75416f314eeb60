// The depth-first sort of _sort_interface_objects as a function of its state
// (src/dros/plugins/network_interfaces.py:1639-1687), and what it promises.
module DepthFirst {
  import opened Sequences
  import opened Graphs

  datatype Mark = Visiting | Done

  // errors holds the reported cycles, in order.
  datatype State = State(states: map<string, Mark>, stack: seq<string>, ordered: seq<string>, errors: seq<seq<string>>)

  const START := State(map[], [], [], [])

  // Each node with its dependencies in the order they are visited in.
  type Lists = map<string, seq<string>>

  function GraphOf(lists: Lists): Graph {
    map a | a in lists :: set b | b in lists[a]
  }

  lemma EdgeOf(lists: Lists, a: string, b: string)
    ensures Edge(GraphOf(lists), a, b) <==> a in lists && b in lists[a]
  {
  }

  // Every dependency is a node.
  ghost predicate WellFormed(lists: Lists) {
    forall a, b :: a in lists && b in lists[a] ==> b in lists
  }

  ghost predicate OnStack(st: State) {
    forall x :: x in st.states && st.states[x] == Visiting <==> x in st.stack
  }

  // stack[stack.index(name):] + [name]
  function CycleAt(stack: seq<string>, name: string): (cycle: seq<string>)
    requires name in stack
    ensures |cycle| > 1 && cycle[0] == name == cycle[|cycle| - 1]
  {
    stack[Position(stack, name)..] + [name]
  }

  function Report(st: State, name: string): State
    requires name in st.stack
  {
    var cycle := CycleAt(st.stack, name);
    if cycle in st.errors then st else st.(errors := st.errors + [cycle])
  }

  function Enter(st: State, name: string): State {
    st.(states := st.states[name := Visiting], stack := st.stack + [name])
  }

  function Leave(st: State, name: string): State
    requires st.stack != []
  {
    st.(states := st.states[name := Done], stack := st.stack[..|st.stack| - 1], ordered := st.ordered + [name])
  }

  function Left(lists: Lists, st: State): nat {
    |lists.Keys - st.states.Keys|
  }

  lemma EnterLeavesLess(lists: Lists, st: State, name: string)
    requires name in lists && name !in st.states
    ensures Left(lists, Enter(st, name)) < Left(lists, st)
  {
    var before, after := lists.Keys - st.states.Keys, lists.Keys - Enter(st, name).states.Keys;
    assert after == before - {name} && name in before;
  }

  lemma FewerLeft(lists: Lists, st: State, r: State)
    requires st.states.Keys <= r.states.Keys
    ensures Left(lists, r) <= Left(lists, st)
  {
    SubsetIsSmaller(lists.Keys - r.states.Keys, lists.Keys - st.states.Keys);
  }

  lemma {:induction false} SubsetIsSmaller(a: set<string>, b: set<string>)
    requires a <= b
    ensures |a| <= |b|
  {
    if a != {} {
      var x :| x in a;
      SubsetIsSmaller(a - {x}, b - {x});
    }
  }

  // visit(name)
  function Visit(lists: Lists, name: string, st: State): (r: State)
    requires OnStack(st)
    ensures OnStack(r) && r.stack == st.stack && st.states.Keys <= r.states.Keys
    decreases Left(lists, st), 0
  {
    if name in st.states then
      if st.states[name] == Done then st else Report(st, name)
    else if name !in lists then st
    else
      EnterLeavesLess(lists, st, name);
      EnterOnStack(st, name);
      var after := VisitAll(lists, lists[name], Enter(st, name));
      LeaveOnStack(after, st.stack, name);
      Leave(after, name)
  }

  function VisitAll(lists: Lists, names: seq<string>, st: State): (r: State)
    requires OnStack(st)
    ensures OnStack(r) && r.stack == st.stack && st.states.Keys <= r.states.Keys
    decreases Left(lists, st), |names|
  {
    if names == [] then st
    else
      var before := VisitAll(lists, names[..|names| - 1], st);
      FewerLeft(lists, st, before);
      Visit(lists, names[|names| - 1], before)
  }

  lemma EnterOnStack(st: State, name: string)
    requires OnStack(st)
    ensures OnStack(Enter(st, name))
    ensures Enter(st, name).stack == st.stack + [name] && Enter(st, name).states.Keys == st.states.Keys + {name}
  {
  }

  lemma LeaveOnStack(st: State, stack: seq<string>, name: string)
    requires OnStack(st) && st.stack == stack + [name] && name !in stack
    ensures OnStack(Leave(st, name)) && Leave(st, name).stack == stack
    ensures Leave(st, name).states.Keys >= st.states.Keys
  {
  }

  // Names without dependencies come in the order in which they are visited.
  lemma {:induction false} LeavesVisited(lists: Lists, names: seq<string>, st: State)
    requires OnStack(st) && Distinct(names)
    requires forall n :: n in names ==> n in lists && lists[n] == [] && n !in st.states
    ensures var r := VisitAll(lists, names, st);
            && r.ordered == st.ordered + names && r.errors == st.errors
            && (forall x :: x in r.states <==> x in st.states || x in names)
            && (forall x :: x in st.states ==> r.states[x] == st.states[x])
  {
    if names != [] {
      var front, last := names[..|names| - 1], names[|names| - 1];
      assert last in names && names == front + [last];
      LeavesVisited(lists, front, st);
      var before := VisitAll(lists, front, st);
      assert last !in front;
      LeafVisited(lists, last, before);
    }
  }

  lemma LeafVisited(lists: Lists, name: string, st: State)
    requires OnStack(st) && name in lists && lists[name] == [] && name !in st.states
    ensures Visit(lists, name, st) == st.(states := st.states[name := Done], ordered := st.ordered + [name])
  {
    EnterLeavesLess(lists, st, name);
    EnterOnStack(st, name);
    assert VisitAll(lists, [], Enter(st, name)) == Enter(st, name);
    assert Enter(st, name).stack[..|st.stack|] == st.stack;
    assert st.states[name := Visiting][name := Done] == st.states[name := Done];
  }

  lemma OneRoot(lists: Lists, name: string, st: State)
    requires OnStack(st)
    ensures VisitAll(lists, [name], st) == Visit(lists, name, st)
  {
    hide Visit, OnStack;
    assert [name][..0] == [];
    assert VisitAll(lists, [], st) == st;
  }

  lemma VisitOpens(lists: Lists, name: string, st: State)
    requires OnStack(st) && name in lists && name !in st.states
    ensures OnStack(Enter(st, name)) && VisitAll(lists, lists[name], Enter(st, name)).stack == Enter(st, name).stack
    ensures Visit(lists, name, st) == Leave(VisitAll(lists, lists[name], Enter(st, name)), name)
  {
    hide VisitAll, OnStack;
    EnterLeavesLess(lists, st, name);
    EnterOnStack(st, name);
  }

  // A name whose dependencies have none themselves comes right after them.
  lemma BranchVisited(lists: Lists, name: string)
    requires name in lists && Distinct(lists[name]) && name !in lists[name]
    requires forall n :: n in lists[name] ==> n in lists && lists[n] == []
    ensures VisitAll(lists, [name], START).ordered == lists[name] + [name]
    ensures VisitAll(lists, [name], START).errors == []
  {
    assert OnStack(START);
    hide Visit, VisitAll, OnStack;
    OneRoot(lists, name, START);
    EnterOnStack(START, name);
    VisitOpens(lists, name, START);
    LeavesVisited(lists, lists[name], Enter(START, name));
  }

  // ---------------------------------------------------------------- invariant

  ghost predicate FromRoots(g: Graph, roots: set<string>, x: string) {
    exists r :: r in roots && Reaches(g, r, x)
  }

  ghost predicate RealCycle(g: Graph, roots: set<string>, c: seq<string>) {
    Cycle(g, c) && FromRoots(g, roots, c[0])
  }

  ghost predicate Sound(g: Graph, roots: set<string>, st: State) {
    && OnStack(st) && Distinct(st.stack) && Distinct(st.ordered)
    && (forall x :: x in st.states && st.states[x] == Done <==> x in st.ordered)
    && (forall x :: x in st.states ==> x in g && FromRoots(g, roots, x))
    && (forall i :: 0 <= i < |st.stack| - 1 ==> Edge(g, st.stack[i], st.stack[i + 1]))
    && (forall i :: 0 <= i < |st.errors| ==> RealCycle(g, roots, st.errors[i]))
    && (st.errors == [] ==> DependenciesFirst(g, st.ordered))
  }

  // A name may be visited from the node on top of the stack, or as a root.
  ghost predicate MayVisit(g: Graph, roots: set<string>, name: string, st: State) {
    FromRoots(g, roots, name) && (st.stack != [] ==> Edge(g, st.stack[|st.stack| - 1], name))
  }

  lemma ReportSound(g: Graph, roots: set<string>, name: string, st: State)
    requires Sound(g, roots, st) && MayVisit(g, roots, name, st) && name in st.stack
    ensures Sound(g, roots, Report(st, name)) && Report(st, name).errors != []
  {
    var c := CycleAt(st.stack, name);
    var n := Position(st.stack, name);
    forall i | 0 <= i < |c| - 1
      ensures Edge(g, c[i], c[i + 1])
    {
      assert c[i] == st.stack[n + i];
      assert i < |c| - 2 ==> c[i + 1] == st.stack[n + i + 1];
    }
    assert RealCycle(g, roots, c);
  }

  lemma EnterSound(g: Graph, roots: set<string>, name: string, st: State)
    requires Sound(g, roots, st) && MayVisit(g, roots, name, st) && name in g && name !in st.states
    ensures Sound(g, roots, Enter(st, name))
  {
    hide Reaches, RealCycle, DependenciesFirst, Edge, FromRoots;
    var r := Enter(st, name);
    assert name !in st.stack;
    assert forall i :: 0 <= i < |st.stack| ==> r.stack[i] == st.stack[i];
  }

  lemma LeaveSound(g: Graph, roots: set<string>, name: string, st: State)
    requires Sound(g, roots, st) && st.stack != [] && st.stack[|st.stack| - 1] == name
    requires st.errors == [] ==> forall b :: b in g[name] ==> b in st.ordered
    ensures Sound(g, roots, Leave(st, name))
  {
    hide Reaches, RealCycle, FromRoots;
    var r := Leave(st, name);
    assert name in st.stack && name !in st.ordered;
    forall x
      ensures x in r.states && r.states[x] == Visiting <==> x in r.stack
    {
      assert st.stack == r.stack + [name];
    }
    if st.errors == [] {
      forall i, b | 0 <= i < |r.ordered| && Edge(g, r.ordered[i], b)
        ensures b in r.ordered[..i]
      {
        assert i < |st.ordered| ==> r.ordered[i] == st.ordered[i] && r.ordered[..i] == st.ordered[..i];
        assert i == |st.ordered| ==> r.ordered[..i] == st.ordered;
      }
    }
  }

  // What a visit adds: nothing is forgotten, and without an error the visited
  // names are all done.
  ghost predicate Later(st: State, r: State) {
    st.ordered <= r.ordered && st.errors <= r.errors
  }

  lemma {:induction false} VisitSound(lists: Lists, roots: set<string>, name: string, st: State)
    requires WellFormed(lists)
    requires Sound(GraphOf(lists), roots, st) && MayVisit(GraphOf(lists), roots, name, st)
    ensures Sound(GraphOf(lists), roots, Visit(lists, name, st)) && Later(st, Visit(lists, name, st))
    ensures Visit(lists, name, st).errors == [] && name in lists ==> name in Visit(lists, name, st).ordered
    decreases Left(lists, st), 0
  {
    hide Sound, FromRoots, GraphOf, WellFormed, OnStack, Later, Edge, VisitAll, MayVisit;
    var g := GraphOf(lists);
    OnStackOfSound(g, roots, st);
    if name in st.states {
      KnownVisit(lists, roots, name, st);
    } else if name !in lists {
      NothingLater(lists, st);
    } else {
      EnterLeavesLess(lists, st, name);
      KeysOf(lists);
      EnterSound(g, roots, name, st);
      EnterOnStack(st, name);
      DependenciesMayBeVisited(lists, roots, name, st);
      VisitAllSound(lists, roots, lists[name], Enter(st, name));
      LaterThanEnter(st, name, VisitAll(lists, lists[name], Enter(st, name)));
      VisitEnds(lists, roots, name, st, VisitAll(lists, lists[name], Enter(st, name)));
    }
  }

  lemma KnownVisit(lists: Lists, roots: set<string>, name: string, st: State)
    requires Sound(GraphOf(lists), roots, st) && MayVisit(GraphOf(lists), roots, name, st) && name in st.states
    ensures Sound(GraphOf(lists), roots, Visit(lists, name, st)) && Later(st, Visit(lists, name, st))
    ensures Visit(lists, name, st).errors == [] ==> name in Visit(lists, name, st).ordered
  {
    hide GraphOf, VisitAll, FromRoots;
    if st.states[name] == Visiting {
      ReportSound(GraphOf(lists), roots, name, st);
    }
  }

  lemma DependenciesMayBeVisited(lists: Lists, roots: set<string>, name: string, st: State)
    requires MayVisit(GraphOf(lists), roots, name, st) && name in lists
    ensures forall i :: 0 <= i < |lists[name]| ==> MayVisit(GraphOf(lists), roots, lists[name][i], Enter(st, name))
  {
    hide FromRoots, GraphOf;
    forall i | 0 <= i < |lists[name]|
      ensures MayVisit(GraphOf(lists), roots, lists[name][i], Enter(st, name))
    {
      EdgeOf(lists, name, lists[name][i]);
      FromRootsMore(GraphOf(lists), roots, name, lists[name][i]);
    }
  }

  lemma LaterThanEnter(st: State, name: string, r: State)
    requires Later(Enter(st, name), r)
    ensures Later(st, r)
  {
  }

  lemma VisitEnds(lists: Lists, roots: set<string>, name: string, st: State, after: State)
    requires WellFormed(lists) && name in lists && Later(st, after)
    requires Sound(GraphOf(lists), roots, after) && after.stack == st.stack + [name]
    requires after.errors == [] ==> AllOrdered(lists, lists[name], after)
    ensures Sound(GraphOf(lists), roots, Leave(after, name)) && Later(st, Leave(after, name))
    ensures Leave(after, name).errors == [] ==> name in Leave(after, name).ordered
  {
    hide Sound, FromRoots, GraphOf, WellFormed;
    var g := GraphOf(lists);
    KeysOf(lists);
    forall b | after.errors == [] && b in g[name]
      ensures b in after.ordered
    {
      EdgeOf(lists, name, b);
      KnownDependency(lists, name, b);
    }
    LeaveSound(g, roots, name, after);
  }

  lemma KeysOf(lists: Lists)
    ensures GraphOf(lists).Keys == lists.Keys
  {
  }

  lemma KnownDependency(lists: Lists, a: string, b: string)
    requires WellFormed(lists) && a in lists && b in lists[a]
    ensures b in lists
  {
  }

  lemma OnStackOfSound(g: Graph, roots: set<string>, st: State)
    requires Sound(g, roots, st)
    ensures OnStack(st)
  {
  }

  lemma FromRootsMore(g: Graph, roots: set<string>, a: string, b: string)
    requires FromRoots(g, roots, a) && Edge(g, a, b)
    ensures FromRoots(g, roots, b)
  {
    var r :| r in roots && Reaches(g, r, a);
    ReachesMore(g, r, a, b);
  }

  lemma {:induction false} VisitAllSound(lists: Lists, roots: set<string>, names: seq<string>, st: State)
    requires WellFormed(lists)
    requires Sound(GraphOf(lists), roots, st)
    requires forall i :: 0 <= i < |names| ==> MayVisit(GraphOf(lists), roots, names[i], st)
    ensures Sound(GraphOf(lists), roots, VisitAll(lists, names, st)) && Later(st, VisitAll(lists, names, st))
    ensures VisitAll(lists, names, st).errors == [] ==> AllOrdered(lists, names, VisitAll(lists, names, st))
    decreases Left(lists, st), |names|
  {
    hide Sound, FromRoots, GraphOf, WellFormed, Edge, OnStack, Visit, MayVisit, AllOrdered, Later;
    var g := GraphOf(lists);
    OnStackOfSound(g, roots, st);
    if names != [] {
      var init, last := names[..|names| - 1], names[|names| - 1];
      VisitAllSound(lists, roots, init, st);
      var before := VisitAll(lists, init, st);
      FewerLeft(lists, st, before);
      MayVisitLater(g, roots, last, st, before);
      VisitSound(lists, roots, last, before);
      LaterStill(lists, names, st, before, Visit(lists, last, before));
    } else {
      NothingLater(lists, st);
    }
  }

  lemma NothingLater(lists: Lists, st: State)
    ensures Later(st, st) && AllOrdered(lists, [], st)
  {
  }

  lemma MayVisitLater(g: Graph, roots: set<string>, name: string, st: State, r: State)
    requires MayVisit(g, roots, name, st) && r.stack == st.stack
    ensures MayVisit(g, roots, name, r)
  {
  }

  lemma LaterStill(lists: Lists, names: seq<string>, st: State, before: State, r: State)
    requires names != [] && Later(st, before) && Later(before, r)
    requires before.errors == [] ==> AllOrdered(lists, names[..|names| - 1], before)
    requires r.errors == [] && names[|names| - 1] in lists ==> names[|names| - 1] in r.ordered
    ensures Later(st, r) && (r.errors == [] ==> AllOrdered(lists, names, r))
  {
  }

  ghost predicate AllOrdered(lists: Lists, names: seq<string>, st: State) {
    forall x :: x in names && x in lists ==> x in st.ordered
  }

  // -------------------------------------------------------------- the theorem

  ghost predicate ReachableCycle(g: Graph, roots: set<string>) {
    exists c :: RealCycle(g, roots, c)
  }

  lemma {:induction false} ClosedUnderPaths(g: Graph, order: seq<string>, p: seq<string>)
    requires DependenciesFirst(g, order) && Path(g, p) && p[0] in order
    ensures p[|p| - 1] in order
  {
    if |p| > 1 {
      var i :| 0 <= i < |order| && order[i] == p[0];
      assert Edge(g, p[0], p[1]);
      SliceOfPath(g, p, 1, |p|);
      ClosedUnderPaths(g, order, p[1..]);
    }
  }

  // The nodes that can be reached from the roots, each once, dependencies first.
  ghost predicate Topological(g: Graph, roots: set<string>, order: seq<string>) {
    Distinct(order) && DependenciesFirst(g, order) && forall x :: x in order <==> FromRoots(g, roots, x)
  }

  lemma ClosureOfRoots(g: Graph, roots: set<string>, order: seq<string>)
    requires DependenciesFirst(g, order) && forall r :: r in roots ==> r in order
    ensures forall x :: FromRoots(g, roots, x) ==> x in order
  {
    forall x | FromRoots(g, roots, x)
      ensures x in order
    {
      var r :| r in roots && Reaches(g, r, x);
      var p :| PathTo(g, p, r, x);
      ClosedUnderPaths(g, order, p);
    }
  }

  lemma RootsReached(g: Graph, roots: set<string>)
    ensures forall r :: r in roots ==> FromRoots(g, roots, r)
  {
    forall r | r in roots
      ensures FromRoots(g, roots, r)
    {
      ReachesSelf(g, r);
    }
  }

  lemma NothingReported(g: Graph, roots: set<string>, st: State)
    requires Sound(g, roots, st) && st.errors == [] && forall r :: r in roots ==> r in st.ordered
    ensures Topological(g, roots, st.ordered) && !ReachableCycle(g, roots)
  {
    ClosureOfRoots(g, roots, st.ordered);
    if ReachableCycle(g, roots) {
      var c :| RealCycle(g, roots, c);
      NoCycleFrom(g, st.ordered, c);
    }
  }

  lemma StartIsSound(g: Graph, roots: set<string>)
    ensures Sound(g, roots, START)
  {
  }

  // No error if and only if no cycle can be reached from the roots; every
  // reported cycle is one. Without errors the result is the dependency closure
  // of the roots, each name once, dependencies first.
  lemma SortIsTopological(lists: Lists, roots: set<string>, names: seq<string>)
    requires WellFormed(lists) && roots <= lists.Keys && forall x :: x in names <==> x in roots
    ensures VisitAll(lists, names, START).errors == [] <==> !ReachableCycle(GraphOf(lists), roots)
    ensures forall i :: 0 <= i < |VisitAll(lists, names, START).errors|
                        ==> RealCycle(GraphOf(lists), roots, VisitAll(lists, names, START).errors[i])
    ensures VisitAll(lists, names, START).errors == []
            ==> Topological(GraphOf(lists), roots, VisitAll(lists, names, START).ordered)
  {
    var g, st := GraphOf(lists), VisitAll(lists, names, START);
    RootsReached(g, roots);
    StartIsSound(g, roots);
    hide FromRoots, GraphOf, VisitAll, WellFormed, RealCycle;
    VisitAllSound(lists, roots, names, START);
    if st.errors == [] {
      NothingReported(g, roots, st);
    } else {
      assert RealCycle(g, roots, st.errors[0]);
    }
  }
}
