// The limit of 99 ifupdown files is reached by real configurations: a chain of
// vlans on vlans (src/dros/plugins/network_interfaces.py:596-605).
module FileNameLimit {
  import opened Wrappers
  import opened Sequences
  import opened Numerals
  import opened Graphs
  import opened Ordering
  import opened DepthFirst
  import opened InterfaceOrder

  // v0, v1, v2, ...
  function Nth(i: nat): string {
    "v" + Decimal(i)
  }

  // The number that a name carries.
  function Number(name: string): int {
    if name == "" then -1
    else
      match ParseNat(name[1..], 10)
      case None => -1
      case Some(i) => i
  }

  lemma NumberOfNth(i: nat)
    ensures Number(Nth(i)) == i
  {
    DigitsRoundTrip(i, 10);
    assert Nth(i)[1..] == Decimal(i);
  }

  lemma NthDiffers(i: nat, j: nat)
    ensures Nth(i) == Nth(j) <==> i == j
  {
    hide Nth, Number;
    NumberOfNth(i);
    NumberOfNth(j);
  }

  // An ethernet device, and a chain of vlans: each has the one before it as its
  // parent.
  function Vlan(i: nat): Interface {
    if i == 0 then Interface("eth", None, [], None) else Interface("vlan", Some(Nth(i - 1)), [], None)
  }

  function Vlans(n: nat): map<string, Interface> {
    if n == 0 then map[] else Vlans(n - 1)[Nth(n - 1) := Vlan(n - 1)]
  }

  lemma {:induction false} VlanAt(n: nat, i: nat)
    requires i < n
    ensures Nth(i) in Vlans(n) && Vlans(n)[Nth(i)] == Vlan(i)
  {
    if i < n - 1 {
      VlanAt(n - 1, i);
      NthDiffers(i, n - 1);
    }
  }

  lemma {:induction false} WhichVlan(n: nat, x: string) returns (i: nat)
    requires x in Vlans(n)
    ensures i < n && x == Nth(i)
  {
    if x == Nth(n - 1) {
      i := n - 1;
    } else {
      i := WhichVlan(n - 1, x);
    }
  }

  lemma {:induction false} VlanIsNew(n: nat, m: nat)
    requires n <= m
    ensures Nth(m) !in Vlans(n)
  {
    if n > 0 {
      VlanIsNew(n - 1, m);
      NthDiffers(n - 1, m);
    }
  }

  lemma OneMore(m: map<string, Interface>, x: string, i: Interface)
    requires x !in m
    ensures |m[x := i].Keys| == |m.Keys| + 1
  {
    assert m[x := i].Keys == m.Keys + {x};
  }

  lemma {:induction false} VlansCount(n: nat)
    ensures |Vlans(n).Keys| == n
  {
    hide Nth, Vlan;
    if n > 0 {
      VlansCount(n - 1);
      VlanIsNew(n - 1, n - 1);
      OneMore(Vlans(n - 1), Nth(n - 1), Vlan(n - 1));
    }
  }

  lemma VlanEdges(n: nat, i: nat)
    requires i < n
    ensures forall b :: Edge(DependencyGraph(Vlans(n)), Nth(i), b) <==> i > 0 && b == Nth(i - 1)
  {
    hide Nth, Vlans;
    VlanAt(n, i);
    if i > 0 {
      VlanAt(n, i - 1);
    }
    assert Needs(Vlan(i)) == if i == 0 then {} else {Nth(i - 1)};
  }

  // Along an edge numbers get smaller.
  lemma EdgesLower(n: nat, a: string, b: string)
    requires Edge(DependencyGraph(Vlans(n)), a, b)
    ensures Number(b) < Number(a)
  {
    hide Nth, Number;
    var i := WhichVlan(n, a);
    VlanEdges(n, i);
    NumberOfNth(i);
    NumberOfNth(i - 1);
  }

  lemma {:induction false} PathsLower(n: nat, p: seq<string>)
    requires Path(DependencyGraph(Vlans(n)), p)
    ensures |p| > 1 ==> Number(p[|p| - 1]) < Number(p[0])
  {
    if |p| > 1 {
      assert Edge(DependencyGraph(Vlans(n)), p[0], p[1]);
      EdgesLower(n, p[0], p[1]);
      SliceOfPath(DependencyGraph(Vlans(n)), p, 1, |p|);
      PathsLower(n, p[1..]);
    }
  }

  lemma NoCycle(n: nat, roots: set<string>)
    ensures !ReachableCycle(DependencyGraph(Vlans(n)), roots)
  {
    forall c | Cycle(DependencyGraph(Vlans(n)), c)
      ensures false
    {
      PathsLower(n, c);
    }
  }

  // In any order that lists all of them, dependencies first, the i-th vlan
  // comes no earlier than at place i.
  lemma {:induction false} NoEarlier(n: nat, order: seq<string>, i: nat)
    requires Distinct(order) && DependenciesFirst(DependencyGraph(Vlans(n)), order)
    requires i < n && Nth(i) in order
    ensures Position(order, Nth(i)) >= i
  {
    if i > 0 {
      VlanEdges(n, i);
      DependencyIsEarlier(DependencyGraph(Vlans(n)), order, Nth(i), Nth(i - 1));
      NoEarlier(n, order, i - 1);
    }
  }

  lemma {:induction false} NoLater(n: nat, order: seq<string>, i: nat)
    requires Distinct(order) && DependenciesFirst(DependencyGraph(Vlans(n)), order) && |order| <= n
    requires i < n && forall k :: 0 <= k < n ==> Nth(k) in order
    ensures Position(order, Nth(i)) <= i
    decreases n - i
  {
    if i < n - 1 {
      VlanEdges(n, i + 1);
      DependencyIsEarlier(DependencyGraph(Vlans(n)), order, Nth(i + 1), Nth(i));
      NoLater(n, order, i + 1);
    }
  }

  lemma AllHaveFiles(n: nat, i: nat)
    requires i < n
    ensures HasFile(Vlans(n), Nth(i))
  {
    VlanAt(n, i);
  }

  lemma {:induction false} WithAllFiles(n: nat, order: seq<string>)
    requires forall k :: 0 <= k < |order| ==> HasFile(Vlans(n), order[k])
    ensures WithFiles(Vlans(n), order) == order
  {
    hide HasFile, Vlans;
    if order != [] {
      WithAllFiles(n, order[..|order| - 1]);
      assert order == order[..|order| - 1] + [order[|order| - 1]];
    }
  }

  lemma OnlyVlans(n: nat, order: seq<string>, x: string)
    requires Topological(DependencyGraph(Vlans(n)), Vlans(n).Keys, order) && x in order
    ensures x in Vlans(n)
  {
    hide Vlans, DependencyGraph, Path;
    var g, keys := DependencyGraph(Vlans(n)), Vlans(n).Keys;
    var r :| r in keys && Reaches(g, r, x);
    var p :| PathTo(g, p, r, x);
    StaysInside(n, p);
  }

  lemma AllVlans(n: nat, order: seq<string>, i: nat)
    requires Topological(DependencyGraph(Vlans(n)), Vlans(n).Keys, order) && i < n
    ensures Nth(i) in order
  {
    hide Vlans, DependencyGraph, Nth;
    VlanAt(n, i);
    RootsReached(DependencyGraph(Vlans(n)), Vlans(n).Keys);
  }

  lemma TopologicalIsSmall(n: nat, order: seq<string>)
    requires Topological(DependencyGraph(Vlans(n)), Vlans(n).Keys, order)
    ensures (forall k :: 0 <= k < |order| ==> order[k] in Vlans(n)) && |order| <= n
    ensures forall k :: 0 <= k < n ==> Nth(k) in order
  {
    hide Vlans, DependencyGraph, Nth, Reaches;
    forall k | 0 <= k < |order|
      ensures order[k] in Vlans(n)
    {
      OnlyVlans(n, order, order[k]);
    }
    VlansCount(n);
    DistinctBounded(order, Vlans(n).Keys);
    forall k | 0 <= k < n
      ensures Nth(k) in order
    {
      AllVlans(n, order, k);
    }
  }

  lemma {:induction false} StaysInside(n: nat, p: seq<string>)
    requires Path(DependencyGraph(Vlans(n)), p) && p[0] in Vlans(n)
    ensures p[|p| - 1] in Vlans(n)
  {
    if |p| > 1 {
      assert Edge(DependencyGraph(Vlans(n)), p[|p| - 2], p[|p| - 1]);
    }
  }

  // Each vlan names a parent that is configured.
  predicate ParentsExist(interfaces: map<string, Interface>) {
    forall x :: x in interfaces && interfaces[x].kind == "vlan" ==>
      interfaces[x].parent.Some? && interfaces[x].parent.value in interfaces
  }

  lemma VlansHaveParents(n: nat)
    ensures ParentsExist(Vlans(n))
  {
    hide Nth, Vlans;
    forall x | x in Vlans(n) && Vlans(n)[x].kind == "vlan"
      ensures Vlans(n)[x].parent.Some? && Vlans(n)[x].parent.value in Vlans(n)
    {
      var i := WhichVlan(n, x);
      VlanAt(n, i);
      if i > 0 {
        VlanAt(n, i - 1);
      }
    }
  }

  // For every n from 100 on there is a configuration of n interfaces, all with
  // files and without cycles, in which the file of a dependency sorts after the
  // file of the interface that depends on it.
  lemma LimitIsReached(n: nat)
    requires n >= 100
    ensures |Vlans(n)| == n && ParentsExist(Vlans(n))
    ensures !ReachableCycle(DependencyGraph(Vlans(n)), Vlans(n).Keys)
    ensures Edge(DependencyGraph(Vlans(n)), Nth(99), Nth(98))
    ensures var files := WithFiles(Vlans(n), SortState(Vlans(n), Vlans(n).Keys).ordered);
            && |files| == n && Nth(98) in files && Nth(99) in files
            && Less(FilePath(Nth(99), Position(files, Nth(99))), FilePath(Nth(98), Position(files, Nth(98))))
  {
    hide Nth, Vlans, FilePath, SortState, ReachableCycle, Topological, HasFile;
    var interfaces := Vlans(n);
    var order := SortState(interfaces, interfaces.Keys).ordered;
    VlansCount(n);
    assert |interfaces| == |interfaces.Keys|;
    VlansHaveParents(n);
    NoCycle(n, interfaces.Keys);
    SortedByDependency(interfaces, interfaces.Keys);
    VlanEdges(n, 99);
    InOrder(n, order);
    DisorderedAt99(Nth(98), Nth(99));
  }

  lemma InPlace(n: nat, order: seq<string>, i: nat)
    requires Topological(DependencyGraph(Vlans(n)), Vlans(n).Keys, order) && i < n
    ensures Nth(i) in order && Position(order, Nth(i)) == i
  {
    TopologicalIsSmall(n, order);
    hide Nth, Vlans, DependencyGraph, FromRoots;
    NoEarlier(n, order, i);
    NoLater(n, order, i);
  }

  lemma InOrder(n: nat, order: seq<string>)
    requires n >= 100 && Topological(DependencyGraph(Vlans(n)), Vlans(n).Keys, order)
    ensures WithFiles(Vlans(n), order) == order && |order| == n
    ensures Nth(98) in order && Nth(99) in order && Position(order, Nth(98)) == 98 && Position(order, Nth(99)) == 99
  {
    hide Nth, Vlans, HasFile, Topological, DependencyGraph, WithFiles;
    TopologicalIsSmall(n, order);
    InPlace(n, order, 98);
    InPlace(n, order, 99);
    InPlace(n, order, n - 1);
    forall k | 0 <= k < |order|
      ensures HasFile(Vlans(n), order[k])
    {
      var i := WhichVlan(n, order[k]);
      AllHaveFiles(n, i);
    }
    WithAllFiles(n, order);
  }
}
