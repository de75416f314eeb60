// Paths and cycles in a finite dependency graph.
module Graphs {
  import opened Sequences

  // Each node with the nodes it points to.
  type Graph = map<string, set<string>>

  predicate Edge(g: Graph, a: string, b: string) {
    a in g && b in g[a]
  }

  ghost predicate Path(g: Graph, p: seq<string>) {
    p != [] && forall i :: 0 <= i < |p| - 1 ==> Edge(g, p[i], p[i + 1])
  }

  ghost predicate Cycle(g: Graph, p: seq<string>) {
    |p| > 1 && Path(g, p) && p[0] == p[|p| - 1]
  }

  ghost predicate PathTo(g: Graph, p: seq<string>, a: string, b: string) {
    Path(g, p) && p[0] == a && p[|p| - 1] == b
  }

  ghost predicate Reaches(g: Graph, a: string, b: string) {
    exists p :: PathTo(g, p, a, b)
  }

  lemma ReachesSelf(g: Graph, a: string)
    ensures Reaches(g, a, a)
  {
    assert PathTo(g, [a], a, a);
  }

  lemma ReachesMore(g: Graph, a: string, b: string, c: string)
    requires Reaches(g, a, b) && Edge(g, b, c)
    ensures Reaches(g, a, c)
  {
    var p :| PathTo(g, p, a, b);
    assert PathTo(g, p + [c], a, c);
  }

  // Pigeonhole: distinct elements of a set are no more than the set has.
  lemma {:induction false} DistinctBounded(p: seq<string>, s: set<string>)
    requires Distinct(p) && forall i :: 0 <= i < |p| ==> p[i] in s
    ensures |p| <= |s|
  {
    if p != [] {
      var last := p[|p| - 1];
      DistinctBounded(p[..|p| - 1], s - {last});
    }
  }

  lemma SliceOfPath(g: Graph, p: seq<string>, i: nat, j: nat)
    requires Path(g, p) && i < j <= |p|
    ensures Path(g, p[i..j])
  {
  }

  ghost predicate HasPredecessor(g: Graph, s: set<string>, b: string) {
    exists a :: a in s && Edge(g, a, b)
  }

  ghost predicate AllPreceded(g: Graph, s: set<string>) {
    forall b {:trigger HasPredecessor(g, s, b)} :: b in s ==> HasPredecessor(g, s, b)
  }

  // A walk of any length, when every node of s has a predecessor in s.
  lemma {:induction false} WalkBack(g: Graph, s: set<string>, n: nat) returns (p: seq<string>)
    requires s != {} && AllPreceded(g, s)
    ensures |p| == n + 1 && Path(g, p) && forall i :: 0 <= i < |p| ==> p[i] in s
  {
    if n == 0 {
      var b :| b in s;
      p := [b];
    } else {
      var rest := WalkBack(g, s, n - 1);
      assert HasPredecessor(g, s, rest[0]);
      var a :| a in s && Edge(g, a, rest[0]);
      p := [a] + rest;
    }
  }

  // A non-empty set in which every node has a predecessor holds a cycle.
  lemma PredecessorsMakeCycle(g: Graph, s: set<string>) returns (c: seq<string>)
    requires s != {} && AllPreceded(g, s)
    ensures Cycle(g, c) && forall i :: 0 <= i < |c| ==> c[i] in s
  {
    var p := WalkBack(g, s, |s|);
    if Distinct(p) {
      DistinctBounded(p, s);
    }
    var i, j :| 0 <= i < j < |p| && p[i] == p[j];
    SliceOfPath(g, p, i, j + 1);
    c := p[i..j + 1];
  }

  function Position(p: seq<string>, x: string): (n: nat)
    requires x in p
    ensures n < |p| && p[n] == x
  {
    if p[0] == x then 0 else Position(p[1..], x) + 1
  }

  lemma PositionUnique(p: seq<string>, n: nat)
    requires Distinct(p) && n < |p|
    ensures Position(p, p[n]) == n
  {
  }

  // Every edge that leaves a listed node leads to an earlier listed node.
  ghost predicate DependenciesFirst(g: Graph, order: seq<string>) {
    forall i, b :: 0 <= i < |order| && Edge(g, order[i], b) ==> b in order[..i]
  }

  // Every edge that enters a listed node comes from an earlier listed node.
  ghost predicate DependentsFirst(g: Graph, order: seq<string>) {
    forall i, a :: 0 <= i < |order| && Edge(g, a, order[i]) ==> a in order[..i]
  }

  lemma {:induction false} PathDescends(g: Graph, order: seq<string>, p: seq<string>)
    requires DependenciesFirst(g, order) && Distinct(order) && Path(g, p) && p[0] in order
    ensures p[|p| - 1] in order
    ensures |p| > 1 ==> Position(order, p[|p| - 1]) < Position(order, p[0])
  {
    if |p| > 1 {
      var i := Position(order, p[0]);
      assert Edge(g, p[0], p[1]);
      var j :| 0 <= j < i && order[j] == p[1];
      PositionUnique(order, j);
      SliceOfPath(g, p, 1, |p|);
      PathDescends(g, order, p[1..]);
    }
  }

  // So no cycle starts at a listed node.
  lemma NoCycleFrom(g: Graph, order: seq<string>, p: seq<string>)
    requires DependenciesFirst(g, order) && Distinct(order) && Cycle(g, p)
    ensures p[0] !in order
  {
    if p[0] in order {
      PathDescends(g, order, p);
    }
  }

  lemma {:induction false} PathAscends(g: Graph, order: seq<string>, p: seq<string>)
    requires DependentsFirst(g, order) && Distinct(order) && Path(g, p) && p[|p| - 1] in order
    ensures p[0] in order
    ensures |p| > 1 ==> Position(order, p[0]) < Position(order, p[|p| - 1])
  {
    if |p| > 1 {
      var last := |p| - 1;
      var i := Position(order, p[last]);
      assert Edge(g, p[last - 1], p[last]);
      var j :| 0 <= j < i && order[j] == p[last - 1];
      PositionUnique(order, j);
      SliceOfPath(g, p, 0, last);
      PathAscends(g, order, p[..last]);
    }
  }

  lemma NoCycleInto(g: Graph, order: seq<string>, p: seq<string>)
    requires DependentsFirst(g, order) && Distinct(order) && Cycle(g, p)
    ensures p[0] !in order
  {
    if p[0] in order {
      PathAscends(g, order, p);
    }
  }
}
