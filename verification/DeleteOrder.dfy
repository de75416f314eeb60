// Dependency-ordered planning of an uninstall (src/dros/delete.py:159-209).
module DeleteOrder {
  import opened Wrappers
  import opened Sequences
  import opened Ordering
  import opened Graphs

  datatype Object = Object(kind: string, name: string)

  // The paths at which the first object's spec names the second one, or one of
  // its addresses other than as an address of its own.
  type References = (Object, Object) -> set<string>

  datatype Problem =
    | Referenced(pairs: seq<(Object, Object)>)  // (target, unselected object that names it)
    | Cyclic

  predicate RefersTo(refs: References, other: Object, target: Object) {
    target.kind in {"Interface", "Gateway"} && other != target && refs(other, target) != {}
  }

  // Only interfaces and gateways are named by others, and nothing names itself.
  lemma RefersIff(refs: References, other: Object, target: Object)
    ensures RefersTo(refs, other, target) <==>
              && (target.kind == "Interface" || target.kind == "Gateway")
              && (other.kind != target.kind || other.name != target.name)
              && exists path :: path in refs(other, target)
  {
    if refs(other, target) != {} {
      var path :| path in refs(other, target);
    }
  }

  // Who names whom inside the selection.
  function SelectionGraph(kind: string, names: set<string>, refs: References): Graph {
    map n | n in names :: set t | t in names && RefersTo(refs, Object(kind, n), Object(kind, t))
  }

  lemma GraphIff(kind: string, names: set<string>, refs: References, a: string, b: string)
    ensures Edge(SelectionGraph(kind, names, refs), a, b) <==>
              && a in names && b in names && a != b && (kind == "Interface" || kind == "Gateway")
              && exists path :: path in refs(Object(kind, a), Object(kind, b))
  {
    RefersIff(refs, Object(kind, a), Object(kind, b));
  }

  // ------------------------------------------------------------------ layers

  // What some pending object names.
  function Parents(g: Graph, pending: set<string>): set<string> {
    set n, t | n in pending && n in g && t in g[n] :: t
  }

  // Layer by layer, those that no pending object names, each layer sorted.
  // None: a layer is empty.
  ghost function Layered(g: Graph, pending: set<string>): Option<seq<string>>
    decreases |pending|
  {
    StringsAreOrdered();
    var ready := pending - Parents(g, pending);
    if pending == {} then Some([])
    else if ready == {} then None
    else
      SubsetSmaller(pending, ready);
      match Layered(g, pending - ready)
      case None => None
      case Some(rest) => Some(SortedSet(AtMost, ready) + rest)
  }

  lemma SubsetSmaller<T>(s: set<T>, part: set<T>)
    ensures part != {} && part <= s ==> |s - part| < |s|
  {
  }

  // The order lists the pending names once each, every dependent before what
  // it names.
  ghost predicate OrderOf(g: Graph, pending: set<string>, order: seq<string>) {
    && Distinct(order)
    && (forall n :: n in order <==> n in pending)
    && (forall i, a :: 0 <= i < |order| && a in pending && Edge(g, a, order[i]) ==> a in order[..i])
  }

  lemma LayerFirst(g: Graph, pending: set<string>, layer: seq<string>, rest: seq<string>)
    requires Distinct(layer) && forall n :: n in layer <==> n in pending - Parents(g, pending)
    requires OrderOf(g, pending * Parents(g, pending), rest)
    ensures OrderOf(g, pending, layer + rest)
  {
    var order := layer + rest;
    assert forall m :: 0 <= m < |layer| ==> order[m] == layer[m] && order[m] in layer;
    forall i, a | 0 <= i < |order| && a in pending && Edge(g, a, order[i])
      ensures a in order[..i]
    {
      assert order[i] in Parents(g, pending);
      var k := i - |layer|;
      assert order[..i] == layer + rest[..k];
      assert a in layer || (rest[k] == order[i] && a in pending * Parents(g, pending));
    }
    forall i, j | 0 <= i < j < |order|
      ensures order[i] != order[j]
    {
      if i < |layer| <= j {
        assert order[i] in layer && order[j] in rest;
      }
    }
  }

  lemma {:induction false} LayeredOrders(g: Graph, pending: set<string>)
    ensures Layered(g, pending).Some? ==> OrderOf(g, pending, Layered(g, pending).value)
    decreases |pending|
  {
    hide OrderOf;
    StringsAreOrdered();
    var ready := pending - Parents(g, pending);
    if pending == {} {
      EmptyOrder(g);
    } else if ready != {} && Layered(g, pending).Some? {
      SubsetSmaller(pending, ready);
      LayeredOrders(g, pending - ready);
      assert pending - ready == pending * Parents(g, pending);
      SortedSetFacts(AtMost, ready);
      LayerFirst(g, pending, SortedSet(AtMost, ready), Layered(g, pending - ready).value);
    }
  }

  lemma EmptyOrder(g: Graph)
    ensures OrderOf(g, {}, [])
  {
  }

  lemma NoneReady(g: Graph, pending: set<string>) returns (c: seq<string>)
    requires pending != {} && pending - Parents(g, pending) == {}
    ensures Cycle(g, c) && forall i :: 0 <= i < |c| ==> c[i] in pending
  {
    forall b | b in pending
      ensures HasPredecessor(g, pending, b)
    {
      assert b !in pending - Parents(g, pending);
    }
    c := PredecessorsMakeCycle(g, pending);
  }

  lemma {:induction false} StuckIsCyclic(g: Graph, pending: set<string>) returns (c: seq<string>)
    requires Layered(g, pending) == None
    ensures Cycle(g, c) && forall i :: 0 <= i < |c| ==> c[i] in pending
    decreases |pending|
  {
    hide Cycle, SortedSet, AtMost, TotalOrder;
    StringsAreOrdered();
    var ready := pending - Parents(g, pending);
    if ready == {} {
      c := NoneReady(g, pending);
    } else {
      SubsetSmaller(pending, ready);
      c := StuckIsCyclic(g, pending - ready);
    }
  }

  ghost predicate HasCycle(g: Graph) {
    exists c :: Cycle(g, c)
  }

  // The layered loop gives up exactly when the references are cyclic.
  lemma LayeredIffAcyclic(g: Graph)
    requires forall a, b :: Edge(g, a, b) ==> b in g
    ensures Layered(g, g.Keys) == None <==> HasCycle(g)
  {
    if Layered(g, g.Keys) == None {
      var c := StuckIsCyclic(g, g.Keys);
    } else {
      LayeredOrders(g, g.Keys);
      var order := Layered(g, g.Keys).value;
      forall c | Cycle(g, c)
        ensures false
      {
        assert Edge(g, c[0], c[1]);
        assert c[0] in g;
        assert DependentsFirst(g, order);
        NoCycleInto(g, order, c);
      }
    }
  }

  // The while loop of _ordered_selection.
  method LayeredLoop(g: Graph, names: set<string>) returns (result: Option<seq<string>>)
    ensures result == Layered(g, names)
  {
    hide SortedSet, AtMost, TotalOrder, Increasing;
    StringsAreOrdered();
    var ordered: seq<string> := [];
    var pending := names;
    assert forall rest: seq<string> :: [] + rest == rest;
    while pending != {}
      invariant Layered(g, names) == Prepend(ordered, Layered(g, pending))
      decreases |pending|
    {
      var parents := Parents(g, pending);
      var ready := Sorted(AtMost, pending - parents);
      SortedSetFacts(AtMost, pending - parents);
      if ready == [] {
        EmptySet(ready, pending - parents);
        return None;
      }
      assert ready[0] in pending - parents;
      LayeredNext(g, pending, ordered, ready);
      SubsetSmaller(pending, pending - parents);
      ordered, pending := ordered + ready, pending - (pending - parents);
    }
    assert ordered + [] == ordered;
    return Some(ordered);
  }

  function Prepend(front: seq<string>, rest: Option<seq<string>>): Option<seq<string>> {
    match rest
    case None => None
    case Some(r) => Some(front + r)
  }

  lemma EmptySet(r: seq<string>, s: set<string>)
    requires r == [] && forall x :: x in r <==> x in s
    ensures s == {}
  {
  }

  lemma LayeredUnfolds(g: Graph, pending: set<string>)
    requires TotalOrder(AtMost) && pending - Parents(g, pending) != {}
    ensures Layered(g, pending)
         == Prepend(SortedSet(AtMost, pending - Parents(g, pending)), Layered(g, pending - (pending - Parents(g, pending))))
  {
    hide AtMost, TotalOrder, SortedSet, Parents;
  }

  lemma LayeredNext(g: Graph, pending: set<string>, ordered: seq<string>, ready: seq<string>)
    requires TotalOrder(AtMost) && pending - Parents(g, pending) != {}
    requires ready == SortedSet(AtMost, pending - Parents(g, pending))
    ensures Prepend(ordered, Layered(g, pending))
         == Prepend(ordered + ready, Layered(g, pending - (pending - Parents(g, pending))))
  {
    hide AtMost, TotalOrder, SortedSet, Parents, Layered;
    LayeredUnfolds(g, pending);
    var rest := Layered(g, pending - (pending - Parents(g, pending)));
    if rest.Some? {
      assert ordered + (ready + rest.value) == ordered + ready + rest.value;
    }
  }

  // --------------------------------------------------------------- selection

  ghost predicate NamedFromOutside(all: seq<Object>, selected: seq<Object>, refs: References, p: (Object, Object)) {
    p.0 in selected && p.1 in all && p.1 !in selected && RefersTo(refs, p.1, p.0)
  }

  function NamesOf(selected: seq<Object>): set<string> {
    set o | o in selected :: o.name
  }

  // The name of the target, if the selected object n names it.
  function NamedBy(all: seq<Object>, selected: seq<Object>, refs: References, n: string, target: Object): set<string> {
    var o := Object(target.kind, n);
    if o in all && o in selected && RefersTo(refs, o, target) then {target.name} else {}
  }

  // The next object either names the target or changes nothing.
  lemma NamedByNext(all: seq<Object>, i: nat, selected: seq<Object>, refs: References, n: string, target: Object)
    requires i < |all|
    ensures NamedBy(all[..i + 1], selected, refs, n, target)
         == NamedBy(all[..i], selected, refs, n, target)
            + NamedBy([all[i]], selected, refs, n, target)
  {
    hide RefersTo;
    assert all[..i + 1] == all[..i] + [all[i]];
  }

  lemma NamedByOne(selected: seq<Object>, refs: References, other: Object, target: Object)
    ensures forall n :: NamedBy([other], selected, refs, n, target)
                     == if other == Object(target.kind, n) && other in selected && RefersTo(refs, other, target)
                        then {target.name} else {}
  {
  }

  lemma NamedByNone(selected: seq<Object>, refs: References, target: Object)
    ensures forall n :: NamedBy([], selected, refs, n, target) == {}
  {
  }

  method Collect(all: seq<Object>, selected: seq<Object>, refs: References, target: Object,
                 errors: seq<(Object, Object)>, dependencies: Graph)
    returns (errors': seq<(Object, Object)>, dependencies': Graph)
    requires forall o :: o in selected ==> o.kind == target.kind && o.name in dependencies
    requires target in selected
    ensures dependencies'.Keys == dependencies.Keys
    ensures forall n :: n in dependencies ==>
              dependencies'[n] == dependencies[n] + NamedBy(all, selected, refs, n, target)
    ensures forall p :: p in errors' <==>
              p in errors || (p.0 == target && NamedFromOutside(all, selected, refs, p))
  {
    hide RefersTo, NamedBy;
    errors', dependencies' := errors, dependencies;
    assert all[..0] == [];
    NamedByNone(selected, refs, target);
    for i := 0 to |all|
      invariant dependencies'.Keys == dependencies.Keys
      invariant forall n :: n in dependencies ==>
                  dependencies'[n] == dependencies[n] + NamedBy(all[..i], selected, refs, n, target)
      invariant forall p :: p in errors' <==>
                  p in errors || (p.0 == target && NamedFromOutside(all[..i], selected, refs, p))
    {
      var other := all[i];
      assert all[..i + 1] == all[..i] + [other];
      forall n
        ensures NamedBy(all[..i + 1], selected, refs, n, target)
             == NamedBy(all[..i], selected, refs, n, target) + NamedBy([other], selected, refs, n, target)
      {
        NamedByNext(all, i, selected, refs, n, target);
      }
      NamedByOne(selected, refs, other, target);
      if RefersTo(refs, other, target) {
        if other in selected {
          dependencies' := dependencies'[other.name := dependencies'[other.name] + {target.name}];
        } else {
          errors' := errors' + [(target, other)];
        }
      }
    }
    assert all[..|all|] == all;
  }

  // The errors and the dependencies that the first half of the function builds.
  method CollectAll(all: seq<Object>, selected: seq<Object>, refs: References, kind: string)
    returns (errors: seq<(Object, Object)>, dependencies: Graph)
    requires forall o :: o in selected ==> o in all && o.kind == kind
    ensures forall p :: p in errors <==> NamedFromOutside(all, selected, refs, p)
    ensures dependencies == SelectionGraph(kind, NamesOf(selected), refs)
  {
    errors := [];
    var names := NamesOf(selected);
    dependencies := map n | n in names :: {};
    SelectedNames(selected, kind);
    for i := 0 to |selected|
      invariant dependencies.Keys == names
      invariant forall n, t :: n in names ==> (t in dependencies[n] <==>
                  Object(kind, t) in selected[..i] && RefersTo(refs, Object(kind, n), Object(kind, t)))
      invariant forall p :: p in errors <==> p.0 in selected[..i] && NamedFromOutside(all, selected, refs, p)
    {
      assert selected[..i + 1] == selected[..i] + [selected[i]];
      errors, dependencies := Collect(all, selected, refs, selected[i], errors, dependencies);
    }
    assert selected[..|selected|] == selected;
    assert forall n :: n in names ==> dependencies[n] == SelectionGraph(kind, names, refs)[n];
  }

  lemma SelectedNames(selected: seq<Object>, kind: string)
    requires forall o :: o in selected ==> o.kind == kind
    ensures forall n :: n in NamesOf(selected) <==> Object(kind, n) in selected
  {
  }

  // _ordered_selection: the selection shares one kind and has distinct names.
  method OrderedSelection(all: seq<Object>, selected: seq<Object>, refs: References, kind: string)
    returns (result: Result<seq<string>, Problem>)
    requires forall o :: o in selected ==> o in all && o.kind == kind
    ensures result.Failure? && result.error.Referenced? <==>
              exists p :: NamedFromOutside(all, selected, refs, p)
    ensures result.Failure? && result.error.Referenced? ==>
              forall p :: p in result.error.pairs <==> NamedFromOutside(all, selected, refs, p)
    ensures result == Failure(Cyclic) <==>
              && !(exists p :: NamedFromOutside(all, selected, refs, p))
              && HasCycle(SelectionGraph(kind, NamesOf(selected), refs))
    ensures result.Success? ==>
              OrderOf(SelectionGraph(kind, NamesOf(selected), refs), NamesOf(selected), result.value)
  {
    hide NamedFromOutside, HasCycle, OrderOf, RefersTo;
    var errors, g := CollectAll(all, selected, refs, kind);
    if errors != [] {
      assert NamedFromOutside(all, selected, refs, errors[0]);
      return Failure(Referenced(errors));
    }
    LayeredIffAcyclic(g);
    LayeredOrders(g, g.Keys);
    assert g.Keys == NamesOf(selected);
    var order := LayeredLoop(g, g.Keys);
    if order.None? {
      return Failure(Cyclic);
    }
    return Success(order.value);
  }
}
