// The plugin registry: exclusive ownership, and the order plugins start in
// (src/dros/plugins/base.py:36-135).
module PluginRegistry {
  import opened Wrappers
  import opened Sequences
  import opened Graphs
  import DepthFirst

  // depends_on, packages, managed_files and config_kinds of a DrosPlugin.
  datatype Plugin = Plugin(name: string, dependsOn: seq<string>, packages: set<string>, files: set<string>, kinds: set<string>)

  datatype RegistrationError =
    | AlreadyRegistered(plugin: string)
    | PackageOwned(package: string, owner: string)
    | FileOwned(file: string, owner: string)
    | KindOwned(kind: string, owner: string)

  // The fields of a registry; order is the insertion order of the plugins.
  datatype Entries = Entries(
    plugins: map<string, Plugin>, order: seq<string>,
    packageOwners: map<string, string>, fileOwners: map<string, string>, kindOwners: map<string, string>)

  const NOTHING := Entries(map[], [], map[], map[], map[])

  predicate Taken(e: Entries, p: Plugin) {
    || p.name in e.plugins
    || (exists x :: x in p.packages && x in e.packageOwners)
    || (exists x :: x in p.files && x in e.fileOwners)
    || (exists x :: x in p.kinds && x in e.kindOwners)
  }

  function Owned(owners: map<string, string>, things: set<string>, owner: string): map<string, string> {
    owners + map x | x in things :: owner
  }

  function Registered(e: Entries, p: Plugin): Entries {
    if Taken(e, p) then e
    else Entries(e.plugins[p.name := p], e.order + [p.name],
                 Owned(e.packageOwners, p.packages, p.name),
                 Owned(e.fileOwners, p.files, p.name),
                 Owned(e.kindOwners, p.kinds, p.name))
  }

  function RegisteredAll(ps: seq<Plugin>): Entries {
    if ps == [] then NOTHING else Registered(RegisteredAll(ps[..|ps| - 1]), ps[|ps| - 1])
  }

  // ----------------------------------------------------------------- ownership

  // A way of owning things: packages, files or kinds.
  function Packages(p: Plugin): set<string> { p.packages }
  function Files(p: Plugin): set<string> { p.files }
  function Kinds(p: Plugin): set<string> { p.kinds }

  // Exactly the declared things are owned, each by the one plugin that declares it.
  ghost predicate Exclusive(plugins: map<string, Plugin>, owners: map<string, string>, things: Plugin -> set<string>) {
    && (forall x :: x in owners ==> owners[x] in plugins && x in things(plugins[owners[x]]))
    && (forall n, x :: n in plugins && x in things(plugins[n]) ==> x in owners && owners[x] == n)
  }

  ghost predicate Sound(e: Entries) {
    && (forall n :: n in e.plugins ==> e.plugins[n].name == n)
    && Distinct(e.order) && (forall n :: n in e.order <==> n in e.plugins)
    && Exclusive(e.plugins, e.packageOwners, Packages)
    && Exclusive(e.plugins, e.fileOwners, Files)
    && Exclusive(e.plugins, e.kindOwners, Kinds)
  }

  lemma OwnedKeepsExclusive(plugins: map<string, Plugin>, owners: map<string, string>, things: Plugin -> set<string>, p: Plugin)
    requires Exclusive(plugins, owners, things)
    requires p.name !in plugins && forall x :: x in things(p) ==> x !in owners
    ensures Exclusive(plugins[p.name := p], Owned(owners, things(p), p.name), things)
  {
  }

  lemma RegisteredKeepsSound(e: Entries, p: Plugin)
    requires Sound(e)
    ensures Sound(Registered(e, p))
  {
    if !Taken(e, p) {
      OwnedKeepsExclusive(e.plugins, e.packageOwners, Packages, p);
      OwnedKeepsExclusive(e.plugins, e.fileOwners, Files, p);
      OwnedKeepsExclusive(e.plugins, e.kindOwners, Kinds, p);
    }
  }

  // Whatever is registered in whatever order, failed calls included.
  lemma {:induction false} AlwaysSound(ps: seq<Plugin>)
    ensures Sound(RegisteredAll(ps))
  {
    hide Registered;
    if ps != [] {
      AlwaysSound(ps[..|ps| - 1]);
      RegisteredKeepsSound(RegisteredAll(ps[..|ps| - 1]), ps[|ps| - 1]);
    }
  }

  predicate Clash(p: Plugin, q: Plugin) {
    p.name == q.name || p.packages * q.packages != {} || p.files * q.files != {} || p.kinds * q.kinds != {}
  }

  lemma SharedThing(plugins: map<string, Plugin>, owners: map<string, string>, things: Plugin -> set<string>, p: Plugin)
    requires Exclusive(plugins, owners, things)
    ensures (exists x :: x in things(p) && x in owners) <==> exists n :: n in plugins && things(p) * things(plugins[n]) != {}
  {
    if x :| x in things(p) && x in owners {
      assert x in things(p) * things(plugins[owners[x]]);
    }
    if n :| n in plugins && things(p) * things(plugins[n]) != {} {
      var x :| x in things(p) * things(plugins[n]);
      assert x in things(p) && x in owners;
    }
  }

  // A call fails if and only if some registered plugin has the name or owns
  // one of the things.
  lemma TakenIffClash(e: Entries, p: Plugin)
    requires Sound(e)
    ensures Taken(e, p) <==> exists n :: n in e.plugins && Clash(p, e.plugins[n])
  {
    SharedThing(e.plugins, e.packageOwners, Packages, p);
    SharedThing(e.plugins, e.fileOwners, Files, p);
    SharedThing(e.plugins, e.kindOwners, Kinds, p);
    if p.name in e.plugins {
      assert Clash(p, e.plugins[p.name]);
    }
    if n :| n in e.plugins && p.packages * e.plugins[n].packages != {} {
      assert Clash(p, e.plugins[n]);
    }
    if n :| n in e.plugins && p.files * e.plugins[n].files != {} {
      assert Clash(p, e.plugins[n]);
    }
    if n :| n in e.plugins && p.kinds * e.plugins[n].kinds != {} {
      assert Clash(p, e.plugins[n]);
    }
  }

  lemma OwnersDeclare(e: Entries)
    requires Sound(e)
    ensures forall x :: x in e.packageOwners ==> e.packageOwners[x] in e.plugins && x in e.plugins[e.packageOwners[x]].packages
    ensures forall x :: x in e.fileOwners ==> e.fileOwners[x] in e.plugins && x in e.plugins[e.fileOwners[x]].files
    ensures forall x :: x in e.kindOwners ==> e.kindOwners[x] in e.plugins && x in e.plugins[e.kindOwners[x]].kinds
  {
  }

  // The first thing found that is already owned.
  method FindOwned(things: set<string>, owners: map<string, string>) returns (found: Option<string>)
    ensures found.None? <==> forall x :: x in things ==> x !in owners
    ensures found.Some? ==> found.value in things && found.value in owners
  {
    var rest := things;
    while rest != {}
      invariant rest <= things && forall x :: x in things && x !in rest ==> x !in owners
      decreases |rest|
    {
      var x :| x in rest;
      if x in owners {
        return Some(x);
      }
      rest := rest - {x};
    }
    return None;
  }

  // ------------------------------------------------------------ starting order

  datatype OrderError = CycleIncludes(plugin: string) | NotRegistered(plugin: string)

  type Lists = DepthFirst.Lists

  function Unvisited(lists: Lists, visiting: seq<string>): set<string> {
    lists.Keys - set n | n in visiting
  }

  lemma OneLess(lists: Lists, visiting: seq<string>, name: string)
    requires name in lists && name !in visiting
    ensures |Unvisited(lists, visiting + [name])| < |Unvisited(lists, visiting)|
  {
    assert Unvisited(lists, visiting + [name]) == Unvisited(lists, visiting) - {name};
    assert name in Unvisited(lists, visiting);
  }

  // visit(name): the new list of visited plugins, in order. visiting is the
  // chain of plugins whose dependencies are being visited.
  function Visit(lists: Lists, name: string, visiting: seq<string>, ordered: seq<string>): Result<seq<string>, OrderError>
    decreases |Unvisited(lists, visiting)|, 0
  {
    if name in ordered then Success(ordered)
    else if name in visiting then Failure(CycleIncludes(name))
    else if name !in lists then Failure(NotRegistered(name))
    else
      OneLess(lists, visiting, name);
      match VisitAll(lists, lists[name], visiting + [name], ordered)
      case Failure(e) => Failure(e)
      case Success(more) => Success(more + [name])
  }

  function VisitAll(lists: Lists, names: seq<string>, visiting: seq<string>, ordered: seq<string>)
    : Result<seq<string>, OrderError>
    decreases |Unvisited(lists, visiting)|, |names|
  {
    if names == [] then Success(ordered)
    else
      match VisitAll(lists, names[..|names| - 1], visiting, ordered)
      case Failure(e) => Failure(e)
      case Success(more) => Visit(lists, names[|names| - 1], visiting, more)
  }

  ghost predicate Chain(g: Graph, visiting: seq<string>) {
    forall i :: 0 <= i < |visiting| - 1 ==> Edge(g, visiting[i], visiting[i + 1])
  }

  ghost predicate Good(lists: Lists, visiting: seq<string>, ordered: seq<string>) {
    && Distinct(ordered) && (forall n :: n in ordered ==> n in lists && n !in visiting)
    && DependenciesFirst(DepthFirst.GraphOf(lists), ordered)
  }

  ghost predicate Needed(lists: Lists, visiting: seq<string>, name: string) {
    if visiting == [] then name in lists else Edge(DepthFirst.GraphOf(lists), visiting[|visiting| - 1], name)
  }

  // What an error says is true.
  ghost predicate Justified(lists: Lists, e: OrderError) {
    match e
    case CycleIncludes(n) => exists c :: Cycle(DepthFirst.GraphOf(lists), c) && c[0] == n
    case NotRegistered(n) => n !in lists && exists p :: p in lists && n in lists[p]
  }

  lemma CycleFound(lists: Lists, visiting: seq<string>, name: string)
    requires Chain(DepthFirst.GraphOf(lists), visiting) && name in visiting && Needed(lists, visiting, name)
    ensures Justified(lists, CycleIncludes(name))
  {
    var g, n := DepthFirst.GraphOf(lists), Position(visiting, name);
    var c := visiting[n..] + [name];
    forall i | 0 <= i < |c| - 1
      ensures Edge(g, c[i], c[i + 1])
    {
      assert c[i] == visiting[n + i];
      assert i < |c| - 2 ==> c[i + 1] == visiting[n + i + 1];
    }
    assert Cycle(g, c) && c[0] == name;
  }

  lemma MissingFound(lists: Lists, visiting: seq<string>, name: string)
    requires name !in lists && Needed(lists, visiting, name)
    ensures Justified(lists, NotRegistered(name))
  {
  }

  ghost predicate GoodResult(lists: Lists, names: seq<string>, visiting: seq<string>, ordered: seq<string>,
                             r: Result<seq<string>, OrderError>) {
    match r
    case Failure(e) => Justified(lists, e)
    case Success(more) => Good(lists, visiting, more) && ordered <= more && forall n :: n in names ==> n in more
  }

  lemma {:induction false} VisitGood(lists: Lists, name: string, visiting: seq<string>, ordered: seq<string>)
    requires Good(lists, visiting, ordered) && Chain(DepthFirst.GraphOf(lists), visiting) && Needed(lists, visiting, name)
    ensures GoodResult(lists, [name], visiting, ordered, Visit(lists, name, visiting, ordered))
    decreases |Unvisited(lists, visiting)|, 0
  {
    hide Chain, Justified, Needed, DepthFirst.GraphOf;
    if name in ordered {
    } else if name in visiting {
      CycleFound(lists, visiting, name);
    } else if name !in lists {
      MissingFound(lists, visiting, name);
    } else {
      hide Good, GoodResult;
      OneLess(lists, visiting, name);
      EnterGood(lists, name, visiting, ordered);
      VisitAllGood(lists, lists[name], visiting + [name], ordered);
      LeaveGood(lists, name, visiting, ordered, VisitAll(lists, lists[name], visiting + [name], ordered));
    }
  }

  lemma EnterGood(lists: Lists, name: string, visiting: seq<string>, ordered: seq<string>)
    requires Good(lists, visiting, ordered) && Chain(DepthFirst.GraphOf(lists), visiting) && Needed(lists, visiting, name)
    requires name in lists && name !in ordered
    ensures Good(lists, visiting + [name], ordered) && Chain(DepthFirst.GraphOf(lists), visiting + [name])
    ensures forall i :: 0 <= i < |lists[name]| ==> Needed(lists, visiting + [name], lists[name][i])
  {
  }

  lemma LeaveGood(lists: Lists, name: string, visiting: seq<string>, ordered: seq<string>, r: Result<seq<string>, OrderError>)
    requires name in lists && name !in visiting
    requires GoodResult(lists, lists[name], visiting + [name], ordered, r)
    ensures GoodResult(lists, [name], visiting, ordered, if r.Success? then Success(r.value + [name]) else r)
  {
    hide Justified;
    if r.Success? {
      var more := r.value;
      assert name in visiting + [name] && forall n :: n in visiting ==> n in visiting + [name];
      LeaveInOrder(lists, name, more);
    }
  }

  lemma LeaveInOrder(lists: Lists, name: string, more: seq<string>)
    requires name in lists && DependenciesFirst(DepthFirst.GraphOf(lists), more) && forall n :: n in lists[name] ==> n in more
    ensures DependenciesFirst(DepthFirst.GraphOf(lists), more + [name])
  {
    var g := DepthFirst.GraphOf(lists);
    forall i, b | 0 <= i < |more| + 1 && Edge(g, (more + [name])[i], b)
      ensures b in (more + [name])[..i]
    {
      DepthFirst.EdgeOf(lists, name, b);
      assert i < |more| ==> (more + [name])[i] == more[i] && (more + [name])[..i] == more[..i];
      assert i == |more| ==> (more + [name])[..i] == more;
    }
  }

  lemma {:induction false} VisitAllGood(lists: Lists, names: seq<string>, visiting: seq<string>, ordered: seq<string>)
    requires Good(lists, visiting, ordered) && Chain(DepthFirst.GraphOf(lists), visiting)
    requires forall i :: 0 <= i < |names| ==> Needed(lists, visiting, names[i])
    ensures GoodResult(lists, names, visiting, ordered, VisitAll(lists, names, visiting, ordered))
    decreases |Unvisited(lists, visiting)|, |names|
  {
    hide Chain, Justified, Needed, DepthFirst.GraphOf, Good, Visit;
    if names != [] {
      var init, last := names[..|names| - 1], names[|names| - 1];
      VisitAllGood(lists, init, visiting, ordered);
      var r := VisitAll(lists, init, visiting, ordered);
      if r.Success? {
        VisitGood(lists, last, visiting, r.value);
      }
      assert names == init + [last] && last in [last];
    }
  }

  ghost predicate Startable(lists: Lists) {
    && (forall p, n :: p in lists && n in lists[p] ==> n in lists)
    && !exists c :: Cycle(DepthFirst.GraphOf(lists), c)
  }

  ghost predicate StartingOrder(lists: Lists, order: seq<string>) {
    Distinct(order) && (forall n :: n in order <==> n in lists) && DependenciesFirst(DepthFirst.GraphOf(lists), order)
  }

  // The order exists if and only if no dependency is missing and none is
  // cyclic; then it holds every plugin once, after its dependencies. An error
  // names a plugin that is missing, or one on a cycle.
  lemma OrderIffStartable(lists: Lists, names: seq<string>)
    requires forall n :: n in names <==> n in lists
    ensures match VisitAll(lists, names, [], [])
            case Success(order) => Startable(lists) && StartingOrder(lists, order)
            case Failure(e) => !Startable(lists) && Justified(lists, e)
  {
    var g := DepthFirst.GraphOf(lists);
    assert Good(lists, [], []) && Chain(g, []);
    VisitAllGood(lists, names, [], []);
    hide VisitAll, Visit, DepthFirst.GraphOf;
    var r := VisitAll(lists, names, [], []);
    if r.Success? {
      assert forall n :: n in r.value <==> n in lists;
      forall p, n | p in lists && n in lists[p]
        ensures n in lists
      {
        DepthFirst.EdgeOf(lists, p, n);
        var i := Position(r.value, p);
        assert n in r.value[..i];
      }
      forall c | Cycle(g, c)
        ensures false
      {
        assert Edge(g, c[0], c[1]);
        DepthFirst.EdgeOf(lists, c[0], c[1]);
        NoCycleFrom(g, r.value, c);
      }
    }
  }

  // The variables that visit() shares with bootstrap_order.
  class Starter {
    const lists: Lists
    var visiting: set<string>
    var visited: set<string>
    var ordered: seq<string>
    ghost var chain: seq<string>

    constructor (lists: Lists)
      ensures this.lists == lists && Valid() && chain == [] && ordered == []
    {
      this.lists := lists;
      visiting, visited, ordered := {}, {}, [];
      chain := [];
    }

    ghost predicate Valid()
      reads this
    {
      && (forall n :: n in visiting <==> n in chain) && Distinct(chain)
      && forall n :: n in visited <==> n in ordered
    }

    // visit(name); a failure is an exception that leaves bootstrap_order.
    method VisitName(name: string) returns (r: Result<(), OrderError>)
      requires Valid()
      modifies this
      ensures match Visit(lists, name, old(chain), old(ordered))
              case Failure(e) => r == Failure(e)
              case Success(more) => r == Success(()) && Valid() && ordered == more && chain == old(chain)
      decreases |Unvisited(lists, chain)|, 0
    {
      hide VisitAll, Unvisited;
      if name in visited {
        return Success(());
      }
      if name in visiting {
        return Failure(CycleIncludes(name));
      }
      if name !in lists {
        return Failure(NotRegistered(name));
      }
      ghost var before := chain;
      OneLess(lists, chain, name);
      visiting := visiting + {name};
      chain := chain + [name];
      var dependencies := VisitNames(lists[name]);
      if dependencies.Failure? {
        return Failure(dependencies.error);
      }
      assert chain == before + [name] && name !in before;
      visiting := visiting - {name};
      chain := before;
      visited := visited + {name};
      ordered := ordered + [name];
      r := Success(());
    }

    method VisitNames(names: seq<string>) returns (r: Result<(), OrderError>)
      requires Valid()
      modifies this
      ensures match VisitAll(lists, names, old(chain), old(ordered))
              case Failure(e) => r == Failure(e)
              case Success(more) => r == Success(()) && Valid() && ordered == more && chain == old(chain)
      decreases |Unvisited(lists, chain)|, |names|
    {
      hide Visit, Unvisited;
      ghost var before, start := chain, ordered;
      for i := 0 to |names|
        invariant Valid() && chain == before
        invariant VisitAll(lists, names[..i], before, start) == Success(ordered)
      {
        assert names[..i + 1][..i] == names[..i];
        var one := VisitName(names[i]);
        if one.Failure? {
          FailureStays(lists, names, i + 1, before, start);
          return Failure(one.error);
        }
      }
      assert names[..|names|] == names;
      r := Success(());
    }
  }

  lemma {:induction false} FailureStays(lists: Lists, names: seq<string>, i: nat, visiting: seq<string>, ordered: seq<string>)
    requires i <= |names| && VisitAll(lists, names[..i], visiting, ordered).Failure?
    ensures VisitAll(lists, names, visiting, ordered) == VisitAll(lists, names[..i], visiting, ordered)
    decreases |names|
  {
    hide Visit;
    if i == |names| {
      assert names[..i] == names;
    } else {
      assert names[..|names| - 1][..i] == names[..i];
      FailureStays(lists, names[..|names| - 1], i, visiting, ordered);
    }
  }

  // ------------------------------------------------------------------ registry

  class PluginRegistry {
    var plugins: map<string, Plugin>
    var order: seq<string>
    var packageOwners: map<string, string>
    var fileOwners: map<string, string>
    var kindOwners: map<string, string>

    constructor ()
      ensures Here() == NOTHING && Sound(Here())
    {
      plugins, order, packageOwners, fileOwners, kindOwners := map[], [], map[], map[], map[];
    }

    function Here(): Entries
      reads this
    {
      Entries(plugins, order, packageOwners, fileOwners, kindOwners)
    }

    // register
    method Register(p: Plugin) returns (error: Option<RegistrationError>)
      requires Sound(Here())
      modifies this
      ensures Sound(Here()) && Here() == Registered(old(Here()), p)
      ensures error.Some? <==> exists n :: n in old(plugins) && Clash(p, old(plugins)[n])
      ensures error.Some? ==> unchanged(this)
      ensures match error
              case None => true
              case Some(AlreadyRegistered(n)) => n == p.name && n in plugins
              case Some(PackageOwned(x, owner)) => x in p.packages && owner in plugins && x in plugins[owner].packages
              case Some(FileOwned(x, owner)) => x in p.files && owner in plugins && x in plugins[owner].files
              case Some(KindOwned(x, owner)) => x in p.kinds && owner in plugins && x in plugins[owner].kinds
    {
      hide Clash, Sound, Owned;
      TakenIffClash(Here(), p);
      OwnersDeclare(Here());
      RegisteredKeepsSound(Here(), p);
      if p.name in plugins {
        return Some(AlreadyRegistered(p.name));
      }
      var package := FindOwned(p.packages, packageOwners);
      if package.Some? {
        return Some(PackageOwned(package.value, packageOwners[package.value]));
      }
      var file := FindOwned(p.files, fileOwners);
      if file.Some? {
        return Some(FileOwned(file.value, fileOwners[file.value]));
      }
      var kind := FindOwned(p.kinds, kindOwners);
      if kind.Some? {
        return Some(KindOwned(kind.value, kindOwners[kind.value]));
      }
      plugins := plugins[p.name := p];
      order := order + [p.name];
      packageOwners := Owned(packageOwners, p.packages, p.name);
      fileOwners := Owned(fileOwners, p.files, p.name);
      kindOwners := Owned(kindOwners, p.kinds, p.name);
      error := None;
    }

    // plugin_for_kind; None is the KeyError.
    method PluginForKind(kind: string) returns (p: Option<Plugin>)
      requires Sound(Here())
      ensures p.Some? ==> p.value.name in plugins && plugins[p.value.name] == p.value && kind in p.value.kinds
      ensures p.Some? ==> forall n :: n in plugins && kind in plugins[n].kinds ==> n == p.value.name
      ensures p.None? <==> forall n :: n in plugins ==> kind !in plugins[n].kinds
    {
      if kind in kindOwners {
        p := Some(plugins[kindOwners[kind]]);
      } else {
        p := None;
      }
    }

    function Dependencies(): Lists
      reads this
    {
      map n | n in plugins :: plugins[n].dependsOn
    }

    // bootstrap_order
    method BootstrapOrder() returns (r: Result<seq<string>, OrderError>)
      requires Sound(Here())
      ensures r.Success? <==> Startable(Dependencies())
      ensures r.Success? ==> StartingOrder(Dependencies(), r.value)
      ensures r.Failure? ==> Justified(Dependencies(), r.error)
    {
      hide Startable, StartingOrder, Justified;
      OrderIffStartable(Dependencies(), order);
      var starter := new Starter(Dependencies());
      var outcome := starter.VisitNames(order);
      if outcome.Failure? {
        return Failure(outcome.error);
      }
      return Success(starter.ordered);
    }
  }
}
