// Applying an uninstall plan (src/dros/delete.py:224-313 and 514-596,
// src/dros/xfrm_delete.py:465-507): whole-batch preflight, ordered removal and
// verification, no rollback.
module DeleteApply {
  import opened Wrappers
  import opened Sequences
  import opened XfrmInventory
  import opened XfrmKernel
  import opened XfrmUninstall

  const GENERATED_HEADER := "# Generated by DROS. Manual changes will be overwritten."

  // A directory entry; symlinked also covers a symbolic link among its parents.
  datatype Node = Node(symlinked: bool, regular: bool, hardLinks: nat, content: string)

  datatype FileRemoval = FileRemoval(path: string, sha256: nat)

  // A link names its master by name or by index.
  datatype Master = ByName(name: string) | ByIndex(ifindex: int)

  // What the ip link listing says of one interface.
  datatype Link = Link(
    name: string, ifindex: int, kind: Option<string>, master: Option<Master>, linkIndex: Option<int>,
    link: Option<string>, local: Option<string>, remote: Option<string>, up: bool, collectMetadata: bool)

  datatype Removal = Removal(directions: seq<Direction>, service: string, serviceFile: Option<string>)

  // interfaceType is None for a CronJob or Gateway.
  datatype Resource = Resource(
    name: string, files: seq<FileRemoval>, interfaceType: Option<string>, installed: bool, xfrm: Option<Removal>)

  datatype Env = Env(ip: Addresses, sha256: string -> nat)

  // ------------------------------------------------------------- ownership

  datatype FileState = Refused | Absent | Managed(file: FileRemoval)

  // _managed_file
  function ManagedFile(env: Env, files: map<string, Node>, path: string): FileState {
    if path !in files then Absent
    else
      var node := files[path];
      if node.symlinked || !node.regular || node.hardLinks != 1 then Refused
      else if !(GENERATED_HEADER + "\n" <= node.content) then Refused
      else Managed(FileRemoval(path, env.sha256(node.content)))
  }

  predicate Verified(env: Env, files: map<string, Node>, file: FileRemoval) {
    ManagedFile(env, files, file.path) == Managed(file)
  }

  // A planned file is verified when it is there, plain, generated and unchanged.
  lemma VerifiedIff(env: Env, files: map<string, Node>, file: FileRemoval)
    ensures Verified(env, files, file) <==>
              && file.path in files
              && var node := files[file.path];
                 && !node.symlinked && node.regular && node.hardLinks == 1
                 && "# Generated by DROS. Manual changes will be overwritten.\n" <= node.content
                 && env.sha256(node.content) == file.sha256
  {
    assert GENERATED_HEADER + "\n" == "# Generated by DROS. Manual changes will be overwritten.\n";
  }

  const GRE_KINDS := {Some("gre"), Some("gretap"), Some("ip6gre"), Some("ip6gretap")}
  const WILDCARDS := {Some("0.0.0.0"), Some("::"), None}

  // A live tunnel other than the resource's own may use the same endpoints.
  predicate SharesEndpoints(resource: Resource, other: Link)
    requires resource.xfrm.Some? && resource.xfrm.value.directions != []
  {
    var d := resource.xfrm.value.directions[0];
    && other.name != resource.name && other.kind in GRE_KINDS
    && (other.remote == Some(d.dst) || (other.remote in WILDCARDS && (other.up || other.collectMetadata)))
    && other.local in {Some(d.src)} + WILDCARDS
  }

  predicate DependsOn(other: Link, link: Link) {
    || other.master in {Some(ByName(link.name)), Some(ByIndex(link.ifindex))}
    || other.linkIndex == Some(link.ifindex)
    || other.link == Some(link.name)
  }

  ghost predicate RuntimeOwned(resource: Resource, link: Link) {
    && resource.interfaceType.Some? && link.kind == resource.interfaceType
    && (resource.xfrm.Some? && resource.xfrm.value.directions != [] ==>
          && link.local == Some(resource.xfrm.value.directions[0].src)
          && link.remote == Some(resource.xfrm.value.directions[0].dst))
    && resource.installed
  }

  predicate Named(links: seq<Link>, name: string) {
    exists i :: 0 <= i < |links| && links[i].name == name
  }

  predicate FirstNamed(links: seq<Link>, name: string, i: nat) {
    i < |links| && links[i].name == name && forall n :: 0 <= n < i ==> links[n].name != name
  }

  // The runtime interface is the resource's own, nothing outside the selection
  // depends on it, and no other tunnel uses its transport's endpoints.
  ghost predicate RuntimeSafe(resource: Resource, links: seq<Link>, selected: set<string>)
    requires resource.xfrm.Some? ==> resource.xfrm.value.directions != []
  {
    && (resource.xfrm.Some? ==> forall j :: 0 <= j < |links| ==> !SharesEndpoints(resource, links[j]))
    && forall i: nat :: FirstNamed(links, resource.name, i) ==>
         && RuntimeOwned(resource, links[i])
         && forall j :: 0 <= j < |links| && links[j].name !in selected ==> !DependsOn(links[j], links[i])
  }

  // What an interface rests on, by name and by index.
  function NamesBelow(o: Link): set<string> {
    (match o.link case Some(n) => {n} case None => {})
    + (match o.master case Some(ByName(n)) => {n} case _ => {})
  }

  function IndexesBelow(o: Link): set<int> {
    (match o.linkIndex case Some(n) => {n} case None => {})
    + (match o.master case Some(ByIndex(n)) => {n} case _ => {})
  }

  predicate Open(address: Option<string>) {
    match address
    case None => true
    case Some(a) => a == "0.0.0.0" || a == "::"
  }

  // A tunnel that may carry packets between the two addresses.
  predicate Carries(o: Link, src: string, dst: string) {
    && o.kind.Some?
    && (o.kind.value == "gre" || o.kind.value == "gretap" || o.kind.value == "ip6gre" || o.kind.value == "ip6gretap")
    && (o.local == Some(src) || Open(o.local))
    && (o.remote == Some(dst) || (Open(o.remote) && o.up) || (Open(o.remote) && o.collectMetadata))
  }

  // What stands in the way of removing the resource's interface: another tunnel
  // between its transport's addresses; or, if the interface is there, that it is
  // of another type, joins other addresses or was not installed by DROS, or that
  // an interface outside the selection rests on it.
  ghost predicate Obstructed(r: Resource, links: seq<Link>, selected: set<string>)
    requires r.xfrm.Some? ==> r.xfrm.value.directions != []
  {
    || (exists o :: o in links && r.xfrm.Some? && o.name != r.name
                    && Carries(o, r.xfrm.value.directions[0].src, r.xfrm.value.directions[0].dst))
    || (exists i: nat :: FirstNamed(links, r.name, i) && !Fits(r, links[i]))
    || (exists i: nat, o :: FirstNamed(links, r.name, i) && o in links && o.name !in selected
                            && (r.name in NamesBelow(o) || links[i].ifindex in IndexesBelow(o)))
  }

  predicate Fits(r: Resource, l: Link)
    requires r.xfrm.Some? ==> r.xfrm.value.directions != []
  {
    && l.kind.Some? && r.interfaceType.Some? && l.kind.value == r.interfaceType.value && r.installed
    && match r.xfrm
       case None => true
       case Some(x) => l.local == Some(x.directions[0].src) && l.remote == Some(x.directions[0].dst)
  }

  lemma SharesIff(r: Resource, o: Link)
    requires r.xfrm.Some? && r.xfrm.value.directions != []
    ensures SharesEndpoints(r, o)
       <==> o.name != r.name && Carries(o, r.xfrm.value.directions[0].src, r.xfrm.value.directions[0].dst)
  {
  }

  lemma DependsIff(o: Link, l: Link)
    ensures DependsOn(o, l) <==> l.name in NamesBelow(o) || l.ifindex in IndexesBelow(o)
  {
  }

  lemma SafeIsUnobstructed(r: Resource, links: seq<Link>, selected: set<string>)
    requires r.xfrm.Some? ==> r.xfrm.value.directions != []
    requires RuntimeSafe(r, links, selected)
    ensures !Obstructed(r, links, selected)
  {
    hide SharesEndpoints, Carries, DependsOn, NamesBelow, IndexesBelow, RuntimeOwned, Fits;
    forall o | o in links && r.xfrm.Some? && o.name != r.name
      ensures !Carries(o, r.xfrm.value.directions[0].src, r.xfrm.value.directions[0].dst)
    {
      SharesIff(r, o);
    }
    forall i: nat | FirstNamed(links, r.name, i)
      ensures Fits(r, links[i])
    {
      OwnedIffFits(r, links[i]);
    }
    forall i: nat, o | FirstNamed(links, r.name, i) && o in links && o.name !in selected
      ensures !(r.name in NamesBelow(o) || links[i].ifindex in IndexesBelow(o))
    {
      var j :| 0 <= j < |links| && links[j] == o;
      DependsIff(links[j], links[i]);
    }
  }

  lemma UnobstructedIsSafe(r: Resource, links: seq<Link>, selected: set<string>)
    requires r.xfrm.Some? ==> r.xfrm.value.directions != []
    requires !Obstructed(r, links, selected)
    ensures RuntimeSafe(r, links, selected)
  {
    hide SharesEndpoints, Carries, DependsOn, NamesBelow, IndexesBelow, RuntimeOwned, Fits;
    forall j | 0 <= j < |links| && r.xfrm.Some?
      ensures !SharesEndpoints(r, links[j])
    {
      assert links[j] in links;
      SharesIff(r, links[j]);
    }
    forall i: nat | FirstNamed(links, r.name, i)
      ensures RuntimeOwned(r, links[i])
      ensures forall j :: 0 <= j < |links| && links[j].name !in selected ==> !DependsOn(links[j], links[i])
    {
      OwnedIffFits(r, links[i]);
      forall j | 0 <= j < |links| && links[j].name !in selected
        ensures !DependsOn(links[j], links[i])
      {
        assert links[j] in links;
        DependsIff(links[j], links[i]);
      }
    }
  }

  // The runtime check passes exactly when nothing stands in the way.
  lemma SafeIffUnobstructed(r: Resource, links: seq<Link>, selected: set<string>)
    requires r.xfrm.Some? ==> r.xfrm.value.directions != []
    ensures RuntimeSafe(r, links, selected) <==> !Obstructed(r, links, selected)
  {
    if RuntimeSafe(r, links, selected) {
      SafeIsUnobstructed(r, links, selected);
    } else if !Obstructed(r, links, selected) {
      UnobstructedIsSafe(r, links, selected);
    }
  }

  lemma OwnedIffFits(r: Resource, l: Link)
    requires r.xfrm.Some? ==> r.xfrm.value.directions != []
    ensures RuntimeOwned(r, l) <==> Fits(r, l)
  {
  }

  // _check_runtime; None raises.
  method CheckRuntime(resource: Resource, links: seq<Link>, selected: set<string>) returns (present: Option<bool>)
    requires resource.interfaceType.Some?
    requires resource.xfrm.Some? ==> resource.xfrm.value.directions != []
    ensures present.Some? <==> RuntimeSafe(resource, links, selected)
    ensures present.Some? <==> !Obstructed(resource, links, selected)
    ensures present.Some? ==> (present.value <==> Named(links, resource.name))
  {
    SafeIffUnobstructed(resource, links, selected);
    hide SharesEndpoints, DependsOn, Obstructed;
    if resource.xfrm.Some? {
      for j := 0 to |links|
        invariant forall n :: 0 <= n < j ==> !SharesEndpoints(resource, links[n])
      {
        if SharesEndpoints(resource, links[j]) {
          return None;
        }
      }
    }
    var i := 0;
    while i < |links| && links[i].name != resource.name
      invariant 0 <= i <= |links|
      invariant forall n :: 0 <= n < i ==> links[n].name != resource.name
    {
      i := i + 1;
    }
    if i == |links| {
      return Some(false);
    }
    assert FirstNamed(links, resource.name, i);
    if links[i].kind != resource.interfaceType {
      return None;
    }
    if resource.xfrm.Some? {
      var d := resource.xfrm.value.directions[0];
      if links[i].local != Some(d.src) || links[i].remote != Some(d.dst) {
        return None;
      }
    }
    if !resource.installed {
      return None;
    }
    for j := 0 to |links|
      invariant forall n :: 0 <= n < j && links[n].name !in selected ==> !DependsOn(links[n], links[i])
    {
      if links[j].name !in selected && DependsOn(links[j], links[i]) {
        return None;
      }
    }
    return Some(true);
  }

  const SERVICE_FIELDS := {"LoadState", "FragmentPath", "DropInPaths", "ActiveState", "UnitFileState"}

  // inspect_service on the properties that systemctl shows.
  predicate ServiceOwned(removal: Removal, values: map<string, string>) {
    && SERVICE_FIELDS <= values.Keys
    && values["LoadState"] != "" && values["DropInPaths"] == ""
    && values["ActiveState"] in {"inactive", "failed"}
    && match removal.serviceFile
       case Some(file) => values["LoadState"] == "loaded" && values["FragmentPath"] == file
       case None =>
         && values["LoadState"] == "not-found" && values["FragmentPath"] == ""
         && values["UnitFileState"] in {"", "not-found"}
  }

  // What inspect_service demands, whether DROS owns a unit file or not: a stopped
  // unit without drop-ins, loaded from just that file or not known at all.
  lemma ServiceOwnedIff(removal: Removal, values: map<string, string>)
    ensures ServiceOwned(removal, values) <==>
              && (forall n :: n in {"LoadState", "FragmentPath", "DropInPaths", "ActiveState", "UnitFileState"} ==> n in values)
              && values["DropInPaths"] == ""
              && (values["ActiveState"] == "inactive" || values["ActiveState"] == "failed")
              && (removal.serviceFile.Some? ==>
                    values["LoadState"] == "loaded" && values["FragmentPath"] == removal.serviceFile.value)
              && (removal.serviceFile.None? ==>
                    && values["LoadState"] == "not-found" && values["FragmentPath"] == ""
                    && (values["UnitFileState"] == "" || values["UnitFileState"] == "not-found"))
  {
  }

  // ---------------------------------------------------------- effects of a plan

  function PathsOf(files: seq<FileRemoval>): set<string> {
    set f | f in files :: f.path
  }

  function PlanPaths(plan: seq<Resource>): set<string> {
    set r, f | r in plan && f in r.files :: f.path
  }

  predicate HasInterface(plan: seq<Resource>, name: string) {
    exists r :: r in plan && r.interfaceType.Some? && r.name == name
  }

  function OfPlan(plan: seq<Resource>, offline: bool): Link -> bool {
    (link: Link) => !offline && HasInterface(plan, link.name)
  }

  function DirectionsOf(r: Resource, offline: bool): seq<Direction> {
    if offline || r.xfrm.None? then [] else r.xfrm.value.directions
  }

  function PlanDirections(plan: seq<Resource>, offline: bool): seq<Direction> {
    if plan == [] then []
    else PlanDirections(plan[..|plan| - 1], offline) + DirectionsOf(plan[|plan| - 1], offline)
  }

  // The four things an uninstall touches.
  datatype Snapshot = Snapshot(files: map<string, Node>, links: seq<Link>, policies: seq<KernelEntry>, states: seq<KernelEntry>)

  // The world with every resource of the plan gone and all else as it was.
  function Without(env: Env, w: Snapshot, plan: seq<Resource>, offline: bool): Snapshot {
    Snapshot(
      w.files - PlanPaths(plan),
      Drop(w.links, OfPlan(plan, offline)),
      Others(env.ip, Policies, w.policies, PlanDirections(plan, offline)),
      Others(env.ip, States, w.states, PlanDirections(plan, offline)))
  }

  // The states in which removing one more resource can stop, given the world
  // before it and after it: its interface goes first, then its policies, then
  // its states, then its files in order.
  ghost predicate Interrupted(
    env: Env, before: Snapshot, after: Snapshot, r: Resource, offline: bool, now: Snapshot)
  {
    || now == before
    || now == before.(links := after.links)
    || (&& now.files == before.files && now.links == after.links
        && PartlyGone(env.ip, before.policies, before.states, now.policies, now.states, DirectionsOf(r, offline)))
    || (exists j :: 0 <= j <= |r.files| && now == after.(files := before.files - PathsOf(r.files[..j])))
  }

  // What a resource has to satisfy for each kind of change to be made for it:
  // its interface is provably its own, its transport is exclusively its own, and
  // its files are the generated ones that were planned.
  ghost predicate Justified(env: Env, r: Resource, before: Snapshot, now: Snapshot, offline: bool)
    requires r.xfrm.Some? ==> r.xfrm.value.directions != []
  {
    && (now != before && r.interfaceType.Some? && !offline ==> RuntimeSafe(r, before.links, {r.name}))
    && (now.policies != before.policies || now.states != before.states ==>
          && r.xfrm.Some?
          && Inspectable(env.ip, Listed(before.policies), Listed(before.states), r.xfrm.value.directions))
    && (forall path :: path in before.files && path !in now.files ==>
          && (exists f :: f in r.files && f.path == path && Verified(env, before.files, f))
          && (r.xfrm.Some? && !offline ==>
                Inspectable(env.ip, Listed(before.policies), Listed(before.states), r.xfrm.value.directions)))
  }

  ghost predicate Complete(plan: seq<Resource>) {
    forall i :: 0 <= i < |plan| && plan[i].xfrm.Some? ==> plan[i].xfrm.value.directions != []
  }

  // Each of the first n resources was justified in the world just before it.
  ghost predicate AllJustified(env: Env, w: Snapshot, plan: seq<Resource>, n: nat, offline: bool)
    requires Complete(plan) && n <= |plan|
  {
    forall i :: 0 <= i < n ==>
      Justified(env, plan[i], Without(env, w, plan[..i], offline), Without(env, w, plan[..i + 1], offline), offline)
  }

  // What systemctl shows of a unit that was stopped and disabled.
  predicate StoppedUnit(values: map<string, string>) {
    && {"ActiveState", "UnitFileState"} <= values.Keys
    && values["ActiveState"] in {"inactive", "failed"}
    && values["UnitFileState"] in {"disabled", "static"}
  }

  lemma StoppedUnitIff(values: map<string, string>)
    ensures StoppedUnit(values) <==>
              && "ActiveState" in values && (values["ActiveState"] == "inactive" || values["ActiveState"] == "failed")
              && "UnitFileState" in values && (values["UnitFileState"] == "disabled" || values["UnitFileState"] == "static")
  {
  }

  // The units that uninstalling the resources stops.
  ghost function UnitsOf(r: Resource, offline: bool): set<string> {
    if r.xfrm.Some? && r.xfrm.value.serviceFile.Some? && !offline then {r.xfrm.value.service} else {}
  }

  ghost function PlanUnits(plan: seq<Resource>, offline: bool): set<string> {
    if plan == [] then {} else PlanUnits(plan[..|plan| - 1], offline) + UnitsOf(plan[|plan| - 1], offline)
  }

  // Of no other unit was anything done.
  ghost predicate OnlyUnits(
    before: map<string, map<string, string>>, now: map<string, map<string, string>>, changed: set<string>)
  {
    now - changed == before - changed
  }

  ghost predicate AllStopped(units: map<string, map<string, string>>, stopped: set<string>) {
    forall u :: u in stopped ==> u in units && StoppedUnit(units[u])
  }

  lemma PlanUnitsNext(plan: seq<Resource>, r: Resource, offline: bool)
    ensures PlanUnits(plan + [r], offline) == PlanUnits(plan, offline) + UnitsOf(r, offline)
  {
    assert (plan + [r])[..|plan|] == plan;
  }

  lemma NoUnits(units: map<string, map<string, string>>, offline: bool)
    ensures OnlyUnits(units, units, PlanUnits([], offline)) && AllStopped(units, PlanUnits([], offline))
  {
  }

  lemma UnitsNext(
    start: map<string, map<string, string>>, mid: map<string, map<string, string>>, now: map<string, map<string, string>>,
    done: set<string>, more: set<string>)
    requires OnlyUnits(start, mid, done) && OnlyUnits(mid, now, more)
    ensures OnlyUnits(start, now, done + more)
    ensures AllStopped(mid, done) && AllStopped(now, more) ==> AllStopped(now, done + more)
  {
    hide StoppedUnit;
    assert start - (done + more) == start - done - more;
    assert mid - (done + more) == mid - done - more == mid - more - done;
    assert now - (done + more) == now - more - done;
    forall u | u in done && u !in more && u in mid
      ensures u in now && now[u] == mid[u]
    {
      assert u in mid - more;
      assert u in now - more;
    }
  }

  lemma WithoutNone(env: Env, w: Snapshot, offline: bool)
    ensures Without(env, w, [], offline) == w
  {
    FilterAll(w.links, Not(OfPlan([], offline)));
    OthersNone(env.ip, Policies, w.policies);
    OthersNone(env.ip, States, w.states);
  }

  lemma OthersTwice(ip: Addresses, kind: Kind, items: seq<KernelEntry>, ds: seq<Direction>, es: seq<Direction>)
    ensures Others(ip, kind, Others(ip, kind, items, ds), es) == Others(ip, kind, items, ds + es)
  {
    hide Hits;
    var p, q, r := OneOf(ip, kind, ds), OneOf(ip, kind, es), OneOf(ip, kind, ds + es);
    FilterTwice(items, Not(p), Not(q));
    forall x: KernelEntry
      ensures (!p(x) && !q(x)) == !r(x)
    {
      if r(x) {
        var i :| 0 <= i < |ds + es| && Hits(ip, kind, x, (ds + es)[i]);
        assert i < |ds| || es[i - |ds|] == (ds + es)[i];
      }
      if p(x) {
        var i :| 0 <= i < |ds| && Hits(ip, kind, x, ds[i]);
        assert (ds + es)[i] == ds[i];
      }
      if q(x) {
        var i :| 0 <= i < |es| && Hits(ip, kind, x, es[i]);
        assert (ds + es)[|ds| + i] == es[i];
      }
    }
    FilterSame(items, Both(Not(p), Not(q)), Not(r));
  }

  lemma LinksTwice(links: seq<Link>, plan: seq<Resource>, r: Resource, offline: bool)
    ensures Drop(Drop(links, OfPlan(plan, offline)), OfPlan([r], offline)) == Drop(links, OfPlan(plan + [r], offline))
  {
    var p, q, both := OfPlan(plan, offline), OfPlan([r], offline), OfPlan(plan + [r], offline);
    FilterTwice(links, Not(p), Not(q));
    forall x: Link
      ensures (!p(x) && !q(x)) == !both(x)
    {
      assert forall n :: n in plan + [r] <==> n in plan || n in [r];
    }
    FilterSame(links, Both(Not(p), Not(q)), Not(both));
  }

  lemma DirectionsNext(plan: seq<Resource>, r: Resource, offline: bool)
    ensures PlanDirections(plan + [r], offline) == PlanDirections(plan, offline) + DirectionsOf(r, offline)
    ensures PlanDirections([r], offline) == DirectionsOf(r, offline)
  {
  }

  lemma PathsNext(files: map<string, Node>, plan: seq<Resource>, r: Resource)
    ensures files - PlanPaths(plan) - PlanPaths([r]) == files - PlanPaths(plan + [r])
    ensures PlanPaths([r]) == PathsOf(r.files)
  {
  }

  // Taking out the resources one by one takes out the plan.
  lemma WithoutNext(env: Env, w: Snapshot, plan: seq<Resource>, r: Resource, offline: bool)
    ensures Without(env, Without(env, w, plan, offline), [r], offline) == Without(env, w, plan + [r], offline)
  {
    hide PlanPaths, PlanDirections, Others, OfPlan, Drop, DirectionsOf;
    var ds, es := PlanDirections(plan, offline), DirectionsOf(r, offline);
    LinksTwice(w.links, plan, r, offline);
    PathsNext(w.files, plan, r);
    DirectionsNext(plan, r, offline);
    OthersTwice(env.ip, Policies, w.policies, ds, es);
    OthersTwice(env.ip, States, w.states, ds, es);
  }

  // --------------------------------------------------------------- the router

  datatype Applied = Uninstalled | Rejected | Stopped(at: nat)

  class Router {
    var files: map<string, Node>
    var links: seq<Link>
    var units: map<string, map<string, string>>
    const kernel: Kernel

    constructor (files: map<string, Node>, links: seq<Link>, units: map<string, map<string, string>>, kernel: Kernel)
      ensures this.files == files && this.links == links && this.units == units && this.kernel == kernel
    {
      this.files, this.links, this.units, this.kernel := files, links, units, kernel;
    }

    ghost function Now(): Snapshot
      reads this, kernel
    {
      Snapshot(files, links, kernel.policies, kernel.states)
    }

    ghost predicate Valid(env: Env)
      reads this, kernel
    {
      Truthful(env.ip, Policies, kernel.policies) && Truthful(env.ip, States, kernel.states)
    }

    // ifdown and ip link delete: the interface may go, nothing else does.
    method RemoveLink(r: Resource) returns (ok: bool)
      modifies this`links
      ensures links == old(links) || links == Drop(old(links), OfPlan([r], false))
    {
      ok := *;
      var gone: bool := *;
      if gone {
        links := Drop(links, OfPlan([r], false));
      }
    }

    // The part of an uninstall that takes the interface down. An interface that
    // is not provably the resource's own is left alone, and none of the ways to
    // fail touches anything but the interface itself.
    method StopInterface(r: Resource) returns (ok: bool)
      requires r.interfaceType.Some? && (r.xfrm.Some? ==> r.xfrm.value.directions != [])
      modifies this`links
      ensures links == old(links) || links == Drop(old(links), OfPlan([r], false))
      ensures ok ==> links == Drop(old(links), OfPlan([r], false))
      ensures !RuntimeSafe(r, old(links), {r.name}) ==> !ok && links == old(links)
      ensures Obstructed(r, old(links), {r.name}) ==> !ok && links == old(links)
    {
      SafeIffUnobstructed(r, links, {r.name});
      hide RuntimeSafe, Obstructed;
      var inspected: bool := *;
      if !inspected {
        return false;
      }
      var present := CheckRuntime(r, links, {r.name});
      if present.None? {
        return false;
      }
      if !present.value {
        DropAbsent(links, r);
        return true;
      }
      ok := RemoveLink(r);
      if !ok {
        return false;
      }
      DropLinksTwice(old(links), r);
      present := CheckRuntime(r, links, {r.name});
      if present.None? {
        return false;
      }
      if present.value {
        ok := RemoveLink(r);
        if !ok {
          return false;
        }
      }
      if Named(links, r.name) {
        return false;
      }
      DropAbsent(links, r);
      return true;
    }

    // The part that takes the transport out, unit first. Policies and states are
    // touched only when they are exclusively and provably the transport's own.
    method StopTransport(env: Env, r: Resource) returns (ok: bool)
      requires r.xfrm.Some? && Valid(env)
      modifies kernel, this`units
      ensures ok ==>
                && kernel.policies == Others(env.ip, Policies, old(kernel.policies), r.xfrm.value.directions)
                && kernel.states == Others(env.ip, States, old(kernel.states), r.xfrm.value.directions)
      ensures PartlyGone(env.ip, old(kernel.policies), old(kernel.states), kernel.policies, kernel.states,
                         r.xfrm.value.directions)
      ensures !Inspectable(env.ip, Listed(old(kernel.policies)), Listed(old(kernel.states)), r.xfrm.value.directions) ==>
                !ok && kernel.policies == old(kernel.policies) && kernel.states == old(kernel.states)
      ensures units - {r.xfrm.value.service} == old(units) - {r.xfrm.value.service}
      ensures r.xfrm.value.serviceFile.None? ==> units == old(units)
      ensures ok && r.xfrm.value.serviceFile.Some? ==>
                r.xfrm.value.service in units && StoppedUnit(units[r.xfrm.value.service])
    {
      hide Inspectable, Others, StoppedUnit, Truthful;
      NothingGone(env.ip, kernel.policies, kernel.states, r.xfrm.value.directions);
      if r.xfrm.value.serviceFile.Some? {
        var disabled, answered: bool := *, *;
        var shown: map<string, string> := *;
        units := units[r.xfrm.value.service := shown];
        if !disabled || !answered || !StoppedUnit(shown) {
          return false;
        }
      }
      var outcome := UninstallXfrm(env.ip, kernel, r.xfrm.value.directions);
      return outcome == Done;
    }

    // The part that unlinks the files: each is verified once more just before.
    method UnlinkFiles(env: Env, r: Resource) returns (ok: bool)
      modifies this`files
      ensures exists j :: 0 <= j <= |r.files| && files == old(files) - PathsOf(r.files[..j])
                          && forall n :: 0 <= n < j ==> Verified(env, old(files), r.files[n])
      ensures ok ==> files == old(files) - PathsOf(r.files)
    {
      assert files == old(files) - PathsOf(r.files[..0]);
      for j := 0 to |r.files|
        invariant files == old(files) - PathsOf(r.files[..j])
        invariant forall n :: 0 <= n < j ==> Verified(env, old(files), r.files[n])
      {
        if !Verified(env, files, r.files[j]) {
          return false;
        }
        assert files[r.files[j].path] == old(files)[r.files[j].path];
        assert r.files[..j + 1] == r.files[..j] + [r.files[j]];
        assert PathsOf(r.files[..j + 1]) == PathsOf(r.files[..j]) + {r.files[j].path};
        files := files - {r.files[j].path};
      }
      assert r.files[..|r.files|] == r.files;
      return true;
    }

    // One round of the loop in apply_delete_plan.
    method Uninstall(env: Env, r: Resource, offline: bool) returns (ok: bool)
      requires Valid(env) && (r.xfrm.Some? ==> r.xfrm.value.directions != [])
      modifies this`files, this`links, this`units, kernel
      ensures Valid(env)
      ensures ok ==> Now() == Without(env, old(Now()), [r], offline)
      ensures Interrupted(env, old(Now()), Without(env, old(Now()), [r], offline), r, offline, Now())
      ensures Justified(env, r, old(Now()), Now(), offline)
      ensures r.interfaceType.Some? && !offline && !RuntimeSafe(r, old(links), {r.name}) ==>
                !ok && Now() == old(Now()) && units == old(units)
      ensures r.interfaceType.Some? && !offline && Obstructed(r, old(links), {r.name}) ==>
                !ok && Now() == old(Now()) && units == old(units)
      ensures OnlyUnits(old(units), units, UnitsOf(r, offline))
      ensures ok ==> AllStopped(units, UnitsOf(r, offline))
    {
      hide Others, PartlyGone, PathsOf, PlanPaths, PlanDirections, RuntimeSafe, Inspectable, Verified, Truthful,
           StoppedUnit, Drop, Obstructed;
      SafeIffUnobstructed(r, links, {r.name});
      ghost var before := Now();
      ghost var after := Without(env, before, [r], offline);
      OneResource(env, before, r, offline);
      if r.interfaceType.Some? && !offline {
        var stopped := StopInterface(r);
        if !stopped {
          return false;
        }
      }
      assert links == after.links;
      if r.xfrm.Some? && !offline {
        var stopped := StopTransport(env, r);
        KernelStillValid(env, before, r);
        if !stopped {
          return false;
        }
      }
      assert kernel.policies == after.policies && kernel.states == after.states;
      var unlinked := UnlinkFiles(env, r);
      RemovedVerified(env, before.files, files, r);
      if !unlinked {
        return false;
      }
      var reloaded: bool := *;
      if r.xfrm.Some? && r.xfrm.value.serviceFile.Some? && !offline && !reloaded {
        return false;
      }
      return true;
    }

    lemma KernelStillValid(env: Env, before: Snapshot, r: Resource)
      requires Truthful(env.ip, Policies, before.policies) && Truthful(env.ip, States, before.states)
      requires r.xfrm.Some?
      requires PartlyGone(env.ip, before.policies, before.states, kernel.policies, kernel.states, r.xfrm.value.directions)
      ensures Valid(env)
    {
      hide Truthful, Others;
      var ds := r.xfrm.value.directions;
      var i, j :| 0 <= i <= |ds| && 0 <= j <= |ds| && kernel.policies == Others(env.ip, Policies, before.policies, ds[..i])
                  && kernel.states == Others(env.ip, States, before.states, ds[..j]);
      OthersShrink(env.ip, Policies, before.policies, ds[..i]);
      OthersShrink(env.ip, States, before.states, ds[..j]);
      FewerTruthful(env.ip, Policies, before.policies, kernel.policies);
      FewerTruthful(env.ip, States, before.states, kernel.states);
    }

    // Every file of the plan is the generated file that was planned, and every
    // transport is exclusively and provably the plan's own.
    ghost predicate Preflight(env: Env, plan: seq<Resource>, offline: bool)
      reads this, kernel
    {
      && (forall r, f :: r in plan && f in r.files ==> Verified(env, files, f))
      && (!offline ==> forall r :: r in plan && r.xfrm.Some? ==> TransportReady(env, r))
    }

    ghost predicate TransportReady(env: Env, r: Resource)
      requires r.xfrm.Some?
      reads this, kernel
    {
      && r.xfrm.value.service in units && ServiceOwned(r.xfrm.value, units[r.xfrm.value.service])
      && Inspectable(env.ip, Listed(kernel.policies), Listed(kernel.states), r.xfrm.value.directions)
    }

    method CheckFiles(env: Env, plan: seq<Resource>) returns (ok: bool)
      ensures ok <==> forall r, f :: r in plan && f in r.files ==> Verified(env, files, f)
    {
      for i := 0 to |plan|
        invariant forall r, f :: r in plan[..i] && f in r.files ==> Verified(env, files, f)
      {
        for j := 0 to |plan[i].files|
          invariant forall n :: 0 <= n < j ==> Verified(env, files, plan[i].files[n])
        {
          if !Verified(env, files, plan[i].files[j]) {
            assert plan[i].files[j] in plan[i].files;
            return false;
          }
        }
        assert plan[..i + 1] == plan[..i] + [plan[i]];
      }
      assert plan[..|plan|] == plan;
      return true;
    }

    // The systemd and XFRM inspections may also fail for want of an answer.
    method CheckTransports(env: Env, plan: seq<Resource>) returns (ok: bool)
      ensures ok ==> forall r :: r in plan && r.xfrm.Some? ==> TransportReady(env, r)
    {
      for i := 0 to |plan|
        invariant forall r :: r in plan[..i] && r.xfrm.Some? ==> TransportReady(env, r)
      {
        if plan[i].xfrm.Some? {
          var removal := plan[i].xfrm.value;
          if removal.service !in units || !ServiceOwned(removal, units[removal.service]) {
            return false;
          }
          var present := InspectXfrm(env.ip, kernel, removal.directions);
          if present.None? {
            return false;
          }
        }
        assert plan[..i + 1] == plan[..i] + [plan[i]];
      }
      assert plan[..|plan|] == plan;
      return true;
    }

    // apply_delete_plan
    method ApplyDeletePlan(env: Env, plan: seq<Resource>, planOffline: bool, offline: bool) returns (outcome: Applied)
      requires Valid(env) && Complete(plan)
      modifies this`files, this`links, this`units, kernel
      ensures planOffline != offline || !old(Preflight(env, plan, offline)) ==> outcome == Rejected
      ensures outcome == Rejected ==> Now() == old(Now()) && units == old(units)
      ensures outcome == Uninstalled ==>
                && Now() == Without(env, old(Now()), plan, offline)
                && AllJustified(env, old(Now()), plan, |plan|, offline)
                && AllStopped(units, PlanUnits(plan, offline)) && OnlyUnits(old(units), units, PlanUnits(plan, offline))
      ensures outcome.Stopped? ==>
                && outcome.at < |plan|
                && OnlyUnits(old(units), units, PlanUnits(plan[..outcome.at + 1], offline))
                && AllJustified(env, old(Now()), plan, outcome.at, offline)
                && Justified(env, plan[outcome.at], Without(env, old(Now()), plan[..outcome.at], offline), Now(), offline)
                && Interrupted(env, Without(env, old(Now()), plan[..outcome.at], offline),
                               Without(env, old(Now()), plan[..outcome.at + 1], offline),
                               plan[outcome.at], offline, Now())
    {
      hide Without, Interrupted, Verified, ServiceOwned, Inspectable, Justified, Truthful, RuntimeSafe, OnlyUnits, AllStopped,
           PlanUnits, UnitsOf;
      if planOffline != offline {
        return Rejected;
      }
      var ok := CheckFiles(env, plan);
      if !ok {
        return Rejected;
      }
      if !offline {
        ok := CheckTransports(env, plan);
        if !ok {
          return Rejected;
        }
      }
      ghost var start, atStart := Now(), units;
      WithoutNone(env, start, offline);
      NoUnits(units, offline);
      assert plan[..0] == [] && plan[..|plan|] == plan;
      for i := 0 to |plan|
        invariant Valid(env)
        invariant Now() == Without(env, start, plan[..i], offline)
        invariant AllJustified(env, start, plan, i, offline)
        invariant OnlyUnits(atStart, units, PlanUnits(plan[..i], offline)) && AllStopped(units, PlanUnits(plan[..i], offline))
      {
        WithoutNext(env, start, plan[..i], plan[i], offline);
        assert plan[..i + 1] == plan[..i] + [plan[i]];
        ghost var before := units;
        ok := Uninstall(env, plan[i], offline);
        UnitsNext(atStart, before, units, PlanUnits(plan[..i], offline), UnitsOf(plan[i], offline));
        PlanUnitsNext(plan[..i], plan[i], offline);
        if !ok {
          return Stopped(i);
        }
      }
      return Uninstalled;
    }
  }

  // What unlinking in order takes away was verified.
  lemma RemovedVerified(env: Env, before: map<string, Node>, now: map<string, Node>, r: Resource)
    requires exists j :: 0 <= j <= |r.files| && now == before - PathsOf(r.files[..j])
                         && forall n :: 0 <= n < j ==> Verified(env, before, r.files[n])
    ensures forall path :: path in before && path !in now ==>
              exists f :: f in r.files && f.path == path && Verified(env, before, f)
  {
    hide Verified;
    var j :| 0 <= j <= |r.files| && now == before - PathsOf(r.files[..j])
             && forall n :: 0 <= n < j ==> Verified(env, before, r.files[n]);
    forall path | path in before && path !in now
      ensures exists f :: f in r.files && f.path == path && Verified(env, before, f)
    {
      var f :| f in r.files[..j] && f.path == path;
      assert f in r.files;
    }
  }

  lemma DropAbsent(links: seq<Link>, r: Resource)
    requires !Named(links, r.name)
    ensures Drop(links, OfPlan([r], false)) == links
  {
    FilterAll(links, Not(OfPlan([r], false)));
  }

  lemma DropLinksTwice(links: seq<Link>, r: Resource)
    ensures Drop(Drop(links, OfPlan([r], false)), OfPlan([r], false)) == Drop(links, OfPlan([r], false))
  {
    var q := OfPlan([r], false);
    FilterTwice(links, Not(q), Not(q));
    FilterSame(links, Both(Not(q), Not(q)), Not(q));
  }

  lemma NothingGone(ip: Addresses, p: seq<KernelEntry>, s: seq<KernelEntry>, ds: seq<Direction>)
    ensures PartlyGone(ip, p, s, p, s, ds)
  {
    OthersNone(ip, Policies, p);
    OthersNone(ip, States, s);
    assert ds[..0] == [];
  }

  // What taking out one resource means for each part of the world.
  lemma OneResource(env: Env, w: Snapshot, r: Resource, offline: bool)
    ensures var after := Without(env, w, [r], offline);
            && (r.interfaceType.None? || offline ==> after.links == w.links)
            && (!offline ==> after.links == Drop(w.links, OfPlan([r], false)))
            && after.policies == Others(env.ip, Policies, w.policies, DirectionsOf(r, offline))
            && after.states == Others(env.ip, States, w.states, DirectionsOf(r, offline))
            && (DirectionsOf(r, offline) == [] ==> after.policies == w.policies && after.states == w.states)
            && after.files == w.files - PathsOf(r.files)
            && after.files == w.files - PathsOf(r.files[..|r.files|])
  {
    hide Others;
    PathsNext(w.files, [], r);
    DirectionsNext([], r, offline);
    assert [] + [r] == [r];
    OthersNone(env.ip, Policies, w.policies);
    OthersNone(env.ip, States, w.states);
    if r.interfaceType.None? || offline {
      FilterAll(w.links, Not(OfPlan([r], offline)));
    }
    assert r.files[..|r.files|] == r.files;
  }

  // ----------------------------------------------------- what every exit keeps

  // No listed entry has the identity.
  ghost predicate Unlisted(ip: Addresses, kind: Kind, entries: seq<KernelEntry>, d: Direction) {
    forall e :: e in entries ==> Matches(ip, kind, e.record, d) != Some(true)
  }

  // The resource's interface is gone, and no policy or state has its identities.
  ghost predicate Detached(env: Env, r: Resource, offline: bool, now: Snapshot) {
    && (r.interfaceType.Some? && !offline ==> !Named(now.links, r.name))
    && (forall i :: 0 <= i < |DirectionsOf(r, offline)| ==>
          && Unlisted(env.ip, Policies, now.policies, DirectionsOf(r, offline)[i])
          && Unlisted(env.ip, States, now.states, DirectionsOf(r, offline)[i]))
  }

  // Nothing is in the later world that was not in the earlier one.
  ghost predicate Shrunk(env: Env, earlier: Snapshot, later: Snapshot) {
    && (forall l :: l in later.links ==> l in earlier.links)
    && (forall p :: p in later.policies ==> p in earlier.policies)
    && (forall s :: s in later.states ==> s in earlier.states)
  }

  lemma OthersShrink(ip: Addresses, kind: Kind, items: seq<KernelEntry>, ds: seq<Direction>)
    ensures forall x :: x in Others(ip, kind, items, ds) ==> x in items
  {
    forall x | x in Others(ip, kind, items, ds)
      ensures x in items
    {
      FilterMember(items, Not(OneOf(ip, kind, ds)), x);
    }
  }

  lemma InterruptedShrinks(env: Env, w: Snapshot, r: Resource, offline: bool, now: Snapshot)
    requires Interrupted(env, w, Without(env, w, [r], offline), r, offline, now)
    ensures Shrunk(env, w, now)
    ensures exists gone :: gone <= PathsOf(r.files) && now.files == w.files - gone
  {
    hide Others, Drop;
    var after := Without(env, w, [r], offline);
    OneResource(env, w, r, offline);
    OthersShrink(env.ip, Policies, w.policies, DirectionsOf(r, offline));
    OthersShrink(env.ip, States, w.states, DirectionsOf(r, offline));
    forall l | l in after.links
      ensures l in w.links
    {
      DropMember(w.links, OfPlan([r], offline), l);
    }
    if PartlyGone(env.ip, w.policies, w.states, now.policies, now.states, DirectionsOf(r, offline)) {
      var ds := DirectionsOf(r, offline);
      var i, j :| 0 <= i <= |ds| && 0 <= j <= |ds| && now.policies == Others(env.ip, Policies, w.policies, ds[..i])
                  && now.states == Others(env.ip, States, w.states, ds[..j]);
      OthersShrink(env.ip, Policies, w.policies, ds[..i]);
      OthersShrink(env.ip, States, w.states, ds[..j]);
    }
    if now.files == w.files {
      assert w.files - {} == w.files;
    } else {
      var j :| 0 <= j <= |r.files| && now == after.(files := w.files - PathsOf(r.files[..j]));
      assert PathsOf(r.files[..j]) <= PathsOf(r.files);
    }
  }

  lemma DropMember<T>(xs: seq<T>, test: T -> bool, x: T)
    ensures x in Drop(xs, test) <==> x in xs && !test(x)
  {
    FilterMember(xs, Not(test), x);
  }

  lemma DetachedStays(env: Env, r: Resource, offline: bool, earlier: Snapshot, later: Snapshot)
    requires Detached(env, r, offline, earlier) && Shrunk(env, earlier, later)
    ensures Detached(env, r, offline, later)
  {
    hide Matches;
    if Named(later.links, r.name) {
      var i :| 0 <= i < |later.links| && later.links[i].name == r.name;
      assert later.links[i] in later.links;
      var j :| 0 <= j < |earlier.links| && earlier.links[j] == later.links[i];
      assert Named(earlier.links, r.name);
    }
  }

  // One whole round detaches its resource.
  lemma RoundDetaches(env: Env, w: Snapshot, r: Resource, offline: bool)
    requires Truthful(env.ip, Policies, w.policies) && Truthful(env.ip, States, w.states)
    requires r.xfrm.Some? && !offline ==> Inspectable(env.ip, Listed(w.policies), Listed(w.states), r.xfrm.value.directions)
    ensures Detached(env, r, offline, Without(env, w, [r], offline))
  {
    hide Matches, MatchingOf, Truthful, Unrelated;
    var now, ds := Without(env, w, [r], offline), DirectionsOf(r, offline);
    OneResource(env, w, r, offline);
    if r.interfaceType.Some? && !offline {
      forall n | 0 <= n < |now.links|
        ensures now.links[n].name != r.name
      {
        DropMember(w.links, OfPlan([r], offline), now.links[n]);
      }
    }
    forall i | 0 <= i < |ds|
      ensures Unlisted(env.ip, Policies, now.policies, ds[i])
      ensures Unlisted(env.ip, States, now.states, ds[i])
    {
      DoneIsExact(env.ip, Policies, w.policies, ds, i);
      DoneIsExact(env.ip, States, w.states, ds, i);
    }
  }

  // The round in which a file went.
  lemma {:induction false} FirstRemoval(env: Env, w: Snapshot, plan: seq<Resource>, n: nat, offline: bool, path: string)
    returns (i: nat)
    requires n <= |plan| && path in w.files && path !in Without(env, w, plan[..n], offline).files
    ensures i < n && path in Without(env, w, plan[..i], offline).files
            && path !in Without(env, w, plan[..i + 1], offline).files
  {
    hide Others, Drop;
    WithoutNone(env, w, offline);
    assert plan[..0] == [];
    assert n > 0;
    if path in Without(env, w, plan[..n - 1], offline).files {
      i := n - 1;
    } else {
      i := FirstRemoval(env, w, plan, n - 1, offline, path);
    }
  }

  lemma {:induction false} WithoutShrinks(env: Env, w: Snapshot, plan: seq<Resource>, i: nat, n: nat, offline: bool)
    requires i <= n <= |plan|
    ensures Shrunk(env, Without(env, w, plan[..i], offline), Without(env, w, plan[..n], offline))
    decreases n - i
  {
    hide Without, Others, Drop;
    if i < n {
      WithoutShrinks(env, w, plan, i, n - 1, offline);
      var before := Without(env, w, plan[..n - 1], offline);
      WithoutNext(env, w, plan[..n - 1], plan[n - 1], offline);
      assert plan[..n] == plan[..n - 1] + [plan[n - 1]];
      RoundIsRound(env, before, plan[n - 1], offline);
      InterruptedShrinks(env, before, plan[n - 1], offline, Without(env, before, [plan[n - 1]], offline));
    }
  }

  lemma RoundIsRound(env: Env, w: Snapshot, r: Resource, offline: bool)
    ensures Interrupted(env, w, Without(env, w, [r], offline), r, offline, Without(env, w, [r], offline))
  {
    hide PartlyGone, Others, Drop;
    OneResource(env, w, r, offline);
    var after := Without(env, w, [r], offline);
    assert after == after.(files := w.files - PathsOf(r.files[..|r.files|]));
  }

  // What one of the finished rounds removed.
  lemma RemovedEarlier(env: Env, w: Snapshot, plan: seq<Resource>, at: nat, offline: bool, path: string) returns (i: nat)
    requires Complete(plan) && at <= |plan|
    requires Truthful(env.ip, Policies, w.policies) && Truthful(env.ip, States, w.states)
    requires AllJustified(env, w, plan, at, offline)
    requires path in w.files && path !in Without(env, w, plan[..at], offline).files
    ensures i < at && path in PathsOf(plan[i].files)
    ensures Detached(env, plan[i], offline, Without(env, w, plan[..at], offline))
  {
    hide Detached, Others, Shrunk, Truthful, Inspectable, Verified, RuntimeSafe, Drop, Without;
    i := FirstRemoval(env, w, plan, at, offline, path);
    var start, end := Without(env, w, plan[..i], offline), Without(env, w, plan[..i + 1], offline);
    assert Justified(env, plan[i], start, end, offline);
    WithoutNext(env, w, plan[..i], plan[i], offline);
    assert plan[..i + 1] == plan[..i] + [plan[i]];
    StartsTruthful(env, w, plan, i, offline);
    RoundDetaches(env, start, plan[i], offline);
    WithoutShrinks(env, w, plan, i + 1, at, offline);
    DetachedStays(env, plan[i], offline, end, Without(env, w, plan[..at], offline));
  }

  // A file that a stopped run removed belongs to the plan, and a resource of the
  // plan that owns it had lost its interface, policies and states by then. No
  // resource after the one the run stopped at was touched.
  lemma StoppedIsSafe(env: Env, w: Snapshot, plan: seq<Resource>, at: nat, offline: bool, now: Snapshot, path: string)
    requires Complete(plan) && at < |plan|
    requires Truthful(env.ip, Policies, w.policies) && Truthful(env.ip, States, w.states)
    requires AllJustified(env, w, plan, at, offline)
    requires Justified(env, plan[at], Without(env, w, plan[..at], offline), now, offline)
    requires Interrupted(env, Without(env, w, plan[..at], offline), Without(env, w, plan[..at + 1], offline),
                         plan[at], offline, now)
    requires path in w.files && path !in now.files
    ensures exists i :: 0 <= i <= at && path in PathsOf(plan[i].files) && Detached(env, plan[i], offline, now)
  {
    hide Detached, Others, Shrunk, Truthful, Inspectable, Verified, RuntimeSafe, Drop;
    var before := Without(env, w, plan[..at], offline);
    WithoutNext(env, w, plan[..at], plan[at], offline);
    assert plan[..at + 1] == plan[..at] + [plan[at]];
    var after := Without(env, before, [plan[at]], offline);
    InterruptedShrinks(env, before, plan[at], offline, now);
    if path !in before.files {
      var i := RemovedEarlier(env, w, plan, at, offline, path);
      DetachedStays(env, plan[i], offline, before, now);
    } else {
      StartsTruthful(env, w, plan, at, offline);
      RoundDetaches(env, before, plan[at], offline);
      var j :| 0 <= j <= |plan[at].files| && now == after.(files := before.files - PathsOf(plan[at].files[..j]));
      assert path in PathsOf(plan[at].files[..j]);
      SameDetached(env, plan[at], offline, after, now);
    }
  }

  lemma StartsTruthful(env: Env, w: Snapshot, plan: seq<Resource>, i: nat, offline: bool)
    requires i <= |plan| && Truthful(env.ip, Policies, w.policies) && Truthful(env.ip, States, w.states)
    ensures Truthful(env.ip, Policies, Without(env, w, plan[..i], offline).policies)
    ensures Truthful(env.ip, States, Without(env, w, plan[..i], offline).states)
  {
    hide Truthful, Others;
    var now := Without(env, w, plan[..i], offline);
    OthersShrink(env.ip, Policies, w.policies, PlanDirections(plan[..i], offline));
    OthersShrink(env.ip, States, w.states, PlanDirections(plan[..i], offline));
    FewerTruthful(env.ip, Policies, w.policies, now.policies);
    FewerTruthful(env.ip, States, w.states, now.states);
  }

  lemma SameDetached(env: Env, r: Resource, offline: bool, a: Snapshot, b: Snapshot)
    requires Detached(env, r, offline, a)
    requires a.links == b.links && a.policies == b.policies && a.states == b.states
    ensures Detached(env, r, offline, b)
  {
  }

  // What belongs to none of the resources up to the one a run stopped at is
  // still there, unchanged.
  lemma StoppedLeavesRest(env: Env, w: Snapshot, plan: seq<Resource>, at: nat, offline: bool, now: Snapshot)
    requires at < |plan|
    requires Interrupted(env, Without(env, w, plan[..at], offline), Without(env, w, plan[..at + 1], offline),
                         plan[at], offline, now)
    ensures forall path :: path in w.files && path !in PlanPaths(plan[..at + 1]) ==>
              path in now.files && now.files[path] == w.files[path]
    ensures forall l :: l in w.links && !OfPlan(plan[..at + 1], offline)(l) ==> l in now.links
  {
    hide Others;
    var before := Without(env, w, plan[..at], offline);
    WithoutNext(env, w, plan[..at], plan[at], offline);
    assert plan[..at + 1] == plan[..at] + [plan[at]];
    InterruptedShrinks(env, before, plan[at], offline, now);
    PathsNext(w.files, plan[..at], plan[at]);
    assert PlanPaths(plan[..at + 1]) == PlanPaths(plan[..at]) + PathsOf(plan[at].files);
    forall l | l in w.links && !OfPlan(plan[..at + 1], offline)(l)
      ensures l in now.links
    {
      DropMember(w.links, OfPlan(plan[..at], offline), l);
      DropMember(w.links, OfPlan(plan[..at + 1], offline), l);
      assert forall r :: r in plan[..at] ==> r in plan[..at + 1];
    }
  }

  // The same for the kernel's entries.
  lemma StoppedLeavesEntries(
    env: Env, w: Snapshot, plan: seq<Resource>, at: nat, offline: bool, now: Snapshot, kind: Kind, x: KernelEntry)
    requires at < |plan|
    requires Interrupted(env, Without(env, w, plan[..at], offline), Without(env, w, plan[..at + 1], offline),
                         plan[at], offline, now)
    requires x in EntriesOf(kind, w) && !OneOf(env.ip, kind, PlanDirections(plan[..at + 1], offline))(x)
    ensures x in EntriesOf(kind, now)
  {
    hide Others, Hits, Interrupted, Drop, PlanPaths, OneOf;
    var before := Without(env, w, plan[..at], offline);
    WithoutNext(env, w, plan[..at], plan[at], offline);
    assert plan[..at + 1] == plan[..at] + [plan[at]];
    DirectionsNext(plan[..at], plan[at], offline);
    var i := InterruptedEntries(env, before, plan[at], offline, now, kind);
    OthersKeep(env.ip, kind, EntriesOf(kind, w), PlanDirections(plan[..at], offline), DirectionsOf(plan[at], offline), x);
  }

  lemma InterruptedEntries(env: Env, w: Snapshot, r: Resource, offline: bool, now: Snapshot, kind: Kind) returns (i: nat)
    requires Interrupted(env, w, Without(env, w, [r], offline), r, offline, now)
    ensures i <= |DirectionsOf(r, offline)|
    ensures EntriesOf(kind, now) == Others(env.ip, kind, EntriesOf(kind, w), DirectionsOf(r, offline)[..i])
  {
    hide Others, Drop, PathsOf, PlanPaths;
    var ds := DirectionsOf(r, offline);
    OneResource(env, w, r, offline);
    OthersNone(env.ip, kind, EntriesOf(kind, w));
    assert ds[..0] == [] && ds[..|ds|] == ds;
    if EntriesOf(kind, now) == EntriesOf(kind, w) {
      i := 0;
    } else if EntriesOf(kind, now) == Others(env.ip, kind, EntriesOf(kind, w), ds) {
      i := |ds|;
    } else {
      var m, n :| 0 <= m <= |ds| && 0 <= n <= |ds| && now.policies == Others(env.ip, Policies, w.policies, ds[..m])
                  && now.states == Others(env.ip, States, w.states, ds[..n]);
      i := if kind.Policies? then m else n;
    }
  }

  function EntriesOf(kind: Kind, w: Snapshot): seq<KernelEntry> {
    if kind.Policies? then w.policies else w.states
  }

  // An entry without any of the identities survives any part of the deletions.
  lemma OthersKeep(ip: Addresses, kind: Kind, items: seq<KernelEntry>, ds: seq<Direction>, es: seq<Direction>, x: KernelEntry)
    requires x in items && !OneOf(ip, kind, ds + es)(x)
    ensures x in Others(ip, kind, items, ds)
    ensures forall i :: 0 <= i <= |es| ==> x in Others(ip, kind, Others(ip, kind, items, ds), es[..i])
  {
    hide Hits;
    assert forall i :: 0 <= i < |ds| ==> (ds + es)[i] == ds[i];
    assert forall i :: 0 <= i < |es| ==> (ds + es)[|ds| + i] == es[i];
    DropMember(items, OneOf(ip, kind, ds), x);
    forall i | 0 <= i <= |es|
      ensures x in Others(ip, kind, Others(ip, kind, items, ds), es[..i])
    {
      assert forall j :: 0 <= j < i ==> es[..i][j] == es[j];
      DropMember(Others(ip, kind, items, ds), OneOf(ip, kind, es[..i]), x);
    }
  }
}
