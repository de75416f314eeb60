// The handler of XFRM events: is an interface that uses the transport live, and
// what is done then (src/dros/plugins/network_xfrm.py:80-191).
module XfrmHandler {
  import opened Wrappers
  import opened Sequences
  import opened EventQueue
  import opened EventProtocol
  import opened XfrmInventory
  import opened XfrmListing
  import opened XfrmSections
  import opened XfrmKernel
  import opened XfrmCommands

  // An Interface object: its xfrmTransport, whether its spec is valid, its type
  // and, for gre, its endpoints.
  datatype User = User(name: string, transport: Option<string>, valid: bool, kind: string, local: string, remote: string)

  // A link of "ip -json -details link show"; ends are info_data's addresses, as
  // far as they can be read.
  datatype Link = Link(name: string, kind: Option<string>, ends: Option<(string, string)>)

  datatype LiveError = InvalidInterface | UnsupportedInterface | NoInventory | Ambiguous | TypeDiffers | EndpointsDiffer

  predicate Uses(u: User, target: string) {
    u.transport == Some(target)
  }

  predicate Supported(u: User) {
    u.valid && (u.kind == "gre" || u.kind == "wireguard")
  }

  function Named(name: string): Link -> bool {
    (l: Link) => l.name == name
  }

  type SameAddress = (string, string) -> bool

  // The runtime link is of the configured kind, and joins the configured ends.
  predicate IsLinkOf(same: SameAddress, u: User, l: Link) {
    && l.kind == Some(u.kind)
    && (u.kind == "gre" ==> l.ends.Some? && same(l.ends.value.0, u.local) && same(l.ends.value.1, u.remote))
  }

  // Nothing about the interface contradicts the configuration.
  predicate Consistent(same: SameAddress, u: User, links: seq<Link>) {
    var matching := Filter(links, Named(u.name));
    matching == [] || (|matching| == 1 && IsLinkOf(same, u, matching[0]))
  }

  predicate UsersSupported(users: seq<User>, target: string) {
    forall u :: u in users && Uses(u, target) ==> Supported(u)
  }

  predicate UsersConsistent(same: SameAddress, users: seq<User>, target: string, links: seq<Link>) {
    forall u :: u in users && Uses(u, target) ==> Consistent(same, u, links)
  }

  ghost predicate SomeUser(users: seq<User>, target: string) {
    exists u :: u in users && Uses(u, target)
  }

  ghost predicate SomeLive(users: seq<User>, target: string, links: seq<Link>) {
    exists u :: u in users && Uses(u, target) && Filter(links, Named(u.name)) != []
  }

  // The answer can be trusted.
  ghost predicate Verifiable(same: SameAddress, users: seq<User>, target: string, realRoot: bool, inventory: Option<seq<Link>>) {
    && UsersSupported(users, target)
    && (SomeUser(users, target) && realRoot ==> inventory.Some? && UsersConsistent(same, users, target, inventory.value))
  }

  ghost predicate Sound(same: SameAddress, u: User, links: seq<Link>) {
    forall i :: 0 <= i < |links| && links[i].name == u.name ==>
      && (forall j :: 0 <= j < |links| && links[j].name == u.name ==> j == i)
      && links[i].kind == Some(u.kind)
      && (u.kind == "gre" ==>
            links[i].ends.Some? && same(links[i].ends.value.0, u.local) && same(links[i].ends.value.1, u.remote))
  }

  lemma ConsistentIff(same: SameAddress, u: User, links: seq<Link>)
    ensures Consistent(same, u, links) <==> Sound(same, u, links)
    ensures Filter(links, Named(u.name)) != [] <==> exists l :: l in links && l.name == u.name
  {
    var named := Named(u.name);
    FilterNone(links, named);
    if |Filter(links, named)| == 1 {
      var i := FilterOne(links, named);
      assert forall j :: 0 <= j < |links| ==> (named(links[j]) <==> j == i);
    }
    if Sound(same, u, links) {
      if i :| 0 <= i < |links| && links[i].name == u.name {
        assert forall j :: 0 <= j < |links| ==> (named(links[j]) <==> j == i);
        FilterOnly(links, named, i);
      }
    }
  }

  // When the look-up answers: the interfaces that name the transport are valid and
  // of a kind that can use it, and on the real root the links were listed, where
  // each of them comes at most once, with its kind and, for gre, its two ends.
  lemma VerifiableIff(same: SameAddress, users: seq<User>, target: string, realRoot: bool, inventory: Option<seq<Link>>)
    ensures Verifiable(same, users, target, realRoot, inventory) <==>
              && (forall u :: u in users && u.transport == Some(target) ==>
                    u.valid && (u.kind == "gre" || u.kind == "wireguard"))
              && (realRoot && (exists u :: u in users && u.transport == Some(target)) ==>
                    inventory.Some?
                    && forall u :: u in users && u.transport == Some(target) ==> Sound(same, u, inventory.value))
  {
    hide Consistent, Sound;
    if inventory.Some? {
      forall u: User ensures Consistent(same, u, inventory.value) <==> Sound(same, u, inventory.value) {
        ConsistentIff(same, u, inventory.value);
      }
    }
  }

  lemma LiveIff(users: seq<User>, target: string, links: seq<Link>)
    ensures SomeLive(users, target, links) <==>
              exists u, l :: u in users && l in links && u.transport == Some(target) && l.name == u.name
  {
    hide Consistent, Sound, Filter;
    forall u: User ensures Filter(links, Named(u.name)) != [] <==> exists l :: l in links && l.name == u.name {
      ConsistentIff((a, b) => a == b, u, links);
    }
  }

  // The first loop: the interfaces that name the transport.
  method Associated(users: seq<User>, target: string) returns (r: Result<seq<User>, LiveError>)
    ensures r.Success? <==> UsersSupported(users, target)
    ensures r.Success? ==> forall u :: u in r.value <==> u in users && Uses(u, target)
  {
    var associated := [];
    for i := 0 to |users|
      invariant UsersSupported(users[..i], target)
      invariant forall u :: u in associated <==> u in users[..i] && Uses(u, target)
    {
      assert users[..i + 1] == users[..i] + [users[i]];
      assert users[i] in users;
      if Uses(users[i], target) {
        if !users[i].valid {
          return Failure(InvalidInterface);
        }
        if users[i].kind != "gre" && users[i].kind != "wireguard" {
          return Failure(UnsupportedInterface);
        }
        associated := associated + [users[i]];
      }
    }
    assert users[..|users|] == users;
    r := Success(associated);
  }

  // The second loop, over the links.
  method AnyLive(same: SameAddress, associated: seq<User>, links: seq<Link>) returns (r: Result<bool, LiveError>)
    requires forall u :: u in associated ==> Supported(u)
    ensures r.Success? <==> forall u :: u in associated ==> Consistent(same, u, links)
    ensures r.Success? ==> (r.value <==> exists u :: u in associated && Filter(links, Named(u.name)) != [])
  {
    var live := false;
    for i := 0 to |associated|
      invariant forall u :: u in associated[..i] ==> Consistent(same, u, links)
      invariant live <==> exists u :: u in associated[..i] && Filter(links, Named(u.name)) != []
    {
      var u := associated[i];
      assert associated[..i + 1] == associated[..i] + [u] && u in associated;
      var matching := Filter(links, Named(u.name));
      if matching != [] {
        if |matching| != 1 {
          return Failure(LiveError.Ambiguous);
        }
        if matching[0].kind != Some(u.kind) {
          return Failure(TypeDiffers);
        }
        if u.kind == "gre" {
          var ends := matching[0].ends;
          if ends.None? || !same(ends.value.0, u.local) || !same(ends.value.1, u.remote) {
            return Failure(EndpointsDiffer);
          }
        }
        live := true;
      }
    }
    assert associated[..|associated|] == associated;
    r := Success(live);
  }

  // _has_live_interface: it answers exactly when nothing contradicts the
  // configuration, and then yes exactly when an interface is there.
  method HasLiveInterface(same: SameAddress, users: seq<User>, target: string, realRoot: bool, inventory: Option<seq<Link>>)
    returns (r: Result<bool, LiveError>)
    ensures r.Success? <==> Verifiable(same, users, target, realRoot, inventory)
    ensures r.Success? ==> (r.value <==> realRoot && inventory.Some? && SomeLive(users, target, inventory.value))
  {
    var found := Associated(users, target);
    if found.Failure? {
      return Failure(found.error);
    }
    var associated := found.value;
    if associated == [] || !realRoot {
      return Success(false);
    }
    assert associated[0] in associated;
    if inventory.None? {
      return Failure(NoInventory);
    }
    var live := AnyLive(same, associated, inventory.value);
    return live;
  }

  // ------------------------------------------------------------- the handler

  // What an event finds: the enabled interfaces, all interfaces, the links.
  datatype Scene = Scene(enabled: seq<User>, all: seq<User>, realRoot: bool, inventory: Option<seq<Link>>)

  // Whose interfaces count for a duty.
  function UsersFor(scene: Scene, duty: Duty): seq<User> {
    if duty.Start? then scene.enabled else scene.all
  }

  ghost predicate Clear(same: SameAddress, scene: Scene, duty: Duty) {
    duty != Ignore ==> Verifiable(same, UsersFor(scene, duty), duty.t, scene.realRoot, scene.inventory)
  }

  ghost predicate SeenLive(scene: Scene, duty: Duty) {
    && duty != Ignore && scene.realRoot && scene.inventory.Some?
    && SomeLive(UsersFor(scene, duty), duty.t, scene.inventory.value)
  }

  ghost predicate Starts(scene: Scene, duty: Duty) {
    duty.Start? && SeenLive(scene, duty)
  }

  // The commands are real_only: on another root they are printed, not run.
  ghost predicate Stops(scene: Scene, duty: Duty) {
    duty.Stop? && !SeenLive(scene, duty) && scene.realRoot
  }

  // A start looks at the enabled interfaces and acts when one is live; a stop looks
  // at all of them and acts when none is. Nothing runs away from the real root.
  lemma ActsIff(same: SameAddress, scene: Scene, t: string)
    ensures var links := match scene.inventory case Some(l) => l case None => [];
            && (Starts(scene, Start(t)) <==> scene.realRoot && SomeLive(scene.enabled, t, links))
            && (Stops(scene, Stop(t)) <==> scene.realRoot && !SomeLive(scene.all, t, links))
            && !Starts(scene, Stop(t)) && !Stops(scene, Start(t)) && !Starts(scene, Ignore) && !Stops(scene, Ignore)
    ensures Clear(same, scene, Ignore)
    ensures Clear(same, scene, Start(t)) <==> Verifiable(same, scene.enabled, t, scene.realRoot, scene.inventory)
    ensures Clear(same, scene, Stop(t)) <==> Verifiable(same, scene.all, t, scene.realRoot, scene.inventory)
  {
    hide Verifiable;
    LiveIff(scene.enabled, t, []);
    LiveIff(scene.all, t, []);
  }

  ghost predicate NamedBy(users: seq<User>, name: string, target: string) {
    exists u :: u in users && u.name == name && Uses(u, target)
  }

  // The objects name the transports that the map gives for their interfaces.
  ghost predicate Describes(users: seq<User>, ifaces: map<string, string>) {
    forall n, t :: NamedBy(users, n, t) <==> n in ifaces && ifaces[n] == t
  }

  ghost predicate Shows(links: seq<Link>, live: set<string>) {
    forall n :: n in live <==> Filter(links, Named(n)) != []
  }

  // A look-up that answers tells what the queue protocol takes as its answer.
  lemma LookUpIsLive(users: seq<User>, ifaces: map<string, string>, links: seq<Link>, live: set<string>, target: string)
    requires Describes(users, ifaces) && Shows(links, live)
    ensures SomeLive(users, target, links) <==> Live(ifaces, live, target)
  {
    if SomeLive(users, target, links) {
      var u :| u in users && Uses(u, target) && Filter(links, Named(u.name)) != [];
      assert NamedBy(users, u.name, target);
      assert u.name in live;
    }
    if Live(ifaces, live, target) {
      var n :| n in live && n in ifaces && ifaces[n] == target;
      assert NamedBy(users, n, target);
      var u :| u in users && u.name == n && Uses(u, target);
      assert Filter(links, Named(u.name)) != [];
    }
  }

  // So the handler acts exactly when the protocol's Check step does, and where it
  // cannot answer it raises.
  lemma LookUpDecides(scene: Scene, c: Config, live: set<string>, duty: Duty)
    requires duty != Ignore && scene.realRoot && scene.inventory.Some?
    requires Describes(scene.enabled, c.active) && Describes(scene.all, c.all) && Shows(scene.inventory.value, live)
    ensures Starts(scene, duty) || Stops(scene, duty)
       <==> Acts(duty, Live(if duty.Start? then c.active else c.all, live, duty.t))
  {
    hide Describes, Shows, SomeLive, Live;
    LookUpIsLive(UsersFor(scene, duty), if duty.Start? then c.active else c.all, scene.inventory.value, live, duty.t);
  }

  function TablesOf(k: Kernel): Tables
    reads k
  {
    Tables(k.policies, k.states)
  }

  ghost predicate Collides(c: Config, duty: Duty) {
    && duty.Start? && duty.t in c.transports
    && SameIdentity(States, Way(c, duty.t, true), Way(c, duty.t, false))
  }

  // handle_event: a start event installs its transport only for a live enabled
  // interface, a stop event takes it out only when no interface at all is live,
  // and when that cannot be told nothing is touched. The kernel is left as the
  // commands of the duty leave it, all of them, or those before the first one
  // that is refused.
  method HandleEvent(same: SameAddress, k: Kernel, c: Config, scene: Scene, event: string, name: Option<string>)
    returns (r: Result<(), LiveError>, collided: bool)
    requires ValidAddresses(c.ip) && forall t :: t in c.transports ==> ValidTransport(c.ip, c.transports[t].spec)
    requires OneEach(c.ip, TablesOf(k))
    modifies k
    ensures r.Success? <==> Clear(same, scene, DutyOf(c, Key(event, name)))
    ensures r.Success? && (Starts(scene, DutyOf(c, Key(event, name))) || Stops(scene, DutyOf(c, Key(event, name)))) ==>
              && (collided <==> Collides(c, DutyOf(c, Key(event, name))))
              && TablesOf(k) == AfterSome(c, old(TablesOf(k)), DutyOf(c, Key(event, name)), collided)
    ensures r.Failure? || !(Starts(scene, DutyOf(c, Key(event, name))) || Stops(scene, DutyOf(c, Key(event, name)))) ==>
              TablesOf(k) == old(TablesOf(k)) && !collided
  {
    hide OneEach, ValidAddresses, ValidTransport, DirectionOf, SameIdentity, Restarted, Others, Verifiable, SomeLive,
         AfterSome;
    r, collided := Success(()), false;
    if (event != "xfrm-start" && event != "xfrm-stop") || name.None? || name.value == "" {
      return;
    }
    var target := Target(name.value);
    if target !in c.transports || !c.transports[target].manual {
      return;
    }
    if event == "xfrm-start" {
      if c.transports[target].enabled {
        var live := HasLiveInterface(same, scene.enabled, target, scene.realRoot, scene.inventory);
        if live.Failure? {
          return Failure(live.error), false;
        }
        if live.value {
          StartRuns(c, TablesOf(k), target);
          OneEachIsUnambiguous(c.ip, TablesOf(k));
          var ok := StartXfrm(c.ip, k, c.transports[target].spec);
          collided := !ok;
        }
      }
      return;
    }
    var live := HasLiveInterface(same, scene.all, target, scene.realRoot, scene.inventory);
    if live.Failure? {
      return Failure(live.error), false;
    }
    if !live.value && scene.realRoot {
      StopRuns(c, TablesOf(k), target);
      OneEachIsUnambiguous(c.ip, TablesOf(k));
      StopTransport(c.ip, k, Directions(c.ip, c.transports[target].spec));
    }
  }

  // A start that collides ends at the addition of its second state.
  ghost function AfterSome(c: Config, tables: Tables, duty: Duty, collided: bool): Tables
    requires duty != Ignore && duty.t in c.transports
  {
    var cmds := CommandsOf(c, duty);
    ExecuteAll(c.ip, tables, if collided && |cmds| > 5 then cmds[..5] else cmds)
  }

  lemma OneEachIsUnambiguous(ip: Addresses, tables: Tables)
    ensures OneEach(ip, tables) <==>
            Unambiguous(ip, Policies, tables.policies) && Unambiguous(ip, States, tables.states)
  {
  }

  lemma StartRuns(c: Config, tables: Tables, t: string)
    requires ValidAddresses(c.ip) && t in c.transports && ValidTransport(c.ip, c.transports[t].spec)
    requires OneEach(c.ip, tables)
    ensures !Collides(c, Start(t)) ==> AfterSome(c, tables, Start(t), false) == Started(c.ip, tables, Ways(c, t))
    ensures Collides(c, Start(t)) ==> (
              AfterSome(c, tables, Start(t), true)
           == Tables(Others(c.ip, Policies, tables.policies, Ways(c, t)),
                     Others(c.ip, States, tables.states, Ways(c, t)) + [EntryOf(c.ip, States, Way(c, t, true))]))
  {
    hide OneEach, ValidAddresses, ValidTransport, DirectionOf, SameIdentity, Others, GoodDirection, EntryOf, ExecuteAll;
    ValidDirections(c.ip, c.transports[t].spec, true);
    ValidDirections(c.ip, c.transports[t].spec, false);
    PoliciesDiffer(c.ip, c.transports[t].spec);
    if Collides(c, Start(t)) {
      CommandsCollide(c.ip, tables, Way(c, t, true), Way(c, t, false));
    } else {
      CommandsStart(c.ip, tables, Way(c, t, true), Way(c, t, false));
    }
  }

  lemma StopRuns(c: Config, tables: Tables, t: string)
    requires t in c.transports && OneEach(c.ip, tables)
    ensures AfterSome(c, tables, Stop(t), false) == Stopped(c.ip, tables, Ways(c, t))
  {
    hide OneEach, DirectionOf, Others, ExecuteAll;
    var cmds := CommandsOf(c, Stop(t));
    assert cmds[..4] == cmds;
    DeletionsStop(c.ip, tables, Way(c, t, true), Way(c, t, false), cmds);
  }
}
