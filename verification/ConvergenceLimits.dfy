// The limits of convergence: what a handler that raises leaves behind, and what
// transports with a common policy or state do to each other
// (src/dros/events.py:134-153, src/dros/plugins/network_xfrm.py:178-201).
module ConvergenceLimits {
  import opened Wrappers
  import opened Texts
  import opened Numerals
  import opened EventQueue
  import opened EventProtocol
  import opened Convergence
  import opened XfrmInventory
  import opened XfrmListing
  import opened XfrmSections
  import opened XfrmKernel
  import opened XfrmCommands

  // ---------------------------------------------------- missing stays missing

  // The transport is missing, and no handler is about to start it.
  ghost predicate Missing(c: Config, s: State, t: string) {
    && OneEach(c.ip, s.tables) && !Installed(c, s, t)
    && (s.daemon.Busy? && s.daemon.todo != [] && DutyOf(c, s.daemon.todo[0]) == Start(t) ==> s.daemon.phase == Waiting)
  }

  // The calls of process_event since state s ask for no start of the transport.
  ghost predicate NoStartSince(c: Config, s: State, s': State, t: string) {
    s.calls <= s'.calls && forall j :: |s.calls| <= j < |s'.calls| ==> DutyOf(c, s'.calls[j].key) != Start(t)
  }

  lemma CommandKeepsMissing(c: Config, s: State, t: string)
    requires ValidConfig(c) && Unrivalled(c, t) && Enabled(c, s, Command) && Missing(c, s, t)
    ensures Missing(c, Step(c, s, Command), t)
  {
    hide Execute, CommandsOf, OneEach, Possible, ValidConfig, InstalledIn, Unrivalled, DutyOf;
    CommandHasDuty(c, s);
    CommandKeepsOneEach(c, s);
    if Handling(c, s.daemon, t) {
      StopInstallsNothing(c, s, t);
    } else {
      OthersCommand(c, s, t);
    }
  }

  lemma StopInstallsNothing(c: Config, s: State, t: string)
    requires Enabled(c, s, Command) && DutyOf(c, s.daemon.todo[0]) == Stop(t) && !Installed(c, s, t)
    ensures !Installed(c, Step(c, s, Command), t)
  {
    hide Hits, EntryOf, Way, Possible;
    var cmd := CommandsOf(c, Stop(t))[s.daemon.phase.done];
    assert cmd.Delete?;
    forall kind: Kind, e: KernelEntry
      ensures e in Entries(Execute(c.ip, s.tables, cmd), kind) ==> e in Entries(s.tables, kind)
    {
      RemoveFirstMember(Entries(s.tables, cmd.kind), HitBy(c.ip, cmd.kind, cmd.d), e);
    }
    assert forall e :: e in Execute(c.ip, s.tables, cmd).policies ==> e in Entries(s.tables, Policies);
    assert forall e :: e in Execute(c.ip, s.tables, cmd).states ==> e in Entries(s.tables, States);
  }

  lemma StepKeepsMissing(c: Config, s: State, a: Action, t: string)
    requires ValidConfig(c) && Unrivalled(c, t) && Enabled(c, s, a) && Missing(c, s, t)
    ensures s.calls <= Step(c, s, a).calls
    ensures NoStartSince(c, s, Step(c, s, a), t) ==> Missing(c, Step(c, s, a), t)
  {
    hide Execute, CommandsOf, OneEach, Possible, ValidConfig, InstalledIn, Unrivalled, DutyOf;
    if a == Command {
      CommandKeepsMissing(c, s, t);
    } else if a == CallHandler {
      var s' := Step(c, s, a);
      assert s'.calls[|s.calls|].key == s.daemon.todo[0];
    }
  }

  lemma {:induction false} CallsOnlyGrow(c: Config, s: State, actions: seq<Action>)
    ensures Run(c, s, actions).Some? ==> s.calls <= Run(c, s, actions).value.calls
    decreases |actions|
  {
    hide Execute, CommandsOf, Possible, InstalledIn, DutyOf;
    if actions != [] && Enabled(c, s, actions[0]) {
      assert s.calls <= Step(c, s, actions[0]).calls;
      CallsOnlyGrow(c, Step(c, s, actions[0]), actions[1..]);
    }
  }

  // Nothing but another call of the start handler brings a missing transport
  // back, in any run.
  lemma {:induction false} MissingUntilStarted(c: Config, s: State, actions: seq<Action>, t: string)
    requires ValidConfig(c) && Unrivalled(c, t) && Missing(c, s, t)
    requires Run(c, s, actions).Some? && NoStartSince(c, s, Run(c, s, actions).value, t)
    ensures !Installed(c, Run(c, s, actions).value, t)
    decreases |actions|
  {
    hide Missing, ValidConfig, Unrivalled, Step, Enabled, DutyOf, InstalledIn;
    if actions == [] {
      MissingMeans(c, s, t);
    } else {
      var next := Step(c, s, actions[0]);
      StepKeepsMissing(c, s, actions[0], t);
      CallsOnlyGrow(c, next, actions[1..]);
      NoStartSplits(c, s, next, Run(c, s, actions).value, t);
      MissingUntilStarted(c, next, actions[1..], t);
    }
  }

  lemma MissingMeans(c: Config, s: State, t: string)
    ensures Missing(c, s, t) ==> !Installed(c, s, t)
  {
  }

  lemma NoStartSplits(c: Config, s: State, mid: State, s': State, t: string)
    requires s.calls <= mid.calls <= s'.calls && NoStartSince(c, s, s', t)
    ensures NoStartSince(c, s, mid, t) && NoStartSince(c, mid, s', t)
  {
    hide DutyOf;
    assert forall j :: 0 <= j < |mid.calls| ==> mid.calls[j] == s'.calls[j];
  }

  // A start handler that raises while its transport is missing leaves it missing
  // until process_event is called for a start of it again.
  lemma RaisedStaysMissing(c: Config, s: State, actions: seq<Action>, t: string)
    requires ValidConfig(c) && Unrivalled(c, t) && OneEach(c.ip, s.tables)
    requires Enabled(c, s, Raise) && DutyOf(c, s.daemon.todo[0]) == Start(t) && !Installed(c, s, t)
    requires Run(c, Step(c, s, Raise), actions).Some?
    requires NoStartSince(c, s, Run(c, Step(c, s, Raise), actions).value, t)
    ensures !Installed(c, Run(c, Step(c, s, Raise), actions).value, t)
  {
    hide ValidConfig, Unrivalled, DutyOf, InstalledIn, OneEach, CommandsOf, Possible, Execute;
    var next := Step(c, s, Raise);
    assert Missing(c, next, t);
    assert next.calls == s.calls;
    hide Missing, Step, Enabled;
    MissingUntilStarted(c, next, actions, t);
  }

  // ------------------------------------------------------------ whole rounds

  lemma {:induction false} RunAppend(c: Config, s: State, xs: seq<Action>, ys: seq<Action>)
    requires Run(c, s, xs).Some?
    ensures Run(c, s, xs + ys) == Run(c, Run(c, s, xs).value, ys)
    decreases |xs|
  {
    hide Step, Enabled;
    if xs == [] {
      assert xs + ys == ys;
    } else {
      assert (xs + ys)[0] == xs[0] && (xs + ys)[1..] == xs[1..] + ys;
      RunAppend(c, Step(c, s, xs[0]), xs[1..], ys);
    }
  }

  function Commands(n: nat): seq<Action> {
    seq(n, _ => Command)
  }

  ghost predicate AtCommand(c: Config, s: State, duty: Duty, k: nat) {
    && duty != Ignore && duty.t in c.transports
    && s.daemon.Busy? && s.daemon.todo != [] && DutyOf(c, s.daemon.todo[0]) == duty
    && s.daemon.phase == Running(k)
  }

  // The state in which a handler has done its first k commands.
  ghost function AfterCommands(c: Config, s: State, duty: Duty, k: nat): State
    requires AtCommand(c, s, duty, 0) && k <= |CommandsOf(c, duty)|
  {
    if k == 0 then s
    else s.(daemon := s.daemon.(phase := Running(k)),
            tables := ExecuteAll(c.ip, s.tables, CommandsOf(c, duty)[..k]),
            lost := s.lost - {duty.t}, kept := s.kept - {duty.t})
  }

  lemma {:induction false} RunCommands(c: Config, s: State, duty: Duty, k: nat)
    requires AtCommand(c, s, duty, 0) && k <= |CommandsOf(c, duty)|
    requires AllPossible(c.ip, s.tables, CommandsOf(c, duty))
    ensures Run(c, s, Commands(k)) == Some(AfterCommands(c, s, duty, k))
  {
    hide Execute, CommandsOf, Possible, DutyOf, Run, Enabled, Step, AllPossible;
    if k == 0 {
      RunNone(c, s, Commands(0));
    } else {
      RunCommands(c, s, duty, k - 1);
      assert Commands(k) == Commands(k - 1) + [Command];
      RunAppend(c, s, Commands(k - 1), [Command]);
      OneCommand(c, s, duty, k - 1);
      RunOne(c, AfterCommands(c, s, duty, k - 1), Command);
    }
  }

  lemma RunNone(c: Config, s: State, actions: seq<Action>)
    requires actions == []
    ensures Run(c, s, actions) == Some(s)
  {
  }

  lemma RunOne(c: Config, s: State, a: Action)
    ensures Run(c, s, [a]) == if Enabled(c, s, a) then Some(Step(c, s, a)) else None
  {
    hide Enabled, Step;
    if Enabled(c, s, a) {
      RunNone(c, Step(c, s, a), [a][1..]);
    }
  }

  lemma OneCommand(c: Config, s: State, duty: Duty, k: nat)
    requires AtCommand(c, s, duty, 0) && k < |CommandsOf(c, duty)|
    requires AllPossible(c.ip, s.tables, CommandsOf(c, duty))
    ensures Enabled(c, AfterCommands(c, s, duty, k), Command)
    ensures Step(c, AfterCommands(c, s, duty, k), Command) == AfterCommands(c, s, duty, k + 1)
  {
    hide Execute, CommandsOf, Possible, DutyOf, ExecuteAll;
    var cmds := CommandsOf(c, duty);
    ExecuteNext(c.ip, s.tables, cmds, k);
    NoCommands(c.ip, s.tables, cmds[..0]);
    assert Possible(c.ip, ExecuteAll(c.ip, s.tables, cmds[..k]), cmds[k]);
    assert s.lost - {duty.t} - {duty.t} == s.lost - {duty.t};
    assert s.kept - {duty.t} - {duty.t} == s.kept - {duty.t};
  }

  // An idle daemon, and one hook under way.
  ghost predicate Expecting(c: Config, s: State, p: Payload) {
    s.daemon == Idle && s.file == "" && s.inflight == multiset{KeyOf(p)}
  }

  // The daemon has the line as its batch, and its handler is called.
  ghost function CalledWith(c: Config, s: State, p: Payload): State {
    s.(inflight := multiset{}, file := Text(c.codec, [p]), appended := s.appended + [p],
       daemon := Busy(Text(c.codec, [p]), [KeyOf(p)], Called),
       calls := s.calls + [Call(KeyOf(p), |s.appended| + 1)])
  }

  lemma RunToCall(c: Config, s: State, p: Payload)
    requires ValidConfig(c) && Expecting(c, s, p)
    ensures Run(c, s, [Append(p), Read, CallHandler]) == Some(CalledWith(c, s, p))
  {
    hide DutyOf, CommandsOf, ValidConfig, Text, DecodeAll, LastOccurrences, SplitLines, CutBatch;
    var s1 := Step(c, s, Append(p));
    assert s1.file == Text(c.codec, [p]);
    assert s1.inflight == multiset{};
    ReadsOne(c, p);
    var s2 := Step(c, s1, Read);
    assert s2.daemon == Busy(Text(c.codec, [p]), [KeyOf(p)], Waiting);
    var s3 := Step(c, s2, CallHandler);
    assert Run(c, s2, [CallHandler]) == Some(s3) by { RunOne(c, s2, CallHandler); }
    assert [Read, CallHandler][1..] == [CallHandler];
    assert [Append(p), Read, CallHandler][1..] == [Read, CallHandler];
  }

  lemma ReadsOne(c: Config, p: Payload)
    requires ValidConfig(c)
    ensures LastOccurrences(DecodeAll(c.codec, SplitLines(Text(c.codec, [p])))) == [KeyOf(p)]
    ensures |SplitLines(Text(c.codec, [p]))| == 1
  {
    DecodeText(c.codec, [p]);
    assert KeysOf([p]) == [KeyOf(p)];
    assert LastOccurrences([KeyOf(p)][1..]) == [];
  }

  // The batch is done with and cut.
  ghost function CutAfter(s: State): State {
    s.(daemon := Idle, file := "", removed := s.removed + 1)
  }

  lemma CutsOne(c: Config, s: State, p: Payload)
    requires ValidConfig(c) && s.file == Text(c.codec, [p]) && s.daemon == Busy(s.file, [], Waiting)
    ensures Enabled(c, s, Cut) && Step(c, s, Cut) == CutAfter(s)
  {
    hide ValidConfig;
    ReadsOne(c, p);
  }

  // What a round that acts leaves: the queue is drained, the duty done.
  ghost function RoundDone(c: Config, s: State, p: Payload): State
    requires DutyOf(c, KeyOf(p)) != Ignore
  {
    var duty := DutyOf(c, KeyOf(p));
    CutAfter(CalledWith(c, s, p)).(
      tables := ExecuteAll(c.ip, s.tables, CommandsOf(c, duty)), lost := s.lost - {duty.t}, kept := s.kept - {duty.t})
  }

  function Round(c: Config, p: Payload): seq<Action> {
    [Append(p), Read, CallHandler] + ([Check] + (Commands(|CommandsOf(c, DutyOf(c, KeyOf(p)))|) + [Finish, Cut]))
  }

  lemma RunRound(c: Config, s: State, p: Payload)
    requires ValidConfig(c) && Expecting(c, s, p) && DutyOf(c, KeyOf(p)) != Ignore
    requires var duty := DutyOf(c, KeyOf(p));
             && Acts(duty, Live(if duty.Start? then c.active else c.all, s.live, duty.t))
             && AllPossible(c.ip, s.tables, CommandsOf(c, duty))
    ensures Run(c, s, Round(c, p)) == Some(RoundDone(c, s, p))
  {
    hide DutyOf, CommandsOf, ValidConfig, Run, AllPossible, ExecuteAll, Possible, Live;
    var duty := DutyOf(c, KeyOf(p));
    var n := |CommandsOf(c, duty)|;
    var called := CalledWith(c, s, p);
    var running := called.(daemon := called.daemon.(phase := Running(0)));
    RunToCall(c, s, p);
    RunAppend(c, s, [Append(p), Read, CallHandler], [Check] + (Commands(n) + [Finish, Cut]));
    RunOne(c, called, Check);
    assert Step(c, called, Check) == running;
    RunAppend(c, called, [Check], Commands(n) + [Finish, Cut]);
    RunCommands(c, running, duty, n);
    RunAppend(c, running, Commands(n), [Finish, Cut]);
    assert n > 0 by { HasCommands(c, duty); }
    FinishAndCut(c, s, p, AfterCommands(c, running, duty, n));
  }

  lemma HasCommands(c: Config, duty: Duty)
    requires duty != Ignore && duty.t in c.transports
    ensures |CommandsOf(c, duty)| > 0
  {
  }

  lemma FinishAndCut(c: Config, s: State, p: Payload, last: State)
    requires ValidConfig(c) && DutyOf(c, KeyOf(p)) != Ignore
    requires var duty := DutyOf(c, KeyOf(p));
             last == CalledWith(c, s, p).(
               daemon := CalledWith(c, s, p).daemon.(phase := Running(|CommandsOf(c, duty)|)),
               tables := ExecuteAll(c.ip, s.tables, CommandsOf(c, duty)[..|CommandsOf(c, duty)|]),
               lost := s.lost - {duty.t}, kept := s.kept - {duty.t})
    ensures Run(c, last, [Finish, Cut]) == Some(RoundDone(c, s, p))
  {
    hide DutyOf, CommandsOf, ValidConfig, Run, ExecuteAll, Possible;
    var duty := DutyOf(c, KeyOf(p));
    var done := Step(c, last, Finish);
    assert CommandsOf(c, duty)[..|CommandsOf(c, duty)|] == CommandsOf(c, duty);
    assert [KeyOf(p)][1..] == [];
    assert done.lost == s.lost - {duty.t} && done.kept == s.kept - {duty.t};
    CutsOne(c, done, p);
    assert [Finish, Cut] == [Finish] + [Cut];
    RunOne(c, last, Finish);
    RunAppend(c, last, [Finish], [Cut]);
    RunOne(c, done, Cut);
  }

  // ------------------------------------------------------- starts and stops

  // The two directions of the transport do not collide on their states.
  predicate Separate(c: Config, t: string) {
    t in c.transports && !SameIdentity(States, Way(c, t, true), Way(c, t, false))
  }

  // The enabled interface i uses the transport.
  predicate Serves(c: Config, i: string, t: string) {
    i in c.active && c.active[i] == t && Wanted(c, t) && PlainName(t)
  }

  function StartRun(c: Config, i: string, p: Payload): seq<Action> {
    [IfUp(i)] + Round(c, p)
  }

  function StopRun(c: Config, p: Payload): seq<Action> {
    [Hook(KeyOf(p))] + Round(c, p)
  }

  lemma StartPossible(c: Config, tables: Tables, t: string)
    requires ValidConfig(c) && OneEach(c.ip, tables) && Separate(c, t)
    ensures AllPossible(c.ip, tables, CommandsOf(c, Start(t)))
    ensures ExecuteAll(c.ip, tables, CommandsOf(c, Start(t))) == Started(c.ip, tables, Ways(c, t))
  {
    hide GoodDirection, SameIdentity, ValidConfig, OneEach, AllPossible, ExecuteAll, Started, Way, StartCommands;
    WayIsGood(c, t, true);
    WayIsGood(c, t, false);
    PolicyWaysDiffer(c, t);
    CommandsStart(c.ip, tables, Way(c, t, true), Way(c, t, false));
  }

  // An interface of the transport comes up, and its event is handled.
  lemma StartRunInstalls(c: Config, s: State, i: string, p: Payload, t: string)
    requires ValidConfig(c) && Drained(s) && OneEach(c.ip, s.tables)
    requires Serves(c, i, t) && Separate(c, t) && KeyOf(p) == StartKey(t)
    ensures Run(c, s, StartRun(c, i, p)).Some?
    ensures var s' := Run(c, s, StartRun(c, i, p)).value;
            && Drained(s') && s'.live == s.live + {i}
            && s'.tables == Started(c.ip, s.tables, Ways(c, t))
            && s'.lost == s.lost - {t} && s'.kept == s.kept - {t}
  {
    hide CommandsOf, OneEach, Run, AllPossible, ExecuteAll, Started, Separate, Round, ValidAddresses, ValidTransport;
    var up := Step(c, s, IfUp(i));
    DutiesOfHooks(c, i);
    assert Live(c.active, up.live, t);
    StartPossible(c, s.tables, t);
    RunOne(c, s, IfUp(i));
    RunAppend(c, s, [IfUp(i)], Round(c, p));
    RunRound(c, up, p);
  }

  lemma StopPossible(c: Config, tables: Tables, u: string)
    requires OneEach(c.ip, tables) && u in c.transports
    ensures AllPossible(c.ip, tables, CommandsOf(c, Stop(u)))
    ensures ExecuteAll(c.ip, tables, CommandsOf(c, Stop(u))) == Stopped(c.ip, tables, Ways(c, u))
  {
    hide OneEach, ExecuteAll, Stopped, Way;
    var cmds := CommandsOf(c, Stop(u));
    assert cmds[..4] == cmds;
    DeletionsStop(c.ip, tables, Way(c, u, true), Way(c, u, false), cmds);
  }

  // The name with its prefix, which the handler takes off again.
  function StopNamed(u: string): Key {
    Key("xfrm-stop", Some("xfrm/" + u))
  }

  // A stop event for a transport of which no interface is live.
  lemma StopRunRemoves(c: Config, s: State, p: Payload, u: string)
    requires ValidConfig(c) && Drained(s) && OneEach(c.ip, s.tables)
    requires Manual(c, u) && !Live(c.all, s.live, u) && KeyOf(p) == StopNamed(u)
    ensures Run(c, s, StopRun(c, p)).Some?
    ensures var s' := Run(c, s, StopRun(c, p)).value;
            && Drained(s') && s'.live == s.live
            && s'.tables == Stopped(c.ip, s.tables, Ways(c, u))
            && s'.lost == s.lost - {u} && s'.kept == s.kept - {u}
  {
    hide CommandsOf, OneEach, Run, AllPossible, ExecuteAll, Stopped, Round, ValidConfig;
    var hooked := Step(c, s, Hook(KeyOf(p)));
    assert ("xfrm/" + u)[5..] == u;
    assert DutyOf(c, KeyOf(p)) == Stop(u);
    StopPossible(c, s.tables, u);
    RunOne(c, s, Hook(KeyOf(p)));
    RunAppend(c, s, [Hook(KeyOf(p))], Round(c, p));
    RunRound(c, hooked, p);
  }

  lemma {:induction false} RunKeepsOneEach(c: Config, s: State, actions: seq<Action>)
    requires ValidConfig(c) && OneEach(c.ip, s.tables) && Run(c, s, actions).Some?
    ensures OneEach(c.ip, Run(c, s, actions).value.tables)
    decreases |actions|
  {
    hide ValidConfig, OneEach, Step, Enabled;
    if actions != [] {
      StepKeepsOneEach(c, s, actions[0]);
      RunKeepsOneEach(c, Step(c, s, actions[0]), actions[1..]);
    }
  }

  lemma StartedInstalls(c: Config, tables: Tables, t: string)
    requires t in c.transports
    ensures InstalledIn(c.ip, Started(c.ip, tables, Ways(c, t)), Ways(c, t))
  {
    hide EntryOf, Others, Way;
    var ds := Ways(c, t);
    forall kind: Kind, entries: seq<KernelEntry>, i | 0 <= i < |ds|
      ensures EntryOf(c.ip, kind, ds[i]) in Restarted(c.ip, kind, entries, ds)
    {
      assert Restarted(c.ip, kind, entries, ds)[|Others(c.ip, kind, entries, ds)| + i] == EntryOf(c.ip, kind, ds[i]);
    }
  }

  // -------------------------------------------------------- failing handlers

  // From any drained state: an interface of a missing transport comes up, the
  // handler raises, and the drained system stays without the transport.
  lemma RaisingLosesStart(c: Config, s: State, i: string, p: Payload, t: string)
    requires ValidConfig(c) && Drained(s) && !Installed(c, s, t)
    requires Serves(c, i, t) && KeyOf(p) == StartKey(t)
    ensures Run(c, s, [IfUp(i)] + ([Append(p), Read, CallHandler] + ([Raise] + [Cut]))).Some?
    ensures var s' := Run(c, s, [IfUp(i)] + ([Append(p), Read, CallHandler] + ([Raise] + [Cut]))).value;
            Drained(s') && Live(c.active, s'.live, t) && !Installed(c, s', t) && t in s'.lost
  {
    hide CommandsOf, Run, InstalledIn, ValidAddresses, ValidTransport;
    var up := Step(c, s, IfUp(i));
    DutiesOfHooks(c, i);
    var called := CalledWith(c, up, p);
    var raised := Step(c, called, Raise);
    assert [KeyOf(p)][1..] == [];
    RunOne(c, s, IfUp(i));
    RunAppend(c, s, [IfUp(i)], [Append(p), Read, CallHandler] + ([Raise] + [Cut]));
    RunToCall(c, up, p);
    RunAppend(c, up, [Append(p), Read, CallHandler], [Raise] + [Cut]);
    RunOne(c, called, Raise);
    RunAppend(c, called, [Raise], [Cut]);
    RunOne(c, raised, Cut);
    CutsOne(c, raised, p);
  }

  // Nothing was ever appended, up or installed.
  function Fresh(): State {
    State("", multiset{}, Idle, {}, Tables([], []), [], 0, [], {}, {})
  }

  lemma FreshIsInit(c: Config)
    ensures Init(c, Fresh()) && Drained(Fresh()) && OneEach(c.ip, Fresh().tables)
  {
    assert Text(c.codec, []) == "";
    forall t | t in c.transports
      ensures !Installed(c, Fresh(), t)
    {
      assert EntryOf(c.ip, Policies, Ways(c, t)[0]) !in Fresh().tables.policies;
    }
  }

  // ------------------------------------------------------------------ rivals

  // A later start of u takes away nothing of t, or puts the same back.
  ghost predicate Outlives(c: Config, t: string, u: string) {
    && t in c.transports && u in c.transports
    && forall kind: Kind, a :: 0 <= a < 2 ==>
         || EntryOf(c.ip, kind, Ways(c, t)[a]) in EntriesFor(c.ip, kind, Ways(c, u))
         || (forall b :: 0 <= b < 2 ==> !SameIdentity(kind, Ways(c, t)[a], Ways(c, u)[b]))
  }

  lemma StartedKeeps(c: Config, tables: Tables, t: string, u: string)
    requires ValidConfig(c) && t in c.transports && u in c.transports
    requires InstalledIn(c.ip, tables, Ways(c, t))
    ensures InstalledIn(c.ip, Started(c.ip, tables, Ways(c, u)), Ways(c, t)) <==> Outlives(c, t, u)
  {
    hide EntryOf, Others, Way, SameIdentity, GoodDirection, ValidConfig;
    var ds := Ways(c, t);
    WaysAreGood(c, t);
    forall kind: Kind, a | 0 <= a < 2
      ensures EntryOf(c.ip, kind, ds[a]) in Restarted(c.ip, kind, Entries(tables, kind), Ways(c, u))
         <==> || EntryOf(c.ip, kind, ds[a]) in EntriesFor(c.ip, kind, Ways(c, u))
              || (forall b :: 0 <= b < 2 ==> !SameIdentity(kind, ds[a], Ways(c, u)[b]))
    {
      EntrySurvives(c.ip, kind, Entries(tables, kind), Ways(c, u), ds[a]);
      assert Restarted(c.ip, kind, Entries(tables, kind), Ways(c, u))
          == Others(c.ip, kind, Entries(tables, kind), Ways(c, u)) + EntriesFor(c.ip, kind, Ways(c, u));
    }
    var after := Started(c.ip, tables, Ways(c, u));
    assert after.policies == Restarted(c.ip, Policies, Entries(tables, Policies), Ways(c, u));
    assert after.states == Restarted(c.ip, States, Entries(tables, States), Ways(c, u));
    forall a | 0 <= a < 2
      ensures EntryOf(c.ip, Policies, ds[a]) in after.policies && EntryOf(c.ip, States, ds[a]) in after.states
         <==> forall kind: Kind :: EntryOf(c.ip, kind, ds[a]) in Restarted(c.ip, kind, Entries(tables, kind), Ways(c, u))
    {
    }
  }

  // Two enabled transports come up one after the other, nothing fails, and the
  // drained system has the first one still installed if and only if it outlives
  // the start of the second.
  lemma SecondStart(c: Config, s: State, i: string, p: Payload, t: string, j: string, q: Payload, u: string)
    requires ValidConfig(c) && Drained(s) && OneEach(c.ip, s.tables)
    requires Serves(c, i, t) && Separate(c, t) && KeyOf(p) == StartKey(t)
    requires Serves(c, j, u) && Separate(c, u) && KeyOf(q) == StartKey(u)
    ensures Run(c, s, StartRun(c, i, p) + StartRun(c, j, q)).Some?
    ensures var s' := Run(c, s, StartRun(c, i, p) + StartRun(c, j, q)).value;
            && Drained(s') && s'.live == s.live + {i} + {j} && s'.lost == s.lost - {t} - {u}
            && Live(c.active, s'.live, t) && Live(c.active, s'.live, u)
            && Installed(c, s', u)
            && (Installed(c, s', t) <==> Outlives(c, t, u))
  {
    hide ValidConfig, OneEach, Run, Started, Separate, Round, InstalledIn, Outlives;
    StartRunInstalls(c, s, i, p, t);
    RunKeepsOneEach(c, s, StartRun(c, i, p));
    var mid := Run(c, s, StartRun(c, i, p)).value;
    StartRunInstalls(c, mid, j, q, u);
    RunAppend(c, s, StartRun(c, i, p), StartRun(c, j, q));
    StartedInstalls(c, s.tables, t);
    StartedInstalls(c, mid.tables, u);
    StartedKeeps(c, mid.tables, t, u);
  }

  lemma RecordTells(ip: Addresses, d: Direction, e: Direction)
    requires EntryOf(ip, Policies, d) == EntryOf(ip, Policies, e)
    ensures d.dir == e.dir && d.reqid == e.reqid
  {
    hide Decimal;
    var r, q := PolicyRecord(ip, d), PolicyRecord(ip, e);
    assert r.fields["dir"] == d.dir && q.fields["dir"] == e.dir;
    assert r.tmpl[0]["reqid"] == Decimal(d.reqid) && q.tmpl[0]["reqid"] == Decimal(e.reqid);
    ParsePrinted(d.reqid);
    ParsePrinted(e.reqid);
  }

  // Two transports between the same addresses, apart only in their keys, are
  // rivals; with different request ids the one does not outlive the other.
  lemma SamePeersAreRivals(c: Config, t: string, u: string)
    requires t in c.transports && Manual(c, u) && t != u
    requires var a, b := c.transports[t].spec, c.transports[u].spec; b == a.(spi := b.spi, reqid := b.reqid)
    ensures Rivals(c, t, u)
    ensures c.transports[t].spec.reqid != c.transports[u].spec.reqid ==> !Outlives(c, t, u)
  {
    hide EntryOf, Canonical;
    var a, b := c.transports[t].spec, c.transports[u].spec;
    var ds, es := Ways(c, t), Ways(c, u);
    assert SameIdentity(Policies, ds[0], es[0]) && SameIdentity(Policies, ds[1], es[1]);
    if a.reqid != b.reqid {
      assert ds[0].dir[0] == 'o' && ds[1].dir[0] == 'i' && es[0].dir[0] == 'o' && es[1].dir[0] == 'i';
      var k := if From(a.reqid, a.localParty) != From(b.reqid, b.localParty) then 0 else 1;
      forall i | 0 <= i < 2
        ensures EntryOf(c.ip, Policies, ds[k]) != EntriesFor(c.ip, Policies, es)[i]
      {
        if EntryOf(c.ip, Policies, ds[k]) == EntryOf(c.ip, Policies, es[i]) {
          RecordTells(c.ip, ds[k], es[i]);
        }
      }
      assert EntryOf(c.ip, Policies, Ways(c, t)[k]) !in EntriesFor(c.ip, Policies, Ways(c, u));
      assert SameIdentity(Policies, Ways(c, t)[k], Ways(c, u)[k]);
    }
  }

  const HERE := "192.0.2.1"
  const THERE := "198.51.100.1"

  function Tunnel(spi: nat, reqid: nat): Transport {
    Transport(true, true, TransportConfig(PartyA, PartyConfig(HERE, None), PartyConfig(THERE, None),
                                          (spi, spi + 1), (reqid, reqid), "gre"))
  }

  function TwoTunnels(codec: Codec, ip: Addresses): Config {
    var ifaces := map["gre1" := "one", "gre2" := "two"];
    Config(codec, ip, map["one" := Tunnel(256, 1), "two" := Tunnel(258, 2)], ifaces, ifaces)
  }

  // Two tunnels between the same two routers, each with keys of its own: after
  // both interfaces came up, everything went well and the queue is drained, the
  // first tunnel has lost its policies.
  lemma TwoTunnelsClash(codec: Codec, ip: Addresses) returns (s: State, actions: seq<Action>)
    requires ValidCodec(codec) && ValidAddresses(ip)
    requires ip.host(HERE) == Some(HERE) && ip.host(THERE) == Some(THERE)
    ensures ValidConfig(TwoTunnels(codec, ip)) && Reached(TwoTunnels(codec, ip), Fresh(), actions, s)
    ensures Drained(s) && s.live == {"gre1", "gre2"} && s.lost == {}
    ensures Installed(TwoTunnels(codec, ip), s, "two") && !Installed(TwoTunnels(codec, ip), s, "one")
  {
    hide Run, Round, InstalledIn, Outlives, ShareKey, Init, OneEach;
    var c := TwoTunnels(codec, ip);
    var p, q := Payload("xfrm-start", Some("one"), 0.0), Payload("xfrm-start", Some("two"), 0.0);
    TunnelIsGood(ip, 256, 1);
    TunnelIsGood(ip, 258, 2);
    FreshIsInit(c);
    SamePeersAreRivals(c, "one", "two");
    actions := StartRun(c, "gre1", p) + StartRun(c, "gre2", q);
    SecondStart(c, Fresh(), "gre1", p, "one", "gre2", q, "two");
    s := Run(c, Fresh(), actions).value;
  }

  lemma TunnelIsGood(ip: Addresses, spi: nat, reqid: nat)
    requires ip.host(HERE) == Some(HERE) && ip.host(THERE) == Some(THERE)
    ensures ValidTransport(ip, Tunnel(spi, reqid).spec)
    ensures var c := Tunnel(spi, reqid).spec; !SameIdentity(States, DirectionOf(ip, c, true), DirectionOf(ip, c, false))
  {
  }

  // A rival is stopped: the transport's interface is live, no handler raised,
  // the queue is drained, and the transport is gone.
  lemma RivalStopRemoves(c: Config, s: State, i: string, p: Payload, t: string, q: Payload, u: string)
    requires ValidConfig(c) && Drained(s) && OneEach(c.ip, s.tables)
    requires Serves(c, i, t) && Separate(c, t) && KeyOf(p) == StartKey(t)
    requires Rivals(c, t, u) && !Live(c.all, s.live, u) && KeyOf(q) == StopNamed(u)
    ensures Run(c, s, StartRun(c, i, p) + StopRun(c, q)).Some?
    ensures var s' := Run(c, s, StartRun(c, i, p) + StopRun(c, q)).value;
            && Drained(s') && Live(c.active, s'.live, t) && !Installed(c, s', t)
            && t !in s'.lost && t !in s'.kept
  {
    hide OneEach, Run, Started, Stopped, Separate, Round, InstalledIn, ShareKey, ValidAddresses, ValidTransport;
    StartRunInstalls(c, s, i, p, t);
    RunKeepsOneEach(c, s, StartRun(c, i, p));
    var mid := Run(c, s, StartRun(c, i, p)).value;
    assert c.all[i] == t;
    StopRunRemoves(c, mid, q, u);
    RunAppend(c, s, StartRun(c, i, p), StopRun(c, q));
    WaysAreGood(c, t);
    SharedIsGone(c.ip, mid.tables, Ways(c, u), Ways(c, t));
  }

  // Installed when an enabled interface is live, and only when some interface is.
  ghost predicate Agrees(c: Config, s: State, t: string) {
    (Live(c.active, s.live, t) ==> Installed(c, s, t)) && (Installed(c, s, t) ==> Live(c.all, s.live, t))
  }

  // Every drained run without raising leaves a transport in agreement with its
  // interfaces if and only if it has no rival.
  lemma AgreementIff(c: Config, i: string, t: string)
    requires ValidConfig(c) && Serves(c, i, t) && Separate(c, t)
    ensures (forall init, actions, s :: Reached(c, init, actions, s) && Drained(s) && t !in s.lost && t !in s.kept
                                        ==> Agrees(c, s, t))
       <==> Unrivalled(c, t)
  {
    hide ValidConfig, OneEach, Run, Separate, Round, InstalledIn, ShareKey, Init, Drained;
    if Unrivalled(c, t) {
      forall init, actions, s | Reached(c, init, actions, s) && Drained(s) && t !in s.lost && t !in s.kept
        ensures Agrees(c, s, t)
      {
        DrainedAgrees(c, init, actions, s, t);
      }
    } else {
      var u :| Rivals(c, t, u);
      var p := Payload("xfrm-start", Some(t), 0.0);
      var q := Payload("xfrm-stop", Some("xfrm/" + u), 0.0);
      FreshIsInit(c);
      RivalStopRemoves(c, Fresh(), i, p, t, q, u);
      var actions := StartRun(c, i, p) + StopRun(c, q);
      var s := Run(c, Fresh(), actions).value;
      assert Reached(c, Fresh(), actions, s);
      assert !Agrees(c, s, t);
    }
  }
}
