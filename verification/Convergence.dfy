// What the queue protocol achieves for XFRM transports: once the queue is
// drained, a transport is installed exactly when an interface that needs it is
// live (src/dros/plugins/network_xfrm.py:80-201).
module Convergence {
  import opened Wrappers
  import opened EventQueue
  import opened EventProtocol
  import opened XfrmInventory
  import opened XfrmListing
  import opened XfrmSections
  import opened XfrmKernel
  import opened XfrmCommands

  predicate Manual(c: Config, t: string) {
    t in c.transports && c.transports[t].manual
  }

  predicate Wanted(c: Config, t: string) {
    Manual(c, t) && c.transports[t].enabled
  }

  // A rival is another transport that events act upon, with a policy or a state
  // of the same key.
  ghost predicate Rivals(c: Config, t: string, u: string) {
    t in c.transports && Manual(c, u) && u != t && ShareKey(Ways(c, t), Ways(c, u))
  }

  ghost predicate Unrivalled(c: Config, t: string) {
    t in c.transports && forall u :: !Rivals(c, t, u)
  }

  // Hooks and handler mean the same transport by its name.
  predicate PlainName(t: string) {
    t != "" && !("xfrm/" <= t)
  }

  // A line asking for the duty is still to be appended, or will be in the next batch.
  ghost predicate Later(c: Config, s: State, duty: Duty) {
    || (exists k :: k in s.inflight && DutyOf(c, k) == duty)
    || (exists n :: s.removed + Taken(s.daemon) <= n < |s.appended| && DutyOf(c, KeyOf(s.appended[n])) == duty)
  }

  // The batch holds the duty and its liveness look-up is still to come.
  ghost predicate Open(c: Config, d: Daemon, duty: Duty) {
    d.Busy? && exists j :: 0 <= j < |d.todo| && DutyOf(c, d.todo[j]) == duty
                           && (j > 0 || d.phase == Waiting || d.phase == Called)
  }

  // The look-up has decided to act, the commands are under way.
  ghost predicate Acting(c: Config, d: Daemon, duty: Duty) {
    d.Busy? && d.todo != [] && DutyOf(c, d.todo[0]) == duty && d.phase.Running?
  }

  ghost predicate Pending(c: Config, s: State, duty: Duty) {
    Later(c, s, duty) || Open(c, s.daemon, duty) || Acting(c, s.daemon, duty)
  }

  ghost predicate StartOk(c: Config, s: State, t: string) {
    Wanted(c, t) && Live(c.active, s.live, t) && !Installed(c, s, t) ==> Pending(c, s, Start(t)) || t in s.lost
  }

  ghost predicate StopOk(c: Config, s: State, t: string) {
    Manual(c, t) && Installed(c, s, t) && !Live(c.all, s.live, t) ==> Pending(c, s, Stop(t)) || t in s.kept
  }

  ghost predicate Handling(c: Config, d: Daemon, t: string) {
    d.Busy? && d.todo != [] && DutyOf(c, d.todo[0]) in {Start(t), Stop(t)}
  }

  // A liveness answer that has gone stale is covered by a later event.
  ghost predicate CheckOk(c: Config, s: State, t: string) {
    Handling(c, s.daemon, t) ==>
      var starting := DutyOf(c, s.daemon.todo[0]).Start?;
      && (s.daemon.phase.Running? && starting && !Live(c.all, s.live, t) ==> Later(c, s, Stop(t)))
      && (s.daemon.phase.Running? && !starting && Wanted(c, t) && Live(c.active, s.live, t) ==> Later(c, s, Start(t)))
      && (s.daemon.phase.Declined? && starting && Wanted(c, t) && Live(c.active, s.live, t) ==> Later(c, s, Start(t)))
      && (s.daemon.phase.Declined? && !starting && !Live(c.all, s.live, t) ==> Later(c, s, Stop(t)))
  }

  // What the first k commands of a start or a stop have achieved.
  ghost predicate ProgressAt(c: Config, t: string, starting: bool, k: nat, tables: Tables)
    requires t in c.transports
  {
    var out, in_ := Way(c, t, true), Way(c, t, false);
    if starting then
      && (1 <= k < 7 ==> Free(c.ip, Policies, tables.policies, out))
      && (2 <= k < 8 ==> Free(c.ip, Policies, tables.policies, in_))
      && (k >= 5 ==> EntryOf(c.ip, States, out) in tables.states)
      && (k >= 6 ==> EntryOf(c.ip, States, in_) in tables.states)
      && (k >= 7 ==> EntryOf(c.ip, Policies, out) in tables.policies)
      && (k >= 8 ==> EntryOf(c.ip, Policies, in_) in tables.policies)
    else
      k >= 1 ==> Free(c.ip, Policies, tables.policies, out)
  }

  ghost predicate Progress(c: Config, s: State, t: string) {
    Handling(c, s.daemon, t) && s.daemon.phase.Running? ==>
      var duty := DutyOf(c, s.daemon.todo[0]);
      && s.daemon.phase.done <= |CommandsOf(c, duty)|
      && ProgressAt(c, t, duty.Start?, s.daemon.phase.done, s.tables)
  }

  // The marks of raised handlers tell the truth.
  ghost predicate MarksOk(c: Config, s: State, t: string) {
    (t in s.lost ==> !Installed(c, s, t)) && (t in s.kept ==> Installed(c, s, t))
  }

  ghost predicate TransportInv(c: Config, s: State, t: string) {
    StartOk(c, s, t) && StopOk(c, s, t) && CheckOk(c, s, t) && Progress(c, s, t) && MarksOk(c, s, t)
  }

  // ------------------------------------------------------------ the commands

  lemma WayIsGood(c: Config, t: string, outgoing: bool)
    requires ValidConfig(c) && t in c.transports
    ensures GoodDirection(c.ip, Way(c, t, outgoing))
  {
    hide ValidAddresses, ValidTransport, GoodDirection, DirectionOf;
    ValidDirections(c.ip, c.transports[t].spec, outgoing);
  }

  lemma WaysAreGood(c: Config, t: string)
    requires ValidConfig(c) && t in c.transports
    ensures forall i :: 0 <= i < |Ways(c, t)| ==> GoodDirection(c.ip, Ways(c, t)[i])
  {
    hide GoodDirection, DirectionOf;
    WayIsGood(c, t, true);
    WayIsGood(c, t, false);
  }

  lemma PolicyWaysDiffer(c: Config, t: string)
    requires t in c.transports
    ensures !SameIdentity(Policies, Way(c, t, true), Way(c, t, false))
  {
    PoliciesDiffer(c.ip, c.transports[t].spec);
  }

  // Each command names a way of the transport.
  lemma CommandWay(c: Config, duty: Duty, k: nat) returns (j: nat)
    requires duty != Ignore && duty.t in c.transports && k < |CommandsOf(c, duty)|
    ensures j < 2 && CommandsOf(c, duty)[k].d == Ways(c, duty.t)[j]
  {
    hide Way;
    j := k % 2;
  }

  lemma CommandHasDuty(c: Config, s: State)
    requires Enabled(c, s, Command)
    ensures DutyOf(c, s.daemon.todo[0]) != Ignore
  {
    hide Possible, Way;
  }

  lemma CommandKeepsOneEach(c: Config, s: State)
    requires ValidConfig(c) && OneEach(c.ip, s.tables) && Enabled(c, s, Command)
    ensures OneEach(c.ip, Step(c, s, Command).tables)
  {
    hide Execute, CommandsOf, OneEach, GoodDirection, Possible, ValidConfig;
    CommandHasDuty(c, s);
    var duty := DutyOf(c, s.daemon.todo[0]);
    var j := CommandWay(c, duty, s.daemon.phase.done);
    WaysAreGood(c, duty.t);
    ExecuteKeepsOneEach(c.ip, s.tables, CommandsOf(c, duty)[s.daemon.phase.done]);
  }

  // The commands for another transport leave an unrivalled one as it is.
  lemma OthersCommand(c: Config, s: State, t: string)
    requires ValidConfig(c) && Enabled(c, s, Command) && Unrivalled(c, t) && !Handling(c, s.daemon, t)
    ensures Installed(c, Step(c, s, Command), t) <==> Installed(c, s, t)
  {
    hide Execute, CommandsOf, GoodDirection, Possible, ValidConfig, InstalledIn, Way;
    CommandHasDuty(c, s);
    var duty := DutyOf(c, s.daemon.todo[0]);
    var cmd := CommandsOf(c, duty)[s.daemon.phase.done];
    var j := CommandWay(c, duty, s.daemon.phase.done);
    WaysAreGood(c, duty.t);
    WaysAreGood(c, t);
    assert !Rivals(c, t, duty.t);
    HandledIsManual(c, s.daemon.todo[0]);
    NothingShared(Ways(c, t), Ways(c, duty.t), cmd.kind, j);
    OtherStaysInstalled(c.ip, s.tables, cmd, Ways(c, t));
  }

  lemma NothingShared(ds: seq<Direction>, es: seq<Direction>, kind: Kind, j: nat)
    requires !ShareKey(ds, es) && j < |es|
    ensures forall i :: 0 <= i < |ds| ==> !SameIdentity(kind, ds[i], es[j])
  {
    hide SameIdentity;
  }

  lemma ProgressNext(c: Config, t: string, starting: bool, k: nat, tables: Tables)
    requires ValidConfig(c) && t in c.transports && OneEach(c.ip, tables)
    requires k < |CommandsOf(c, if starting then Start(t) else Stop(t))|
    requires Possible(c.ip, tables, CommandsOf(c, if starting then Start(t) else Stop(t))[k])
    requires ProgressAt(c, t, starting, k, tables)
    ensures ProgressAt(c, t, starting, k + 1, Execute(c.ip, tables, CommandsOf(c, if starting then Start(t) else Stop(t))[k]))
  {
    hide GoodDirection, ValidConfig, Free, EntryOf, SameIdentity, Deleted, Unambiguous, Way;
    var out, in_ := Way(c, t, true), Way(c, t, false);
    WayIsGood(c, t, true);
    WayIsGood(c, t, false);
    PolicyWaysDiffer(c, t);
    if k == 0 {
      DeletedFrees(c.ip, Policies, tables.policies, out);
    } else if k == 1 {
      DeletedFrees(c.ip, Policies, tables.policies, in_);
    } else if k == 6 {
      AddedOnce(c.ip, Policies, tables.policies, out);
    }
  }

  // A start has its transport installed after the last command and not before;
  // a stop has it gone from the first command on.
  lemma ProgressMeans(c: Config, s: State, t: string, starting: bool, k: nat)
    requires ValidConfig(c) && t in c.transports && ProgressAt(c, t, starting, k, s.tables)
    ensures starting && 1 <= k < 8 ==> !Installed(c, s, t)
    ensures starting && k >= 8 ==> Installed(c, s, t)
    ensures !starting && k >= 1 ==> !Installed(c, s, t)
  {
    hide GoodDirection, ValidConfig, Free, EntryOf, Way;
    var ds := Ways(c, t);
    assert ds[0] == Way(c, t, true) && ds[1] == Way(c, t, false);
    WayIsGood(c, t, true);
    WayIsGood(c, t, false);
    if Free(c.ip, Policies, s.tables.policies, ds[0]) {
      FreeIsMissing(c.ip, Policies, s.tables.policies, ds[0]);
    }
    if Free(c.ip, Policies, s.tables.policies, ds[1]) {
      FreeIsMissing(c.ip, Policies, s.tables.policies, ds[1]);
    }
  }

  lemma OwnCommand(c: Config, s: State, t: string)
    requires ValidConfig(c) && OneEach(c.ip, s.tables) && Enabled(c, s, Command)
    requires Handling(c, s.daemon, t) && Progress(c, s, t)
    ensures Progress(c, Step(c, s, Command), t)
    ensures Installed(c, Step(c, s, Command), t) ==> DutyOf(c, s.daemon.todo[0]).Start?
  {
    hide Execute, CommandsOf, OneEach, Possible, ValidConfig, InstalledIn, ProgressAt;
    var duty, k := DutyOf(c, s.daemon.todo[0]), s.daemon.phase.done;
    ProgressNext(c, t, duty.Start?, k, s.tables);
    ProgressMeans(c, Step(c, s, Command), t, duty.Start?, k + 1);
  }

  // A handler that runs to its end has done its duty.
  lemma OwnEnd(c: Config, s: State, t: string)
    requires ValidConfig(c) && Handling(c, s.daemon, t) && Progress(c, s, t) && s.daemon.phase.Running?
    requires s.daemon.phase.done == |CommandsOf(c, DutyOf(c, s.daemon.todo[0]))|
    ensures Installed(c, s, t) <==> DutyOf(c, s.daemon.todo[0]).Start?
  {
    hide ValidConfig, InstalledIn, ProgressAt;
    ProgressMeans(c, s, t, DutyOf(c, s.daemon.todo[0]).Start?, s.daemon.phase.done);
  }

  // ------------------------------------------------------------------ steps

  lemma DutiesOfHooks(c: Config, i: string)
    requires ValidConfig(c) && i in c.all && Manual(c, c.all[i]) && PlainName(c.all[i])
    ensures DutyOf(c, StopKey(c.all[i])) == Stop(c.all[i])
    ensures Wanted(c, c.all[i]) ==> DutyOf(c, StartKey(c.all[i])) == Start(c.all[i])
  {
  }

  lemma LaterGrows(c: Config, s: State, t: State)
    requires s.inflight <= t.inflight && t.appended == s.appended
    requires t.removed + Taken(t.daemon) == s.removed + Taken(s.daemon)
    ensures forall duty :: Later(c, s, duty) ==> Later(c, t, duty)
  {
  }

  lemma IfUpKeeps(c: Config, s: State, i: string, t: string)
    requires ValidConfig(c) && i in c.all && PlainName(t) && TransportInv(c, s, t)
    ensures TransportInv(c, Step(c, s, IfUp(i)), t)
  {
    hide ValidAddresses, ValidTransport, InstalledIn, ProgressAt, DutyOf, CommandsOf;
    var s' := Step(c, s, IfUp(i));
    LaterGrows(c, s, s');
    assert Live(c.all, s.live, t) ==> Live(c.all, s'.live, t);
    if Live(c.active, s'.live, t) && !Live(c.active, s.live, t) && Wanted(c, t) {
      assert c.all[i] == t;
      DutiesOfHooks(c, i);
      assert StartKey(t) in s'.inflight;
      assert Later(c, s', Start(t));
    }
  }

  lemma IfDownKeeps(c: Config, s: State, i: string, t: string)
    requires ValidConfig(c) && i in c.all && PlainName(t) && TransportInv(c, s, t)
    ensures TransportInv(c, Step(c, s, IfDown(i)), t)
  {
    hide ValidAddresses, ValidTransport, InstalledIn, ProgressAt, CommandsOf, DutyOf;
    var s' := Step(c, s, IfDown(i));
    LaterGrows(c, s, s');
    assert Live(c.active, s'.live, t) ==> Live(c.active, s.live, t);
    if Live(c.all, s.live, t) && !Live(c.all, s'.live, t) && Manual(c, t) {
      var j :| j in s.live && j in c.all && c.all[j] == t;
      assert j == i || j in s'.live;
      DutiesOfHooks(c, i);
      assert StopKey(t) in s'.inflight;
      assert Later(c, s', Stop(t));
    } else if Handling(c, s.daemon, t) {
      assert Manual(c, t) by { HandledIsManual(c, s.daemon.todo[0]); }
    }
  }

  lemma HandledIsManual(c: Config, k: Key)
    ensures DutyOf(c, k) != Ignore ==> Manual(c, DutyOf(c, k).t)
  {
  }

  lemma HookKeeps(c: Config, s: State, k: Key, t: string)
    requires TransportInv(c, s, t)
    ensures TransportInv(c, Step(c, s, Hook(k)), t)
  {
    hide InstalledIn, ProgressAt, CommandsOf, DutyOf;
    LaterGrows(c, s, Step(c, s, Hook(k)));
  }

  lemma AppendKeeps(c: Config, s: State, p: Payload, t: string)
    requires QueueInv(c, s) && Enabled(c, s, Append(p)) && TransportInv(c, s, t)
    ensures TransportInv(c, Step(c, s, Append(p)), t)
  {
    hide InstalledIn, ProgressAt, CommandsOf, DutyOf;
    var s' := Step(c, s, Append(p));
    forall duty | Later(c, s, duty)
      ensures Later(c, s', duty)
    {
      if k :| k in s.inflight && DutyOf(c, k) == duty {
        if k == KeyOf(p) {
          assert KeyOf(s'.appended[|s.appended|]) == k;
        } else {
          assert k in s'.inflight;
        }
      } else {
        var n :| s.removed + Taken(s.daemon) <= n < |s.appended| && DutyOf(c, KeyOf(s.appended[n])) == duty;
        assert s'.appended[n] == s.appended[n];
      }
    }
  }

  lemma ReadKeeps(c: Config, s: State, t: string)
    requires ValidConfig(c) && QueueInv(c, s) && Enabled(c, s, Read) && TransportInv(c, s, t)
    ensures TransportInv(c, Step(c, s, Read), t)
  {
    hide InstalledIn, ProgressAt, CommandsOf, DutyOf, ValidConfig;
    var s' := Step(c, s, Read);
    ReadKeepsQueue(c, s);
    forall duty | Later(c, s, duty)
      ensures Later(c, s', duty) || Open(c, s'.daemon, duty)
    {
      if k :| k in s.inflight && DutyOf(c, k) == duty {
      } else {
        var n :| s.removed <= n < |s.appended| && DutyOf(c, KeyOf(s.appended[n])) == duty;
        assert KeyOf(s.appended[n]) in s'.daemon.todo;
      }
    }
  }

  lemma CrashKeeps(c: Config, s: State, t: string)
    requires QueueInv(c, s) && Enabled(c, s, Crash) && TransportInv(c, s, t)
    ensures TransportInv(c, Step(c, s, Crash), t)
  {
    hide InstalledIn, ProgressAt, CommandsOf, DutyOf;
    var s' := Step(c, s, Crash);
    forall duty | Pending(c, s, duty)
      ensures Later(c, s', duty)
    {
      if !Later(c, s, duty) {
        var j :| 0 <= j < |s.daemon.todo| && DutyOf(c, s.daemon.todo[j]) == duty;
        assert s.daemon.todo[j] in s.daemon.todo;
        var n :| s.removed <= n < s.removed + Taken(s.daemon) && KeyOf(s.appended[n]) == s.daemon.todo[j];
      }
    }
  }

  lemma CutKeeps(c: Config, s: State, t: string)
    requires QueueInv(c, s) && Enabled(c, s, Cut) && TransportInv(c, s, t)
    ensures TransportInv(c, Step(c, s, Cut), t)
  {
    hide InstalledIn, ProgressAt, CommandsOf, DutyOf, CutBatch;
    LaterGrows(c, s, Step(c, s, Cut));
  }

  lemma ActiveIsLive(c: Config, live: set<string>, t: string)
    requires ValidConfig(c)
    ensures Live(c.active, live, t) ==> Live(c.all, live, t)
  {
    hide ValidAddresses, ValidTransport;
  }

  // Steps that stay with the first key of the batch.
  lemma OpenStays(c: Config, s: State, a: Action)
    requires a in {CallHandler, Check, Command} && Enabled(c, s, a)
    ensures forall duty :: Open(c, s.daemon, duty) ==>
              Open(c, Step(c, s, a).daemon, duty) || (a == Check && duty == DutyOf(c, s.daemon.todo[0]))
  {
    hide DutyOf, CommandsOf, Execute, Possible, InstalledIn;
    var d, d' := s.daemon, Step(c, s, a).daemon;
    forall duty | Open(c, d, duty)
      ensures Open(c, d', duty) || (a == Check && duty == DutyOf(c, d.todo[0]))
    {
      var j :| 0 <= j < |d.todo| && DutyOf(c, d.todo[j]) == duty && (j > 0 || d.phase == Waiting || d.phase == Called);
      assert d'.todo[j] == d.todo[j];
    }
  }

  lemma PhaseKeeps(c: Config, s: State, a: Action, t: string)
    requires a == CallHandler || a == Check
    requires ValidConfig(c) && Enabled(c, s, a) && TransportInv(c, s, t)
    ensures TransportInv(c, Step(c, s, a), t)
  {
    hide DutyOf, CommandsOf, Execute, Possible, InstalledIn, ValidConfig, Open;
    var s' := Step(c, s, a);
    LaterGrows(c, s, s');
    OpenStays(c, s, a);
    ActiveIsLive(c, s.live, t);
  }

  lemma CommandKeeps(c: Config, s: State, t: string)
    requires ValidConfig(c) && OneEach(c.ip, s.tables) && Unrivalled(c, t)
    requires Enabled(c, s, Command) && TransportInv(c, s, t)
    ensures TransportInv(c, Step(c, s, Command), t)
  {
    hide DutyOf, CommandsOf, Execute, Possible, InstalledIn, ValidConfig, Open, Unrivalled, OneEach, ProgressAt;
    var s' := Step(c, s, Command);
    CommandHasDuty(c, s);
    LaterGrows(c, s, s');
    OpenStays(c, s, Command);
    if Handling(c, s.daemon, t) {
      OwnCommand(c, s, t);
    } else {
      OthersCommand(c, s, t);
    }
  }

  // What the handler still covers once it is done with its key.
  lemma OpenAdvances(c: Config, s: State, a: Action)
    requires a in {Finish, Raise} && Enabled(c, s, a)
    ensures forall duty :: Open(c, s.daemon, duty) ==>
              Open(c, Step(c, s, a).daemon, duty) || duty == DutyOf(c, s.daemon.todo[0])
  {
    hide DutyOf, CommandsOf, InstalledIn;
    var d, d' := s.daemon, Step(c, s, a).daemon;
    forall duty | Open(c, d, duty)
      ensures Open(c, d', duty) || duty == DutyOf(c, d.todo[0])
    {
      var j :| 0 <= j < |d.todo| && DutyOf(c, d.todo[j]) == duty && (j > 0 || d.phase == Waiting || d.phase == Called);
      assert j > 0 ==> d'.todo[j - 1] == d.todo[j];
    }
  }

  lemma FinishKeeps(c: Config, s: State, t: string)
    requires ValidConfig(c) && Enabled(c, s, Finish) && TransportInv(c, s, t)
    ensures TransportInv(c, Step(c, s, Finish), t)
  {
    hide DutyOf, CommandsOf, InstalledIn, ValidConfig, Open, ProgressAt;
    LaterGrows(c, s, Step(c, s, Finish));
    OpenAdvances(c, s, Finish);
    if Handling(c, s.daemon, t) && s.daemon.phase.Running? {
      OwnEnd(c, s, t);
    }
  }

  lemma RaiseKeeps(c: Config, s: State, t: string)
    requires ValidConfig(c) && Enabled(c, s, Raise) && TransportInv(c, s, t)
    ensures TransportInv(c, Step(c, s, Raise), t)
  {
    hide DutyOf, CommandsOf, InstalledIn, ValidConfig, Open, ProgressAt;
    LaterGrows(c, s, Step(c, s, Raise));
    OpenAdvances(c, s, Raise);
  }

  lemma StepKeeps(c: Config, s: State, a: Action, t: string)
    requires ValidConfig(c) && QueueInv(c, s) && OneEach(c.ip, s.tables) && Unrivalled(c, t) && PlainName(t)
    requires Enabled(c, s, a) && TransportInv(c, s, t)
    ensures TransportInv(c, Step(c, s, a), t)
  {
    hide TransportInv, QueueInv, ValidConfig, Unrivalled, OneEach, Step;
    match a {
      case IfUp(i) => IfUpKeeps(c, s, i, t);
      case IfDown(i) => IfDownKeeps(c, s, i, t);
      case Hook(k) => HookKeeps(c, s, k, t);
      case Append(p) => AppendKeeps(c, s, p, t);
      case Read => ReadKeeps(c, s, t);
      case Cut => CutKeeps(c, s, t);
      case Crash => CrashKeeps(c, s, t);
      case Command => CommandKeeps(c, s, t);
      case Finish => FinishKeeps(c, s, t);
      case Raise => RaiseKeeps(c, s, t);
      case _ => PhaseKeeps(c, s, a, t);
    }
  }

  lemma StepKeepsOneEach(c: Config, s: State, a: Action)
    requires ValidConfig(c) && OneEach(c.ip, s.tables) && Enabled(c, s, a)
    ensures OneEach(c.ip, Step(c, s, a).tables)
  {
    hide Execute, CommandsOf, OneEach, Possible, ValidConfig, InstalledIn;
    if a == Command {
      CommandKeepsOneEach(c, s);
    }
  }

  lemma {:induction false} RunKeeps(c: Config, s: State, actions: seq<Action>, t: string)
    requires ValidConfig(c) && QueueInv(c, s) && OneEach(c.ip, s.tables) && Unrivalled(c, t) && PlainName(t)
    requires TransportInv(c, s, t)
    ensures Run(c, s, actions).Some? ==> TransportInv(c, Run(c, s, actions).value, t)
    decreases |actions|
  {
    hide TransportInv, QueueInv, ValidConfig, Unrivalled, OneEach, Step, Enabled;
    if actions != [] && Enabled(c, s, actions[0]) {
      StepKeeps(c, s, actions[0], t);
      StepKeepsQueue(c, s, actions[0]);
      StepKeepsOneEach(c, s, actions[0]);
      RunKeeps(c, Step(c, s, actions[0]), actions[1..], t);
    }
  }

  // ---------------------------------------------------------------- theorems

  // A state that some run reaches.
  ghost predicate Reached(c: Config, init: State, actions: seq<Action>, s: State) {
    Init(c, init) && Run(c, init, actions) == Some(s)
  }

  lemma ReachedKeeps(c: Config, init: State, actions: seq<Action>, s: State, t: string)
    requires ValidConfig(c) && Reached(c, init, actions, s) && Unrivalled(c, t) && PlainName(t)
    ensures TransportInv(c, s, t)
  {
    hide ValidConfig, QueueInv, Step, Enabled, InstalledIn, OneEach;
    InitHasQueueInv(c, init);
    assert TransportInv(c, init, t);
    RunKeeps(c, init, actions, t);
  }

  // In every reachable state a transport without rivals that is needed and
  // missing, or there and not needed, has an event on its way that will put it
  // right, unless a handler of that very event raised and left it so.
  lemma NeverStuck(c: Config, init: State, actions: seq<Action>, s: State, t: string)
    requires ValidConfig(c) && Reached(c, init, actions, s) && Unrivalled(c, t) && PlainName(t)
    ensures Wanted(c, t) && Live(c.active, s.live, t) && !Installed(c, s, t) ==> Pending(c, s, Start(t)) || t in s.lost
    ensures Manual(c, t) && Installed(c, s, t) && !Live(c.all, s.live, t) ==> Pending(c, s, Stop(t)) || t in s.kept
  {
    hide ValidConfig, Unrivalled, Pending, Installed;
    ReachedKeeps(c, init, actions, s, t);
  }

  ghost predicate Drained(s: State) {
    s.daemon == Idle && s.file == "" && s.inflight == multiset{}
  }

  // Convergence: with the queue drained, a transport is missing although an
  // enabled interface is live if and only if its last start handler raised and
  // left it missing; it is there although no interface is live if and only if
  // its last stop handler raised and left it there.
  lemma DrainedIff(c: Config, init: State, actions: seq<Action>, s: State, t: string)
    requires ValidConfig(c) && Reached(c, init, actions, s) && Drained(s)
    requires Unrivalled(c, t) && PlainName(t) && Wanted(c, t)
    ensures Live(c.active, s.live, t) ==> (!Installed(c, s, t) <==> t in s.lost)
    ensures !Live(c.all, s.live, t) ==> (Installed(c, s, t) <==> t in s.kept)
  {
    hide ValidConfig, Unrivalled, InstalledIn, Enabled, Step, DutyOf, ProgressAt;
    NeverStuck(c, init, actions, s, t);
    ReachedKeeps(c, init, actions, s, t);
    NothingPending(c, init, actions, s);
  }

  lemma NothingPending(c: Config, init: State, actions: seq<Action>, s: State)
    requires ValidConfig(c) && Reached(c, init, actions, s) && Drained(s)
    ensures forall duty :: !Pending(c, s, duty)
  {
    hide Enabled, Step, Run, ValidConfig, InstalledIn;
    NoLostEvents(c, init, actions);
    TextEmpty(c.codec, s.appended[s.removed..]);
    assert |s.appended[s.removed..]| == |s.appended| - s.removed;
  }

  // So without raising, and without disabled interfaces, installed means live.
  lemma DrainedAgrees(c: Config, init: State, actions: seq<Action>, s: State, t: string)
    requires ValidConfig(c) && Reached(c, init, actions, s) && Drained(s)
    requires Unrivalled(c, t) && PlainName(t) && Wanted(c, t)
    requires t !in s.lost && t !in s.kept
    ensures Live(c.active, s.live, t) ==> Installed(c, s, t)
    ensures Installed(c, s, t) ==> Live(c.all, s.live, t)
    ensures c.active == c.all ==> (Installed(c, s, t) <==> Live(c.all, s.live, t))
  {
    hide ValidConfig, Unrivalled, InstalledIn, Enabled, Step, Run;
    DrainedIff(c, init, actions, s, t);
  }
}
