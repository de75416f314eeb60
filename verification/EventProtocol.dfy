// Interleavings of hooks, interfaces and the queue daemon, with the XFRM event
// handlers acting on the kernel's policies and states (src/dros/events.py,
// src/dros/plugins/network_xfrm.py). The queue file is text; every step is one
// atomic action of one process, down to the single ip command.
module EventProtocol {
  import opened Wrappers
  import opened Texts
  import opened EventQueue
  import opened XfrmInventory
  import opened XfrmKernel
  import opened XfrmCommands

  datatype Transport = Transport(enabled: bool, manual: bool, spec: TransportConfig)

  // active maps the enabled interfaces to the transport they name; all also
  // holds the disabled ones, which still guard a live transport.
  datatype Config = Config(
    codec: Codec,
    ip: Addresses,
    transports: map<string, Transport>,
    active: map<string, string>,
    all: map<string, string>)

  ghost predicate ValidConfig(c: Config) {
    && ValidCodec(c.codec) && ValidAddresses(c.ip)
    && (forall t :: t in c.transports ==> ValidTransport(c.ip, c.transports[t].spec))
    && (forall i :: i in c.active ==> i in c.all && c.all[i] == c.active[i])
  }

  // name.removeprefix("xfrm/")
  function Target(name: string): string {
    if "xfrm/" <= name then name[5..] else name
  }

  // What a key asks of the XFRM handler.
  datatype Duty = Ignore | Start(t: string) | Stop(t: string)

  function DutyOf(c: Config, k: Key): (duty: Duty)
    ensures duty != Ignore ==> duty.t in c.transports && c.transports[duty.t].manual
    ensures duty.Start? ==> c.transports[duty.t].enabled
  {
    if k.event !in {"xfrm-start", "xfrm-stop"} || k.iface.None? || k.iface.value == "" then Ignore
    else
      var t := Target(k.iface.value);
      if t !in c.transports || !c.transports[t].manual then Ignore
      else if k.event == "xfrm-stop" then Stop(t)
      else if c.transports[t].enabled then Start(t)
      else Ignore
  }

  // The key means the transport: by its name, or with the prefix in front of it.
  predicate Means(k: Key, t: string) {
    k.iface == Some("xfrm/" + t) || (k.iface == Some(t) && t != "" && !("xfrm/" <= t))
  }

  // Starts are for enabled manual transports, stops for all manual ones.
  lemma DutyIff(c: Config, k: Key, t: string)
    ensures DutyOf(c, k) == Start(t) <==>
              && k.event == "xfrm-start" && Means(k, t)
              && t in c.transports && c.transports[t].manual && c.transports[t].enabled
    ensures DutyOf(c, k) == Stop(t) <==>
              k.event == "xfrm-stop" && Means(k, t) && t in c.transports && c.transports[t].manual
  {
    assert ("xfrm/" + t)[5..] == t;
    if k.iface.Some? && "xfrm/" <= k.iface.value {
      assert k.iface.value == "xfrm/" + k.iface.value[5..];
    }
  }

  // The outgoing and the incoming direction.
  function Way(c: Config, t: string, outgoing: bool): Direction
    requires t in c.transports
  {
    DirectionOf(c.ip, c.transports[t].spec, outgoing)
  }

  function Ways(c: Config, t: string): seq<Direction>
    requires t in c.transports
  {
    [Way(c, t, true), Way(c, t, false)]
  }

  function CommandsOf(c: Config, duty: Duty): seq<Command>
    requires duty != Ignore ==> duty.t in c.transports
  {
    match duty
    case Ignore => []
    case Start(t) => StartCommands(Way(c, t, true), Way(c, t, false))
    case Stop(t) => StopCommands(Way(c, t, true), Way(c, t, false))
  }

  function StartKey(t: string): Key {
    Key("xfrm-start", Some(t))
  }

  function StopKey(t: string): Key {
    Key("xfrm-stop", Some(t))
  }

  // Some live interface of the map names the transport.
  ghost predicate Live(ifaces: map<string, string>, live: set<string>, t: string) {
    exists i :: i in live && i in ifaces && ifaces[i] == t
  }

  // Progress of the handler call for the first key of the batch. Liveness is
  // looked up in one step and acted upon, command by command, in later ones.
  datatype Phase = Waiting | Called | Declined | Running(done: nat)

  datatype Daemon = Idle | Busy(batch: string, todo: seq<Key>, phase: Phase)

  // A call of process_event, stamped with the number of lines appended so far.
  datatype Call = Call(key: Key, at: nat)

  // The last five fields are history: every line ever appended, how many lines
  // left the file, the handler calls, the transports a start handler raised for
  // while they were missing, and those a stop handler raised for while they were
  // there; either mark goes with the next command, or handling, for the transport.
  datatype State = State(
    file: string,
    inflight: multiset<Key>,
    daemon: Daemon,
    live: set<string>,
    tables: Tables,
    appended: seq<Payload>,
    removed: nat,
    calls: seq<Call>,
    lost: set<string>,
    kept: set<string>)

  datatype Action =
    | IfUp(iface: string)      // the link is up, its post-up hook is under way
    | IfDown(iface: string)    // the link is gone, its post-down hook is under way
    | Hook(key: Key)           // any other hook invocation
    | Append(p: Payload)       // a hook under way appends its line
    | Read                     // the daemon reads and coalesces the file
    | CallHandler
    | Check
    | Command                  // one ip command of the handler
    | Finish
    | Raise                    // the handler raises; the daemon goes on
    | Cut                      // the batch is cut off the file
    | Crash

  function Taken(d: Daemon): nat {
    if d.Busy? then |SplitLines(d.batch)| else 0
  }

  // All of the transport's policies and states are in the kernel.
  ghost predicate Installed(c: Config, s: State, t: string) {
    t in c.transports && InstalledIn(c.ip, s.tables, Ways(c, t))
  }

  // Whether a look-up with this answer leads to commands.
  predicate Acts(duty: Duty, live: bool) {
    (duty.Start? && live) || (duty.Stop? && !live)
  }

  ghost predicate Enabled(c: Config, s: State, a: Action) {
    match a
    case IfUp(i) => i in c.all
    case IfDown(i) => i in c.all
    case Hook(k) => true
    case Append(p) => KeyOf(p) in s.inflight
    case Read => s.daemon.Idle?
    case Cut => s.daemon.Busy? && s.daemon.todo == []
    case Crash => s.daemon.Busy?
    case _ => HandlerEnabled(c, s, a)
  }

  // The steps of the handler call for the first key of the batch.
  ghost predicate HandlerEnabled(c: Config, s: State, a: Action) {
    && s.daemon.Busy? && s.daemon.todo != []
    && var duty := DutyOf(c, s.daemon.todo[0]);
       var phase := s.daemon.phase;
       match a
       case CallHandler => phase == Waiting
       case Check => phase == Called && duty != Ignore
       case Command =>
         && phase.Running? && phase.done < |CommandsOf(c, duty)|
         && Possible(c.ip, s.tables, CommandsOf(c, duty)[phase.done])
       case Finish =>
         || (phase == Called && duty == Ignore)
         || phase == Declined
         || (phase.Running? && phase.done == |CommandsOf(c, duty)|)
       case Raise => phase != Waiting
       case _ => false
  }

  function With<T>(s: set<T>, x: T, there: bool): set<T> {
    if there then s + {x} else s - {x}
  }

  ghost function Step(c: Config, s: State, a: Action): State
    requires Enabled(c, s, a)
  {
    match a
    case IfUp(i) =>
      s.(live := s.live + {i}, inflight := s.inflight + multiset{StartKey(c.all[i])})
    case IfDown(i) =>
      s.(live := s.live - {i}, inflight := s.inflight + multiset{StopKey(c.all[i])})
    case Hook(k) =>
      s.(inflight := s.inflight + multiset{k})
    case Append(p) =>
      s.(inflight := s.inflight - multiset{KeyOf(p)},
         file := s.file + Text(c.codec, [p]), appended := s.appended + [p])
    case Read =>
      s.(daemon := Busy(s.file, LastOccurrences(DecodeAll(c.codec, SplitLines(s.file))), Waiting))
    case CallHandler =>
      s.(daemon := s.daemon.(phase := Called), calls := s.calls + [Call(s.daemon.todo[0], |s.appended|)])
    case Check =>
      var duty := DutyOf(c, s.daemon.todo[0]);
      var ifaces := if duty.Start? then c.active else c.all;
      s.(daemon := s.daemon.(phase := if Acts(duty, Live(ifaces, s.live, duty.t)) then Running(0) else Declined))
    case Command =>
      var duty, done := DutyOf(c, s.daemon.todo[0]), s.daemon.phase.done;
      s.(daemon := s.daemon.(phase := Running(done + 1)),
         tables := Execute(c.ip, s.tables, CommandsOf(c, duty)[done]),
         lost := s.lost - {duty.t}, kept := s.kept - {duty.t})
    case Finish =>
      var duty := DutyOf(c, s.daemon.todo[0]);
      s.(daemon := Busy(s.daemon.batch, s.daemon.todo[1..], Waiting),
         lost := if duty.Start? then s.lost - {duty.t} else s.lost,
         kept := if duty.Stop? then s.kept - {duty.t} else s.kept)
    case Raise =>
      var duty := DutyOf(c, s.daemon.todo[0]);
      s.(daemon := Busy(s.daemon.batch, s.daemon.todo[1..], Waiting),
         lost := if duty.Start? then With(s.lost, duty.t, !Installed(c, s, duty.t)) else s.lost,
         kept := if duty.Stop? then With(s.kept, duty.t, Installed(c, s, duty.t)) else s.kept)
    case Cut =>
      s.(daemon := Idle, file := CutBatch(s.file, s.daemon.batch), removed := s.removed + Taken(s.daemon))
    case Crash =>
      s.(daemon := Idle)
  }

  // A busy daemon is never stuck: with its batch done it cuts; else the handler
  // of the first key goes on, unless the kernel refuses its next command, and
  // then it raises.
  lemma DaemonGoesOn(c: Config, s: State)
    requires s.daemon.Busy?
    ensures s.daemon.todo == [] ==> Enabled(c, s, Cut)
    ensures s.daemon.todo != [] && s.daemon.phase.Waiting? ==> Enabled(c, s, CallHandler)
    ensures s.daemon.todo != [] && s.daemon.phase.Called? ==> Enabled(c, s, Check) || Enabled(c, s, Finish)
    ensures s.daemon.todo != [] && s.daemon.phase.Declined? ==> Enabled(c, s, Finish)
    ensures s.daemon.todo != [] && s.daemon.phase.Running? ==>
              var cmds := CommandsOf(c, DutyOf(c, s.daemon.todo[0]));
              var done := s.daemon.phase.done;
              && (Enabled(c, s, Command) <==> done < |cmds| && Possible(c.ip, s.tables, cmds[done]))
              && (Enabled(c, s, Finish) <==> done == |cmds|)
    ensures s.daemon.todo != [] && !s.daemon.phase.Waiting? ==> Enabled(c, s, Raise)
  {
  }

  // The marks tell how the last start, or stop, of a transport ended: a handler
  // that raised sets them by what it left, and one that ended clears them.
  lemma MarksFollowHandlers(c: Config, s: State, t: string)
    ensures Enabled(c, s, Finish) && DutyOf(c, s.daemon.todo[0]) == Start(t) ==> t !in Step(c, s, Finish).lost
    ensures Enabled(c, s, Finish) && DutyOf(c, s.daemon.todo[0]) == Stop(t) ==> t !in Step(c, s, Finish).kept
    ensures Enabled(c, s, Raise) && DutyOf(c, s.daemon.todo[0]) == Start(t) ==>
              (t in Step(c, s, Raise).lost <==> !Installed(c, s, t))
    ensures Enabled(c, s, Raise) && DutyOf(c, s.daemon.todo[0]) == Stop(t) ==>
              (t in Step(c, s, Raise).kept <==> Installed(c, s, t))
  {
    hide Installed, CommandsOf, Possible, Execute;
  }

  // No interface is up and no transport installed; the file may hold lines from
  // an earlier boot, and the kernel entries of others.
  ghost predicate Init(c: Config, s: State) {
    && s.file == Text(c.codec, s.appended)
    && s.removed == 0
    && s.daemon == Idle
    && s.inflight == multiset{} && s.live == {}
    && OneEach(c.ip, s.tables) && (forall t :: t in c.transports ==> !Installed(c, s, t))
    && s.calls == [] && s.lost == {} && s.kept == {}
  }

  // The state sequence of a run; None when an action is not enabled.
  ghost function Run(c: Config, s: State, actions: seq<Action>): Option<State>
    decreases |actions|
  {
    if actions == [] then Some(s)
    else if Enabled(c, s, actions[0]) then Run(c, Step(c, s, actions[0]), actions[1..])
    else None
  }

  // ------------------------------------------------------ the queue invariant

  // process_event was called for line n after the line was appended.
  ghost predicate WasCalled(s: State, n: nat)
    requires n < |s.appended|
  {
    exists j :: 0 <= j < |s.calls| && s.calls[j].key == KeyOf(s.appended[n]) && n < s.calls[j].at
  }

  ghost predicate Uncalled(d: Daemon, k: Key) {
    && d.Busy? && d.todo != []
    && (k in d.todo[1..] || (k == d.todo[0] && d.phase == Waiting))
  }

  ghost predicate QueueInv(c: Config, s: State) {
    && s.removed + Taken(s.daemon) <= |s.appended|
    && s.file == Text(c.codec, s.appended[s.removed..])
    && (s.daemon.Busy? ==>
          s.daemon.batch == Text(c.codec, s.appended[s.removed..s.removed + Taken(s.daemon)]))
    && (forall n :: 0 <= n < s.removed ==> WasCalled(s, n))
    && (forall n :: s.removed <= n < s.removed + Taken(s.daemon) ==>
          WasCalled(s, n) || Uncalled(s.daemon, KeyOf(s.appended[n])))
    && (s.daemon.Busy? ==> forall k :: k in s.daemon.todo ==>
          exists n :: s.removed <= n < s.removed + Taken(s.daemon) && KeyOf(s.appended[n]) == k)
  }

  lemma CallsGrow(s: State, t: State)
    requires s.appended <= t.appended && s.calls <= t.calls
    ensures forall n :: 0 <= n < |s.appended| && WasCalled(s, n) ==> WasCalled(t, n)
  {
  }

  lemma AppendKeepsQueue(c: Config, s: State, p: Payload)
    requires ValidConfig(c) && QueueInv(c, s) && Enabled(c, s, Append(p))
    ensures QueueInv(c, Step(c, s, Append(p)))
  {
    var t := Step(c, s, Append(p));
    TextAppend(c.codec, s.appended[s.removed..], [p]);
    assert t.appended[s.removed..] == s.appended[s.removed..] + [p];
    assert t.appended[s.removed..s.removed + Taken(s.daemon)] == s.appended[s.removed..s.removed + Taken(s.daemon)];
    CallsGrow(s, t);
    if s.daemon.Busy? {
      forall k | k in s.daemon.todo
        ensures exists n :: s.removed <= n < s.removed + Taken(s.daemon) && KeyOf(t.appended[n]) == k
      {
        var n :| s.removed <= n < s.removed + Taken(s.daemon) && KeyOf(s.appended[n]) == k;
        assert KeyOf(t.appended[n]) == k;
      }
    }
  }

  lemma {:induction false} BatchOfText(c: Config, ps: seq<Payload>)
    requires ValidCodec(c.codec)
    ensures |SplitLines(Text(c.codec, ps))| == |ps|
    ensures forall k :: k in LastOccurrences(DecodeAll(c.codec, SplitLines(Text(c.codec, ps)))) <==>
              k in KeysOf(ps)
  {
    DecodeText(c.codec, ps);
    CoalescedOrder(KeysOf(ps));
  }

  lemma {:induction false} KeyAt(s: State, k: Key)
    requires s.removed <= |s.appended|
    ensures k in KeysOf(s.appended[s.removed..]) <==>
            exists n :: s.removed <= n < |s.appended| && KeyOf(s.appended[n]) == k
  {
    var ps := s.appended[s.removed..];
    if k in KeysOf(ps) {
      var m :| 0 <= m < |ps| && KeysOf(ps)[m] == k;
      assert KeyOf(s.appended[s.removed + m]) == k;
    }
    if n :| s.removed <= n < |s.appended| && KeyOf(s.appended[n]) == k {
      assert KeysOf(ps)[n - s.removed] == k;
    }
  }

  lemma BusyWith(c: Config, s: State, todo: seq<Key>)
    requires QueueInv(c, s) && s.daemon.Idle?
    requires |SplitLines(s.file)| == |s.appended| - s.removed
    requires forall k :: k in todo <==>
               exists n :: s.removed <= n < |s.appended| && KeyOf(s.appended[n]) == k
    ensures QueueInv(c, s.(daemon := Busy(s.file, todo, Waiting)))
  {
    var t := s.(daemon := Busy(s.file, todo, Waiting));
    assert Taken(t.daemon) == |s.appended| - s.removed;
    assert s.appended[s.removed..|s.appended|] == s.appended[s.removed..];
    CallsGrow(s, t);
    forall n | s.removed <= n < |s.appended|
      ensures Uncalled(t.daemon, KeyOf(s.appended[n]))
    {
      assert KeyOf(s.appended[n]) in todo;
    }
  }

  lemma ReadKeepsQueue(c: Config, s: State)
    requires ValidConfig(c) && QueueInv(c, s) && Enabled(c, s, Read)
    ensures QueueInv(c, Step(c, s, Read))
    ensures Taken(Step(c, s, Read).daemon) == |s.appended| - s.removed
    ensures forall k :: k in Step(c, s, Read).daemon.todo <==>
              exists n :: s.removed <= n < |s.appended| && KeyOf(s.appended[n]) == k
  {
    var todo := Step(c, s, Read).daemon.todo;
    BatchOfText(c, s.appended[s.removed..]);
    forall k ensures k in todo <==>
                     exists n :: s.removed <= n < |s.appended| && KeyOf(s.appended[n]) == k
    {
      KeyAt(s, k);
    }
    BusyWith(c, s, todo);
  }

  lemma CallKeepsQueue(c: Config, s: State)
    requires ValidConfig(c) && QueueInv(c, s) && Enabled(c, s, CallHandler)
    ensures QueueInv(c, Step(c, s, CallHandler))
  {
    var t := Step(c, s, CallHandler);
    CallsGrow(s, t);
    forall n | s.removed <= n < s.removed + Taken(s.daemon)
      ensures WasCalled(t, n) || Uncalled(t.daemon, KeyOf(t.appended[n]))
    {
      if KeyOf(s.appended[n]) == s.daemon.todo[0] {
        assert t.calls[|s.calls|] == Call(s.daemon.todo[0], |s.appended|);
      }
    }
  }

  lemma CutKeepsQueue(c: Config, s: State)
    requires ValidConfig(c) && QueueInv(c, s) && Enabled(c, s, Cut)
    ensures QueueInv(c, Step(c, s, Cut))
    ensures s.daemon.batch <= s.file
    ensures Step(c, s, Cut).file == Text(c.codec, s.appended[s.removed + Taken(s.daemon)..])
  {
    var taken := Taken(s.daemon);
    var batch := s.appended[s.removed..s.removed + taken];
    var rest := s.appended[s.removed + taken..];
    assert s.appended[s.removed..] == batch + rest;
    CutLeavesAppended(c.codec, batch, rest);
    CallsGrow(s, Step(c, s, Cut));
  }

  lemma TailInRange(s: State, todo: seq<Key>, lo: nat, hi: nat)
    requires hi <= |s.appended| && todo != []
    requires forall k :: k in todo ==> exists n :: lo <= n < hi && KeyOf(s.appended[n]) == k
    ensures forall k :: k in todo[1..] ==> exists n :: lo <= n < hi && KeyOf(s.appended[n]) == k
  {
    assert forall k :: k in todo[1..] ==> k in todo;
  }

  lemma UncalledAdvances(d: Daemon)
    requires d.Busy? && d.todo != [] && d.phase != Waiting
    ensures forall k :: Uncalled(d, k) ==> Uncalled(Busy(d.batch, d.todo[1..], Waiting), k)
  {
    forall k | Uncalled(d, k)
      ensures Uncalled(Busy(d.batch, d.todo[1..], Waiting), k)
    {
      var rest := d.todo[1..];
      var j :| 0 <= j < |rest| && rest[j] == k;
      assert j > 0 ==> rest[1..][j - 1] == k;
    }
  }

  lemma AdvanceKeepsQueue(c: Config, s: State, a: Action)
    requires a == Finish || a == Raise
    requires ValidConfig(c) && QueueInv(c, s) && Enabled(c, s, a)
    ensures QueueInv(c, Step(c, s, a))
  {
    var t := Step(c, s, a);
    var hi := s.removed + Taken(s.daemon);
    assert t.daemon == Busy(s.daemon.batch, s.daemon.todo[1..], Waiting);
    UncalledAdvances(s.daemon);
    TailInRange(s, s.daemon.todo, s.removed, hi);
    CallsGrow(s, t);
    SameQueue(c, s, t);
  }

  lemma SameQueue(c: Config, s: State, t: State)
    requires QueueInv(c, s) && s.daemon.Busy? && t.daemon.Busy?
    requires t.file == s.file && t.appended == s.appended && t.removed == s.removed
    requires t.daemon.batch == s.daemon.batch && s.calls <= t.calls
    requires forall k :: Uncalled(s.daemon, k) ==> Uncalled(t.daemon, k)
    requires forall k :: k in t.daemon.todo ==>
               exists n :: s.removed <= n < s.removed + Taken(s.daemon) && KeyOf(s.appended[n]) == k
    ensures QueueInv(c, t)
  {
    CallsGrow(s, t);
    assert Taken(t.daemon) == Taken(s.daemon);
  }

  lemma OtherKeepsQueue(c: Config, s: State, a: Action)
    requires a.IfUp? || a.IfDown? || a.Hook? || a.Check? || a.Command? || a.Crash?
    requires ValidConfig(c) && QueueInv(c, s) && Enabled(c, s, a)
    ensures QueueInv(c, Step(c, s, a))
  {
    hide Execute, CommandsOf, DutyOf, Possible;
    var t := Step(c, s, a);
    CallsGrow(s, t);
    assert !a.Crash? ==> Taken(t.daemon) == Taken(s.daemon);
    assert !a.Crash? ==> forall k :: Uncalled(s.daemon, k) ==> Uncalled(t.daemon, k);
  }

  lemma StepKeepsQueue(c: Config, s: State, a: Action)
    requires ValidConfig(c) && QueueInv(c, s) && Enabled(c, s, a)
    ensures QueueInv(c, Step(c, s, a))
  {
    match a {
      case Append(p) => AppendKeepsQueue(c, s, p);
      case Read => ReadKeepsQueue(c, s);
      case CallHandler => CallKeepsQueue(c, s);
      case Cut => CutKeepsQueue(c, s);
      case Finish => AdvanceKeepsQueue(c, s, a);
      case Raise => AdvanceKeepsQueue(c, s, a);
      case _ => OtherKeepsQueue(c, s, a);
    }
  }

  // -------------------------------------------------------------- whole runs

  lemma {:induction false} RunKeepsQueue(c: Config, s: State, actions: seq<Action>)
    requires ValidConfig(c) && QueueInv(c, s)
    ensures Run(c, s, actions).Some? ==> QueueInv(c, Run(c, s, actions).value)
    decreases |actions|
  {
    if actions != [] && Enabled(c, s, actions[0]) {
      StepKeepsQueue(c, s, actions[0]);
      RunKeepsQueue(c, Step(c, s, actions[0]), actions[1..]);
    }
  }

  lemma QueueInvBounds(c: Config, s: State)
    requires QueueInv(c, s)
    ensures s.removed + Taken(s.daemon) <= |s.appended|
  {
  }

  lemma InitHasQueueInv(c: Config, s: State)
    requires Init(c, s)
    ensures QueueInv(c, s)
  {
    assert s.appended[0..] == s.appended;
  }

  // In every reachable state the file is exactly the lines that were not cut,
  // in the order of appending, and every line that was cut was handed to
  // process_event after it was appended.
  lemma NoLostEvents(c: Config, init: State, actions: seq<Action>)
    requires ValidConfig(c) && Init(c, init)
    requires Run(c, init, actions).Some?
    ensures var s := Run(c, init, actions).value;
            && s.removed <= |s.appended|
            && s.file == Text(c.codec, s.appended[s.removed..])
            && forall n :: 0 <= n < s.removed ==> WasCalled(s, n)
  {
    InitHasQueueInv(c, init);
    RunKeepsQueue(c, init, actions);
  }

  // Whenever the daemon cuts, the file still starts with its batch, so the
  // fallback is unreachable; the rest is what was appended since the read.
  lemma CutIsExact(c: Config, init: State, actions: seq<Action>)
    requires ValidConfig(c) && Init(c, init)
    requires Run(c, init, actions).Some?
    requires Enabled(c, Run(c, init, actions).value, Cut)
    ensures var s := Run(c, init, actions).value;
            && s.daemon.batch <= s.file
            && s.removed + Taken(s.daemon) <= |s.appended|
            && Step(c, s, Cut).file == Text(c.codec, s.appended[s.removed + Taken(s.daemon)..])
  {
    hide Step, Run, Init, QueueInv, ValidConfig, WasCalled, InstalledIn;
    InitHasQueueInv(c, init);
    RunKeepsQueue(c, init, actions);
    CutKeepsQueue(c, Run(c, init, actions).value);
    QueueInvBounds(c, Run(c, init, actions).value);
  }
}
