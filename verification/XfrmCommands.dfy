// The single ip xfrm commands of start and stop, and what they do to the other
// transports (src/dros/plugins/network_xfrm.py:178-201).
module XfrmCommands {
  import opened Sequences
  import opened XfrmInventory
  import opened XfrmListing
  import opened XfrmSections
  import opened XfrmKernel

  datatype Command = Delete(kind: Kind, d: Direction) | Add(kind: Kind, d: Direction)

  // The policies and the states.
  datatype Tables = Tables(policies: seq<KernelEntry>, states: seq<KernelEntry>)

  function Entries(t: Tables, kind: Kind): seq<KernelEntry> {
    if kind.Policies? then t.policies else t.states
  }

  function WithEntries(t: Tables, kind: Kind, entries: seq<KernelEntry>): Tables {
    if kind.Policies? then t.(policies := entries) else t.(states := entries)
  }

  // An addition whose key is taken fails.
  predicate Possible(ip: Addresses, t: Tables, cmd: Command) {
    cmd.Add? ==> Free(ip, cmd.kind, Entries(t, cmd.kind), cmd.d)
  }

  function Execute(ip: Addresses, t: Tables, cmd: Command): Tables {
    match cmd
    case Delete(kind, d) => WithEntries(t, kind, Deleted(ip, kind, Entries(t, kind), d))
    case Add(kind, d) => WithEntries(t, kind, Entries(t, kind) + [EntryOf(ip, kind, d)])
  }

  // _stop_transport and start_xfrm
  function StopCommands(out: Direction, in_: Direction): seq<Command> {
    [Delete(Policies, out), Delete(Policies, in_), Delete(States, out), Delete(States, in_)]
  }

  function StartCommands(out: Direction, in_: Direction): seq<Command> {
    [Delete(Policies, out), Delete(Policies, in_), Delete(States, out), Delete(States, in_),
     Add(States, out), Add(States, in_), Add(Policies, out), Add(Policies, in_)]
  }

  // ------------------------------------------------------- keys and entries

  // The kernel never holds two entries with one key.
  ghost predicate OneEach(ip: Addresses, t: Tables) {
    Unambiguous(ip, Policies, t.policies) && Unambiguous(ip, States, t.states)
  }

  lemma SameHits(ip: Addresses, kind: Kind, e: KernelEntry, d: Direction, other: Direction)
    requires SameIdentity(kind, d, other)
    ensures Hits(ip, kind, e, d) == Hits(ip, kind, e, other)
  {
  }

  lemma {:induction false} RemoveFirstMember<T>(xs: seq<T>, test: T -> bool, x: T)
    ensures x in RemoveFirst(xs, test) ==> x in xs
    ensures x in xs && !test(x) ==> x in RemoveFirst(xs, test)
  {
    if xs != [] && !test(xs[0]) {
      RemoveFirstMember(xs[1..], test, x);
    }
  }

  lemma DeletedFrees(ip: Addresses, kind: Kind, entries: seq<KernelEntry>, d: Direction)
    requires Unambiguous(ip, kind, entries)
    ensures Free(ip, kind, Deleted(ip, kind, entries, d), d) && Unambiguous(ip, kind, Deleted(ip, kind, entries, d))
    ensures forall other :: Free(ip, kind, entries, other) ==> Free(ip, kind, Deleted(ip, kind, entries, d), other)
  {
    hide Hits;
    var test := HitBy(ip, kind, d);
    assert |Filter(entries, test)| <= 1;
    RemoveSole(entries, test);
    FilterTwice(entries, Not(test), test);
    FilterNone(entries, Both(Not(test), test));
    forall other
      ensures |Filter(Deleted(ip, kind, entries, d), HitBy(ip, kind, other))| <= |Filter(entries, HitBy(ip, kind, other))|
    {
      FilterFewer(entries, Not(test), HitBy(ip, kind, other));
    }
  }

  lemma AddedOnce(ip: Addresses, kind: Kind, entries: seq<KernelEntry>, d: Direction)
    requires GoodDirection(ip, d) && Unambiguous(ip, kind, entries) && Free(ip, kind, entries, d)
    ensures Unambiguous(ip, kind, entries + [EntryOf(ip, kind, d)])
    ensures forall other :: Free(ip, kind, entries, other) && !SameIdentity(kind, d, other) ==>
              Free(ip, kind, entries + [EntryOf(ip, kind, d)], other)
  {
    hide Hits, EntryOf, GoodDirection, SameIdentity;
    var e := EntryOf(ip, kind, d);
    forall other
      ensures |Filter(entries + [e], HitBy(ip, kind, other))| <= 1
      ensures Free(ip, kind, entries, other) && !SameIdentity(kind, d, other) ==> Free(ip, kind, entries + [e], other)
    {
      EntryHits(ip, kind, d, other);
      FilterAppend(entries, [e], HitBy(ip, kind, other));
      FilterOfOne(e, HitBy(ip, kind, other));
      if SameIdentity(kind, d, other) {
        forall x: KernelEntry
          ensures Hits(ip, kind, x, d) == Hits(ip, kind, x, other)
        {
          SameHits(ip, kind, x, d, other);
        }
        FilterSame(entries, HitBy(ip, kind, d), HitBy(ip, kind, other));
      }
    }
  }

  lemma FilterOfOne<T>(x: T, test: T -> bool)
    ensures Filter([x], test) == if test(x) then [x] else []
  {
    assert [x][1..] == [];
  }

  lemma ExecuteKeepsOneEach(ip: Addresses, t: Tables, cmd: Command)
    requires OneEach(ip, t) && Possible(ip, t, cmd) && GoodDirection(ip, cmd.d)
    ensures OneEach(ip, Execute(ip, t, cmd))
  {
    hide GoodDirection, Unambiguous, Free;
    match cmd
    case Delete(kind, d) => DeletedFrees(ip, kind, Entries(t, kind), d);
    case Add(kind, d) => AddedOnce(ip, kind, Entries(t, kind), d);
  }

  // ------------------------------------------------------ installed transports

  // Both directions have their policy and their state.
  ghost predicate InstalledIn(ip: Addresses, t: Tables, ds: seq<Direction>) {
    forall i :: 0 <= i < |ds| ==> EntryOf(ip, Policies, ds[i]) in t.policies && EntryOf(ip, States, ds[i]) in t.states
  }

  ghost predicate ShareKey(ds: seq<Direction>, es: seq<Direction>) {
    exists kind: Kind, i, j {:trigger SameIdentity(kind, ds[i], es[j])} ::
      0 <= i < |ds| && 0 <= j < |es| && SameIdentity(kind, ds[i], es[j])
  }

  lemma FreeIsMissing(ip: Addresses, kind: Kind, entries: seq<KernelEntry>, d: Direction)
    requires GoodDirection(ip, d) && Free(ip, kind, entries, d)
    ensures EntryOf(ip, kind, d) !in entries
  {
    hide Hits, EntryOf, GoodDirection;
    EntryHits(ip, kind, d, d);
    SelfIdentity(kind, d);
    FilterMember(entries, HitBy(ip, kind, d), EntryOf(ip, kind, d));
  }

  // A command on one key leaves the entry of another key where it is.
  lemma OtherEntryKept(ip: Addresses, t: Tables, cmd: Command, kind: Kind, d: Direction)
    requires GoodDirection(ip, d) && GoodDirection(ip, cmd.d)
    requires cmd.kind == kind ==> !SameIdentity(kind, d, cmd.d)
    ensures EntryOf(ip, kind, d) in Entries(Execute(ip, t, cmd), kind) <==> EntryOf(ip, kind, d) in Entries(t, kind)
  {
    hide Hits, EntryOf, GoodDirection, SameIdentity;
    if cmd.kind == kind {
      EntryHits(ip, kind, d, cmd.d);
      EntryHits(ip, kind, cmd.d, cmd.d);
      assert SameIdentity(kind, cmd.d, cmd.d) by { SelfIdentity(kind, cmd.d); }
      RemoveFirstMember(Entries(t, kind), HitBy(ip, kind, cmd.d), EntryOf(ip, kind, d));
    }
  }

  lemma OtherStaysInstalled(ip: Addresses, t: Tables, cmd: Command, ds: seq<Direction>)
    requires GoodDirection(ip, cmd.d) && forall i :: 0 <= i < |ds| ==> GoodDirection(ip, ds[i])
    requires forall i :: 0 <= i < |ds| ==> !SameIdentity(cmd.kind, ds[i], cmd.d)
    ensures InstalledIn(ip, Execute(ip, t, cmd), ds) <==> InstalledIn(ip, t, ds)
  {
    hide GoodDirection, EntryOf, SameIdentity, Execute;
    var after := Execute(ip, t, cmd);
    forall i | 0 <= i < |ds|
      ensures EntryOf(ip, Policies, ds[i]) in after.policies <==> EntryOf(ip, Policies, ds[i]) in t.policies
      ensures EntryOf(ip, States, ds[i]) in after.states <==> EntryOf(ip, States, ds[i]) in t.states
    {
      OtherEntryKept(ip, t, cmd, Policies, ds[i]);
      OtherEntryKept(ip, t, cmd, States, ds[i]);
    }
  }

  function Stopped(ip: Addresses, t: Tables, ds: seq<Direction>): Tables {
    Tables(Others(ip, Policies, t.policies, ds), Others(ip, States, t.states, ds))
  }

  function Started(ip: Addresses, t: Tables, ds: seq<Direction>): Tables {
    Tables(Restarted(ip, Policies, t.policies, ds), Restarted(ip, States, t.states, ds))
  }

  // An entry survives a stop exactly when the stopped transport has not its key.
  lemma EntrySurvives(ip: Addresses, kind: Kind, entries: seq<KernelEntry>, ds: seq<Direction>, e: Direction)
    requires GoodDirection(ip, e)
    ensures EntryOf(ip, kind, e) in Others(ip, kind, entries, ds)
       <==> EntryOf(ip, kind, e) in entries && forall i :: 0 <= i < |ds| ==> !SameIdentity(kind, e, ds[i])
  {
    hide Hits, EntryOf, GoodDirection, SameIdentity;
    FilterMember(entries, Not(OneOf(ip, kind, ds)), EntryOf(ip, kind, e));
    forall i | 0 <= i < |ds|
      ensures Hits(ip, kind, EntryOf(ip, kind, e), ds[i]) <==> SameIdentity(kind, e, ds[i])
    {
      EntryHits(ip, kind, e, ds[i]);
    }
  }

  function EntriesFor(ip: Addresses, kind: Kind, es: seq<Direction>): seq<KernelEntry> {
    seq(|es|, i requires 0 <= i < |es| => EntryOf(ip, kind, es[i]))
  }

  lemma EntriesForInstalled(ip: Addresses, es: seq<Direction>)
    ensures InstalledIn(ip, Tables(EntriesFor(ip, Policies, es), EntriesFor(ip, States, es)), es)
  {
    forall i | 0 <= i < |es|
      ensures EntryOf(ip, Policies, es[i]) in EntriesFor(ip, Policies, es)
      ensures EntryOf(ip, States, es[i]) in EntriesFor(ip, States, es)
    {
      assert EntriesFor(ip, Policies, es)[i] == EntryOf(ip, Policies, es[i]);
      assert EntriesFor(ip, States, es)[i] == EntryOf(ip, States, es[i]);
    }
  }

  lemma ApartSurvives(ip: Addresses, t: Tables, ds: seq<Direction>, es: seq<Direction>)
    requires forall i :: 0 <= i < |es| ==> GoodDirection(ip, es[i])
    requires !ShareKey(es, ds) && InstalledIn(ip, t, es)
    ensures InstalledIn(ip, Stopped(ip, t, ds), es)
  {
    hide GoodDirection, EntryOf, SameIdentity, Others;
    forall i | 0 <= i < |es|
      ensures EntryOf(ip, Policies, es[i]) in Stopped(ip, t, ds).policies
      ensures EntryOf(ip, States, es[i]) in Stopped(ip, t, ds).states
    {
      EntrySurvives(ip, Policies, t.policies, ds, es[i]);
      EntrySurvives(ip, States, t.states, ds, es[i]);
    }
  }

  // A stop takes away what shares a key with it.
  lemma SharedIsGone(ip: Addresses, t: Tables, ds: seq<Direction>, es: seq<Direction>)
    requires forall i :: 0 <= i < |es| ==> GoodDirection(ip, es[i])
    requires ShareKey(es, ds)
    ensures !InstalledIn(ip, Stopped(ip, t, ds), es)
  {
    hide GoodDirection, EntryOf, SameIdentity, Others;
    var kind: Kind, i, j :| 0 <= i < |es| && 0 <= j < |ds| && SameIdentity(kind, es[i], ds[j]);
    EntrySurvives(ip, kind, Entries(t, kind), ds, es[i]);
  }

  // Stopping a transport leaves another one installed, whatever else the kernel
  // holds, if and only if the two share no key.
  lemma UndisturbedIff(ip: Addresses, ds: seq<Direction>, es: seq<Direction>)
    requires forall i :: 0 <= i < |es| ==> GoodDirection(ip, es[i])
    ensures (forall t :: InstalledIn(ip, t, es) ==> InstalledIn(ip, Stopped(ip, t, ds), es)) <==> !ShareKey(es, ds)
  {
    hide GoodDirection, ShareKey, InstalledIn, Stopped, EntriesFor;
    forall t | !ShareKey(es, ds) && InstalledIn(ip, t, es)
      ensures InstalledIn(ip, Stopped(ip, t, ds), es)
    {
      ApartSurvives(ip, t, ds, es);
    }
    if ShareKey(es, ds) {
      var t := Tables(EntriesFor(ip, Policies, es), EntriesFor(ip, States, es));
      EntriesForInstalled(ip, es);
      SharedIsGone(ip, t, ds, es);
    }
  }

  // ------------------------------------------------- the commands in sequence

  function ExecuteAll(ip: Addresses, t: Tables, cmds: seq<Command>): Tables {
    if cmds == [] then t else Execute(ip, ExecuteAll(ip, t, cmds[..|cmds| - 1]), cmds[|cmds| - 1])
  }

  ghost predicate AllPossible(ip: Addresses, t: Tables, cmds: seq<Command>) {
    forall i :: 0 <= i < |cmds| ==> Possible(ip, ExecuteAll(ip, t, cmds[..i]), cmds[i])
  }

  lemma ExecuteNext(ip: Addresses, t: Tables, cmds: seq<Command>, i: nat)
    requires i < |cmds|
    ensures ExecuteAll(ip, t, cmds[..i + 1]) == Execute(ip, ExecuteAll(ip, t, cmds[..i]), cmds[i])
  {
    assert cmds[..i + 1][..i] == cmds[..i];
  }

  // The four deletions, whatever follows them.
  lemma DeletionsStop(ip: Addresses, t: Tables, out: Direction, in_: Direction, cmds: seq<Command>)
    requires OneEach(ip, t) && |cmds| >= 4 && cmds[..4] == StopCommands(out, in_)
    ensures ExecuteAll(ip, t, cmds[..4]) == Stopped(ip, t, [out, in_])
  {
    hide Execute, Others, Deleted, ExecuteAll, Unambiguous;
    var ds := [out, in_];
    StopOne(ip, Policies, t.policies, ds);
    StopOne(ip, States, t.states, ds);
    assert ExecuteAll(ip, t, cmds[..0]) == t by { NoCommands(ip, t, cmds[..0]); }
    ExecuteNext(ip, t, cmds, 0);
    ExecuteNext(ip, t, cmds, 1);
    ExecuteNext(ip, t, cmds, 2);
    ExecuteNext(ip, t, cmds, 3);
    assert cmds[0] == cmds[..4][0] && cmds[1] == cmds[..4][1] && cmds[2] == cmds[..4][2] && cmds[3] == cmds[..4][3];
    DeleteExecutes(ip, t, Policies, out);
    var t1 := t.(policies := Deleted(ip, Policies, t.policies, out));
    DeleteExecutes(ip, t1, Policies, in_);
    var t2 := t.(policies := Others(ip, Policies, t.policies, ds));
    DeleteExecutes(ip, t2, States, out);
    DeleteExecutes(ip, t2.(states := Deleted(ip, States, t.states, out)), States, in_);
  }

  lemma NoCommands(ip: Addresses, t: Tables, cmds: seq<Command>)
    requires cmds == []
    ensures ExecuteAll(ip, t, cmds) == t
  {
  }

  lemma DeleteExecutes(ip: Addresses, t: Tables, kind: Kind, d: Direction)
    ensures Execute(ip, t, Delete(kind, d)) == WithEntries(t, kind, Deleted(ip, kind, Entries(t, kind), d))
  {
  }

  lemma AddExecutes(ip: Addresses, t: Tables, kind: Kind, d: Direction)
    ensures Execute(ip, t, Add(kind, d)) == WithEntries(t, kind, Entries(t, kind) + [EntryOf(ip, kind, d)])
  {
  }

  lemma StopOne(ip: Addresses, kind: Kind, entries: seq<KernelEntry>, ds: seq<Direction>)
    requires Unambiguous(ip, kind, entries) && |ds| == 2
    ensures Deleted(ip, kind, Deleted(ip, kind, entries, ds[0]), ds[1]) == Others(ip, kind, entries, ds)
  {
    hide Others, Deleted;
    OthersNone(ip, kind, entries);
    assert ds[..0] == [] && ds[..2] == ds;
    DeleteNext(ip, kind, entries, ds, 0);
    DeleteNext(ip, kind, entries, ds, 1);
  }

  // Run to the end, the commands of a start do what start_xfrm does.
  lemma CommandsStart(ip: Addresses, t: Tables, out: Direction, in_: Direction)
    requires OneEach(ip, t) && GoodDirection(ip, out) && GoodDirection(ip, in_)
    requires !SameIdentity(Policies, out, in_) && !SameIdentity(States, out, in_)
    ensures ExecuteAll(ip, t, StartCommands(out, in_)) == Started(ip, t, [out, in_])
    ensures AllPossible(ip, t, StartCommands(out, in_))
  {
    hide Execute, Others, ExecuteAll, Unambiguous, Free, GoodDirection, EntryOf, SameIdentity;
    var cmds, ds := StartCommands(out, in_), [out, in_];
    assert cmds[..4] == StopCommands(out, in_);
    DeletionsStop(ip, t, out, in_, cmds);
    var p, s := Others(ip, Policies, t.policies, ds), Others(ip, States, t.states, ds);
    var po, so := EntryOf(ip, Policies, out), EntryOf(ip, States, out);
    AddTwo(ip, Policies, t.policies, ds);
    AddTwo(ip, States, t.states, ds);
    ExecuteNext(ip, t, cmds, 4);
    AddExecutes(ip, Tables(p, s), States, out);
    ExecuteNext(ip, t, cmds, 5);
    AddExecutes(ip, Tables(p, s + [so]), States, in_);
    ExecuteNext(ip, t, cmds, 6);
    AddExecutes(ip, Tables(p, Restarted(ip, States, t.states, ds)), Policies, out);
    ExecuteNext(ip, t, cmds, 7);
    AddExecutes(ip, Tables(p + [po], Restarted(ip, States, t.states, ds)), Policies, in_);
    assert cmds[..8] == cmds;
  }

  // A start whose directions collide on their states gets no further than the
  // addition of the second one.
  lemma CommandsCollide(ip: Addresses, t: Tables, out: Direction, in_: Direction)
    requires OneEach(ip, t) && GoodDirection(ip, out) && SameIdentity(States, out, in_)
    ensures ExecuteAll(ip, t, StartCommands(out, in_)[..5])
         == Tables(Others(ip, Policies, t.policies, [out, in_]),
                   Others(ip, States, t.states, [out, in_]) + [EntryOf(ip, States, out)])
    ensures !Possible(ip, ExecuteAll(ip, t, StartCommands(out, in_)[..5]), StartCommands(out, in_)[5])
  {
    hide Hits, Execute, Others, ExecuteAll, Unambiguous, GoodDirection, EntryOf, SameIdentity;
    var cmds, ds := StartCommands(out, in_), [out, in_];
    assert cmds[..4] == StopCommands(out, in_);
    DeletionsStop(ip, t, out, in_, cmds);
    var p, s := Others(ip, Policies, t.policies, ds), Others(ip, States, t.states, ds);
    ExecuteNext(ip, t, cmds, 4);
    AddExecutes(ip, Tables(p, s), States, out);
    EntryHits(ip, States, out, in_);
    FilterAppend(s, [EntryOf(ip, States, out)], HitBy(ip, States, in_));
    FilterOfOne(EntryOf(ip, States, out), HitBy(ip, States, in_));
  }

  lemma AddTwo(ip: Addresses, kind: Kind, entries: seq<KernelEntry>, ds: seq<Direction>)
    requires |ds| == 2 && GoodDirection(ip, ds[0]) && GoodDirection(ip, ds[1]) && !SameIdentity(kind, ds[0], ds[1])
    ensures Free(ip, kind, Others(ip, kind, entries, ds), ds[0])
    ensures Free(ip, kind, Others(ip, kind, entries, ds) + [EntryOf(ip, kind, ds[0])], ds[1])
    ensures Others(ip, kind, entries, ds) + [EntryOf(ip, kind, ds[0])] + [EntryOf(ip, kind, ds[1])]
         == Restarted(ip, kind, entries, ds)
  {
    hide Hits, EntryOf, GoodDirection, SameIdentity, Others;
    OthersHaveNone(ip, kind, entries, ds);
    EntryHits(ip, kind, ds[0], ds[1]);
    FilterAppend(Others(ip, kind, entries, ds), [EntryOf(ip, kind, ds[0])], HitBy(ip, kind, ds[1]));
    FilterOfOne(EntryOf(ip, kind, ds[0]), HitBy(ip, kind, ds[1]));
    assert seq(2, i requires 0 <= i < 2 => EntryOf(ip, kind, ds[i])) == [EntryOf(ip, kind, ds[0])] + [EntryOf(ip, kind, ds[1])];
  }
}
