// The scoped, fail-closed uninstall of one transport's policies and states
// (src/dros/xfrm_delete.py:416-462 and 510-522).
module XfrmUninstall {
  import opened Wrappers
  import opened Sequences
  import opened Numerals
  import opened XfrmInventory
  import opened XfrmKernel

  // ------------------------------------------------------- foreign consumers

  // Whether a template can use the states of the direction; None raises.
  function TemplateUses(ip: Addresses, t: Fields, d: Direction): Option<bool> {
    if "proto" !in t then None
    else if Proto(Get(t, "proto")) != "esp" then Some(false)
    else if "mode" !in t then None
    else if t["mode"] != "transport" then Some(false)
    else if HostOf(ip, t, "src").None? then None
    else if HostOf(ip, t, "src").value !in {d.src, "0.0.0.0", "::"} then Some(false)
    else if HostOf(ip, t, "dst").None? then None
    else if HostOf(ip, t, "dst").value !in {d.dst, "0.0.0.0", "::"} then Some(false)
    else if "reqid" in t && IntegerOf(t, "reqid").None? then None
    else if "reqid" in t && IntegerOf(t, "reqid").value !in {0, d.reqid} then Some(false)
    else if "spi" in t && IntegerOf(t, "spi").None? then None
    else Some("spi" in t ==> IntegerOf(t, "spi").value in {0, d.spi})
  }

  predicate Wildcard(a: string) {
    a == "0.0.0.0" || a == "::"
  }

  // An address field that is the wanted one or stands for every address.
  predicate Covers(a: Option<string>, wanted: string) {
    a.Some? && (a.value == wanted || Wildcard(a.value))
  }

  // A number field that is left out, is the wanted one or stands for every number.
  predicate Allows(t: Fields, name: string, wanted: nat) {
    name in t ==> var n := IntegerOf(t, name); n.Some? && (n.value == wanted || n.value == 0)
  }

  // A template uses the states of a direction exactly when it asks for ESP in
  // transport mode and no address, request id or SPI speaks against it.
  lemma UsesIff(ip: Addresses, t: Fields, d: Direction)
    ensures TemplateUses(ip, t, d) == Some(true) <==>
              && "proto" in t && Proto(Some(t["proto"])) == "esp" && Get(t, "mode") == Some("transport")
              && Covers(HostOf(ip, t, "src"), d.src) && Covers(HostOf(ip, t, "dst"), d.dst)
              && Allows(t, "reqid", d.reqid) && Allows(t, "spi", d.spi)
  {
    hide Proto, HostOf, ParseInteger;
  }

  // It is passed over only for a field that was read and differs, and it can be
  // judged whenever all its fields can be read.
  lemma PassedOverFor(ip: Addresses, t: Fields, d: Direction)
    ensures TemplateUses(ip, t, d) == Some(false) ==>
              || ("proto" in t && Proto(Some(t["proto"])) != "esp")
              || ("mode" in t && t["mode"] != "transport")
              || (HostOf(ip, t, "src").Some? && !Covers(HostOf(ip, t, "src"), d.src))
              || (HostOf(ip, t, "dst").Some? && !Covers(HostOf(ip, t, "dst"), d.dst))
              || (IntegerOf(t, "reqid").Some? && !Allows(t, "reqid", d.reqid))
              || (IntegerOf(t, "spi").Some? && !Allows(t, "spi", d.spi))
    ensures (&& "proto" in t && "mode" in t && HostOf(ip, t, "src").Some? && HostOf(ip, t, "dst").Some?
             && ("reqid" in t ==> IntegerOf(t, "reqid").Some?) && ("spi" in t ==> IntegerOf(t, "spi").Some?))
            ==> TemplateUses(ip, t, d).Some?
  {
    hide Proto, HostOf, ParseInteger;
  }

  // any(...) over the directions, where an earlier hit hides a later error.
  function AnyUses(ip: Addresses, t: Fields, ds: seq<Direction>): Option<bool> {
    if ds == [] then Some(false)
    else
      match TemplateUses(ip, t, ds[0])
      case None => None
      case Some(uses) => if uses then Some(true) else AnyUses(ip, t, ds[1..])
  }

  predicate IsOwnIdentity(ip: Addresses, item: Record, ds: seq<Direction>) {
    exists i :: 0 <= i < |ds| && PolicyIdentity(ip, item) == Some(TargetPolicyId(ds[i]))
  }

  // One policy of the listing stands in nobody's way: it is a policy of the
  // transport itself, or none of its templates can use the transport's states.
  predicate Unrelated(ip: Addresses, item: Record, ds: seq<Direction>) {
    && PolicyIdentity(ip, item).Some?
    && (IsOwnIdentity(ip, item, ds) || forall t :: t in item.tmpl ==> AnyUses(ip, t, ds) == Some(false))
  }

  // The directions are asked in turn, up to the first that says yes or raises.
  lemma {:induction false} AnyUsesIff(ip: Addresses, t: Fields, ds: seq<Direction>)
    ensures AnyUses(ip, t, ds) == Some(false) <==> forall i :: 0 <= i < |ds| ==> TemplateUses(ip, t, ds[i]) == Some(false)
    ensures AnyUses(ip, t, ds) == Some(true) <==>
              exists i :: 0 <= i < |ds| && TemplateUses(ip, t, ds[i]) == Some(true)
                          && forall j :: 0 <= j < i ==> TemplateUses(ip, t, ds[j]) == Some(false)
  {
    hide TemplateUses;
    if ds != [] {
      AnyUsesIff(ip, t, ds[1..]);
      assert forall i :: 0 < i < |ds| ==> ds[i] == ds[1..][i - 1];
      if i :| 0 <= i < |ds[1..]| && TemplateUses(ip, t, ds[1..][i]) == Some(true)
              && forall j :: 0 <= j < i ==> TemplateUses(ip, t, ds[1..][j]) == Some(false)
      {
        assert ds[i + 1] == ds[1..][i];
      }
    }
  }

  lemma OwnIdentityIff(ip: Addresses, item: Record, ds: seq<Direction>)
    ensures PolicyIdentity(ip, item).Some? <==>
              HostOf(ip, PolicySelector(item), "src").Some? && HostOf(ip, PolicySelector(item), "dst").Some?
    ensures IsOwnIdentity(ip, item, ds) <==> exists d :: d in ds && Matches(ip, Policies, item, d) == Some(true)
  {
    hide HostOf, TargetPolicyId, PolicySelector, Proto;
    if i :| 0 <= i < |ds| && PolicyIdentity(ip, item) == Some(TargetPolicyId(ds[i])) {
      assert ds[i] in ds && Matches(ip, Policies, item, ds[i]) == Some(true);
    }
  }

  // A listed policy passes if it can be read and is one of the transport's own, or
  // no template of it can use a state of the transport.
  lemma UnrelatedIff(ip: Addresses, item: Record, ds: seq<Direction>)
    ensures Unrelated(ip, item, ds) <==>
              && HostOf(ip, PolicySelector(item), "src").Some? && HostOf(ip, PolicySelector(item), "dst").Some?
              && ((exists d :: d in ds && Matches(ip, Policies, item, d) == Some(true))
                  || forall t, d :: t in item.tmpl && d in ds ==> TemplateUses(ip, t, d) == Some(false))
  {
    hide TemplateUses, HostOf, Matches, PolicySelector, PolicyIdentity, IsOwnIdentity;
    OwnIdentityIff(ip, item, ds);
    forall t | t in item.tmpl
      ensures AnyUses(ip, t, ds) == Some(false) <==> forall d :: d in ds ==> TemplateUses(ip, t, d) == Some(false)
    {
      AnyUsesIff(ip, t, ds);
    }
    hide AnyUses;
  }

  // _check_policy_consumers
  method CheckPolicyConsumers(ip: Addresses, items: seq<Record>, ds: seq<Direction>) returns (ok: bool)
    ensures ok <==> forall i :: 0 <= i < |items| ==> Unrelated(ip, items[i], ds)
  {
    for i := 0 to |items|
      invariant forall j :: 0 <= j < i ==> Unrelated(ip, items[j], ds)
    {
      if PolicyIdentity(ip, items[i]).None? {
        return false;
      }
      if !IsOwnIdentity(ip, items[i], ds) {
        for n := 0 to |items[i].tmpl|
          invariant forall m :: 0 <= m < n ==> AnyUses(ip, items[i].tmpl[m], ds) == Some(false)
        {
          if AnyUses(ip, items[i].tmpl[n], ds) != Some(false) {
            assert items[i].tmpl[n] in items[i].tmpl;
            return false;
          }
        }
      }
    }
    return true;
  }

  // A template that can use the states of one direction, by wildcards or by
  // name, makes its policy a consumer, whatever the other directions say.
  lemma {:induction false} WildcardIsConsumer(ip: Addresses, t: Fields, ds: seq<Direction>, i: nat)
    requires i < |ds| && TemplateUses(ip, t, ds[i]) == Some(true)
    ensures AnyUses(ip, t, ds) != Some(false)
  {
    if i > 0 {
      WildcardIsConsumer(ip, t, ds[1..], i - 1);
    }
  }

  // -------------------------------------------------------------- inspection

  ghost predicate Unshared(ip: Addresses, policies: seq<Record>, ds: seq<Direction>) {
    forall i :: 0 <= i < |policies| ==> Unrelated(ip, policies[i], ds)
  }

  ghost predicate Answerable(ip: Addresses, kind: Kind, items: seq<Record>, ds: seq<Direction>) {
    forall i :: 0 <= i < |ds| ==> MatchingOf(ip, kind, items, ds[i]).Success?
  }

  ghost predicate Inspectable(ip: Addresses, policies: seq<Record>, states: seq<Record>, ds: seq<Direction>) {
    Unshared(ip, policies, ds) && Answerable(ip, Policies, policies, ds) && Answerable(ip, States, states, ds)
  }

  // A listed entry that passes the ownership test shows no scope, so the kernel's
  // key for it is plain.
  ghost predicate Truthful(ip: Addresses, kind: Kind, entries: seq<KernelEntry>) {
    forall e, d :: e in entries && Matches(ip, kind, e.record, d) == Some(true) && Owned(ip, kind, e.record, d) ==> e.plain
  }

  function Present(ip: Addresses, kind: Kind, items: seq<Record>, ds: seq<Direction>): seq<bool> {
    seq(|ds|, i requires 0 <= i < |ds| => MatchingOf(ip, kind, items, ds[i]) == Success(true))
  }

  method MatchAll(ip: Addresses, kind: Kind, items: seq<Record>, ds: seq<Direction>)
    returns (present: Option<seq<bool>>)
    ensures present.Some? <==> Answerable(ip, kind, items, ds)
    ensures present.Some? ==> present.value == Present(ip, kind, items, ds)
  {
    hide MatchingOf;
    var answers: seq<bool> := [];
    for i := 0 to |ds|
      invariant forall j :: 0 <= j < i ==> MatchingOf(ip, kind, items, ds[j]).Success?
      invariant |answers| == i
      invariant forall j :: 0 <= j < i ==> answers[j] == (MatchingOf(ip, kind, items, ds[j]) == Success(true))
    {
      var answer := Matching(ip, kind, items, ds[i]);
      if answer.Failure? {
        return None;
      }
      answers := answers + [answer.value];
    }
    return Some(answers);
  }

  // inspect_xfrm. None raises: a listing command failed, or the listing does
  // not prove exclusive ownership.
  method InspectXfrm(ip: Addresses, k: Kernel, ds: seq<Direction>)
    returns (present: Option<(seq<bool>, seq<bool>)>)
    ensures present.Some? ==> Inspectable(ip, Listed(k.policies), Listed(k.states), ds)
    ensures present.Some? ==>
              present.value == (Present(ip, Policies, Listed(k.policies), ds), Present(ip, States, Listed(k.states), ds))
  {
    var broken: bool := *;
    if broken {
      return None;
    }
    var unshared := CheckPolicyConsumers(ip, Listed(k.policies), ds);
    if !unshared {
      return None;
    }
    var policies := MatchAll(ip, Policies, Listed(k.policies), ds);
    if policies.None? {
      return None;
    }
    var states := MatchAll(ip, States, Listed(k.states), ds);
    if states.None? {
      return None;
    }
    return Some((policies.value, states.value));
  }

  // --------------------------------------------------------------- uninstall

  datatype Outcome = Done | PreflightFailed | CommandFailed | VerifyFailed | Remains

  // The kernel after any number of the deletions, policies before states.
  ghost predicate PartlyGone(
    ip: Addresses, p0: seq<KernelEntry>, s0: seq<KernelEntry>, p: seq<KernelEntry>, s: seq<KernelEntry>, ds: seq<Direction>)
  {
    exists i, j :: 0 <= i <= |ds| && 0 <= j <= |ds| && (j > 0 ==> i == |ds|)
                   && p == Others(ip, Policies, p0, ds[..i]) && s == Others(ip, States, s0, ds[..j])
  }

  lemma SkipNext(ip: Addresses, kind: Kind, entries: seq<KernelEntry>, ds: seq<Direction>, i: nat)
    requires i < |ds| && Free(ip, kind, entries, ds[i])
    ensures Others(ip, kind, entries, ds[..i + 1]) == Others(ip, kind, entries, ds[..i])
  {
    var test := HitBy(ip, kind, ds[i]);
    var others := Others(ip, kind, entries, ds[..i]);
    FilterFewer(entries, Not(OneOf(ip, kind, ds[..i])), test);
    FilterNone(others, test);
    FilterAll(others, Not(test));
    OthersNext(ip, kind, entries, ds, i);
  }

  // What the inspection's answer says of the entry a command names: the one
  // candidate is hit, or nothing is.
  lemma AnswerIsHit(ip: Addresses, kind: Kind, entries: seq<KernelEntry>, d: Direction)
    requires Truthful(ip, kind, entries) && MatchingOf(ip, kind, Listed(entries), d).Success?
    ensures |Filter(entries, HitBy(ip, kind, d))| <= 1
    ensures MatchingOf(ip, kind, Listed(entries), d) != Success(true) ==> Free(ip, kind, entries, d)
    ensures forall e :: e in entries && Matches(ip, kind, e.record, d) == Some(true) ==> Hits(ip, kind, e, d)
  {
    hide Matches, Owned, MatchingOf;
    var listed, test := Listed(entries), HitBy(ip, kind, d);
    MatchingIsUniqueOwned(ip, kind, listed, d);
    TwoAnswers(MatchingOf(ip, kind, listed, d));
    if i :| Sole(ip, kind, listed, d, i) && Owned(ip, kind, listed[i], d) {
      forall j | 0 <= j < |entries|
        ensures Matches(ip, kind, entries[j].record, d) == Some(true) <==> j == i
      {
        assert listed[j] == entries[j].record;
        assert HasIdentity(ip, kind, d)(listed[j]) <==> j == i;
      }
      assert entries[i] in entries;
      assert Only(entries, test, i);
      FilterOnly(entries, test, i);
    } else {
      forall j | 0 <= j < |entries|
        ensures Matches(ip, kind, entries[j].record, d) != Some(true)
      {
        assert listed[j] == entries[j].record;
        if Matches(ip, kind, listed[j], d).Some? && Matches(ip, kind, listed[j], d).value {}
      }
      FilterNone(entries, test);
    }
  }

  // Deletes the present entries of one kind. A command that fails may still
  // have taken effect.
  method DeletePresent(ip: Addresses, k: Kernel, kind: Kind, ds: seq<Direction>, present: seq<bool>)
    returns (ok: bool)
    requires Truthful(ip, kind, k.Entries(kind)) && Answerable(ip, kind, Listed(k.Entries(kind)), ds)
    requires present == Present(ip, kind, Listed(k.Entries(kind)), ds)
    modifies k
    ensures ok ==> k.Entries(kind) == Others(ip, kind, old(k.Entries(kind)), ds)
    ensures exists i :: 0 <= i <= |ds| && k.Entries(kind) == Others(ip, kind, old(k.Entries(kind)), ds[..i])
    ensures forall other: Kind :: other != kind ==> k.Entries(other) == old(k.Entries(other))
  {
    hide Others, Truthful, MatchingOf;
    ghost var entries := k.Entries(kind);
    OthersNone(ip, kind, entries);
    assert ds[..0] == [] && ds[..|ds|] == ds;
    for i := 0 to |ds|
      invariant k.Entries(kind) == Others(ip, kind, entries, ds[..i])
      invariant forall other: Kind :: other != kind ==> k.Entries(other) == old(k.Entries(other))
    {
      AnswerIsHit(ip, kind, entries, ds[i]);
      if present[i] {
        DeleteNext(ip, kind, entries, ds, i);
        var broken, late: bool := *, *;
        if broken && !late {
          return false;
        }
        var found := k.DeleteEntry(ip, kind, ds[i]);
        if broken || !found {
          return false;
        }
      } else {
        SkipNext(ip, kind, entries, ds, i);
      }
    }
    return true;
  }

  lemma TwoAnswers(r: Result<bool, Refusal>)
    ensures r.Failure? || r == Success(true) || r == Success(false)
  {
    if r.Success? && r.value {
    }
  }

  // The inspection's conditions survive the deletions, and it finds nothing.
  lemma GoneIsAbsent(ip: Addresses, kind: Kind, entries: seq<KernelEntry>, ds: seq<Direction>)
    requires Truthful(ip, kind, entries) && Answerable(ip, kind, Listed(entries), ds)
    ensures forall i :: 0 <= i < |ds| ==>
              MatchingOf(ip, kind, Listed(Others(ip, kind, entries, ds)), ds[i]) == Success(false)
  {
    hide Matches, MatchingOf, Owned, Truthful;
    forall i | 0 <= i < |ds|
      ensures MatchingOf(ip, kind, Listed(Others(ip, kind, entries, ds)), ds[i]) == Success(false)
    {
      var others := Others(ip, kind, entries, ds);
      MatchingIsUniqueOwned(ip, kind, Listed(entries), ds[i]);
      MatchingIsUniqueOwned(ip, kind, Listed(others), ds[i]);
      AnswerIsHit(ip, kind, entries, ds[i]);
      TwoAnswers(MatchingOf(ip, kind, Listed(entries), ds[i]));
      forall j | 0 <= j < |others|
        ensures Matches(ip, kind, others[j].record, ds[i]) == Some(false)
      {
        FilterMember(entries, Not(OneOf(ip, kind, ds)), others[j]);
        var n :| 0 <= n < |entries| && entries[n] == others[j];
        assert Matches(ip, kind, Listed(entries)[n], ds[i]).Some?;
        assert Matches(ip, kind, others[j].record, ds[i]) != Some(true);
        if Matches(ip, kind, others[j].record, ds[i]).value {
        }
      }
    }
  }

  // uninstall_xfrm
  method UninstallXfrm(ip: Addresses, k: Kernel, ds: seq<Direction>) returns (outcome: Outcome)
    requires Truthful(ip, Policies, k.policies) && Truthful(ip, States, k.states)
    modifies k
    ensures !Inspectable(ip, Listed(old(k.policies)), Listed(old(k.states)), ds) ==> outcome == PreflightFailed
    ensures outcome == PreflightFailed ==> k.policies == old(k.policies) && k.states == old(k.states)
    ensures outcome == Done ==>
              && k.policies == Others(ip, Policies, old(k.policies), ds)
              && k.states == Others(ip, States, old(k.states), ds)
    ensures outcome != Remains
    ensures PartlyGone(ip, old(k.policies), old(k.states), k.policies, k.states, ds)
  {
    hide Others, Answerable, MatchingOf, Unrelated, Truthful;
    ghost var p0, s0 := k.policies, k.states;
    OthersNone(ip, Policies, p0);
    OthersNone(ip, States, s0);
    assert ds[..0] == [] && ds[..|ds|] == ds;
    var present := InspectXfrm(ip, k, ds);
    if present.None? {
      return PreflightFailed;
    }
    assert k.Entries(Policies) == p0 && k.Entries(States) == s0;
    var ok := DeletePresent(ip, k, Policies, ds, present.value.0);
    assert k.Entries(Policies) == k.policies && k.Entries(States) == k.states;
    if !ok {
      return CommandFailed;
    }
    ok := DeletePresent(ip, k, States, ds, present.value.1);
    assert k.Entries(Policies) == k.policies && k.Entries(States) == k.states;
    if !ok {
      return CommandFailed;
    }
    present := InspectXfrm(ip, k, ds);
    if present.None? {
      return VerifyFailed;
    }
    GoneIsAbsent(ip, Policies, p0, ds);
    GoneIsAbsent(ip, States, s0, ds);
    if true in present.value.0 || true in present.value.1 {
      return Remains;
    }
    return Done;
  }

  // What Done means for one direction, without reference to the deletions: the
  // entry that went, if any, was the only one listed with the identity and
  // passed the ownership test, none is listed with the identity now, and every
  // entry with neither identity is where it was.
  lemma DoneIsExact(ip: Addresses, kind: Kind, entries: seq<KernelEntry>, ds: seq<Direction>, i: nat)
    requires i < |ds| && Truthful(ip, kind, entries) && Answerable(ip, kind, Listed(entries), ds)
    ensures || Candidates(ip, kind, Listed(entries), ds[i]) == []
            || exists n :: Sole(ip, kind, Listed(entries), ds[i], n) && Owned(ip, kind, entries[n].record, ds[i])
    ensures forall e :: e in Others(ip, kind, entries, ds) ==> Matches(ip, kind, e.record, ds[i]) == Some(false)
    ensures forall e :: e in Others(ip, kind, entries, ds) <==>
              e in entries && forall j :: 0 <= j < |ds| ==> Matches(ip, kind, e.record, ds[j]) != Some(true)
  {
    hide Matches, MatchingOf, Owned, Truthful;
    var others := Others(ip, kind, entries, ds);
    GoneIsAbsent(ip, kind, entries, ds);
    MatchingIsUniqueOwned(ip, kind, Listed(entries), ds[i]);
    MatchingIsUniqueOwned(ip, kind, Listed(others), ds[i]);
    FilterNone(Listed(entries), HasIdentity(ip, kind, ds[i]));
    TwoAnswers(MatchingOf(ip, kind, Listed(entries), ds[i]));
    forall e | e in others
      ensures Matches(ip, kind, e.record, ds[i]) == Some(false)
    {
      var n :| 0 <= n < |others| && others[n] == e;
      assert Listed(others)[n] == e.record;
    }
    forall e
      ensures e in others <==>
                e in entries && forall j :: 0 <= j < |ds| ==> Matches(ip, kind, e.record, ds[j]) != Some(true)
    {
      FilterMember(entries, Not(OneOf(ip, kind, ds)), e);
      forall j | 0 <= j < |ds| && e in entries
        ensures Hits(ip, kind, e, ds[j]) <==> Matches(ip, kind, e.record, ds[j]) == Some(true)
      {
        AnswerIsHit(ip, kind, entries, ds[j]);
      }
    }
  }

  // Taking entries away keeps the listing truthful.
  lemma FewerTruthful(ip: Addresses, kind: Kind, entries: seq<KernelEntry>, fewer: seq<KernelEntry>)
    requires Truthful(ip, kind, entries) && forall e :: e in fewer ==> e in entries
    ensures Truthful(ip, kind, fewer)
  {
  }
}
