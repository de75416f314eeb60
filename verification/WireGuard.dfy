// The script that reconciles the peers of a WireGuard interface
// (src/dros/plugins/network_interfaces.py:981-1059 and 1098-1111).
module WireGuard {
  import opened Wrappers

  // What the kernel holds for one interface name.
  datatype Device = Device(present: bool, ownKey: string, peers: set<string>)

  // The generated configuration: the public key that belongs to an inline
  // private key, and the public keys of the peers.
  datatype Conf = Conf(key: Option<string>, peers: seq<string>)

  function KeySet(keys: seq<string>): set<string> {
    set k | k in keys
  }

  function Configured(c: Conf): set<string> {
    KeySet(c.peers)
  }

  // wg addconf: peers are added to those that are there, and the kernel never
  // keeps a peer with the interface's own key.
  function Added(d: Device, c: Conf): Device {
    var key := if c.key.Some? then c.key.value else d.ownKey;
    d.(ownKey := key, peers := d.peers + Configured(c) - {key})
  }

  // The device an undisturbed run leaves.
  function Reconciled(d: Device, c: Conf): Device {
    var added := Added(d, c);
    added.(peers := Configured(c) - {added.ownKey})
  }

  // An inline key replaces the interface's own; exactly the configured peers are
  // there afterwards, except one with that key.
  lemma ReconciledHolds(d: Device, c: Conf, peer: string)
    ensures Reconciled(d, c).present == d.present
    ensures c.key == None ==> Reconciled(d, c).ownKey == Added(d, c).ownKey == d.ownKey
    ensures c.key != None ==> Some(Reconciled(d, c).ownKey) == Some(Added(d, c).ownKey) == c.key
    ensures peer in Reconciled(d, c).peers <==> peer in c.peers && peer != Reconciled(d, c).ownKey
    ensures peer in Added(d, c).peers <==> (peer in c.peers || peer in d.peers) && peer != Added(d, c).ownKey
  {
  }

  // What a command of the script was told.
  datatype Answer =
    | Found(yes: bool)
    | BroughtUp(ok: bool)
    | ConfAdded(ok: bool)
    | KeyRead(key: Option<string>)
    | PeersRead(peers: Option<seq<string>>)
    | PeerRemoved(peer: string, ok: bool)

  // An interface together with everything the script cannot control: the
  // changes others make before each of its commands, the commands that fail,
  // and the order in which peers are listed. The log is history: the answer to
  // every command, in order.
  class Kernel {
    var now: Device
    var tick: nat
    ghost var log: seq<Answer>
    const meddle: (nat, Device) -> Device
    const fails: nat -> bool
    const listing: set<string> -> seq<string>

    constructor (now: Device, meddle: (nat, Device) -> Device, fails: nat -> bool, listing: set<string> -> seq<string>)
      ensures this.now == now && this.meddle == meddle && this.fails == fails && this.listing == listing
    {
      this.now, this.tick, this.log := now, 0, [];
      this.meddle, this.fails, this.listing := meddle, fails, listing;
    }

    ghost predicate Valid()
      reads this
    {
      forall s :: KeySet(listing(s)) == s
    }

    // Nobody interferes and no command fails.
    ghost predicate Quiet()
      reads this
    {
      (forall n, d :: meddle(n, d) == d) && forall n :: !fails(n)
    }

    // Before each command others may have made changes.
    method Turn() returns (ok: bool)
      modifies this`now, this`tick
      ensures Quiet() ==> ok && now == old(now)
    {
      now := meddle(tick, now);
      ok := !fails(tick);
      tick := tick + 1;
    }

    // ip link show dev
    method LinkShow() returns (present: bool)
      modifies this`now, this`tick, this`log
      ensures present == now.present && log == old(log) + [Found(present)]
      ensures Quiet() ==> now == old(now)
    {
      var ok := Turn();
      present := now.present;
      log := log + [Found(present)];
    }

    // ifup
    method IfUp() returns (ok: bool)
      modifies this`now, this`tick, this`log
      ensures log == old(log) + [BroughtUp(ok)]
      ensures Quiet() ==> ok
      ensures ok ==> now.present
    {
      ok := Turn();
      if ok {
        now := now.(present := true);
      }
      log := log + [BroughtUp(ok)];
    }

    // wg addconf
    method AddConf(c: Conf) returns (ok: bool)
      modifies this`now, this`tick, this`log
      ensures log == old(log) + [ConfAdded(ok)]
      ensures Quiet() ==> ok && now == Added(old(now), c)
    {
      ok := Turn();
      if ok {
        now := Added(now, c);
      }
      log := log + [ConfAdded(ok)];
    }

    // wg show public-key
    method PublicKey() returns (key: Option<string>)
      modifies this`now, this`tick, this`log
      ensures log == old(log) + [KeyRead(key)]
      ensures key.Some? ==> key.value == now.ownKey
      ensures Quiet() ==> key.Some? && now == old(now)
    {
      var ok := Turn();
      key := if ok then Some(now.ownKey) else None;
      log := log + [KeyRead(key)];
    }

    // wg show peers
    method Peers() returns (keys: Option<seq<string>>)
      requires Valid()
      modifies this`now, this`tick, this`log
      ensures log == old(log) + [PeersRead(keys)]
      ensures keys.Some? ==> KeySet(keys.value) == now.peers
      ensures Quiet() ==> keys.Some? && now == old(now)
    {
      var ok := Turn();
      keys := if ok then Some(listing(now.peers)) else None;
      log := log + [PeersRead(keys)];
    }

    // wg set peer remove
    method Remove(peer: string) returns (ok: bool)
      modifies this`now, this`tick, this`log
      ensures log == old(log) + [PeerRemoved(peer, ok)]
      ensures Quiet() ==> ok && now == old(now).(peers := old(now).peers - {peer})
    {
      ok := Turn();
      if ok {
        now := now.(peers := now.peers - {peer});
      }
      log := log + [PeerRemoved(peer, ok)];
    }
  }

  // The inner loop of the script: is the key among the others?
  method Among(key: string, keys: seq<string>) returns (found: bool)
    ensures found <==> key in keys
  {
    found := false;
    for i := 0 to |keys|
      invariant key !in keys[..i]
    {
      assert keys[..i + 1] == keys[..i] + [keys[i]];
      if keys[i] == key {
        return true;
      }
    }
    assert keys[..|keys|] == keys;
  }

  // The listed peers that are not wanted, in order.
  function Stale(current: seq<string>, wanted: seq<string>): seq<string> {
    if current == [] then []
    else
      var last := current[|current| - 1];
      Stale(current[..|current| - 1], wanted) + if last in wanted then [] else [last]
  }

  lemma {:induction false} StaleIsUnwanted(current: seq<string>, wanted: seq<string>)
    ensures forall p :: p in Stale(current, wanted) <==> p in current && p !in wanted
  {
    if current != [] {
      StaleIsUnwanted(current[..|current| - 1], wanted);
      assert current == current[..|current| - 1] + [current[|current| - 1]];
    }
  }

  function Removals(peers: seq<string>): seq<Answer> {
    seq(|peers|, i requires 0 <= i < |peers| => PeerRemoved(peers[i], true))
  }

  // Every stale peer was taken away, or those before one that could not be.
  ghost predicate Cleaned(answers: seq<Answer>, stale: seq<string>, ok: bool) {
    if ok then answers == Removals(stale)
    else exists n :: 0 <= n < |stale| && answers == Removals(stale[..n]) + [PeerRemoved(stale[n], false)]
  }

  // Takes away every listed peer that is not wanted.
  method RemoveStale(k: Kernel, current: seq<string>, wanted: seq<string>) returns (ok: bool)
    modifies k`now, k`tick, k`log
    ensures old(k.log) <= k.log && Cleaned(k.log[|old(k.log)|..], Stale(current, wanted), ok)
    ensures k.Quiet() ==> ok && k.now == old(k.now).(peers := old(k.now).peers - (KeySet(current) - KeySet(wanted)))
  {
    ok := true;
    ghost var stale := Stale(current, wanted);
    assert current[..|current|] == current;
    for i := 0 to |current|
      invariant Stale(current[..i], wanted) <= stale
      invariant k.log == old(k.log) + Removals(Stale(current[..i], wanted))
      invariant k.Quiet() ==> k.now == old(k.now).(peers := old(k.now).peers - (KeySet(current[..i]) - KeySet(wanted)))
    {
      assert KeySet(current[..i + 1]) == KeySet(current[..i]) + {current[i]};
      ghost var n := |Stale(current[..i], wanted)|;
      StaleNext(current, wanted, i);
      var keep := Among(current[i], wanted);
      if !keep {
        ok := k.Remove(current[i]);
        assert stale[n] == current[i] && stale[..n] == Stale(current[..i], wanted);
        if !ok {
          assert k.log[|old(k.log)|..] == Removals(stale[..n]) + [PeerRemoved(stale[n], false)];
          return;
        }
        assert Removals(Stale(current[..i + 1], wanted))
            == Removals(Stale(current[..i], wanted)) + [PeerRemoved(current[i], true)];
      }
    }
  }

  lemma StaleNext(current: seq<string>, wanted: seq<string>, i: nat)
    requires i < |current|
    ensures Stale(current[..i + 1], wanted)
         == Stale(current[..i], wanted) + if current[i] in wanted then [] else [current[i]]
    ensures Stale(current[..i + 1], wanted) <= Stale(current, wanted)
  {
    assert current[..i + 1][..i] == current[..i];
    StaleOfPrefix(current, wanted, i + 1);
  }

  lemma {:induction false} StaleOfPrefix(current: seq<string>, wanted: seq<string>, i: nat)
    requires i <= |current|
    ensures Stale(current[..i], wanted) <= Stale(current, wanted)
  {
    if i == |current| {
      assert current[..i] == current;
    } else {
      var front := current[..|current| - 1];
      StaleOfPrefix(front, wanted, i);
      assert front[..i] == current[..i];
    }
  }

  // The two verification loops, over one last listing.
  method Verify(current: seq<string>, wanted: seq<string>, ownKey: string) returns (exit: nat)
    ensures exit in {0, 85, 86}
    ensures exit == 85 <==> !(KeySet(current) <= KeySet(wanted))
    ensures exit == 0 <==> KeySet(current) <= KeySet(wanted) && KeySet(wanted) - {ownKey} <= KeySet(current)
  {
    for i := 0 to |current|
      invariant forall p :: p in current[..i] ==> p in wanted
    {
      assert current[..i + 1] == current[..i] + [current[i]];
      var keep := Among(current[i], wanted);
      if !keep {
        assert current[i] in KeySet(current) && current[i] !in KeySet(wanted);
        return 85;
      }
    }
    assert current[..|current|] == current;
    for i := 0 to |wanted|
      invariant forall w :: w in wanted[..i] && w != ownKey ==> w in current
    {
      assert wanted[..i + 1] == wanted[..i] + [wanted[i]];
      if wanted[i] != ownKey {
        var found := Among(wanted[i], current);
        if !found {
          assert wanted[i] in KeySet(wanted) - {ownKey} && wanted[i] !in KeySet(current);
          return 86;
        }
      }
    }
    assert wanted[..|wanted|] == wanted;
    exit := 0;
  }

  // The answers up to the first listing of an interface that was found.
  function Opening(key: string, first: seq<string>): seq<Answer> {
    [Found(true), ConfAdded(true), KeyRead(Some(key)), PeersRead(Some(first))]
  }

  // Every configured peer is listed, except the interface itself, and no other.
  predicate Right(last: seq<string>, c: Conf, key: string) {
    KeySet(last) <= Configured(c) && Configured(c) - {key} <= KeySet(last)
  }

  // The runs that end before the first listing of peers was read.
  ghost predicate RanShort(answers: seq<Answer>, exit: nat) {
    || (answers == [Found(false), BroughtUp(true)] && exit == 0)
    || (answers == [Found(false), BroughtUp(false)] && exit == 87)
    || (answers == [Found(true), ConfAdded(false)] && exit == 81)
    || (answers == [Found(true), ConfAdded(true), KeyRead(None)] && exit == 82)
    || (exists key :: answers == [Found(true), ConfAdded(true), KeyRead(Some(key)), PeersRead(None)] && exit == 83)
  }

  // What follows a first listing: the stale peers of it are removed, and a last
  // listing is judged.
  ghost predicate Rest(answers: seq<Answer>, c: Conf, exit: nat, key: string, first: seq<string>) {
    var stale := Stale(first, c.peers);
    || (Cleaned(answers, stale, false) && exit == 84)
    || (answers == Removals(stale) + [PeersRead(None)] && exit == 83)
    || exists last :: answers == Removals(stale) + [PeersRead(Some(last))] && ExitIs(exit, last, c, key)
  }

  ghost predicate RanOn(answers: seq<Answer>, c: Conf, exit: nat, key: string, first: seq<string>) {
    Opening(key, first) <= answers && Rest(answers[4..], c, exit, key, first)
  }

  ghost predicate ExitIs(exit: nat, last: seq<string>, c: Conf, key: string) {
    && exit in {0, 85, 86}
    && (exit == 85 <==> !(KeySet(last) <= Configured(c)))
    && (exit == 0 <==> Right(last, c, key))
  }

  // What the script was told, whatever others do, and the exit that follows.
  ghost predicate Ran(answers: seq<Answer>, c: Conf, exit: nat) {
    RanShort(answers, exit) || exists key, first :: RanOn(answers, c, exit, key, first)
  }

  // The script from its first listing on.
  method ReconcilePeers(k: Kernel, c: Conf, ownKey: string, first: seq<string>) returns (exit: nat)
    requires k.Valid()
    modifies k`now, k`tick, k`log
    ensures old(k.log) <= k.log && Rest(k.log[|old(k.log)|..], c, exit, ownKey, first)
    ensures var last := k.log[|k.log| - 1]; exit in {0, 85, 86} && last.PeersRead? ==>
              last.peers.Some? && KeySet(last.peers.value) == k.now.peers
    ensures k.Quiet() && KeySet(first) == old(k.now.peers) ==>
              k.now == old(k.now).(peers := KeySet(first) * Configured(c))
    ensures k.Quiet() && KeySet(first) == old(k.now.peers) && Configured(c) - {ownKey} <= KeySet(first) ==> exit == 0
  {
    hide Stale, Removals;
    var clean := RemoveStale(k, first, c.peers);
    ghost var cleaned, before := k.log[|old(k.log)|..], |old(k.log)|;
    assert k.Quiet() && KeySet(first) == old(k.now.peers) ==> k.now.peers == KeySet(first) * Configured(c);
    if !clean {
      return 84;
    }
    var current := k.Peers();
    assert k.log[before..] == cleaned + [PeersRead(current)];
    if current.None? {
      return 83;
    }
    exit := Verify(current.value, c.peers, ownKey);
    assert ExitIs(exit, current.value, c, ownKey);
  }

  // The script as a whole. Whatever others do, it ends as what it was told
  // demands, and a verified listing is the kernel's at that time; undisturbed it
  // succeeds, with exactly the configured peers.
  method Reconcile(k: Kernel, c: Conf) returns (exit: nat)
    requires k.Valid()
    modifies k`now, k`tick, k`log
    ensures old(k.log) < k.log && Ran(k.log[|old(k.log)|..], c, exit)
    ensures var last := k.log[|k.log| - 1]; exit in {0, 85, 86} && last.PeersRead? ==>
              last.peers.Some? && KeySet(last.peers.value) == k.now.peers
    ensures k.log[|k.log| - 1] == BroughtUp(true) ==> k.now.present
    ensures k.Quiet() ==> exit == 0
    ensures k.Quiet() && old(k.now.present) ==> k.now == Reconciled(old(k.now), c)
  {
    hide Rest, ExitIs;
    ghost var before := |k.log|;
    var present := k.LinkShow();
    if !present {
      var up := k.IfUp();
      assert k.log[before..] == [Found(false), BroughtUp(up)];
      return if up then 0 else 87;
    }
    var added := k.AddConf(c);
    if !added {
      assert k.log[before..] == [Found(true), ConfAdded(false)];
      return 81;
    }
    var ownKey := k.PublicKey();
    if ownKey.None? {
      assert k.log[before..] == [Found(true), ConfAdded(true), KeyRead(None)];
      return 82;
    }
    var current := k.Peers();
    if current.None? {
      assert k.log[before..] == [Found(true), ConfAdded(true), KeyRead(Some(ownKey.value)), PeersRead(None)];
      return 83;
    }
    ghost var start := k.log;
    assert start[before..] == Opening(ownKey.value, current.value);
    exit := ReconcilePeers(k, c, ownKey.value, current.value);
    ghost var rest := k.log[|start|..];
    assert k.log[before..] == Opening(ownKey.value, current.value) + rest;
    RestEnds(rest, c, exit, ownKey.value, current.value);
    RunsOn(k.log[before..], c, exit, ownKey.value, current.value, rest);
  }

  lemma RestEnds(answers: seq<Answer>, c: Conf, exit: nat, key: string, first: seq<string>)
    requires Rest(answers, c, exit, key, first)
    ensures answers != [] && !answers[|answers| - 1].BroughtUp?
  {
    hide Stale, Removals, ExitIs;
  }

  lemma RunsOn(answers: seq<Answer>, c: Conf, exit: nat, key: string, first: seq<string>, rest: seq<Answer>)
    requires answers == Opening(key, first) + rest && Rest(rest, c, exit, key, first)
    ensures Ran(answers, c, exit)
  {
    hide Rest;
    assert answers[4..] == rest;
    assert RanOn(answers, c, exit, key, first);
  }

  // Success means that the interface was missing and was brought up, or that it
  // was found and the listing read last, after all removals, was right for the
  // key read before; only peers of the first listing that are not configured
  // were removed.
  lemma ExitMeans(answers: seq<Answer>, c: Conf, exit: nat)
    requires Ran(answers, c, exit)
    ensures |answers| >= 2 && answers[0].Found?
    ensures exit == 0 && !answers[0].yes ==> answers == [Found(false), BroughtUp(true)]
    ensures exit in {0, 85, 86} && answers[0].yes ==>
              && |answers| >= 5 && answers[2].KeyRead? && answers[2].key.Some?
              && answers[|answers| - 1].PeersRead? && answers[|answers| - 1].peers.Some?
              && ExitIs(exit, answers[|answers| - 1].peers.value, c, answers[2].key.value)
    ensures forall i :: 0 <= i < |answers| && answers[i].PeerRemoved? ==>
              && i > 3 && answers[3].PeersRead? && answers[3].peers.Some?
              && answers[i].peer in answers[3].peers.value && answers[i].peer !in Configured(c)
  {
    hide ExitIs, Cleaned, Stale;
    if !RanShort(answers, exit) {
      var key, first :| RanOn(answers, c, exit, key, first);
      var stale := Stale(first, c.peers);
      var rest := answers[4..];
      StaleIsUnwanted(first, c.peers);
      assert answers == Opening(key, first) + rest;
      if Cleaned(rest, stale, false) && exit == 84 {
        CleanedNames(rest, stale);
      }
      forall i | 0 <= i < |answers| && answers[i].PeerRemoved?
        ensures i > 3 && answers[i].peer in stale
      {
        assert answers[i] == rest[i - 4];
      }
    }
  }

  lemma CleanedNames(answers: seq<Answer>, stale: seq<string>)
    requires Cleaned(answers, stale, false)
    ensures forall i :: 0 <= i < |answers| ==> answers[i].PeerRemoved? && answers[i].peer in stale
  {
  }

  // ------------------------------------------------------------- convergence

  // One run is enough, and forgets everything about the peers before it.
  lemma ReconciledOnce(d: Device, e: Device, c: Conf)
    ensures Reconciled(Reconciled(d, c), c) == Reconciled(d, c)
    ensures d.present == e.present && d.ownKey == e.ownKey ==> Reconciled(d, c) == Reconciled(e, c)
  {
  }

  // addconf alone would keep retired peers: it is enough just when every peer
  // that was there is configured or is the interface itself.
  lemma AddconfEnoughIff(d: Device, c: Conf)
    ensures Added(d, c) == Reconciled(d, c) <==> d.peers <= Configured(c) + {Added(d, c).ownKey}
  {
    var key := Added(d, c).ownKey;
    assert Added(d, c).peers == d.peers + Configured(c) - {key};
    if d.peers <= Configured(c) + {key} {
      assert d.peers + Configured(c) - {key} == Configured(c) - {key};
    } else {
      var p :| p in d.peers && p !in Configured(c) + {key};
      assert p in Added(d, c).peers && p !in Reconciled(d, c).peers;
    }
  }
}
