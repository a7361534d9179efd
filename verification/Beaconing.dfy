/** Receiving and propagating beacons in the control service of one AS. */
module Beaconing {
  import opened Basics
  import opened Segments
  import opened BeaconPolicy
  import Extender

  datatype Node = Node(cfg: Extender.Config, policies: Policies, allowIsdLoop: bool)

  function Last(es: seq<ASEntry>): ASEntry
    requires es != []
  {
    es[|es| - 1]
  }

  /** The beacon came over the link its last entry says it was sent on. */
  predicate EntryMatches(cfg: Extender.Config, b: Beacon) {
    && b.inIfId in cfg.intfs && b.segment.entries != []
    && (cfg.intfs[b.inIfId].linkType == Parent || cfg.intfs[b.inIfId].linkType == Core)
    && Last(b.segment.entries).local == cfg.intfs[b.inIfId].remoteIA
    && Last(b.segment.entries).next == cfg.ia
  }

  /** What a beacon needs to be stored; `verified` says whether its signatures check. */
  ghost predicate Accepted(n: Node, b: Beacon, verified: bool) {
    EntryMatches(n.cfg, b) && verified && exists u :: Allowed(n.policies, b, u)
  }

  class BeaconStore {
    const policies: Policies
    var beacons: map<Beacon, set<Use>>

    constructor (policies: Policies)
      ensures this.policies == policies && beacons == map[] && Valid()
    {
      this.policies, beacons := policies, map[];
    }

    /** Every stored beacon has a use, and its uses are those the policies allow. */
    ghost predicate Valid()
      reads this
    {
      forall b <- beacons :: beacons[b] != {} && forall u :: u in beacons[b] <==> Allowed(policies, b, u)
    }

    method InsertBeacon(b: Beacon)
      requires Valid()
      modifies this
      ensures Valid()
      ensures beacons.Keys == old(beacons).Keys + if exists u :: Allowed(policies, b, u) then {b} else {}
    {
      var usage := BeaconPolicy.Usage(policies, b);
      if usage != {} {
        beacons := beacons[b := usage];
      }
    }
  }

  class Handler {
    const node: Node
    const store: BeaconStore

    constructor (node: Node, store: BeaconStore)
      requires store.policies == node.policies
      ensures this.node == node && this.store == store && Valid()
    {
      this.node, this.store := node, store;
    }

    predicate Valid() { store.policies == node.policies }

    /** Runs the checks in order and stores the beacon exactly if all of them pass. */
    method HandleBeacon(b: Beacon, verified: bool) returns (ok: bool)
      requires Valid() && store.Valid() && b.segment.entries != []
      modifies store
      ensures store.Valid()
      ensures ok <==> Accepted(node, b, verified)
      ensures ok <==>
        && b.inIfId in node.cfg.intfs && verified && (exists u :: Allowed(node.policies, b, u))
        && var intf, last := node.cfg.intfs[b.inIfId], b.segment.entries[|b.segment.entries| - 1];
        && (intf.linkType.Parent? || intf.linkType.Core?)
        && last.local == intf.remoteIA && last.next == node.cfg.ia
      ensures store.beacons.Keys == old(store.beacons).Keys + if ok then {b} else {}
    {
      if b.inIfId !in node.cfg.intfs { return false; }
      var pass := FilterBeacon(store.policies, b);
      if !pass { return false; }
      var valid := ValidateASEntry(b);
      if !valid || !verified { return false; }
      store.InsertBeacon(b);
      return true;
    }

    method ValidateASEntry(b: Beacon) returns (ok: bool)
      requires b.inIfId in node.cfg.intfs && b.segment.entries != []
      ensures ok <==> EntryMatches(node.cfg, b)
      ensures ok <==>
        && var intf, last := node.cfg.intfs[b.inIfId], b.segment.entries[|b.segment.entries| - 1];
        && (intf.linkType.Parent? || intf.linkType.Core?)
        && last.local == intf.remoteIA && last.next == node.cfg.ia
    {
      var info := node.cfg.intfs[b.inIfId];
      if info.linkType != Parent && info.linkType != Core { return false; }
      var entry := b.segment.entries[|b.segment.entries| - 1];
      if entry.local != info.remoteIA { return false; }
      return entry.next == node.cfg.ia;
    }
  }

  /** What may be sent on an interface: the beacon's own interface still exists, and no loop shows. */
  ghost predicate ToSend(n: Node, b: Beacon, egress: IfId) {
    && egress in n.cfg.intfs && b.inIfId in n.cfg.intfs
    && LoopsPass(HopsTo(b, n.cfg.intfs[egress].remoteIA), n.allowIsdLoop)
  }

  /** The list `r` is `all` without the beacons that may not be sent on `egress`. */
  ghost predicate Selected(n: Node, all: seq<Beacon>, egress: IfId, r: seq<Beacon>) {
    if all == [] then r == []
    else
      var init, b := all[..|all| - 1], all[|all| - 1];
      if ToSend(n, b, egress) then r != [] && r[|r| - 1] == b && Selected(n, init, egress, r[..|r| - 1])
      else Selected(n, init, egress, r)
  }

  lemma {:induction false} SelectedMember(n: Node, all: seq<Beacon>, egress: IfId, r: seq<Beacon>, b: Beacon)
    requires Selected(n, all, egress, r)
    ensures b in r <==> b in all && ToSend(n, b, egress)
  {
    if all != [] {
      var init, last := all[..|all| - 1], all[|all| - 1];
      assert all == init + [last];
      if ToSend(n, last, egress) {
        SelectedMember(n, init, egress, r[..|r| - 1], b);
        assert r == r[..|r| - 1] + [last];
      } else {
        SelectedMember(n, init, egress, r, b);
      }
    }
  }

  lemma SelectedStep(n: Node, all: seq<Beacon>, i: nat, egress: IfId, r: seq<Beacon>, keep: bool)
    requires i < |all| && Selected(n, all[..i], egress, r) && (keep <==> ToSend(n, all[i], egress))
    ensures Selected(n, all[..i + 1], egress, if keep then r + [all[i]] else r)
  {
    assert all[..i + 1][..i] == all[..i];
    assert (r + [all[i]])[..|r|] == r;
  }

  /** Beacons received on interfaces that no longer exist are dropped first. */
  lemma {:induction false} SelectedKnown(n: Node, all: seq<Beacon>, known: seq<Beacon>, i: nat, egress: IfId,
                                         r: seq<Beacon>)
    requires i <= |all| && KnownOf(n, all[..i], known)
    requires Selected(n, known, egress, r)
    ensures Selected(n, all[..i], egress, r)
  {
    if i > 0 {
      assert all[..i][..i - 1] == all[..i - 1];
      if all[i - 1].inIfId !in n.cfg.intfs {
        SelectedKnown(n, all, known, i - 1, egress, r);
      } else {
        var r' := if ToSend(n, all[i - 1], egress) then r[..|r| - 1] else r;
        SelectedKnown(n, all, known[..|known| - 1], i - 1, egress, r');
      }
    }
  }

  ghost predicate KnownOf(n: Node, all: seq<Beacon>, known: seq<Beacon>) {
    if all == [] then known == []
    else
      var init, b := all[..|all| - 1], all[|all| - 1];
      if b.inIfId in n.cfg.intfs then known != [] && known[|known| - 1] == b && KnownOf(n, init, known[..|known| - 1])
      else KnownOf(n, init, known)
  }

  /** For each interface, in their order, exactly the beacons that may be sent on it. */
  method BeaconsPerInterface(n: Node, all: seq<Beacon>, intfs: set<IfId>) returns (r: map<IfId, seq<Beacon>>)
    requires intfs <= n.cfg.intfs.Keys
    ensures r.Keys == intfs
    ensures forall e <- intfs :: Selected(n, all, e, r[e])
  {
    var beacons: seq<Beacon> := [];
    for i := 0 to |all|
      invariant KnownOf(n, all[..i], beacons)
    {
      assert all[..i + 1][..i] == all[..i];
      if all[i].inIfId in n.cfg.intfs {
        assert (beacons + [all[i]])[..|beacons|] == beacons;
        beacons := beacons + [all[i]];
      }
    }
    assert all[..|all|] == all;
    r := map[];
    var todo := intfs;
    while todo != {}
      invariant todo <= intfs && r.Keys == intfs - todo
      invariant forall e <- r :: Selected(n, all, e, r[e])
    {
      var e :| e in todo;
      var toPropagate := OnInterface(n, all, beacons, e);
      r := r[e := toPropagate];
      todo := todo - {e};
    }
  }

  method OnInterface(n: Node, all: seq<Beacon>, beacons: seq<Beacon>, e: IfId) returns (r: seq<Beacon>)
    requires e in n.cfg.intfs && KnownOf(n, all, beacons)
    ensures Selected(n, all, e, r)
  {
    r := [];
    for i := 0 to |beacons|
      invariant Selected(n, beacons[..i], e, r)
    {
      var pass := FilterLoop(beacons[i], n.cfg.intfs[e].remoteIA, n.allowIsdLoop);
      AllKnown(n, all, beacons, i);
      SelectedStep(n, beacons, i, e, r, pass);
      if pass { r := r + [beacons[i]]; }
    }
    assert beacons[..|beacons|] == beacons && all[..|all|] == all;
    SelectedKnown(n, all, beacons, |all|, e, r);
  }

  lemma {:induction false} AllKnown(n: Node, all: seq<Beacon>, known: seq<Beacon>, i: nat)
    requires KnownOf(n, all, known) && i < |known|
    ensures known[i].inIfId in n.cfg.intfs
  {
    var init, b := all[..|all| - 1], all[|all| - 1];
    if b.inIfId !in n.cfg.intfs {
      AllKnown(n, init, known, i);
    } else if i < |known| - 1 {
      AllKnown(n, init, known[..|known| - 1], i);
    }
  }
}
