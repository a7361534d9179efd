/**
 What an extension does to a segment, said in terms of the configuration and the arguments: when
 it succeeds, and everything the new entry holds.
 */
module ExtenderLaws {
  import opened Basics
  import opened ScionPath
  import opened Segments
  import opened Extender
  import Counting

  // ----- Peer links ------------------------------------------------------------------------

  /** The interface leads to a known interface of a known AS; 0 passes without a lookup. */
  predicate Usable(cfg: Config, i: IfId) {
    || i == 0
    || (&& i in cfg.intfs && cfg.intfs[i].remoteId != 0
        && cfg.intfs[i].remoteIA.isd != 0 && cfg.intfs[i].remoteIA.asn != 0)
  }

  /** What the peer entry for interface `i` holds besides its MAC. */
  predicate PeerEntryFor(cfg: Config, e: PeerEntry, i: IfId, egress: IfId, expTime: nat) {
    && e.hop.consIngress == i && e.hop.consEgress == egress && e.hop.expTime == expTime
    && (if i == 0 then e.peer == IA(0, 0) && e.peerInterface == 0
        else i in cfg.intfs && e.peer == cfg.intfs[i].remoteIA && e.peerInterface == cfg.intfs[i].remoteId)
  }

  /** The positions, in order, that are usable, and only those. */
  ghost predicate UsablePositions(cfg: Config, peers: seq<IfId>, pos: seq<nat>) {
    && (forall k :: 0 <= k < |pos| ==> pos[k] < |peers| && Usable(cfg, peers[pos[k]]))
    && (forall j, k :: 0 <= j < k < |pos| ==> pos[j] < pos[k])
    && forall i: nat :: i < |peers| && Usable(cfg, peers[i]) ==> i in pos
  }

  /** The last peer link adds its entry behind the others, if it is usable. */
  lemma LastPeer(cfg: Config, peers: seq<IfId>, egress: IfId, expTime: nat, timestamp: nat, beta: Word16)
    requires peers != []
    ensures var n := |peers| - 1;
      var r, before := PeerEntries(cfg, peers, egress, expTime, timestamp, beta),
                       PeerEntries(cfg, peers[..n], egress, expTime, timestamp, beta);
      if Usable(cfg, peers[n])
      then |r| == |before| + 1 && r[..|before|] == before && PeerEntryFor(cfg, r[|before|], peers[n], egress, expTime)
      else r == before
  {
  }

  lemma LastPosition(cfg: Config, peers: seq<IfId>, pos: seq<nat>)
    requires peers != [] && UsablePositions(cfg, peers[..|peers| - 1], pos)
    ensures UsablePositions(cfg, peers, if Usable(cfg, peers[|peers| - 1]) then pos + [|peers| - 1] else pos)
  {
    hide Usable;
    var n := |peers| - 1;
    var before := peers[..n];
    var all := if Usable(cfg, peers[n]) then pos + [n] else pos;
    forall i: nat | i < |peers| && Usable(cfg, peers[i]) ensures i in all {
      if i < n { assert before[i] == peers[i] && i in pos; } else { assert all[|pos|] == n; }
    }
  }

  /** Entry `k` is the one for the peer link at position `pos[k]`. */
  ghost predicate EntriesAt(cfg: Config, peers: seq<IfId>, pos: seq<nat>, r: seq<PeerEntry>, egress: IfId,
                            expTime: nat) {
    && |r| == |pos|
    && forall k :: 0 <= k < |r| ==> pos[k] < |peers| && PeerEntryFor(cfg, r[k], peers[pos[k]], egress, expTime)
  }

  lemma LastEntry(cfg: Config, peers: seq<IfId>, pos: seq<nat>, before: seq<PeerEntry>, r: seq<PeerEntry>, egress: IfId,
                  expTime: nat)
    requires peers != [] && EntriesAt(cfg, peers[..|peers| - 1], pos, before, egress, expTime)
    requires |r| == |before| + 1 && r[..|before|] == before
    requires PeerEntryFor(cfg, r[|before|], peers[|peers| - 1], egress, expTime)
    ensures EntriesAt(cfg, peers, pos + [|peers| - 1], r, egress, expTime)
  {
    hide PeerEntryFor;
    forall k | 0 <= k < |before| ensures PeerEntryFor(cfg, r[k], peers[pos[k]], egress, expTime) {
      assert r[k] == before[k];
    }
  }

  lemma SameEntries(cfg: Config, peers: seq<IfId>, pos: seq<nat>, r: seq<PeerEntry>, egress: IfId, expTime: nat)
    requires peers != [] && EntriesAt(cfg, peers[..|peers| - 1], pos, r, egress, expTime)
    ensures EntriesAt(cfg, peers, pos, r, egress, expTime)
  {
    hide PeerEntryFor;
  }

  /** Each usable peer link has its entry, in the order of the list, and nothing else has one. */
  lemma {:induction false} PeerEntriesAll(cfg: Config, peers: seq<IfId>, egress: IfId, expTime: nat, timestamp: nat,
                                          beta: Word16)
    returns (pos: seq<nat>)
    ensures UsablePositions(cfg, peers, pos)
    ensures EntriesAt(cfg, peers, pos, PeerEntries(cfg, peers, egress, expTime, timestamp, beta), egress, expTime)
  {
    pos := [];
    if peers != [] {
      var n := |peers| - 1;
      pos := PeerEntriesAll(cfg, peers[..n], egress, expTime, timestamp, beta);
      LastPeer(cfg, peers, egress, expTime, timestamp, beta);
      LastPosition(cfg, peers, pos);
      hide PeerEntries, EntriesAt, UsablePositions, Usable, PeerEntryFor;
      var before := PeerEntries(cfg, peers[..n], egress, expTime, timestamp, beta);
      var r := PeerEntries(cfg, peers, egress, expTime, timestamp, beta);
      if Usable(cfg, peers[n]) {
        LastEntry(cfg, peers, pos, before, r, egress, expTime);
        pos := pos + [n];
      } else {
        SameEntries(cfg, peers, pos, r, egress, expTime);
      }
    }
  }

  /** There are as many entries as usable positions. */
  lemma PeerEntriesCount(cfg: Config, peers: seq<IfId>, egress: IfId, expTime: nat, timestamp: nat, beta: Word16)
    ensures |PeerEntries(cfg, peers, egress, expTime, timestamp, beta)|
            == |set i: nat | i < |peers| && Usable(cfg, peers[i])|
  {
    var pos := PeerEntriesAll(cfg, peers, egress, expTime, timestamp, beta);
    Counting.ElementsMeans(pos);
    Counting.DistinctCount(pos);
    assert Counting.Elements(pos) == set i: nat | i < |peers| && Usable(cfg, peers[i]);
  }

  // ----- The extension -----------------------------------------------------------------------

  /** The segment is a beacon on its way to `ia`, as the checks after an extension see it. */
  ghost predicate Consistent(es: seq<ASEntry>, ia: IA) {
    && (es != [] ==> es[0].hop.consIngress == 0 && es[|es| - 1].next == ia)
    && (forall i :: 0 <= i < |es| - 1 ==> es[i].next == es[i + 1].local)
    && forall i, k :: 0 <= i < |es| && 0 <= k < |es[i].peers| ==>
         es[i].peers[k].hop.consEgress == es[i].hop.consEgress
  }

  /** What an extension needs: exactly the first one has no ingress, and none has neither. */
  ghost predicate MayExtend(cfg: Config, s: Segment, ingress: IfId, egress: IfId, expTime: Option<nat>) {
    && cfg.mtu > 0 && expTime.Some?
    && (if s.entries == [] then ingress == 0 && egress != 0 else ingress != 0 && ingress in cfg.intfs)
    && (egress == 0 || (&& egress in cfg.intfs
                        && cfg.intfs[egress].remoteIA.isd != 0 && cfg.intfs[egress].remoteIA.asn != 0))
    && Consistent(s.entries, cfg.ia)
  }

  /** What the new entry holds besides its peer entries and the MAC. */
  predicate EntryFor(cfg: Config, e: ASEntry, ingress: IfId, egress: IfId, expTime: nat) {
    && e.local == cfg.ia && e.hop.consIngress == ingress && e.hop.consEgress == egress && e.hop.expTime == expTime
    && e.next == (if egress in cfg.intfs && egress != 0 then cfg.intfs[egress].remoteIA else IA(0, 0))
  }

  /** An extension succeeds if and only if it may, and then adds one entry and changes nothing else. */
  lemma ExtendedIff(cfg: Config, s: Segment, ingress: IfId, egress: IfId, peers: seq<IfId>, expTime: Option<nat>)
    ensures Extended(cfg, s, ingress, egress, peers, expTime).Some? <==> MayExtend(cfg, s, ingress, egress, expTime)
    ensures MayExtend(cfg, s, ingress, egress, expTime) ==>
      var t := Extended(cfg, s, ingress, egress, peers, expTime).value;
      && t.segId == s.segId && t.timestamp == s.timestamp && |t.entries| == |s.entries| + 1
      && t.entries[..|s.entries|] == s.entries
      && var e := t.entries[|s.entries|];
      && EntryFor(cfg, e, ingress, egress, expTime.value)
      && |e.peers| == |set i: nat | i < |peers| && Usable(cfg, peers[i])|
      && (forall k :: 0 <= k < |e.peers| ==> e.peers[k].hop.expTime == expTime.value)
  {
    if Admissible(cfg, s, ingress, egress, expTime) {
      var e := NewEntry(cfg, s, ingress, egress, peers, expTime);
      var beta := BetaAt(s, |s.entries|).Xor(e.hop.mac.sigma);
      var pos := PeerEntriesAll(cfg, peers, egress, expTime.value, s.timestamp, beta);
      PeerEntriesCount(cfg, peers, egress, expTime.value, s.timestamp, beta);
      AppendedConsistent(cfg, s, e, egress);
    }
  }

  lemma AppendedConsistent(cfg: Config, s: Segment, e: ASEntry, egress: IfId)
    requires e.local == cfg.ia && e.hop.consEgress == egress
    requires e.hop.consIngress == 0 <==> s.entries == []
    requires forall k :: 0 <= k < |e.peers| ==> e.peers[k].hop.consEgress == egress
    requires RemoteIA(cfg, egress) == Some(e.next)
    ensures Validate(s.Append(e), egress == 0) <==> Consistent(s.entries, cfg.ia)
  {
    var es, t := s.entries, s.entries + [e];
    assert forall i :: 0 <= i < |es| ==> t[i] == es[i];
    if Validate(s.Append(e), egress == 0) {
      if es != [] { assert t[0] == es[0] && t[|es| - 1].next == t[|es|].local; }
      assert forall i :: 0 <= i < |es| - 1 ==> t[i].next == t[i + 1].local;
    }
  }
}
