/** Path segments as built by beaconing, and the accumulator their hop-field MACs chain through. */
module Segments {
  import opened Basics
  import opened ScionPath

  datatype PeerEntry = PeerEntry(peer: IA, peerInterface: IfId, hop: HopField)

  datatype ASEntry = ASEntry(local: IA, next: IA, hop: HopField, peers: seq<PeerEntry>)

  datatype Segment = Segment(segId: Word16, timestamp: nat, entries: seq<ASEntry>) {
    function Append(e: ASEntry): Segment { this.(entries := entries + [e]) }
  }

  /** The MAC function of every AS. */
  type Keys = IA -> MacFn

  /** The accumulator after the first `i` AS entries. */
  function BetaAt(s: Segment, i: nat): Word16
    requires i <= |s.entries|
  {
    if i == 0 then s.segId else BetaAt(s, i - 1).Xor(s.entries[i - 1].hop.mac.sigma)
  }

  /** `hop` carries the MAC that `mac` gives for accumulator `beta`. */
  predicate Authentic(mac: MacFn, timestamp: nat, beta: Word16, hop: HopField) {
    && hop == hop.Plain()
    && hop.mac == mac(MacInput(beta, timestamp, hop.expTime, hop.consIngress, hop.consEgress))
  }

  /** Entry `i` is authentic, and its peer hop fields chain to its main hop field. */
  ghost predicate EntryBuilt(keys: Keys, s: Segment, i: nat)
    requires i < |s.entries|
  {
    var e := s.entries[i];
    && Authentic(keys(e.local), s.timestamp, BetaAt(s, i), e.hop)
    && forall k :: 0 <= k < |e.peers| ==>
         Authentic(keys(e.local), s.timestamp, BetaAt(s, i + 1), e.peers[k].hop)
  }

  ghost predicate Built(keys: Keys, s: Segment) {
    forall i :: 0 <= i < |s.entries| ==> EntryBuilt(keys, s, i)
  }

  /** The accumulator depends only on the entries before the position. */
  lemma {:induction false} BetaPrefix(s: Segment, t: Segment, i: nat)
    requires i <= |s.entries| && i <= |t.entries| && s.segId == t.segId
    requires s.entries[..i] == t.entries[..i]
    ensures BetaAt(s, i) == BetaAt(t, i)
  {
    if i > 0 {
      assert s.entries[..i - 1] == s.entries[..i][..i - 1] == t.entries[..i][..i - 1] == t.entries[..i - 1];
      assert s.entries[i - 1] == s.entries[..i][i - 1] == t.entries[..i][i - 1] == t.entries[i - 1];
      BetaPrefix(s, t, i - 1);
    }
  }

  /** Any prefix of a built segment is a built segment. */
  lemma BuiltPrefix(keys: Keys, s: Segment, n: nat)
    requires Built(keys, s) && n <= |s.entries|
    ensures Built(keys, s.(entries := s.entries[..n]))
  {
    var t := s.(entries := s.entries[..n]);
    forall i | 0 <= i < n ensures EntryBuilt(keys, t, i) {
      assert EntryBuilt(keys, s, i);
      assert t.entries[..i] == s.entries[..i] && t.entries[..i + 1] == s.entries[..i + 1];
      BetaPrefix(s, t, i);
      BetaPrefix(s, t, i + 1);
    }
  }

  /** Appending an entry that is authentic for the current accumulator keeps the chain. */
  lemma AppendBuilt(keys: Keys, s: Segment, e: ASEntry)
    requires Built(keys, s)
    requires Authentic(keys(e.local), s.timestamp, BetaAt(s, |s.entries|), e.hop)
    requires forall k :: 0 <= k < |e.peers| ==>
               Authentic(keys(e.local), s.timestamp, BetaAt(s, |s.entries|).Xor(e.hop.mac.sigma), e.peers[k].hop)
    ensures Built(keys, s.Append(e))
  {
    var t := s.Append(e);
    forall i | 0 <= i < |t.entries| ensures EntryBuilt(keys, t, i) {
      BetaPrefix(s, t, i);
      if i < |s.entries| {
        assert EntryBuilt(keys, s, i);
        BetaPrefix(s, t, i + 1);
      }
    }
  }

  /** Consistency of a beacon, or of a terminated segment. */
  predicate Validate(s: Segment, terminated: bool) {
    && |s.entries| > 0
    && s.entries[0].hop.consIngress == 0
    && (forall i :: 0 <= i < |s.entries| - 1 ==> s.entries[i].next == s.entries[i + 1].local)
    && var last := s.entries[|s.entries| - 1];
    && (if terminated then last.next.IsZero() && last.hop.consEgress == 0
        else !last.next.IsWildcard() && last.hop.consEgress != 0)
    && forall i, k :: 0 <= i < |s.entries| && 0 <= k < |s.entries[i].peers| ==>
         s.entries[i].peers[k].hop.consEgress == s.entries[i].hop.consEgress
  }
}
