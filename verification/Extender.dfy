/** Extending a path segment with an entry for the local AS. */
module Extender {
  import opened Basics
  import opened ScionPath
  import opened Segments

  /** What the control service knows about one of its interfaces. */
  datatype InterfaceInfo = InterfaceInfo(remoteIA: IA, linkType: LinkType, remoteId: IfId)

  datatype Config = Config(ia: IA, mtu: nat, mac: MacFn, intfs: map<IfId, InterfaceInfo>)

  function HopFor(mac: MacFn, ingress: IfId, egress: IfId, expTime: nat, timestamp: nat, beta: Word16): (h: HopField)
    ensures Authentic(mac, timestamp, beta, h) && h.consIngress == ingress && h.consEgress == egress
  {
    HopField(ingress, egress, expTime, mac(MacInput(beta, timestamp, expTime, ingress, egress)), false, false)
  }

  /** The neighbour behind an egress interface; None is the error. */
  function RemoteIA(cfg: Config, i: IfId): Option<IA> {
    if i == 0 then Some(NO_IA)
    else if i !in cfg.intfs || cfg.intfs[i].remoteIA.IsWildcard() then None
    else Some(cfg.intfs[i].remoteIA)
  }

  /** Remote AS and interface of a peer link; None is the error. */
  function RemoteInfo(cfg: Config, i: IfId): Option<(IA, IfId)> {
    if i == 0 then Some((NO_IA, 0))
    else if i !in cfg.intfs || cfg.intfs[i].remoteId == 0 || cfg.intfs[i].remoteIA.IsWildcard() then None
    else Some((cfg.intfs[i].remoteIA, cfg.intfs[i].remoteId))
  }

  /** The peer entries: peer links with an error are left out, the rest stay in order. */
  function PeerEntries(cfg: Config, peers: seq<IfId>, egress: IfId, expTime: nat, timestamp: nat, beta: Word16):
    (r: seq<PeerEntry>)
    ensures forall k :: 0 <= k < |r| ==>
              Authentic(cfg.mac, timestamp, beta, r[k].hop) && r[k].hop.consEgress == egress
    ensures forall k :: 0 <= k < |r| ==>
              RemoteInfo(cfg, r[k].hop.consIngress) == Some((r[k].peer, r[k].peerInterface))
  {
    if peers == [] then []
    else
      var init := PeerEntries(cfg, peers[..|peers| - 1], egress, expTime, timestamp, beta);
      var p := peers[|peers| - 1];
      match RemoteInfo(cfg, p)
      case None => init
      case Some(r) => init + [PeerEntry(r.0, r.1, HopFor(cfg.mac, p, egress, expTime, timestamp, beta))]
  }

  /** The checks made before an entry is created. */
  predicate Admissible(cfg: Config, s: Segment, ingress: IfId, egress: IfId, expTime: Option<nat>) {
    && cfg.mtu != 0
    && (ingress == 0 <==> s.entries == [])
    && !(ingress == 0 && egress == 0)
    && expTime.Some?
    && (ingress != 0 ==> ingress in cfg.intfs)
    && RemoteIA(cfg, egress).Some?
  }

  function NewEntry(cfg: Config, s: Segment, ingress: IfId, egress: IfId, peers: seq<IfId>,
                    expTime: Option<nat>): ASEntry
    requires Admissible(cfg, s, ingress, egress, expTime)
  {
    var beta := BetaAt(s, |s.entries|);
    var hop := HopFor(cfg.mac, ingress, egress, expTime.value, s.timestamp, beta);
    ASEntry(cfg.ia, RemoteIA(cfg, egress).value, hop,
            PeerEntries(cfg, peers, egress, expTime.value, s.timestamp, beta.Xor(hop.mac.sigma)))
  }

  /** The outcome on the segment: None is an error, whether or not an entry was appended. */
  function Extended(cfg: Config, s: Segment, ingress: IfId, egress: IfId, peers: seq<IfId>,
                    expTime: Option<nat>): Option<Segment> {
    if !Admissible(cfg, s, ingress, egress, expTime) then None
    else
      var t := s.Append(NewEntry(cfg, s, ingress, egress, peers, expTime));
      if Validate(t, egress == 0) then Some(t) else None
  }

  /** A path segment that is extended in place. */
  class PathSegment {
    const segId: Word16
    const timestamp: nat
    var entries: seq<ASEntry>

    constructor (timestamp: nat, segId: Word16)
      ensures Value() == Segment(segId, timestamp, [])
    {
      this.timestamp, this.segId, entries := timestamp, segId, [];
    }

    function Value(): Segment
      reads this
    {
      Segment(segId, timestamp, entries)
    }

    /** The accumulator for the next entry, recomputed over the whole chain. */
    method ExtractBeta() returns (beta: Word16)
      ensures beta == BetaAt(Value(), |entries|)
    {
      beta := segId;
      for i := 0 to |entries|
        invariant beta == BetaAt(Value(), i)
      {
        beta := beta.Xor(entries[i].hop.mac.sigma);
      }
    }
  }

  class DefaultExtender {
    const cfg: Config

    constructor (cfg: Config)
      ensures this.cfg == cfg
    {
      this.cfg := cfg;
    }

    method CreatePeerEntries(peers: seq<IfId>, egress: IfId, expTime: nat, timestamp: nat, beta: Word16)
      returns (r: seq<PeerEntry>)
      ensures r == PeerEntries(cfg, peers, egress, expTime, timestamp, beta)
    {
      r := [];
      for i := 0 to |peers|
        invariant r == PeerEntries(cfg, peers[..i], egress, expTime, timestamp, beta)
      {
        assert peers[..i + 1][..i] == peers[..i];
        var info := RemoteInfo(cfg, peers[i]);
        if info.Some? {
          r := r + [PeerEntry(info.value.0, info.value.1, HopFor(cfg.mac, peers[i], egress, expTime, timestamp, beta))];
        }
      }
      assert peers[..|peers|] == peers;
    }

    /**
     Extends `pseg`.  `expTime` is None when no usable signer was found.  A segment that
     fails the final validation keeps the appended entry, as in the source.
     */
    method Extend(pseg: PathSegment, ingress: IfId, egress: IfId, peers: seq<IfId>, expTime: Option<nat>)
      returns (ok: bool)
      modifies pseg
      ensures ok == Extended(cfg, old(pseg.Value()), ingress, egress, peers, expTime).Some?
      ensures ok ==> pseg.Value() == Extended(cfg, old(pseg.Value()), ingress, egress, peers, expTime).value
      ensures !Admissible(cfg, old(pseg.Value()), ingress, egress, expTime) ==> pseg.entries == old(pseg.entries)
    {
      if cfg.mtu == 0 { return false; }
      var firstHop := |pseg.entries| == 0;
      if ingress == 0 && !firstHop { return false; }
      if ingress != 0 && firstHop { return false; }
      if ingress == 0 && egress == 0 { return false; }
      if expTime.None? { return false; }
      var hopBeta := pseg.ExtractBeta();
      if ingress != 0 && ingress !in cfg.intfs { return false; }
      var hop := HopFor(cfg.mac, ingress, egress, expTime.value, pseg.timestamp, hopBeta);
      var peerBeta := hopBeta.Xor(hop.mac.sigma);
      var peerEntries := CreatePeerEntries(peers, egress, expTime.value, pseg.timestamp, peerBeta);
      var next := RemoteIA(cfg, egress);
      if next.None? { return false; }
      pseg.entries := pseg.entries + [ASEntry(cfg.ia, next.value, hop, peerEntries)];
      return Validate(pseg.Value(), egress == 0);
    }
  }

  /** One call of Extend by some AS. */
  datatype Extension = Extension(cfg: Config, ingress: IfId, egress: IfId, peers: seq<IfId>, expTime: Option<nat>)

  /** The segment after a series of successful extensions. */
  function Grown(segId: Word16, timestamp: nat, xs: seq<Extension>): Option<Segment> {
    if xs == [] then Some(Segment(segId, timestamp, []))
    else
      var x := xs[|xs| - 1];
      match Grown(segId, timestamp, xs[..|xs| - 1])
      case None => None
      case Some(s) => Extended(x.cfg, s, x.ingress, x.egress, x.peers, x.expTime)
  }

  lemma ExtendedBuilt(keys: Keys, cfg: Config, s: Segment, ingress: IfId, egress: IfId, peers: seq<IfId>,
                      expTime: Option<nat>)
    requires Built(keys, s) && cfg.mac == keys(cfg.ia)
    requires Extended(cfg, s, ingress, egress, peers, expTime).Some?
    ensures Built(keys, Extended(cfg, s, ingress, egress, peers, expTime).value)
  {
    AppendBuilt(keys, s, NewEntry(cfg, s, ingress, egress, peers, expTime));
  }

  /** Every segment that any number of Extend calls produces has the chained-MAC structure. */
  lemma {:induction false} GrownBuilt(keys: Keys, segId: Word16, timestamp: nat, xs: seq<Extension>)
    requires forall i :: 0 <= i < |xs| ==> xs[i].cfg.mac == keys(xs[i].cfg.ia)
    requires Grown(segId, timestamp, xs).Some?
    ensures Built(keys, Grown(segId, timestamp, xs).value)
    ensures |Grown(segId, timestamp, xs).value.entries| == |xs|
  {
    if xs != [] {
      var x := xs[|xs| - 1];
      GrownBuilt(keys, segId, timestamp, xs[..|xs| - 1]);
      var before := Grown(segId, timestamp, xs[..|xs| - 1]).value;
      ExtendedBuilt(keys, x.cfg, before, x.ingress, x.egress, x.peers, x.expTime);
    }
  }
}
