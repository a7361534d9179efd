/**
 From beaconing to forwarding: paths over segments that any run of the beaconing protocol has
 registered need no further assumption about those segments.
 */
module BeaconedPaths {
  import opened Basics
  import opened ScionPath
  import opened Segments
  import opened Combinator
  import opened PathAuthorization
  import opened AuthorizedRuns
  import Extender
  import Counting
  import Beaconing
  import LoopFreedom
  import Network
  import Router

  // ----- Peer entries --------------------------------------------------------------------

  ghost predicate PeerFaces(net: LoopFreedom.Network, e: ASEntry, k: nat)
    requires k < |e.peers|
  {
    var p := e.peers[k];
    && p.hop.consEgress == e.hop.consEgress
    && (p.hop.consIngress != 0 ==> LoopFreedom.Faces(net, e.local, p.hop.consIngress, p.peer))
  }

  /** Every peer entry names the AS that its interface leads to, and leaves as its main hop does. */
  ghost predicate PeersFace(net: LoopFreedom.Network, es: seq<ASEntry>) {
    forall i: nat, k: nat :: i < |es| && k < |es[i].peers| ==> PeerFaces(net, es[i], k)
  }

  ghost predicate AllPeersFace(net: LoopFreedom.Network, s: LoopFreedom.State) {
    && (forall m <- s.flight :: PeersFace(net, m.segment.entries))
    && (forall x <- s.stored :: PeersFace(net, x.1.segment.entries))
    && (forall x <- s.registered :: PeersFace(net, x.1.entries))
  }

  lemma ExtendedPeers(net: LoopFreedom.Network, a: IA, s: Segment, x: Extender.Extension)
    requires net.Valid() && a in net.nodes && x.cfg == net.nodes[a].cfg && PeersFace(net, s.entries)
    requires Extender.Extended(x.cfg, s, x.ingress, x.egress, x.peers, x.expTime).Some?
    ensures PeersFace(net, Extender.Extended(x.cfg, s, x.ingress, x.egress, x.peers, x.expTime).value.entries)
  {
    var e := Extender.NewEntry(x.cfg, s, x.ingress, x.egress, x.peers, x.expTime);
    forall k: nat | k < |e.peers| ensures PeerFaces(net, e, k) {
      assert Extender.RemoteInfo(x.cfg, e.peers[k].hop.consIngress).Some?;
    }
    var t := s.Append(e);
    forall i: nat, k: nat | i < |t.entries| && k < |t.entries[i].peers| ensures PeerFaces(net, t.entries[i], k) {
      if i < |s.entries| { assert t.entries[i] == s.entries[i]; }
    }
  }

  lemma StepPeers(net: LoopFreedom.Network, s: LoopFreedom.State, ev: LoopFreedom.Event, t: LoopFreedom.State)
    requires net.Valid() && AllPeersFace(net, s) && LoopFreedom.Step(net, s, ev, t)
    ensures AllPeersFace(net, t)
  {
    hide Extender.Extended, Beaconing.Accepted, PeersFace;
    NoPeers(net);
    match ev {
      case Originate(a, egress, segId, timestamp, expTime) =>
        var seg, x := Segment(segId, timestamp, []), Extender.Extension(net.nodes[a].cfg, 0, egress, [], expTime);
        if Extender.Extended(x.cfg, seg, 0, egress, [], expTime).Some? { ExtendedPeers(net, a, seg, x); }
      case Propagate(a, b, egress, peers, expTime) =>
        assert PeersFace(net, (a, b).1.segment.entries);
        var x := Extender.Extension(net.nodes[a].cfg, b.inIfId, egress, peers, expTime);
        if Extender.Extended(x.cfg, b.segment, b.inIfId, egress, peers, expTime).Some? {
          ExtendedPeers(net, a, b.segment, x);
        }
      case Terminate(a, b, peers, expTime) =>
        assert PeersFace(net, (a, b).1.segment.entries);
        var x := Extender.Extension(net.nodes[a].cfg, b.inIfId, 0, peers, expTime);
        if Extender.Extended(x.cfg, b.segment, b.inIfId, 0, peers, expTime).Some? {
          ExtendedPeers(net, a, b.segment, x);
        }
      case _ =>
    }
  }

  lemma NoPeers(net: LoopFreedom.Network)
    ensures PeersFace(net, [])
  {
  }

  lemma {:induction false} RunPeers(net: LoopFreedom.Network, states: seq<LoopFreedom.State>,
                                    events: seq<LoopFreedom.Event>, i: nat)
    requires net.Valid() && LoopFreedom.IsRun(net, states, events) && i < |states|
    ensures AllPeersFace(net, states[i])
  {
    if i > 0 {
      RunPeers(net, states, events, i - 1);
      StepPeers(net, states[i - 1], events[i - 1], states[i]);
    }
  }

  // ----- Paths over registered segments ----------------------------------------------------

  /** A beaconing run up to some point, in which every AS computes MACs with its own key. */
  datatype Beacons = Beacons(net: LoopFreedom.Network, states: seq<LoopFreedom.State>, events: seq<LoopFreedom.Event>) {
    ghost predicate Valid(keys: Keys) {
      && net.Valid() && LoopFreedom.IsRun(net, states, events)
      && forall a <- net.nodes :: net.nodes[a].cfg.mac == keys(net.nodes[a].cfg.ia)
    }

    ghost predicate Registered(seg: Segment)
      requires |states| > 0
    {
      exists a: IA :: (a, seg) in states[|states| - 1].registered
    }
  }

  ghost predicate AllRegistered(b: Beacons, legs: seq<Leg>)
    requires |b.states| > 0
  {
    forall i :: 0 <= i < |legs| ==> b.Registered(legs[i].seg)
  }

  /** The links of the routers lead to the ASes the control services take them to lead to. */
  ghost predicate Agree(b: Beacons, net: Network.Network) {
    forall k: (IA, IfId), ia: IA ::
      k in net.remote && k.1 != 0 && LoopFreedom.Faces(b.net, k.0, k.1, ia) ==> net.remote[k].0 == ia
  }

  /** Peer entries used together name each other's AS. */
  ghost predicate PeersMeet(legs: seq<Leg>)
    requires AllValid(legs)
  {
    |legs| == 2 && legs[0].peer != 0 && legs[1].peer != 0 ==>
      legs[0].seg.entries[legs[0].shortcut].peers[legs[0].peer - 1].peer == legs[1].Local(0)
  }

  lemma SegmentFacts(keys: Keys, b: Beacons, seg: Segment)
    requires b.Valid(keys) && b.Registered(seg)
    ensures Built(keys, seg) && LoopFreedom.Walk(b.net, seg.entries) && PeersFace(b.net, seg.entries)
  {
    var n := |b.states| - 1;
    var a: IA :| (a, seg) in b.states[n].registered;
    LoopFreedom.SegmentsNeverLoop(b.net, b.states, b.events, n, a, seg);
    LoopFreedom.SegmentsAuthentic(b.net, keys, b.states, b.events, n);
    RunPeers(b.net, b.states, b.events, n);
    assert Built(keys, (a, seg).1) && PeersFace(b.net, (a, seg).1.entries);
  }

  /** Inside a leg, the interface a hop names as the way out leads to the AS of the next hop. */
  lemma {:induction false} InsideLeg(net: LoopFreedom.Network, leg: Leg, t: nat)
    requires leg.Valid() && t + 1 < leg.Len()
    requires LoopFreedom.Walk(net, leg.seg.entries) && PeersFace(net, leg.seg.entries)
    ensures LoopFreedom.Faces(net, leg.Local(t), EgressOf(leg, t), leg.Local(t + 1))
  {
    hide Counting.Distinct;
    var es, i := leg.seg.entries, leg.Index(t);
    if leg.consDir {
      assert LoopFreedom.Faces(net, es[i].local, es[i].hop.consEgress, es[i].next) && es[i].next == es[i + 1].local;
      if leg.IsPeerHop(t) { assert PeerFaces(net, es[i], leg.peer - 1); }
    } else {
      assert LoopFreedom.Faces(net, es[i].local, es[i].hop.consIngress, es[i - 1].local);
    }
  }

  /** Over a peer link it leads to the AS that the peer entry names. */
  lemma {:induction false} OverPeerLink(net: LoopFreedom.Network, leg: Leg)
    requires leg.Valid() && leg.Len() > 0 && leg.peer != 0 && !leg.consDir && PeersFace(net, leg.seg.entries)
    ensures var e := EgressOf(leg, leg.Len() - 1); var p := leg.seg.entries[leg.shortcut].peers[leg.peer - 1];
      e != 0 ==> LoopFreedom.Faces(net, leg.Local(leg.Len() - 1), e, p.peer)
  {
    assert PeerFaces(net, leg.seg.entries[leg.shortcut], leg.peer - 1);
  }

  /** A hop with no next hop in its leg, and no switch, is the peering hop at the end of an up leg. */
  lemma {:induction false} CrossesPeerLink(legs: seq<Leg>, j: nat, t: nat)
    requires WellFormed(legs) && ValidPos(legs, j, t) && SwitchLeg(legs, j, t) == (j, t)
    requires t + 1 == legs[j].Len() && j + 1 < |legs|
    ensures j == 0 && |legs| == 2 && legs[0].peer != 0 && legs[1].peer != 0 && !legs[0].consDir
  {
    hide FitsHeader;
    LegsValid(legs);
  }

  lemma {:induction false} NextLinked(keys: Keys, b: Beacons, net: Network.Network, legs: seq<Leg>, j: nat, t: nat)
    requires b.Valid(keys) && WellFormed(legs) && AllRegistered(b, legs) && PeersMeet(legs) && Agree(b, net)
    requires Network.Consistent(net)
    requires ValidPos(legs, j, t) && SwitchLeg(legs, j, t) == (j, t) && NextPos(legs, j, t).0 < |legs|
    ensures var (m, w) := NextPos(legs, j, t); var k := (legs[j].Local(t), EgressOf(legs[j], t));
      ValidPos(legs, m, w) && (k in net.remote ==> net.remote[k].0 == legs[m].Local(w))
  {
    hide WellFormed, LoopFreedom.Faces, LoopFreedom.Walk, PeersFace, Built, EgressOf, Network.Typed;
    LegsValid(legs);
    SegmentFacts(keys, b, legs[j].seg);
    if t + 1 < legs[j].Len() {
      InsideLeg(b.net, legs[j], t);
    } else {
      CrossesPeerLink(legs, j, t);
      OverPeerLink(b.net, legs[j]);
    }
  }

  /** Paths over registered segments have authentic MACs, and their hops follow the links. */
  lemma {:induction false} BeaconedPath(keys: Keys, b: Beacons, net: Network.Network, legs: seq<Leg>)
    requires b.Valid(keys) && WellFormed(legs) && AllRegistered(b, legs) && PeersMeet(legs) && Agree(b, net)
    requires Network.Consistent(net)
    ensures AllBuilt(keys, legs) && Linked(net, legs)
  {
    hide Network.Consistent, WellFormed, Built, Agree, PeersMeet;
    LegsValid(legs);
    forall i | 0 <= i < |legs| ensures Built(keys, legs[i].seg) { SegmentFacts(keys, b, legs[i].seg); }
    forall j: nat, t: nat | ValidPos(legs, j, t) && SwitchLeg(legs, j, t) == (j, t) && NextPos(legs, j, t).0 < |legs|
      ensures var (m, w) := NextPos(legs, j, t); var k := (legs[j].Local(t), EgressOf(legs[j], t));
        k in net.remote ==> net.remote[k].0 == legs[m].Local(w)
    {
      NextLinked(keys, b, net, legs, j, t);
    }
  }

  /**
   End to end from beaconing: segments registered in any run of the protocol, any path combined
   from them, and any run of the packet.  At no router does a MAC check fail.
   */
  lemma {:induction false} BeaconedRun(keys: Keys, b: Beacons, net: Network.Network, legs: seq<Leg>, hdr: Router.Header,
                                       envs: seq<Router.Env>, states: seq<Network.Transit>)
    requires b.Valid(keys) && WellFormed(legs) && AllRegistered(b, legs) && PeersMeet(legs) && Agree(b, net)
    requires Network.Consistent(net) && Keyed(net, keys)
    requires Network.IsRun(net, hdr, envs, states) && Network.Injected(net, states[0])
    requires states[0].path == ForwardingPath(legs)
    requires net.routers[states[0].router].localIA == legs[0].Local(0)
    ensures forall i :: 0 <= i < |states| ==> MacsVerify(net, hdr, states[i])
  {
    BeaconedPath(keys, b, net, legs);
    hide WellFormed, AllBuilt, Linked, Network.Consistent, Network.Step, Keyed, MacsVerify;
    AuthorizedRun(net, keys, hdr, envs, states, legs);
  }
}
