/**
 The direction of beacons: they travel over core links and down, never up and never over peer
 links, so that is how every registered segment leads.
 */
module BeaconDirection {
  import opened Basics
  import opened Segments
  import opened BeaconPolicy
  import opened LoopFreedom
  import Beaconing
  import Extender

  /** Interface `i` of `a` is on a link of one of the two types. */
  predicate OnLink(net: Network, a: IA, i: IfId, t: LinkType, u: LinkType) {
    && a in net.nodes && i in net.nodes[a].cfg.intfs
    && (net.nodes[a].cfg.intfs[i].linkType == t || net.nodes[a].cfg.intfs[i].linkType == u)
  }

  /** Every hop but the first was reached over a link from a parent or a core link. */
  ghost predicate ReachedDown(net: Network, es: seq<ASEntry>) {
    forall i :: 0 < i < |es| ==> OnLink(net, es[i].local, es[i].hop.consIngress, Parent, Core)
  }

  ghost predicate AllReachedDown(net: Network, s: State) {
    && (forall m <- s.flight :: ReachedDown(net, m.segment.entries))
    && (forall x <- s.stored ::
          ReachedDown(net, x.1.segment.entries) && OnLink(net, x.0, x.1.inIfId, Parent, Core))
    && (forall x <- s.registered :: ReachedDown(net, x.1.entries))
  }

  lemma ExtendedDown(net: Network, a: IA, s: Segment, ingress: IfId, egress: IfId, peers: seq<IfId>,
                     expTime: Option<nat>)
    requires net.Valid() && a in net.nodes && ReachedDown(net, s.entries)
    requires Extender.Extended(net.nodes[a].cfg, s, ingress, egress, peers, expTime).Some?
    requires s.entries != [] ==> OnLink(net, a, ingress, Parent, Core)
    ensures ReachedDown(net, Extender.Extended(net.nodes[a].cfg, s, ingress, egress, peers, expTime).value.entries)
  {
    ExtendedEntry(net.nodes[a].cfg, s, ingress, egress, peers, expTime);
    hide Extender.Extended, OnLink;
  }

  lemma StepDown(net: Network, s: State, ev: Event, t: State)
    requires net.Valid() && AllReachedDown(net, s) && Step(net, s, ev, t)
    ensures AllReachedDown(net, t)
  {
    hide Extender.Extended, ReachedDown;
    match ev {
      case Originate(a, egress, segId, timestamp, expTime) =>
        var seg := Segment(segId, timestamp, []);
        NoneReached(net);
        if Extender.Extended(net.nodes[a].cfg, seg, 0, egress, [], expTime).Some? {
          ExtendedDown(net, a, seg, 0, egress, [], expTime);
        }
      case Propagate(a, b, egress, peers, expTime) =>
        assert ReachedDown(net, (a, b).1.segment.entries) && OnLink(net, (a, b).0, (a, b).1.inIfId, Parent, Core);
        if Extender.Extended(net.nodes[a].cfg, b.segment, b.inIfId, egress, peers, expTime).Some? {
          ExtendedDown(net, a, b.segment, b.inIfId, egress, peers, expTime);
        }
      case Terminate(a, b, peers, expTime) =>
        assert ReachedDown(net, (a, b).1.segment.entries) && OnLink(net, (a, b).0, (a, b).1.inIfId, Parent, Core);
        if Extender.Extended(net.nodes[a].cfg, b.segment, b.inIfId, 0, peers, expTime).Some? {
          ExtendedDown(net, a, b.segment, b.inIfId, 0, peers, expTime);
        }
      case _ =>
    }
  }

  lemma NoneReached(net: Network)
    ensures ReachedDown(net, [])
  {
  }

  /** In every run beacons are stored from parents and core neighbours only, hop by hop. */
  lemma {:induction false} RunDown(net: Network, states: seq<State>, events: seq<Event>, i: nat)
    requires net.Valid() && IsRun(net, states, events) && i < |states|
    ensures AllReachedDown(net, states[i])
  {
    if i > 0 {
      RunDown(net, states, events, i - 1);
      StepDown(net, states[i - 1], events[i - 1], states[i]);
    }
  }

  /** All links between two ASes are of types that fit together. */
  ghost predicate Opposed(net: Network) {
    forall a: IA, i: IfId, b: IA, j: IfId :: Faces(net, a, i, b) && Faces(net, b, j, a) ==>
      match net.nodes[a].cfg.intfs[i].linkType
      case Parent => net.nodes[b].cfg.intfs[j].linkType == Child
      case Child => net.nodes[b].cfg.intfs[j].linkType == Parent
      case t => net.nodes[b].cfg.intfs[j].linkType == t
  }

  /** Every hop but the last of a segment goes on over a core link or to a child. */
  ghost predicate GoesDown(net: Network, es: seq<ASEntry>) {
    forall i :: 0 <= i < |es| - 1 ==> OnLink(net, es[i].local, es[i].hop.consEgress, Child, Core)
  }

  lemma WalkDown(net: Network, es: seq<ASEntry>)
    requires Walk(net, es) && ReachedDown(net, es) && Opposed(net)
    ensures GoesDown(net, es)
  {
    forall i | 0 <= i < |es| - 1 ensures OnLink(net, es[i].local, es[i].hop.consEgress, Child, Core) {
      assert Faces(net, es[i].local, es[i].hop.consEgress, es[i].next);
      assert Faces(net, es[i + 1].local, es[i + 1].hop.consIngress, es[i].local);
      assert OnLink(net, es[i + 1].local, es[i + 1].hop.consIngress, Parent, Core);
    }
  }

  /** Where link types fit together, stored beacons lead over core links and down, also to the AS that stores them. */
  lemma BeaconsLeadDown(net: Network, states: seq<State>, events: seq<Event>, i: nat, a: IA, b: Beacon)
    requires net.Valid() && Opposed(net) && IsRun(net, states, events) && i < |states| && (a, b) in states[i].stored
    ensures GoesDown(net, b.segment.entries) && b.segment.entries != []
    ensures var last := b.segment.entries[|b.segment.entries| - 1];
      OnLink(net, last.local, last.hop.consEgress, Child, Core) && OnLink(net, a, b.inIfId, Parent, Core)
  {
    RunDown(net, states, events, i);
    RunInvariant(net, states, events, i);
    assert StoredWell(net, (a, b).0, (a, b).1);
    assert ReachedDown(net, (a, b).1.segment.entries) && OnLink(net, (a, b).0, (a, b).1.inIfId, Parent, Core);
    WalkDown(net, b.segment.entries);
    hide Walk, ReachedDown, GoesDown;
    var last := Beaconing.Last(b.segment.entries);
    assert Faces(net, last.local, last.hop.consEgress, a) && Faces(net, a, b.inIfId, last.local);
  }

  /** So do registered segments. */
  lemma SegmentsLeadDown(net: Network, states: seq<State>, events: seq<Event>, i: nat, a: IA, seg: Segment)
    requires net.Valid() && Opposed(net) && IsRun(net, states, events) && i < |states|
    requires (a, seg) in states[i].registered
    ensures GoesDown(net, seg.entries)
  {
    RunDown(net, states, events, i);
    SegmentsNeverLoop(net, states, events, i, a, seg);
    assert ReachedDown(net, (a, seg).1.entries);
    WalkDown(net, seg.entries);
  }
}
