/**
 Beaconing as a distributed protocol: control services originate, propagate, receive and
 terminate beacons, in any order, with losses and duplicates.  No beacon ever loops.
 */
module LoopFreedom {
  import opened Basics
  import opened Counting
  import opened ScionPath
  import opened Segments
  import opened BeaconPolicy
  import opened Beaconing
  import Extender

  datatype Network = Network(nodes: map<IA, Node>) {
    /** The only assumption on the topology: no link joins an AS to itself.  Interface 0 is not a link. */
    ghost predicate Valid() {
      forall a <- nodes ::
        && nodes[a].cfg.ia == a && 0 !in nodes[a].cfg.intfs
        && forall i <- nodes[a].cfg.intfs :: nodes[a].cfg.intfs[i].remoteIA != a
    }
  }

  datatype Message = Message(to: IA, segment: Segment)

  datatype State = State(stored: set<(IA, Beacon)>, flight: set<Message>, registered: set<(IA, Segment)>)

  datatype Event =
    | Originate(a: IA, egress: IfId, segId: Word16, timestamp: nat, expTime: Option<nat>)
    | Receive(m: Message, inIfId: IfId, verified: bool)
    | Propagate(a: IA, b: Beacon, egress: IfId, peers: seq<IfId>, expTime: Option<nat>)
    | Terminate(a: IA, b: Beacon, peers: seq<IfId>, expTime: Option<nat>)
    | Lose(m: Message)
    | Expire(a: IA, b: Beacon)

  function Send(cfg: Extender.Config, s: State, egress: IfId, seg: Option<Segment>): State {
    if seg.Some? && egress in cfg.intfs then s.(flight := s.flight + {Message(cfg.intfs[egress].remoteIA, seg.value)})
    else s
  }

  /** A message may arrive on any interface of its destination, and more than once. */
  ghost predicate Step(net: Network, s: State, ev: Event, t: State) {
    match ev
    case Originate(a, egress, segId, timestamp, expTime) =>
      && a in net.nodes && egress in net.nodes[a].cfg.intfs
      && var cfg := net.nodes[a].cfg;
      t == Send(cfg, s, egress, Extender.Extended(cfg, Segment(segId, timestamp, []), 0, egress, [], expTime))
    case Receive(m, inIfId, verified) =>
      && m in s.flight && m.to in net.nodes
      && var b := Beacon(m.segment, inIfId);
      t == if Accepted(net.nodes[m.to], b, verified) then s.(stored := s.stored + {(m.to, b)}) else s
    case Propagate(a, b, egress, peers, expTime) =>
      && a in net.nodes && (a, b) in s.stored && ToSend(net.nodes[a], b, egress)
      && var cfg := net.nodes[a].cfg;
      t == Send(cfg, s, egress, Extender.Extended(cfg, b.segment, b.inIfId, egress, peers, expTime))
    case Terminate(a, b, peers, expTime) =>
      && a in net.nodes && (a, b) in s.stored
      && var x := Extender.Extended(net.nodes[a].cfg, b.segment, b.inIfId, 0, peers, expTime);
      t == if x.Some? then s.(registered := s.registered + {(a, x.value)}) else s
    case Lose(m) => t == s.(flight := s.flight - {m})
    case Expire(a, b) => t == s.(stored := s.stored - {(a, b)})
  }

  /** Interface `i` of `a` leads to `b`. */
  predicate Faces(net: Network, a: IA, i: IfId, b: IA) {
    a in net.nodes && i in net.nodes[a].cfg.intfs && net.nodes[a].cfg.intfs[i].remoteIA == b
  }

  /** Distinct ASes, each joined to the next by interfaces that both lead to the other. */
  ghost predicate Walk(net: Network, es: seq<ASEntry>) {
    && es != []
    && Distinct(Locals(es))
    && (forall i :: 0 <= i < |es| ==> es[i].local in net.nodes && (es[i].hop.consIngress == 0 <==> i == 0))
    && (forall i :: 0 <= i < |es| - 1 ==> es[i].hop.consEgress != 0 && es[i].next == es[i + 1].local)
    && (forall i :: 0 <= i < |es| - 1 ==> Faces(net, es[i].local, es[i].hop.consEgress, es[i].next))
    && (forall i :: 0 < i < |es| ==> Faces(net, es[i].local, es[i].hop.consIngress, es[i - 1].local))
  }

  /** A walk that leaves its last AS towards `to`, where it has not been. */
  ghost predicate Heading(net: Network, to: IA, s: Segment) {
    && Walk(net, s.entries)
    && to !in Locals(s.entries)
    && Last(s.entries).next == to && Last(s.entries).hop.consEgress != 0
    && Faces(net, Last(s.entries).local, Last(s.entries).hop.consEgress, to)
  }

  ghost predicate StoredWell(net: Network, a: IA, b: Beacon) {
    && a in net.nodes && Heading(net, a, b.segment) 
    && Faces(net, a, b.inIfId, Last(b.segment.entries).local)
  }

  /** A walk that ends at `a`. */
  ghost predicate EndsAt(net: Network, a: IA, s: Segment) {
    && Walk(net, s.entries)
    && Last(s.entries).local == a && Last(s.entries).hop.consEgress == 0 && Last(s.entries).next.IsZero()
  }

  ghost predicate Invariant(net: Network, s: State) {
    && (forall m <- s.flight :: Heading(net, m.to, m.segment))
    && (forall x <- s.stored :: StoredWell(net, x.0, x.1))
    && (forall x <- s.registered :: EndsAt(net, x.0, x.1))
  }

  // ----- Every step ------------------------------------------------------------------

  /** Appending a new AS to a walk that heads for it. */
  lemma AppendWalk(net: Network, a: IA, es: seq<ASEntry>, e: ASEntry)
    requires a in net.nodes && e.local == a
    requires es == [] ==> e.hop.consIngress == 0
    requires es != [] ==>
      && Walk(net, es) && a !in Locals(es) && Last(es).next == a && Last(es).hop.consEgress != 0
      && Faces(net, Last(es).local, Last(es).hop.consEgress, a)
      && e.hop.consIngress != 0 && Faces(net, a, e.hop.consIngress, Last(es).local)
    ensures Walk(net, es + [e])
  {
    var t := es + [e];
    forall i, j | 0 <= i < j < |t| ensures Locals(t)[i] != Locals(t)[j] {
      assert t[i] == es[i] && Locals(es)[i] == es[i].local;
      if j < |es| { assert Locals(es)[j] == t[j].local; }
    }
  }

  /** What a successful extension adds. */
  lemma ExtendedEntry(cfg: Extender.Config, s: Segment, ingress: IfId, egress: IfId, peers: seq<IfId>,
                      expTime: Option<nat>)
    requires Extender.Extended(cfg, s, ingress, egress, peers, expTime).Some?
    ensures var t := Extender.Extended(cfg, s, ingress, egress, peers, expTime).value;
      && |t.entries| == |s.entries| + 1 && t.entries == s.entries + [Last(t.entries)]
      && Last(t.entries).local == cfg.ia
      && Last(t.entries).hop.consIngress == ingress && Last(t.entries).hop.consEgress == egress
      && (ingress == 0 <==> s.entries == [])
      && (if egress == 0 then Last(t.entries).next == NO_IA
          else
            && egress in cfg.intfs && Last(t.entries).next == cfg.intfs[egress].remoteIA
            && !Last(t.entries).next.IsZero())
  {
  }

  lemma OriginateHeads(net: Network, a: IA, s: Segment, egress: IfId, expTime: Option<nat>)
    requires net.Valid() && a in net.nodes && s.entries == []
    requires egress in net.nodes[a].cfg.intfs
    requires Extender.Extended(net.nodes[a].cfg, s, 0, egress, [], expTime).Some?
    ensures Heading(net, net.nodes[a].cfg.intfs[egress].remoteIA,
                    Extender.Extended(net.nodes[a].cfg, s, 0, egress, [], expTime).value)
  {
    hide Extender.Extended, Walk;
    var cfg := net.nodes[a].cfg;
    var t := Extender.Extended(cfg, s, 0, egress, [], expTime).value;
    ExtendedEntry(cfg, s, 0, egress, [], expTime);
    AppendWalk(net, a, s.entries, Last(t.entries));
    assert Locals(t.entries)[0] == a;
  }

  lemma PropagateHeads(net: Network, a: IA, b: Beacon, egress: IfId, peers: seq<IfId>, expTime: Option<nat>)
    requires net.Valid() && StoredWell(net, a, b) && ToSend(net.nodes[a], b, egress)
    requires Extender.Extended(net.nodes[a].cfg, b.segment, b.inIfId, egress, peers, expTime).Some?
    ensures Heading(net, net.nodes[a].cfg.intfs[egress].remoteIA,
                    Extender.Extended(net.nodes[a].cfg, b.segment, b.inIfId, egress, peers, expTime).value)
  {
    hide Walk, LoopsPass, Extender.Extended;
    var cfg := net.nodes[a].cfg;
    var next := cfg.intfs[egress].remoteIA;
    var t := Extender.Extended(cfg, b.segment, b.inIfId, egress, peers, expTime).value;
    ExtendedEntry(cfg, b.segment, b.inIfId, egress, peers, expTime);
    AppendWalk(net, a, b.segment.entries, Last(t.entries));
    WalkDistinct(net, b.segment.entries);
    LoopFilterKeepsDistinct(b, next, net.nodes[a].allowIsdLoop);
    forall i | 0 <= i < |t.entries| ensures Locals(t.entries)[i] != next {
      if i < |b.segment.entries| { assert Locals(b.segment.entries)[i] == t.entries[i].local; }
    }
  }

  lemma TerminateEnds(net: Network, a: IA, b: Beacon, peers: seq<IfId>, expTime: Option<nat>)
    requires net.Valid() && StoredWell(net, a, b)
    requires Extender.Extended(net.nodes[a].cfg, b.segment, b.inIfId, 0, peers, expTime).Some?
    ensures EndsAt(net, a, Extender.Extended(net.nodes[a].cfg, b.segment, b.inIfId, 0, peers, expTime).value)
  {
    hide Extender.Extended, Walk;
    var t := Extender.Extended(net.nodes[a].cfg, b.segment, b.inIfId, 0, peers, expTime).value;
    ExtendedEntry(net.nodes[a].cfg, b.segment, b.inIfId, 0, peers, expTime);
    AppendWalk(net, a, b.segment.entries, Last(t.entries));
  }

  lemma StepInvariant(net: Network, s: State, ev: Event, t: State)
    requires net.Valid() && Invariant(net, s) && Step(net, s, ev, t)
    ensures Invariant(net, t)
  {
    hide Extender.Extended, Heading, EndsAt;
    match ev {
      case Originate(a, egress, segId, timestamp, expTime) =>
        var seg := Segment(segId, timestamp, []);
        if Extender.Extended(net.nodes[a].cfg, seg, 0, egress, [], expTime).Some? {
          OriginateHeads(net, a, seg, egress, expTime);
        }
      case Receive(m, inIfId, verified) =>
        HeadingNonEmpty(net, m.to, m.segment);
      case Propagate(a, b, egress, peers, expTime) =>
        assert StoredWell(net, (a, b).0, (a, b).1);
        if Extender.Extended(net.nodes[a].cfg, b.segment, b.inIfId, egress, peers, expTime).Some? {
          PropagateHeads(net, a, b, egress, peers, expTime);
        }
      case Terminate(a, b, peers, expTime) =>
        assert StoredWell(net, (a, b).0, (a, b).1);
        if Extender.Extended(net.nodes[a].cfg, b.segment, b.inIfId, 0, peers, expTime).Some? {
          TerminateEnds(net, a, b, peers, expTime);
        }
      case _ =>
    }
  }

  lemma WalkDistinct(net: Network, es: seq<ASEntry>)
    requires Walk(net, es)
    ensures Distinct(Locals(es))
  {
  }

  lemma HeadingNonEmpty(net: Network, to: IA, s: Segment)
    requires Heading(net, to, s)
    ensures s.entries != []
  {
  }

  // ----- Whole runs ------------------------------------------------------------------

  ghost predicate IsRun(net: Network, states: seq<State>, events: seq<Event>) {
    && |states| == |events| + 1 && states[0] == State({}, {}, {})
    && forall i :: 0 <= i < |events| ==> Step(net, states[i], events[i], states[i + 1])
  }

  lemma {:induction false} RunInvariant(net: Network, states: seq<State>, events: seq<Event>, i: nat)
    requires net.Valid() && IsRun(net, states, events) && i < |states|
    ensures Invariant(net, states[i])
  {
    if i > 0 {
      RunInvariant(net, states, events, i - 1);
      StepInvariant(net, states[i - 1], events[i - 1], states[i]);
    }
  }

  lemma WalkLength(net: Network, es: seq<ASEntry>, others: set<IA>)
    requires Walk(net, es) && forall i :: 0 <= i < |es| ==> es[i].local in others
    ensures |es| <= |others|
  {
    DistinctCount(Locals(es));
    ElementsMeans(Locals(es));
    SubsetCount(Elements(Locals(es)), others);
  }

  /**
   In every run, a beacon stored at or on its way to an AS is a walk over distinct ASes that
   has not been there yet; with that AS, it is no longer than the network is large.
   */
  lemma BeaconsNeverLoop(net: Network, states: seq<State>, events: seq<Event>, i: nat, to: IA, seg: Segment)
    requires net.Valid() && IsRun(net, states, events) && i < |states|
    requires Message(to, seg) in states[i].flight || exists inIf: IfId :: (to, Beacon(seg, inIf)) in states[i].stored
    ensures Heading(net, to, seg)
    ensures |seg.entries| <= |net.nodes.Keys - {to}|
  {
    RunInvariant(net, states, events, i);
    if Message(to, seg) !in states[i].flight {
      var inIf: IfId :| (to, Beacon(seg, inIf)) in states[i].stored;
      assert StoredWell(net, (to, Beacon(seg, inIf)).0, (to, Beacon(seg, inIf)).1);
    }
    forall k | 0 <= k < |seg.entries| ensures seg.entries[k].local in net.nodes.Keys - {to} {
      assert Locals(seg.entries)[k] == seg.entries[k].local;
    }
    WalkLength(net, seg.entries, net.nodes.Keys - {to});
  }

  /** Registered segments are walks over distinct ASes that end where they were registered. */
  lemma SegmentsNeverLoop(net: Network, states: seq<State>, events: seq<Event>, i: nat, a: IA, seg: Segment)
    requires net.Valid() && IsRun(net, states, events) && i < |states| && (a, seg) in states[i].registered
    ensures EndsAt(net, a, seg)
    ensures |seg.entries| <= |net.nodes|
  {
    RunInvariant(net, states, events, i);
    assert EndsAt(net, (a, seg).0, (a, seg).1);
    WalkLength(net, seg.entries, net.nodes.Keys);
  }

  /** The assumption is needed: over a link to itself an AS sends itself a beacon it is already in. */
  lemma SelfLinkLoops(net: Network, a: IA, i: IfId, segId: Word16, timestamp: nat, expTime: nat) returns (t: State,
                      m: Message)
    requires a in net.nodes && net.nodes[a].cfg.ia == a && net.nodes[a].cfg.mtu != 0 && !a.IsWildcard()
    requires i != 0 && i in net.nodes[a].cfg.intfs && net.nodes[a].cfg.intfs[i].remoteIA == a
    ensures Step(net, State({}, {}, {}), Originate(a, i, segId, timestamp, Some(expTime)), t)
    ensures m in t.flight && m.to == a && a in Locals(m.segment.entries)
  {
    var cfg := net.nodes[a].cfg;
    var x := Extender.Extended(cfg, Segment(segId, timestamp, []), 0, i, [], Some(expTime));
    t := Send(cfg, State({}, {}, {}), i, x);
    m := Message(a, x.value);
    assert Locals(m.segment.entries)[0] == a;
  }

  // ----- Authenticity ----------------------------------------------------------------

  ghost predicate Chained(keys: Keys, s: State) {
    && (forall m <- s.flight :: Built(keys, m.segment))
    && (forall x <- s.stored :: Built(keys, x.1.segment))
    && (forall x <- s.registered :: Built(keys, x.1))
  }

  lemma StepChained(net: Network, keys: Keys, s: State, ev: Event, t: State)
    requires forall a <- net.nodes :: net.nodes[a].cfg.mac == keys(net.nodes[a].cfg.ia)
    requires Chained(keys, s) && Step(net, s, ev, t)
    ensures Chained(keys, t)
  {
    hide Extender.Extended, Accepted;
    match ev {
      case Originate(a, egress, segId, timestamp, expTime) =>
        var seg := Segment(segId, timestamp, []);
        if Extender.Extended(net.nodes[a].cfg, seg, 0, egress, [], expTime).Some? {
          Extender.ExtendedBuilt(keys, net.nodes[a].cfg, seg, 0, egress, [], expTime);
        }
      case Propagate(a, b, egress, peers, expTime) =>
        assert Built(keys, (a, b).1.segment);
        if Extender.Extended(net.nodes[a].cfg, b.segment, b.inIfId, egress, peers, expTime).Some? {
          Extender.ExtendedBuilt(keys, net.nodes[a].cfg, b.segment, b.inIfId, egress, peers, expTime);
        }
      case Terminate(a, b, peers, expTime) =>
        assert Built(keys, (a, b).1.segment);
        if Extender.Extended(net.nodes[a].cfg, b.segment, b.inIfId, 0, peers, expTime).Some? {
          Extender.ExtendedBuilt(keys, net.nodes[a].cfg, b.segment, b.inIfId, 0, peers, expTime);
        }
      case _ =>
    }
  }

  /** Every segment registered in any run has the chained MACs that the routers check. */
  lemma {:induction false} SegmentsAuthentic(net: Network, keys: Keys, states: seq<State>, events: seq<Event>, i: nat)
    requires forall a <- net.nodes :: net.nodes[a].cfg.mac == keys(net.nodes[a].cfg.ia)
    requires IsRun(net, states, events) && i < |states|
    ensures Chained(keys, states[i])
  {
    if i > 0 {
      SegmentsAuthentic(net, keys, states, events, i - 1);
      StepChained(net, keys, states[i - 1], events[i - 1], states[i]);
    }
  }
}
