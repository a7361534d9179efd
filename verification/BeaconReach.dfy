/**
 Which segments beaconing finds: every chain of links down or between core ASes that the policies
 let pass is registered in some run.
 */
module BeaconReach {
  import opened Basics
  import opened ScionPath
  import opened Segments
  import opened BeaconPolicy
  import opened LoopFreedom
  import Beaconing
  import Extender
  import ExtenderLaws

  /** An AS on the way, the interface by which it is entered, and the one by which it is left. */
  datatype Stop = Stop(ia: IA, ingress: IfId, egress: IfId)

  /** The control service of the AS is set up, and the interface by which it is left leads to the next AS. */
  ghost predicate Leads(net: Network, a: Stop, next: IA) {
    && a.ia in net.nodes
    && var n := net.nodes[a.ia];
    && n.cfg.ia == a.ia && n.cfg.mtu > 0 && n.allowIsdLoop
    && a.egress != 0 && a.egress in n.cfg.intfs && n.cfg.intfs[a.egress].remoteIA == next
    && next.isd != 0 && next.asn != 0
  }

  /** The AS is entered from `prev`, a parent or a core neighbour. */
  ghost predicate Enters(net: Network, prev: IA, a: Stop) {
    && a.ia in net.nodes && a.ingress != 0
    && var cfg := net.nodes[a.ia].cfg;
    && cfg.ia == a.ia && cfg.mtu > 0 && a.ingress in cfg.intfs && cfg.intfs[a.ingress].remoteIA == prev
    && (cfg.intfs[a.ingress].linkType == Parent || cfg.intfs[a.ingress].linkType == Core)
  }

  /** The entries of a beacon over the first `k` stops. */
  ghost predicate Over(es: seq<ASEntry>, chain: seq<Stop>, k: nat) {
    && k < |chain| && |es| == k
    && forall i :: 0 <= i < k ==>
         && es[i].local == chain[i].ia && es[i].next == chain[i + 1].ia && es[i].peers == []
         && es[i].hop.consIngress == chain[i].ingress && es[i].hop.consEgress == chain[i].egress
  }

  /** The policies at stop `k` allow beacons over the stops before it to be sent on. */
  ghost predicate Welcome(net: Network, chain: seq<Stop>, k: nat)
    requires k < |chain| && chain[k].ia in net.nodes
  {
    forall b: Beacon :: Over(b.segment.entries, chain, k) ==> Allowed(net.nodes[chain[k].ia].policies, b, Prop)
  }

  /** A chain of distinct ASes that beacons can follow. */
  ghost predicate Followable(net: Network, chain: seq<Stop>) {
    && |chain| >= 2 && chain[0].ingress == 0
    && (forall i, j :: 0 <= i < j < |chain| ==> chain[i].ia != chain[j].ia)
    && (forall i :: 0 <= i < |chain| - 1 ==> Leads(net, chain[i], chain[i + 1].ia))
    && (forall i :: 0 < i < |chain| ==> Enters(net, chain[i - 1].ia, chain[i]) && Welcome(net, chain, i))
  }

  // ----- One AS further ----------------------------------------------------------------------

  /** The entry that the AS at stop `k` appends. */
  lemma EntryAppended(net: Network, chain: seq<Stop>, k: nat, s: Segment, expTime: nat)
    requires Followable(net, chain) && k + 1 < |chain| && Over(s.entries, chain, k)
    ensures chain[k].ia in net.nodes
    ensures var cfg := net.nodes[chain[k].ia].cfg;
      var x := Extender.Extended(cfg, s, chain[k].ingress, chain[k].egress, [], Some(expTime));
      x.Some? && Over(x.value.entries, chain, k + 1)
  {
    assert Leads(net, chain[k], chain[k + 1].ia);
    if k > 0 { assert Enters(net, chain[k - 1].ia, chain[k]); }
    var cfg := net.nodes[chain[k].ia].cfg;
    ExtenderLaws.ExtendedIff(cfg, s, chain[k].ingress, chain[k].egress, [], Some(expTime));
    NoneUsable(cfg);
    hide Extender.Extended, Leads, Enters, Welcome;
    OverConsistent(chain, k, s.entries);
    MayExtendHere(net, chain, k, s, expTime);
    var t := Extender.Extended(cfg, s, chain[k].ingress, chain[k].egress, [], Some(expTime)).value;
    AppendedOver(net, chain, k, s, t.entries, expTime);
  }

  lemma NoneUsable(cfg: Extender.Config)
    ensures var none: seq<IfId> := []; (set i: nat | i < |none| && ExtenderLaws.Usable(cfg, none[i])) == {}
  {
  }

  lemma OverConsistent(chain: seq<Stop>, k: nat, es: seq<ASEntry>)
    requires Over(es, chain, k) && chain[0].ingress == 0
    ensures ExtenderLaws.Consistent(es, chain[k].ia)
  {
  }

  lemma MayExtendHere(net: Network, chain: seq<Stop>, k: nat, s: Segment, expTime: nat)
    requires Followable(net, chain) && k + 1 < |chain| && Over(s.entries, chain, k)
    requires ExtenderLaws.Consistent(s.entries, chain[k].ia)
    ensures chain[k].ia in net.nodes
    ensures var cfg := net.nodes[chain[k].ia].cfg;
      ExtenderLaws.MayExtend(cfg, s, chain[k].ingress, chain[k].egress, Some(expTime))
  {
    hide ExtenderLaws.Consistent, Welcome, Over;
    assert Leads(net, chain[k], chain[k + 1].ia);
    if k > 0 { assert Enters(net, chain[k - 1].ia, chain[k]); }
    OverLength(s.entries, chain, k);
  }

  lemma OverLength(es: seq<ASEntry>, chain: seq<Stop>, k: nat)
    requires Over(es, chain, k)
    ensures |es| == k
  {
  }

  lemma AppendedOver(net: Network, chain: seq<Stop>, k: nat, s: Segment, es: seq<ASEntry>, expTime: nat)
    requires Followable(net, chain) && k + 1 < |chain| && Over(s.entries, chain, k) && chain[k].ia in net.nodes
    requires |es| == k + 1 && es[..k] == s.entries && es[k].peers == []
    requires ExtenderLaws.EntryFor(net.nodes[chain[k].ia].cfg, es[k], chain[k].ingress, chain[k].egress, expTime)
    ensures Over(es, chain, k + 1)
  {
    assert Leads(net, chain[k], chain[k + 1].ia);
    hide Followable, Enters, Welcome;
    forall i | 0 <= i < k ensures es[i] == s.entries[i] { assert es[..k][i] == es[i]; }
  }

  /** A message with the beacon over the stops before `k`, on its way to stop `k`. */
  ghost predicate OnTheWay(s: State, chain: seq<Stop>, k: nat, seg: Segment) {
    0 < k < |chain| && Over(seg.entries, chain, k) && Message(chain[k].ia, seg) in s.flight
  }

  ghost predicate StoredAt(s: State, chain: seq<Stop>, k: nat, seg: Segment) {
    && 0 < k < |chain| && Over(seg.entries, chain, k)
    && (chain[k].ia, Beacon(seg, chain[k].ingress)) in s.stored
  }

  /** It is stored when it arrives. */
  lemma Stored(net: Network, s: State, chain: seq<Stop>, k: nat, seg: Segment) returns (ev: Event, t: State)
    requires Followable(net, chain) && OnTheWay(s, chain, k, seg)
    ensures Step(net, s, ev, t) && StoredAt(t, chain, k, seg)
  {
    var b := Beacon(seg, chain[k].ingress);
    assert Enters(net, chain[k - 1].ia, chain[k]) && Welcome(net, chain, k);
    assert Allowed(net.nodes[chain[k].ia].policies, b, Prop);
    ev := Receive(Message(chain[k].ia, seg), chain[k].ingress, true);
    t := s.(stored := s.stored + {(chain[k].ia, b)});
  }

  /** No AS of a chain is repeated, so the loop filter lets the beacon pass to the next one. */
  lemma FilterPasses(chain: seq<Stop>, k: nat, b: Beacon)
    requires k + 1 < |chain| && Over(b.segment.entries, chain, k)
    requires forall i, j :: 0 <= i < j < |chain| ==> chain[i].ia != chain[j].ia
    ensures LoopsPass(HopsTo(b, chain[k + 1].ia), true)
  {
    var hops := HopsTo(b, chain[k + 1].ia);
    var l := Locals(b.segment.entries);
    forall i, j | 0 <= i < j < |hops| ensures hops[i] != hops[j] {
      assert i < |l| && hops[i] == chain[i].ia;
      assert hops[j] == if j < |l| then chain[j].ia else chain[k + 1].ia;
    }
  }

  /** The AS that stored it sends it on. */
  lemma SentOn(net: Network, s: State, chain: seq<Stop>, k: nat, seg: Segment, expTime: nat)
    returns (ev: Event, t: State, next: Segment)
    requires Followable(net, chain) && StoredAt(s, chain, k, seg) && k + 1 < |chain|
    ensures Step(net, s, ev, t) && OnTheWay(t, chain, k + 1, next)
  {
    var a, b := chain[k].ia, Beacon(seg, chain[k].ingress);
    assert Leads(net, chain[k], chain[k + 1].ia) && Enters(net, chain[k - 1].ia, chain[k]);
    EntryAppended(net, chain, k, seg, expTime);
    FilterPasses(chain, k, b);
    hide Extender.Extended, LoopsPass, HopsTo;
    var cfg := net.nodes[a].cfg;
    var x := Extender.Extended(cfg, seg, chain[k].ingress, chain[k].egress, [], Some(expTime));
    next := x.value;
    ev := Propagate(a, b, chain[k].egress, [], Some(expTime));
    t := Send(cfg, s, chain[k].egress, x);
  }

  /** The first AS originates it. */
  lemma Originated(net: Network, s: State, chain: seq<Stop>, segId: Word16, timestamp: nat, expTime: nat)
    returns (ev: Event, t: State, next: Segment)
    requires Followable(net, chain)
    ensures Step(net, s, ev, t) && OnTheWay(t, chain, 1, next)
  {
    var seg := Segment(segId, timestamp, []);
    assert Leads(net, chain[0], chain[1].ia);
    EntryAppended(net, chain, 0, seg, expTime);
    hide Extender.Extended;
    var cfg := net.nodes[chain[0].ia].cfg;
    var x := Extender.Extended(cfg, seg, 0, chain[0].egress, [], Some(expTime));
    next := x.value;
    ev := Originate(chain[0].ia, chain[0].egress, segId, timestamp, Some(expTime));
    t := Send(cfg, s, chain[0].egress, x);
  }

  // ----- Whole chains ------------------------------------------------------------------------

  lemma OneMore(net: Network, states: seq<State>, events: seq<Event>, ev: Event, t: State)
    requires IsRun(net, states, events) && Step(net, states[|events|], ev, t)
    ensures IsRun(net, states + [t], events + [ev]) && (states + [t])[|events| + 1] == t
  {
    hide Step;
  }

  /** Beacons reach every stop of a chain that they can follow. */
  lemma {:induction false} ReachesStop(net: Network, chain: seq<Stop>, k: nat, segId: Word16, timestamp: nat,
                                       expTime: nat)
    returns (states: seq<State>, events: seq<Event>, seg: Segment)
    requires Followable(net, chain) && 0 < k < |chain|
    ensures IsRun(net, states, events) && StoredAt(states[|events|], chain, k, seg)
  {
    hide Step, Followable, OnTheWay, StoredAt;
    var ev, t, next;
    if k == 1 {
      states, events := [State({}, {}, {})], [];
      ev, t, next := Originated(net, states[0], chain, segId, timestamp, expTime);
    } else {
      states, events, seg := ReachesStop(net, chain, k - 1, segId, timestamp, expTime);
      ev, t, next := SentOn(net, states[|events|], chain, k - 1, seg, expTime);
    }
    OneMore(net, states, events, ev, t);
    states, events, seg := states + [t], events + [ev], next;
    ev, t := Stored(net, states[|events|], chain, k, seg);
    OneMore(net, states, events, ev, t);
    states, events := states + [t], events + [ev];
  }

  /** The segment over the whole chain, ended in its last AS. */
  ghost predicate SegmentOver(chain: seq<Stop>, seg: Segment) {
    && |chain| > 0 && |seg.entries| == |chain|
    && (forall i :: 0 <= i < |chain| ==>
          seg.entries[i].local == chain[i].ia && seg.entries[i].hop.consIngress == chain[i].ingress)
    && (forall i :: 0 <= i < |chain| - 1 ==> seg.entries[i].hop.consEgress == chain[i].egress)
    && seg.entries[|chain| - 1].hop.consEgress == 0
  }

  /** Every chain that beacons can follow is registered as a segment in some run. */
  lemma {:induction false} ChainsRegistered(net: Network, chain: seq<Stop>, segId: Word16, timestamp: nat, expTime: nat)
    returns (states: seq<State>, events: seq<Event>, seg: Segment)
    requires Followable(net, chain)
    ensures IsRun(net, states, events)
    ensures (chain[|chain| - 1].ia, seg) in states[|events|].registered && SegmentOver(chain, seg)
  {
    hide Step, Followable, StoredAt;
    var n := |chain| - 1;
    LastStop(net, chain);
    var before;
    states, events, before := ReachesStop(net, chain, n, segId, timestamp, expTime);
    var ev, t;
    ev, t, seg := Ended(net, states[|events|], chain, before, expTime);
    OneMore(net, states, events, ev, t);
    states, events := states + [t], events + [ev];
  }

  lemma LastStop(net: Network, chain: seq<Stop>)
    requires Followable(net, chain)
    ensures |chain| >= 2
  {
  }

  lemma Ended(net: Network, s: State, chain: seq<Stop>, before: Segment, expTime: nat)
    returns (ev: Event, t: State, seg: Segment)
    requires Followable(net, chain) && StoredAt(s, chain, |chain| - 1, before)
    ensures Step(net, s, ev, t) && SegmentOver(chain, seg) && (chain[|chain| - 1].ia, seg) in t.registered
  {
    var n := |chain| - 1;
    var a, b := chain[n].ia, Beacon(before, chain[n].ingress);
    assert Enters(net, chain[n - 1].ia, chain[n]);
    var cfg := net.nodes[a].cfg;
    OverConsistent(chain, n, before.entries);
    ExtenderLaws.ExtendedIff(cfg, before, chain[n].ingress, 0, [], Some(expTime));
    hide Extender.Extended, Enters, Welcome, ExtenderLaws.Consistent;
    var x := Extender.Extended(cfg, before, chain[n].ingress, 0, [], Some(expTime));
    seg := x.value;
    forall i | 0 <= i < n ensures seg.entries[i] == before.entries[i] {
      assert seg.entries[..n][i] == seg.entries[i];
    }
    ev := Terminate(a, b, [], Some(expTime));
    t := s.(registered := s.registered + {(a, seg)});
  }
}
