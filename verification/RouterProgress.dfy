/**
 What a router does with a packet on an authorized path when nothing is in its way: it
 delivers the packet in the last AS, and sends it on towards the next AS in every other.
 */
module RouterProgress {
  import opened Basics
  import opened ScionPath
  import opened Segments
  import opened Combinator
  import opened Router
  import opened PathAuthorization
  import opened Network
  import opened FabridSlots

  /** The interface the hop names for packets that come in on the path. */
  function IngressOf(leg: Leg, t: nat): IfId
    requires leg.Valid() && t < leg.Len()
  {
    if leg.consDir then leg.Hop(t).consIngress else leg.Hop(t).consEgress
  }

  /** The interface on which the path enters the AS of the hop, also seen from after a switch. */
  function EntryOf(legs: seq<Leg>, j: nat, t: nat): IfId
    requires AllValid(legs) && ValidPos(legs, j, t)
  {
    if t == 0 && j > 0 && !legs[j].IsPeerHop(t) then IngressOf(legs[j - 1], legs[j - 1].Len() - 1)
    else IngressOf(legs[j], t)
  }

  predicate IsLast(legs: seq<Leg>, j: nat, t: nat)
    requires j < |legs| && legs[j].Valid()
  {
    j == |legs| - 1 && t == legs[j].Len() - 1
  }

  ghost predicate Quiet(path: Path) { forall k :: 0 <= k < |path.hops| ==> NoAlert(path.hops[k]) }

  /** No hop of the path has expired. */
  ghost predicate Fresh(legs: seq<Leg>, now: int)
    requires AllValid(legs)
  {
    forall j: nat, t: nat :: ValidPos(legs, j, t) ==>
      now <= 2 * legs[j].seg.timestamp + 675 * (legs[j].Hop(t).expTime + 1)
  }

  /** Nothing is in the way: no hop expired, no interface down, and all the packet asks for is granted. */
  ghost predicate Smooth(legs: seq<Leg>, env: Env)
    requires AllValid(legs) && |legs| > 0
  {
    && env.pktLenOk && env.resolve == Resolved && env.down == {}
    && (env.fabrid ==> env.fabridOk && NumASes(legs) <= 62)
    && Fresh(legs, env.now)
  }

  /**
   The packet goes from the AS of hop number `start` of the path to the last, and the path
   does not come back to either.
   */
  ghost predicate Addressed(hdr: Header, legs: seq<Leg>, start: nat)
    requires AllValid(legs) && |legs| > 0
  {
    forall j: nat, t: nat :: ValidPos(legs, j, t) ==>
      && (legs[j].Local(t) == hdr.dstIA <==> IsLast(legs, j, t))
      && (Offset(legs, j) + t == start ==> legs[j].Local(t) == hdr.srcIA)
      && (Offset(legs, j) + t > start ==> legs[j].Local(t) != hdr.srcIA)
  }

  /** The packet is past its start, or still inside the AS where it starts. */
  predicate UnderWay(path: Path, ingress: IfId, start: nat) {
    path.currHf >= start && (ingress != 0 ==> path.currHf > start)
  }

  /** The packet came in as the path says: over a link, from the source, or from the sibling that owns the entry. */
  ghost predicate Entered(c: Ctx, legs: seq<Leg>, j: nat, t: nat)
    requires AllValid(legs) && ValidPos(legs, j, t)
  {
    if c.ingress != 0 then c.ingress == IngressOf(legs[j], t)
    else
      && !IsLast(legs, j, t)
      && ((j, t) == (0, 0)
          || (EntryOf(legs, j, t) in c.d.internalNextHops
              && c.d.internalNextHops[EntryOf(legs, j, t)].ip == c.env.srcAddr.ip))
  }

  // ----- The ingress stage ---------------------------------------------------------------

  lemma {:induction false} PositionEnds(path: Path, legs: seq<Leg>, j: nat, t: nat)
    requires WellFormed(legs) && Shape(path, legs) && Positioned(path, legs, j, t)
    ensures path.IsFirstHop() <==> (j, t) == (0, 0)
    ensures path.IsLastHop() <==> IsLast(legs, j, t)
  {
    ShapeDecoded(path, legs, j, t);
    OffsetSteps(legs);
    OffsetMono(legs, j + 1, |legs|);
    assert Offset(legs, 0) == 0;
    if j > 0 { OffsetMono(legs, 1, j); }
    if j + 1 < |legs| { OffsetMono(legs, j + 2, |legs|); }
  }

  lemma {:induction false} AfterSwitchAt(path: Path, legs: seq<Leg>, j: nat, t: nat)
    requires WellFormed(legs) && Shape(path, legs) && Positioned(path, legs, j, t)
    ensures path.IsFirstHopAfterXover() <==> j > 0 && t == 0
  {
    ShapeDecoded(path, legs, j, t);
    OffsetSteps(legs);
    OffsetMono(legs, 0, j);
    if t > 0 {
      InfIndexAt(path, legs, j, t - 1);
    } else if j > 0 {
      InfIndexAt(path, legs, j - 1, legs[j - 1].Len() - 1);
    }
  }

  /** The current fields of a packet at hop (j, t), as far as they are authenticated. */
  lemma {:induction false} FieldsAt(path: Path, legs: seq<Leg>, j: nat, t: nat)
    requires WellFormed(legs) && Shape(path, legs) && Positioned(path, legs, j, t)
    ensures path.currHf < |path.hops| && path.currInf == j < |path.infos|
    ensures path.hops[path.currHf].Plain() == legs[j].Hop(t)
    ensures path.infos[j].consDir == legs[j].consDir && path.infos[j].timestamp == legs[j].seg.timestamp
  {
    HopAt(path, legs, j, t);
    hide Offset, HopsMatch;
  }

  /** The router reads the entry interface off the path. */
  lemma {:induction false} EntryAt(p: Proc, legs: seq<Leg>, j: nat, t: nat)
    requires WellFormed(legs) && Shape(p.path, legs) && Positioned(p.path, legs, j, t) && p.Valid()
    requires p.hop == p.path.hops[p.path.currHf] && p.info == p.path.infos[j] && p.peering == legs[j].IsPeerHop(t)
    ensures p.Ingress() == EntryOf(legs, j, t)
  {
    hide Shape, WellFormed, HopsMatch;
    LegsValid(legs);
    AfterSwitchAt(p.path, legs, j, t);
    FieldsAt(p.path, legs, j, t);
    if t == 0 && j > 0 && !legs[j].IsPeerHop(t) { HopBeforeSwitch(p.path, legs, j); }
  }

  lemma {:induction false} HopBeforeSwitch(path: Path, legs: seq<Leg>, j: nat)
    requires WellFormed(legs) && Shape(path, legs) && Positioned(path, legs, j, 0) && j > 0
    ensures 0 < path.currHf <= |path.hops| && j <= |path.infos|
    ensures path.hops[path.currHf - 1].Plain() == legs[j - 1].Hop(legs[j - 1].Len() - 1)
    ensures path.infos[j - 1].consDir == legs[j - 1].consDir
  {
    OffsetSteps(legs);
    HopOf(path.hops, legs, j - 1, legs[j - 1].Len() - 1);
    OffsetMono(legs, 0, j - 1);
  }

  lemma NotExpired(c: Ctx, p: Proc, legs: seq<Leg>, j: nat, t: nat)
    requires AllValid(legs) && |legs| > 0 && ValidPos(legs, j, t) && Smooth(legs, c.env)
    requires p.hop.Plain() == legs[j].Hop(t) && p.info.timestamp == legs[j].seg.timestamp
    ensures !Expired(c, p)
  {
  }

  /** The first checks, one by one. */
  lemma PrecheckPasses(c: Ctx, p: Proc)
    requires p.path.Decoded() && p.Valid() && !p.xover
    requires p.hop == p.path.hops[p.path.currHf] && p.info == p.path.infos[p.path.currInf]
    requires DeterminePeer(p.path, p.info) == Some(p.peering) && !Expired(c, p) && c.env.pktLenOk
    requires CheckIngress(c, p) == Go(p) && CheckTransitSource(c, p) == Go(p) && CheckSrcDst(c, p) == Go(p)
    ensures Precheck(c, p.path) == Go(p)
  {
    hide DeterminePeer, Expired, CheckIngress, CheckTransitSource, CheckSrcDst;
  }

  lemma {:induction false} PrecheckGoes(c: Ctx, path: Path, legs: seq<Leg>, start: nat, j: nat, t: nat)
    requires WellFormed(legs) && OnTrack(path, legs, j, t, c.ingress != 0) && path.Decoded()
    requires Smooth(legs, c.env) && Addressed(c.hdr, legs, start) && UnderWay(path, c.ingress, start)
    requires Entered(c, legs, j, t) && c.d.localIA == legs[j].Local(t)
    ensures Precheck(c, path).Go?
  {
    hide WellFormed, OnTrack, Shape, Offset, Smooth, DeterminePeer, Precheck, Expired;
    LegsValid(legs);
    TrackPos(path, legs, j, t, c.ingress != 0);
    FieldsAt(path, legs, j, t);
    PositionEnds(path, legs, j, t);
    var p := Proc(path, path.hops[path.currHf], path.infos[j], legs[j].IsPeerHop(t), false);
    PeerAt(path, legs, j, t);
    EntryAt(p, legs, j, t);
    NotExpired(c, p, legs, j, t);
    if c.ingress != 0 { ArrivingLater(path, legs, j, t); }
    SmoothLength(legs, c.env);
    PrecheckPasses(c, p);
  }

  lemma SmoothLength(legs: seq<Leg>, env: Env)
    requires AllValid(legs) && |legs| > 0 && Smooth(legs, env)
    ensures env.pktLenOk
  {
  }

  lemma ArrivingLater(path: Path, legs: seq<Leg>, j: nat, t: nat)
    requires WellFormed(legs) && OnTrack(path, legs, j, t, true)
    ensures (j, t) != (0, 0)
  {
  }

  lemma {:induction false} IngressGoes(keys: Keys, c: Ctx, path: Path, legs: seq<Leg>, start: nat, j: nat, t: nat)
    requires WellFormed(legs) && AllBuilt(keys, legs) && OnTrack(path, legs, j, t, c.ingress != 0) && path.Decoded()
    requires Quiet(path) && Smooth(legs, c.env) && Addressed(c.hdr, legs, start) && UnderWay(path, c.ingress, start)
    requires Entered(c, legs, j, t)
    requires c.d.localIA == legs[j].Local(t) && c.d.mac == keys(legs[j].Local(t))
    ensures IngressStage(c, path).Go?
    ensures var p := IngressStage(c, path).p; ProcAt(p, legs, j, t, false) && !p.xover && p.path.hops == path.hops
  {
    PrecheckGoes(c, path, legs, start, j, t);
    IngressOnTrack(keys, c, path, legs, j, t);
    PrecheckKeeps(c, path);
    hide Precheck, WellFormed, OnTrack, AllBuilt, Smooth, Addressed, Entered;
    var p := Precheck(c, path).p;
    assert NoAlert(p.hop);
  }

  // ----- The egress ----------------------------------------------------------------------

  lemma {:induction false} XoverGoes(keys: Keys, c: Ctx, p: Proc, legs: seq<Leg>, j: nat, t: nat)
    requires WellFormed(legs) && AllBuilt(keys, legs) && Smooth(legs, c.env)
    requires ProcAt(p, legs, j, t, false) && c.d.mac == keys(legs[j].Local(t)) && !p.xover
    ensures XoverStage(c, p).Go? && XoverStage(c, p).p.path.hops == p.path.hops
  {
    hide WellFormed, OnTrack, Shape, AllBuilt, Offset, Smooth, Expired;
    LegsValid(legs);
    XoverOnTrack(keys, c, p, legs, j, t);
    TrackPos(p.path, legs, j, t, false);
    IncPathAt(p.path, legs, j, t);
    if p.path.IsXover() && !p.peering {
      DoXoverOnTrack(p, legs, j, t);
      var q := DoXover(p).p;
      TrackPos(q.path, legs, j + 1, 0, false);
      FieldsAt(q.path, legs, j + 1, 0);
      NotExpired(c, q, legs, j + 1, 0);
    }
  }

  /** The packet may leave over the interface the path names, given where it came in. */
  ghost predicate MayLeave(c: Ctx, legs: seq<Leg>, j: nat, t: nat)
    requires AllValid(legs) && ValidPos(legs, j, t) && ValidPos(legs, SwitchLeg(legs, j, t).0, SwitchLeg(legs, j, t).1)
  {
    var (k, u) := SwitchLeg(legs, j, t);
    var e := EgressOf(legs[k], u);
    && (e in c.d.external || (e in c.d.internalNextHops && c.ingress != 0))
    && (if k != j then ValidSwitch(c.d.TypeOf(c.ingress), c.d.TypeOf(e))
        else c.ingress == 0 || ValidWithin(c.d.TypeOf(c.ingress), c.d.TypeOf(e)))
  }

  lemma {:induction false} EgressGoes(c: Ctx, q: Proc, legs: seq<Leg>, j: nat, t: nat)
    requires WellFormed(legs) && Smooth(legs, c.env) && ValidPos(legs, j, t)
    requires var (k, u) := SwitchLeg(legs, j, t);
      ValidPos(legs, k, u) && ProcAt(q, legs, k, u, false) && (q.xover <==> k != j) && MayLeave(c, legs, j, t)
    requires NoAlert(q.hop)
    ensures var (k, u) := SwitchLeg(legs, j, t); q.Egress() == EgressOf(legs[k], u)
    ensures EgressChecks(c, q).Go?
  {
    hide WellFormed, OnTrack, Shape, Offset;
    LegsValid(legs);
    var (k, u) := SwitchLeg(legs, j, t);
    TrackPos(q.path, legs, k, u, false);
    FieldsAt(q.path, legs, k, u);
  }

  /** A hop that is not the last one has a next hop, once a switch is done. */
  lemma {:induction false} NextExists(legs: seq<Leg>, j: nat, t: nat)
    requires WellFormed(legs) && ValidPos(legs, j, t) && !IsLast(legs, j, t)
    ensures var (k, u) := SwitchLeg(legs, j, t);
      ValidPos(legs, k, u) && SwitchLeg(legs, k, u) == (k, u) && NextPos(legs, k, u).0 < |legs|
    ensures var (k, u) := SwitchLeg(legs, j, t); !IsLast(legs, k, u)
  {
    SwitchOnce(legs, j, t);
  }

  lemma {:induction false} EmitGoes(c: Ctx, q: Proc, legs: seq<Leg>, k: nat, u: nat)
    requires WellFormed(legs) && Smooth(legs, c.env) && ProcAt(q, legs, k, u, false)
    requires SwitchLeg(legs, k, u) == (k, u) && NextPos(legs, k, u).0 < |legs|
    requires q.Egress() in c.d.external || q.Egress() in c.d.internalNextHops
    ensures match Emit(c, q)
            case Forwarded(e, path, _, _) => e == q.Egress() && e in c.d.external && path.hops == q.path.hops
            case HandedOver(next, path, _) =>
              q.Egress() !in c.d.external && next == c.d.internalNextHops[q.Egress()] && path.hops == q.path.hops
            case _ => false
  {
    hide WellFormed, OnTrack, Offset, ProcessHbhOptions;
    LegsValid(legs);
    TrackPos(q.path, legs, k, u, false);
    HbhAt(c, q, legs, k, u);
    EgressOnTrack(q, legs, k, u);
  }

  /** The verdict of a router on the way, and on what it depends. */
  ghost predicate Goes(v: Verdict, c: Ctx, legs: seq<Leg>, j: nat, t: nat)
    requires AllValid(legs) && ValidPos(legs, j, t) && ValidPos(legs, SwitchLeg(legs, j, t).0, SwitchLeg(legs, j, t).1)
  {
    if IsLast(legs, j, t) then v.Delivered?
    else
      var (k, u) := SwitchLeg(legs, j, t);
      var e := EgressOf(legs[k], u);
      match v
      case Forwarded(e', path, _, _) => e' == e && e in c.d.external && Quiet(path)
      case HandedOver(next, path, _) =>
        e !in c.d.external && e in c.d.internalNextHops && next == c.d.internalNextHops[e] && Quiet(path)
      case _ => false
  }

  /**
   One router: with nothing in the way it delivers the packet in the last AS, and otherwise
   sends it out over the interface the path names, or to the sibling that owns it.
   */
  lemma {:induction false} RouterGoes(keys: Keys, c: Ctx, path: Path, legs: seq<Leg>, start: nat, j: nat, t: nat)
    requires WellFormed(legs) && AllBuilt(keys, legs) && OnTrack(path, legs, j, t, c.ingress != 0) && path.Decoded()
    requires Quiet(path) && Smooth(legs, c.env) && Addressed(c.hdr, legs, start) && UnderWay(path, c.ingress, start)
    requires Entered(c, legs, j, t)
    requires c.d.localIA == legs[j].Local(t) && c.d.mac == keys(legs[j].Local(t))
    requires ValidPos(legs, SwitchLeg(legs, j, t).0, SwitchLeg(legs, j, t).1)
    requires !IsLast(legs, j, t) ==> MayLeave(c, legs, j, t)
    ensures Goes(Process(c, path), c, legs, j, t)
  {
    hide WellFormed, OnTrack, AllBuilt, Shape, Offset, IngressStage, XoverStage, EgressChecks, Emit, MayLeave, Smooth,
      Entered, ProcessHbhOptions;
    LegsValid(legs);
    TrackPos(path, legs, j, t, c.ingress != 0);
    IngressGoes(keys, c, path, legs, start, j, t);
    var p := IngressStage(c, path).p;
    assert c.hdr.dstIA == c.d.localIA <==> IsLast(legs, j, t);
    if IsLast(legs, j, t) {
      HbhAt(c, p, legs, j, t);
      SmoothInbound(legs, c.env);
    } else {
      var (k, u) := SwitchLeg(legs, j, t);
      NextExists(legs, j, t);
      XoverGoes(keys, c, p, legs, j, t);
      XoverOnTrack(keys, c, p, legs, j, t);
      var q := XoverStage(c, p).p;
      EgressGoes(c, q, legs, j, t);
      LeavesSomewhere(c, legs, j, t);
      EmitGoes(c, q, legs, k, u);
    }
  }

  lemma SmoothInbound(legs: seq<Leg>, env: Env)
    requires AllValid(legs) && |legs| > 0 && Smooth(legs, env)
    ensures env.resolve == Resolved && (env.fabrid ==> env.fabridOk && NumASes(legs) <= 62)
  {
  }

  lemma LeavesSomewhere(c: Ctx, legs: seq<Leg>, j: nat, t: nat)
    requires AllValid(legs) && ValidPos(legs, j, t) && ValidPos(legs, SwitchLeg(legs, j, t).0, SwitchLeg(legs, j, t).1)
    requires MayLeave(c, legs, j, t)
    ensures var (k, u) := SwitchLeg(legs, j, t);
      EgressOf(legs[k], u) in c.d.external || EgressOf(legs[k], u) in c.d.internalNextHops
  {
  }
}
