/**
 Why a packet on an authorized path passes every MAC check: the SegID the routers carry
 along always equals the accumulator the extender used for the hop being verified.
 */
module PathAuthorization {
  import opened Basics
  import opened ScionPath
  import opened Segments
  import opened Combinator
  import opened Router

  ghost predicate AllValid(legs: seq<Leg>) {
    forall i :: 0 <= i < |legs| ==> legs[i].Valid()
  }

  ghost predicate FitsHeader(legs: seq<Leg>) {
    && 1 <= |legs| <= 3 && AllValid(legs)
    && Offset(legs, |legs|) <= MAX_HOPS
    && (forall i :: 0 <= i < |legs| ==> legs[i].Len() < 64)
  }

  /** An up leg and a down leg joined by a peer link. */
  ghost predicate PeeringLegs(legs: seq<Leg>) {
    |legs| == 2 && legs[0].peer != 0 && legs[1].peer != 0 && !legs[0].consDir && legs[1].consDir
  }

  /** Legs of at least two hops, each of which starts in the AS where the one before ends. */
  ghost predicate JoinedLegs(legs: seq<Leg>)
    requires AllValid(legs)
  {
    && (forall i :: 0 <= i < |legs| ==> legs[i].peer == 0 && legs[i].Len() >= 2)
    && (forall i :: 0 <= i < |legs| - 1 ==> legs[i].Local(legs[i].Len() - 1) == legs[i + 1].Local(0))
  }

  /** The paths the combinator builds. */
  ghost predicate WellFormed(legs: seq<Leg>) {
    FitsHeader(legs) && (PeeringLegs(legs) || JoinedLegs(legs))
  }

  ghost predicate AllBuilt(keys: Keys, legs: seq<Leg>) {
    forall i :: 0 <= i < |legs| ==> Built(keys, legs[i].seg)
  }

  ghost predicate ValidPos(legs: seq<Leg>, j: nat, t: nat)
    requires AllValid(legs)
  {
    j < |legs| && t < legs[j].Len()
  }

  ghost predicate HopsMatch(hops: seq<HopField>, legs: seq<Leg>)
    requires AllValid(legs)
  {
    && |hops| == Offset(legs, |legs|)
    && forall i: nat, t: nat :: i < |legs| && t < legs[i].Len() ==> HopIs(hops, legs, i, t)
  }

  ghost predicate HopIs(hops: seq<HopField>, legs: seq<Leg>, i: nat, t: nat)
    requires AllValid(legs) && ValidPos(legs, i, t)
  {
    Offset(legs, i) + t < |hops| && hops[Offset(legs, i) + t].Plain() == legs[i].Hop(t)
  }

  ghost predicate InfosMatch(infos: seq<InfoField>, legs: seq<Leg>) {
    && |infos| == |legs|
    && forall i :: 0 <= i < |legs| ==> infos[i] == legs[i].Info(infos[i].segId)
  }

  ghost predicate LensMatch(path: Path, legs: seq<Leg>)
    requires WellFormed(legs)
  {
    && path.len0 == legs[0].Len()
    && path.len1 == (if |legs| > 1 then legs[1].Len() else 0)
    && path.len2 == (if |legs| > 2 then legs[2].Len() else 0)
  }

  /** Hop and info fields of `path` are those of `legs`, apart from SegIDs and alert flags. */
  ghost predicate Shape(path: Path, legs: seq<Leg>)
    requires WellFormed(legs)
  {
    LensMatch(path, legs) && HopsMatch(path.hops, legs) && InfosMatch(path.infos, legs)
  }

  ghost predicate Positioned(path: Path, legs: seq<Leg>, j: nat, t: nat)
    requires WellFormed(legs)
  {
    ValidPos(legs, j, t) && path.currInf == j && path.currHf == Offset(legs, j) + t
  }

  /** The SegID on arrival from outside: against construction it still lacks this hop's MAC. */
  function ArrivalBeta(leg: Leg, t: nat): Word16
    requires leg.Valid() && t < leg.Len()
  {
    if leg.consDir || leg.IsPeerHop(t) then leg.Beta(t) else BetaAt(leg.seg, leg.Index(t) + 1)
  }

  /** The SegID of leg `i` when the packet is at hop `t` of leg `j`. */
  function ExpectedSegId(legs: seq<Leg>, i: nat, j: nat, t: nat, arriving: bool): Word16
    requires i < |legs| && legs[i].Valid() && (i == j ==> t < legs[j].Len())
  {
    if i < j then legs[i].Beta(legs[i].Len() - 1)
    else if i > j then legs[i].Beta(0)
    else if arriving then ArrivalBeta(legs[j], t)
    else legs[j].Beta(t)
  }

  ghost predicate SegIds(infos: seq<InfoField>, legs: seq<Leg>, j: nat, t: nat, arriving: bool)
    requires AllValid(legs) && ValidPos(legs, j, t)
  {
    && |infos| == |legs|
    && forall i :: 0 <= i < |legs| ==> infos[i].segId == ExpectedSegId(legs, i, j, t, arriving)
  }

  /**
   The invariant.  `arriving` tells a packet that has just entered the AS of hop (j, t)
   from another AS from one that is inside it.
   */
  ghost predicate OnTrack(path: Path, legs: seq<Leg>, j: nat, t: nat, arriving: bool)
    requires WellFormed(legs)
  {
    && Shape(path, legs) && Positioned(path, legs, j, t)
    && (arriving ==> t > 0 || (j > 0 && legs[j].IsPeerHop(t)))
    && SegIds(path.infos, legs, j, t, arriving)
  }

  lemma LegsValid(legs: seq<Leg>)
    requires WellFormed(legs)
    ensures AllValid(legs) && 1 <= |legs| <= 3
  {
  }

  lemma TrackPos(path: Path, legs: seq<Leg>, j: nat, t: nat, arriving: bool)
    requires WellFormed(legs) && OnTrack(path, legs, j, t, arriving)
    ensures AllValid(legs) && ValidPos(legs, j, t)
    ensures path.Decoded() && Shape(path, legs) && Positioned(path, legs, j, t)
  {
    ShapeDecoded(path, legs, j, t);
  }

  // ----- Positions -------------------------------------------------------------------

  lemma {:induction false} OffsetSteps(legs: seq<Leg>)
    requires AllValid(legs)
    ensures forall i :: 0 <= i < |legs| ==> Offset(legs, i + 1) == Offset(legs, i) + legs[i].Len()
  {
  }

  lemma {:induction false} ShapeDecoded(path: Path, legs: seq<Leg>, j: nat, t: nat)
    requires WellFormed(legs) && Shape(path, legs) && Positioned(path, legs, j, t)
    ensures path.Decoded() && path.NumInf() == |legs| && path.NumHops() == Offset(legs, |legs|)
    ensures path.currHf < |path.hops|
  {
    OffsetSteps(legs);
    assert Offset(legs, 0) == 0;
    assert Offset(legs, 1) == legs[0].Len();
    if |legs| >= 2 { assert Offset(legs, 2) == legs[0].Len() + legs[1].Len(); }
    if |legs| >= 3 { assert Offset(legs, 3) == Offset(legs, 2) + legs[2].Len(); }
    HopOf(path.hops, legs, j, t);
  }

  lemma {:induction false} InfIndexAt(path: Path, legs: seq<Leg>, j: nat, t: nat)
    requires WellFormed(legs) && Shape(path, legs) && ValidPos(legs, j, t)
    ensures path.InfIndex(Offset(legs, j) + t) == j
  {
    OffsetSteps(legs);
    assert Offset(legs, 0) == 0;
    assert Offset(legs, 1) == legs[0].Len();
    if |legs| >= 2 { assert Offset(legs, 2) == legs[0].Len() + legs[1].Len(); }
  }

  /** IncPath moves to the next hop of the leg, or to the first hop of the next leg. */
  lemma {:induction false} IncPathAt(path: Path, legs: seq<Leg>, j: nat, t: nat)
    requires WellFormed(legs) && Shape(path, legs) && Positioned(path, legs, j, t)
    ensures path.IsXover() <==> t == legs[j].Len() - 1 && j + 1 < |legs|
    ensures path.IncPath().None? <==> t == legs[j].Len() - 1 && j + 1 == |legs|
    ensures path.IncPath().Some? ==>
              if t + 1 < legs[j].Len() then Positioned(path.IncPath().value, legs, j, t + 1)
              else Positioned(path.IncPath().value, legs, j + 1, 0)
  {
    ShapeDecoded(path, legs, j, t);
    OffsetSteps(legs);
    if t + 1 < legs[j].Len() {
      InfIndexAt(path, legs, j, t + 1);
      OffsetMono(legs, j + 1, |legs|);
    } else if j + 1 < |legs| {
      InfIndexAt(path, legs, j + 1, 0);
      OffsetMono(legs, j + 2, |legs|);
    }
  }

  lemma {:induction false} OffsetMono(legs: seq<Leg>, a: nat, b: nat)
    requires AllValid(legs) && a <= b <= |legs|
    ensures Offset(legs, a) <= Offset(legs, b)
  {
    if a < b { OffsetMono(legs, a, b - 1); }
  }

  lemma {:induction false} PeerAt(path: Path, legs: seq<Leg>, j: nat, t: nat)
    requires WellFormed(legs) && Shape(path, legs) && Positioned(path, legs, j, t)
    ensures DeterminePeer(path, path.infos[j]) == Some(legs[j].IsPeerHop(t))
  {
    OffsetSteps(legs);
    assert Offset(legs, 0) == 0;
    assert Offset(legs, 1) == legs[0].Len();
  }

  // ----- One packet at one router ---------------------------------------------------

  lemma {:induction false} HopAt(path: Path, legs: seq<Leg>, j: nat, t: nat)
    requires WellFormed(legs) && Shape(path, legs) && Positioned(path, legs, j, t)
    ensures path.currHf < |path.hops| && path.hops[path.currHf].Plain() == legs[j].Hop(t)
  {
    HopOf(path.hops, legs, j, t);
  }

  lemma {:induction false} HopOf(hops: seq<HopField>, legs: seq<Leg>, j: nat, t: nat)
    requires AllValid(legs) && HopsMatch(hops, legs) && ValidPos(legs, j, t)
    ensures Offset(legs, j) + t < |hops| && hops[Offset(legs, j) + t].Plain() == legs[j].Hop(t)
  {
    assert HopIs(hops, legs, j, t);
  }

  /** The hop at any position verifies against the accumulator recorded for it. */
  lemma {:induction false} HopAuthentic(keys: Keys, leg: Leg, t: nat)
    requires leg.Valid() && t < leg.Len() && Built(keys, leg.seg)
    ensures Authentic(keys(leg.Local(t)), leg.seg.timestamp, leg.Beta(t), leg.Hop(t))
  {
    assert EntryBuilt(keys, leg.seg, leg.Index(t));
  }

  /** The processor state agrees with the packet, which is inside the AS of hop (j, t). */
  ghost predicate ProcAt(p: Proc, legs: seq<Leg>, j: nat, t: nat, arriving: bool)
    requires WellFormed(legs)
  {
    && OnTrack(p.path, legs, j, t, arriving) && p.Valid()
    && p.hop == p.path.hops[p.path.currHf] && p.info == p.path.infos[j]
    && p.peering == legs[j].IsPeerHop(t)
  }

  lemma {:induction false} SetHopOnTrack(path: Path, legs: seq<Leg>, j: nat, t: nat, arriving: bool, hop: HopField)
    requires WellFormed(legs) && OnTrack(path, legs, j, t, arriving)
    requires path.currHf < |path.hops| && hop.Plain() == path.hops[path.currHf].Plain()
    ensures OnTrack(path.SetHop(hop), legs, j, t, arriving)
  {
    hide HopsMatch, InfosMatch, SegIds, WellFormed, Offset;
    LegsValid(legs);
    SetHops(path.hops, legs, path.currHf, hop);
  }

  lemma {:induction false} SetHops(hops: seq<HopField>, legs: seq<Leg>, i: nat, hop: HopField)
    requires AllValid(legs) && HopsMatch(hops, legs) && i < |hops| && hop.Plain() == hops[i].Plain()
    ensures HopsMatch(hops[i := hop], legs)
  {
    hide Offset;
    var r := hops[i := hop];
    forall a: nat, t: nat | a < |legs| && t < legs[a].Len() ensures HopIs(r, legs, a, t) {
      HopOf(hops, legs, a, t);
    }
  }

  /** Writing a SegID into the current info field touches no other field. */
  lemma {:induction false} SetSegId(infos: seq<InfoField>, legs: seq<Leg>, j: nat, x: Word16)
    requires InfosMatch(infos, legs) && j < |legs|
    ensures var r := infos[j := infos[j].(segId := x)];
            && InfosMatch(r, legs) && r[j].segId == x
            && forall i :: 0 <= i < |legs| && i != j ==> r[i] == infos[i]
  {
  }

  lemma {:induction false} VerifyOnTrack(keys: Keys, c: Ctx, p: Proc, legs: seq<Leg>, j: nat, t: nat, cause: Cause)
    requires WellFormed(legs) && AllBuilt(keys, legs)
    requires ProcAt(p, legs, j, t, false) && c.d.mac == keys(legs[j].Local(t))
    ensures VerifyMac(c, p, cause) == Go(p)
  {
    HopAuthentic(keys, legs[j], t);
    HopAt(p.path, legs, j, t);
    assert p.info == legs[j].Info(legs[j].Beta(t));
  }

  lemma XorCancel(a: Word16, b: Word16)
    ensures a.Xor(b).Xor(b) == a
  {
  }

  /** Chaining a hop's MAC into the accumulator steps over that hop, in either direction. */
  lemma {:induction false} ChainBeta(s: Segment, i: nat)
    requires i < |s.entries|
    ensures BetaAt(s, i).Xor(s.entries[i].hop.mac.sigma) == BetaAt(s, i + 1)
    ensures BetaAt(s, i + 1).Xor(s.entries[i].hop.mac.sigma) == BetaAt(s, i)
  {
    XorCancel(BetaAt(s, i), s.entries[i].hop.mac.sigma);
  }

  /** The ingress update turns the arrival accumulator into the one of this hop. */
  lemma {:induction false} IngressUpdate(c: Ctx, p: Proc, legs: seq<Leg>, j: nat, t: nat)
    requires WellFormed(legs) && ProcAt(p, legs, j, t, c.ingress != 0)
    ensures ProcAt(UpdateOnIngress(c, p), legs, j, t, false)
    ensures UpdateOnIngress(c, p).xover == p.xover
  {
    hide HopsMatch, Offset;
    var leg := legs[j];
    HopAt(p.path, legs, j, t);
    if UpdatesOnIngress(c, p) {
      ChainBeta(leg.seg, leg.Index(t));
      SetSegId(p.path.infos, legs, j, leg.Beta(t));
      assert SegIds(ChainSegId(p).path.infos, legs, j, t, false);
    } else {
      assert SegIds(p.path.infos, legs, j, t, false);
    }
  }

  lemma {:induction false} PrecheckOnTrack(c: Ctx, path: Path, legs: seq<Leg>, j: nat, t: nat)
    requires WellFormed(legs) && OnTrack(path, legs, j, t, c.ingress != 0) && path.Decoded()
    ensures match Precheck(c, path)
            case Go(p) => ProcAt(p, legs, j, t, c.ingress != 0) && p.path == path && !p.xover
            case Stop(v) => v == Dropped || (v.SlowPath? && Early(v.cause) && v.path == path)
  {
    PrecheckKeeps(c, path);
    hide Precheck;
    PeerAt(path, legs, j, t);
  }

  lemma {:induction false} IngressOnTrack(keys: Keys, c: Ctx, path: Path, legs: seq<Leg>, j: nat, t: nat)
    requires WellFormed(legs) && AllBuilt(keys, legs) && OnTrack(path, legs, j, t, c.ingress != 0)
    requires path.Decoded() && c.d.mac == keys(legs[j].Local(t))
    ensures match IngressStage(c, path)
            case Go(p) => ProcAt(p, legs, j, t, false) && !p.xover
            case Stop(v) =>
              || v == Dropped
              || (v.SlowPath? && Early(v.cause) && v.path == path)
              || (v.SlowPath? && v.cause == IngressAlert && OnTrack(v.path, legs, j, t, false))
  {
    PrecheckOnTrack(c, path, legs, j, t);
    var s := Precheck(c, path);
    if s.Go? {
      IngressUpdate(c, s.p, legs, j, t);
      var p := UpdateOnIngress(c, s.p);
      VerifyOnTrack(keys, c, p, legs, j, t, MacFailed);
      var hop := if p.info.consDir then p.hop.(ingressAlert := false) else p.hop.(egressAlert := false);
      SetHopOnTrack(p.path, legs, j, t, false, hop);
    }
  }

  /** The position after a segment switch, if the hop is one. */
  function SwitchLeg(legs: seq<Leg>, j: nat, t: nat): (nat, nat)
    requires j < |legs| && legs[j].Valid() && t < legs[j].Len()
  {
    if t == legs[j].Len() - 1 && j + 1 < |legs| && !legs[j].IsPeerHop(t) then (j + 1, 0) else (j, t)
  }

  /** Switching segments finds the new leg with the SegID the path was built with. */
  lemma {:induction false} DoXoverOnTrack(p: Proc, legs: seq<Leg>, j: nat, t: nat)
    requires WellFormed(legs) && ProcAt(p, legs, j, t, false)
    requires t == legs[j].Len() - 1 && j + 1 < |legs| && !p.peering
    ensures DoXover(p).Go? && ProcAt(DoXover(p).p, legs, j + 1, 0, false)
    ensures legs[j + 1].Local(0) == legs[j].Local(t)
  {
    hide Offset, HopsMatch, InfosMatch;
    IncPathAt(p.path, legs, j, t);
    var next := p.path.IncPath().value;
    assert legs[0].peer == 0;
    assert SegIds(next.infos, legs, j + 1, 0, false);
    ShapeDecoded(next, legs, j + 1, 0);
  }

  lemma {:induction false} XoverOnTrack(keys: Keys, c: Ctx, p: Proc, legs: seq<Leg>, j: nat, t: nat)
    requires WellFormed(legs) && AllBuilt(keys, legs)
    requires ProcAt(p, legs, j, t, false) && c.d.mac == keys(legs[j].Local(t)) && !p.xover
    ensures var (k, u) := SwitchLeg(legs, j, t);
            && ValidPos(legs, k, u) && legs[k].Local(u) == legs[j].Local(t)
            && match XoverStage(c, p)
               case Go(q) => ProcAt(q, legs, k, u, false) && (q.xover <==> k != j)
               case Stop(v) => v.SlowPath? && v.cause == ExpiredAfterXover && OnTrack(v.path, legs, k, u, false)
  {
    hide WellFormed, OnTrack, Shape, DoXover, VerifyMac, AllBuilt, Offset;
    TrackPos(p.path, legs, j, t, false);
    IncPathAt(p.path, legs, j, t);
    if p.path.IsXover() && !p.peering {
      DoXoverOnTrack(p, legs, j, t);
      VerifyOnTrack(keys, c, DoXover(p).p, legs, j + 1, 0, MacFailedAfterXover);
    }
  }

  /** The hop after (j, t) on the path. */
  function NextPos(legs: seq<Leg>, j: nat, t: nat): (nat, nat)
    requires j < |legs| && legs[j].Valid() && t < legs[j].Len()
  {
    if t + 1 < legs[j].Len() then (j, t + 1) else (j + 1, 0)
  }

  /** The SegID a packet leaves hop `t` of the leg with. */
  function DepartureBeta(leg: Leg, t: nat): Word16
    requires leg.Valid() && t < leg.Len()
  {
    if leg.consDir && !leg.IsPeerHop(t) then leg.Beta(t).Xor(leg.Hop(t).mac.sigma) else leg.Beta(t)
  }

  /** The accumulator after leaving hop `t` is the one the next hop of the leg expects. */
  lemma {:induction false} NextBeta(leg: Leg, t: nat)
    requires leg.Valid() && t + 1 < leg.Len()
    ensures ArrivalBeta(leg, t + 1) == DepartureBeta(leg, t)
  {
    ChainBeta(leg.seg, leg.Index(t));
  }

  lemma {:induction false} DepartSegIds(infos: seq<InfoField>, legs: seq<Leg>, j: nat, t: nat)
    requires WellFormed(legs) && ValidPos(legs, j, t) && InfosMatch(infos, legs) && SegIds(infos, legs, j, t, false)
    requires SwitchLeg(legs, j, t) == (j, t)
    ensures var (k, u) := NextPos(legs, j, t);
            var r := infos[j := infos[j].(segId := DepartureBeta(legs[j], t))];
            k < |legs| ==>
              && SegIds(r, legs, k, u, true) && InfosMatch(r, legs)
              && (u > 0 || (k > 0 && legs[k].IsPeerHop(u)))
  {
    hide FitsHeader, InfosMatch;
    LegsValid(legs);
    var x := DepartureBeta(legs[j], t);
    SetSegId(infos, legs, j, x);
    var r := infos[j := infos[j].(segId := x)];
    if t + 1 < legs[j].Len() {
      NextBeta(legs[j], t);
      assert SegIds(r, legs, j, t + 1, true);
    } else if j + 1 < |legs| {
      assert legs[j].IsPeerHop(t) && j == 0;
      assert SegIds(r, legs, 1, 0, true);
    }
  }

  /** Leaving the AS: what the egress router leaves in the packet is what the next AS expects. */
  lemma {:induction false} DepartOnTrack(path: Path, legs: seq<Leg>, j: nat, t: nat)
    requires WellFormed(legs) && OnTrack(path, legs, j, t, false)
    requires SwitchLeg(legs, j, t) == (j, t)
    ensures var (k, u) := NextPos(legs, j, t);
            var next := path.SetInfo(path.infos[j].(segId := DepartureBeta(legs[j], t))).IncPath();
            if k < |legs| then next.Some? && ValidPos(legs, k, u) && OnTrack(next.value, legs, k, u, true)
            else next.None?
  {
    var q := path.SetInfo(path.infos[j].(segId := DepartureBeta(legs[j], t)));
    DepartSegIds(path.infos, legs, j, t);
    SetSegId(path.infos, legs, j, DepartureBeta(legs[j], t));
    IncPathAt(q, legs, j, t);
  }

  lemma {:induction false} EgressSegId(p: Proc, legs: seq<Leg>, j: nat, t: nat)
    requires WellFormed(legs) && ProcAt(p, legs, j, t, false)
    ensures var q := if p.info.consDir && !p.peering then ChainSegId(p) else p;
            q.path == p.path.SetInfo(p.path.infos[j].(segId := DepartureBeta(legs[j], t)))
  {
    HopAt(p.path, legs, j, t);
    assert p.info.segId == legs[j].Beta(t);
  }

  lemma {:induction false} EgressOnTrack(p: Proc, legs: seq<Leg>, j: nat, t: nat)
    requires WellFormed(legs) && ProcAt(p, legs, j, t, false)
    requires SwitchLeg(legs, j, t) == (j, t)
    ensures var (k, u) := NextPos(legs, j, t);
            var next := ProcessEgress(p);
            if k < |legs| then next.Some? && ValidPos(legs, k, u) && OnTrack(next.value, legs, k, u, true)
            else next.None?
  {
    hide WellFormed, OnTrack;
    LegsValid(legs);
    EgressSegId(p, legs, j, t);
    DepartOnTrack(p.path, legs, j, t);
  }

  /** The interface over which the path leaves the AS of hop `t`. */
  function EgressOf(leg: Leg, t: nat): IfId
    requires leg.Valid() && t < leg.Len()
  {
    if leg.consDir then leg.Hop(t).consEgress else leg.Hop(t).consIngress
  }

  /** Outcomes decided at hop (k, u), after a possible segment switch. */
  ghost predicate EgressVerdict(v: Verdict, legs: seq<Leg>, k: nat, u: nat)
    requires WellFormed(legs) && ValidPos(legs, k, u)
  {
    match v
    case Dropped => true
    case Delivered(_, _) => false
    case HandedOver(_, q, _) => OnTrack(q, legs, k, u, false)
    case Forwarded(e, q, _, _) =>
      var (m, w) := NextPos(legs, k, u);
      ValidPos(legs, m, w) && OnTrack(q, legs, m, w, true) && e == EgressOf(legs[k], u)
    case SlowPath(cause, q) =>
      AtEgress(cause) && OnTrack(q, legs, k, u, false)
  }

  /** Outcomes decided at hop (j, t), where the packet was found. */
  ghost predicate IngressVerdict(v: Verdict, legs: seq<Leg>, j: nat, t: nat, path: Path)
    requires WellFormed(legs) && ValidPos(legs, j, t)
  {
    match v
    case Dropped => true
    case Delivered(q, _) => OnTrack(q, legs, j, t, false)
    case SlowPath(cause, q) =>
      || (Early(cause) && q == path)
      || (AtIngress(cause) && OnTrack(q, legs, j, t, false))
    case _ => false
  }

  lemma {:induction false} SwitchOnce(legs: seq<Leg>, j: nat, t: nat)
    requires WellFormed(legs) && ValidPos(legs, j, t)
    ensures var (k, u) := SwitchLeg(legs, j, t);
            ValidPos(legs, k, u) && SwitchLeg(legs, k, u) == (k, u) && legs[k].Local(u) == legs[j].Local(t)
  {
  }

  lemma {:induction false} EgressChecksOnTrack(c: Ctx, q: Proc, legs: seq<Leg>, k: nat, u: nat)
    requires WellFormed(legs) && ProcAt(q, legs, k, u, false) && EgressChecks(c, q).Stop?
    ensures EgressVerdict(EgressChecks(c, q).v, legs, k, u)
  {
    hide EgressChecks;
    EgressChecksStop(c, q);
    SetHopOnTrack(q.path, legs, k, u, false, ClearEgressAlert(q));
  }

  lemma {:induction false} EmitOnTrack(c: Ctx, q: Proc, legs: seq<Leg>, k: nat, u: nat)
    requires WellFormed(legs) && ProcAt(q, legs, k, u, false) && SwitchLeg(legs, k, u) == (k, u)
    requires EgressChecks(c, q).Go?
    ensures EgressVerdict(Emit(c, q), legs, k, u)
  {
    hide WellFormed, OnTrack, ProcessEgress, ProcessHbhOptions, EgressChecks;
    TrackPos(q.path, legs, k, u, false);
    HopAt(q.path, legs, k, u);
    EgressOnTrack(q, legs, k, u);
    assert q.info.consDir == legs[k].consDir;
    assert q.Egress() == EgressOf(legs[k], u);
  }

  lemma {:induction false} OutboundOnTrack(keys: Keys, c: Ctx, p: Proc, legs: seq<Leg>, j: nat, t: nat)
    requires WellFormed(legs) && AllBuilt(keys, legs)
    requires ProcAt(p, legs, j, t, false) && c.d.mac == keys(legs[j].Local(t)) && !p.xover
    ensures var (k, u) := SwitchLeg(legs, j, t);
            ValidPos(legs, k, u) && EgressVerdict(Outbound(c, p), legs, k, u)
  {
    var (k, u) := SwitchLeg(legs, j, t);
    SwitchOnce(legs, j, t);
    XoverOnTrack(keys, c, p, legs, j, t);
    var x := XoverStage(c, p);
    if x.Go? {
      if EgressChecks(c, x.p).Stop? {
        EgressChecksOnTrack(c, x.p, legs, k, u);
      } else {
        EmitOnTrack(c, x.p, legs, k, u);
      }
    }
  }

  /**
   One router, any configuration and environment: a packet on an authorized path never
   fails a MAC check, and whatever the router decides leaves it on the path.
   */
  lemma {:induction false} ProcessOnTrack(keys: Keys, c: Ctx, path: Path, legs: seq<Leg>, j: nat, t: nat)
    requires WellFormed(legs) && AllBuilt(keys, legs) && OnTrack(path, legs, j, t, c.ingress != 0)
    requires path.Decoded() && c.d.mac == keys(legs[j].Local(t))
    ensures var (k, u) := SwitchLeg(legs, j, t);
            && ValidPos(legs, k, u)
            && (IngressVerdict(Process(c, path), legs, j, t, path) || EgressVerdict(Process(c, path), legs, k, u))
  {
    hide WellFormed, AllBuilt, OnTrack, IngressStage, Outbound;
    TrackPos(path, legs, j, t, c.ingress != 0);
    IngressOnTrack(keys, c, path, legs, j, t);
    SwitchOnce(legs, j, t);
    match IngressStage(c, path)
    case Stop(v) =>
      assert IngressVerdict(v, legs, j, t, path);
    case Go(p) =>
      if c.hdr.dstIA == c.d.localIA {
        assert IngressVerdict(Inbound(c, p), legs, j, t, path);
      } else {
        OutboundOnTrack(keys, c, p, legs, j, t);
      }
  }
}
