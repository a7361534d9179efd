/**
 Slow-path requests raised before the ingress SegID update: when the reply to one is on the
 authorized way back, and when the previous AS refuses it.
 */
module EarlyReplies {
  import opened Basics
  import opened ScionPath
  import opened Segments
  import opened Combinator
  import opened Router
  import opened PathAuthorization
  import opened Network
  import opened AuthorizedRuns
  import opened ScmpReplies

  // ----- Requests raised before the ingress update -----------------------------------

  lemma XorZero(a: Word16, b: Word16)
    ensures a.Xor(b) == a <==> b == Word16(0)
  {
    if a.Xor(b) == a { XorZeroBits(a.bits, b.bits); }
    XorNothing(a.bits);
  }

  lemma XorZeroBits(a: bv16, b: bv16)
    requires a ^ b == a
    ensures b == 0
  {
  }

  lemma XorNothing(a: bv16)
    ensures a ^ 0 == a
  {
  }

  /** A reply with no switch to undo, at a hop that is not a peering hop. */
  lemma PlainReply(d: DataPlane, ingress: IfId, path: Path, rev: Path)
    requires path.Decoded() && path.Reverse() == Some(rev) && ingress in d.external
    requires rev.currInf < |rev.infos| && rev.currHf < |rev.hops| && rev.infos[rev.currInf].consDir
    requires DeterminePeer(rev, rev.infos[rev.currInf]) == Some(false)
    requires !rev.IsXover()
    ensures ReplyPath(d, ingress, path) ==
            rev.SetInfo(rev.infos[rev.currInf].UpdateSegId(rev.hops[rev.currHf].mac)).IncPath()
  {
  }

  /** Where arrival and inside agree, the reply is right even before the update. */
  lemma {:induction false} EarlyReplyGood(d: DataPlane, ingress: IfId, path: Path, legs: seq<Leg>, j: nat, t: nat)
    requires WellFormed(legs) && OnTrack(path, legs, j, t, true) && path.Decoded() && ingress in d.external
    requires legs[j].consDir || legs[j].IsPeerHop(t) || legs[j].Hop(t).mac.sigma == Word16(0)
    ensures OnTrack(path, legs, j, t, false)
  {
    var leg := legs[j];
    if !leg.consDir && !leg.IsPeerHop(t) {
      ChainBeta(leg.seg, leg.Index(t));
      XorZero(BetaAt(leg.seg, leg.Index(t)), leg.Hop(t).mac.sigma);
    }
    assert ArrivalBeta(leg, t) == leg.Beta(t);
    hide HopsMatch, WellFormed;
  }

  /** The reversed packet at a hop that was reached against construction. */
  lemma {:induction false} ReversedAgainst(path: Path, legs: seq<Leg>, j: nat, t: nat)
    requires WellFormed(legs) && Shape(path, legs) && Positioned(path, legs, j, t) && path.Decoded()
    requires t > 0 && !legs[j].consDir && !legs[j].IsPeerHop(t)
    ensures WellFormed(Back(legs)) && path.Reverse().Some?
    ensures var rev := path.Reverse().value; var (b, c) := BackPos(legs, j, t);
      && Shape(rev, Back(legs)) && Positioned(rev, Back(legs), b, c)
      && |rev.infos| == |legs| && |path.infos| == |legs| && rev.currHf < |rev.hops|
      && rev.infos[b].consDir && rev.infos[b].segId == path.infos[j].segId
      && rev.hops[rev.currHf].mac == legs[j].Hop(t).mac
      && DeterminePeer(rev, rev.infos[b]) == Some(false) && !rev.IsXover()
  {
    hide WellFormed, Shape, Offset, DeterminePeer, HopsMatch, LensMatch;
    LegsValid(legs);
    ShapeInfos(path, legs);
    var (b, c) := BackPos(legs, j, t);
    ShapeDecoded(path, legs, j, t);
    ReverseShape(path, legs, j, t);
    var rev := path.Reverse().value;
    ShapeInfos(rev, Back(legs));
    PeerAt(rev, Back(legs), b, c);
    ReversedHop(legs[j], t);
    IncPathAt(rev, Back(legs), b, c);
    HopAt(rev, Back(legs), b, c);
  }

  /** Against construction the early reply goes out with the accumulator of the wrong hop. */
  lemma {:induction false} EarlyReplySegId(d: DataPlane, ingress: IfId, path: Path, legs: seq<Leg>, j: nat, t: nat)
    requires WellFormed(legs) && Shape(path, legs) && Positioned(path, legs, j, t) && path.Decoded()
    requires ingress in d.external
    requires t > 0 && !legs[j].consDir && !legs[j].IsPeerHop(t)
    requires |path.infos| == |legs| && path.infos[j].segId == ArrivalBeta(legs[j], t)
    ensures WellFormed(Back(legs))
    ensures var reply := ReplyPath(d, ingress, path); var (b, c) := BackPos(legs, j, t);
            && reply.Some? && Shape(reply.value, Back(legs)) && Positioned(reply.value, Back(legs), b, c + 1)
            && |reply.value.infos| == |legs| && reply.value.infos[b].segId == legs[j].Beta(t)
  {
    hide WellFormed, Shape, ReplyPath, DeterminePeer;
    ReversedAgainst(path, legs, j, t);
    LegsValid(legs);
    LegsValid(Back(legs));
    var (b, c) := BackPos(legs, j, t);
    var rev := path.Reverse().value;
    ChainBeta(legs[j].seg, legs[j].Index(t));
    PlainReply(d, ingress, path, rev);
    SetSegIdAt(rev, Back(legs), b, c, legs[j].Beta(t));
  }

  /** Writing a SegID and moving on within a leg. */
  lemma {:induction false} SetSegIdAt(path: Path, legs: seq<Leg>, j: nat, t: nat, x: Word16)
    requires WellFormed(legs) && Shape(path, legs) && Positioned(path, legs, j, t) && t + 1 < legs[j].Len()
    requires |path.infos| == |legs|
    ensures var q := path.SetInfo(path.infos[j].(segId := x));
      && q.IncPath().Some? && Shape(q.IncPath().value, legs) && Positioned(q.IncPath().value, legs, j, t + 1)
      && q.IncPath().value.infos == path.infos[j := path.infos[j].(segId := x)]
  {
    hide WellFormed, Offset, HopsMatch;
    SetSegId(path.infos, legs, j, x);
    IncPathAt(path.SetInfo(path.infos[j].(segId := x)), legs, j, t);
  }

  /**
   Exactly when the reply to an early request about a packet from outside is on the authorized
   way back: in construction direction, at a peering hop, or if the chained MAC prefix happens
   to be zero.
   */
  lemma {:induction false} EarlyReplyExact(d: DataPlane, ingress: IfId, path: Path, legs: seq<Leg>, j: nat, t: nat)
    requires WellFormed(legs) && WellFormed(Back(legs)) && OnTrack(path, legs, j, t, true)
    requires path.Decoded() && ingress in d.external
    ensures ValidPos(Back(legs), BackPos(legs, j, t).0, BackPos(legs, j, t).1)
    ensures var r := Back(legs); var (b, c) := BackPos(legs, j, t); var (m, w) := NextPos(r, b, c);
            && ValidPos(r, m, w)
            && var reply := ReplyPath(d, ingress, path);
            && reply.Some?
            && (OnTrack(reply.value, r, m, w, true) <==>
                  legs[j].consDir || legs[j].IsPeerHop(t) || legs[j].Hop(t).mac.sigma == Word16(0))
  {
    hide WellFormed, OnTrack, ReplyPath, Offset, SegIds, Shape, ArrivalBeta;
    LegsValid(legs);
    var r := Back(legs);
    LegsValid(r);
    ArrivesLater(path, legs, j, t);
    SwitchBack(legs, j, t);
    HopBefore(legs, j, t);
    ReversedHop(legs[j], t);
    var (b, c) := BackPos(legs, j, t);
    if legs[j].consDir || legs[j].IsPeerHop(t) || legs[j].Hop(t).mac.sigma == Word16(0) {
      EarlyReplyGood(d, ingress, path, legs, j, t);
      ReplyOnTrack(d, ingress, path, legs, j, t);
    } else {
      TrackPos(path, legs, j, t, true);
      TrackSegIds(path, legs, j, t, true);
      EarlyReplySegId(d, ingress, path, legs, j, t);
      EarlyBetasDiffer(legs[j], t);
      var reply := ReplyPath(d, ingress, path).value;
      if OnTrack(reply, r, b, c + 1, true) {
        TrackSegIds(reply, r, b, c + 1, true);
      }
    }
  }

  lemma ShapeInfos(path: Path, legs: seq<Leg>)
    requires WellFormed(legs) && Shape(path, legs)
    ensures InfosMatch(path.infos, legs)
  {
  }

  lemma TrackSegIds(path: Path, legs: seq<Leg>, j: nat, t: nat, arriving: bool)
    requires WellFormed(legs) && OnTrack(path, legs, j, t, arriving)
    ensures AllValid(legs) && ValidPos(legs, j, t) && |path.infos| == |legs|
    ensures path.infos[j].segId == if arriving then ArrivalBeta(legs[j], t) else legs[j].Beta(t)
  {
  }

  lemma {:induction false} EarlyBetasDiffer(leg: Leg, t: nat)
    requires leg.Valid() && 0 < t < leg.Len() && !leg.consDir && !leg.IsPeerHop(t)
    requires leg.Hop(t).mac.sigma != Word16(0)
    ensures var r, c := leg.Reversed(), leg.Len() - t; r.Valid() && c < r.Len() && ArrivalBeta(r, c) != leg.Beta(t)
  {
    ReversedHop(leg, t - 1);
    ChainBeta(leg.seg, leg.Index(t));
    XorZero(BetaAt(leg.seg, leg.Index(t)), leg.Hop(t).mac.sigma);
  }

  // ----- What the previous AS makes of it ----------------------------------------------

  /** The ingress check fails exactly where the MAC over the SegID, once updated, is another one. */
  lemma MacFailureMeans(c: Ctx, path: Path)
    requires path.Decoded()
    ensures Process(c, path).SlowPath? && Process(c, path).cause == MacFailed
            <==> Precheck(c, path).Go? && VerifyMac(c, UpdateOnIngress(c, Precheck(c, path).p), MacFailed).Stop?
  {
    hide Precheck, XoverStage, EgressChecks, Emit, UpdateOnIngress;
    PrecheckKeeps(c, path);
    if IngressStage(c, path).Go? {
      XoverCauses(c, IngressStage(c, path).p);
      if XoverStage(c, IngressStage(c, path).p).Go? {
        var q := XoverStage(c, IngressStage(c, path).p).p;
        if EgressChecks(c, q).Stop? { EgressChecksStop(c, q); }
        EmitCauses(c, q);
      }
    }
  }

  lemma XoverCauses(c: Ctx, p: Proc)
    requires p.Valid()
    ensures match XoverStage(c, p)
            case Go(_) => true
            case Stop(v) => v.SlowPath? ==> v.cause == ExpiredAfterXover || v.cause == MacFailedAfterXover
  {
  }

  lemma EmitCauses(c: Ctx, p: Proc)
    requires p.Valid()
    ensures Emit(c, p).SlowPath? ==> Emit(c, p).cause == UnknownEgress
  {
    hide ProcessHbhOptions, ProcessEgress;
  }

  /**
   The previous AS accepts the SegID of an early reply: it is right, or the MAC of its hop is
   the same over the accumulator of the hop after it.
   */
  ghost predicate Accepts(mac: MacFn, legs: seq<Leg>, j: nat, t: nat)
    requires AllValid(legs) && ValidPos(legs, j, t) && (t > 0 || legs[j].IsPeerHop(t))
  {
    || legs[j].consDir || legs[j].IsPeerHop(t)
    || var h := legs[j].Hop(t - 1);
       mac(MacInput(legs[j].Beta(t), legs[j].seg.timestamp, h.expTime, h.consIngress, h.consEgress)) == h.mac
  }

  lemma {:induction false} EarlyCheckAgainst(c: Ctx, reply: Path, legs: seq<Leg>, j: nat, t: nat)
    requires AllValid(legs) && ValidPos(legs, j, t) && t > 0 && !legs[j].consDir && !legs[j].IsPeerHop(t)
    requires WellFormed(Back(legs)) && reply.Decoded()
    requires var (b, u) := BackPos(legs, j, t);
      && Shape(reply, Back(legs)) && Positioned(reply, Back(legs), b, u + 1)
      && |reply.infos| == |legs| && reply.infos[b].segId == legs[j].Beta(t)
    requires Precheck(c, reply).Go?
    ensures VerifyMac(c, UpdateOnIngress(c, Precheck(c, reply).p), MacFailed).Stop? <==> !Accepts(c.d.mac, legs, j, t)
  {
    hide Precheck, WellFormed, Shape, HopsMatch, Offset;
    var (b, u) := BackPos(legs, j, t);
    var r := Back(legs);
    LegsValid(r);
    PrecheckKeeps(c, reply);
    ShapeInfos(reply, r);
    HopAt(reply, r, b, u + 1);
    ReversedHop(legs[j], t - 1);
  }

  /**
   For every router of the previous AS and everything it depends on: it reports a MAC failure
   for the reply to an early request about a packet from outside if and only if the reply
   passes its first checks, and the SegID it carries is neither right nor gives the same MAC.
   */
  lemma {:induction false} EarlyReplyVerdict(keys: Keys, d: DataPlane, ingress: IfId, path: Path, legs: seq<Leg>,
                                             j: nat, t: nat, c: Ctx)
    requires WellFormed(legs) && WellFormed(Back(legs)) && AllBuilt(keys, legs) && OnTrack(path, legs, j, t, true)
    requires path.Decoded() && ingress in d.external
    requires ValidPos(Back(legs), BackPos(legs, j, t).0, BackPos(legs, j, t).1)
    requires var r := Back(legs); var (b, u) := BackPos(legs, j, t); var (m, w) := NextPos(r, b, u);
      ValidPos(r, m, w) ==> c.ingress != 0 && c.d.mac == keys(r[m].Local(w))
    ensures ValidPos(legs, j, t) && (t > 0 || legs[j].IsPeerHop(t))
    ensures var reply := ReplyPath(d, ingress, path);
      && reply.Some? && reply.value.Decoded()
      && var v := Process(c, reply.value);
      (v.SlowPath? && v.cause == MacFailed <==> Precheck(c, reply.value).Go? && !Accepts(c.d.mac, legs, j, t))
  {
    hide WellFormed, OnTrack, ReplyPath, Offset, SegIds, Shape, ArrivalBeta, Process, Precheck, AllBuilt, VerifyMac,
      UpdateOnIngress;
    LegsValid(legs);
    LegsValid(Back(legs));
    ArrivesLater(path, legs, j, t);
    EarlyReplyExact(d, ingress, path, legs, j, t);
    var reply := ReplyPath(d, ingress, path).value;
    var (b, u) := BackPos(legs, j, t);
    var (m, w) := NextPos(Back(legs), b, u);
    if legs[j].consDir || legs[j].IsPeerHop(t) {
      BackBuilt(keys, legs);
      TrackPos(reply, Back(legs), m, w, true);
      ProcessOnTrack(keys, c, reply, Back(legs), m, w);
    } else {
      TrackPos(path, legs, j, t, true);
      TrackSegIds(path, legs, j, t, true);
      EarlyReplySegId(d, ingress, path, legs, j, t);
      ShapeDecoded(reply, Back(legs), b, u + 1);
      MacFailureMeans(c, reply);
      if Precheck(c, reply).Go? { EarlyCheckAgainst(c, reply, legs, j, t); }
    }
  }

  /**
   With a MAC that tells the two accumulators apart, the reply is accepted exactly if it is on
   the authorized way back.
   */
  lemma {:induction false} SeparatingMac(keys: Keys, legs: seq<Leg>, j: nat, t: nat)
    requires AllValid(legs) && AllBuilt(keys, legs) && ValidPos(legs, j, t) && (t > 0 || legs[j].IsPeerHop(t))
    requires t > 0 ==>
      var h := legs[j].Hop(t - 1); var mac := keys(legs[j].Local(t - 1));
      var with := (beta: Word16) => mac(MacInput(beta, legs[j].seg.timestamp, h.expTime, h.consIngress, h.consEgress));
      with(legs[j].Beta(t)) == with(legs[j].Beta(t - 1)) ==> legs[j].Beta(t) == legs[j].Beta(t - 1)
    ensures Accepts(keys(if t > 0 then legs[j].Local(t - 1) else legs[j].Local(0)), legs, j, t) <==>
              legs[j].consDir || legs[j].IsPeerHop(t) || legs[j].Hop(t).mac.sigma == Word16(0)
  {
    var leg := legs[j];
    if !leg.consDir && !leg.IsPeerHop(t) {
      HopAuthentic(keys, leg, t - 1);
      ChainBeta(leg.seg, leg.Index(t));
      XorZero(leg.Beta(t - 1), leg.Hop(t).mac.sigma);
    }
  }

  // ----- A concrete early request whose reply is refused -----------------------------

  /** A MAC function that shows the accumulator it was computed over. */
  function ShowBeta(input: MacInput): Mac { Mac(Word16(1), input.beta.bits as bv32) }

  function ShownHop(ingress: IfId, egress: IfId, beta: Word16): HopField {
    HopField(ingress, egress, 63, Mac(Word16(1), beta.bits as bv32), false, false)
  }

  /** A two-AS up segment, used from its last AS to its first. */
  function TwoHopLeg(): Leg {
    Leg(Segment(Word16(0), 0,
                [ASEntry(IA(1, 1), IA(1, 2), ShownHop(0, 1, Word16(0)), []),
                 ASEntry(IA(1, 2), NO_IA, ShownHop(2, 0, Word16(1)), [])]), 0, 0, false)
  }

  /** The packet as it arrives in the first AS of the segment. */
  function ArrivingPacket(): Path {
    ForwardingPath([TwoHopLeg()]).(currHf := 1)
  }

  const SHOWN_KEYS: Keys := ia => ShowBeta

  lemma TwoHopBetas()
    ensures var s := TwoHopLeg().seg; BetaAt(s, 0) == Word16(0) && BetaAt(s, 1) == Word16(1)
  {
    assert Word16(0).Xor(Word16(1)) == Word16(1);
  }

  lemma TwoHopBuilt()
    ensures Built(SHOWN_KEYS, TwoHopLeg().seg)
  {
    TwoHopBetas();
    var s := TwoHopLeg().seg;
    assert EntryBuilt(SHOWN_KEYS, s, 0) && EntryBuilt(SHOWN_KEYS, s, 1);
  }

  lemma TwoHopLegs()
    ensures WellFormed([TwoHopLeg()]) && Offset([TwoHopLeg()], 1) == 2 && Offset([TwoHopLeg()], 0) == 0
  {
    var legs := [TwoHopLeg()];
    assert Offset(legs, 1) == Offset(legs, 0) + legs[0].Len();
  }
}
