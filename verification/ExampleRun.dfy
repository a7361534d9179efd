/**
 A network of two ASes in which a packet is delivered: the assumptions of the theorems about
 whole runs hold together, and their conclusions are about something.
 */
module ExampleRun {
  import opened Basics
  import opened ScionPath
  import opened Segments
  import opened Combinator
  import opened Router
  import opened PathAuthorization
  import opened Network
  import opened AuthorizedRuns
  import opened ScmpReplies
  import opened EarlyReplies
  import FabridSlots
  import RouterProgress
  import Delivery
  import ReplyDelivery

  const CHILD := DataPlane(IA(1, 2), {2}, map[], map[2 := Parent], ShowBeta)
  const PARENT := DataPlane(IA(1, 1), {1}, map[], map[1 := Child], ShowBeta)

  const CHILD_ADDR := Addr(1, 0)
  const PARENT_ADDR := Addr(2, 0)

  const LINK: Network := Network(
    map[CHILD_ADDR := CHILD, PARENT_ADDR := PARENT],
    map[(IA(1, 2), 2) := CHILD_ADDR, (IA(1, 1), 1) := PARENT_ADDR],
    map[(IA(1, 2), 2) := (IA(1, 1), 1), (IA(1, 1), 1) := (IA(1, 2), 2)])

  const HDR := Header(IA(1, 2), IA(1, 1))
  const ENV := Env(0, true, CHILD_ADDR, Resolved, {}, true, true)

  function Sent(): Transit { Transit(CHILD_ADDR, 0, ForwardingPath([TwoHopLeg()]), [], []) }

  function Arrived(): Transit { Transit(PARENT_ADDR, 1, ArrivingPacket(), [Parent], [0]) }

  lemma PathFields()
    ensures var p := ForwardingPath([TwoHopLeg()]);
      && p.Decoded() && p.hops == [TwoHopLeg().Hop(0), TwoHopLeg().Hop(1)]
      && p.infos == [InfoField(false, false, Word16(1), 0)]
      && p.len0 == 2 && p.len1 == 0 && p.len2 == 0 && p.currHf == 0 && p.currInf == 0
  {
    TwoHopBetas();
    var legs := [TwoHopLeg()];
    var p := ForwardingPath(legs);
    assert AllHops(legs, 0) == [];
    assert AllHops(legs, 1) == AllHops(legs, 0) + LegHops(legs[0]);
    assert LegHops(legs[0]) == [TwoHopLeg().Hop(0), TwoHopLeg().Hop(1)];
  }

  lemma FirstVerdict()
    ensures Present(LINK, Sent())
    ensures VerdictAt(LINK, HDR, ENV, Sent()) == Forwarded(2, ArrivingPacket(), Some(0), Out)
  {
    PathFields();
    var p := ForwardingPath([TwoHopLeg()]);
    hide ForwardingPath;
    var c := Ctx(CHILD, HDR, ENV, 0);
    var proc := Proc(p, p.hops[0], p.infos[0], false, false);
    assert Precheck(c, p) == Go(proc);
    assert IngressStage(c, p) == Go(proc);
    assert XoverStage(c, proc) == Go(proc);
    assert EgressChecks(c, proc) == Go(proc);
    assert ProcessEgress(proc) == Some(ArrivingPacket());
    assert ProcessHbhOptions(c, proc) == FabridSlot(0);
  }

  /** The processor of the second router, with the SegID updated. */
  function Second(): Proc {
    Proc(ArrivingPacket().SetInfo(InfoField(false, false, Word16(0), 0)), TwoHopLeg().Hop(1),
         InfoField(false, false, Word16(0), 0), false, false)
  }

  /** The processor of the second router after the first checks. */
  function Checked(): Proc
  {
    Proc(ArrivingPacket(), TwoHopLeg().Hop(1), InfoField(false, false, Word16(1), 0), false, false)
  }

  lemma SecondPrecheck(env: Env)
    requires env == ENV || env == NO_BACKEND
    ensures ArrivingPacket().Decoded() && Precheck(Ctx(PARENT, HDR, env, 1), ArrivingPacket()) == Go(Checked())
  {
    PathFields();
    hide ForwardingPath;
  }

  lemma SecondUpdate(env: Env)
    ensures Checked().Valid() && Second().Valid()
    ensures UpdateOnIngress(Ctx(PARENT, HDR, env, 1), Checked()) == Second()
  {
    PathFields();
    hide ForwardingPath;
    assert Word16(1).Xor(Word16(1)) == Word16(0);
  }

  lemma SecondStage(env: Env)
    requires env == ENV || env == NO_BACKEND
    ensures ArrivingPacket().Decoded() && Second().Valid()
    ensures IngressStage(Ctx(PARENT, HDR, env, 1), ArrivingPacket()) == Go(Second())
  {
    hide Precheck, UpdateOnIngress, ForwardingPath, ArrivingPacket;
    SecondPrecheck(env);
    SecondUpdate(env);
  }

  lemma SecondSlot()
    ensures Second().Valid() && ProcessHbhOptions(Ctx(PARENT, HDR, ENV, 1), Second()) == FabridSlot(1)
  {
    PathFields();
    hide ForwardingPath;
  }

  lemma SecondVerdict()
    ensures Present(LINK, Arrived())
    ensures VerdictAt(LINK, HDR, ENV, Arrived()).Delivered? && VerdictAt(LINK, HDR, ENV, Arrived()).slot == Some(1)
  {
    hide IngressStage, ForwardingPath, ArrivingPacket, ProcessHbhOptions, Second, Outbound;
    SecondStage(ENV);
    SecondSlot();
  }

  lemma LinkLinked()
    ensures WellFormed([TwoHopLeg()]) && Linked(LINK, [TwoHopLeg()])
  {
    TwoHopLegs();
    var legs := [TwoHopLeg()];
    hide WellFormed;
    LegsValid(legs);
    forall j: nat, t: nat | ValidPos(legs, j, t) && SwitchLeg(legs, j, t) == (j, t) && NextPos(legs, j, t).0 < |legs|
      ensures var (m, w) := NextPos(legs, j, t); var k := (legs[j].Local(t), EgressOf(legs[j], t));
        k in LINK.remote ==> LINK.remote[k].0 == legs[m].Local(w)
    {
      assert j == 0 && t == 0;
    }
  }

  lemma LinkOwned()
    ensures Owned(LINK)
  {
  }

  lemma LinkMatched()
    requires Owned(LINK)
    ensures Matched(LINK)
  {
    hide Owned;
    var a, b := (IA(1, 2), 2), (IA(1, 1), 1);
    assert LINK.owner[a] == CHILD_ADDR && LINK.owner[b] == PARENT_ADDR && LINK.remote[a] == b && LINK.remote[b] == a;
    assert CHILD.TypeOf(2) == Parent && PARENT.TypeOf(1) == Child;
  }

  lemma LinkConsistent()
    ensures Consistent(LINK)
  {
    hide Owned, Matched;
    LinkOwned();
    LinkMatched();
  }

  lemma OneStep()
    ensures Step(LINK, HDR, ENV, Sent()) == Some(Arrived())
  {
    hide Process, ForwardingPath, ArrivingPacket;
    FirstVerdict();
    assert LINK.routers[CHILD_ADDR] == CHILD && CHILD.TypeOf(2) == Parent;
    assert LINK.remote[(IA(1, 2), 2)] == (IA(1, 1), 1) && LINK.owner[(IA(1, 1), 1)] == PARENT_ADDR;
    assert [] + [Parent] == [Parent] && Slots([], Some(0)) == [0];
  }

  /** All assumptions about networks, keys, paths and runs hold together for a delivered packet. */
  lemma AssumptionsMeet()
    ensures var legs := [TwoHopLeg()]; var states := [Sent(), Arrived()];
      && WellFormed(legs) && AllBuilt(SHOWN_KEYS, legs) && Linked(LINK, legs)
      && Consistent(LINK) && Keyed(LINK, SHOWN_KEYS)
      && Injected(LINK, Sent()) && Sent().path == ForwardingPath(legs) && CHILD.localIA == legs[0].Local(0)
      && IsRun(LINK, HDR, [ENV], states)
      && Present(LINK, Arrived()) && VerdictAt(LINK, HDR, ENV, Arrived()).Delivered?
  {
    hide WellFormed, Linked, Process, Consistent, Built, ForwardingPath, ArrivingPacket;
    LinkLinked();
    LinkConsistent();
    TwoHopBuilt();
    FirstVerdict();
    SecondVerdict();
    OneStep();
  }

  /** So do those about delivery. */
  lemma DeliveryAssumptionsMeet()
    ensures var legs := [TwoHopLeg()];
      && Delivery.Routable(LINK, SHOWN_KEYS, HDR, legs, 0) && Delivery.Sent(LINK, legs, Sent())
      && RouterProgress.Smooth(legs, ENV)
  {
    hide WellFormed, Consistent, AllBuilt, Keyed, Linked, IsRun, VerdictAt, Delivery.Connected, Delivery.Permitted,
      Delivery.Complete, RouterProgress.Smooth, RouterProgress.Addressed, ForwardingPath;
    AssumptionsMeet();
    LinkConnected();
    LinkSmooth();
    LinkPermitted();
    LinkComplete();
    LegsValid([TwoHopLeg()]);
    assert LINK.owner[(IA(1, 2), 2)] == CHILD_ADDR && LINK.routers[CHILD_ADDR] == CHILD;
  }

  lemma LinkComplete()
    ensures Delivery.Complete(LINK)
  {
  }

  lemma LinkSmooth()
    ensures WellFormed([TwoHopLeg()]) && RouterProgress.Smooth([TwoHopLeg()], ENV)
    ensures RouterProgress.Addressed(HDR, [TwoHopLeg()], 0)
  {
    TwoHopLegs();
    var legs := [TwoHopLeg()];
    hide WellFormed;
    LegsValid(legs);
    assert FabridSlots.NumASes(legs) == 2;
    forall j: nat, t: nat | ValidPos(legs, j, t)
      ensures 0 <= 675 * (legs[j].Hop(t).expTime + 1)
      ensures legs[j].Local(t) == HDR.dstIA <==> RouterProgress.IsLast(legs, j, t)
      ensures Offset(legs, j) + t == 0 ==> legs[j].Local(t) == HDR.srcIA
      ensures Offset(legs, j) + t > 0 ==> legs[j].Local(t) != HDR.srcIA
    {
      assert j == 0 && (t == 0 || t == 1);
    }
  }

  lemma LinkConnected()
    ensures WellFormed([TwoHopLeg()]) && Delivery.Connected(LINK, [TwoHopLeg()])
  {
    TwoHopLegs();
    var legs := [TwoHopLeg()];
    hide WellFormed;
    LegsValid(legs);
    forall j: nat, t: nat | ValidPos(legs, j, t) ensures Delivery.Joins(LINK, legs, j, t) {
      assert j == 0 && (t == 0 || t == 1);
    }
  }

  lemma LinkPermitted()
    ensures WellFormed([TwoHopLeg()]) && Delivery.Permitted(LINK, [TwoHopLeg()])
  {
    TwoHopLegs();
  }

  // ----- A reply that is delivered -----------------------------------------------------------

  /** The service the packet is for has no backend. */
  const NO_BACKEND := ENV.(resolve := NoSvcBackend)

  lemma LateRequest()
    ensures Present(LINK, Arrived())
    ensures var v := VerdictAt(LINK, HDR, NO_BACKEND, Arrived()); v.SlowPath? && v.cause == NoRoute
  {
    hide IngressStage, ForwardingPath, ArrivingPacket, Second, Outbound;
    SecondStage(NO_BACKEND);
    ArrivedDecoded();
  }

  lemma ArrivedDecoded()
    ensures ArrivingPacket().Decoded() && ArrivingPacket().NumHops() == 2 && ArrivingPacket().currHf == 1
  {
    PathFields();
    hide ForwardingPath;
  }

  function WayBack(): seq<Leg> { [TwoHopLeg().Reversed()] }

  lemma WayBackIs()
    ensures Back([TwoHopLeg()]) == WayBack() && WellFormed(WayBack()) && AllBuilt(SHOWN_KEYS, WayBack())
  {
    TwoHopLegs();
    TwoHopBuilt();
    var legs := [TwoHopLeg()];
    assert Back(legs) == WayBack();
    BackBuilt(SHOWN_KEYS, legs);
    hide WellFormed;
    LegsValid(legs);
    BackValid(legs);
    BackWellFormed(legs);
  }

  lemma WayBackConnected()
    ensures WellFormed(WayBack()) && Delivery.Connected(LINK, WayBack())
  {
    WayBackIs();
    var legs := WayBack();
    hide WellFormed;
    LegsValid(legs);
    forall j: nat, t: nat | ValidPos(legs, j, t) ensures Delivery.Joins(LINK, legs, j, t) {
      assert j == 0 && (t == 0 || t == 1);
    }
  }

  lemma WayBackSmooth()
    ensures WellFormed(WayBack()) && RouterProgress.Smooth(WayBack(), ENV)
    ensures RouterProgress.Addressed(BACK, WayBack(), 0)
  {
    WayBackIs();
    var legs := WayBack();
    hide WellFormed;
    LegsValid(legs);
    assert Offset(legs, 0) == 0 && Offset(legs, 1) == Offset(legs, 0) + legs[0].Len();
    assert FabridSlots.NumASes(legs) == 2;
    forall j: nat, t: nat | ValidPos(legs, j, t)
      ensures 0 <= 675 * (legs[j].Hop(t).expTime + 1)
      ensures legs[j].Local(t) == BACK.dstIA <==> RouterProgress.IsLast(legs, j, t)
      ensures Offset(legs, j) + t == 0 ==> legs[j].Local(t) == BACK.srcIA
      ensures Offset(legs, j) + t > 0 ==> legs[j].Local(t) != BACK.srcIA
    {
      assert j == 0 && (t == 0 || t == 1);
    }
  }

  lemma WayBackPermitted()
    ensures WellFormed(WayBack()) && Delivery.Permitted(LINK, WayBack())
  {
    WayBackIs();
  }

  /** The assumptions about the delivery of replies hold together as well. */
  lemma ReplyAssumptionsMeet()
    ensures var legs := [TwoHopLeg()];
      && ReplyDelivery.Requests(LINK, SHOWN_KEYS, HDR, [ENV], [Sent(), Arrived()], legs, NO_BACKEND, 0)
      && Delivery.Routable(LINK, SHOWN_KEYS, BACK, Back(legs), 0) && RouterProgress.Smooth(Back(legs), ENV)
  {
    hide WellFormed, Consistent, AllBuilt, Keyed, Linked, IsRun, VerdictAt, Delivery.Connected, Delivery.Permitted,
      Delivery.Complete, RouterProgress.Smooth, RouterProgress.Addressed, ForwardingPath, ArrivingPacket;
    AssumptionsMeet();
    WayBackIs();
    WayBackConnected();
    WayBackSmooth();
    WayBackPermitted();
    LinkComplete();
    LateRequest();
    ArrivedDecoded();
    LegsValid([TwoHopLeg()]);
    assert LINK.routers[PARENT_ADDR] == PARENT && LINK.routers[CHILD_ADDR] == CHILD;
  }

  // ----- An early request whose reply is refused ---------------------------------------

  /** The packet is too long for the second router. */
  const TOO_LONG := ENV.(pktLenOk := false)
  const BACK := Header(IA(1, 1), IA(1, 2))

  /** The reply as the second router sends it. */
  function EarlyReply(): Path {
    Path(0, 1, 2, 0, 0, [InfoField(false, true, Word16(0), 0)], [TwoHopLeg().Hop(1), TwoHopLeg().Hop(0)])
  }

  lemma EarlyRequest()
    ensures Present(LINK, Arrived())
    ensures VerdictAt(LINK, HDR, TOO_LONG, Arrived()) == SlowPath(BadPacketSize, ArrivingPacket())
  {
    PathFields();
    hide ForwardingPath;
    var c := Ctx(PARENT, HDR, TOO_LONG, 1);
    assert Precheck(c, ArrivingPacket()) == Stop(SlowPath(BadPacketSize, ArrivingPacket()));
    hide Precheck;
  }

  /** The packet turned around, before its SegID is updated. */
  function Turned(): Path {
    EarlyReply().(currHf := 0, infos := [InfoField(false, true, Word16(1), 0)])
  }

  lemma PacketTurned()
    ensures ArrivingPacket().Decoded() && ArrivingPacket().Reverse() == Some(Turned())
  {
    PathFields();
    hide ForwardingPath;
    var p := ArrivingPacket();
    assert TurnHops(p.hops) == [TwoHopLeg().Hop(1), TwoHopLeg().Hop(0)];
    assert TurnInfos(p.infos) == [InfoField(false, true, Word16(1), 0)];
  }

  lemma TurnedMovesOn()
    ensures var rev := Turned();
      && rev.currInf < |rev.infos| && rev.currHf < |rev.hops|
      && rev.SetInfo(rev.infos[rev.currInf].UpdateSegId(rev.hops[rev.currHf].mac)).IncPath() == Some(EarlyReply())
  {
    var rev := Turned();
    assert rev.hops[0].mac.sigma == Word16(1);
    assert Word16(1).Xor(Word16(1)) == Word16(0);
    assert rev.infos[0].UpdateSegId(rev.hops[0].mac) == EarlyReply().infos[0];
    assert rev.SetInfo(EarlyReply().infos[0]).infos == EarlyReply().infos;
  }

  lemma EarlyReplySent()
    ensures ArrivingPacket().Decoded() && ReplyPath(PARENT, 1, ArrivingPacket()) == Some(EarlyReply())
  {
    hide ArrivingPacket, ReplyPath;
    PacketTurned();
    TurnedMovesOn();
    PlainReply(PARENT, 1, ArrivingPacket(), Turned());
  }

  lemma EarlyReplyChecked()
    ensures EarlyReply().Decoded()
    ensures Process(Ctx(CHILD, BACK, ENV, 2), EarlyReply()) == SlowPath(MacFailed, EarlyReply())
  {
    var r, c := EarlyReply(), Ctx(CHILD, BACK, ENV, 2);
    assert Precheck(c, r) == Go(Proc(r, r.hops[1], r.infos[0], false, false));
    hide Precheck;
    assert (0 as bv16) as bv32 != (1 as bv16) as bv32;
    assert r.hops[1].mac == Mac(Word16(1), (1 as bv16) as bv32);
  }

  /**
   The second router finds the packet too long before it updates the SegID; the first router,
   to which it sends its answer, reports a MAC failure for it.
   */
  lemma EarlyReplyFails()
    ensures Present(LINK, Arrived())
    ensures VerdictAt(LINK, HDR, TOO_LONG, Arrived()) == SlowPath(BadPacketSize, ArrivingPacket())
    ensures ArrivingPacket().Decoded() && ReplyPath(PARENT, Arrived().ingress, ArrivingPacket()) == Some(EarlyReply())
    ensures ReplyOutside(LINK, Arrived(), EarlyReply()) == Some(Transit(CHILD_ADDR, 2, EarlyReply(), [], []))
    ensures EarlyReply().Decoded()
    ensures Process(Ctx(CHILD, BACK, ENV, 2), EarlyReply()) == SlowPath(MacFailed, EarlyReply())
  {
    hide Process, ReplyPath, ForwardingPath, ArrivingPacket, EarlyReply;
    EarlyRequest();
    EarlyReplySent();
    EarlyReplyChecked();
    assert LINK.remote[(IA(1, 1), 1)] == (IA(1, 2), 2) && LINK.owner[(IA(1, 2), 2)] == CHILD_ADDR;
  }
}
