/**
 Which packets a border router lets through, said in terms of the packet and the configuration
 alone, and what it reports about the others.
 */
module RouterAdmission {
  import opened Basics
  import opened ScionPath
  import opened Router
  import opened Network

  // ----- The current hop -------------------------------------------------------------------

  predicate InPath(path: Path) { path.currHf < |path.hops| && path.currInf < |path.infos| }

  function Hop(path: Path): HopField
    requires InPath(path)
  {
    path.hops[path.currHf]
  }

  function Info(path: Path): InfoField
    requires InPath(path)
  {
    path.infos[path.currInf]
  }

  /** A peering path has an up and a down segment and no other. */
  predicate LaidOut(path: Path)
    requires InPath(path)
  {
    Info(path).peer ==> path.len0 > 0 && path.len1 > 0 && path.len2 == 0
  }

  predicate AtPeerLink(path: Path)
    requires InPath(path)
  {
    Info(path).peer && (path.currHf + 1 == path.len0 || path.currHf == path.len0)
  }

  /** The interface a hop names for packets that come in, and for those that go out. */
  function Into(info: InfoField, hop: HopField): IfId { if info.consDir then hop.consIngress else hop.consEgress }

  function OutOf(info: InfoField, hop: HopField): IfId { if info.consDir then hop.consEgress else hop.consIngress }

  /** Times are in half seconds; an expiry unit is 337.5 seconds. */
  predicate Alive(now: int, info: InfoField, hop: HopField) {
    now <= 2 * info.timestamp + 675 * (hop.expTime + 1)
  }

  /** The MAC of the hop is the one over this SegID. */
  predicate Genuine(mac: MacFn, segId: Word16, info: InfoField, hop: HopField) {
    mac(MacInput(segId, info.timestamp, hop.expTime, hop.consIngress, hop.consEgress)) == hop.mac
  }

  // ----- The first checks ------------------------------------------------------------------

  predicate RightInterface(c: Ctx, path: Path)
    requires InPath(path)
  {
    c.ingress == 0 || c.ingress == Into(Info(path), Hop(path))
  }

  /** The interface by which a packet that comes from a sibling must have entered the AS. */
  function EntrySeen(path: Path): IfId
    requires InPath(path)
  {
    if !AtPeerLink(path) && path.currInf > 0 && path.currHf > 0 && path.InfIndex(path.currHf - 1) == path.currInf - 1
    then Into(path.infos[path.currInf - 1], path.hops[path.currHf - 1])
    else Into(Info(path), Hop(path))
  }

  predicate FromSibling(c: Ctx, path: Path)
    requires InPath(path)
  {
    c.ingress == 0 && path.currHf != 0 ==>
      var i := EntrySeen(path);
      i in c.d.internalNextHops && c.d.internalNextHops[i].ip == c.env.srcAddr.ip
  }

  predicate SourceFits(c: Ctx, path: Path) {
    if c.ingress == 0 then path.currHf == 0 ==> c.hdr.srcIA == c.d.localIA else c.hdr.srcIA != c.d.localIA
  }

  predicate DestinationFits(c: Ctx, path: Path) {
    if c.ingress == 0 then c.hdr.dstIA != c.d.localIA
    else c.hdr.dstIA == c.d.localIA <==> path.currHf + 1 == path.NumHops()
  }

  predicate FirstChecks(c: Ctx, path: Path) {
    && InPath(path) && LaidOut(path) && Alive(c.env.now, Info(path), Hop(path)) && RightInterface(c, path)
    && c.env.pktLenOk && FromSibling(c, path) && SourceFits(c, path) && DestinationFits(c, path)
  }

  lemma FirstChecksIff(c: Ctx, path: Path)
    requires path.Decoded()
    ensures Precheck(c, path).Go? <==> FirstChecks(c, path)
    ensures Precheck(c, path).Go? ==> Precheck(c, path).p == Proc(path, Hop(path), Info(path), AtPeerLink(path), false)
  {
  }

  // ----- The ingress stage -----------------------------------------------------------------

  /** Against construction, a packet from outside still lacks this hop in its SegID. */
  function SegIdHere(c: Ctx, path: Path): Word16
    requires InPath(path)
  {
    if !Info(path).consDir && c.ingress != 0 && !AtPeerLink(path) then Info(path).segId.Xor(Hop(path).mac.sigma)
    else Info(path).segId
  }

  predicate AlertsIngress(c: Ctx, path: Path)
    requires InPath(path)
  {
    c.ingress != 0 && if Info(path).consDir then Hop(path).ingressAlert else Hop(path).egressAlert
  }

  predicate IngressChecks(c: Ctx, path: Path) {
    && FirstChecks(c, path) && Genuine(c.d.mac, SegIdHere(c, path), Info(path), Hop(path)) && !AlertsIngress(c, path)
  }

  /** The packet with the SegID of this hop. */
  function Here(c: Ctx, path: Path): Path
    requires InPath(path)
  {
    path.(infos := path.infos[path.currInf := Info(path).(segId := SegIdHere(c, path))])
  }

  lemma IngressChecksIff(c: Ctx, path: Path)
    requires path.Decoded()
    ensures IngressStage(c, path).Go? <==> IngressChecks(c, path)
    ensures IngressStage(c, path).Go? ==>
      IngressStage(c, path).p == Proc(Here(c, path), Hop(path), Info(Here(c, path)), AtPeerLink(path), false)
  {
    FirstChecksIff(c, path);
    hide Precheck, FirstChecks;
    if Precheck(c, path).Go? {
      assert path.infos == path.infos[path.currInf := Info(path)];
    }
  }

  // ----- The egress ------------------------------------------------------------------------

  /** The packet leaves its segment here, other than over a peer link. */
  predicate Switches(path: Path)
    requires InPath(path)
  {
    !AtPeerLink(path) && path.currHf + 1 < path.NumHops() && path.InfIndex(path.currHf + 1) != path.currInf
  }

  /** The packet at the hop it leaves the AS from. */
  function There(c: Ctx, path: Path): Path
    requires InPath(path)
  {
    if Switches(path) then Here(c, path).(currHf := path.currHf + 1, currInf := path.InfIndex(path.currHf + 1))
    else Here(c, path)
  }

  /** The hop switched to is in the path, alive and genuine. */
  predicate SwitchHolds(c: Ctx, path: Path)
    requires InPath(path)
  {
    var p := There(c, path);
    Switches(path) ==>
      InPath(p) && Alive(c.env.now, Info(p), Hop(p)) && Genuine(c.d.mac, Info(p).segId, Info(p), Hop(p))
  }

  function Exit(p: Path): IfId
    requires InPath(p)
  {
    OutOf(Info(p), Hop(p))
  }

  /** Within a segment a packet goes on over core links, on up, on down, or over a peer link between up and down. */
  predicate PairWithin(i: LinkType, e: LinkType) {
    match (i, e)
    case (Core, Core) => true
    case (Child, Parent) => true
    case (Parent, Child) => true
    case (Child, Peer) => true
    case (Peer, Child) => true
    case _ => false
  }

  /** At a switch it goes from up to core, from core to down, or from up to down. */
  predicate PairAtSwitch(i: LinkType, e: LinkType) {
    match (i, e)
    case (Child, Core) => true
    case (Core, Child) => true
    case (Child, Child) => true
    case _ => false
  }

  predicate PairHolds(c: Ctx, path: Path)
    requires InPath(path) && InPath(There(c, path))
  {
    var i, e := c.d.TypeOf(c.ingress), c.d.TypeOf(Exit(There(c, path)));
    if Switches(path) then PairAtSwitch(i, e) else c.ingress == 0 || PairWithin(i, e)
  }

  predicate Reachable(c: Ctx, e: IfId) { e in c.d.external || (e in c.d.internalNextHops && c.ingress != 0) }

  predicate AlertsEgress(c: Ctx, p: Path)
    requires InPath(p)
  {
    Exit(p) in c.d.external && if Info(p).consDir then Hop(p).egressAlert else Hop(p).ingressAlert
  }

  /** The option is absent, skipped by the second router of the AS, or right: at most 62 slots. */
  predicate FabridHolds(c: Ctx, p: Path)
    requires InPath(p)
  {
    var peer := Info(p).peer;
    var slot := if peer then p.currHf else (p.currHf - p.currInf) % 256;
    var slots := (p.NumHops() - p.NumInf() + if peer then 2 else 1) % 256;
    !c.env.fabrid || (c.ingress == 0 && slot != 0) || (c.env.fabridOk && slots <= 62 && slot < slots)
  }

  /** All that a packet for another AS has to meet. */
  predicate LeavesRight(c: Ctx, path: Path)
    requires InPath(path)
  {
    var p := There(c, path);
    && SwitchHolds(c, path) && InPath(p) && Reachable(c, Exit(p)) && PairHolds(c, path) && !AlertsEgress(c, p)
    && Exit(p) !in c.env.down && FabridHolds(c, p)
    && (Exit(p) in c.d.external ==> p.currHf + 1 < p.NumHops())
  }

  predicate DeliveredRight(c: Ctx, path: Path)
    requires InPath(path)
  {
    c.env.resolve == Resolved && FabridHolds(c, Here(c, path))
  }

  /** The packets a router lets through. */
  predicate Admitted(c: Ctx, path: Path) {
    && IngressChecks(c, path)
    && if c.hdr.dstIA == c.d.localIA then DeliveredRight(c, path) else LeavesRight(c, path)
  }

  predicate LetThrough(v: Verdict) { v.Forwarded? || v.HandedOver? || v.Delivered? }

  lemma HereKeeps(c: Ctx, path: Path)
    requires path.Decoded() && InPath(path)
    ensures var h := Here(c, path);
      && h.Decoded() && InPath(h) && Hop(h) == Hop(path) && h.hops == path.hops && |h.infos| == |path.infos|
      && h.currHf == path.currHf && h.currInf == path.currInf && h.NumHops() == path.NumHops()
      && h.NumInf() == path.NumInf() && h.InfIndex(path.currHf + 1) == path.InfIndex(path.currHf + 1)
      && Info(h).consDir == Info(path).consDir && Info(h).peer == Info(path).peer
  {
  }

  /** The processor as it comes to the egress. */
  function AtExit(c: Ctx, path: Path): Proc
    requires InPath(path) && InPath(There(c, path))
  {
    Proc(There(c, path), Hop(There(c, path)), Info(There(c, path)), AtPeerLink(path), Switches(path))
  }

  lemma SwitchedTo(c: Ctx, path: Path)
    requires path.Decoded() && IngressChecks(c, path)
    ensures IngressStage(c, path).Go?
    ensures var p := IngressStage(c, path).p;
      && (Switches(path) <==> p.path.IsXover() && !p.peering)
      && (Switches(path) && DoXover(p).Go? ==> InPath(There(c, path)) && DoXover(p).p == AtExit(c, path))
      && (Switches(path) && DoXover(p).Stop? ==> DoXover(p).v == Dropped)
  {
    IngressChecksIff(c, path);
    HereKeeps(c, path);
    hide IngressStage, IngressChecks, Here;
  }

  lemma SwitchHoldsIff(c: Ctx, path: Path)
    requires path.Decoded() && IngressChecks(c, path)
    ensures IngressStage(c, path).Go?
    ensures XoverStage(c, IngressStage(c, path).p).Go? <==> SwitchHolds(c, path)
    ensures SwitchHolds(c, path) ==>
      InPath(There(c, path)) && XoverStage(c, IngressStage(c, path).p).p == AtExit(c, path)
  {
    SwitchedTo(c, path);
    hide IngressStage, IngressChecks, Here, There, Switches, DoXover;
  }

  lemma EgressIff(c: Ctx, path: Path)
    requires path.Decoded() && InPath(path) && InPath(There(c, path)) && AtExit(c, path).Valid()
    ensures var p := There(c, path);
      EgressChecks(c, AtExit(c, path)).Go? <==>
        Reachable(c, Exit(p)) && PairHolds(c, path) && !AlertsEgress(c, p) && Exit(p) !in c.env.down
  {
    hide There, Switches, AtPeerLink;
  }

  lemma FabridIff(c: Ctx, p: Proc)
    requires p.Valid() && p.info == p.path.infos[p.path.currInf]
    ensures !ProcessHbhOptions(c, p).FabridError? <==> FabridHolds(c, p.path)
  {
  }

  // ----- The verdict -----------------------------------------------------------------------

  function TrafficOf(c: Ctx): TrafficType {
    if c.hdr.srcIA == c.d.localIA then Out else if c.ingress == 0 then OutTransit else BrTransit
  }

  /** The packet as it leaves over a link: in construction direction the SegID takes in this hop. */
  function Gone(c: Ctx, path: Path): Path
    requires InPath(path) && InPath(There(c, path))
  {
    var p := There(c, path);
    var segId := if Info(p).consDir && !AtPeerLink(path) then Info(p).segId.Xor(Hop(p).mac.sigma) else Info(p).segId;
    p.(infos := p.infos[p.currInf := Info(p).(segId := segId)],
       currHf := p.currHf + 1, currInf := p.InfIndex(p.currHf + 1))
  }

  /** What becomes of a packet that is let through. */
  predicate Passes(v: Verdict, c: Ctx, path: Path)
    requires InPath(path) && InPath(There(c, path))
  {
    var e := Exit(There(c, path));
    match v
    case Delivered(q, _) => c.hdr.dstIA == c.d.localIA && q == Here(c, path)
    case Forwarded(x, q, _, traffic) =>
      && c.hdr.dstIA != c.d.localIA && x == e && e in c.d.external && traffic == TrafficOf(c)
      && q == Gone(c, path)
    case HandedOver(next, q, _) =>
      && c.hdr.dstIA != c.d.localIA && e !in c.d.external && e in c.d.internalNextHops
      && next == c.d.internalNextHops[e] && q == There(c, path)
    case _ => false
  }

  lemma EmitIff(c: Ctx, path: Path)
    requires path.Decoded() && InPath(path) && InPath(There(c, path)) && AtExit(c, path).Valid()
    requires c.hdr.dstIA != c.d.localIA && Reachable(c, Exit(There(c, path)))
    ensures var p, v := There(c, path), Emit(c, AtExit(c, path));
      && (LetThrough(v) <==> FabridHolds(c, p) && (Exit(p) in c.d.external ==> p.currHf + 1 < p.NumHops()))
      && (if LetThrough(v) then Passes(v, c, path) else v == Dropped)
  {
    hide Switches, AtPeerLink, ProcessHbhOptions, FabridHolds, There;
    FabridIff(c, AtExit(c, path));
    var p := There(c, path);
    assert p.infos == p.infos[p.currInf := Info(p)];
  }

  lemma OutboundIff(c: Ctx, path: Path)
    requires path.Decoded() && IngressChecks(c, path) && IngressStage(c, path).Go? && c.hdr.dstIA != c.d.localIA
    ensures var v := Outbound(c, IngressStage(c, path).p);
      && (LetThrough(v) <==> LeavesRight(c, path))
      && (LetThrough(v) ==> InPath(There(c, path)) && Passes(v, c, path))
  {
    SwitchHoldsIff(c, path);
    hide IngressStage, IngressChecks, XoverStage, EgressChecks, Emit, Reachable, PairHolds, AlertsEgress, FabridHolds,
      There, Switches, Passes;
    var p := IngressStage(c, path).p;
    XoverStops(c, p);
    if SwitchHolds(c, path) {
      EgressIff(c, path);
      var q := AtExit(c, path);
      if EgressChecks(c, q).Go? { EmitIff(c, path); } else { EgressChecksStop(c, q); }
    }
    hide SwitchHolds;
  }

  lemma XoverStops(c: Ctx, p: Proc)
    requires p.Valid()
    ensures XoverStage(c, p).Stop? ==> !LetThrough(XoverStage(c, p).v)
  {
  }

  lemma InboundIff(c: Ctx, path: Path)
    requires path.Decoded() && IngressChecks(c, path) && IngressStage(c, path).Go?
    ensures LetThrough(Inbound(c, IngressStage(c, path).p)) <==> DeliveredRight(c, path)
    ensures LetThrough(Inbound(c, IngressStage(c, path).p)) ==>
      Inbound(c, IngressStage(c, path).p).Delivered? && Inbound(c, IngressStage(c, path).p).path == Here(c, path)
  {
    IngressChecksIff(c, path);
    HereKeeps(c, path);
    hide IngressStage, IngressChecks, ProcessHbhOptions, FabridHolds, Here;
    FabridIff(c, IngressStage(c, path).p);
  }

  /**
   A packet is let through if and only if it meets all conditions of `Admitted`, and then it is
   delivered, sent out, or handed over as its path and the destination say.
   */
  lemma AdmittedIff(c: Ctx, path: Path)
    requires path.Decoded()
    ensures LetThrough(Process(c, path)) <==> Admitted(c, path)
    ensures Admitted(c, path) && c.hdr.dstIA == c.d.localIA ==>
      Process(c, path).Delivered? && Process(c, path).path == Here(c, path)
    ensures Admitted(c, path) && c.hdr.dstIA != c.d.localIA ==>
      InPath(There(c, path)) && Passes(Process(c, path), c, path)
  {
    IngressChecksIff(c, path);
    IngressKeeps(c, path);
    if IngressStage(c, path).Go? {
      if c.hdr.dstIA == c.d.localIA { InboundIff(c, path); } else { OutboundIff(c, path); }
    }
    hide IngressStage, IngressChecks, Inbound, Outbound, DeliveredRight, LeavesRight, Here, There, Passes;
  }

  // ----- What is reported --------------------------------------------------------------------

  /** What a slow-path request says about the packet. */
  predicate Reported(cause: Cause, c: Ctx, path: Path)
    requires InPath(path)
  {
    var info, hop, p := Info(path), Hop(path), There(c, path);
    match cause
    case ExpiredHop => !Alive(c.env.now, info, hop)
    case IngressInvalid => c.ingress != 0 && c.ingress != Into(info, hop)
    case BadPacketSize => !c.env.pktLenOk
    case InvalidSrcIA => !SourceFits(c, path)
    case InvalidDstIA => !DestinationFits(c, path)
    case MacFailed => !Genuine(c.d.mac, SegIdHere(c, path), info, hop)
    case IngressAlert => AlertsIngress(c, path)
    case NoRoute => c.hdr.dstIA == c.d.localIA && c.env.resolve == NoSvcBackend
    case InvalidDst => c.hdr.dstIA == c.d.localIA && c.env.resolve == InvalidDstAddr
    case ExpiredAfterXover => Switches(path) && InPath(p) && !Alive(c.env.now, Info(p), Hop(p))
    case MacFailedAfterXover => Switches(path) && InPath(p) && !Genuine(c.d.mac, Info(p).segId, Info(p), Hop(p))
    case UnknownEgress => InPath(p) && !Reachable(c, Exit(p))
    case InvalidPath => InPath(p) && !Switches(path) && !PairHolds(c, path)
    case InvalidSegmentChange => InPath(p) && Switches(path) && !PairHolds(c, path)
    case EgressAlert => InPath(p) && AlertsEgress(c, p)
    case EgressDown => InPath(p) && Exit(p) in c.env.down
  }

  /** An alert for packets that come in, and one for packets that go out, taken off the current hop. */
  function AlertOff(p: Path, ingress: bool): Path
    requires InPath(p)
  {
    var h := Hop(p);
    p.(hops := p.hops[p.currHf := if Info(p).consDir == ingress then h.(ingressAlert := false)
                                  else h.(egressAlert := false)])
  }

  /** The packet as the slow path gets it: as it came, with the SegID of this hop, or behind the switch. */
  predicate LeftAs(q: Path, cause: Cause, c: Ctx, path: Path)
    requires InPath(path)
  {
    match cause
    case ExpiredHop | IngressInvalid | BadPacketSize | InvalidSrcIA | InvalidDstIA => q == path
    case MacFailed | NoRoute | InvalidDst => q == Here(c, path)
    case IngressAlert => q == AlertOff(Here(c, path), true)
    case EgressAlert => InPath(There(c, path)) && q == AlertOff(There(c, path), false)
    case _ => q == There(c, path)
  }

  lemma PrecheckReports(c: Ctx, path: Path)
    requires path.Decoded() && Precheck(c, path).Stop? && Precheck(c, path).v.SlowPath?
    ensures InPath(path) && Reported(Precheck(c, path).v.cause, c, path)
    ensures LeftAs(Precheck(c, path).v.path, Precheck(c, path).v.cause, c, path)
  {
  }

  lemma XoverReports(c: Ctx, path: Path)
    requires path.Decoded() && IngressChecks(c, path) && IngressStage(c, path).Go?
    ensures InPath(path)
    ensures var s := XoverStage(c, IngressStage(c, path).p);
      s.Stop? && s.v.SlowPath? ==> Reported(s.v.cause, c, path) && LeftAs(s.v.path, s.v.cause, c, path)
  {
    SwitchedTo(c, path);
    hide IngressStage, Here, There, Switches, DoXover;
    InPathHere(c, path);
    hide IngressChecks;
  }

  lemma InPathHere(c: Ctx, path: Path)
    requires IngressChecks(c, path)
    ensures InPath(path)
  {
  }

  lemma EgressReports(c: Ctx, path: Path)
    requires path.Decoded() && InPath(path) && InPath(There(c, path)) && AtExit(c, path).Valid()
    ensures var s := EgressChecks(c, AtExit(c, path));
      s.Stop? ==> s.v.SlowPath? && Reported(s.v.cause, c, path) && LeftAs(s.v.path, s.v.cause, c, path)
    ensures EgressChecks(c, AtExit(c, path)).Go? && Emit(c, AtExit(c, path)).SlowPath? ==>
      Reported(Emit(c, AtExit(c, path)).cause, c, path)
      && LeftAs(Emit(c, AtExit(c, path)).path, Emit(c, AtExit(c, path)).cause, c, path)
  {
    hide There, Switches, AtPeerLink, ProcessHbhOptions, ProcessEgress;
  }

  /**
   Every slow-path request names something that is wrong, or to be answered, with the packet, and
   the packet it leaves is determined.
   */
  lemma ReportsMean(c: Ctx, path: Path)
    requires path.Decoded() && Process(c, path).SlowPath?
    ensures InPath(path) && Reported(Process(c, path).cause, c, path)
    ensures LeftAs(Process(c, path).path, Process(c, path).cause, c, path)
  {
    IngressChecksIff(c, path);
    if IngressStage(c, path).Go? {
      if c.hdr.dstIA != c.d.localIA {
        XoverReports(c, path);
        SwitchHoldsIff(c, path);
        if XoverStage(c, IngressStage(c, path).p).Go? {
          EgressReports(c, path);
          hide XoverStage, EgressChecks, Emit, Reported, LeftAs, IngressChecks, There, IngressStage, SwitchHolds;
        }
        hide XoverStage, EgressChecks, Emit, IngressStage;
      }
      hide IngressStage, XoverStage, EgressChecks, Emit, There, ProcessHbhOptions;
    } else {
      IngressReports(c, path);
      hide IngressStage, Reported, LeftAs;
    }
  }

  lemma IngressReports(c: Ctx, path: Path)
    requires path.Decoded() && IngressStage(c, path).Stop? && IngressStage(c, path).v.SlowPath?
    ensures InPath(path) && Reported(IngressStage(c, path).v.cause, c, path)
    ensures LeftAs(IngressStage(c, path).v.path, IngressStage(c, path).v.cause, c, path)
  {
    FirstChecksIff(c, path);
    if Precheck(c, path).Stop? { PrecheckReports(c, path); }
    hide Precheck, FirstChecks, There, Switches;
  }
}
