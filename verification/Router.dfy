/**
 What the border router does with one packet, as functions on values.  Each stage
 either goes on with an updated processor state or stops with a verdict.
 */
module Router {
  import opened Basics
  import opened ScionPath

  /** An underlay address inside the AS; sibling routers are told apart by it. */
  datatype Addr = Addr(ip: nat, port: nat)

  datatype DataPlane = DataPlane(
    localIA: IA, external: set<IfId>, internalNextHops: map<IfId, Addr>,
    linkTypes: map<IfId, LinkType>, mac: MacFn)
  {
    /** Link type lookup; an absent interface, such as 0, reads as Unset. */
    function TypeOf(i: IfId): LinkType {
      if i in linkTypes then linkTypes[i] else Unset
    }
  }

  datatype Resolve = Resolved | NoSvcBackend | InvalidDstAddr

  /**
   What one processing of the packet depends on besides the path: clock (in half
   seconds), packet length check, underlay source, destination lookup, interfaces whose
   BFD session is down, and the hop-by-hop options.
   */
  datatype Env = Env(
    now: int, pktLenOk: bool, srcAddr: Addr, resolve: Resolve,
    down: set<IfId>, fabrid: bool, fabridOk: bool)

  datatype Header = Header(srcIA: IA, dstIA: IA)

  datatype Ctx = Ctx(d: DataPlane, hdr: Header, env: Env, ingress: IfId)

  datatype Cause =
    | ExpiredHop | IngressInvalid | BadPacketSize | InvalidSrcIA | InvalidDstIA
    | MacFailed | IngressAlert | NoRoute | InvalidDst
    | ExpiredAfterXover | MacFailedAfterXover
    | UnknownEgress | InvalidPath | InvalidSegmentChange | EgressAlert | EgressDown

  datatype TrafficType = Out | OutTransit | BrTransit

  /**
   The result of processing.  `path` is the path as it stands in the packet buffer, and
   `slot` the FABRID slot this router handled, if any.
   */
  datatype Verdict =
    | Forwarded(egress: IfId, path: Path, slot: Option<nat>, traffic: TrafficType)
    | HandedOver(next: Addr, path: Path, slot: Option<nat>)
    | Delivered(path: Path, slot: Option<nat>)
    | SlowPath(cause: Cause, path: Path)
    | Dropped

  /** The fields of the packet processor that change while one packet is processed. */
  datatype Proc = Proc(path: Path, hop: HopField, info: InfoField, peering: bool, xover: bool)
  {
    predicate Valid() {
      && path.Decoded() && path.currHf < |path.hops| && path.currInf < |path.infos|
    }

    function Egress(): IfId { if info.consDir then hop.consEgress else hop.consIngress }

    /** The interface the packet entered the AS on, also right after a segment switch. */
    function Ingress(): IfId
      requires Valid()
    {
      var switched := !peering && path.IsFirstHopAfterXover();
      var i := if switched then path.infos[path.currInf - 1] else info;
      var h := if switched then path.hops[path.currHf - 1] else hop;
      if i.consDir then h.consIngress else h.consEgress
    }
  }

  datatype Stage = Go(p: Proc) | Stop(v: Verdict) {
    predicate IsFailure() { Stop? }
    function PropagateFailure(): Stage requires Stop? { this }
    function Extract(): Proc requires Go? { p }
  }

  function Slow(cause: Cause, p: Proc): Stage { Stop(SlowPath(cause, p.path)) }

  function ParsePath(path: Path): (s: Stage)
    requires path.Decoded()
    ensures s.Go? ==> s.p.Valid()
  {
    if path.currHf >= |path.hops| || path.currInf >= |path.infos| then Stop(Dropped)
    else Go(Proc(path, path.hops[path.currHf], path.infos[path.currInf], false, false))
  }

  /** None is the error for a peering path with the wrong segment layout. */
  function DeterminePeer(path: Path, info: InfoField): Option<bool> {
    if !info.peer then Some(false)
    else if path.len0 == 0 || path.len1 == 0 || path.len2 != 0 then None
    else Some(path.currHf == path.len0 - 1 || path.currHf == path.len0)
  }

  function SetPeer(p: Proc): Stage {
    match DeterminePeer(p.path, p.info)
    case None => Stop(Dropped)
    case Some(b) => Go(p.(peering := b))
  }

  /** A hop field lives (expTime + 1) * 337.5 seconds from the segment timestamp. */
  predicate Expired(c: Ctx, p: Proc) {
    2 * p.info.timestamp + 675 * (p.hop.expTime + 1) < c.env.now
  }

  function CheckExpiry(c: Ctx, p: Proc, cause: Cause): Stage {
    if Expired(c, p) then Slow(cause, p) else Go(p)
  }

  function CheckIngress(c: Ctx, p: Proc): Stage {
    var i := if p.info.consDir then p.hop.consIngress else p.hop.consEgress;
    if c.ingress != 0 && c.ingress != i then Slow(IngressInvalid, p) else Go(p)
  }

  function CheckLength(c: Ctx, p: Proc): Stage {
    if c.env.pktLenOk then Go(p) else Slow(BadPacketSize, p)
  }

  function CheckTransitSource(c: Ctx, p: Proc): Stage
    requires p.Valid()
  {
    if p.path.IsFirstHop() || c.ingress != 0 then Go(p)
    else if p.Ingress() in c.d.internalNextHops && c.d.internalNextHops[p.Ingress()].ip == c.env.srcAddr.ip then Go(p)
    else Stop(Dropped)
  }

  function CheckSrcDst(c: Ctx, p: Proc): Stage {
    var srcLocal, dstLocal := c.hdr.srcIA == c.d.localIA, c.hdr.dstIA == c.d.localIA;
    if c.ingress == 0 then
      if p.path.IsFirstHop() && !srcLocal then Slow(InvalidSrcIA, p)
      else if dstLocal then Slow(InvalidDstIA, p)
      else Go(p)
    else
      if srcLocal then Slow(InvalidSrcIA, p)
      else if p.path.IsLastHop() != dstLocal then Slow(InvalidDstIA, p)
      else Go(p)
  }

  /** Chain the MAC of the current hop into the SegID, in the processor and in the packet. */
  function ChainSegId(p: Proc): (q: Proc)
    requires p.Valid()
    ensures q.Valid()
  {
    var info := p.info.UpdateSegId(p.hop.mac);
    p.(info := info, path := p.path.SetInfo(info))
  }

  predicate UpdatesOnIngress(c: Ctx, p: Proc) {
    !p.info.consDir && c.ingress != 0 && !p.peering
  }

  function UpdateOnIngress(c: Ctx, p: Proc): (q: Proc)
    requires p.Valid()
    ensures q.Valid()
  {
    if UpdatesOnIngress(c, p) then ChainSegId(p) else p
  }

  function VerifyMac(c: Ctx, p: Proc, cause: Cause): Stage {
    if FullMac(c.d.mac, p.info, p.hop) == p.hop.mac then Go(p) else Slow(cause, p)
  }

  function HandleIngressAlert(c: Ctx, p: Proc): Stage
    requires p.Valid()
  {
    var alert := if p.info.consDir then p.hop.ingressAlert else p.hop.egressAlert;
    if c.ingress == 0 || !alert then Go(p)
    else
      var hop := if p.info.consDir then p.hop.(ingressAlert := false) else p.hop.(egressAlert := false);
      Stop(SlowPath(IngressAlert, p.path.SetHop(hop)))
  }

  /** The checks before the SegID is touched. */
  function Precheck(c: Ctx, path: Path): (s: Stage)
    requires path.Decoded()
    ensures s.Go? ==> s.p.Valid()
  {
    var p :- ParsePath(path);
    var p :- SetPeer(p);
    var p :- CheckExpiry(c, p, ExpiredHop);
    var p :- CheckIngress(c, p);
    var p :- CheckLength(c, p);
    var p :- CheckTransitSource(c, p);
    CheckSrcDst(c, p)
  }

  /** Slow-path requests raised before the ingress SegID update has run. */
  predicate Early(cause: Cause) {
    cause.ExpiredHop? || cause.IngressInvalid? || cause.BadPacketSize? || cause.InvalidSrcIA? || cause.InvalidDstIA?
  }

  /** Requests raised after it, while the packet is still at the hop it came in on. */
  predicate AtIngress(cause: Cause) {
    cause.IngressAlert? || cause.NoRoute? || cause.InvalidDst?
  }

  /** Requests raised after a possible segment switch. */
  predicate AtEgress(cause: Cause) {
    || cause.ExpiredAfterXover? || cause.UnknownEgress? || cause.InvalidPath?
    || cause.InvalidSegmentChange? || cause.EgressAlert? || cause.EgressDown?
  }

  /** The first checks leave the packet alone and load the current fields. */
  lemma PrecheckKeeps(c: Ctx, path: Path)
    requires path.Decoded()
    ensures match Precheck(c, path)
            case Go(p) =>
              && p.path == path && !p.xover
              && p.hop == path.hops[path.currHf] && p.info == path.infos[path.currInf]
              && DeterminePeer(path, p.info) == Some(p.peering)
            case Stop(v) => v == Dropped || (v.SlowPath? && Early(v.cause) && v.path == path)
  {
  }

  /** Everything up to the decision whether the packet is for this AS. */
  function IngressStage(c: Ctx, path: Path): (s: Stage)
    requires path.Decoded()
    ensures s.Go? ==> s.p.Valid()
  {
    var p :- Precheck(c, path);
    var p :- VerifyMac(c, UpdateOnIngress(c, p), MacFailed);
    HandleIngressAlert(c, p)
  }

  datatype FabridResult = FabridError | FabridSkip | FabridSlot(k: nat)

  /** The hop-by-hop options; slot numbers are computed in 8-bit arithmetic. */
  function ProcessHbhOptions(c: Ctx, p: Proc): FabridResult
    requires p.Valid()
  {
    if !c.env.fabrid then FabridSkip
    else
      var slot := if p.info.peer then p.path.currHf else (p.path.currHf - p.path.currInf) % 256;
      if c.ingress == 0 && slot != 0 then FabridSkip
      else
        var slots := p.path.NumHops() - p.path.NumInf() + 1 + if p.info.peer then 1 else 0;
        if slots % 256 > 62 || slot >= slots % 256 || !c.env.fabridOk then FabridError
        else FabridSlot(slot)
  }

  function SlotOf(r: FabridResult): Option<nat> {
    if r.FabridSlot? then Some(r.k) else None
  }

  function Inbound(c: Ctx, p: Proc): Verdict
    requires p.Valid()
  {
    match c.env.resolve
    case NoSvcBackend => SlowPath(NoRoute, p.path)
    case InvalidDstAddr => SlowPath(InvalidDst, p.path)
    case Resolved =>
      var r := ProcessHbhOptions(c, p);
      if r.FabridError? then Dropped else Delivered(p.path, SlotOf(r))
  }

  function DoXover(p: Proc): (s: Stage)
    requires p.Valid()
    ensures s.Go? ==> s.p.Valid() && s.p.xover
  {
    match p.path.IncPath()
    case None => Stop(Dropped)
    case Some(path) =>
      if path.currInf >= |path.infos| then Stop(Dropped)
      else Go(p.(path := path, hop := path.hops[path.currHf], info := path.infos[path.currInf], xover := true))
  }

  /** The segment switch, when this hop is one. */
  function XoverStage(c: Ctx, p: Proc): (s: Stage)
    requires p.Valid()
    ensures s.Go? ==> s.p.Valid()
  {
    if p.path.IsXover() && !p.peering then
      var q :- DoXover(p);
      var q :- CheckExpiry(c, q, ExpiredAfterXover);
      VerifyMac(c, q, MacFailedAfterXover)
    else Go(p)
  }

  /** Interface pairs a packet may use within one segment. */
  predicate ValidWithin(i: LinkType, e: LinkType) {
    || (i == Core && e == Core) || (i == Child && e == Parent) || (i == Parent && e == Child)
    || (i == Child && e == Peer) || (i == Peer && e == Child)
  }

  /** Interface pairs a packet may use when it switches segments. */
  predicate ValidSwitch(i: LinkType, e: LinkType) {
    (i == Core && e == Child) || (i == Child && e == Core) || (i == Child && e == Child)
  }

  function CheckEgress(c: Ctx, p: Proc): Stage {
    var e := p.Egress();
    if (e !in c.d.internalNextHops && e !in c.d.external) || (c.ingress == 0 && e !in c.d.external) then
      Slow(UnknownEgress, p)
    else if !p.xover then
      if c.ingress == 0 || ValidWithin(c.d.TypeOf(c.ingress), c.d.TypeOf(e)) then Go(p)
      else Slow(InvalidPath, p)
    else
      if ValidSwitch(c.d.TypeOf(c.ingress), c.d.TypeOf(e)) then Go(p)
      else Slow(InvalidSegmentChange, p)
  }

  function HandleEgressAlert(c: Ctx, p: Proc): Stage
    requires p.Valid()
  {
    var alert := if p.info.consDir then p.hop.egressAlert else p.hop.ingressAlert;
    if !alert || p.Egress() !in c.d.external then Go(p)
    else
      var hop := if p.info.consDir then p.hop.(egressAlert := false) else p.hop.(ingressAlert := false);
      Stop(SlowPath(EgressAlert, p.path.SetHop(hop)))
  }

  function CheckEgressUp(c: Ctx, p: Proc): Stage {
    if p.Egress() in c.env.down then Slow(EgressDown, p) else Go(p)
  }

  /** Update the SegID in construction direction and step to the next hop. */
  function ProcessEgress(p: Proc): Option<Path>
    requires p.Valid()
  {
    (if p.info.consDir && !p.peering then ChainSegId(p) else p).path.IncPath()
  }

  function Traffic(c: Ctx): TrafficType {
    if c.hdr.srcIA == c.d.localIA then Out else if c.ingress == 0 then OutTransit else BrTransit
  }

  function EgressChecks(c: Ctx, p: Proc): (s: Stage)
    requires p.Valid()
    ensures s.Go? ==> s.p == p
  {
    var p :- CheckEgress(c, p);
    var p :- HandleEgressAlert(c, p);
    CheckEgressUp(c, p)
  }

  /** The egress checks change nothing in the packet but an alert flag. */
  lemma EgressChecksStop(c: Ctx, q: Proc)
    requires q.Valid() && EgressChecks(c, q).Stop?
    ensures var v := EgressChecks(c, q).v;
            v.SlowPath? && AtEgress(v.cause) && (v.path == q.path || v.path == q.path.SetHop(ClearEgressAlert(q)))
  {
  }

  function ClearEgressAlert(q: Proc): (hop: HopField)
    ensures hop.Plain() == q.hop.Plain()
  {
    if q.info.consDir then q.hop.(egressAlert := false) else q.hop.(ingressAlert := false)
  }

  function Emit(c: Ctx, p: Proc): Verdict
    requires p.Valid()
  {
    var e := p.Egress();
    var r := ProcessHbhOptions(c, p);
    if e in c.d.external then
      if r.FabridError? then Dropped
      else match ProcessEgress(p)
        case None => Dropped
        case Some(path) => Forwarded(e, path, SlotOf(r), Traffic(c))
    else if e in c.d.internalNextHops then
      if r.FabridError? then Dropped else HandedOver(c.d.internalNextHops[e], p.path, SlotOf(r))
    else SlowPath(UnknownEgress, p.path)
  }

  function Outbound(c: Ctx, p: Proc): Verdict
    requires p.Valid()
  {
    match XoverStage(c, p)
    case Stop(v) => v
    case Go(q) =>
      match EgressChecks(c, q)
      case Stop(v) => v
      case Go(_) => Emit(c, q)
  }

  function Process(c: Ctx, path: Path): Verdict
    requires path.Decoded()
  {
    match IngressStage(c, path)
    case Stop(v) => v
    case Go(p) => if c.hdr.dstIA == c.d.localIA then Inbound(c, p) else Outbound(c, p)
  }

  /**
   The path of the SCMP message that answers a slow-path request: `path` is the one left
   in the buffer, `ingress` the interface the packet came in on.
   */
  function ReplyPath(d: DataPlane, ingress: IfId, path: Path): (r: Option<Path>)
    requires path.Decoded()
  {
    match path.Reverse()
    case None => None
    case Some(rev) =>
      if rev.currInf >= |rev.infos| then None
      else match DeterminePeer(rev, rev.infos[rev.currInf])
        case None => None
        case Some(peering) =>
          var back := if rev.IsXover() && !peering then rev.IncPath() else Some(rev);
          if back.None? then None
          else if ingress !in d.external then back
          else ReplyEgress(back.value, peering)
  }

  /** Prepare the reply for the next AS, as the egress router would. */
  function ReplyEgress(rev: Path, peering: bool): Option<Path> {
    if rev.currInf >= |rev.infos| || rev.currHf >= |rev.hops| then None
    else
      var info := rev.infos[rev.currInf];
      (if info.consDir && !peering
       then rev.SetInfo(info.UpdateSegId(rev.hops[rev.currHf].mac)) else rev).IncPath()
  }
}
