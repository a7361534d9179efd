/** The packet processor as the router runs it: one object whose fields change step by step. */
module PacketProcessor {
  import opened Basics
  import opened ScionPath
  import opened Router

  /** How a method that may stop with a verdict reads as a stage. */
  function AsStage(stop: Option<Verdict>, p: Proc): Stage {
    match stop
    case None => Go(p)
    case Some(v) => Stop(v)
  }

  class ScionPacketProcessor {
    const d: DataPlane
    const hdr: Header
    const env: Env
    const ingressId: IfId
    var path: Path
    var hopField: HopField
    var infoField: InfoField
    var peering: bool
    var effectiveXover: bool

    constructor (d: DataPlane, hdr: Header, env: Env, ingressId: IfId, path: Path)
      ensures C() == Ctx(d, hdr, env, ingressId) && this.path == path
      ensures !peering && !effectiveXover
    {
      this.d, this.hdr, this.env, this.ingressId := d, hdr, env, ingressId;
      this.path := path;
      hopField := HopField(0, 0, 0, Mac(Word16(0), 0), false, false);
      infoField := InfoField(false, false, Word16(0), 0);
      peering, effectiveXover := false, false;
    }

    ghost function C(): Ctx { Ctx(d, hdr, env, ingressId) }

    ghost function View(): Proc
      reads this
    {
      Proc(path, hopField, infoField, peering, effectiveXover)
    }

    method ParsePathFields() returns (stop: Option<Verdict>)
      requires path.Decoded() && !peering && !effectiveXover
      modifies this`hopField, this`infoField
      ensures AsStage(stop, View()) == ParsePath(path)
    {
      if path.currHf >= path.NumHops() { return Some(Dropped); }
      hopField := path.hops[path.currHf];
      if path.currInf >= path.NumInf() { return Some(Dropped); }
      infoField := path.infos[path.currInf];
      return None;
    }

    method DeterminePeering() returns (stop: Option<Verdict>)
      modifies this`peering
      ensures AsStage(stop, View()) == SetPeer(old(View()))
    {
      if !infoField.peer { peering := false; return None; }
      if path.len0 == 0 { return Some(Dropped); }
      if path.len1 == 0 { return Some(Dropped); }
      if path.len2 != 0 { return Some(Dropped); }
      peering := path.currHf == path.len0 - 1 || path.currHf == path.len0;
      return None;
    }

    method ValidateHopExpiry(cause: Cause) returns (stop: Option<Verdict>)
      ensures AsStage(stop, View()) == CheckExpiry(C(), View(), cause)
    {
      var expiration := 2 * infoField.timestamp + 675 * (hopField.expTime + 1);
      if expiration < env.now { return Some(SlowPath(cause, path)); }
      return None;
    }

    method ValidateIngressId() returns (stop: Option<Verdict>)
      ensures AsStage(stop, View()) == CheckIngress(C(), View())
    {
      var pktIngressId := hopField.consIngress;
      if !infoField.consDir { pktIngressId := hopField.consEgress; }
      if ingressId != 0 && ingressId != pktIngressId { return Some(SlowPath(IngressInvalid, path)); }
      return None;
    }

    method ValidatePktLen() returns (stop: Option<Verdict>)
      ensures AsStage(stop, View()) == CheckLength(C(), View())
    {
      if env.pktLenOk { return None; }
      return Some(SlowPath(BadPacketSize, path));
    }

    method IngressInterface() returns (i: IfId)
      requires View().Valid()
      ensures i == View().Ingress()
    {
      var info, hop := infoField, hopField;
      if !peering && path.IsFirstHopAfterXover() {
        info := path.infos[path.currInf - 1];
        hop := path.hops[path.currHf - 1];
      }
      if info.consDir { return hop.consIngress; }
      return hop.consEgress;
    }

    method EgressInterface() returns (e: IfId)
      ensures e == View().Egress()
    {
      if infoField.consDir { return hopField.consEgress; }
      return hopField.consIngress;
    }

    method ValidateTransitUnderlaySrc() returns (stop: Option<Verdict>)
      requires View().Valid()
      ensures AsStage(stop, View()) == CheckTransitSource(C(), View())
    {
      if path.IsFirstHop() || ingressId != 0 { return None; }
      var pktIngressId := IngressInterface();
      if pktIngressId !in d.internalNextHops || d.internalNextHops[pktIngressId].ip != env.srcAddr.ip {
        return Some(Dropped);
      }
      return None;
    }

    method ValidateSrcDstIA() returns (stop: Option<Verdict>)
      ensures AsStage(stop, View()) == CheckSrcDst(C(), View())
    {
      var srcIsLocal := hdr.srcIA == d.localIA;
      var dstIsLocal := hdr.dstIA == d.localIA;
      if ingressId == 0 {
        if path.IsFirstHop() && !srcIsLocal { return Some(SlowPath(InvalidSrcIA, path)); }
        if dstIsLocal { return Some(SlowPath(InvalidDstIA, path)); }
      } else {
        if srcIsLocal { return Some(SlowPath(InvalidSrcIA, path)); }
        if path.IsLastHop() != dstIsLocal { return Some(SlowPath(InvalidDstIA, path)); }
      }
      return None;
    }

    method UpdateNonConsDirIngressSegId()
      requires View().Valid()
      modifies this`path, this`infoField
      ensures View() == UpdateOnIngress(C(), old(View()))
    {
      if !infoField.consDir && ingressId != 0 && !peering {
        infoField := infoField.UpdateSegId(hopField.mac);
        path := path.SetInfo(infoField);
      }
    }

    method VerifyCurrentMac(cause: Cause) returns (stop: Option<Verdict>)
      ensures AsStage(stop, View()) == VerifyMac(C(), View(), cause)
    {
      var fullMac := FullMac(d.mac, infoField, hopField);
      if fullMac != hopField.mac { return Some(SlowPath(cause, path)); }
      return None;
    }

    method HandleIngressRouterAlert() returns (stop: Option<Verdict>)
      requires View().Valid()
      modifies this`path, this`hopField
      ensures stop.None? ==> View() == old(View())
      ensures AsStage(stop, View()) == HandleIngressAlert(C(), old(View()))
    {
      if ingressId == 0 { return None; }
      if infoField.consDir {
        if !hopField.ingressAlert { return None; }
        hopField := hopField.(ingressAlert := false);
      } else {
        if !hopField.egressAlert { return None; }
        hopField := hopField.(egressAlert := false);
      }
      path := path.SetHop(hopField);
      return Some(SlowPath(IngressAlert, path));
    }

    method DoXoverStep() returns (stop: Option<Verdict>)
      requires View().Valid()
      modifies this
      ensures AsStage(stop, View()) == DoXover(old(View()))
    {
      effectiveXover := true;
      var next := path.IncPath();
      if next.None? { return Some(Dropped); }
      path := next.value;
      hopField := path.hops[path.currHf];
      if path.currInf >= path.NumInf() { return Some(Dropped); }
      infoField := path.infos[path.currInf];
      return None;
    }

    method ValidateEgressId() returns (stop: Option<Verdict>)
      ensures AsStage(stop, View()) == CheckEgress(C(), View())
    {
      var e := EgressInterface();
      var ih, eh := e in d.internalNextHops, e in d.external;
      if (!ih && !eh) || (ingressId == 0 && !eh) { return Some(SlowPath(UnknownEgress, path)); }
      var ingress, egress := d.TypeOf(ingressId), d.TypeOf(e);
      if !effectiveXover {
        if ingressId == 0 || ValidWithin(ingress, egress) { return None; }
        return Some(SlowPath(InvalidPath, path));
      }
      if ValidSwitch(ingress, egress) { return None; }
      return Some(SlowPath(InvalidSegmentChange, path));
    }

    method HandleEgressRouterAlert() returns (stop: Option<Verdict>)
      requires View().Valid()
      modifies this`path, this`hopField
      ensures stop.None? ==> View() == old(View())
      ensures AsStage(stop, View()) == HandleEgressAlert(C(), old(View()))
    {
      var alert := if infoField.consDir then hopField.egressAlert else hopField.ingressAlert;
      if !alert { return None; }
      var e := EgressInterface();
      if e !in d.external { return None; }
      if infoField.consDir {
        hopField := hopField.(egressAlert := false);
      } else {
        hopField := hopField.(ingressAlert := false);
      }
      path := path.SetHop(hopField);
      return Some(SlowPath(EgressAlert, path));
    }

    method ValidateEgressUp() returns (stop: Option<Verdict>)
      ensures AsStage(stop, View()) == CheckEgressUp(C(), View())
    {
      var e := EgressInterface();
      if e in env.down { return Some(SlowPath(EgressDown, path)); }
      return None;
    }

    method ProcessEgressStep() returns (ok: bool)
      requires View().Valid()
      modifies this`path, this`infoField
      ensures ok == ProcessEgress(old(View())).Some?
      ensures ok ==> path == ProcessEgress(old(View())).value
    {
      if infoField.consDir && !peering {
        infoField := infoField.UpdateSegId(hopField.mac);
        path := path.SetInfo(infoField);
      }
      var next := path.IncPath();
      if next.None? { return false; }
      path := next.value;
      return true;
    }

    /** Everything up to the decision whether the packet is for this AS. */
    method ProcessIngress() returns (stop: Option<Verdict>)
      requires path.Decoded() && !peering && !effectiveXover
      modifies this
      ensures AsStage(stop, View()) == IngressStage(C(), old(path))
    {
      stop := ParsePathFields();
      if stop.Some? { return; }
      stop := DeterminePeering();
      if stop.Some? { return; }
      stop := ValidateHopExpiry(ExpiredHop);
      if stop.Some? { return; }
      stop := ValidateIngressId();
      if stop.Some? { return; }
      stop := ValidatePktLen();
      if stop.Some? { return; }
      stop := ValidateTransitUnderlaySrc();
      if stop.Some? { return; }
      stop := ValidateSrcDstIA();
      if stop.Some? { return; }
      UpdateNonConsDirIngressSegId();
      stop := VerifyCurrentMac(MacFailed);
      if stop.Some? { return; }
      stop := HandleIngressRouterAlert();
    }

    method ProcessXover() returns (stop: Option<Verdict>)
      requires View().Valid()
      modifies this
      ensures AsStage(stop, View()) == XoverStage(C(), old(View()))
    {
      if path.IsXover() && !peering {
        stop := DoXoverStep();
        if stop.Some? { return; }
        stop := ValidateHopExpiry(ExpiredAfterXover);
        if stop.Some? { return; }
        stop := VerifyCurrentMac(MacFailedAfterXover);
        return;
      }
      stop := None;
    }

    /** The whole of packet processing: the verdict is the one of the functional model. */
    method ProcessPacket() returns (v: Verdict)
      requires path.Decoded() && !peering && !effectiveXover
      modifies this
      ensures v == Process(C(), old(path))
    {
      var stop := ProcessIngress();
      if stop.Some? { return stop.value; }
      if hdr.dstIA == d.localIA {
        if env.resolve.NoSvcBackend? { return SlowPath(NoRoute, path); }
        if env.resolve.InvalidDstAddr? { return SlowPath(InvalidDst, path); }
        var fabrid := ProcessHbhOptions(
          Ctx(d, hdr, env, ingressId), Proc(path, hopField, infoField, peering, effectiveXover));
        if fabrid.FabridError? { return Dropped; }
        return Delivered(path, SlotOf(fabrid));
      }
      stop := ProcessXover();
      if stop.Some? { return stop.value; }
      stop := ValidateEgressId();
      if stop.Some? { return stop.value; }
      stop := HandleEgressRouterAlert();
      if stop.Some? { return stop.value; }
      stop := ValidateEgressUp();
      if stop.Some? { return stop.value; }
      var e := EgressInterface();
      var fabrid := ProcessHbhOptions(
        Ctx(d, hdr, env, ingressId), Proc(path, hopField, infoField, peering, effectiveXover));
      if e in d.external {
        if fabrid.FabridError? { return Dropped; }
        var ok := ProcessEgressStep();
        if !ok { return Dropped; }
        return Forwarded(e, path, SlotOf(fabrid), Traffic(Ctx(d, hdr, env, ingressId)));
      }
      if e in d.internalNextHops {
        if fabrid.FabridError? { return Dropped; }
        return HandedOver(d.internalNextHops[e], path, SlotOf(fabrid));
      }
      return SlowPath(UnknownEgress, path);
    }
  }
}
