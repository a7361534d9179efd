/** A network of border routers, and the runs of one packet through it. */
module Network {
  import opened Basics
  import opened ScionPath
  import opened Router

  /**
   `routers` maps internal addresses to routers; `owner` tells which router of an AS has
   an interface, and `remote` the interface at the other end of a link.
   */
  datatype Network = Network(
    routers: map<Addr, DataPlane>, owner: map<(IA, IfId), Addr>, remote: map<(IA, IfId), (IA, IfId)>)

  /** The routers of an AS know which of them owns each interface. */
  ghost predicate Owned(net: Network) {
    && (forall k :: k in net.owner ==>
          net.owner[k] in net.routers && net.routers[net.owner[k]].localIA == k.0 && k.1 != 0)
    && (forall r, i :: r in net.routers && i in net.routers[r].external ==>
          (net.routers[r].localIA, i) in net.owner && net.owner[(net.routers[r].localIA, i)] == r)
    && (forall r, i :: r in net.routers && i in net.routers[r].internalNextHops ==>
          && (net.routers[r].localIA, i) in net.owner
          && net.owner[(net.routers[r].localIA, i)] == net.routers[r].internalNextHops[i])
  }

  /** Interfaces have types, and routers of one AS agree on them. */
  ghost predicate Typed(net: Network) {
    && (forall r, s :: r in net.routers && s in net.routers && net.routers[r].localIA == net.routers[s].localIA ==>
          net.routers[r].linkTypes == net.routers[s].linkTypes)
    && (forall r :: r in net.routers ==> 0 !in net.routers[r].linkTypes)
    && (forall r, i :: r in net.routers && i in net.routers[r].external ==> net.routers[r].TypeOf(i) != Unset)
  }

  /** The two ends of a link have opposite types. */
  ghost predicate Matched(net: Network)
    requires Owned(net)
  {
    && (forall k :: k in net.remote ==> k in net.owner && net.remote[k] in net.owner)
    && (forall k :: k in net.remote ==>
          net.routers[net.owner[net.remote[k]]].TypeOf(net.remote[k].1) ==
          Opposite(net.routers[net.owner[k]].TypeOf(k.1)))
  }

  ghost predicate Consistent(net: Network) { Owned(net) && Typed(net) && Matched(net) }

  /**
   A packet on its way: the router it is at and the interface it came in on, the types the
   links crossed so far have at their sending end, and the FABRID slots handled so far.
   */
  datatype Transit = Transit(router: Addr, ingress: IfId, path: Path, crossed: seq<LinkType>, slots: seq<nat>)

  function Slots(slots: seq<nat>, slot: Option<nat>): seq<nat> {
    if slot.Some? then slots + [slot.value] else slots
  }

  ghost predicate Present(net: Network, st: Transit) {
    st.router in net.routers && st.path.Decoded()
  }

  ghost function VerdictAt(net: Network, hdr: Header, env: Env, st: Transit): Verdict
    requires Present(net, st)
  {
    Process(Ctx(net.routers[st.router], hdr, env, st.ingress), st.path)
  }

  /** One router processes the packet and passes it on; None when the packet ends here. */
  ghost function Step(net: Network, hdr: Header, env: Env, st: Transit): Option<Transit> {
    if !Present(net, st) then None
    else
      var d := net.routers[st.router];
      match VerdictAt(net, hdr, env, st)
      case Forwarded(e, path, slot, _) =>
        var k := (d.localIA, e);
        if k in net.remote && net.remote[k] in net.owner then
          Some(Transit(net.owner[net.remote[k]], net.remote[k].1, path,
                       st.crossed + [d.TypeOf(e)], Slots(st.slots, slot)))
        else None
      case HandedOver(next, path, slot) => Some(Transit(next, 0, path, st.crossed, Slots(st.slots, slot)))
      case _ => None
  }

  /** A run: every state follows from the one before under some environment. */
  ghost predicate IsRun(net: Network, hdr: Header, envs: seq<Env>, states: seq<Transit>) {
    && |states| == |envs| + 1
    && forall i :: 0 <= i < |envs| ==> Step(net, hdr, envs[i], states[i]) == Some(states[i + 1])
  }

  /** A packet as the source host hands it to a router of its AS. */
  ghost predicate Injected(net: Network, st: Transit) {
    Present(net, st) && st.ingress == 0 && st.crossed == [] && st.slots == []
  }

  lemma RemoteEnd(net: Network, r: Addr, e: IfId)
    requires Consistent(net) && r in net.routers && e in net.routers[r].external
    requires (net.routers[r].localIA, e) in net.remote
    ensures var k := net.remote[(net.routers[r].localIA, e)];
            && k in net.owner && net.owner[k] in net.routers && net.routers[net.owner[k]].localIA == k.0 && k.1 != 0
            && net.routers[net.owner[k]].TypeOf(k.1) == Opposite(net.routers[r].TypeOf(e))
  {
  }

  lemma SiblingOf(net: Network, r: Addr, e: IfId)
    requires Consistent(net) && r in net.routers && e in net.routers[r].internalNextHops
    ensures var s := net.routers[r].internalNextHops[e];
            && s in net.routers && net.routers[s].localIA == net.routers[r].localIA
            && net.routers[s].linkTypes == net.routers[r].linkTypes
  {
    var k := (net.routers[r].localIA, e);
    assert k in net.owner && net.owner[k] == net.routers[r].internalNextHops[e];
  }

  lemma ExternalTyped(net: Network, r: Addr, i: IfId)
    requires Consistent(net) && r in net.routers && i in net.routers[r].external
    ensures net.routers[r].TypeOf(i) != Unset
  {
  }

  lemma NoTypeForZero(net: Network, r: Addr)
    requires Consistent(net) && r in net.routers
    ensures 0 !in net.routers[r].linkTypes
  {
  }

  // ----- Every packet moves forward on a path of fixed size --------------------------

  predicate Advances(a: Path, b: Path) {
    && b.Decoded() && b.currHf >= a.currHf
    && b.len0 == a.len0 && b.len1 == a.len1 && b.len2 == a.len2
  }

  /** Forwarding moves the packet to a later hop; no verdict moves it back. */
  predicate VerdictAdvances(v: Verdict, path: Path) {
    match v
    case Forwarded(_, q, _, _) => Advances(path, q) && path.currHf < q.currHf < q.NumHops()
    case HandedOver(_, q, _) => Advances(path, q)
    case Delivered(q, _) => Advances(path, q)
    case SlowPath(_, q) => Advances(path, q)
    case Dropped => true
  }

  lemma IngressKeeps(c: Ctx, path: Path)
    requires path.Decoded()
    ensures match IngressStage(c, path)
            case Go(p) => Advances(path, p.path) && p.path.currHf == path.currHf && !p.xover
            case Stop(v) => VerdictAdvances(v, path) && (v == Dropped || v.SlowPath?)
  {
    hide Precheck;
    PrecheckKeeps(c, path);
  }

  lemma XoverKeeps(c: Ctx, p: Proc)
    requires p.Valid()
    ensures match XoverStage(c, p)
            case Go(q) => Advances(p.path, q.path)
            case Stop(v) => VerdictAdvances(v, p.path) && (v == Dropped || v.SlowPath?)
  {
  }

  lemma EgressKeeps(c: Ctx, q: Proc)
    requires q.Valid()
    ensures EgressChecks(c, q).Stop? ==>
              EgressChecks(c, q).v.SlowPath? && VerdictAdvances(EgressChecks(c, q).v, q.path)
  {
    hide EgressChecks;
    if EgressChecks(c, q).Stop? { EgressChecksStop(c, q); }
  }

  lemma EmitKeeps(c: Ctx, q: Proc)
    requires q.Valid()
    ensures VerdictAdvances(Emit(c, q), q.path)
  {
    hide ProcessHbhOptions;
  }

  /** The path a verdict leaves in the buffer has the same layout; a forwarded one has moved on. */
  lemma ProcessKeeps(c: Ctx, path: Path)
    requires path.Decoded()
    ensures VerdictAdvances(Process(c, path), path)
  {
    hide IngressStage, XoverStage, EgressChecks, Emit;
    IngressKeeps(c, path);
    match IngressStage(c, path)
    case Stop(_) =>
    case Go(p) =>
      if c.hdr.dstIA != c.d.localIA {
        XoverKeeps(c, p);
        match XoverStage(c, p)
        case Stop(_) =>
        case Go(q) =>
          EgressKeeps(c, q);
          EmitKeeps(c, q);
      }
  }

  // ----- Where a packet may go -------------------------------------------------------

  /** The egress interface written in the current hop of a path. */
  function CurrentEgress(path: Path): IfId
    requires path.currHf < |path.hops| && path.currInf < |path.infos|
  {
    var hop := path.hops[path.currHf];
    if path.infos[path.currInf].consDir then hop.consEgress else hop.consIngress
  }

  /** The processor's copies of the current fields are those in the packet. */
  predicate Coherent(p: Proc) {
    && p.Valid() && p.hop == p.path.hops[p.path.currHf] && p.info == p.path.infos[p.path.currInf]
  }

  /** The interface pairs a router lets through. */
  predicate Allowed(i: LinkType, e: LinkType) { ValidWithin(i, e) || ValidSwitch(i, e) }

  lemma IngressCoherent(c: Ctx, path: Path)
    requires path.Decoded() && IngressStage(c, path).Go?
    ensures Coherent(IngressStage(c, path).p)
    ensures path.currHf < |path.hops| && path.currInf < |path.infos|
    ensures IngressStage(c, path).p.Egress() == CurrentEgress(path)
  {
    hide Precheck;
    PrecheckKeeps(c, path);
  }

  lemma XoverCoherent(c: Ctx, p: Proc)
    requires Coherent(p) && !p.xover && XoverStage(c, p).Go?
    ensures Coherent(XoverStage(c, p).p)
    ensures !XoverStage(c, p).p.xover ==> XoverStage(c, p).p == p
  {
  }

  lemma EgressAllowed(c: Ctx, q: Proc)
    requires q.Valid() && EgressChecks(c, q).Go?
    ensures q.Egress() in c.d.external || (q.Egress() in c.d.internalNextHops && c.ingress != 0)
    ensures (c.ingress == 0 && !q.xover) || Allowed(c.d.TypeOf(c.ingress), c.d.TypeOf(q.Egress()))
  {
  }

  /** Over which interface a packet leaves the router, and that the interface pair was checked. */
  predicate VerdictAllowed(v: Verdict, c: Ctx, path: Path) {
    match v
    case Forwarded(e, _, _, _) =>
      && e in c.d.external
      && if c.ingress == 0
         then path.currHf < |path.hops| && path.currInf < |path.infos| && e == CurrentEgress(path)
         else Allowed(c.d.TypeOf(c.ingress), c.d.TypeOf(e))
    case HandedOver(next, q, _) =>
      && c.ingress != 0 && q.currHf < |q.hops| && q.currInf < |q.infos|
      && CurrentEgress(q) in c.d.internalNextHops && next == c.d.internalNextHops[CurrentEgress(q)]
      && Allowed(c.d.TypeOf(c.ingress), c.d.TypeOf(CurrentEgress(q)))
    case _ => true
  }

  lemma ProcessAllowed(c: Ctx, path: Path)
    requires path.Decoded() && 0 !in c.d.linkTypes
    ensures VerdictAllowed(Process(c, path), c, path)
  {
    hide IngressStage, XoverStage, EgressChecks, ProcessEgress, ProcessHbhOptions;
    IngressKeeps(c, path);
    match IngressStage(c, path)
    case Stop(_) =>
    case Go(p) =>
      IngressCoherent(c, path);
      if c.hdr.dstIA != c.d.localIA {
        XoverKeeps(c, p);
        match XoverStage(c, p)
        case Stop(_) =>
        case Go(q) =>
          XoverCoherent(c, p);
          EgressKeeps(c, q);
          if EgressChecks(c, q).Go? { EgressAllowed(c, q); }
      }
  }
}
