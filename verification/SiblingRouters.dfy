/**
 An AS with two border routers on the way of a packet behaves like an AS with one: the
 hand-over between siblings leaves the same path in the packet.
 */
module SiblingRouters {
  import opened Basics
  import opened ScionPath
  import opened Router
  import opened Network
  import opened Combinator
  import opened PathAuthorization

  /**
   `one` has all interfaces of the AS; `first` and `second` share them, with internal
   addresses `a1` and `a2`.
   */
  ghost predicate Split(one: DataPlane, first: DataPlane, second: DataPlane, a1: Addr, a2: Addr) {
    && one.localIA == first.localIA == second.localIA
    && one.linkTypes == first.linkTypes == second.linkTypes
    && one.mac == first.mac == second.mac
    && first.external !! second.external && one.external == first.external + second.external
    && (forall e :: e in second.external ==> e in first.internalNextHops && first.internalNextHops[e] == a2)
    && (forall i :: i in first.external ==> i in second.internalNextHops && second.internalNextHops[i] == a1)
  }

  /**
   A packet entering an AS from outside: at a hop that is not the first of its segment,
   unless that is a peering hop.  Either all of its segments are peering segments or none is.
   */
  predicate Entering(path: Path) {
    && path.Decoded() && 0 < path.currHf < path.NumHops() && path.currInf == path.InfIndex(path.currHf)
    && path.currInf < path.NumInf()
    && (forall i :: 0 <= i < |path.infos| ==> path.infos[i].peer == path.infos[0].peer)
    && (path.InfIndex(path.currHf - 1) == path.currInf || DeterminePeer(path, path.infos[path.currInf]) == Some(true))
  }

  /** In this AS the packet switches to a middle segment of one hop, which is itself a switch. */
  predicate SwitchesTwice(path: Path) {
    |path.infos| == 3 && !path.infos[0].peer && path.currHf + 1 == path.len0 && path.len1 == 1
  }

  /** The processor state when the ingress router is about to pass the packet on. */
  ghost predicate Crossed(c: Ctx, path: Path, q: Proc) {
    && Entering(path) && IngressStage(c, path).Go? && c.hdr.dstIA != c.d.localIA
    && XoverStage(c, IngressStage(c, path).p) == Go(q)
  }

  /** The stages before the egress decision do not look at who owns which interface. */
  lemma SamePrecheck(c: Ctx, c1: Ctx, path: Path)
    requires path.Decoded() && c.ingress == c1.ingress != 0 && c.hdr == c1.hdr && c.env == c1.env
    requires c.d.localIA == c1.d.localIA
    ensures Precheck(c, path) == Precheck(c1, path)
  {
  }

  lemma SameIngress(c: Ctx, c1: Ctx, path: Path)
    requires path.Decoded() && c.ingress == c1.ingress != 0 && c.hdr == c1.hdr && c.env == c1.env
    requires c.d.localIA == c1.d.localIA && c.d.mac == c1.d.mac
    ensures IngressStage(c, path) == IngressStage(c1, path)
  {
    hide Precheck;
    SamePrecheck(c, c1, path);
  }

  lemma SameXover(c: Ctx, c1: Ctx, p: Proc)
    requires p.Valid() && c.env == c1.env && c.d.mac == c1.d.mac
    ensures XoverStage(c, p) == XoverStage(c1, p)
  {
  }

  /** Everything but SegIDs agrees, and the position. */
  predicate SamePlace(a: Path, b: Path) {
    && b.Decoded() && a.currHf == b.currHf && a.currInf == b.currInf
    && a.len0 == b.len0 && a.len1 == b.len1 && a.len2 == b.len2 && a.hops == b.hops
    && |a.infos| == |b.infos|
    && forall i :: 0 <= i < |a.infos| ==> b.infos[i] == a.infos[i].(segId := b.infos[i].segId)
  }

  /** The interface the current hop says the packet came in on. */
  function NamedIngress(p: Proc): IfId { if p.info.consDir then p.hop.consIngress else p.hop.consEgress }

  /** The hop held by the processor has been checked under `c`. */
  predicate Checked(c: Ctx, p: Proc) {
    Coherent(p) && !Expired(c, p) && FullMac(c.d.mac, p.info, p.hop) == p.hop.mac
  }

  lemma PrecheckFacts(c: Ctx, path: Path)
    requires path.Decoded() && Precheck(c, path).Go?
    ensures var p := Precheck(c, path).p;
            && !Expired(c, p) && (c.ingress != 0 ==> c.ingress == NamedIngress(p))
            && c.env.pktLenOk && (c.ingress != 0 ==> c.hdr.srcIA != c.d.localIA)
  {
  }

  lemma IngressFacts(c: Ctx, path: Path)
    requires path.Decoded() && IngressStage(c, path).Go? && c.ingress != 0
    ensures var p := IngressStage(c, path).p;
            && Checked(c, p) && SamePlace(path, p.path) && !p.xover
            && c.ingress == NamedIngress(p) && c.env.pktLenOk && c.hdr.srcIA != c.d.localIA
            && DeterminePeer(path, path.infos[path.currInf]) == Some(p.peering)
  {
    hide Precheck;
    PrecheckKeeps(c, path);
    PrecheckFacts(c, path);
  }

  /** What the second router will find. */
  ghost predicate ReadyForSecond(c: Ctx, q: Proc) {
    && Checked(c, q) && 0 < q.path.currHf
    && DeterminePeer(q.path, q.info) == Some(q.peering)
    && q.(xover := false).Ingress() == c.ingress
    && (q.info.peer || q.path.currHf > q.path.currInf)
  }

  lemma ReadyWithoutSwitch(c: Ctx, path: Path, p: Proc)
    requires Entering(path) && Checked(c, p) && SamePlace(path, p.path) && c.ingress == NamedIngress(p)
    requires DeterminePeer(path, path.infos[path.currInf]) == Some(p.peering)
    requires p.path.IsXover() ==> p.peering
    ensures ReadyForSecond(c, p) && !SwitchesTwice(path)
  {
  }

  lemma ReadyAfterSwitch(c: Ctx, path: Path, p: Proc, q: Proc)
    requires Entering(path) && Checked(c, p) && SamePlace(path, p.path) && c.ingress == NamedIngress(p)
    requires DeterminePeer(path, path.infos[path.currInf]) == Some(p.peering)
    requires p.path.IsXover() && !p.peering && DoXover(p) == Go(q) && Checked(c, q)
    ensures ReadyForSecond(c, q) && !q.peering && (q.path.IsXover() <==> SwitchesTwice(path))
  {
    assert !path.infos[0].peer;
    assert q.path.currHf == path.currHf + 1;
  }

  lemma CrossedIsReady(c: Ctx, path: Path, q: Proc)
    requires c.ingress != 0 && Crossed(c, path, q)
    ensures ReadyForSecond(c, q)
    ensures q.path.IsXover() && !q.peering <==> SwitchesTwice(path)
  {
    hide IngressStage, Entering, ReadyForSecond, SamePlace, NamedIngress, SwitchesTwice;
    EnteringDecoded(path);
    IngressFacts(c, path);
    var p := IngressStage(c, path).p;
    if p.path.IsXover() && !p.peering {
      ReadyAfterSwitch(c, path, p, q);
    } else {
      ReadyWithoutSwitch(c, path, p);
    }
  }

  lemma EnteringDecoded(path: Path)
    requires Entering(path)
    ensures path.Decoded()
  {
  }

  /** The alert flag that the router which owns the egress interface looks at. */
  predicate EgressAlerted(q: Proc) { if q.info.consDir then q.hop.egressAlert else q.hop.ingressAlert }

  /**
   The second router checks the same hop and sends the packet on from where it is, unless the
   hop raises an alert or is a switch.
   */
  lemma SecondRouter(c: Ctx, c2: Ctx, q: Proc)
    requires ReadyForSecond(c, q)
    requires c2.ingress == 0 && c2.hdr == c.hdr && c2.d.localIA == c.d.localIA && c2.d.mac == c.d.mac
    requires c.hdr.dstIA != c.d.localIA && c.hdr.srcIA != c.d.localIA
    requires c2.env.now == c.env.now && c2.env.pktLenOk && 0 !in c2.d.linkTypes
    requires c.ingress in c2.d.internalNextHops && c2.d.internalNextHops[c.ingress].ip == c2.env.srcAddr.ip
    requires q.Egress() in c2.d.external && q.Egress() !in c2.env.down
    ensures !EgressAlerted(q) && (q.path.IsXover() ==> q.peering) ==>
              Process(c2, q.path) ==
              match ProcessEgress(q)
              case None => Dropped
              case Some(next) => Forwarded(q.Egress(), next, None, OutTransit)
    ensures EgressAlerted(q) || (q.path.IsXover() && !q.peering) ==> !PassedOn(Process(c2, q.path))
  {
    hide Precheck;
    if q.path.IsXover() && !q.peering {
      SwitchFromInside(c2, q.path);
    } else {
      var p := q.(xover := false);
      SecondIngress(c, c2, q);
      hide IngressStage;
      assert XoverStage(c2, p) == Go(p);
      SecondEgress(c2, p);
      assert SlotOf(ProcessHbhOptions(c2, p)) == None && !ProcessHbhOptions(c2, p).FabridError?;
    }
  }

  lemma SecondEgress(c: Ctx, p: Proc)
    requires p.Valid() && !p.xover && c.ingress == 0 && p.Egress() in c.d.external && p.Egress() !in c.env.down
    ensures EgressChecks(c, p).Go? <==> !EgressAlerted(p)
    ensures EgressChecks(c, p).Stop? ==> EgressChecks(c, p).v.SlowPath?
  {
  }

  predicate PassedOn(v: Verdict) { v.Forwarded? || v.HandedOver? }

  /** No router passes on a packet that switches segments after it came in from inside the AS. */
  lemma SwitchFromInside(c: Ctx, path: Path)
    requires path.Decoded() && path.currHf < |path.hops| && path.currInf < |path.infos| && path.IsXover()
    requires DeterminePeer(path, path.infos[path.currInf]) != Some(true)
    requires c.ingress == 0 && 0 !in c.d.linkTypes
    ensures !PassedOn(Process(c, path))
  {
    hide Precheck, ProcessHbhOptions, ProcessEgress, DeterminePeer;
    PrecheckKeeps(c, path);
    match IngressStage(c, path)
    case Stop(_) =>
    case Go(p) =>
      hide IngressStage;
      SwitchedInside(c, p);
  }

  lemma SwitchedInside(c: Ctx, p: Proc)
    requires p.Valid() && p.path.IsXover() && !p.peering && c.ingress == 0 && 0 !in c.d.linkTypes
    ensures match XoverStage(c, p)
            case Stop(v) => !PassedOn(v)
            case Go(q) => EgressChecks(c, q).Stop? && !PassedOn(EgressChecks(c, q).v)
  {
  }

  lemma SecondPrecheck(c: Ctx, c2: Ctx, q: Proc)
    requires ReadyForSecond(c, q)
    requires c2.ingress == 0 && c2.hdr == c.hdr && c2.d.localIA == c.d.localIA
    requires c.hdr.dstIA != c.d.localIA && c2.env.now == c.env.now && c2.env.pktLenOk
    requires c.ingress in c2.d.internalNextHops && c2.d.internalNextHops[c.ingress].ip == c2.env.srcAddr.ip
    ensures Precheck(c2, q.path) == Go(q.(xover := false))
  {
  }

  lemma SecondIngress(c: Ctx, c2: Ctx, q: Proc)
    requires ReadyForSecond(c, q)
    requires c2.ingress == 0 && c2.hdr == c.hdr && c2.d.localIA == c.d.localIA && c2.d.mac == c.d.mac
    requires c.hdr.dstIA != c.d.localIA && c2.env.now == c.env.now && c2.env.pktLenOk
    requires c.ingress in c2.d.internalNextHops && c2.d.internalNextHops[c.ingress].ip == c2.env.srcAddr.ip
    ensures IngressStage(c2, q.path) == Go(q.(xover := false))
  {
    SecondPrecheck(c, c2, q);
    hide Precheck;
  }

  /** The first router's egress decision, for an interface it shares with its sibling. */
  lemma FirstEgress(c: Ctx, c1: Ctx, q: Proc)
    requires q.Valid() && c.ingress == c1.ingress != 0 && c.env == c1.env && c.hdr == c1.hdr
    requires c.d.linkTypes == c1.d.linkTypes
    requires var e := q.Egress();
             e in c.d.external && e !in c1.d.external && e in c1.d.internalNextHops && e !in c.env.down
    ensures EgressChecks(c, q).Go? <==> EgressChecks(c1, q).Go? && !EgressAlerted(q)
    ensures EgressChecks(c, q).Stop? ==> EgressChecks(c, q).v.SlowPath?
    ensures EgressChecks(c1, q).Stop? ==> EgressChecks(c1, q).v.SlowPath?
    ensures Emit(c1, q).HandedOver? <==> !ProcessHbhOptions(c, q).FabridError?
    ensures Emit(c1, q).HandedOver? ==>
              Emit(c1, q).path == q.path && Emit(c1, q).next == c1.d.internalNextHops[q.Egress()]
  {
  }

  /** The crossing, once both ways have come to the egress decision. */
  lemma CrossTogether(c: Ctx, c1: Ctx, c2: Ctx, path: Path, q: Proc, a1: Addr, a2: Addr, v: Verdict, w: Verdict,
                      z: Verdict)
    requires c.ingress == c1.ingress != 0 && c2.ingress == 0 && c.hdr == c1.hdr == c2.hdr && c.env == c1.env
    requires c2.env.now == c.env.now && c2.env.pktLenOk && c2.env.srcAddr.ip == a1.ip && Split(c.d, c1.d, c2.d, a1, a2)
    requires c.ingress in c1.d.external && q.Egress() in c2.d.external
    requires q.Egress() !in c.env.down && q.Egress() !in c2.env.down
    requires Crossed(c, path, q) && path.Decoded() && q.path.Decoded()
    requires v == Process(c, path) && w == Process(c1, path) && z == Process(c2, q.path)
    requires 0 !in c2.d.linkTypes
    ensures v.Forwarded? ==> w.HandedOver? && w.next == a2 && w.path == q.path
    ensures v.Forwarded? ==> if SwitchesTwice(path) then !PassedOn(z) else SameExit(v, z)
    ensures w.HandedOver? && z.Forwarded? ==> SameExit(v, z)
  {
    hide IngressStage, XoverStage, EgressChecks, ProcessEgress, ProcessHbhOptions, Entering, SwitchesTwice;
    EnteringDecoded(path);
    IngressFacts(c, path);
    SameIngress(c, c1, path);
    SameXover(c, c1, IngressStage(c, path).p);
    CrossedIsReady(c, path, q);
    FirstEgress(c, c1, q);
    SecondRouter(c, c2, q);
  }

  /** Both send the packet out over the same interface, with the same path in it. */
  predicate SameExit(v: Verdict, w: Verdict) {
    v.Forwarded? && w.Forwarded? && v.egress == w.egress && v.path == w.path
  }

  /** A packet that is passed on was brought to the egress decision. */
  lemma ReachesEgress(c: Ctx, path: Path) returns (q: Proc)
    requires Entering(path) && (Process(c, path).Forwarded? || Process(c, path).HandedOver?)
    ensures Crossed(c, path, q) && q.Egress() !in c.env.down
    ensures match Process(c, path)
            case Forwarded(e, _, _, _) => e == q.Egress()
            case HandedOver(_, p, _) => p == q.path
            case _ => true
  {
    EnteringDecoded(path);
    hide ProcessEgress, ProcessHbhOptions, EgressChecks, IngressStage, XoverStage, Entering;
    IngressKeeps(c, path);
    var p := IngressStage(c, path).p;
    XoverKeeps(c, p);
    q := XoverStage(c, p).p;
    EgressKeeps(c, q);
  }

  /**
   Crossing an AS through two sibling routers refines crossing it through one: what they send
   out the single router sends out, over the same interface, with the same path in it.  What
   the single router sends out over an interface of the second, they send out if and only if
   the packet does not switch segments twice in the AS.
   */
  lemma TwoRoutersRefineOne(one: DataPlane, first: DataPlane, second: DataPlane, a1: Addr, a2: Addr,
                            hdr: Header, env: Env, env2: Env, ingress: IfId, path: Path)
    requires Split(one, first, second, a1, a2) && 0 !in one.linkTypes
    requires Entering(path) && ingress in first.external && ingress != 0
    requires env2.now == env.now && env2.pktLenOk && env2.srcAddr.ip == a1.ip
    requires forall e :: e in second.external && e in env2.down ==> e in env.down
    ensures path.Decoded()
    ensures var v := Process(Ctx(one, hdr, env, ingress), path);
            var w := Process(Ctx(first, hdr, env, ingress), path);
            v.Forwarded? && v.egress in second.external ==>
              && w.HandedOver? && w.next == a2 && w.path.Decoded()
              && var z := Process(Ctx(second, hdr, env2, 0), w.path);
              && (PassedOn(z) <==> !SwitchesTwice(path))
              && (!SwitchesTwice(path) ==> SameExit(v, z))
    ensures var v := Process(Ctx(one, hdr, env, ingress), path);
            var w := Process(Ctx(first, hdr, env, ingress), path);
            w.HandedOver? && w.path.Decoded() && Process(Ctx(second, hdr, env2, 0), w.path).Forwarded? ==>
              SameExit(v, Process(Ctx(second, hdr, env2, 0), w.path))
  {
    hide Process, Entering, SwitchesTwice;
    EnteringDecoded(path);
    var c, c1, c2 := Ctx(one, hdr, env, ingress), Ctx(first, hdr, env, ingress), Ctx(second, hdr, env2, 0);
    var v, w := Process(c, path), Process(c1, path);
    ProcessKeeps(c1, path);
    if v.Forwarded? && v.egress in second.external {
      var q := ReachesEgress(c, path);
      CrossedUnderOne(c, c, path, q);
      CrossTogether(c, c1, c2, path, q, a1, a2, v, w, Process(c2, q.path));
    }
    if w.HandedOver? && Process(c2, w.path).Forwarded? {
      var q := ReachesEgress(c1, path);
      ProcessAllowed(c2, w.path);
      CrossedUnderOne(c, c1, path, q);
      CrossTogether(c, c1, c2, path, q, a1, a2, v, w, Process(c2, q.path));
    }
  }

  lemma CrossedUnderOne(c: Ctx, c1: Ctx, path: Path, q: Proc)
    requires c.ingress == c1.ingress != 0 && c.hdr == c1.hdr && c.env == c1.env
    requires c.d.localIA == c1.d.localIA && c.d.mac == c1.d.mac && Crossed(c1, path, q)
    ensures Crossed(c, path, q) && Coherent(q) && CurrentEgress(q.path) == q.Egress()
  {
    hide IngressStage, XoverStage, Entering;
    EnteringDecoded(path);
    SameIngress(c, c1, path);
    var p := IngressStage(c1, path).p;
    SameXover(c, c1, p);
    IngressKeeps(c1, path);
    IngressCoherent(c1, path);
    XoverCoherent(c1, p);
  }

  /** Every packet that arrives on an authorized path enters the AS like this, and switches at most once. */
  lemma {:induction false} AuthorizedEnters(path: Path, legs: seq<Leg>, j: nat, t: nat)
    requires WellFormed(legs) && OnTrack(path, legs, j, t, true)
    ensures Entering(path) && !SwitchesTwice(path)
  {
    hide Offset, HopsMatch, SegIds, FitsHeader;
    LegsValid(legs);
    ShapeDecoded(path, legs, j, t);
    PositionInside(path, legs, j, t);
    PeerAt(path, legs, j, t);
    InfIndexAt(path, legs, j, t);
    if t > 0 { InfIndexAt(path, legs, j, t - 1); }
  }

  lemma {:induction false} PositionInside(path: Path, legs: seq<Leg>, j: nat, t: nat)
    requires WellFormed(legs) && Shape(path, legs) && Positioned(path, legs, j, t) && (t > 0 || j > 0)
    ensures 0 < path.currHf < path.NumHops() && path.NumInf() == |legs|
  {
    ShapeDecoded(path, legs, j, t);
    OffsetSteps(legs);
    OffsetMono(legs, j + 1, |legs|);
    if j > 0 { OffsetMono(legs, 1, j); }
    assert Offset(legs, 0) == 0;
  }

  // ----- A packet that the two routers do not pass on --------------------------------------

  function SameMac(input: MacInput): Mac { Mac(Word16(0), 0) }

  function SomeHop(ingress: IfId, egress: IfId): HopField {
    HopField(ingress, egress, 63, Mac(Word16(0), 0), false, false)
  }

  const INFO := InfoField(false, true, Word16(0), 0)

  /** At the last hop of a first segment, before a middle segment of one hop. */
  const TWICE := Path(0, 1, 2, 1, 2, [INFO, INFO, INFO],
                      [SomeHop(0, 9), SomeHop(1, 0), SomeHop(0, 2), SomeHop(0, 3), SomeHop(4, 0)])

  const TYPES: map<IfId, LinkType> := map[1 := Child, 2 := Core]
  const A1 := Addr(1, 0)
  const A2 := Addr(2, 0)
  const BOTH := DataPlane(IA(1, 1), {1, 2}, map[], TYPES, SameMac)
  const FIRST := DataPlane(IA(1, 1), {1}, map[2 := A2], TYPES, SameMac)
  const SECOND := DataPlane(IA(1, 1), {2}, map[1 := A1], TYPES, SameMac)
  const THROUGH := Header(IA(1, 2), IA(1, 3))
  const CALM := Env(0, true, A1, Resolved, {}, false, false)

  lemma TwiceSplit()
    ensures Split(BOTH, FIRST, SECOND, A1, A2) && Entering(TWICE) && SwitchesTwice(TWICE)
  {
    var first, second := FIRST, SECOND;
    assert first.external !! second.external;
    assert BOTH.external == first.external + second.external;
  }

  lemma TwiceForwarded()
    ensures TWICE.Decoded() && Process(Ctx(BOTH, THROUGH, CALM, 1), TWICE).Forwarded?
    ensures Process(Ctx(BOTH, THROUGH, CALM, 1), TWICE).egress == 2
  {
    var c := Ctx(BOTH, THROUGH, CALM, 1);
    var p := Proc(TWICE, TWICE.hops[1], INFO, false, false);
    assert Precheck(c, TWICE) == Go(p);
    assert IngressStage(c, TWICE) == Go(p);
    var q := Proc(TWICE.(currInf := 1, currHf := 2), TWICE.hops[2], INFO, false, true);
    assert XoverStage(c, p) == Go(q);
    assert EgressChecks(c, q) == Go(q);
  }

  /** One router sends the packet out; the first of two hands it over, and the second does not pass it on. */
  lemma TwoRoutersDiffer()
    ensures Split(BOTH, FIRST, SECOND, A1, A2) && Entering(TWICE) && TWICE.Decoded()
    ensures Process(Ctx(BOTH, THROUGH, CALM, 1), TWICE).Forwarded?
    ensures var w := Process(Ctx(FIRST, THROUGH, CALM, 1), TWICE);
      w.HandedOver? && w.path.Decoded() && !PassedOn(Process(Ctx(SECOND, THROUGH, CALM, 0), w.path))
  {
    hide Process, Entering, SwitchesTwice, Split;
    TwiceSplit();
    TwiceForwarded();
    TwoRoutersRefineOne(BOTH, FIRST, SECOND, A1, A2, THROUGH, CALM, CALM, 1, TWICE);
  }
}
