/**
 Replies reach the source: the answer to a slow-path request about a packet that came in over
 a link is delivered in the AS the packet was sent from.
 */
module ReplyDelivery {
  import opened Basics
  import opened ScionPath
  import opened Segments
  import opened Combinator
  import opened Router
  import opened PathAuthorization
  import opened Network
  import opened AuthorizedRuns
  import opened ScmpReplies
  import opened RouterProgress
  import opened Delivery
  import FabridSlots

  // ----- No alert appears on the way ---------------------------------------------------------

  ghost predicate VerdictQuiet(v: Verdict) {
    match v
    case Forwarded(_, q, _, _) => Quiet(q)
    case HandedOver(_, q, _) => Quiet(q)
    case Delivered(q, _) => Quiet(q)
    case SlowPath(_, q) => Quiet(q)
    case Dropped => true
  }

  lemma IngressQuiet(c: Ctx, path: Path)
    requires path.Decoded() && Quiet(path)
    ensures match IngressStage(c, path)
            case Go(p) => p.path.hops == path.hops && NoAlert(p.hop)
            case Stop(v) => VerdictQuiet(v)
  {
    PrecheckKeeps(c, path);
    hide Precheck;
  }

  lemma XoverQuiet(c: Ctx, p: Proc)
    requires p.Valid() && Quiet(p.path) && NoAlert(p.hop)
    ensures match XoverStage(c, p)
            case Go(q) => q.path.hops == p.path.hops && NoAlert(q.hop)
            case Stop(v) => VerdictQuiet(v)
  {
  }

  lemma EgressQuiet(c: Ctx, q: Proc)
    requires q.Valid() && Quiet(q.path) && NoAlert(q.hop)
    ensures EgressChecks(c, q).Stop? ==> VerdictQuiet(EgressChecks(c, q).v)
    ensures VerdictQuiet(Emit(c, q))
  {
    hide ProcessHbhOptions;
    if EgressChecks(c, q).Stop? { EgressChecksStop(c, q); }
  }

  /** A packet without alerts keeps none, whatever a router does with it. */
  lemma ProcessQuiet(c: Ctx, path: Path)
    requires path.Decoded() && Quiet(path)
    ensures VerdictQuiet(Process(c, path))
  {
    hide IngressStage, XoverStage, EgressChecks, Emit;
    IngressQuiet(c, path);
    match IngressStage(c, path)
    case Stop(_) =>
    case Go(p) =>
      if c.hdr.dstIA != c.d.localIA {
        XoverQuiet(c, p);
        match XoverStage(c, p)
        case Stop(_) =>
        case Go(q) => EgressQuiet(c, q);
      }
  }

  lemma {:induction false} RunQuiet(net: Network, hdr: Header, envs: seq<Env>, states: seq<Transit>, i: nat)
    requires IsRun(net, hdr, envs, states) && Quiet(states[0].path) && i < |states|
    ensures Quiet(states[i].path)
  {
    if i > 0 {
      RunQuiet(net, hdr, envs, states, i - 1);
      var st, env := states[i - 1], envs[i - 1];
      assert Step(net, hdr, env, st) == Some(states[i]);
      ProcessQuiet(Ctx(net.routers[st.router], hdr, env, st.ingress), st.path);
      hide Process, Quiet;
    }
  }

  lemma ReplyQuiet(d: DataPlane, ingress: IfId, path: Path)
    requires path.Decoded() && Quiet(path)
    ensures ReplyPath(d, ingress, path).Some? ==> Quiet(ReplyPath(d, ingress, path).value)
  {
    hide DeterminePeer;
  }

  // ----- The way back ------------------------------------------------------------------------

  /** Where a request about a packet from outside leaves the packet. */
  lemma {:induction false} RequestFrom(net: Network, keys: Keys, hdr: Header, env: Env, legs: seq<Leg>, st: Transit,
                                       j: nat, t: nat)
    returns (a: nat, z: nat)
    requires WellFormed(legs) && AllBuilt(keys, legs) && WellFormed(Back(legs)) && Keyed(net, keys)
    requires ValidPos(legs, j, t) && TransitAt(net, legs, st, j, t) && Quiet(st.path) && st.ingress != 0
    requires VerdictAt(net, hdr, env, st).SlowPath? && !Early(VerdictAt(net, hdr, env, st).cause)
    ensures var q := VerdictAt(net, hdr, env, st).path;
      && q.Decoded() && Quiet(q) && ValidPos(legs, a, z) && OnTrack(q, legs, a, z, false)
    ensures (a, z) == (j, t) || (a, z) == SwitchLeg(legs, j, t)
    ensures t > 0 || (j > 0 && legs[j].IsPeerHop(t))
    ensures st.ingress == BackEgress(legs[j], t)
  {
    hide WellFormed, AllBuilt, OnTrack, Process, Quiet, EgressOf;
    LegsValid(legs);
    var c := Ctx(net.routers[st.router], hdr, env, st.ingress);
    var q := Process(c, st.path).path;
    ProcessOnTrack(keys, c, st.path, legs, j, t);
    ProcessKeeps(c, st.path);
    ProcessQuiet(c, st.path);
    RequestPos(legs, q, j, t);
    a, z :| ValidPos(legs, a, z) && OnTrack(q, legs, a, z, false)
      && ((a, z) == (j, t) || (a, z) == SwitchLeg(legs, j, t)) && legs[a].Local(z) == legs[j].Local(t);
    ArrivesLater(st.path, legs, j, t);
    IngressOnBack(c, st.path, legs, j, t);
  }

  /** The packet has just come over the link of hop (b, u). */
  ghost predicate CameOver(net: Network, legs: seq<Leg>, st: Transit, b: nat, u: nat)
    requires WellFormed(legs)
  {
    && ValidPos(legs, b, u) && NextPos(legs, b, u).0 < |legs| && Joins(net, legs, b, u) && Quiet(st.path)
    && var (m, w) := NextPos(legs, b, u);
    && ValidPos(legs, m, w) && TransitAt(net, legs, st, m, w)
    && var x := (legs[b].Local(u), EgressOf(legs[b], u));
    && x in net.remote && net.remote[x] in net.owner
    && st.router == net.owner[net.remote[x]] && st.ingress == net.remote[x].1 != 0
  }

  /** The reply to a request about a packet from outside arrives in the AS before. */
  lemma {:induction false} ReplyArrives(net: Network, keys: Keys, hdr: Header, env: Env, legs: seq<Leg>, st: Transit,
                                        j: nat, t: nat)
    returns (first: Transit)
    requires WellFormed(legs) && AllBuilt(keys, legs) && WellFormed(Back(legs)) && Consistent(net) && Keyed(net, keys)
    requires Connected(net, Back(legs))
    requires ValidPos(legs, j, t) && TransitAt(net, legs, st, j, t) && Quiet(st.path)
    requires st.ingress != 0 && st.ingress in net.routers[st.router].external
    requires VerdictAt(net, hdr, env, st).SlowPath? && !Early(VerdictAt(net, hdr, env, st).cause)
    ensures var path := VerdictAt(net, hdr, env, st).path; path.Decoded() && Replied(net, st, path, first)
    ensures CameOver(net, Back(legs), first, BackPos(legs, j, t).0, BackPos(legs, j, t).1)
  {
    hide WellFormed, AllBuilt, OnTrack, VerdictAt, Linked, Consistent, Keyed, Connected, ReplyPath, Quiet, EgressOf,
      BackEgress, Joins, Early, Replied, ReplyOutside;
    var r := Back(legs);
    LegsValid(legs);
    LegsValid(r);
    ConnectedLinked(net, r);
    var q := VerdictAt(net, hdr, env, st).path;
    var a, z := RequestFrom(net, keys, hdr, env, legs, st, j, t);
    OutsideReplyAt(net, legs, st, q, j, t, a, z);
    ReplyQuiet(net.routers[st.router], st.ingress, q);
    var (b, u) := BackPos(legs, j, t);
    LinkBack(net, r, b, u);
    first := ReplyStarts(net, r, st, q, b, u);
  }

  /** It is ready there. */
  lemma {:induction false} ReplyReady(net: Network, keys: Keys, hdr: Header, env: Env, legs: seq<Leg>, st: Transit,
                                      j: nat, t: nat, back: Header, start: nat)
    returns (first: Transit, m: nat, w: nat)
    requires WellFormed(legs) && AllBuilt(keys, legs) && Routable(net, keys, back, Back(legs), start)
    requires ValidPos(legs, j, t) && TransitAt(net, legs, st, j, t) && Quiet(st.path)
    requires st.ingress != 0 && st.ingress in net.routers[st.router].external
    requires VerdictAt(net, hdr, env, st).SlowPath? && !Early(VerdictAt(net, hdr, env, st).cause)
    requires start + 1 == Offset(Back(legs), |legs| - 1 - j) + legs[j].Len() - t
    ensures var path := VerdictAt(net, hdr, env, st).path; path.Decoded() && Replied(net, st, path, first)
    ensures Ready(net, Back(legs), start, first, st.router, m, w)
  {
    hide WellFormed, AllBuilt, TransitAt, VerdictAt, Consistent, Keyed, Complete, Connected, Permitted, Addressed,
      Quiet, EgressOf, Joins, Early, UnderWay, Replied, Ready, Offset;
    LegsValid(legs);
    LegsValid(Back(legs));
    first := ReplyArrives(net, keys, hdr, env, legs, st, j, t);
    var (b, u) := BackPos(legs, j, t);
    var pos := NextPos(Back(legs), b, u);
    m, w := pos.0, pos.1;
    ArrivedPast(net, Back(legs), first, start, b, u);
    SentOn(net, Back(legs), start, first, st.router, b, u);
  }

  /** The reply as the router at the other end of the link gets it. */
  lemma ReplyStarts(net: Network, legs: seq<Leg>, st: Transit, path: Path, b: nat, u: nat) returns (first: Transit)
    requires AllValid(legs) && ValidPos(legs, b, u) && st.router in net.routers && path.Decoded()
    requires st.ingress in net.routers[st.router].external && net.routers[st.router].localIA == legs[b].Local(u)
    requires st.ingress == EgressOf(legs[b], u)
    requires ReplyPath(net.routers[st.router], st.ingress, path).Some?
    requires var x := (legs[b].Local(u), EgressOf(legs[b], u));
      x in net.remote && net.remote[x] in net.owner && net.remote[x].1 != 0
    ensures Replied(net, st, path, first)
    ensures var reply := ReplyPath(net.routers[st.router], st.ingress, path).value;
      ReplyOutside(net, st, reply) == Some(first) && first.path == reply
    ensures var x := (legs[b].Local(u), EgressOf(legs[b], u));
      first.router == net.owner[net.remote[x]] && first.ingress == net.remote[x].1 != 0
  {
    hide ReplyPath, EgressOf;
    first := ReplyOutside(net, st, ReplyPath(net.routers[st.router], st.ingress, path).value).value;
  }

  lemma LinkBack(net: Network, legs: seq<Leg>, b: nat, u: nat)
    requires WellFormed(legs) && Consistent(net) && Connected(net, legs) && ValidPos(legs, b, u)
    requires SwitchLeg(legs, b, u) == (b, u) && NextPos(legs, b, u).0 < |legs|
    ensures Joins(net, legs, b, u)
    ensures var x := (legs[b].Local(u), EgressOf(legs[b], u));
      x in net.remote && net.remote[x] in net.owner && net.remote[x].1 != 0
  {
    hide WellFormed;
    LegsValid(legs);
    assert Joins(net, legs, b, u);
  }

  lemma ArrivedPast(net: Network, legs: seq<Leg>, first: Transit, start: nat, b: nat, u: nat)
    requires WellFormed(legs) && ValidPos(legs, b, u) && NextPos(legs, b, u).0 < |legs|
    requires var (m, w) := NextPos(legs, b, u); ValidPos(legs, m, w) && TransitAt(net, legs, first, m, w)
    requires start == Offset(legs, b) + u
    ensures UnderWay(first.path, first.ingress, start)
  {
    var (m, w) := NextPos(legs, b, u);
    TrackPos(first.path, legs, m, w, first.ingress != 0);
    OffsetSteps(legs);
    hide WellFormed, OnTrack, Shape;
  }

  /** A delivered packet is in the AS it is addressed to, the last one of the path. */
  lemma DeliveredThere(net: Network, keys: Keys, hdr: Header, env: Env, legs: seq<Leg>, start: nat, st: Transit)
    requires Routable(net, keys, hdr, legs, start) && Present(net, st) && VerdictAt(net, hdr, env, st).Delivered?
    ensures ValidPos(legs, |legs| - 1, legs[|legs| - 1].Len() - 1)
    ensures net.routers[st.router].localIA == legs[|legs| - 1].Local(legs[|legs| - 1].Len() - 1)
  {
    hide Process, WellFormed, AllBuilt, Consistent, Keyed, Complete, Connected, Permitted;
    LegsValid(legs);
    FabridSlots.DeliveredAtEnd(Ctx(net.routers[st.router], hdr, env, st.ingress), st.path);
    var j := |legs| - 1;
    assert ValidPos(legs, j, legs[j].Len() - 1) && IsLast(legs, j, legs[j].Len() - 1);
  }

  /** The hop of the way back, counted from its start, at which the packet in `st` was on the way out. */
  function TurnHop(path: Path): int { path.NumHops() - 1 - path.currHf }

  /** A packet that is ready is delivered in the last AS of the path, within a bound. */
  lemma {:induction false} ReadyDelivered(net: Network, keys: Keys, hdr: Header, legs: seq<Leg>, start: nat,
                                          weather: nat -> Env, st: Transit, prev: Addr, j: nat, t: nat)
    returns (envs: seq<Env>, states: seq<Transit>)
    requires Routable(net, keys, hdr, legs, start) && Ready(net, legs, start, st, prev, j, t)
    requires forall i :: Smooth(legs, weather(i))
    ensures Delivers(net, hdr, weather, 0, st, prev, envs, states)
    ensures envs == [] || |envs| < 2 * st.path.NumHops()
    ensures ValidPos(legs, |legs| - 1, legs[|legs| - 1].Len() - 1)
    ensures net.routers[states[|envs|].router].localIA == legs[|legs| - 1].Local(legs[|legs| - 1].Len() - 1)
  {
    envs, states := DeliveredFrom(net, keys, hdr, legs, start, weather, 0, st, prev, j, t);
    ReadyPos(net, keys, hdr, legs, start, st, prev, j, t);
    hide Routable, Ready, Consistent, WellFormed, Smooth, Step, VerdictAt, Present, At;
    RunsEnd(net, hdr, envs, states, |envs|);
    DeliveredThere(net, keys, hdr, During(weather, 0, prev, states, |envs|), legs, start, states[|envs|]);
  }

  /** A run of an authorized packet that ends with a request about it, and where the reply to it starts. */
  ghost predicate Requests(net: Network, keys: Keys, hdr: Header, envs: seq<Env>, states: seq<Transit>, legs: seq<Leg>,
                           env: Env, start: nat)
  {
    && WellFormed(legs) && AllBuilt(keys, legs) && Linked(net, legs) && Consistent(net) && Keyed(net, keys)
    && IsRun(net, hdr, envs, states) && Injected(net, states[0]) && states[0].path == ForwardingPath(legs)
    && net.routers[states[0].router].localIA == legs[0].Local(0)
    && var st := states[|envs|];
    && Present(net, st) && st.ingress != 0 && st.ingress in net.routers[st.router].external
    && VerdictAt(net, hdr, env, st).SlowPath? && !Early(VerdictAt(net, hdr, env, st).cause)
    && start == TurnHop(st.path)
  }

  lemma {:induction false} RequestReady(net: Network, keys: Keys, hdr: Header, envs: seq<Env>, states: seq<Transit>,
                                        legs: seq<Leg>, env: Env, back: Header, start: nat)
    returns (first: Transit, m: nat, w: nat)
    requires Requests(net, keys, hdr, envs, states, legs, env, start) && Routable(net, keys, back, Back(legs), start)
    ensures var st := states[|envs|]; var path := VerdictAt(net, hdr, env, st).path;
      && path.Decoded() && Replied(net, st, path, first) && Ready(net, Back(legs), start, first, st.router, m, w)
  {
    hide WellFormed, AllBuilt, Linked, Consistent, OnTrack, Step, Keyed, Ready, Routable, VerdictAt, TransitAt, OnPath,
      Offset, Replied, Quiet;
    StartOnTrack(keys, legs);
    LegsValid(legs);
    StartOnPath(net, legs, states[0]);
    RunOnPath(net, keys, hdr, envs, states, legs, |envs|);
    StartQuiet(keys, legs);
    RunQuiet(net, hdr, envs, states, |envs|);
    var st := states[|envs|];
    var j, t := OnPathAt(net, legs, st);
    TurnHopAt(net, legs, st, j, t);
    first, m, w := ReplyReady(net, keys, hdr, env, legs, st, j, t, back, start);
  }

  /**
   Replies are delivered: a packet sent on an authorized path comes, in any run, to a router
   that asks for a slow-path answer about it.  If links and interface pairs of the way back are
   there and nothing is in the way, the reply is delivered in the AS the packet came from.
   */
  lemma {:induction false} ReplyDelivered(net: Network, keys: Keys, hdr: Header, envs: seq<Env>, states: seq<Transit>,
                                          legs: seq<Leg>, env: Env, back: Header, start: nat, weather: nat -> Env)
    returns (first: Transit, backEnvs: seq<Env>, backStates: seq<Transit>)
    requires Requests(net, keys, hdr, envs, states, legs, env, start) && Routable(net, keys, back, Back(legs), start)
    requires forall i :: Smooth(Back(legs), weather(i))
    ensures var st := states[|envs|]; var path := VerdictAt(net, hdr, env, st).path;
      && path.Decoded() && Replied(net, st, path, first)
      && Delivers(net, back, weather, 0, first, st.router, backEnvs, backStates)
    ensures backEnvs == [] || |backEnvs| < 2 * first.path.NumHops()
    ensures net.routers[backStates[|backEnvs|].router].localIA == legs[0].Local(0)
  {
    var m, w;
    first, m, w := RequestReady(net, keys, hdr, envs, states, legs, env, back, start);
    hide Routable, Ready, Smooth, VerdictAt, Replied, WellFormed, AllBuilt, Consistent, Linked, IsRun;
    backEnvs, backStates :=
      ReadyDelivered(net, keys, back, Back(legs), start, weather, first, states[|envs|].router, m, w);
    BackEnds(legs);
  }

  lemma StartQuiet(keys: Keys, legs: seq<Leg>)
    requires WellFormed(legs) && AllBuilt(keys, legs)
    ensures Quiet(ForwardingPath(legs))
  {
    AllHopsQuiet(keys, legs, |legs|);
  }

  lemma {:induction false} TurnHopAt(net: Network, legs: seq<Leg>, st: Transit, j: nat, t: nat)
    requires WellFormed(legs) && AllValid(Back(legs)) && ValidPos(legs, j, t) && TransitAt(net, legs, st, j, t)
    ensures TurnHop(st.path) + 1 == Offset(Back(legs), |legs| - 1 - j) + legs[j].Len() - t
  {
    TrackPos(st.path, legs, j, t, st.ingress != 0);
    ShapeDecoded(st.path, legs, j, t);
    BackOffset(legs, j, t);
  }

  /** The way back ends where the path starts. */
  lemma BackEnds(legs: seq<Leg>)
    requires WellFormed(legs) && AllValid(Back(legs))
    ensures var n := |legs| - 1; Back(legs)[n].Local(Back(legs)[n].Len() - 1) == legs[0].Local(0)
  {
    hide WellFormed;
    LegsValid(legs);
    ReversedHop(legs[0], 0);
  }
}
