/**
 Delivery: on an authorized path whose links exist and whose interface pairs are allowed, a
 packet gets to the last AS whenever nothing is in its way, in a bounded number of steps.
 */
module Delivery {
  import opened Basics
  import opened ScionPath
  import opened Segments
  import opened Combinator
  import opened Router
  import opened PathAuthorization
  import opened Network
  import opened AuthorizedRuns
  import opened RouterProgress

  // ----- Every run ends ------------------------------------------------------------------

  /** Steps a packet may still take: two for every hop before it, or one less inside an AS. */
  function StepsLeft(st: Transit): int {
    2 * (st.path.NumHops() - st.path.currHf) - if st.ingress == 0 then 1 else 0
  }

  lemma StepsDecrease(net: Network, hdr: Header, env: Env, st: Transit)
    requires Consistent(net) && Step(net, hdr, env, st).Some?
    ensures var next := Step(net, hdr, env, st).value;
      && 0 < StepsLeft(next) < StepsLeft(st) && next.path.NumHops() == st.path.NumHops()
  {
    hide Consistent, Process, Allowed;
    var c := Ctx(net.routers[st.router], hdr, env, st.ingress);
    NoTypeForZero(net, st.router);
    ProcessKeeps(c, st.path);
    ProcessAllowed(c, st.path);
    match Process(c, st.path) {
      case Forwarded(e, _, _, _) => RemoteEnd(net, st.router, e);
      case _ =>
    }
  }

  /** Every run of every packet, authorized or not, has fewer than two steps per hop. */
  lemma {:induction false} RunsEnd(net: Network, hdr: Header, envs: seq<Env>, states: seq<Transit>, i: nat)
    requires Consistent(net) && IsRun(net, hdr, envs, states) && i < |states|
    ensures states[i].path.NumHops() == states[0].path.NumHops()
    ensures i + StepsLeft(states[i]) <= StepsLeft(states[0]) && (i > 0 ==> StepsLeft(states[i]) > 0)
  {
    hide Consistent, Step, StepsLeft;
    if i > 0 {
      RunsEnd(net, hdr, envs, states, i - 1);
      assert Step(net, hdr, envs[i - 1], states[i - 1]) == Some(states[i]);
      StepsDecrease(net, hdr, envs[i - 1], states[i - 1]);
    }
  }

  // ----- The network the path leads through ------------------------------------------------

  ghost predicate Owns(net: Network, ia: IA, i: IfId, r: Addr) {
    (ia, i) in net.owner && net.owner[(ia, i)] == r
  }

  /** Every router reaches every interface of its AS, its own or a sibling's. */
  ghost predicate Complete(net: Network) {
    forall r, i :: r in net.routers && (net.routers[r].localIA, i) in net.owner ==>
      if net.owner[(net.routers[r].localIA, i)] == r then i in net.routers[r].external
      else i in net.routers[r].internalNextHops
  }

  /** The link over which the path leaves hop (j, t) leads to the interface the next hop names. */
  ghost predicate Joins(net: Network, legs: seq<Leg>, j: nat, t: nat)
    requires AllValid(legs) && ValidPos(legs, j, t)
  {
    var (m, w) := NextPos(legs, j, t);
    var x := (legs[j].Local(t), EgressOf(legs[j], t));
    m < |legs| ==> x in net.owner && x in net.remote && net.remote[x] == (legs[m].Local(w), IngressOf(legs[m], w))
  }

  ghost predicate Connected(net: Network, legs: seq<Leg>)
    requires AllValid(legs)
  {
    forall j: nat, t: nat :: ValidPos(legs, j, t) && SwitchLeg(legs, j, t) == (j, t) ==> Joins(net, legs, j, t)
  }

  /** The interface pair at which the path crosses the AS of hop (j, t) is an allowed one. */
  ghost predicate PairAllowed(d: DataPlane, legs: seq<Leg>, j: nat, t: nat)
    requires AllValid(legs) && ValidPos(legs, j, t) && ValidPos(legs, SwitchLeg(legs, j, t).0, SwitchLeg(legs, j, t).1)
  {
    var (k, u) := SwitchLeg(legs, j, t);
    var i, e := d.TypeOf(IngressOf(legs[j], t)), d.TypeOf(EgressOf(legs[k], u));
    if k != j then ValidSwitch(i, e) else ValidWithin(i, e)
  }

  ghost predicate Permitted(net: Network, legs: seq<Leg>)
    requires WellFormed(legs)
  {
    forall j: nat, t: nat, r ::
      (&& ValidPos(legs, j, t) && (t > 0 || (j > 0 && legs[j].IsPeerHop(t))) && !IsLast(legs, j, t)
       && r in net.routers && net.routers[r].localIA == legs[j].Local(t))
      ==> (SwitchOnce(legs, j, t); PairAllowed(net.routers[r], legs, j, t))
  }

  lemma {:induction false} ConnectedLinked(net: Network, legs: seq<Leg>)
    requires WellFormed(legs) && Connected(net, legs)
    ensures Linked(net, legs)
  {
    forall j: nat, t: nat | ValidPos(legs, j, t) && SwitchLeg(legs, j, t) == (j, t) && NextPos(legs, j, t).0 < |legs|
      ensures var (m, w) := NextPos(legs, j, t); var k := (legs[j].Local(t), EgressOf(legs[j], t));
        k in net.remote ==> net.remote[k].0 == legs[m].Local(w)
    {
      assert Joins(net, legs, j, t);
    }
  }

  // ----- One step --------------------------------------------------------------------------

  /**
   The packet is at hop (j, t), at the router that received it or at the sibling that owns the
   way out; `prev` is the router it was at before.
   */
  ghost predicate Ready(net: Network, legs: seq<Leg>, start: nat, st: Transit, prev: Addr, j: nat, t: nat)
    requires WellFormed(legs)
  {
    && ValidPos(legs, j, t) && TransitAt(net, legs, st, j, t) && Quiet(st.path) && UnderWay(st.path, st.ingress, start)
    && if st.ingress != 0 then
         st.ingress == IngressOf(legs[j], t) && Owns(net, legs[j].Local(t), st.ingress, st.router)
       else
         && SwitchLeg(legs, j, t) == (j, t) && !IsLast(legs, j, t)
         && Owns(net, legs[j].Local(t), EgressOf(legs[j], t), st.router)
         && ((j, t) == (0, 0) || (Owns(net, legs[j].Local(t), EntryOf(legs, j, t), prev) && prev != st.router))
  }

  lemma NextHop(net: Network, r: Addr, ia: IA, i: IfId, s: Addr)
    requires Consistent(net) && Complete(net) && r in net.routers && net.routers[r].localIA == ia && Owns(net, ia, i, s)
    ensures if r == s then i in net.routers[r].external
            else
              && i !in net.routers[r].external && i in net.routers[r].internalNextHops
              && net.routers[r].internalNextHops[i] == s
  {
  }

  lemma {:induction false} ReadyEntered(net: Network, c: Ctx, legs: seq<Leg>, start: nat, st: Transit, prev: Addr,
                                        j: nat, t: nat)
    requires WellFormed(legs) && Consistent(net) && Complete(net) && Ready(net, legs, start, st, prev, j, t)
    requires c.d == net.routers[st.router] && c.ingress == st.ingress
    requires st.ingress == 0 && (j, t) != (0, 0) ==> c.env.srcAddr.ip == prev.ip
    ensures Entered(c, legs, j, t)
  {
    hide WellFormed, OnTrack, Consistent, Complete;
    LegsValid(legs);
    if st.ingress == 0 && (j, t) != (0, 0) { NextHop(net, st.router, c.d.localIA, EntryOf(legs, j, t), prev); }
  }

  lemma {:induction false} ReadyLeaves(net: Network, c: Ctx, legs: seq<Leg>, start: nat, st: Transit, prev: Addr,
                                       j: nat, t: nat)
    requires WellFormed(legs) && Consistent(net) && Complete(net) && Connected(net, legs) && Permitted(net, legs)
    requires Ready(net, legs, start, st, prev, j, t) && !IsLast(legs, j, t)
    requires c.d == net.routers[st.router] && c.ingress == st.ingress
    ensures var (k, u) := SwitchLeg(legs, j, t); ValidPos(legs, k, u) && MayLeave(c, legs, j, t)
    ensures var (k, u) := SwitchLeg(legs, j, t);
      (c.d.localIA, EgressOf(legs[k], u)) in net.owner && Joins(net, legs, k, u) && NextPos(legs, k, u).0 < |legs|
  {
    var (k, u) := SwitchLeg(legs, j, t);
    NextExists(legs, j, t);
    SwitchOnce(legs, j, t);
    assert Joins(net, legs, k, u);
    if st.ingress != 0 {
      ArrivedAt(net, legs, st, j, t);
      assert PairAllowed(net.routers[st.router], legs, j, t);
    }
    hide WellFormed, OnTrack, Consistent, Complete, Connected, Permitted;
    LegsValid(legs);
    var x := (c.d.localIA, EgressOf(legs[k], u));
    assert x in net.owner;
    NextHop(net, st.router, c.d.localIA, EgressOf(legs[k], u), net.owner[x]);
  }

  lemma ArrivedAt(net: Network, legs: seq<Leg>, st: Transit, j: nat, t: nat)
    requires WellFormed(legs) && ValidPos(legs, j, t) && TransitAt(net, legs, st, j, t) && st.ingress != 0
    ensures t > 0 || (j > 0 && legs[j].IsPeerHop(t))
  {
    hide WellFormed, Shape, SegIds;
  }

  /** What all the following assumes of the network and the path. */
  ghost predicate Routable(net: Network, keys: Keys, hdr: Header, legs: seq<Leg>, start: nat) {
    && WellFormed(legs) && AllBuilt(keys, legs) && Consistent(net) && Keyed(net, keys)
    && Complete(net) && Connected(net, legs) && Permitted(net, legs) && Addressed(hdr, legs, start)
  }

  /** The environment of a step: nothing is in the way, and a sibling's packets come from its address. */
  ghost predicate SmoothAt(legs: seq<Leg>, env: Env, st: Transit, prev: Addr)
    requires AllValid(legs) && |legs| > 0
  {
    Smooth(legs, env) && (st.ingress == 0 ==> st.path.currHf == 0 || env.srcAddr.ip == prev.ip)
  }

  lemma {:induction false} VerdictGoes(net: Network, keys: Keys, hdr: Header, env: Env, legs: seq<Leg>, start: nat,
                                       st: Transit, prev: Addr, j: nat, t: nat)
    requires Routable(net, keys, hdr, legs, start) && Ready(net, legs, start, st, prev, j, t)
    requires SmoothAt(legs, env, st, prev)
    ensures var (k, u) := SwitchLeg(legs, j, t); ValidPos(legs, k, u)
    ensures Goes(VerdictAt(net, hdr, env, st), Ctx(net.routers[st.router], hdr, env, st.ingress), legs, j, t)
  {
    hide WellFormed, AllBuilt, Consistent, Complete, Connected, Permitted, Addressed, Smooth, Process, MayLeave,
      Entered, Goes, Joins;
    LegsValid(legs);
    var c := Ctx(net.routers[st.router], hdr, env, st.ingress);
    SwitchOnce(legs, j, t);
    TrackPos(st.path, legs, j, t, st.ingress != 0);
    PositionEnds(st.path, legs, j, t);
    ReadyEntered(net, c, legs, start, st, prev, j, t);
    if !IsLast(legs, j, t) { ReadyLeaves(net, c, legs, start, st, prev, j, t); }
    hide OnTrack, Shape, Positioned;
    RouterGoes(keys, c, st.path, legs, start, j, t);
  }

  /** With nothing in the way, a packet that is not delivered moves on, and is ready for the next step. */
  lemma {:induction false} StepGoes(net: Network, keys: Keys, hdr: Header, env: Env, legs: seq<Leg>, start: nat,
                                    st: Transit, prev: Addr, j: nat, t: nat)
    requires Routable(net, keys, hdr, legs, start) && Ready(net, legs, start, st, prev, j, t)
    requires SmoothAt(legs, env, st, prev) && !VerdictAt(net, hdr, env, st).Delivered?
    ensures Step(net, hdr, env, st).Some?
    ensures var (k, u) := PosAfter(VerdictAt(net, hdr, env, st), legs, j, t);
      Ready(net, legs, start, Step(net, hdr, env, st).value, st.router, k, u)
  {
    hide WellFormed, AllBuilt, Consistent, Complete, Connected, Permitted, Addressed, Smooth, Process, MayLeave,
      OnTrack, Linked, Keyed, Quiet, Allowed;
    LegsValid(legs);
    var c := Ctx(net.routers[st.router], hdr, env, st.ingress);
    VerdictGoes(net, keys, hdr, env, legs, start, st, prev, j, t);
    SwitchOnce(legs, j, t);
    NoTypeForZero(net, st.router);
    ProcessAllowed(c, st.path);
    ReadyLeaves(net, c, legs, start, st, prev, j, t);
    ConnectedLinked(net, legs);
    NextExists(legs, j, t);
    var (k, u) := SwitchLeg(legs, j, t);
    if st.ingress != 0 { ArrivedAt(net, legs, st, j, t); }
    StepTaken(net, hdr, env, legs, st, j, t);
    var next := Step(net, hdr, env, st).value;
    StepOnTrack(net, keys, hdr, env, legs, st, j, t);
    match Process(c, st.path) {
      case Forwarded(e, _, _, _) => SentOn(net, legs, start, next, st.router, k, u);
      case HandedOver(_, _, _) => HandedOn(net, legs, start, st, next, j, t);
    }
  }

  lemma ForwardedReady(net: Network, legs: seq<Leg>, st: Transit, e: IfId, k: nat, u: nat)
    requires AllValid(legs) && ValidPos(legs, k, u) && NextPos(legs, k, u).0 < |legs| && Joins(net, legs, k, u)
    requires Consistent(net) && st.router in net.routers && net.routers[st.router].localIA == legs[k].Local(u)
    requires e == EgressOf(legs[k], u) && e in net.routers[st.router].external
    ensures var x := (net.routers[st.router].localIA, e);
      x in net.remote && net.remote[x] in net.owner && net.remote[x].1 != 0
  {
    hide Consistent;
    RemoteEnd(net, st.router, e);
  }

  /** Where the step leads. */
  lemma StepTaken(net: Network, hdr: Header, env: Env, legs: seq<Leg>, st: Transit, j: nat, t: nat)
    requires AllValid(legs) && ValidPos(legs, j, t) && !IsLast(legs, j, t) && Consistent(net) && Complete(net)
    requires Present(net, st)
    requires var (k, u) := SwitchLeg(legs, j, t);
      && ValidPos(legs, k, u) && NextPos(legs, k, u).0 < |legs| && Joins(net, legs, k, u)
      && net.routers[st.router].localIA == legs[k].Local(u)
    requires Goes(VerdictAt(net, hdr, env, st), Ctx(net.routers[st.router], hdr, env, st.ingress), legs, j, t)
    ensures Step(net, hdr, env, st).Some? && Quiet(Step(net, hdr, env, st).value.path)
    ensures forall start :: UnderWay(st.path, st.ingress, start) ==>
      UnderWay(Step(net, hdr, env, st).value.path, Step(net, hdr, env, st).value.ingress, start)
    ensures var (k, u) := SwitchLeg(legs, j, t); var (m, w) := NextPos(legs, k, u);
      var x, next := (legs[k].Local(u), EgressOf(legs[k], u)), Step(net, hdr, env, st).value;
      if VerdictAt(net, hdr, env, st).Forwarded?
      then
        && x in net.remote && net.remote[x] in net.owner
        && next.router == net.owner[net.remote[x]] && next.ingress == net.remote[x].1 != 0
      else
        && VerdictAt(net, hdr, env, st).HandedOver? && next.ingress == 0
        && Owns(net, x.0, x.1, next.router) && next.router != st.router
  {
    hide Consistent, Complete, Process, Quiet;
    ProcessKeeps(Ctx(net.routers[st.router], hdr, env, st.ingress), st.path);
    var (k, u) := SwitchLeg(legs, j, t);
    var x := (legs[k].Local(u), EgressOf(legs[k], u));
    NextHop(net, st.router, x.0, x.1, net.owner[x]);
    if VerdictAt(net, hdr, env, st).Forwarded? { ForwardedReady(net, legs, st, x.1, k, u); }
  }

  /** A packet that came over a link is ready. */
  lemma SentOn(net: Network, legs: seq<Leg>, start: nat, next: Transit, prev: Addr, k: nat, u: nat)
    requires WellFormed(legs) && AllValid(legs) && ValidPos(legs, k, u) && NextPos(legs, k, u).0 < |legs|
    requires Joins(net, legs, k, u)
    requires var (m, w) := NextPos(legs, k, u); ValidPos(legs, m, w) && TransitAt(net, legs, next, m, w)
    requires Quiet(next.path) && UnderWay(next.path, next.ingress, start)
    requires var x := (legs[k].Local(u), EgressOf(legs[k], u));
      && x in net.remote && net.remote[x] in net.owner
      && next.router == net.owner[net.remote[x]] && next.ingress == net.remote[x].1 != 0
    ensures var (m, w) := NextPos(legs, k, u); Ready(net, legs, start, next, prev, m, w)
  {
    hide WellFormed, TransitAt, Quiet;
  }

  /** So is one that a sibling router has passed on. */
  lemma HandedOn(net: Network, legs: seq<Leg>, start: nat, st: Transit, next: Transit, j: nat, t: nat)
    requires WellFormed(legs) && AllValid(legs) && ValidPos(legs, j, t) && Quiet(next.path)
    requires UnderWay(next.path, next.ingress, start)
    requires t > 0 || (j > 0 && legs[j].IsPeerHop(t))
    requires st.ingress == IngressOf(legs[j], t) && Owns(net, legs[j].Local(t), st.ingress, st.router)
    requires var (k, u) := SwitchLeg(legs, j, t);
      && ValidPos(legs, k, u) && TransitAt(net, legs, next, k, u) && legs[k].Local(u) == legs[j].Local(t)
      && SwitchLeg(legs, k, u) == (k, u) && !IsLast(legs, k, u)
      && next.ingress == 0 && Owns(net, legs[k].Local(u), EgressOf(legs[k], u), next.router) && next.router != st.router
    ensures var (k, u) := SwitchLeg(legs, j, t); Ready(net, legs, start, next, st.router, k, u)
  {
    NotPeerAfterSwitch(legs, j, t);
    hide WellFormed, TransitAt, Quiet;
  }

  lemma NotPeerAfterSwitch(legs: seq<Leg>, j: nat, t: nat)
    requires WellFormed(legs) && ValidPos(legs, j, t)
    ensures var (k, u) := SwitchLeg(legs, j, t); k != j ==> u == 0 && ValidPos(legs, k, u) && !legs[k].IsPeerHop(u)
  {
  }

  // ----- Whole runs ------------------------------------------------------------------------

  /** The packet as the combinator made it, at the router of its AS that owns the way out. */
  ghost predicate Sent(net: Network, legs: seq<Leg>, st: Transit)
    requires WellFormed(legs)
  {
    && Injected(net, st) && st.path == ForwardingPath(legs)
    && net.routers[st.router].localIA == legs[0].Local(0)
    && Owns(net, legs[0].Local(0), EgressOf(legs[0], 0), st.router)
  }

  lemma {:induction false} AllHopsQuiet(keys: Keys, legs: seq<Leg>, j: nat)
    requires AllValid(legs) && AllBuilt(keys, legs) && j <= |legs|
    ensures forall k :: 0 <= k < |AllHops(legs, j)| ==> NoAlert(AllHops(legs, j)[k])
  {
    if j > 0 {
      AllHopsQuiet(keys, legs, j - 1);
      var n := |AllHops(legs, j - 1)|;
      forall k | n <= k < |AllHops(legs, j)| ensures NoAlert(AllHops(legs, j)[k]) {
        HopAuthentic(keys, legs[j - 1], k - n);
      }
    }
  }

  lemma {:induction false} SentReady(net: Network, keys: Keys, legs: seq<Leg>, st: Transit, prev: Addr)
    requires WellFormed(legs) && AllBuilt(keys, legs) && Sent(net, legs, st)
    ensures Ready(net, legs, 0, st, prev, 0, 0)
  {
    StartOnTrack(keys, legs);
    LegsValid(legs);
    AllHopsQuiet(keys, legs, |legs|);
    hide OnTrack, AllBuilt, AllHops;
    TrackPos(st.path, legs, 0, 0, false);
  }

  /** The router before the one of state `i`. */
  function Before(states: seq<Transit>, i: nat): Addr
    requires i < |states|
  {
    if i == 0 then states[0].router else states[i - 1].router
  }

  lemma {:induction false} RunReady(net: Network, keys: Keys, hdr: Header, legs: seq<Leg>, envs: seq<Env>,
                                    states: seq<Transit>, i: nat)
    returns (j: nat, t: nat)
    requires Routable(net, keys, hdr, legs, 0) && IsRun(net, hdr, envs, states) && Sent(net, legs, states[0])
    requires i < |states|
    requires forall n :: 0 <= n < |envs| ==> SmoothAt(legs, envs[n], states[n], Before(states, n))
    ensures Ready(net, legs, 0, states[i], Before(states, i), j, t)
  {
    hide WellFormed, Step, SmoothAt, Ready, Sent;
    if i == 0 {
      j, t := 0, 0;
      SentReady(net, keys, legs, states[0], states[0].router);
    } else {
      j, t := RunReady(net, keys, hdr, legs, envs, states, i - 1);
      assert Step(net, hdr, envs[i - 1], states[i - 1]) == Some(states[i]);
      j, t := StepReady(net, keys, hdr, envs[i - 1], legs, 0, states[i - 1], Before(states, i - 1), j, t);
    }
  }

  lemma {:induction false} StepReady(net: Network, keys: Keys, hdr: Header, env: Env, legs: seq<Leg>, start: nat,
                                     st: Transit, prev: Addr, j: nat, t: nat)
    returns (k: nat, u: nat)
    requires Routable(net, keys, hdr, legs, start) && Ready(net, legs, start, st, prev, j, t)
    requires SmoothAt(legs, env, st, prev)
    requires Step(net, hdr, env, st).Some?
    ensures Ready(net, legs, start, Step(net, hdr, env, st).value, st.router, k, u)
  {
    hide Ready, WellFormed, Routable, Process, SmoothAt;
    ReadyPos(net, keys, hdr, legs, start, st, prev, j, t);
    StepGoes(net, keys, hdr, env, legs, start, st, prev, j, t);
    var pos := PosAfter(VerdictAt(net, hdr, env, st), legs, j, t);
    k, u := pos.0, pos.1;
  }

  lemma ReadyPos(net: Network, keys: Keys, hdr: Header, legs: seq<Leg>, start: nat, st: Transit, prev: Addr, j: nat,
                 t: nat)
    requires Routable(net, keys, hdr, legs, start) && Ready(net, legs, start, st, prev, j, t)
    ensures WellFormed(legs) && AllValid(legs) && |legs| > 0 && ValidPos(legs, j, t) && Present(net, st)
    ensures Consistent(net)
  {
    hide WellFormed, Consistent, OnTrack, Quiet, AllBuilt, Complete, Connected, Permitted, Addressed;
    LegsValid(legs);
  }

  /** A packet on its way is never stuck: with nothing in the way it is delivered or moves on. */
  lemma {:induction false} NeverStuck(net: Network, keys: Keys, hdr: Header, legs: seq<Leg>, envs: seq<Env>,
                                      states: seq<Transit>, env: Env)
    requires Routable(net, keys, hdr, legs, 0) && IsRun(net, hdr, envs, states) && Sent(net, legs, states[0])
    requires forall n :: 0 <= n < |envs| ==> SmoothAt(legs, envs[n], states[n], Before(states, n))
    requires SmoothAt(legs, env, states[|envs|], Before(states, |envs|))
    ensures var last := states[|envs|];
      Present(net, last) && (VerdictAt(net, hdr, env, last).Delivered? || Step(net, hdr, env, last).Some?)
  {
    var j, t := RunReady(net, keys, hdr, legs, envs, states, |envs|);
    var last := states[|envs|];
    assert Present(net, last);
    if !VerdictAt(net, hdr, env, last).Delivered? {
      hide Ready;
      StepGoes(net, keys, hdr, env, legs, 0, last, Before(states, |envs|), j, t);
    }
  }

  /** The conditions at some time, for a packet that came from `prev`. */
  function At(weather: nat -> Env, n: nat, prev: Addr): Env { weather(n).(srcAddr := prev) }

  /** The conditions at state `i` of a run that starts at time `n` with a packet from `prev`. */
  function During(weather: nat -> Env, n: nat, prev: Addr, states: seq<Transit>, i: nat): Env
    requires i <= |states|
  {
    At(weather, n + i, if i == 0 then prev else states[i - 1].router)
  }

  lemma WeatherSmooth(legs: seq<Leg>, weather: nat -> Env, n: nat, st: Transit, prev: Addr)
    requires AllValid(legs) && |legs| > 0 && Smooth(legs, weather(n))
    ensures SmoothAt(legs, At(weather, n, prev), st, prev)
  {
  }

  /** A run from `st` on, under the given conditions, that ends with the delivery of the packet. */
  ghost predicate Delivers(net: Network, hdr: Header, weather: nat -> Env, n: nat, st: Transit, prev: Addr,
                           envs: seq<Env>, states: seq<Transit>) {
    && IsRun(net, hdr, envs, states) && states[0] == st
    && (forall i :: 0 <= i < |envs| ==> envs[i] == During(weather, n, prev, states, i))
    && Present(net, states[|envs|])
    && VerdictAt(net, hdr, During(weather, n, prev, states, |envs|), states[|envs|]).Delivered?
  }

  lemma {:induction false} DeliversStep(net: Network, hdr: Header, weather: nat -> Env, n: nat, st: Transit, prev: Addr,
                                        next: Transit, envs: seq<Env>, states: seq<Transit>)
    requires Step(net, hdr, At(weather, n, prev), st) == Some(next)
    requires Delivers(net, hdr, weather, n + 1, next, st.router, envs, states)
    ensures Delivers(net, hdr, weather, n, st, prev, [At(weather, n, prev)] + envs, [st] + states)
  {
    hide Step, At, VerdictAt, Present;
    var es, ss := [At(weather, n, prev)] + envs, [st] + states;
    forall i: nat | 0 < i <= |es|
      ensures During(weather, n, prev, ss, i) == During(weather, n + 1, st.router, states, i - 1)
    {
      assert ss[i - 1] == if i == 1 then st else states[i - 2];
    }
    forall i | 0 <= i < |es| ensures Step(net, hdr, es[i], ss[i]) == Some(ss[i + 1]) {
      if i > 0 { assert es[i] == envs[i - 1] && ss[i] == states[i - 1] && ss[i + 1] == states[i]; }
    }
    assert ss[|es|] == states[|envs|];
  }

  /** From any point of the way on. */
  lemma {:induction false} DeliveredFrom(net: Network, keys: Keys, hdr: Header, legs: seq<Leg>, start: nat,
                                         weather: nat -> Env, n: nat, st: Transit, prev: Addr, j: nat, t: nat)
    returns (envs: seq<Env>, states: seq<Transit>)
    requires Routable(net, keys, hdr, legs, start) && Ready(net, legs, start, st, prev, j, t)
    requires forall i :: Smooth(legs, weather(i))
    ensures Delivers(net, hdr, weather, n, st, prev, envs, states)
    decreases if StepsLeft(st) < 0 then 0 else StepsLeft(st)
  {
    hide WellFormed, Ready, Routable, Smooth, Step, At, SmoothAt, VerdictAt, Present, Consistent, StepsLeft;
    ReadyPos(net, keys, hdr, legs, start, st, prev, j, t);
    var env := At(weather, n, prev);
    WeatherSmooth(legs, weather, n, st, prev);
    if VerdictAt(net, hdr, env, st).Delivered? {
      envs, states := [], [st];
    } else {
      StepGoes(net, keys, hdr, env, legs, start, st, prev, j, t);
      var next := Step(net, hdr, env, st).value;
      StepsDecrease(net, hdr, env, st);
      var k, u := StepReady(net, keys, hdr, env, legs, start, st, prev, j, t);
      var laterEnvs, laterStates := DeliveredFrom(net, keys, hdr, legs, start, weather, n + 1, next, st.router, k, u);
      DeliversStep(net, hdr, weather, n, st, prev, next, laterEnvs, laterStates);
      envs, states := [env] + laterEnvs, [st] + laterStates;
    }
  }

  /**
   Delivery: whatever the conditions are from step to step, as long as nothing is in the way,
   the packet is delivered in the last AS after fewer than two steps per hop.
   */
  lemma {:induction false} PacketDelivered(net: Network, keys: Keys, hdr: Header, legs: seq<Leg>, weather: nat -> Env,
                                           st: Transit)
    returns (envs: seq<Env>, states: seq<Transit>)
    requires Routable(net, keys, hdr, legs, 0) && Sent(net, legs, st)
    requires forall i :: Smooth(legs, weather(i))
    ensures Delivers(net, hdr, weather, 0, st, st.router, envs, states)
    ensures envs == [] || |envs| <= 2 * st.path.NumHops() - 2
  {
    hide WellFormed, Ready, Smooth, Step, At, Process;
    SentReady(net, keys, legs, st, st.router);
    envs, states := DeliveredFrom(net, keys, hdr, legs, 0, weather, 0, st, st.router, 0, 0);
    RunsEnd(net, hdr, envs, states, |envs|);
  }
}
