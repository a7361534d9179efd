/**
 Whole runs of packets on authorized paths: no router on the way reports a MAC failure.
 */
module AuthorizedRuns {
  import opened Basics
  import opened ScionPath
  import opened Segments
  import opened Combinator
  import opened Router
  import opened PathAuthorization
  import opened Network

  // ----- The start -------------------------------------------------------------------

  lemma {:induction false} AllHopsAt(legs: seq<Leg>, j: nat, i: nat, t: nat)
    requires AllValid(legs) && i < j <= |legs| && t < legs[i].Len()
    ensures Offset(legs, i) + t < |AllHops(legs, j)|
    ensures AllHops(legs, j)[Offset(legs, i) + t] == legs[i].Hop(t)
  {
    OffsetMono(legs, i + 1, j);
    if i < j - 1 {
      AllHopsAt(legs, j - 1, i, t);
    }
  }

  /** The path the combinator hands out starts on track at its first hop. */
  lemma {:induction false} StartOnTrack(keys: Keys, legs: seq<Leg>)
    requires WellFormed(legs) && AllBuilt(keys, legs)
    ensures OnTrack(ForwardingPath(legs), legs, 0, 0, false)
    ensures ForwardingPath(legs).Decoded()
  {
    var path := ForwardingPath(legs);
    StartHops(keys, legs);
    AllHopsSize(legs, |legs|);
    hide HopsMatch, AllHops, Offset, AllBuilt;
    assert InfosMatch(path.infos, legs) && SegIds(path.infos, legs, 0, 0, false);
    OffsetAtStart(legs);
    ShapeDecoded(path, legs, 0, 0);
  }

  lemma OffsetAtStart(legs: seq<Leg>)
    requires AllValid(legs)
    ensures Offset(legs, 0) == 0
  {
  }

  lemma {:induction false} AllHopsSize(legs: seq<Leg>, j: nat)
    requires AllValid(legs) && j <= |legs|
    ensures |AllHops(legs, j)| == Offset(legs, j)
  {
    if j > 0 { AllHopsSize(legs, j - 1); }
  }

  lemma {:induction false} StartHops(keys: Keys, legs: seq<Leg>)
    requires AllValid(legs) && AllBuilt(keys, legs)
    ensures HopsMatch(AllHops(legs, |legs|), legs)
  {
    var hops := AllHops(legs, |legs|);
    AllHopsSize(legs, |legs|);
    forall i: nat, t: nat | i < |legs| && t < legs[i].Len() ensures HopIs(hops, legs, i, t) {
      AllHopsAt(legs, |legs|, i, t);
      HopAuthentic(keys, legs[i], t);
    }
  }

  // ----- Runs ------------------------------------------------------------------------

  /** Where the links of the network lead agrees with the order of ASes on the path. */
  ghost predicate Linked(net: Network, legs: seq<Leg>)
    requires WellFormed(legs)
  {
    forall j: nat, t: nat ::
      ValidPos(legs, j, t) && SwitchLeg(legs, j, t) == (j, t) && NextPos(legs, j, t).0 < |legs| ==>
      var (m, w) := NextPos(legs, j, t);
      var k := (legs[j].Local(t), EgressOf(legs[j], t));
      k in net.remote ==> net.remote[k].0 == legs[m].Local(w)
  }

  ghost predicate Keyed(net: Network, keys: Keys) {
    forall r :: r in net.routers ==> net.routers[r].mac == keys(net.routers[r].localIA)
  }

  /** The packet is at a router of the AS of hop (j, t), with the SegID that hop needs. */
  ghost predicate TransitAt(net: Network, legs: seq<Leg>, st: Transit, j: nat, t: nat)
    requires WellFormed(legs)
  {
    && Present(net, st) && OnTrack(st.path, legs, j, t, st.ingress != 0)
    && net.routers[st.router].localIA == legs[j].Local(t)
  }

  /** The hop at which the packet is after the step with verdict `v`. */
  function PosAfter(v: Verdict, legs: seq<Leg>, j: nat, t: nat): (nat, nat)
    requires WellFormed(legs) && ValidPos(legs, j, t)
  {
    SwitchOnce(legs, j, t);
    var (k, u) := SwitchLeg(legs, j, t);
    if v.Forwarded? then NextPos(legs, k, u) else (k, u)
  }

  /** A packet sent over the link of hop (k, u) arrives in the AS of the next hop. */
  lemma {:induction false} ArriveOnTrack(net: Network, legs: seq<Leg>, r: Addr, st: Transit, k: nat, u: nat)
    requires WellFormed(legs) && Linked(net, legs) && Consistent(net)
    requires ValidPos(legs, k, u) && SwitchLeg(legs, k, u) == (k, u)
    requires var (m, w) := NextPos(legs, k, u); ValidPos(legs, m, w) && OnTrack(st.path, legs, m, w, true)
    requires r in net.routers && net.routers[r].localIA == legs[k].Local(u)
    requires var e := EgressOf(legs[k], u); var x := (legs[k].Local(u), e);
             e in net.routers[r].external && x in net.remote && net.remote[x] in net.owner
             && st.router == net.owner[net.remote[x]] && st.ingress == net.remote[x].1
    ensures var (m, w) := NextPos(legs, k, u); TransitAt(net, legs, st, m, w)
  {
    hide WellFormed, OnTrack, Consistent;
    LegsValid(legs);
    var (m, w) := NextPos(legs, k, u);
    RemoteEnd(net, r, EgressOf(legs[k], u));
    TrackPos(st.path, legs, m, w, true);
  }

  /** A packet handed to a sibling router stays in the AS. */
  lemma {:induction false} SiblingOnTrack(net: Network, legs: seq<Leg>, r: Addr, st: Transit, k: nat, u: nat)
    requires WellFormed(legs) && Consistent(net)
    requires ValidPos(legs, k, u) && OnTrack(st.path, legs, k, u, false)
    requires r in net.routers && net.routers[r].localIA == legs[k].Local(u)
    requires st.path.currHf < |st.path.hops| && st.path.currInf < |st.path.infos|
    requires var e := CurrentEgress(st.path);
             e in net.routers[r].internalNextHops && st.router == net.routers[r].internalNextHops[e] && st.ingress == 0
    ensures TransitAt(net, legs, st, k, u)
  {
    hide WellFormed, OnTrack, Consistent;
    SiblingOf(net, r, CurrentEgress(st.path));
    TrackPos(st.path, legs, k, u, false);
  }

  /** One step of the network keeps the packet on the path, at a router of the right AS. */
  lemma {:induction false} StepOnTrack(net: Network, keys: Keys, hdr: Header, env: Env, legs: seq<Leg>, st: Transit,
                                       j: nat, t: nat)
    requires WellFormed(legs) && AllBuilt(keys, legs) && Linked(net, legs)
    requires Consistent(net) && Keyed(net, keys)
    requires ValidPos(legs, j, t) && TransitAt(net, legs, st, j, t) && Step(net, hdr, env, st).Some?
    ensures var (k, u) := PosAfter(VerdictAt(net, hdr, env, st), legs, j, t);
            ValidPos(legs, k, u) && TransitAt(net, legs, Step(net, hdr, env, st).value, k, u)
  {
    hide WellFormed, AllBuilt, OnTrack, Process, Linked, Allowed, Consistent;
    LegsValid(legs);
    var c := Ctx(net.routers[st.router], hdr, env, st.ingress);
    SwitchOnce(legs, j, t);
    NoTypeForZero(net, st.router);
    ProcessOnTrack(keys, c, st.path, legs, j, t);
    ProcessAllowed(c, st.path);
    var (k, u) := SwitchLeg(legs, j, t);
    match Process(c, st.path) {
      case Forwarded(_, _, _, _) => ArriveOnTrack(net, legs, st.router, Step(net, hdr, env, st).value, k, u);
      case HandedOver(_, _, _) => SiblingOnTrack(net, legs, st.router, Step(net, hdr, env, st).value, k, u);
      case _ =>
    }
  }

  /** No router can report a MAC failure for the packet as it stands. */
  ghost predicate MacsVerify(net: Network, hdr: Header, st: Transit) {
    && Present(net, st)
    && forall env :: var v := VerdictAt(net, hdr, env, st);
         !(v.SlowPath? && (v.cause == MacFailed || v.cause == MacFailedAfterXover))
  }

  lemma {:induction false} TransitVerifies(net: Network, keys: Keys, hdr: Header, legs: seq<Leg>, st: Transit, j: nat,
                                           t: nat)
    requires WellFormed(legs) && AllBuilt(keys, legs) && Keyed(net, keys)
    requires ValidPos(legs, j, t) && TransitAt(net, legs, st, j, t)
    ensures MacsVerify(net, hdr, st)
  {
    hide WellFormed, AllBuilt, OnTrack, Process;
    forall env ensures var v := VerdictAt(net, hdr, env, st);
                       !(v.SlowPath? && (v.cause == MacFailed || v.cause == MacFailedAfterXover))
    {
      ProcessOnTrack(keys, Ctx(net.routers[st.router], hdr, env, st.ingress), st.path, legs, j, t);
    }
  }

  ghost predicate OnPath(net: Network, legs: seq<Leg>, st: Transit)
    requires WellFormed(legs)
  {
    exists j: nat, t: nat :: ValidPos(legs, j, t) && TransitAt(net, legs, st, j, t)
  }

  /** Every state of a run that starts on the path is on the path, and no MAC check fails in it. */
  lemma {:induction false} RunOnPath(net: Network, keys: Keys, hdr: Header, envs: seq<Env>, states: seq<Transit>,
                                     legs: seq<Leg>, i: nat)
    requires WellFormed(legs) && AllBuilt(keys, legs) && Linked(net, legs)
    requires Consistent(net) && Keyed(net, keys)
    requires IsRun(net, hdr, envs, states) && OnPath(net, legs, states[0]) && i < |states|
    ensures OnPath(net, legs, states[i]) && MacsVerify(net, hdr, states[i])
  {
    hide WellFormed, AllBuilt, Linked, Consistent, TransitAt, Step, Keyed, MacsVerify;
    LegsValid(legs);
    if i > 0 {
      RunOnPath(net, keys, hdr, envs, states, legs, i - 1);
      assert Step(net, hdr, envs[i - 1], states[i - 1]) == Some(states[i]);
      var j: nat, t: nat :| ValidPos(legs, j, t) && TransitAt(net, legs, states[i - 1], j, t);
      StepOnTrack(net, keys, hdr, envs[i - 1], legs, states[i - 1], j, t);
    }
    var j: nat, t: nat :| ValidPos(legs, j, t) && TransitAt(net, legs, states[i], j, t);
    TransitVerifies(net, keys, hdr, legs, states[i], j, t);
  }

  /**
   Path authorization, end to end: segments grown by Extend, a path combined from them,
   and any run of the packet through the network under any conditions.  At no router on
   the way does a MAC check fail.
   */
  lemma {:induction false} AuthorizedRun(net: Network, keys: Keys, hdr: Header, envs: seq<Env>, states: seq<Transit>,
                                         legs: seq<Leg>)
    requires WellFormed(legs) && AllBuilt(keys, legs) && Linked(net, legs)
    requires Consistent(net) && Keyed(net, keys)
    requires IsRun(net, hdr, envs, states) && Injected(net, states[0])
    requires states[0].path == ForwardingPath(legs)
    requires net.routers[states[0].router].localIA == legs[0].Local(0)
    ensures forall i :: 0 <= i < |states| ==> MacsVerify(net, hdr, states[i])
  {
    StartOnTrack(keys, legs);
    hide WellFormed, AllBuilt, Linked, Consistent, OnTrack, Step, Keyed, MacsVerify;
    assert TransitAt(net, legs, states[0], 0, 0);
    forall i | 0 <= i < |states| ensures MacsVerify(net, hdr, states[i]) {
      RunOnPath(net, keys, hdr, envs, states, legs, i);
    }
  }
}
