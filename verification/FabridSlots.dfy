/**
 FABRID hop slots: along any authorized path each AS uses exactly one slot, the slots are
 consecutive, and only one router of the AS handles it.
 */
module FabridSlots {
  import opened Basics
  import opened ScionPath
  import opened Segments
  import opened Combinator
  import opened Router
  import opened PathAuthorization
  import opened Network
  import opened AuthorizedRuns

  // ----- FABRID slots ----------------------------------------------------------------

  /** The position, among the ASes of the path, of the AS of hop (j, t). */
  function ASIndex(legs: seq<Leg>, j: nat, t: nat): int
    requires AllValid(legs) && j <= |legs| && |legs| > 0
  {
    Offset(legs, j) + t - if legs[0].peer != 0 then 0 else j
  }

  /** The number of ASes on the path: a segment switch happens inside one AS. */
  function NumASes(legs: seq<Leg>): int
    requires AllValid(legs) && |legs| > 0
  {
    Offset(legs, |legs|) - if legs[0].peer != 0 then 0 else |legs| - 1
  }

  lemma {:induction false} ASIndexRange(legs: seq<Leg>, j: nat, t: nat)
    requires WellFormed(legs) && ValidPos(legs, j, t)
    ensures 0 <= ASIndex(legs, j, t) < NumASes(legs) <= MAX_HOPS
    ensures ASIndex(legs, j, t) == 0 <==> j == 0 && t == 0
  {
    OffsetSteps(legs);
    assert Offset(legs, 0) == 0;
    assert Offset(legs, 1) == legs[0].Len();
    if |legs| >= 2 { assert Offset(legs, 2) == legs[0].Len() + legs[1].Len(); }
    if |legs| >= 3 { assert Offset(legs, 3) == Offset(legs, 2) + legs[2].Len(); }
  }

  /** Switching segments stays in the AS; any other step goes to the next AS. */
  lemma {:induction false} ASIndexSteps(legs: seq<Leg>, j: nat, t: nat)
    requires WellFormed(legs) && ValidPos(legs, j, t)
    ensures var (k, u) := SwitchLeg(legs, j, t);
            ValidPos(legs, k, u) && ASIndex(legs, k, u) == ASIndex(legs, j, t)
    ensures var (m, w) := NextPos(legs, j, t);
            SwitchLeg(legs, j, t) == (j, t) && m < |legs| ==> ASIndex(legs, m, w) == ASIndex(legs, j, t) + 1
  {
    OffsetSteps(legs);
  }

  /** The slot a router handles for a packet at hop (j, t). */
  function SlotFor(c: Ctx, legs: seq<Leg>, j: nat, t: nat): Option<nat>
    requires WellFormed(legs) && ValidPos(legs, j, t)
  {
    ASIndexRange(legs, j, t);
    var a := ASIndex(legs, j, t);
    if c.env.fabrid && (c.ingress != 0 || a == 0) then Some(a) else None
  }

  lemma PeerFlag(path: Path, legs: seq<Leg>, j: nat)
    requires WellFormed(legs) && Shape(path, legs) && j < |legs|
    ensures |legs| > 0 && path.infos[j].peer == (legs[0].peer != 0)
    ensures legs[0].peer != 0 ==> |legs| == 2
  {
  }

  /** The slot of hop `currHf` in segment `currInf`, in 8-bit arithmetic, is its number among the ASes. */
  lemma SlotOfIntegers(c: Ctx, p: Proc, index: int, n: int)
    requires p.Valid() && 0 <= index < n <= MAX_HOPS && (index == 0 ==> p.path.currHf == 0)
    requires index == p.path.currHf - if p.info.peer then 0 else p.path.currInf
    requires n == p.path.NumHops() - if p.info.peer then 0 else p.path.NumInf() - 1
    requires p.info.peer ==> p.path.NumInf() == 2
    ensures var r := ProcessHbhOptions(c, p);
            if r.FabridError? then c.env.fabrid && (n > 62 || !c.env.fabridOk)
            else SlotOf(r) == if c.env.fabrid && (c.ingress != 0 || index == 0) then Some(index) else None
  {
  }

  /** The 8-bit slot arithmetic neither wraps nor leaves the option. */
  lemma {:induction false} HbhAt(c: Ctx, p: Proc, legs: seq<Leg>, j: nat, t: nat)
    requires WellFormed(legs) && ProcAt(p, legs, j, t, false)
    ensures var r := ProcessHbhOptions(c, p);
            if r.FabridError? then c.env.fabrid && (NumASes(legs) > 62 || !c.env.fabridOk)
            else SlotOf(r) == SlotFor(c, legs, j, t)
  {
    hide OnTrack, WellFormed, Shape, Offset, ProcessHbhOptions;
    TrackPos(p.path, legs, j, t, false);
    PeerFlag(p.path, legs, j);
    ASIndexRange(legs, j, t);
    ShapeDecoded(p.path, legs, j, t);
    if (j, t) == (0, 0) { OffsetAtStart(legs); }
    SlotOfIntegers(c, p, ASIndex(legs, j, t), NumASes(legs));
  }

  /** Whichever way the packet leaves the router, the slot handled is the one of this AS. */
  lemma {:induction false} SlotOnTrack(keys: Keys, c: Ctx, path: Path, legs: seq<Leg>, j: nat, t: nat)
    requires WellFormed(legs) && AllBuilt(keys, legs) && OnTrack(path, legs, j, t, c.ingress != 0)
    requires path.Decoded() && c.d.mac == keys(legs[j].Local(t))
    ensures var v := Process(c, path);
            v.Forwarded? || v.HandedOver? || v.Delivered? ==> v.slot == SlotFor(c, legs, j, t)
  {
    hide WellFormed, AllBuilt, OnTrack, IngressStage, XoverStage, EgressChecks, ProcessHbhOptions, ProcessEgress,
      Offset, ASIndex, Shape;
    TrackPos(path, legs, j, t, c.ingress != 0);
    IngressOnTrack(keys, c, path, legs, j, t);
    match IngressStage(c, path)
    case Stop(_) =>
    case Go(p) =>
      HbhAt(c, p, legs, j, t);
      if c.hdr.dstIA != c.d.localIA {
        XoverOnTrack(keys, c, p, legs, j, t);
        ASIndexSteps(legs, j, t);
        var (k, u) := SwitchLeg(legs, j, t);
        match XoverStage(c, p)
        case Stop(_) =>
        case Go(q) =>
          HbhAt(c, q, legs, k, u);
          if EgressChecks(c, q).Stop? { EgressChecksStop(c, q); }
      }
  }

  /** The slots handled when the packet is at hop (j, t): one for each AS entered so far. */
  ghost predicate SlotsAt(legs: seq<Leg>, st: Transit, j: nat, t: nat)
    requires WellFormed(legs) && ValidPos(legs, j, t)
  {
    var a := ASIndex(legs, j, t);
    st.slots == Iota(if st.ingress != 0 || a == 0 then a else a + 1)
  }

  function Iota(n: int): seq<int> {
    if n <= 0 then [] else Iota(n - 1) + [n - 1]
  }

  // ----- FABRID slots over whole runs ------------------------------------------------

  lemma {:induction false} StepSlots(net: Network, keys: Keys, hdr: Header, env: Env, legs: seq<Leg>, st: Transit,
                                     j: nat, t: nat)
    requires WellFormed(legs) && AllBuilt(keys, legs) && Consistent(net) && Keyed(net, keys) && env.fabrid
    requires ValidPos(legs, j, t) && TransitAt(net, legs, st, j, t) && Step(net, hdr, env, st).Some?
    requires SlotsAt(legs, st, j, t)
    ensures var (k, u) := PosAfter(VerdictAt(net, hdr, env, st), legs, j, t);
            ValidPos(legs, k, u) ==> SlotsAt(legs, Step(net, hdr, env, st).value, k, u)
  {
    hide WellFormed, AllBuilt, OnTrack, Process, Consistent, Allowed, Iota;
    LegsValid(legs);
    var c := Ctx(net.routers[st.router], hdr, env, st.ingress);
    SwitchOnce(legs, j, t);
    ASIndexRange(legs, j, t);
    ASIndexSteps(legs, j, t);
    var (k, u) := SwitchLeg(legs, j, t);
    ASIndexSteps(legs, k, u);
    NoTypeForZero(net, st.router);
    SlotOnTrack(keys, c, st.path, legs, j, t);
    ProcessAllowed(c, st.path);
    ArrivedBefore(st.path, legs, j, t);
    var a := ASIndex(legs, j, t);
    assert Iota(a + 1) == Iota(a) + [a] by { IotaStep(a); }
    ForwardedEntersOutside(net, hdr, env, st);
  }

  lemma ArrivedBefore(path: Path, legs: seq<Leg>, j: nat, t: nat)
    requires WellFormed(legs)
    ensures OnTrack(path, legs, j, t, true) ==> t > 0 || j > 0
  {
  }

  lemma IotaStep(a: nat)
    ensures Iota(a + 1) == Iota(a) + [a]
  {
  }

  lemma ForwardedEntersOutside(net: Network, hdr: Header, env: Env, st: Transit)
    requires Consistent(net) && Step(net, hdr, env, st).Some?
    ensures VerdictAt(net, hdr, env, st).Forwarded? ==> Step(net, hdr, env, st).value.ingress != 0
  {
    hide Process;
  }

  ghost predicate SlotsOnPath(net: Network, legs: seq<Leg>, st: Transit)
    requires WellFormed(legs)
  {
    exists j: nat, t: nat :: ValidPos(legs, j, t) && TransitAt(net, legs, st, j, t) && SlotsAt(legs, st, j, t)
  }

  lemma {:induction false} RunSlots(net: Network, keys: Keys, hdr: Header, envs: seq<Env>, states: seq<Transit>,
                                    legs: seq<Leg>, i: nat)
    requires WellFormed(legs) && AllBuilt(keys, legs) && Linked(net, legs)
    requires Consistent(net) && Keyed(net, keys) && (forall x :: 0 <= x < |envs| ==> envs[x].fabrid)
    requires IsRun(net, hdr, envs, states) && SlotsOnPath(net, legs, states[0]) && i < |states|
    ensures SlotsOnPath(net, legs, states[i])
  {
    hide WellFormed, AllBuilt, Linked, Consistent, TransitAt, SlotsAt, Step, Keyed;
    LegsValid(legs);
    if i > 0 {
      RunSlots(net, keys, hdr, envs, states, legs, i - 1);
      assert Step(net, hdr, envs[i - 1], states[i - 1]) == Some(states[i]);
      var j: nat, t: nat :|
        ValidPos(legs, j, t) && TransitAt(net, legs, states[i - 1], j, t) && SlotsAt(legs, states[i - 1], j, t);
      StepOnTrack(net, keys, hdr, envs[i - 1], legs, states[i - 1], j, t);
      StepSlots(net, keys, hdr, envs[i - 1], legs, states[i - 1], j, t);
    }
  }

  /** Delivery happens only to packets from outside that are at the last hop of their path. */
  lemma DeliveredAtEnd(c: Ctx, path: Path)
    requires path.Decoded() && Process(c, path).Delivered?
    ensures c.ingress != 0 && path.IsLastHop() && c.hdr.dstIA == c.d.localIA
  {
    hide ProcessHbhOptions, XoverStage, EgressChecks, ProcessEgress;
    IngressKeeps(c, path);
    match IngressStage(c, path)
    case Stop(_) =>
    case Go(p) =>
      if c.hdr.dstIA == c.d.localIA {
        PrecheckDestination(c, path);
      } else {
        XoverKeeps(c, p);
        match XoverStage(c, p)
        case Stop(_) =>
        case Go(q) => EgressKeeps(c, q);
      }
  }

  lemma PrecheckDestination(c: Ctx, path: Path)
    requires path.Decoded() && Precheck(c, path).Go? && c.hdr.dstIA == c.d.localIA
    ensures c.ingress != 0 && path.IsLastHop()
  {
  }

  lemma {:induction false} LastHopIndex(path: Path, legs: seq<Leg>, j: nat, t: nat)
    requires WellFormed(legs) && Shape(path, legs) && Positioned(path, legs, j, t) && path.IsLastHop()
    ensures ASIndex(legs, j, t) + 1 == NumASes(legs)
  {
    ShapeDecoded(path, legs, j, t);
    OffsetSteps(legs);
    OffsetMono(legs, j + 1, |legs|);
  }

  /**
   FABRID on a delivered packet: over the whole run the slots 0 to n - 1 of the n ASes on
   the path were handled once each and in order, the last one at delivery.
   */
  lemma {:induction false} FabridSlotsInOrder(net: Network, keys: Keys, hdr: Header, envs: seq<Env>,
                                              states: seq<Transit>, legs: seq<Leg>, env: Env)
    requires WellFormed(legs) && AllBuilt(keys, legs) && Linked(net, legs)
    requires Consistent(net) && Keyed(net, keys)
    requires env.fabrid && forall x :: 0 <= x < |envs| ==> envs[x].fabrid
    requires IsRun(net, hdr, envs, states) && Injected(net, states[0])
    requires states[0].path == ForwardingPath(legs)
    requires net.routers[states[0].router].localIA == legs[0].Local(0)
    requires var last := states[|states| - 1]; Present(net, last) && VerdictAt(net, hdr, env, last).Delivered?
    ensures var last := states[|states| - 1];
            Slots(last.slots, VerdictAt(net, hdr, env, last).slot) == Iota(NumASes(legs))
  {
    StartSlots(net, keys, legs, states[0]);
    hide WellFormed, AllBuilt, Linked, Consistent, OnTrack, Step, Keyed, Process, Iota;
    LegsValid(legs);
    RunSlots(net, keys, hdr, envs, states, legs, |states| - 1);
    var last := states[|states| - 1];
    var j: nat, t: nat :| ValidPos(legs, j, t) && TransitAt(net, legs, last, j, t) && SlotsAt(legs, last, j, t);
    FinalSlot(net, keys, hdr, env, legs, last, j, t);
  }

  lemma {:induction false} StartSlots(net: Network, keys: Keys, legs: seq<Leg>, st: Transit)
    requires WellFormed(legs) && AllBuilt(keys, legs) && Injected(net, st) && st.path == ForwardingPath(legs)
    requires net.routers[st.router].localIA == legs[0].Local(0)
    ensures SlotsOnPath(net, legs, st)
  {
    hide WellFormed, OnTrack, AllBuilt;
    LegsValid(legs);
    StartOnTrack(keys, legs);
    TrackPos(st.path, legs, 0, 0, false);
    assert TransitAt(net, legs, st, 0, 0);
    assert SlotsAt(legs, st, 0, 0);
  }

  lemma {:induction false} FinalSlot(net: Network, keys: Keys, hdr: Header, env: Env, legs: seq<Leg>, st: Transit,
                                     j: nat, t: nat)
    requires WellFormed(legs) && AllBuilt(keys, legs) && Keyed(net, keys) && env.fabrid
    requires ValidPos(legs, j, t) && TransitAt(net, legs, st, j, t) && SlotsAt(legs, st, j, t)
    requires VerdictAt(net, hdr, env, st).Delivered?
    ensures Slots(st.slots, VerdictAt(net, hdr, env, st).slot) == Iota(NumASes(legs))
  {
    hide WellFormed, AllBuilt, OnTrack, Process, Shape;
    LegsValid(legs);
    var c := Ctx(net.routers[st.router], hdr, env, st.ingress);
    TrackPos(st.path, legs, j, t, st.ingress != 0);
    SlotOnTrack(keys, c, st.path, legs, j, t);
    DeliveredAtEnd(c, st.path);
    LastHopIndex(st.path, legs, j, t);
    ASIndexRange(legs, j, t);
    IotaStep(ASIndex(legs, j, t));
  }
}
