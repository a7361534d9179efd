/**
 The path of an SCMP reply: reversed, with segment switches undone and the SegID prepared
 for the previous AS, it is again an authorized path back to the source.
 */
module ScmpReplies {
  import opened Basics
  import opened ScionPath
  import opened Segments
  import opened Combinator
  import opened Router
  import opened PathAuthorization
  import opened Network
  import opened AuthorizedRuns

  /** The legs in the order and direction of the way back. */
  function Back(legs: seq<Leg>): (r: seq<Leg>)
    ensures |r| == |legs|
    ensures forall i :: 0 <= i < |legs| ==> r[i] == legs[|legs| - 1 - i].Reversed()
  {
    seq(|legs|, i requires 0 <= i < |legs| => legs[|legs| - 1 - i].Reversed())
  }

  /** The hop (j, t) counted from the other end. */
  function BackPos(legs: seq<Leg>, j: nat, t: nat): (nat, nat)
    requires j < |legs| && legs[j].Valid() && t < legs[j].Len()
  {
    (|legs| - 1 - j, legs[j].Len() - 1 - t)
  }

  /** A hop keeps its hop field, AS and accumulator whichever way it is traversed. */
  lemma ReversedHop(leg: Leg, t: nat)
    requires leg.Valid() && t < leg.Len()
    ensures var r, u := leg.Reversed(), leg.Len() - 1 - t;
            && r.Valid() && u < r.Len() && r.Hop(u) == leg.Hop(t) && r.Beta(u) == leg.Beta(t)
            && r.Local(u) == leg.Local(t) && r.IsPeerHop(u) == leg.IsPeerHop(t)
  {
  }

  /** The interface over which a packet leaves the AS of hop `t` on the way back. */
  function BackEgress(leg: Leg, t: nat): IfId
    requires leg.Valid() && t < leg.Len()
  {
    EgressOf(leg.Reversed(), leg.Len() - 1 - t)
  }

  lemma BackValid(legs: seq<Leg>)
    requires AllValid(legs)
    ensures AllValid(Back(legs))
    ensures forall i :: 0 <= i < |legs| ==> Back(legs)[i].Len() == legs[|legs| - 1 - i].Len()
  {
  }

  /** Offsets counted from the other end. */
  lemma {:induction false} BackOffsets(legs: seq<Leg>, j: nat)
    requires AllValid(legs) && AllValid(Back(legs)) && 1 <= |legs| <= 3 && j <= |legs|
    ensures Offset(Back(legs), |legs| - j) == Offset(legs, |legs|) - Offset(legs, j)
  {
    var r, n := Back(legs), |legs|;
    assert Offset(legs, 0) == 0 == Offset(r, 0);
    assert Offset(legs, 1) == legs[0].Len() && Offset(r, 1) == legs[n - 1].Len();
    if n >= 2 {
      assert Offset(legs, 2) == Offset(legs, 1) + legs[1].Len();
      assert Offset(r, 2) == Offset(r, 1) + legs[n - 2].Len();
    }
    if n >= 3 {
      assert Offset(legs, 3) == Offset(legs, 2) + legs[2].Len();
      assert Offset(r, 3) == Offset(r, 2) + legs[0].Len();
    }
  }

  lemma {:induction false} BackOffset(legs: seq<Leg>, j: nat, t: nat)
    requires AllValid(legs) && AllValid(Back(legs)) && 1 <= |legs| <= 3 && ValidPos(legs, j, t)
    ensures var (k, u) := BackPos(legs, j, t);
            ValidPos(Back(legs), k, u) && Offset(Back(legs), k) + u == Offset(legs, |legs|) - 1 - (Offset(legs, j) + t)
  {
    BackOffsets(legs, j + 1);
    assert Offset(legs, j + 1) == Offset(legs, j) + legs[j].Len();
    hide Offset;
  }

  lemma {:induction false} BackJoined(legs: seq<Leg>)
    requires AllValid(legs) && AllValid(Back(legs)) && JoinedLegs(legs)
    ensures JoinedLegs(Back(legs))
  {
    var r, n := Back(legs), |legs|;
    forall k | 0 <= k < n - 1 ensures r[k].Local(r[k].Len() - 1) == r[k + 1].Local(0) {
      var i := n - 2 - k;
      ReversedHop(legs[i], legs[i].Len() - 1);
      ReversedHop(legs[i + 1], 0);
      assert legs[i].Local(legs[i].Len() - 1) == legs[i + 1].Local(0);
    }
  }

  lemma {:induction false} BackFits(legs: seq<Leg>)
    requires FitsHeader(legs)
    ensures FitsHeader(Back(legs)) && Offset(Back(legs), |legs|) == Offset(legs, |legs|)
  {
    hide Offset;
    BackValid(legs);
    BackOffsets(legs, 0);
    OffsetZero(legs);
  }

  lemma BackWellFormed(legs: seq<Leg>)
    requires WellFormed(legs)
    ensures WellFormed(Back(legs)) && Offset(Back(legs), |legs|) == Offset(legs, |legs|)
  {
    hide FitsHeader, JoinedLegs, Offset;
    FitsValid(legs);
    BackFits(legs);
    FitsValid(Back(legs));
    if JoinedLegs(legs) { BackJoined(legs); }
  }

  lemma FitsValid(legs: seq<Leg>)
    requires FitsHeader(legs)
    ensures AllValid(legs)
  {
  }

  lemma BackBuilt(keys: Keys, legs: seq<Leg>)
    requires AllBuilt(keys, legs)
    ensures AllBuilt(keys, Back(legs))
  {
  }

  lemma {:induction false} BackHop(hops: seq<HopField>, legs: seq<Leg>, i: nat, u: nat)
    requires AllValid(legs) && AllValid(Back(legs)) && 1 <= |legs| <= 3 && HopsMatch(hops, legs)
    requires ValidPos(Back(legs), i, u)
    ensures var k := Offset(Back(legs), i) + u; k < |hops| && TurnHops(hops)[k].Plain() == Back(legs)[i].Hop(u)
  {
    hide Offset;
    var j := |legs| - 1 - i;
    var t := legs[j].Len() - 1 - u;
    BackOffset(legs, j, t);
    ReversedHop(legs[j], t);
    HopOf(hops, legs, j, t);
  }

  lemma {:induction false} BackHops(hops: seq<HopField>, legs: seq<Leg>)
    requires AllValid(legs) && AllValid(Back(legs)) && 1 <= |legs| <= 3 && HopsMatch(hops, legs)
    ensures HopsMatch(TurnHops(hops), Back(legs))
  {
    var r := Back(legs);
    BackOffsets(legs, 0);
    OffsetZero(legs);
    assert |TurnHops(hops)| == Offset(r, |r|);
    forall i: nat, u: nat | i < |r| && u < r[i].Len() ensures HopIs(TurnHops(hops), r, i, u) {
      BackHop(hops, legs, i, u);
    }
  }

  lemma OffsetZero(legs: seq<Leg>)
    requires AllValid(legs)
    ensures Offset(legs, 0) == 0
  {
  }

  lemma {:induction false} BackSegId(legs: seq<Leg>, i: nat, j: nat, t: nat)
    requires AllValid(legs) && AllValid(Back(legs)) && ValidPos(legs, j, t) && i < |legs|
    ensures var (k, u) := BackPos(legs, j, t);
            && ValidPos(Back(legs), k, u)
            && ExpectedSegId(Back(legs), |legs| - 1 - i, k, u, false) == ExpectedSegId(legs, i, j, t, false)
  {
    ReversedHop(legs[j], t);
    if i < j {
      ReversedHop(legs[i], legs[i].Len() - 1);
    } else if i > j {
      ReversedHop(legs[i], 0);
    }
  }

  lemma {:induction false} BackSegIds(infos: seq<InfoField>, legs: seq<Leg>, j: nat, t: nat)
    requires AllValid(legs) && AllValid(Back(legs)) && ValidPos(legs, j, t) && SegIds(infos, legs, j, t, false)
    ensures var (k, u) := BackPos(legs, j, t);
            ValidPos(Back(legs), k, u) && SegIds(TurnInfos(infos), Back(legs), k, u, false)
  {
    hide ExpectedSegId;
    BackSegId(legs, j, j, t);
    forall i | 0 <= i < |legs|
      ensures TurnInfos(infos)[i].segId ==
              ExpectedSegId(Back(legs), i, BackPos(legs, j, t).0, BackPos(legs, j, t).1, false)
    {
      BackSegId(legs, |legs| - 1 - i, j, t);
    }
  }

  lemma BackInfos(infos: seq<InfoField>, legs: seq<Leg>)
    requires InfosMatch(infos, legs)
    ensures InfosMatch(TurnInfos(infos), Back(legs))
  {
  }

  lemma {:induction false} BackLens(path: Path, legs: seq<Leg>)
    requires WellFormed(legs) && WellFormed(Back(legs)) && LensMatch(path, legs) && path.Decoded()
    ensures path.Reverse().Some? && LensMatch(path.Reverse().value, Back(legs))
  {
    BackValid(legs);
    hide Offset;
  }

  lemma {:induction false} ReverseShape(path: Path, legs: seq<Leg>, j: nat, t: nat)
    requires WellFormed(legs) && Shape(path, legs) && Positioned(path, legs, j, t) && path.Decoded()
    ensures WellFormed(Back(legs)) && path.Reverse().Some?
    ensures var (k, u) := BackPos(legs, j, t);
            Shape(path.Reverse().value, Back(legs)) && Positioned(path.Reverse().value, Back(legs), k, u)
  {
    hide WellFormed, LensMatch, HopsMatch, InfosMatch, Offset;
    LegsValid(legs);
    BackValid(legs);
    BackWellFormed(legs);
    ShapeDecoded(path, legs, j, t);
    BackLens(path, legs);
    BackHops(path.hops, legs);
    BackInfos(path.infos, legs);
    BackOffset(legs, j, t);
  }

  /** Reversing a packet that is inside an AS puts it on the way back, in the same AS. */
  lemma {:induction false} ReverseOnTrack(path: Path, legs: seq<Leg>, j: nat, t: nat)
    requires WellFormed(legs) && OnTrack(path, legs, j, t, false) && path.Decoded()
    ensures WellFormed(Back(legs)) && path.Reverse().Some?
    ensures var (k, u) := BackPos(legs, j, t);
            ValidPos(Back(legs), k, u) && OnTrack(path.Reverse().value, Back(legs), k, u, false)
  {
    hide WellFormed, Shape, SegIds, Offset;
    LegsValid(legs);
    BackValid(legs);
    ReverseShape(path, legs, j, t);
    BackSegIds(path.infos, legs, j, t);
  }

  // ----- The reply -------------------------------------------------------------------

  /** Undoing a segment switch puts the packet back on the leg it came in on. */
  lemma {:induction false} SwitchBackOnTrack(rev: Path, legs: seq<Leg>, j: nat, t: nat)
    requires WellFormed(legs) && OnTrack(rev, legs, j, t, false)
    ensures var (k, u) := SwitchLeg(legs, j, t);
            var back := if rev.IsXover() && !legs[j].IsPeerHop(t) then rev.IncPath() else Some(rev);
            ValidPos(legs, k, u) && back.Some? && OnTrack(back.value, legs, k, u, false)
  {
    hide WellFormed, HopsMatch, InfosMatch;
    LegsValid(legs);
    IncPathAt(rev, legs, j, t);
    SwitchOnce(legs, j, t);
    var (k, u) := SwitchLeg(legs, j, t);
    assert (k, u) != (j, t) ==> SegIds(rev.infos, legs, k, u, false);
  }

  lemma {:induction false} ReplySegId(rev: Path, legs: seq<Leg>, j: nat, t: nat)
    requires WellFormed(legs) && OnTrack(rev, legs, j, t, false)
    ensures ReplyEgress(rev, legs[j].IsPeerHop(t)) ==
            rev.SetInfo(rev.infos[j].(segId := DepartureBeta(legs[j], t))).IncPath()
  {
    HopAt(rev, legs, j, t);
    assert rev.infos[j].segId == legs[j].Beta(t);
    var info := rev.infos[j];
    assert rev.SetInfo(info) == rev;
    var turned := if info.consDir && !legs[j].IsPeerHop(t) then info.UpdateSegId(rev.hops[rev.currHf].mac) else info;
    assert turned == info.(segId := DepartureBeta(legs[j], t));
  }

  lemma {:induction false} ReplyEgressOnTrack(rev: Path, legs: seq<Leg>, j: nat, t: nat)
    requires WellFormed(legs) && OnTrack(rev, legs, j, t, false) && SwitchLeg(legs, j, t) == (j, t)
    ensures var (k, u) := NextPos(legs, j, t);
            var next := ReplyEgress(rev, legs[j].IsPeerHop(t));
            k < |legs| ==> next.Some? && ValidPos(legs, k, u) && OnTrack(next.value, legs, k, u, true)
  {
    hide WellFormed, OnTrack, ReplyEgress, DepartureBeta;
    LegsValid(legs);
    TrackPos(rev, legs, j, t, false);
    ReplySegId(rev, legs, j, t);
    DepartOnTrack(rev, legs, j, t);
  }

  /**
   The reply to a packet that is inside the AS of hop (j, t): on the way back, inside this
   AS or, if the packet came from outside, arriving in the previous one.
   */
  lemma {:induction false} ReplyOnTrack(d: DataPlane, ingress: IfId, path: Path, legs: seq<Leg>, j: nat, t: nat)
    requires WellFormed(legs) && OnTrack(path, legs, j, t, false) && path.Decoded()
    ensures WellFormed(Back(legs)) && ValidPos(Back(legs), BackPos(legs, j, t).0, BackPos(legs, j, t).1)
    ensures var r := Back(legs); var (b, c) := BackPos(legs, j, t); var (k, u) := SwitchLeg(r, b, c);
            && ValidPos(r, k, u)
            && var reply := ReplyPath(d, ingress, path);
            if ingress in d.external then
              var (m, w) := NextPos(r, k, u);
              m < |r| ==> reply.Some? && ValidPos(r, m, w) && OnTrack(reply.value, r, m, w, true)
            else reply.Some? && OnTrack(reply.value, r, k, u, false)
  {
    hide WellFormed, OnTrack, ReplyEgress;
    LegsValid(legs);
    ReverseOnTrack(path, legs, j, t);
    var r := Back(legs);
    LegsValid(r);
    var (b, c) := BackPos(legs, j, t);
    var rev := path.Reverse().value;
    TrackPos(rev, r, b, c, false);
    PeerAt(rev, r, b, c);
    SwitchBackOnTrack(rev, r, b, c);
    SwitchOnce(r, b, c);
    var (k, u) := SwitchLeg(r, b, c);
    var back := if rev.IsXover() && !r[b].IsPeerHop(c) then rev.IncPath() else Some(rev);
    SwitchedNotPeer(r, b, c);
    ReplyEgressOnTrack(back.value, r, k, u);
  }

  lemma SwitchedNotPeer(legs: seq<Leg>, j: nat, t: nat)
    requires WellFormed(legs) && ValidPos(legs, j, t)
    ensures var (k, u) := SwitchLeg(legs, j, t);
            ValidPos(legs, k, u) && legs[k].IsPeerHop(u) == legs[j].IsPeerHop(t)
  {
  }

  // ----- Replies to slow-path requests -----------------------------------------------

  /** The reply as the next router on the way back sees it, when it leaves the AS. */
  ghost function ReplyOutside(net: Network, st: Transit, reply: Path): Option<Transit>
    requires st.router in net.routers
  {
    var x := (net.routers[st.router].localIA, st.ingress);
    if x in net.remote && net.remote[x] in net.owner
    then Some(Transit(net.owner[net.remote[x]], net.remote[x].1, reply, [], [])) else None
  }

  /** The reply is on the authorized path back to the source, wherever it goes next. */
  ghost predicate ReplyOnPath(net: Network, legs: seq<Leg>, st: Transit, path: Path)
    requires WellFormed(Back(legs)) && st.router in net.routers && path.Decoded()
  {
    var d := net.routers[st.router];
    var reply := ReplyPath(d, st.ingress, path);
    && reply.Some?
    && if st.ingress in d.external then
         var next := ReplyOutside(net, st, reply.value);
         next.Some? ==> OnPath(net, Back(legs), next.value)
       else
         forall r :: r in net.routers && net.routers[r].localIA == d.localIA ==>
           OnPath(net, Back(legs), Transit(r, 0, reply.value, [], []))
  }

  /** Which hop a slow-path request leaves the packet at: where it came in, or after a switch. */
  lemma SwitchBack(legs: seq<Leg>, j: nat, t: nat)
    requires WellFormed(legs) && WellFormed(Back(legs)) && ValidPos(legs, j, t)
    requires t > 0 || legs[j].IsPeerHop(t)
    ensures var r := Back(legs); var (b, c) := BackPos(legs, j, t); var (k, u) := SwitchLeg(legs, j, t);
            && ValidPos(r, b, c) && ValidPos(legs, k, u)
            && var (x, y) := BackPos(legs, k, u);
            ValidPos(r, x, y) && SwitchLeg(r, x, y) == (b, c) && SwitchLeg(r, b, c) == (b, c)
  {
    ReversedHop(legs[j], t);
    var (k, u) := SwitchLeg(legs, j, t);
    SwitchOnce(legs, j, t);
    ReversedHop(legs[k], u);
    hide Offset;
  }

  lemma ArrivesLater(path: Path, legs: seq<Leg>, j: nat, t: nat)
    requires WellFormed(legs) && OnTrack(path, legs, j, t, true)
    ensures ValidPos(legs, j, t) && (t > 0 || (j > 0 && legs[j].IsPeerHop(t)))
  {
  }

  /** From any hop but the first there is a hop before it. */
  lemma HopBefore(legs: seq<Leg>, j: nat, t: nat)
    requires WellFormed(legs) && WellFormed(Back(legs)) && ValidPos(legs, j, t) && (t > 0 || j > 0)
    ensures var (b, c) := BackPos(legs, j, t);
            ValidPos(Back(legs), b, c) && NextPos(Back(legs), b, c).0 < |legs|
  {
    ReversedHop(legs[j], t);
    hide Offset;
  }

  /** Once past the first checks, the packet came in on the interface its hop field names. */
  lemma IngressMatches(c: Ctx, path: Path)
    requires path.Decoded() && c.ingress != 0 && Process(c, path).SlowPath? && !Early(Process(c, path).cause)
    ensures path.currHf < |path.hops| && path.currInf < |path.infos|
    ensures var hop := path.hops[path.currHf];
            c.ingress == if path.infos[path.currInf].consDir then hop.consIngress else hop.consEgress
  {
    hide Outbound, Inbound;
    PrecheckKeeps(c, path);
  }

  lemma {:induction false} IngressOnBack(c: Ctx, path: Path, legs: seq<Leg>, j: nat, t: nat)
    requires WellFormed(legs) && OnTrack(path, legs, j, t, c.ingress != 0) && path.Decoded()
    requires c.ingress != 0 && Process(c, path).SlowPath? && !Early(Process(c, path).cause)
    ensures c.ingress == BackEgress(legs[j], t)
  {
    hide Process, HopsMatch;
    IngressMatches(c, path);
    HopAt(path, legs, j, t);
    ReversedHop(legs[j], t);
  }

  /** The hop, on the way back, where a reply to a request left at `q` starts. */
  lemma {:induction false} RequestPos(legs: seq<Leg>, q: Path, j: nat, t: nat)
    requires WellFormed(legs) && WellFormed(Back(legs)) && ValidPos(legs, j, t)
    requires ValidPos(legs, SwitchLeg(legs, j, t).0, SwitchLeg(legs, j, t).1)
    requires OnTrack(q, legs, j, t, false) || OnTrack(q, legs, SwitchLeg(legs, j, t).0, SwitchLeg(legs, j, t).1, false)
    ensures exists a: nat, z: nat :: ValidPos(legs, a, z) && OnTrack(q, legs, a, z, false)
              && ((a, z) == (j, t) || (a, z) == SwitchLeg(legs, j, t)) && legs[a].Local(z) == legs[j].Local(t)
  {
    hide WellFormed, OnTrack;
    LegsValid(legs);
    SwitchOnce(legs, j, t);
    var (k, u) := SwitchLeg(legs, j, t);
    if OnTrack(q, legs, j, t, false) {
      assert ValidPos(legs, j, t) && OnTrack(q, legs, j, t, false);
    } else {
      assert ValidPos(legs, k, u) && OnTrack(q, legs, k, u, false);
    }
  }

  lemma {:induction false} InsideReply(net: Network, legs: seq<Leg>, st: Transit, q: Path, a: nat, z: nat)
    requires WellFormed(legs) && WellFormed(Back(legs)) && ValidPos(legs, a, z) && OnTrack(q, legs, a, z, false)
    requires q.Decoded()
    requires st.router in net.routers && net.routers[st.router].localIA == legs[a].Local(z)
    requires st.ingress !in net.routers[st.router].external
    ensures ReplyOnPath(net, legs, st, q)
  {
    hide WellFormed, OnTrack, ReplyPath, TransitAt, OnPath, Offset, Present;
    LegsValid(legs);
    var r := Back(legs);
    LegsValid(r);
    var d := net.routers[st.router];
    ReplyOnTrack(d, st.ingress, q, legs, a, z);
    var (b, c) := BackPos(legs, a, z);
    ReversedHop(legs[a], z);
    SwitchOnce(r, b, c);
    var (k, u) := SwitchLeg(r, b, c);
    var reply := ReplyPath(d, st.ingress, q).value;
    TrackPos(reply, r, k, u, false);
    forall x | x in net.routers && net.routers[x].localIA == d.localIA
      ensures OnPath(net, r, Transit(x, 0, reply, [], []))
    {
      InsideAt(net, r, x, reply, k, u);
    }
  }

  lemma InsideAt(net: Network, legs: seq<Leg>, x: Addr, path: Path, k: nat, u: nat)
    requires WellFormed(legs) && AllValid(legs) && ValidPos(legs, k, u) && OnTrack(path, legs, k, u, false)
    requires x in net.routers && net.routers[x].localIA == legs[k].Local(u) && path.Decoded()
    ensures OnPath(net, legs, Transit(x, 0, path, [], []))
  {
    hide WellFormed, OnTrack;
    assert TransitAt(net, legs, Transit(x, 0, path, [], []), k, u);
  }

  /** A reply that leaves the AS arrives at the hop before, on the way back. */
  lemma {:induction false} OutsideReplyAt(net: Network, legs: seq<Leg>, st: Transit, q: Path, j: nat, t: nat, a: nat,
                                          z: nat)
    requires WellFormed(legs) && WellFormed(Back(legs)) && Linked(net, Back(legs)) && Consistent(net)
    requires ValidPos(legs, j, t) && (t > 0 || (j > 0 && legs[j].IsPeerHop(t)))
    requires ValidPos(legs, a, z) && ((a, z) == (j, t) || (a, z) == SwitchLeg(legs, j, t))
    requires OnTrack(q, legs, a, z, false) && q.Decoded()
    requires st.router in net.routers && net.routers[st.router].localIA == legs[j].Local(t)
    requires st.ingress in net.routers[st.router].external
    requires st.ingress == BackEgress(legs[j], t)
    ensures var r := Back(legs); var (b, c) := BackPos(legs, j, t);
      && ValidPos(r, b, c) && SwitchLeg(r, b, c) == (b, c) && NextPos(r, b, c).0 < |r|
      && r[b].Local(c) == legs[j].Local(t) && st.ingress == EgressOf(r[b], c)
      && var (m, w) := NextPos(r, b, c); var reply := ReplyPath(net.routers[st.router], st.ingress, q);
      && reply.Some? && ValidPos(r, m, w)
      && var next := ReplyOutside(net, st, reply.value);
      next.Some? ==> TransitAt(net, r, next.value, m, w)
  {
    hide WellFormed, OnTrack, ReplyPath, Linked, Consistent, EgressOf;
    LegsValid(legs);
    var r := Back(legs);
    LegsValid(r);
    SwitchBack(legs, j, t);
    HopBefore(legs, j, t);
    ReversedHop(legs[j], t);
    var d := net.routers[st.router];
    ReplyOnTrack(d, st.ingress, q, legs, a, z);
    var (b, c) := BackPos(legs, j, t);
    var reply := ReplyPath(d, st.ingress, q).value;
    var next := ReplyOutside(net, st, reply);
    if next.Some? { ArriveOnTrack(net, r, st.router, next.value, b, c); }
  }

  lemma {:induction false} OutsideReply(net: Network, legs: seq<Leg>, st: Transit, q: Path, j: nat, t: nat, a: nat,
                                        z: nat)
    requires WellFormed(legs) && WellFormed(Back(legs)) && Linked(net, Back(legs)) && Consistent(net)
    requires ValidPos(legs, j, t) && (t > 0 || (j > 0 && legs[j].IsPeerHop(t)))
    requires ValidPos(legs, a, z) && ((a, z) == (j, t) || (a, z) == SwitchLeg(legs, j, t))
    requires OnTrack(q, legs, a, z, false) && q.Decoded()
    requires st.router in net.routers && net.routers[st.router].localIA == legs[j].Local(t)
    requires st.ingress in net.routers[st.router].external
    requires st.ingress == BackEgress(legs[j], t)
    ensures ReplyOnPath(net, legs, st, q)
  {
    hide WellFormed, OnTrack, ReplyPath, Linked, Consistent, EgressOf, TransitAt, ReplyOutside;
    OutsideReplyAt(net, legs, st, q, j, t, a, z);
  }

  /**
   Whenever a router on an authorized path asks for a slow-path answer, at whatever stage,
   the reply is on an authorized path too.  Only requests about packets from outside must
   come after the ingress SegID update.
   */
  lemma {:induction false} ReplyAuthorized(net: Network, keys: Keys, hdr: Header, env: Env, legs: seq<Leg>,
                                           st: Transit, j: nat, t: nat)
    requires WellFormed(legs) && AllBuilt(keys, legs) && Consistent(net) && Keyed(net, keys)
    requires WellFormed(Back(legs)) && Linked(net, Back(legs))
    requires ValidPos(legs, j, t) && TransitAt(net, legs, st, j, t)
    requires st.ingress != 0 <==> st.ingress in net.routers[st.router].external
    requires var v := VerdictAt(net, hdr, env, st); v.SlowPath? && (Early(v.cause) ==> st.ingress == 0)
    ensures var v := VerdictAt(net, hdr, env, st); v.path.Decoded() && ReplyOnPath(net, legs, st, v.path)
  {
    hide WellFormed, AllBuilt, OnTrack, Process, Linked, Consistent, ReplyOnPath;
    LegsValid(legs);
    var c := Ctx(net.routers[st.router], hdr, env, st.ingress);
    var q := Process(c, st.path).path;
    ProcessOnTrack(keys, c, st.path, legs, j, t);
    ProcessKeeps(c, st.path);
    RequestPos(legs, q, j, t);
    var a: nat, z: nat :| ValidPos(legs, a, z) && OnTrack(q, legs, a, z, false)
              && ((a, z) == (j, t) || (a, z) == SwitchLeg(legs, j, t)) && legs[a].Local(z) == legs[j].Local(t);
    if st.ingress == 0 {
      InsideReply(net, legs, st, q, a, z);
    } else {
      ArrivesLater(st.path, legs, j, t);
      IngressOnBack(c, st.path, legs, j, t);
      OutsideReply(net, legs, st, q, j, t, a, z);
    }
  }

  /** The reply to a request about `st` as some router first gets it. */
  ghost predicate Replied(net: Network, st: Transit, path: Path, first: Transit)
    requires st.router in net.routers && path.Decoded()
  {
    var d := net.routers[st.router];
    var reply := ReplyPath(d, st.ingress, path);
    && reply.Some?
    && if st.ingress in d.external then ReplyOutside(net, st, reply.value) == Some(first)
       else
         && first == Transit(first.router, 0, reply.value, [], [])
         && first.router in net.routers && net.routers[first.router].localIA == d.localIA
  }

  lemma RepliedOnPath(net: Network, legs: seq<Leg>, st: Transit, path: Path, first: Transit)
    requires WellFormed(Back(legs)) && st.router in net.routers && path.Decoded()
    requires ReplyOnPath(net, legs, st, path) && Replied(net, st, path, first)
    ensures OnPath(net, Back(legs), first)
  {
    hide WellFormed, OnPath, ReplyPath;
  }

  /**
   End to end: a packet sent on an authorized path comes, in any run, to a router that asks
   for a slow-path answer.  In every run of the reply no router reports a MAC failure.
   */
  lemma {:induction false} ReplyVerifies(net: Network, keys: Keys, hdr: Header, envs: seq<Env>, states: seq<Transit>,
                                         legs: seq<Leg>, env: Env,
                                         back: Header, backEnvs: seq<Env>, backStates: seq<Transit>)
    requires WellFormed(legs) && AllBuilt(keys, legs) && Linked(net, legs)
    requires WellFormed(Back(legs)) && Linked(net, Back(legs)) && Consistent(net) && Keyed(net, keys)
    requires IsRun(net, hdr, envs, states) && Injected(net, states[0])
    requires states[0].path == ForwardingPath(legs) && net.routers[states[0].router].localIA == legs[0].Local(0)
    requires var st := states[|states| - 1];
      && Present(net, st) && (st.ingress != 0 <==> st.ingress in net.routers[st.router].external)
      && var v := VerdictAt(net, hdr, env, st);
      v.SlowPath? && (Early(v.cause) ==> st.ingress == 0)
    requires IsRun(net, back, backEnvs, backStates)
    requires var st := states[|states| - 1]; var v := VerdictAt(net, hdr, env, st);
      v.path.Decoded() && Replied(net, st, v.path, backStates[0])
    ensures forall i :: 0 <= i < |backStates| ==> MacsVerify(net, back, backStates[i])
  {
    StartOnTrack(keys, legs);
    hide WellFormed, AllBuilt, Linked, Consistent, OnTrack, Step, Keyed, MacsVerify, ReplyOnPath, Replied, Process,
      OnPath;
    StartOnPath(net, legs, states[0]);
    RunOnPath(net, keys, hdr, envs, states, legs, |states| - 1);
    var st := states[|states| - 1];
    var j, t := OnPathAt(net, legs, st);
    ReplyAuthorized(net, keys, hdr, env, legs, st, j, t);
    RepliedOnPath(net, legs, st, VerdictAt(net, hdr, env, st).path, backStates[0]);
    BackBuilt(keys, legs);
    forall i | 0 <= i < |backStates| ensures MacsVerify(net, back, backStates[i]) {
      RunOnPath(net, keys, back, backEnvs, backStates, Back(legs), i);
    }
  }

  lemma StartOnPath(net: Network, legs: seq<Leg>, st: Transit)
    requires WellFormed(legs) && Injected(net, st) && OnTrack(st.path, legs, 0, 0, false)
    requires net.routers[st.router].localIA == legs[0].Local(0)
    ensures OnPath(net, legs, st)
  {
    hide OnTrack, WellFormed;
    LegsValid(legs);
    TrackPos(st.path, legs, 0, 0, false);
    assert TransitAt(net, legs, st, 0, 0);
  }

  lemma OnPathAt(net: Network, legs: seq<Leg>, st: Transit) returns (j: nat, t: nat)
    requires WellFormed(legs) && OnPath(net, legs, st)
    ensures AllValid(legs) && ValidPos(legs, j, t) && TransitAt(net, legs, st, j, t)
  {
    hide TransitAt;
    j, t :| ValidPos(legs, j, t) && TransitAt(net, legs, st, j, t);
  }
}
