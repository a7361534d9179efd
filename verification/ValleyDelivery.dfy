/**
 Which paths get through: an up leg, a core leg and a down leg, in this order and each at most
 once, or an up and a down leg over a peer link.
 */
module ValleyDelivery {
  import opened Basics
  import opened ScionPath
  import opened Segments
  import opened Combinator
  import opened Router
  import opened PathAuthorization
  import opened Network
  import opened RouterProgress
  import opened Delivery
  import opened ValleyFree
  import AuthorizedRuns

  /** The routers of an AS agree that its interface `i` is on a link of this type. */
  ghost predicate HasType(net: Network, ia: IA, i: IfId, t: LinkType) {
    forall r :: r in net.routers && net.routers[r].localIA == ia ==> net.routers[r].TypeOf(i) == t
  }

  /** Every link inside the leg has this type at its sending end. */
  ghost predicate LegOver(net: Network, leg: Leg, kind: LinkType)
    requires leg.Valid()
  {
    forall t: nat :: t + 1 < leg.Len() ==> HasType(net, leg.Local(t), EgressOf(leg, t), kind)
  }

  /** Up before core before down. */
  predicate InOrder(kinds: seq<LinkType>) {
    || kinds == [Parent] || kinds == [Core] || kinds == [Child] || kinds == [Parent, Core] || kinds == [Core, Child]
    || kinds == [Parent, Child] || kinds == [Parent, Core, Child]
  }

  ghost predicate AllOver(net: Network, legs: seq<Leg>, kinds: seq<LinkType>)
    requires AllValid(legs) && |kinds| == |legs|
  {
    forall j :: 0 <= j < |legs| ==> LegOver(net, legs[j], kinds[j])
  }

  ghost predicate UpCoreDown(net: Network, legs: seq<Leg>, kinds: seq<LinkType>)
    requires WellFormed(legs)
  {
    && |kinds| == |legs| && InOrder(kinds) && AllOver(net, legs, kinds)
    && (PeeringLegs(legs) ==>
          && kinds == [Parent, Child]
          && HasType(net, legs[0].Local(legs[0].Len() - 1), EgressOf(legs[0], legs[0].Len() - 1), Peer))
  }

  /** The type of the link behind an interface that a link of the path leads to. */
  lemma OtherEnd(net: Network, legs: seq<Leg>, j: nat, t: nat, kind: LinkType, r: Addr)
    requires AllValid(legs) && ValidPos(legs, j, t) && NextPos(legs, j, t).0 < |legs| && Joins(net, legs, j, t)
    requires Consistent(net) && HasType(net, legs[j].Local(t), EgressOf(legs[j], t), kind)
    requires var (m, w) := NextPos(legs, j, t);
      ValidPos(legs, m, w) && r in net.routers && net.routers[r].localIA == legs[m].Local(w)
    ensures var (m, w) := NextPos(legs, j, t);
      net.routers[r].TypeOf(IngressOf(legs[m], w))
      == match kind case Parent => Child case Child => Parent case _ => kind
  {
    var x := (legs[j].Local(t), EgressOf(legs[j], t));
    var s, o := net.owner[x], net.owner[net.remote[x]];
    assert s in net.routers && net.routers[s].localIA == x.0;
    assert net.routers[o].localIA == net.remote[x].0;
    assert net.routers[o].linkTypes == net.routers[r].linkTypes;
  }

  /** The type by which the path comes in inside a leg. */
  lemma {:induction false} TypeInLeg(net: Network, legs: seq<Leg>, kinds: seq<LinkType>, j: nat, t: nat, r: Addr)
    requires WellFormed(legs) && Consistent(net) && Connected(net, legs) && UpCoreDown(net, legs, kinds)
    requires ValidPos(legs, j, t) && t > 0 && r in net.routers && net.routers[r].localIA == legs[j].Local(t)
    ensures net.routers[r].TypeOf(IngressOf(legs[j], t)) ==
            match kinds[j] case Parent => Child case Child => Parent case k => k
  {
    hide Consistent, WellFormed, HasType, Joins, EgressOf, IngressOf;
    LegsValid(legs);
    assert LegOver(net, legs[j], kinds[j]);
    assert Joins(net, legs, j, t - 1);
    OtherEnd(net, legs, j, t - 1, kinds[j], r);
  }

  /** The type by which it comes in over the peer link. */
  lemma {:induction false} TypeInPeer(net: Network, legs: seq<Leg>, kinds: seq<LinkType>, r: Addr)
    requires WellFormed(legs) && PeeringLegs(legs)
    requires Consistent(net) && Connected(net, legs) && UpCoreDown(net, legs, kinds)
    requires r in net.routers && net.routers[r].localIA == legs[1].Local(0)
    ensures net.routers[r].TypeOf(IngressOf(legs[1], 0)) == Peer
  {
    var n := legs[0].Len() - 1;
    hide Consistent, WellFormed, AllOver, Joins, EgressOf, IngressOf;
    LegsValid(legs);
    assert legs[0].IsPeerHop(n);
    assert Joins(net, legs, 0, n);
    OtherEnd(net, legs, 0, n, Peer, r);
  }

  /** The type by which the path comes in at a hop that is not the first of the path. */
  lemma {:induction false} TypeIn(net: Network, legs: seq<Leg>, kinds: seq<LinkType>, j: nat, t: nat, r: Addr)
    requires WellFormed(legs) && Consistent(net) && Connected(net, legs) && UpCoreDown(net, legs, kinds)
    requires ValidPos(legs, j, t) && (t > 0 || (j > 0 && legs[j].IsPeerHop(t)))
    requires r in net.routers && net.routers[r].localIA == legs[j].Local(t)
    ensures net.routers[r].TypeOf(IngressOf(legs[j], t)) ==
            if t == 0 then Peer else match kinds[j] case Parent => Child case Child => Parent case k => k
  {
    LegLengths(legs);
    hide Consistent, WellFormed, Connected, UpCoreDown, IngressOf;
    if t > 0 { TypeInLeg(net, legs, kinds, j, t, r); } else { TypeInPeer(net, legs, kinds, r); }
  }

  /** The type by which it goes out at a hop that has a next one. */
  lemma {:induction false} TypeOut(net: Network, legs: seq<Leg>, kinds: seq<LinkType>, k: nat, u: nat, r: Addr)
    requires WellFormed(legs) && UpCoreDown(net, legs, kinds) && ValidPos(legs, k, u)
    requires SwitchLeg(legs, k, u) == (k, u) && !IsLast(legs, k, u)
    requires r in net.routers && net.routers[r].localIA == legs[k].Local(u)
    ensures net.routers[r].TypeOf(EgressOf(legs[k], u)) == if u + 1 < legs[k].Len() then kinds[k] else Peer
    ensures u + 1 == legs[k].Len() ==> k == 0 && legs[0].peer != 0
  {
    hide FitsHeader;
    LegsValid(legs);
    if u + 1 < legs[k].Len() { assert LegOver(net, legs[k], kinds[k]); }
  }

  /** Legs in order make every crossing an allowed one. */
  lemma {:induction false} OrderPermits(net: Network, legs: seq<Leg>, kinds: seq<LinkType>)
    requires WellFormed(legs) && Consistent(net) && Connected(net, legs) && UpCoreDown(net, legs, kinds)
    ensures Permitted(net, legs)
  {
    hide Consistent, FitsHeader, Connected, AllOver;
    LegsValid(legs);
    forall j: nat, t: nat, r |
      (&& ValidPos(legs, j, t) && (t > 0 || (j > 0 && legs[j].IsPeerHop(t))) && !IsLast(legs, j, t)
       && r in net.routers && net.routers[r].localIA == legs[j].Local(t))
      ensures ValidPos(legs, SwitchLeg(legs, j, t).0, SwitchLeg(legs, j, t).1)
      ensures PairAllowed(net.routers[r], legs, j, t)
    {
      SwitchOnce(legs, j, t);
      NextExists(legs, j, t);
      TypeIn(net, legs, kinds, j, t, r);
      TypeOut(net, legs, kinds, SwitchLeg(legs, j, t).0, SwitchLeg(legs, j, t).1, r);
      LegLengths(legs);
    }
  }

  lemma LegLengths(legs: seq<Leg>)
    requires WellFormed(legs)
    ensures AllValid(legs)
    ensures PeeringLegs(legs) || forall i :: 0 <= i < |legs| ==> legs[i].Len() >= 2 && legs[i].peer == 0
  {
  }

  /**
   A packet on a path of this form is delivered whenever nothing is in the way, over links that
   go up, then over core links or one peer link, then down.
   */
  lemma {:induction false} ValleyDelivered(net: Network, keys: Keys, hdr: Header, legs: seq<Leg>, kinds: seq<LinkType>,
                                           weather: nat -> Env, st: Transit)
    returns (envs: seq<Env>, states: seq<Transit>)
    requires WellFormed(legs) && AllBuilt(keys, legs) && UpCoreDown(net, legs, kinds)
    requires Consistent(net) && AuthorizedRuns.Keyed(net, keys) && Complete(net) && Connected(net, legs)
    requires Addressed(hdr, legs, 0) && Sent(net, legs, st) && forall i :: Smooth(legs, weather(i))
    ensures Delivers(net, hdr, weather, 0, st, st.router, envs, states)
    ensures envs == [] || |envs| <= 2 * st.path.NumHops() - 2
    ensures UpAcrossDown(states[|envs|].crossed)
  {
    OrderPermits(net, legs, kinds);
    hide WellFormed, AllBuilt, Consistent, Complete, Connected, Permitted, Addressed, Smooth, UpCoreDown, Step, Process,
      UpAcrossDown, At;
    envs, states := PacketDelivered(net, keys, hdr, legs, weather, st);
    ForwardingIsValleyFree(net, hdr, envs, states, |envs|);
  }
}
