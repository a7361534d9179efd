/** Turning path segments into a forwarding path, as the path combinator does. */
module Combinator {
  import opened Basics
  import opened ScionPath
  import opened Segments

  /**
   The part of a segment used in a path: the entries from `shortcut` to the end, in
   construction direction (down) or against it (up, core).  `peer` is the index plus one of
   the peer entry used at the shortcut, 0 if the path does not leave over a peer link.
   */
  datatype Leg = Leg(seg: Segment, shortcut: nat, peer: nat, consDir: bool) {

    predicate Valid() {
      shortcut < |seg.entries| && peer <= |seg.entries[shortcut].peers|
    }

    function Len(): nat
      requires Valid()
    {
      |seg.entries| - shortcut
    }

    /** The segment entry behind the hop at position `t` of the leg. */
    function Index(t: nat): nat
      requires Valid() && t < Len()
    {
      if consDir then shortcut + t else |seg.entries| - 1 - t
    }

    predicate IsPeerHop(t: nat)
      requires Valid() && t < Len()
    {
      peer != 0 && Index(t) == shortcut
    }

    function Hop(t: nat): HopField
      requires Valid() && t < Len()
    {
      if IsPeerHop(t) then seg.entries[shortcut].peers[peer - 1].hop else seg.entries[Index(t)].hop
    }

    function Local(t: nat): IA
      requires Valid() && t < Len()
    {
      seg.entries[Index(t)].local
    }

    /** The accumulator the extender used for the hop at position `t`. */
    function Beta(t: nat): Word16
      requires Valid() && t < Len()
    {
      if IsPeerHop(t) then BetaAt(seg, shortcut + 1) else BetaAt(seg, Index(t))
    }

    function Info(segId: Word16): InfoField { InfoField(peer != 0, consDir, segId, seg.timestamp) }

    /** The same hops traversed the other way. */
    function Reversed(): Leg { this.(consDir := !consDir) }
  }

  function LegHops(leg: Leg): seq<HopField>
    requires leg.Valid()
  {
    seq(leg.Len(), t requires 0 <= t < leg.Len() => leg.Hop(t))
  }

  /** The SegID a path starts the leg with is the accumulator of the first hop traversed. */
  method CalculateBeta(leg: Leg) returns (beta: Word16)
    requires leg.Valid()
    ensures beta == leg.Beta(0)
  {
    var index: nat;
    if leg.consDir {
      index := leg.shortcut;
      if leg.peer != 0 { index := index + 1; }
    } else {
      index := |leg.seg.entries| - 1;
      if index == leg.shortcut && leg.peer != 0 { index := index + 1; }
    }
    beta := leg.seg.segId;
    for i := 0 to index
      invariant beta == BetaAt(leg.seg, i)
    {
      beta := beta.Xor(leg.seg.entries[i].hop.mac.sigma);
    }
  }

  /** The hop fields are collected from the end of the segment and reversed for down segments. */
  method CollectHops(leg: Leg) returns (hops: seq<HopField>)
    requires leg.Valid()
    ensures hops == LegHops(leg)
  {
    var entries := leg.seg.entries;
    var up := leg.(consDir := false);
    hops := [];
    var i := |entries|;
    while i > leg.shortcut
      invariant leg.shortcut <= i <= |entries|
      invariant |hops| == |entries| - i
      invariant forall t :: 0 <= t < |hops| ==> hops[t] == up.Hop(t)
    {
      i := i - 1;
      var isPeer := i == leg.shortcut && leg.peer != 0;
      var hop := if isPeer then entries[i].peers[leg.peer - 1].hop else entries[i].hop;
      hops := hops + [hop];
    }
    if leg.consDir {
      ghost var collected := hops;
      var n := |hops|;
      hops := seq(n, t requires 0 <= t < n => hops[n - 1 - t]);
      assert forall t :: 0 <= t < n ==> leg.Hop(t) == up.Hop(n - 1 - t);
    }
  }

  /** Number of hop fields in the first `j` legs. */
  function Offset(legs: seq<Leg>, j: nat): nat
    requires j <= |legs| && forall i :: 0 <= i < |legs| ==> legs[i].Valid()
  {
    if j == 0 then 0 else Offset(legs, j - 1) + legs[j - 1].Len()
  }

  function AllHops(legs: seq<Leg>, j: nat): (r: seq<HopField>)
    requires j <= |legs| && forall i :: 0 <= i < |legs| ==> legs[i].Valid()
    ensures |r| == Offset(legs, j)
  {
    if j == 0 then [] else AllHops(legs, j - 1) + LegHops(legs[j - 1])
  }

  /** The forwarding path handed to the source host. */
  function ForwardingPath(legs: seq<Leg>): Path
    requires 1 <= |legs| <= 3 && forall i :: 0 <= i < |legs| ==> legs[i].Valid()
  {
    Path(0, 0, legs[0].Len(),
         if |legs| > 1 then legs[1].Len() else 0,
         if |legs| > 2 then legs[2].Len() else 0,
         seq(|legs|, i requires 0 <= i < |legs| => legs[i].Info(legs[i].Beta(0))),
         AllHops(legs, |legs|))
  }
}
