/**
 The MPLS labels of FABRID policies: the control service packs the fields of a connection
 into integer keys, and the router looks labels up by packing the same fields again.
 */
module MplsMaps {
  import opened Basics

  /** A network prefix or an address, as its leading bits. */
  datatype Bits = Bits(v6: bool, bits: seq<bool>)

  predicate Contains(prefix: Bits, ip: Bits) {
    prefix.v6 == ip.v6 && |prefix.bits| <= |ip.bits| && ip.bits[..|prefix.bits|] == prefix.bits
  }

  datatype Endpoint = Wildcard | Interface(id: IfId) | IpRange(prefix: Bits)

  datatype Range = Range(prefix: Bits, mpls: nat)

  /** One call to add a connection. */
  datatype Insertion = Insertion(ingress: Endpoint, egress: Endpoint, mpls: nat, idx: Byte)

  // ----- The abstract table: the insertions themselves ---------------------------------

  /** The interface a connection comes in on; None is any. */
  function IngressOf(x: Insertion): Option<IfId> { if x.ingress.Interface? then Some(x.ingress.id) else None }

  /** The interface a connection leaves on; "any" is the same as interface 0. */
  function EgressOf(x: Insertion): IfId { if x.egress.Interface? then x.egress.id else 0 }

  predicate ForInterface(x: Insertion, ingress: Option<IfId>, egress: IfId, idx: Byte) {
    x.mpls != 0 && !x.egress.IpRange? && x.idx == idx && IngressOf(x) == ingress && EgressOf(x) == egress
  }

  predicate ForRange(x: Insertion, ingress: Option<IfId>, idx: Byte) {
    x.mpls != 0 && x.egress.IpRange? && x.idx == idx && IngressOf(x) == ingress
  }

  /** The label inserted last for an interface pair. */
  function LastLabel(log: seq<Insertion>, ingress: Option<IfId>, egress: IfId, idx: Byte): Option<nat> {
    if log == [] then None
    else
      var x := log[|log| - 1];
      if ForInterface(x, ingress, egress, idx) then Some(x.mpls) else LastLabel(log[..|log| - 1], ingress, egress, idx)
  }

  /** The IP ranges inserted for an ingress interface, in order. */
  function Ranges(log: seq<Insertion>, ingress: Option<IfId>, idx: Byte): seq<Range> {
    if log == [] then []
    else
      var x := log[|log| - 1];
      var init := Ranges(log[..|log| - 1], ingress, idx);
      if ForRange(x, ingress, idx) then init + [Range(x.egress.prefix, x.mpls)] else init
  }

  // ----- The packed keys ---------------------------------------------------------------

  /** Key into the interface map; a 64-bit integer. */
  function InterfaceKey(ingress: Option<IfId>, egress: IfId, idx: Byte): (k: nat)
    ensures k < 0x1_0000_0000_0000_0000
  {
    (if ingress.Some? then ingress.value * 0x100_0000 else 0x8000_0000_0000_0000) + egress * 0x100 + idx
  }

  /** Key into the map of IP ranges; a 32-bit integer. */
  function RangeKey(ingress: Option<IfId>, idx: Byte): (k: nat)
    ensures k < 0x1_0000_0000
  {
    (if ingress.Some? then ingress.value * 0x100 else 0x8000_0000) + idx
  }

  /** No two combinations share a key: exact and wildcard keys never meet, nothing overflows. */
  lemma InterfaceKeyInjective(i: Option<IfId>, e: IfId, p: Byte, j: Option<IfId>, f: IfId, q: Byte)
    requires InterfaceKey(i, e, p) == InterfaceKey(j, f, q)
    ensures i == j && e == f && p == q
  {
  }

  lemma RangeKeyInjective(i: Option<IfId>, p: Byte, j: Option<IfId>, q: Byte)
    requires RangeKey(i, p) == RangeKey(j, q)
    ensures i == j && p == q
  {
  }

  type InterfaceMap = map<nat, nat>
  type RangeMap = map<nat, seq<Range>>

  function Find<V>(m: map<nat, V>, k: nat): Option<V> { if k in m then Some(m[k]) else None }

  /** The packed maps hold exactly the abstract table. */
  ghost predicate Represents(log: seq<Insertion>, ifs: InterfaceMap, ips: RangeMap) {
    && (forall i: Option<IfId>, e: IfId, p: Byte :: Find(ifs, InterfaceKey(i, e, p)) == LastLabel(log, i, e, p))
    && (forall i: Option<IfId>, p: Byte ::
          Find(ips, RangeKey(i, p)) == if Ranges(log, i, p) == [] then None else Some(Ranges(log, i, p)))
  }

  class MplsMaps {
    var ips: RangeMap
    var ifs: InterfaceMap
    ghost var log: seq<Insertion>

    constructor ()
      ensures Valid() && log == []
    {
      ips, ifs, log := map[], map[], [];
    }

    ghost predicate Valid()
      reads this
    {
      Represents(log, ifs, ips)
    }

    /** Whatever was inserted before, the maps go on to hold exactly the insertions. */
    method AddConnectionPoint(ingress: Endpoint, egress: Endpoint, mpls: nat, idx: Byte)
      requires Valid()
      modifies this
      ensures Valid() && log == old(log) + [Insertion(ingress, egress, mpls, idx)]
    {
      hide Represents, InterfaceKey, RangeKey;
      ghost var x := Insertion(ingress, egress, mpls, idx);
      log := log + [x];
      if mpls == 0 {
        AddNothing(old(log), ifs, ips, x);
        return;
      }
      if egress.IpRange? {
        var key := RangeKey(None, idx);
        if ingress.Interface? { key := RangeKey(Some(ingress.id), idx); }
        var before := if key in ips then ips[key] else [];
        AddRange(old(log), ifs, ips, x);
        ips := ips[key := before + [Range(egress.prefix, mpls)]];
      } else {
        var egIf: IfId := 0;
        if egress.Interface? { egIf := egress.id; }
        var key := InterfaceKey(None, egIf, idx);
        if ingress.Interface? { key := InterfaceKey(Some(ingress.id), egIf, idx); }
        AddInterface(old(log), ifs, ips, x);
        ifs := ifs[key := mpls];
      }
    }
  }

  lemma AddNothing(log: seq<Insertion>, ifs: InterfaceMap, ips: RangeMap, x: Insertion)
    requires Represents(log, ifs, ips) && x.mpls == 0
    ensures Represents(log + [x], ifs, ips)
  {
    assert (log + [x])[..|log|] == log;
  }

  lemma AddInterface(log: seq<Insertion>, ifs: InterfaceMap, ips: RangeMap, x: Insertion)
    requires Represents(log, ifs, ips) && x.mpls != 0 && !x.egress.IpRange?
    ensures Represents(log + [x], ifs[InterfaceKey(IngressOf(x), EgressOf(x), x.idx) := x.mpls], ips)
  {
    hide InterfaceKey, RangeKey;
    assert (log + [x])[..|log|] == log;
    var key := InterfaceKey(IngressOf(x), EgressOf(x), x.idx);
    forall i: Option<IfId>, e: IfId, p: Byte
      ensures Find(ifs[key := x.mpls], InterfaceKey(i, e, p)) == LastLabel(log + [x], i, e, p)
    {
      if InterfaceKey(i, e, p) == key { InterfaceKeyInjective(i, e, p, IngressOf(x), EgressOf(x), x.idx); }
    }
  }

  lemma AddRange(log: seq<Insertion>, ifs: InterfaceMap, ips: RangeMap, x: Insertion)
    requires Represents(log, ifs, ips) && x.mpls != 0 && x.egress.IpRange?
    ensures var key := RangeKey(IngressOf(x), x.idx);
      Represents(log + [x], ifs, ips[key := (if key in ips then ips[key] else []) + [Range(x.egress.prefix, x.mpls)]])
  {
    hide InterfaceKey, RangeKey;
    assert (log + [x])[..|log|] == log;
    var key := RangeKey(IngressOf(x), x.idx);
    var after := ips[key := (if key in ips then ips[key] else []) + [Range(x.egress.prefix, x.mpls)]];
    forall i: Option<IfId>, p: Byte
      ensures Find(after, RangeKey(i, p)) ==
        if Ranges(log + [x], i, p) == [] then None else Some(Ranges(log + [x], i, p))
    {
      assert Find(ips, RangeKey(i, p)) == if Ranges(log, i, p) == [] then None else Some(Ranges(log, i, p));
      if RangeKey(i, p) == key { RangeKeyInjective(i, p, IngressOf(x), x.idx); }
    }
  }

  // ----- The router's lookups ----------------------------------------------------------

  /** The label for a pair of interfaces: exact ingress first, any ingress otherwise. */
  function InterfaceLabel(log: seq<Insertion>, ingress: IfId, egress: IfId, idx: Byte): Option<nat> {
    var exact := LastLabel(log, Some(ingress), egress, idx);
    if exact.Some? then exact else LastLabel(log, None, egress, idx)
  }

  method LabelForInterface(ghost log: seq<Insertion>, ifs: InterfaceMap, ghost ips: RangeMap,
                           ingress: IfId, idx: Byte, egress: IfId) returns (mpls: Option<nat>)
    requires Represents(log, ifs, ips)
    ensures mpls == InterfaceLabel(log, ingress, egress, idx)
  {
    assert Find(ifs, InterfaceKey(Some(ingress), egress, idx)) == LastLabel(log, Some(ingress), egress, idx);
    assert Find(ifs, InterfaceKey(None, egress, idx)) == LastLabel(log, None, egress, idx);
    var key := ingress * 0x100_0000 + egress * 0x100 + idx;
    if key !in ifs {
      key := 0x8000_0000_0000_0000 + egress * 0x100 + idx;
      if key !in ifs { return None; }
    }
    return Some(ifs[key]);
  }

  /** The ranges searched: those for the exact ingress if there are any, and only those. */
  function SearchedRanges(log: seq<Insertion>, ingress: IfId, idx: Byte): seq<Range> {
    if Ranges(log, Some(ingress), idx) != [] then Ranges(log, Some(ingress), idx) else Ranges(log, None, idx)
  }

  /** Range `k` is the longest prefix of the address, and the first inserted for that prefix. */
  ghost predicate LongestMatch(rs: seq<Range>, ip: Bits, k: nat) {
    && k < |rs| && Contains(rs[k].prefix, ip)
    && (forall j :: 0 <= j < |rs| && Contains(rs[j].prefix, ip) ==> |rs[j].prefix.bits| <= |rs[k].prefix.bits|)
    && (forall j :: 0 <= j < k ==> rs[j].prefix != rs[k].prefix)
  }

  lemma SamePrefix(a: Bits, b: Bits, ip: Bits)
    requires Contains(a, ip) && Contains(b, ip) && |a.bits| == |b.bits|
    ensures a == b
  {
  }

  method LabelForAddress(ghost log: seq<Insertion>, ghost ifs: InterfaceMap, ips: RangeMap,
                         ingress: IfId, idx: Byte, nextHop: Bits) returns (mpls: Option<nat>)
    requires Represents(log, ifs, ips)
    ensures mpls.None? <==> forall r :: r in SearchedRanges(log, ingress, idx) ==> !Contains(r.prefix, nextHop)
    ensures mpls.Some? ==> exists k: nat :: LongestMatch(SearchedRanges(log, ingress, idx), nextHop, k)
                                          && mpls.value == SearchedRanges(log, ingress, idx)[k].mpls
  {
    ghost var exact, any := Ranges(log, Some(ingress), idx), Ranges(log, None, idx);
    assert Find(ips, RangeKey(Some(ingress), idx)) == if exact == [] then None else Some(exact);
    assert Find(ips, RangeKey(None, idx)) == if any == [] then None else Some(any);
    var key := ingress * 0x100 + idx;
    if key !in ips {
      key := 0x8000_0000 + idx;
      if key !in ips { return None; }
    }
    mpls := BestRange(ips[key], nextHop);
  }

  method BestRange(rs: seq<Range>, ip: Bits) returns (mpls: Option<nat>)
    ensures mpls.None? <==> forall r :: r in rs ==> !Contains(r.prefix, ip)
    ensures mpls.Some? ==> exists k: nat :: LongestMatch(rs, ip, k) && mpls.value == rs[k].mpls
  {
    var best: Option<nat> := None;
    for i := 0 to |rs|
      invariant best.None? ==> forall j :: 0 <= j < i ==> !Contains(rs[j].prefix, ip)
      invariant best.Some? ==>
        && best.value < i && Contains(rs[best.value].prefix, ip)
        && (forall j :: 0 <= j < i && Contains(rs[j].prefix, ip) ==>
              |rs[j].prefix.bits| <= |rs[best.value].prefix.bits|)
        && (forall j :: 0 <= j < best.value ==> rs[j].prefix != rs[best.value].prefix)
    {
      if Contains(rs[i].prefix, ip) {
        if best.None? {
          best := Some(i);
        } else if |rs[i].prefix.bits| > |rs[best.value].prefix.bits| {
          best := Some(i);
        }
      }
    }
    if best.None? { return None; }
    assert LongestMatch(rs, ip, best.value);
    return Some(rs[best.value].mpls);
  }

  /** Among the ranges of equal prefix the first inserted wins; for interface pairs the last one does. */
  lemma LongestMatchUnique(rs: seq<Range>, ip: Bits, j: nat, k: nat)
    requires LongestMatch(rs, ip, j) && LongestMatch(rs, ip, k)
    ensures j == k
  {
    SamePrefix(rs[j].prefix, rs[k].prefix, ip);
  }

  /** The address begins with the bits of the prefix. */
  ghost predicate Begins(ip: Bits, prefix: Bits) {
    prefix.v6 == ip.v6 && exists rest: seq<bool> :: ip.bits == prefix.bits + rest
  }

  lemma BeginsIff(ip: Bits, prefix: Bits)
    ensures Contains(prefix, ip) <==> Begins(ip, prefix)
  {
    if Contains(prefix, ip) { assert ip.bits == prefix.bits + ip.bits[|prefix.bits|..]; }
  }

  /** A range behind the others takes an address over only if its prefix is longer than what was found. */
  lemma RangeBehind(rs: seq<Range>, ip: Bits, r: Range, k: nat)
    ensures LongestMatch(rs, ip, k) ==>
      LongestMatch(rs + [r], ip, if Begins(ip, r.prefix) && |r.prefix.bits| > |rs[k].prefix.bits| then |rs| else k)
    ensures Begins(ip, r.prefix) && (forall j :: 0 <= j < |rs| ==> !Begins(ip, rs[j].prefix)) ==>
      LongestMatch(rs + [r], ip, |rs|)
  {
    BeginsIff(ip, r.prefix);
    forall j | 0 <= j < |rs| ensures Contains(rs[j].prefix, ip) <==> Begins(ip, rs[j].prefix) {
      BeginsIff(ip, rs[j].prefix);
    }
    hide Begins, Contains;
  }

  // ----- Insertions seen through the lookups ---------------------------------------------------

  /** A label for a pair of interfaces is found by the next lookup; no other pair or index sees it. */
  lemma PairInserted(log: seq<Insertion>, i: IfId, e: IfId, mpls: nat, p: Byte, j: IfId, f: IfId, q: Byte)
    requires mpls != 0
    ensures InterfaceLabel(log + [Insertion(Interface(i), Interface(e), mpls, p)], j, f, q) ==
            if i == j && e == f && p == q then Some(mpls) else InterfaceLabel(log, j, f, q)
  {
    var x := Insertion(Interface(i), Interface(e), mpls, p);
    assert (log + [x])[..|log|] == log;
  }

  /** A label for any ingress is found where there is none for the exact one. */
  lemma AnyIngressInserted(log: seq<Insertion>, e: IfId, mpls: nat, p: Byte, j: IfId)
    requires mpls != 0
    ensures InterfaceLabel(log + [Insertion(Wildcard, Interface(e), mpls, p)], j, e, p) ==
            if LastLabel(log, Some(j), e, p).Some? then LastLabel(log, Some(j), e, p) else Some(mpls)
    ensures LastLabel(log + [Insertion(Wildcard, Interface(e), mpls, p)], Some(j), e, p)
            == LastLabel(log, Some(j), e, p)
  {
    var x := Insertion(Wildcard, Interface(e), mpls, p);
    assert (log + [x])[..|log|] == log;
  }

  /** Egress "any" is looked up as interface 0. */
  lemma AnyEgressInserted(log: seq<Insertion>, i: IfId, mpls: nat, p: Byte)
    requires mpls != 0
    ensures InterfaceLabel(log + [Insertion(Interface(i), Wildcard, mpls, p)], i, 0, p) == Some(mpls)
  {
    var x := Insertion(Interface(i), Wildcard, mpls, p);
    assert (log + [x])[..|log|] == log;
  }

  /** Label 0 is never inserted. */
  lemma ZeroIgnored(log: seq<Insertion>, x: Insertion, j: IfId, f: IfId, q: Byte)
    requires x.mpls == 0
    ensures InterfaceLabel(log + [x], j, f, q) == InterfaceLabel(log, j, f, q)
    ensures SearchedRanges(log + [x], j, q) == SearchedRanges(log, j, q)
  {
    assert (log + [x])[..|log|] == log;
  }

  /** A range for an ingress interface goes behind those of this interface, and hides the ones for any ingress. */
  lemma RangeInserted(log: seq<Insertion>, i: IfId, prefix: Bits, mpls: nat, p: Byte)
    requires mpls != 0
    ensures SearchedRanges(log + [Insertion(Interface(i), IpRange(prefix), mpls, p)], i, p) ==
            Ranges(log, Some(i), p) + [Range(prefix, mpls)]
  {
    var x := Insertion(Interface(i), IpRange(prefix), mpls, p);
    assert (log + [x])[..|log|] == log;
  }

  lemma AnyRangeInserted(log: seq<Insertion>, prefix: Bits, mpls: nat, p: Byte, j: IfId)
    requires mpls != 0 && Ranges(log, Some(j), p) == []
    ensures SearchedRanges(log + [Insertion(Wildcard, IpRange(prefix), mpls, p)], j, p) ==
            Ranges(log, None, p) + [Range(prefix, mpls)]
  {
    var x := Insertion(Wildcard, IpRange(prefix), mpls, p);
    assert (log + [x])[..|log|] == log;
  }
}
