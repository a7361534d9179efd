/**
 The SCION forwarding path: info fields, hop fields and the meta header, with the
 operations the router applies to it.
 */
module ScionPath {
  import opened Basics

  const MAX_HOPS := 64

  /** A 16-bit word: the type of SegIDs and of the MAC prefix chained into them. */
  datatype Word16 = Word16(bits: bv16) {
    function Xor(w: Word16): Word16 { Word16(bits ^ w.bits) }
  }

  /** A hop-field MAC.  `sigma` is its first two bytes, the part chained into the SegID. */
  datatype Mac = Mac(sigma: Word16, rest: bv32)

  /** The block a hop-field MAC is computed over. */
  datatype MacInput = MacInput(beta: Word16, timestamp: nat, expTime: nat, consIngress: IfId, consEgress: IfId)

  /** The MAC function under the key of one AS. */
  type MacFn = MacInput -> Mac

  datatype HopField = HopField(
    consIngress: IfId, consEgress: IfId, expTime: nat, mac: Mac,
    ingressAlert: bool, egressAlert: bool)
  {
    /** The authenticated part: router alert flags are not covered by the MAC. */
    function Plain(): HopField { this.(ingressAlert := false, egressAlert := false) }
  }

  predicate NoAlert(hop: HopField) { !hop.ingressAlert && !hop.egressAlert }

  datatype InfoField = InfoField(peer: bool, consDir: bool, segId: Word16, timestamp: nat) {
    function UpdateSegId(mac: Mac): InfoField { this.(segId := segId.Xor(mac.sigma)) }
  }

  function FullMac(mac: MacFn, info: InfoField, hop: HopField): Mac {
    mac(MacInput(info.segId, info.timestamp, hop.expTime, hop.consIngress, hop.consEgress))
  }

  /** Hop fields in the opposite order. */
  function TurnHops(hops: seq<HopField>): (r: seq<HopField>)
    ensures |r| == |hops| && forall i :: 0 <= i < |r| ==> r[i] == hops[|hops| - 1 - i]
  {
    seq(|hops|, i requires 0 <= i < |hops| => hops[|hops| - 1 - i])
  }

  /** Info fields in the opposite order, with their direction flipped. */
  function TurnInfos(infos: seq<InfoField>): (r: seq<InfoField>)
    ensures |r| == |infos|
    ensures forall i :: 0 <= i < |r| ==>
              r[i] == infos[|infos| - 1 - i].(consDir := !infos[|infos| - 1 - i].consDir)
  {
    seq(|infos|, i requires 0 <= i < |infos| => infos[|infos| - 1 - i].(consDir := !infos[|infos| - 1 - i].consDir))
  }

  datatype Path = Path(
    currInf: nat, currHf: nat,
    len0: nat, len1: nat, len2: nat,
    infos: seq<InfoField>, hops: seq<HopField>)
  {
    function NumInf(): nat {
      if len2 > 0 then 3 else if len1 > 0 then 2 else if len0 > 0 then 1 else 0
    }

    function NumHops(): nat { len0 + len1 + len2 }

    /** What decoding a path from bytes guarantees. */
    predicate Decoded() {
      && currInf < 4 && currHf < 64
      && len0 < 64 && len1 < 64 && len2 < 64
      && (len2 > 0 ==> len1 > 0) && (len1 > 0 ==> len0 > 0)
      && NumHops() <= MAX_HOPS
      && |infos| == NumInf() && |hops| == NumHops()
    }

    function InfIndex(hf: nat): nat {
      if hf < len0 then 0 else if hf < len0 + len1 then 1 else 2
    }

    function IncPath(): Option<Path> {
      if NumInf() == 0 || currHf + 1 >= NumHops() then None
      else Some(this.(currHf := currHf + 1, currInf := InfIndex(currHf + 1)))
    }

    predicate IsXover() {
      currHf + 1 < NumHops() && currInf != InfIndex(currHf + 1)
    }

    predicate IsFirstHopAfterXover() {
      currInf > 0 && currHf > 0 && currInf - 1 == InfIndex(currHf - 1)
    }

    predicate IsFirstHop() { currHf == 0 }

    predicate IsLastHop() { currHf == NumHops() - 1 }

    function SetInfo(info: InfoField): Path
      requires currInf < |infos|
    {
      this.(infos := infos[currInf := info])
    }

    function SetHop(hop: HopField): Path
      requires currHf < |hops|
    {
      this.(hops := hops[currHf := hop])
    }

    /** The path back to the source, at the same hop.  Positions are 8-bit values. */
    function Reverse(): Option<Path>
      requires Decoded()
    {
      var n, h := NumInf(), NumHops();
      if n == 0 then None
      else
        var (a, b, c) := if n == 1 then (len0, len1, len2)
                         else if n == 2 then (len1, len0, len2) else (len2, len1, len0);
        Some(Path((n - currInf - 1) % 256, (h - currHf - 1) % 256, a, b, c, TurnInfos(infos), TurnHops(hops)))
    }
  }
}
