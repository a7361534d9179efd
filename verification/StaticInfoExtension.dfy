/** Cleaning the configured metadata of an AS, and the part of it that an AS entry carries. */
module StaticInfoExtension {
  import opened Basics
  import opened StaticInfo
  import opened StaticInfoLaws

  type Types = map<IfId, LinkType>

  function TypeOf(types: Types, i: IfId): LinkType { if i in types then types[i] else Unset }

  /** Whether the entry for `ingress` and `egress` has the value between `i` and `egress`. */
  predicate IncludeIntraInfo(types: Types, i: IfId, ingress: IfId, egress: IfId) {
    var coreIngress := TypeOf(types, ingress) == Core || ingress == 0;
    var coreEgress := TypeOf(types, egress) == Core || egress == 0;
    if coreIngress && coreEgress then i == ingress
    else
      || i == ingress || (TypeOf(types, i) == Child && i > egress)
      || TypeOf(types, i) == Core || TypeOf(types, i) == Peer
  }

  /** The values of one metric in an AS entry. */
  datatype Info = Info(intra: Row, inter: Row)

  function IntraOf(t: Table, types: Types, ingress: IfId, egress: IfId): Row {
    map i | i in RowOf(t, egress) && IncludeIntraInfo(types, i, ingress, egress) :: RowOf(t, egress)[i]
  }

  function InterOf(t: Table, types: Types, egress: IfId): Row {
    map i | i in t && (i == egress || TypeOf(types, i) == Peer) :: t[i].inter
  }

  method GenerateIntra(t: Table, types: Types, ingress: IfId, egress: IfId) returns (r: Row)
    ensures r == IntraOf(t, types, ingress, egress)
  {
    var row := RowOf(t, egress);
    var left := row.Keys;
    r := map[];
    while left != {}
      invariant left <= row.Keys
      invariant forall i :: i in r <==> i in row && i !in left && IncludeIntraInfo(types, i, ingress, egress)
      invariant forall i <- r :: r[i] == row[i]
    {
      var i :| i in left;
      if IncludeIntraInfo(types, i, ingress, egress) { r := r[i := row[i]]; }
      left := left - {i};
    }
  }

  method Generate(t: Table, types: Types, ingress: IfId, egress: IfId) returns (info: Info)
    ensures info == Info(IntraOf(t, types, ingress, egress), InterOf(t, types, egress))
  {
    var intra := GenerateIntra(t, types, ingress, egress);
    var inter: Row := map[];
    var left := t.Keys;
    while left != {}
      invariant left <= t.Keys
      invariant forall i :: i in inter <==> i in t && i !in left && (i == egress || TypeOf(types, i) == Peer)
      invariant forall i <- inter :: inter[i] == t[i].inter
    {
      var i :| i in left;
      if i == egress || TypeOf(types, i) == Peer { inter := inter[i := t[i].inter]; }
      left := left - {i};
    }
    return Info(intra, inter);
  }

  /** Deletes everything about interface 0. */
  method DeleteZero(t: Table) returns (r: Table)
    ensures r == NoZero(t)
  {
    r := t - {0};
    var left := r.Keys;
    while left != {}
      invariant left <= r.Keys && r.Keys == t.Keys - {0}
      invariant forall x <- r :: r[x] == if x in left then t[x] else NoZero(t)[x]
    {
      var x :| x in left;
      if r[x].intra.Some? { r := r[x := r[x].(intra := Some(r[x].intra.value - {0}))]; }
      left := left - {x};
    }
  }

  class StaticInfoCfg {
    var latency: Table
    var bandwidth: Table
    var carbonIntensity: Table
    var sbom: Table
    var vuln: Table
    var fixed: Table
    var affected: Table
    var hops: Table

    constructor (latency: Table, bandwidth: Table, carbonIntensity: Table, sbom: Table, vuln: Table, fixed: Table,
                 affected: Table, hops: Table)
      ensures this.latency == latency && this.bandwidth == bandwidth && this.carbonIntensity == carbonIntensity
      ensures this.sbom == sbom && this.vuln == vuln && this.fixed == fixed && this.affected == affected
      ensures this.hops == hops
    {
      this.latency, this.bandwidth, this.carbonIntensity, this.sbom := latency, bandwidth, carbonIntensity, sbom;
      this.vuln, this.fixed, this.affected, this.hops := vuln, fixed, affected, hops;
    }

    /** Every metric becomes its closed form; the code panics exactly on a nil map among the hops. */
    method Clean() returns (ok: bool)
      modifies this
      ensures latency == Cleaned(old(latency), true, false)
      ensures bandwidth == Cleaned(old(bandwidth), false, false)
      ensures carbonIntensity == Cleaned(old(carbonIntensity), false, false)
      ensures sbom == Cleaned(old(sbom), false, false)
      ensures vuln == Cleaned(old(vuln), false, false)
      ensures fixed == Cleaned(old(fixed), false, false)
      ensures affected == Cleaned(old(affected), false, false)
      ensures ok <==> !NilTarget(NoZero(old(hops)))
      ensures ok ==> hops == Cleaned(old(hops), false, true)
      ensures Conservative(old(latency), latency, true, false)
      ensures Conservative(old(bandwidth), bandwidth, false, false)
      ensures Conservative(old(carbonIntensity), carbonIntensity, false, false)
      ensures Conservative(old(sbom), sbom, false, false)
      ensures Conservative(old(vuln), vuln, false, false)
      ensures Conservative(old(fixed), fixed, false, false)
      ensures Conservative(old(affected), affected, false, false)
      ensures ok ==> Conservative(old(hops), hops, false, true)
    {
      hide Sym, NoZero, NilTarget, Conservative;
      DeleteZeros();
      ok := SymmetrizeAll();
      CleanedConservative(old(latency), true, false);
      CleanedConservative(old(bandwidth), false, false);
      CleanedConservative(old(carbonIntensity), false, false);
      CleanedConservative(old(sbom), false, false);
      CleanedConservative(old(vuln), false, false);
      CleanedConservative(old(fixed), false, false);
      CleanedConservative(old(affected), false, false);
      CleanedConservative(old(hops), false, true);
    }

    method DeleteZeros()
      modifies this
      ensures latency == NoZero(old(latency)) && bandwidth == NoZero(old(bandwidth))
      ensures carbonIntensity == NoZero(old(carbonIntensity)) && sbom == NoZero(old(sbom))
      ensures vuln == NoZero(old(vuln)) && fixed == NoZero(old(fixed))
      ensures affected == NoZero(old(affected)) && hops == NoZero(old(hops))
    {
      hide NoZero;
      latency := DeleteZero(latency);
      bandwidth := DeleteZero(bandwidth);
      carbonIntensity := DeleteZero(carbonIntensity);
      sbom := DeleteZero(sbom);
      vuln := DeleteZero(vuln);
      fixed := DeleteZero(fixed);
      affected := DeleteZero(affected);
      hops := DeleteZero(hops);
    }

    method SymmetrizeAll() returns (ok: bool)
      modifies this
      ensures latency == Sym(old(latency), true, false) && bandwidth == Sym(old(bandwidth), false, false)
      ensures carbonIntensity == Sym(old(carbonIntensity), false, false) && sbom == Sym(old(sbom), false, false)
      ensures vuln == Sym(old(vuln), false, false) && fixed == Sym(old(fixed), false, false)
      ensures affected == Sym(old(affected), false, false)
      ensures ok <==> !NilTarget(old(hops))
      ensures ok ==> hops == Sym(old(hops), false, true)
    {
      hide Sym, NilTarget;
      latency := Symmetrize(latency, true);
      bandwidth := Symmetrize(bandwidth, false);
      carbonIntensity := Symmetrize(carbonIntensity, false);
      sbom := Symmetrize(sbom, false);
      vuln := Symmetrize(vuln, false);
      fixed := Symmetrize(fixed, false);
      affected := Symmetrize(affected, false);
      var h;
      ok, h := SymmetrizeHops(hops);
      if ok { hops := h; }
    }
  }

  // ----- Cross-overs -----------------------------------------------------------------

  /** The configured value between `x` and `y` that the row of `x` has after cleaning. */
  function CleanValue(t: Table, larger: bool, all: bool, x: IfId, y: IfId): Option<int> {
    if x == 0 || y == 0 || x == y || (!all && x !in t) then None
    else if all || y in t then Combine(larger, Get(t, x, y), Get(t, y, x))
    else Get(t, x, y)
  }

  lemma IntraGet(t: Table, types: Types, ingress: IfId, egress: IfId, i: IfId)
    ensures var r := IntraOf(t, types, ingress, egress);
      (if i in r then Some(r[i]) else None)
      == if IncludeIntraInfo(types, i, ingress, egress) then Get(t, egress, i) else None
  {
  }

  /**
   Two segments cross over between the child interfaces `e` and `f`: the value between them
   is never in both entries, and it is in one exactly if the row of the smaller has it.
   */
  lemma ChildCrossOver(t: Table, larger: bool, all: bool, types: Types, g: IfId, e: IfId, h: IfId, f: IfId)
    requires e < f && TypeOf(types, e) == Child == TypeOf(types, f) && g != f && h != e
    ensures var c := Cleaned(t, larger, all);
      && e !in IntraOf(c, types, h, f)
      && (f in IntraOf(c, types, g, e) <==> CleanValue(t, larger, all, e, f).Some?)
      && (f in IntraOf(c, types, g, e) ==> Some(IntraOf(c, types, g, e)[f]) == CleanValue(t, larger, all, e, f))
  {
    hide Cleaned, IntraOf;
    IntraGet(Cleaned(t, larger, all), types, g, e, f);
    IntraGet(Cleaned(t, larger, all), types, h, f, e);
    CleanedGet(t, larger, all, e, f);
  }

  /** With both interfaces configured, a value given in either direction is in exactly one entry. */
  lemma ExactlyOnce(t: Table, larger: bool, types: Types, g: IfId, e: IfId, h: IfId, f: IfId)
    requires e != f && TypeOf(types, e) == Child == TypeOf(types, f) && g != f && h != e
    requires e in t && f in t && e != 0 && f != 0 && (Get(t, e, f).Some? || Get(t, f, e).Some?)
    ensures var c := Cleaned(t, larger, false);
      f in IntraOf(c, types, g, e) <==> e !in IntraOf(c, types, h, f)
  {
    if e < f {
      ChildCrossOver(t, larger, false, types, g, e, h, f);
    } else {
      ChildCrossOver(t, larger, false, types, h, f, g, e);
    }
  }

  /** With only one of them configured, the value can be in neither: here the row of 2 is missing. */
  lemma MissingRow()
    ensures var types: Types := map[2 := Child, 5 := Child];
      var t: Table := map[5 := Entry(0, Some(map[2 := 7]))];
      var c := Cleaned(t, false, false);
      && Get(c, 5, 2) == Some(7)
      && 5 !in IntraOf(c, types, 0, 2) && 2 !in IntraOf(c, types, 0, 5)
  {
    var types: Types := map[2 := Child, 5 := Child];
    var t: Table := map[5 := Entry(0, Some(map[2 := 7]))];
    CleanedGet(t, false, false, 5, 2);
    ChildCrossOver(t, false, false, types, 0, 2, 0, 5);
  }

  /**
   A core segment that starts or ends at the core interface `k` meets a segment that leaves on
   the child interface `e`: only the latter's entry has the value between them, if there is one.
   */
  lemma CoreCrossOver(t: Table, larger: bool, all: bool, types: Types, g: IfId, e: IfId, a: IfId, b: IfId, k: IfId)
    requires TypeOf(types, e) == Child && e != 0 && TypeOf(types, k) == Core
    requires (a == 0 && b == k) || (a == k && b == 0)
    ensures var c := Cleaned(t, larger, all);
      && e !in IntraOf(c, types, a, b)
      && (k in IntraOf(c, types, g, e) <==> CleanValue(t, larger, all, e, k).Some?)
      && (k in IntraOf(c, types, g, e) ==> Some(IntraOf(c, types, g, e)[k]) == CleanValue(t, larger, all, e, k))
  {
    hide Cleaned, IntraOf;
    IntraGet(Cleaned(t, larger, all), types, g, e, k);
    IntraGet(Cleaned(t, larger, all), types, a, b, e);
    CleanedGet(t, larger, all, e, k);
  }

  // ----- What an entry holds -----------------------------------------------------------------

  predicate IsType(types: Types, i: IfId, t: LinkType) { i in types && types[i] == t }

  /** The interface is on a core link, or stands for the start or end of a segment. */
  predicate CoreSide(types: Types, i: IfId) { i == 0 || IsType(types, i, Core) }

  /** The value to the ingress interface is always in the entry, if there is one. */
  lemma IngressIncluded(t: Table, types: Types, ingress: IfId, egress: IfId, v: int)
    requires Given(t, egress, ingress, v)
    ensures ingress in IntraOf(t, types, ingress, egress) && IntraOf(t, types, ingress, egress)[ingress] == v
  {
  }

  /** In a core segment there is no other. */
  lemma CoreSegmentEntry(t: Table, types: Types, ingress: IfId, egress: IfId, i: IfId)
    requires CoreSide(types, ingress) && CoreSide(types, egress) && i in IntraOf(t, types, ingress, egress)
    ensures i == ingress
  {
  }

  /** In other segments those to core and peer interfaces are there, and to child interfaces beyond the egress. */
  lemma OtherSegmentEntry(t: Table, types: Types, ingress: IfId, egress: IfId, i: IfId, v: int)
    requires !(CoreSide(types, ingress) && CoreSide(types, egress)) && Given(t, egress, i, v) && i != ingress
    ensures i in IntraOf(t, types, ingress, egress) <==>
      IsType(types, i, Core) || IsType(types, i, Peer) || (IsType(types, i, Child) && i > egress)
    ensures i in IntraOf(t, types, ingress, egress) ==> IntraOf(t, types, ingress, egress)[i] == v
  {
  }

  /** Values towards neighbours are there for the egress and for peers. */
  lemma InterIncluded(t: Table, types: Types, egress: IfId, i: IfId)
    ensures i in InterOf(t, types, egress) <==> i in t && (i == egress || IsType(types, i, Peer))
    ensures i in InterOf(t, types, egress) ==> InterOf(t, types, egress)[i] == t[i].inter
  {
  }
}
