/** Selecting the beacons to propagate or register: short ones, and one for diversity. */
module Selection {
  import opened Basics
  import opened Segments
  import opened BeaconPolicy
  import Counting

  /** The link by which an entry was reached. */
  function Link(e: ASEntry): (IA, IfId) { (e.local, e.hop.consIngress) }

  predicate NewLink(e: ASEntry, b: seq<ASEntry>) { forall j :: 0 <= j < |b| ==> Link(b[j]) != Link(e) }

  /** Positions of `a` whose link does not occur in `b`. */
  function Unshared(a: seq<ASEntry>, b: seq<ASEntry>): set<int> {
    set i | 0 <= i < |a| && NewLink(a[i], b)
  }

  /** How many links of `a` do not occur in `b`. */
  function NewLinks(a: Segment, b: Segment): nat { |Unshared(a.entries, b.entries)| }

  function DiversityOf(a: Beacon, b: Beacon): nat { NewLinks(a.segment, b.segment) }

  /** The diversity of two beacons; 0 if one of them has no segment. */
  method Diversity(a: Option<Segment>, b: Option<Segment>) returns (diff: nat)
    ensures diff == if a.None? || b.None? then 0 else NewLinks(a.value, b.value)
  {
    if a.None? || b.None? { return 0; }
    var es, os := a.value.entries, b.value.entries;
    diff := 0;
    for i := 0 to |es|
      invariant diff == |Unshared(es[..i], os)|
    {
      var found := false;
      for j := 0 to |os|
        invariant !found && forall k :: 0 <= k < j ==> Link(os[k]) != Link(es[i])
      {
        if Link(os[j]) == Link(es[i]) {
          found := true;
          break;
        }
      }
      UnsharedStep(es, os, i);
      if !found { diff := diff + 1; }
    }
    assert es[..|es|] == es;
  }

  lemma DiversityOfSegments(a: Beacon, b: Beacon)
    ensures DiversityOf(a, b) == NewLinks(a.segment, b.segment)
  {
  }

  lemma UnsharedStep(es: seq<ASEntry>, os: seq<ASEntry>, i: nat)
    requires i < |es|
    ensures |Unshared(es[..i + 1], os)| == |Unshared(es[..i], os)| + if NewLink(es[i], os) then 1 else 0
  {
    hide NewLink;
    var before, after := Unshared(es[..i], os), Unshared(es[..i + 1], os);
    assert forall k :: 0 <= k < i ==> es[..i + 1][k] == es[..i][k] == es[k];
    assert es[..i + 1][i] == es[i];
    assert after == if NewLink(es[i], os) then before + {i} else before;
  }

  const MAX_UINT16 := 65535

  /** Position `m` is a most diverse one of `bs`, no shorter one is as diverse, and it is the first of its kind. */
  ghost predicate MostDiverse(bs: seq<Beacon>, best: Beacon, m: nat) {
    && m < |bs|
    && forall i :: 0 <= i < |bs| ==>
         && DiversityOf(best, bs[i]) <= DiversityOf(best, bs[m])
         && (DiversityOf(best, bs[i]) == DiversityOf(best, bs[m]) ==>
               && |bs[m].segment.entries| <= |bs[i].segment.entries|
               && (|bs[m].segment.entries| == |bs[i].segment.entries| ==> m <= i))
  }

  /** The scan; the position is None, and the diversity -1, for an empty list. */
  method SelectMostDiverse(bs: seq<Beacon>, best: Beacon) returns (m: Option<nat>, maxDiversity: int)
    ensures bs == [] <==> m.None?
    ensures bs == [] ==> maxDiversity == -1
    ensures m.Some? ==> MostDiverse(bs, best, m.value) && maxDiversity == DiversityOf(best, bs[m.value])
  {
    if |bs| == 0 { return None, -1; }
    hide DiversityOf, NewLinks;
    m, maxDiversity := None, -1;
    var minLen := MAX_UINT16;
    for i := 0 to |bs|
      invariant i > 0 ==> m.Some?
      invariant m.None? ==> maxDiversity == -1
      invariant m.Some? ==>
        && MostDiverse(bs[..i], best, m.value)
        && minLen == |bs[m.value].segment.entries| && maxDiversity == DiversityOf(best, bs[m.value])
    {
      var diversity := Diversity(Some(best.segment), Some(bs[i].segment));
      DiversityOfSegments(best, bs[i]);
      var l := |bs[i].segment.entries|;
      if diversity > maxDiversity || (diversity == maxDiversity && minLen > l) {
        m, minLen, maxDiversity := Some(i), l, diversity;
      }
    }
    assert bs[..|bs|] == bs;
  }

  ghost predicate MaxDiversity(bs: seq<Beacon>, best: Beacon, d: int) {
    && (exists i :: 0 <= i < |bs| && DiversityOf(best, bs[i]) == d)
    && forall i :: 0 <= i < |bs| ==> DiversityOf(best, bs[i]) <= d
  }

  /** Some beacon from position `n` on is more diverse than all before. */
  ghost predicate MoreDiverse(bs: seq<Beacon>, n: nat, i: nat) {
    n <= i < |bs| && forall j :: 0 <= j < n ==> DiversityOf(bs[0], bs[j]) < DiversityOf(bs[0], bs[i])
  }

  /** The last one selected: the most diverse of the rest if that adds diversity, or else the next. */
  ghost predicate LastChoice(bs: seq<Beacon>, n: nat, x: nat) {
    && n <= x < |bs|
    && (if exists i: nat :: MoreDiverse(bs, n, i) then MostDiverse(bs[n..], bs[0], x - n) else x == n)
  }

  function Chosen(bs: seq<Beacon>, r: seq<nat>): (c: seq<Beacon>)
    requires forall i :: 0 <= i < |r| ==> r[i] < |bs|
    ensures |c| == |r|
  {
    seq(|r|, i requires 0 <= i < |r| => bs[r[i]])
  }

  /** The first `n` beacons and the last choice are as diverse, at their best, as all of them. */
  lemma LastChoiceDiverse(bs: seq<Beacon>, n: nat, x: nat, d: int, dRest: int, m: nat, mRest: nat)
    requires 0 < n < |bs|
    requires MostDiverse(bs[..n], bs[0], m) && d == DiversityOf(bs[0], bs[m])
    requires MostDiverse(bs[n..], bs[0], mRest) && dRest == DiversityOf(bs[0], bs[n + mRest])
    requires x == if dRest > d then n + mRest else n
    ensures LastChoice(bs, n, x)
    ensures var r := seq(n, i => i) + [x]; var top := if dRest > d then dRest else d;
      MaxDiversity(Chosen(bs, r), bs[0], top) && MaxDiversity(bs, bs[0], top)
  {
    hide DiversityOf;
    var top := if dRest > d then dRest else d;
    forall i | 0 <= i < |bs| ensures DiversityOf(bs[0], bs[i]) <= if i < n then d else dRest {
      if i < n { assert bs[..n][i] == bs[i] && bs[..n][m] == bs[m]; } else { assert bs[n..][i - n] == bs[i]; }
    }
    var c := Chosen(bs, seq(n, i => i) + [x]);
    assert c[m] == bs[m] && c[n] == bs[x];
    if dRest > d {
      assert MoreDiverse(bs, n, n + mRest);
    } else {
      assert forall i: nat :: n <= i < |bs| ==> DiversityOf(bs[0], bs[i]) <= DiversityOf(bs[0], bs[m]);
    }
  }

  /**
   The positions selected.  With more candidates than results the code looks at the first of
   the k - 1 kept ones, so it needs k >= 2 there.
   */
  method SelectBeacons(bs: seq<Beacon>, k: nat) returns (r: seq<nat>)
    requires |bs| <= k || k >= 2
    ensures |r| == if |bs| <= k then |bs| else k
    ensures forall i :: 0 <= i < |r| ==> r[i] < |bs|
    ensures forall i, j :: 0 <= i < j < |r| ==> r[i] != r[j]
    ensures forall i :: 0 <= i < |r| && i < k - 1 ==> r[i] == i
    ensures bs != [] ==> exists d :: MaxDiversity(Chosen(bs, r), bs[0], d) && MaxDiversity(bs, bs[0], d)
    ensures |bs| > k ==> LastChoice(bs, k - 1, r[k - 1])
  {
    hide DiversityOf, MostDiverse, LastChoice;
    if |bs| <= k {
      r := seq(|bs|, i => i);
      if bs != [] {
        ghost var d := AllDiverse(bs);
        assert Chosen(bs, r) == bs;
      }
      return;
    }
    r := seq(k - 1, i => i);
    var m0, diversity := SelectMostDiverse(bs[..k - 1], bs[0]);
    var m, diversityRest := SelectMostDiverse(bs[k - 1..], bs[0]);
    var x := if diversityRest > diversity then k - 1 + m.value else k - 1;
    MostDiverseIndex(bs[..k - 1], bs[0], m0.value);
    MostDiverseIndex(bs[k - 1..], bs[0], m.value);
    LastChoiceDiverse(bs, k - 1, x, diversity, diversityRest, m0.value, m.value);
    assert seq(k - 1, i => i) == r;
    r := r + [x];
  }

  lemma MostDiverseIndex(bs: seq<Beacon>, best: Beacon, m: nat)
    requires MostDiverse(bs, best, m)
    ensures m < |bs|
  {
  }

  /** A non-empty list has a greatest diversity. */
  lemma {:induction false} AllDiverse(bs: seq<Beacon>) returns (d: int)
    requires bs != []
    ensures MaxDiversity(bs, bs[0], d)
  {
    hide DiversityOf;
    var n := |bs| - 1;
    if n == 0 {
      d := DiversityOf(bs[0], bs[0]);
    } else {
      var d0 := AllDiverse(bs[..n]);
      d := if DiversityOf(bs[0], bs[n]) > d0 then DiversityOf(bs[0], bs[n]) else d0;
      assert forall i :: 0 <= i < n ==> bs[..n][i] == bs[i];
      var i :| 0 <= i < n && DiversityOf(bs[0], bs[..n][i]) == d0;
      assert DiversityOf(bs[0], bs[i]) == d0;
    }
  }

  /** The entry was made by this AS for packets from this interface. */
  predicate IsLink(e: ASEntry, ia: IA, i: IfId) { e.local == ia && e.hop.consIngress == i }

  /** Some entry has the same AS and is entered by the same interface. */
  ghost predicate IsShared(e: ASEntry, b: Segment) {
    exists j :: 0 <= j < |b.entries| && IsLink(b.entries[j], e.local, e.hop.consIngress)
  }

  lemma SharedIff(e: ASEntry, b: Segment)
    ensures IsShared(e, b) <==> !NewLink(e, b.entries)
  {
    if !NewLink(e, b.entries) {
      var j :| 0 <= j < |b.entries| && Link(b.entries[j]) == Link(e);
      assert IsLink(b.entries[j], e.local, e.hop.consIngress);
    }
  }

  /** Diversity 0 means that every link is shared. */
  lemma NoNewLinks(a: Segment, b: Segment)
    ensures NewLinks(a, b) == 0 <==> forall i :: 0 <= i < |a.entries| ==> IsShared(a.entries[i], b)
  {
    hide NewLink, IsShared;
    var u := Unshared(a.entries, b.entries);
    forall i | 0 <= i < |a.entries| ensures i in u <==> !IsShared(a.entries[i], b) { SharedIff(a.entries[i], b); }
    if NewLinks(a, b) == 0 {
      assert u == {};
    } else {
      var i :| i in u;
    }
  }

  function Positions(n: nat): set<int> { if n == 0 then {} else Positions(n - 1) + {n - 1} }

  lemma {:induction false} PositionsMean(n: nat)
    ensures |Positions(n)| == n && forall i :: i in Positions(n) <==> 0 <= i < n
  {
    if n > 0 { PositionsMean(n - 1); }
  }

  /** It is the number of entries if none is shared, and never more. */
  lemma AllNewLinks(a: Segment, b: Segment)
    ensures NewLinks(a, b) <= |a.entries|
    ensures (forall i :: 0 <= i < |a.entries| ==> !IsShared(a.entries[i], b)) ==> NewLinks(a, b) == |a.entries|
  {
    hide NewLink, IsShared;
    var u := Unshared(a.entries, b.entries);
    forall i | 0 <= i < |a.entries| ensures i in u <==> !IsShared(a.entries[i], b) { SharedIff(a.entries[i], b); }
    PositionsMean(|a.entries|);
    Counting.SubsetCount(u, Positions(|a.entries|));
    if forall i :: 0 <= i < |a.entries| ==> !IsShared(a.entries[i], b) { assert u == Positions(|a.entries|); }
  }

  /** Every other one has fewer new links, or as many and more entries, or is behind it and alike. */
  lemma MostDiverseMeans(bs: seq<Beacon>, best: Beacon, m: nat, i: nat)
    requires MostDiverse(bs, best, m) && i < |bs| && i != m
    ensures var x, y := NewLinks(best.segment, bs[m].segment), NewLinks(best.segment, bs[i].segment);
      var k, l := |bs[m].segment.entries|, |bs[i].segment.entries|;
      y < x || (y == x && l > k) || (y == x && l == k && i > m)
  {
  }

  /** What the last choice means: it beats all that are kept, or nothing does and it is the next. */
  lemma LastChoiceMeans(bs: seq<Beacon>, n: nat, x: nat)
    requires 0 < n && LastChoice(bs, n, x)
    ensures x == n || forall j :: 0 <= j < n ==>
      NewLinks(bs[0].segment, bs[j].segment) < NewLinks(bs[0].segment, bs[x].segment)
    ensures (forall i :: n <= i < |bs| ==>
               exists j :: 0 <= j < n
                 && NewLinks(bs[0].segment, bs[i].segment) <= NewLinks(bs[0].segment, bs[j].segment))
            ==> x == n
  {
    if exists i: nat :: MoreDiverse(bs, n, i) {
      var i: nat :| MoreDiverse(bs, n, i);
      assert bs[n..][i - n] == bs[i] && bs[n..][x - n] == bs[x];
    }
  }
}
