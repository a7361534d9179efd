/** The tables after cleaning, compared with the configured values. */
module StaticInfoLaws {
  import opened Basics
  import opened StaticInfo

  /** The table gives `v` for the pair. */
  predicate Given(t: Table, x: IfId, y: IfId, v: int) {
    x in t && t[x].intra.Some? && y in t[x].intra.value && t[x].intra.value[y] == v
  }

  ghost predicate GivenAny(t: Table, x: IfId, y: IfId) { exists v :: Given(t, x, y, v) }

  /** `w` is at least as conservative as `v`: not less for a latency, not more for anything else. */
  predicate AsSafe(larger: bool, w: int, v: int) { if larger then w >= v else w <= v }

  /**
   For a pair of interfaces both directions have one value, one of those configured for either
   direction and at least as conservative as each of them; none if none is configured.
   */
  ghost predicate SafePair(before: Table, after: Table, larger: bool, x: IfId, y: IfId) {
    && (GivenAny(after, x, y) <==> GivenAny(before, x, y) || GivenAny(before, y, x))
    && forall w :: Given(after, x, y, w) ==>
         && Given(after, y, x, w) && (Given(before, x, y, w) || Given(before, y, x, w))
         && forall v :: Given(before, x, y, v) || Given(before, y, x, v) ==> AsSafe(larger, w, v)
  }

  /** The pairs with interface 0 or of an interface with itself are gone. */
  ghost predicate NoBadPairs(after: Table) {
    forall x: IfId, y: IfId, v :: Given(after, x, y, v) ==> x != 0 && y != 0 && x != y
  }

  /** Pairs of other configured interfaces; with rows created, all pairs. */
  ghost predicate Conservative(before: Table, after: Table, larger: bool, all: bool) {
    && NoBadPairs(after)
    && forall x: IfId, y: IfId | x != y && x != 0 && y != 0 && (all || (x in before && y in before)) ::
         SafePair(before, after, larger, x, y)
  }

  /** Entries for interfaces that are not configured stay; so do the values towards the neighbours. */
  ghost predicate KeepsRest(before: Table, after: Table) {
    && (forall x: IfId, y: IfId, v | x in before && x != 0 && y !in before && y != 0 ::
          Given(after, x, y, v) <==> Given(before, x, y, v))
    && (forall x: IfId | x != 0 && x in before :: x in after && after[x].inter == before[x].inter)
    && forall x: IfId | x in after :: x in before && x != 0
  }

  lemma GetGiven(t: Table, x: IfId, y: IfId)
    ensures forall v :: Given(t, x, y, v) <==> Get(t, x, y) == Some(v)
    ensures GivenAny(t, x, y) <==> Get(t, x, y).Some?
  {
    if Get(t, x, y).Some? { assert Given(t, x, y, Get(t, x, y).value); }
  }

  lemma CleanedSafe(t: Table, larger: bool, all: bool, x: IfId, y: IfId)
    requires x != y && x != 0 && y != 0 && (all || (x in t && y in t))
    ensures SafePair(t, Cleaned(t, larger, all), larger, x, y)
  {
    hide Cleaned;
    var c := Cleaned(t, larger, all);
    CleanedGet(t, larger, all, x, y);
    CleanedGet(t, larger, all, y, x);
    GetGiven(t, x, y);
    GetGiven(t, y, x);
    GetGiven(c, x, y);
    GetGiven(c, y, x);
    hide Given, GivenAny, Get;
  }

  /** Cleaning makes every table conservative: latencies are maxima, the other values minima. */
  lemma CleanedConservative(t: Table, larger: bool, all: bool)
    ensures Conservative(t, Cleaned(t, larger, all), larger, all)
  {
    hide Cleaned, SafePair, Given;
    var c := Cleaned(t, larger, all);
    forall x: IfId, y: IfId, v | Given(c, x, y, v) ensures x != 0 && y != 0 && x != y {
      CleanedGet(t, larger, all, x, y);
      GetGiven(c, x, y);
    }
    forall x: IfId, y: IfId | x != y && x != 0 && y != 0 && (all || (x in t && y in t))
      ensures SafePair(t, c, larger, x, y)
    {
      CleanedSafe(t, larger, all, x, y);
    }
  }

  lemma CleanedKeepsRest(t: Table, larger: bool)
    ensures KeepsRest(t, Cleaned(t, larger, false))
  {
    var c := Cleaned(t, larger, false);
    forall x: IfId, y: IfId, v | x in t && x != 0 && y !in t && y != 0
      ensures Given(c, x, y, v) <==> Given(t, x, y, v)
    {
      CleanedGet(t, larger, false, x, y);
      GetGiven(c, x, y);
      GetGiven(t, x, y);
    }
  }
}
