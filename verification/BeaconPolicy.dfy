/** The policies that decide whether a beacon may be kept or sent on. */
module BeaconPolicy {
  import opened Basics
  import opened Counting
  import opened Segments

  datatype Beacon = Beacon(segment: Segment, inIfId: IfId)

  /** The ASes of a segment, in order. */
  function Locals(es: seq<ASEntry>): (r: seq<IA>)
    ensures |r| == |es| && forall i :: 0 <= i < |es| ==> r[i] == es[i].local
  {
    seq(|es|, i requires 0 <= i < |es| => es[i].local)
  }

  ghost predicate Repeats(hops: seq<IA>, j: nat) { j < |hops| && exists i :: 0 <= i < j && hops[i] == hops[j] }

  /** Position `j` is the first that repeats an earlier AS. */
  ghost predicate FirstRepeat(hops: seq<IA>, j: nat) {
    Repeats(hops, j) && forall i :: 0 <= i < j ==> !Repeats(hops, i)
  }

  /** Leaves an ISD and comes back to it. */
  ghost predicate IsdLoopAt(hops: seq<IA>, i: nat, j: nat, k: nat) {
    i < j < k < |hops| && hops[i].isd == hops[k].isd != hops[j].isd
  }

  /** Hop `i` enters an ISD; a hop in ISD 0 at the very start does not. */
  predicate Enters(hops: seq<IA>, i: nat) {
    i < |hops| && hops[i].isd != if i == 0 then 0 else hops[i - 1].isd
  }

  ghost predicate Reenters(hops: seq<IA>, i: nat) {
    Enters(hops, i) && exists k :: 0 <= k < i && Enters(hops, k) && hops[k].isd == hops[i].isd
  }

  ghost predicate FirstReentry(hops: seq<IA>, j: nat) {
    Reenters(hops, j) && forall i :: 0 <= i < j ==> !Reenters(hops, i)
  }

  /** What the two loop filters let pass: the zero value is not told from "no loop". */
  ghost predicate AsLoopFree(hops: seq<IA>) { forall j: nat :: FirstRepeat(hops, j) ==> hops[j] == NO_IA }

  ghost predicate IsdLoopFree(hops: seq<IA>) { forall j: nat :: FirstReentry(hops, j) ==> hops[j].isd == 0 }

  ghost predicate LoopsPass(hops: seq<IA>, allowIsdLoop: bool) {
    AsLoopFree(hops) && (allowIsdLoop || IsdLoopFree(hops))
  }

  /** Among non-zero ASes the filter lets exactly the lists without repetition pass. */
  lemma AsLoopFreeMeans(hops: seq<IA>)
    requires NO_IA !in hops
    ensures AsLoopFree(hops) <==> Distinct(hops)
  {
    if !Distinct(hops) {
      var i, j :| 0 <= i < j < |hops| && hops[i] == hops[j];
      assert Repeats(hops, j);
      var f := EarliestRepeat(hops, j);
      assert hops[f] in hops;
    }
  }

  lemma {:induction false} EarliestRepeat(hops: seq<IA>, j: nat) returns (f: nat)
    requires Repeats(hops, j)
    ensures f <= j && FirstRepeat(hops, f)
  {
    f := j;
    if !FirstRepeat(hops, j) {
      var i :| 0 <= i < j && Repeats(hops, i);
      f := EarliestRepeat(hops, i);
    }
  }

  /** Among non-zero ISDs the filter lets exactly the lists pass that never come back to an ISD. */
  lemma IsdLoopFreeMeans(hops: seq<IA>)
    requires forall i :: 0 <= i < |hops| ==> hops[i].isd != 0
    ensures IsdLoopFree(hops) <==> forall i: nat, j: nat, k: nat :: !IsdLoopAt(hops, i, j, k)
  {
    forall j: nat | FirstReentry(hops, j) ensures exists i: nat, b: nat, k: nat :: IsdLoopAt(hops, i, b, k) {
      var k :| 0 <= k < j && Enters(hops, k) && hops[k].isd == hops[j].isd;
      assert IsdLoopAt(hops, k, j - 1, j);
    }
    forall i: nat, j: nat, k: nat | IsdLoopAt(hops, i, j, k) ensures !IsdLoopFree(hops) {
      var a := EntryOf(hops, i);
      var b := EntryAfter(hops, j, k);
      assert Reenters(hops, b);
      var f := Earliest(hops, b);
    }
  }

  lemma {:induction false} EntryOf(hops: seq<IA>, i: nat) returns (a: nat)
    requires i < |hops| && hops[i].isd != 0
    ensures a <= i && Enters(hops, a) && hops[a].isd == hops[i].isd
  {
    a := i;
    if !Enters(hops, i) { a := EntryOf(hops, i - 1); }
  }

  lemma {:induction false} EntryAfter(hops: seq<IA>, j: nat, k: nat) returns (b: nat)
    requires j < k < |hops| && hops[j].isd != hops[k].isd
    ensures j < b <= k && Enters(hops, b) && hops[b].isd == hops[k].isd
  {
    b := k;
    if !Enters(hops, k) { b := EntryAfter(hops, j, k - 1); }
  }

  lemma {:induction false} Earliest(hops: seq<IA>, b: nat) returns (f: nat)
    requires Reenters(hops, b)
    ensures f <= b && FirstReentry(hops, f)
  {
    f := b;
    if !FirstReentry(hops, b) {
      var i :| 0 <= i < b && Reenters(hops, i);
      f := Earliest(hops, i);
    }
  }

  /** The first AS that is repeated, or the zero IA if there is none. */
  method FilterAsLoop(hops: seq<IA>) returns (ia: IA)
    ensures Distinct(hops) ==> ia == NO_IA
    ensures !Distinct(hops) ==> exists j: nat :: FirstRepeat(hops, j) && ia == hops[j]
    ensures ia == NO_IA <==> AsLoopFree(hops)
  {
    var seen: set<IA> := {};
    for i := 0 to |hops|
      invariant forall x :: x in seen <==> exists k :: 0 <= k < i && hops[k] == x
      invariant forall k :: 0 <= k < i ==> !Repeats(hops, k)
      invariant forall j, k :: 0 <= j < k < i ==> hops[j] != hops[k]
    {
      if hops[i] in seen {
        assert FirstRepeat(hops, i);
        return hops[i];
      }
      seen := seen + {hops[i]};
    }
    return NO_IA;
  }

  /** The ISD that is entered again first, or 0. */
  method FilterIsdLoop(hops: seq<IA>) returns (isd: nat)
    ensures isd == 0 <==> IsdLoopFree(hops)
    ensures isd != 0 ==> exists j: nat :: FirstReentry(hops, j) && hops[j].isd == isd
  {
    var seen: set<nat>, last := {}, 0;
    for i := 0 to |hops|
      invariant forall x :: x in seen <==> exists k :: 0 <= k < i && Enters(hops, k) && hops[k].isd == x
      invariant last == if i == 0 then 0 else hops[i - 1].isd
      invariant forall k :: 0 <= k < i ==> !Reenters(hops, k)
    {
      if last == hops[i].isd { continue; }
      if hops[i].isd in seen {
        assert FirstReentry(hops, i);
        return hops[i].isd;
      }
      last := hops[i].isd;
      seen := seen + {hops[i].isd};
    }
    return 0;
  }

  method FilterLoops(hops: seq<IA>, allowIsdLoop: bool) returns (pass: bool)
    ensures pass <==> LoopsPass(hops, allowIsdLoop)
  {
    var ia := FilterAsLoop(hops);
    if !ia.IsZero() { return false; }
    if allowIsdLoop { return true; }
    var isd := FilterIsdLoop(hops);
    return isd == 0;
  }

  /** The hops of a beacon, and the next one if there is one. */
  function HopsTo(b: Beacon, next: IA): seq<IA> {
    if next.IsZero() then Locals(b.segment.entries) else Locals(b.segment.entries) + [next]
  }

  method FilterLoop(b: Beacon, next: IA, allowIsdLoop: bool) returns (pass: bool)
    ensures pass <==> LoopsPass(HopsTo(b, next), allowIsdLoop)
  {
    var hops := Locals(b.segment.entries);
    if !next.IsZero() { hops := hops + [next]; }
    pass := FilterLoops(hops, allowIsdLoop);
  }

  /** A beacon whose ASes are distinct passes only towards an AS that is not among them. */
  lemma LoopFilterKeepsDistinct(b: Beacon, next: IA, allowIsdLoop: bool)
    requires Distinct(Locals(b.segment.entries)) && !next.IsZero()
    requires LoopsPass(HopsTo(b, next), allowIsdLoop)
    ensures next !in Locals(b.segment.entries)
  {
    RepeatAtEnd(Locals(b.segment.entries), next);
  }

  lemma RepeatAtEnd(l: seq<IA>, next: IA)
    requires Distinct(l)
    ensures next in l ==> FirstRepeat(l + [next], |l|)
  {
    var hops := l + [next];
    assert hops[|l|] == next && forall i :: 0 <= i < |l| ==> hops[i] == l[i];
  }

  datatype Filter = Filter(maxHops: int, asBlackList: seq<nat>, isdBlackList: seq<nat>, allowIsdLoop: bool)

  ghost predicate Passes(f: Filter, b: Beacon) {
    var hops := Locals(b.segment.entries);
    && |hops| <= f.maxHops
    && LoopsPass(hops, f.allowIsdLoop)
    && forall i :: 0 <= i < |hops| ==> hops[i].asn !in f.asBlackList && hops[i].isd !in f.isdBlackList
  }

  method Apply(f: Filter, b: Beacon) returns (pass: bool)
    ensures pass <==> Passes(f, b)
  {
    if |b.segment.entries| > f.maxHops { return false; }
    var hops := Locals(b.segment.entries);
    var ok := FilterLoops(hops, f.allowIsdLoop);
    if !ok { return false; }
    for i := 0 to |hops|
      invariant forall k :: 0 <= k < i ==> hops[k].asn !in f.asBlackList && hops[k].isd !in f.isdBlackList
    {
      for j := 0 to |f.asBlackList|
        invariant hops[i].asn !in f.asBlackList[..j]
      {
        if hops[i].asn == f.asBlackList[j] { return false; }
      }
      for j := 0 to |f.isdBlackList|
        invariant hops[i].isd !in f.isdBlackList[..j]
      {
        if hops[i].isd == f.isdBlackList[j] { return false; }
      }
    }
    return true;
  }

  datatype Policies =
    | NonCore(prop: Filter, upReg: Filter, downReg: Filter)
    | CoreAS(prop: Filter, coreReg: Filter)

  datatype Use = Prop | UpReg | DownReg | CoreReg

  /** The uses a beacon may be put to. */
  ghost predicate Allowed(p: Policies, b: Beacon, u: Use) {
    match u
    case Prop => Passes(p.prop, b)
    case UpReg => p.NonCore? && Passes(p.upReg, b)
    case DownReg => p.NonCore? && Passes(p.downReg, b)
    case CoreReg => p.CoreAS? && Passes(p.coreReg, b)
  }

  /** An error exactly when every policy filters the beacon, so when it has no use. */
  method FilterBeacon(p: Policies, b: Beacon) returns (pass: bool)
    ensures pass <==> exists u :: Allowed(p, b, u)
  {
    var errors := 0;
    var ok := Apply(p.prop, b);
    assert ok <==> Allowed(p, b, Prop);
    if !ok { errors := errors + 1; }
    match p {
      case NonCore(_, up, down) =>
        ok := Apply(up, b);
        assert ok <==> Allowed(p, b, UpReg);
        if !ok { errors := errors + 1; }
        ok := Apply(down, b);
        assert ok <==> Allowed(p, b, DownReg);
        if !ok { errors := errors + 1; }
        return errors != 3;
      case CoreAS(_, core) =>
        ok := Apply(core, b);
        assert ok <==> Allowed(p, b, CoreReg);
        if !ok { errors := errors + 1; }
        return errors != 2;
    }
  }

  method Usage(p: Policies, b: Beacon) returns (u: set<Use>)
    ensures forall x :: x in u <==> Allowed(p, b, x)
  {
    u := {};
    var ok := Apply(p.prop, b);
    if ok { u := u + {Prop}; }
    match p {
      case NonCore(_, up, down) =>
        ok := Apply(up, b);
        if ok { u := u + {UpReg}; }
        ok := Apply(down, b);
        if ok { u := u + {DownReg}; }
      case CoreAS(_, core) =>
        ok := Apply(core, b);
        if ok { u := u + {CoreReg}; }
    }
  }
}
