/** The beacon policies in terms of the entries of a beacon, for ASes and ISDs other than zero. */
module PolicyLaws {
  import opened Basics
  import opened Counting
  import opened Segments
  import opened BeaconPolicy
  import opened Beaconing

  /** Every entry is by an AS with a number, in an ISD with one. */
  ghost predicate Numbered(b: Beacon) {
    forall i :: 0 <= i < |b.segment.entries| ==>
      b.segment.entries[i].local.isd != 0 && b.segment.entries[i].local.asn != 0
  }

  /** No AS is there twice. */
  ghost predicate NoAsTwice(es: seq<ASEntry>) {
    forall i, j :: 0 <= i < j < |es| ==> es[i].local != es[j].local
  }

  /** Between two entries in one ISD there is none in another. */
  ghost predicate IsdsTogether(es: seq<ASEntry>) {
    forall i: nat, j: nat, k: nat :: i < j < k < |es| && es[i].local.isd == es[k].local.isd ==>
      es[j].local.isd == es[i].local.isd
  }

  ghost predicate NoneBlocked(f: Filter, es: seq<ASEntry>) {
    forall i :: 0 <= i < |es| ==> es[i].local.asn !in f.asBlackList && es[i].local.isd !in f.isdBlackList
  }

  lemma NumberedHops(b: Beacon)
    requires Numbered(b)
    ensures var l := Locals(b.segment.entries);
      NO_IA !in l && forall i :: 0 <= i < |l| ==> l[i].isd != 0
  {
  }

  lemma TogetherIff(es: seq<ASEntry>)
    ensures IsdsTogether(es) <==> forall i: nat, j: nat, k: nat :: !IsdLoopAt(Locals(es), i, j, k)
  {
    var l := Locals(es);
    if IsdsTogether(es) {
      forall i: nat, j: nat, k: nat ensures !IsdLoopAt(l, i, j, k) {
        if i < j < k < |es| { assert l[i] == es[i].local && l[j] == es[j].local && l[k] == es[k].local; }
      }
    }
    if forall i: nat, j: nat, k: nat :: !IsdLoopAt(l, i, j, k) {
      forall i: nat, j: nat, k: nat | i < j < k < |es| && es[i].local.isd == es[k].local.isd
        ensures es[j].local.isd == es[i].local.isd
      {
        assert !IsdLoopAt(l, i, j, k);
      }
    }
  }

  lemma TwiceIff(es: seq<ASEntry>)
    ensures NoAsTwice(es) <==> Distinct(Locals(es))
  {
    var l := Locals(es);
    if Distinct(l) {
      forall i, j | 0 <= i < j < |es| ensures es[i].local != es[j].local { assert l[i] != l[j]; }
    }
  }

  /** A filter lets exactly those beacons pass. */
  lemma PassesIff(f: Filter, b: Beacon)
    requires Numbered(b)
    ensures Passes(f, b) <==>
      && |b.segment.entries| <= f.maxHops && NoAsTwice(b.segment.entries)
      && (f.allowIsdLoop || IsdsTogether(b.segment.entries)) && NoneBlocked(f, b.segment.entries)
  {
    var l := Locals(b.segment.entries);
    NumberedHops(b);
    AsLoopFreeMeans(l);
    IsdLoopFreeMeans(l);
    TogetherIff(b.segment.entries);
    TwiceIff(b.segment.entries);
    hide AsLoopFree, IsdLoopFree, IsdLoopAt, Distinct, NoAsTwice, IsdsTogether;
  }

  /** In a non-core AS each use has its own policy, and core segments are not registered. */
  lemma NonCoreUses(prop: Filter, up: Filter, down: Filter, b: Beacon)
    ensures var p := NonCore(prop, up, down);
      && (Allowed(p, b, Prop) <==> Passes(prop, b)) && (Allowed(p, b, UpReg) <==> Passes(up, b))
      && (Allowed(p, b, DownReg) <==> Passes(down, b)) && !Allowed(p, b, CoreReg)
  {
  }

  lemma CoreUses(prop: Filter, reg: Filter, b: Beacon)
    ensures var p := CoreAS(prop, reg);
      && (Allowed(p, b, Prop) <==> Passes(prop, b)) && (Allowed(p, b, CoreReg) <==> Passes(reg, b))
      && !Allowed(p, b, UpReg) && !Allowed(p, b, DownReg)
  {
  }

  /**
   A beacon over distinct ASes is sent on over an interface exactly if that and its own interface
   exist, the neighbour is not among its ASes, and it does not lead back into an ISD, unless that
   is allowed.
   */
  lemma ToSendIff(n: Node, b: Beacon, egress: IfId)
    requires Numbered(b) && NoAsTwice(b.segment.entries)
    requires egress in n.cfg.intfs ==> n.cfg.intfs[egress].remoteIA.isd != 0 && n.cfg.intfs[egress].remoteIA.asn != 0
    ensures ToSend(n, b, egress) <==>
      && egress in n.cfg.intfs && b.inIfId in n.cfg.intfs
      && var next, es := n.cfg.intfs[egress].remoteIA, b.segment.entries;
      && (forall i :: 0 <= i < |es| ==> es[i].local != next)
      && (n.allowIsdLoop
          || (&& IsdsTogether(es)
              && forall i, j :: 0 <= i < j < |es| && es[i].local.isd == next.isd ==> es[j].local.isd == next.isd))
  {
    if egress in n.cfg.intfs {
      var next, es := n.cfg.intfs[egress].remoteIA, b.segment.entries;
      var hops := HopsTo(b, next);
      AsLoopFreeMeans(hops);
      IsdLoopFreeMeans(hops);
      hide AsLoopFree, IsdLoopFree;
      DistinctHops(b, next);
      TogetherHops(es, next);
    }
  }

  lemma DistinctHops(b: Beacon, next: IA)
    requires NoAsTwice(b.segment.entries) && !next.IsZero()
    ensures Distinct(HopsTo(b, next)) <==>
      forall i :: 0 <= i < |b.segment.entries| ==> b.segment.entries[i].local != next
  {
    var es, hops := b.segment.entries, HopsTo(b, next);
    assert forall i :: 0 <= i < |es| ==> hops[i] == es[i].local;
    assert hops[|es|] == next;
  }

  lemma TogetherHops(es: seq<ASEntry>, next: IA)
    ensures var hops := Locals(es) + [next];
      (forall i: nat, j: nat, k: nat :: !IsdLoopAt(hops, i, j, k)) <==>
        && IsdsTogether(es)
        && forall i, j :: 0 <= i < j < |es| && es[i].local.isd == next.isd ==> es[j].local.isd == next.isd
  {
    var hops := Locals(es) + [next];
    assert forall i :: 0 <= i < |es| ==> hops[i] == es[i].local;
    if forall i: nat, j: nat, k: nat :: !IsdLoopAt(hops, i, j, k) {
      forall i: nat, j: nat, k: nat | i < j < k < |es| && es[i].local.isd == es[k].local.isd
        ensures es[j].local.isd == es[i].local.isd
      {
        assert !IsdLoopAt(hops, i, j, k);
      }
      forall i, j | 0 <= i < j < |es| && es[i].local.isd == next.isd ensures es[j].local.isd == next.isd {
        assert !IsdLoopAt(hops, i, j, |es|);
      }
    }
  }
}
