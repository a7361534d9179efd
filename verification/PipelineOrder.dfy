/**
 Per-flow order: the fast-path packets of one flow that came in on one interface and leave
 on one other interface leave in their order of arrival, whatever the interleaving and drops.
 */
module PipelineOrder {
  import opened Basics
  import opened Pipeline

  /** A flow on an ingress interface. */
  datatype Stream = Stream(r: nat, flow: Flow)

  predicate Mine(m: Stream, p: Pkt) { p.fast && p.ingress == m.r && p.flow == Some(m.flow) }

  /** The arrival numbers of the stream's packets in a list. */
  function Nums(m: Stream, ps: seq<Pkt>): seq<nat> {
    if ps == [] then [] else (if Mine(m, ps[0]) then [ps[0].num] else []) + Nums(m, ps[1..])
  }

  ghost predicate Increasing(s: seq<nat>) { forall i, j :: 0 <= i < j < |s| ==> s[i] < s[j] }

  ghost predicate Below(s: seq<nat>, n: nat) { forall i :: 0 <= i < |s| ==> s[i] < n }

  lemma {:induction false} NumsAppend(m: Stream, a: seq<Pkt>, b: seq<Pkt>)
    ensures Nums(m, a + b) == Nums(m, a) + Nums(m, b)
  {
    if a == [] {
      assert a + b == b;
    } else {
      NumsAppend(m, a[1..], b);
      assert (a + b)[1..] == a[1..] + b;
    }
  }

  lemma NumsPush(m: Stream, a: seq<Pkt>, p: Pkt)
    ensures Nums(m, a + [p]) == Nums(m, a) + if Mine(m, p) then [p.num] else []
  {
    NumsAppend(m, a, [p]);
    assert [p][1..] == [];
  }

  lemma {:induction false} NumsNone(m: Stream, ps: seq<Pkt>)
    requires forall i :: 0 <= i < |ps| ==> !Mine(m, ps[i])
    ensures Nums(m, ps) == []
  {
    if ps != [] { NumsNone(m, ps[1..]); }
  }

  /** Dropping the middle of a list keeps what is increasing and below a bound. */
  lemma DropMiddle(a: seq<nat>, x: seq<nat>, b: seq<nat>, n: nat)
    requires Increasing(a + x + b) && Below(a + x + b, n)
    ensures Increasing(a + b) && Below(a + b, n)
  {
    var s, t := a + x + b, a + b;
    forall i | 0 <= i < |t| ensures t[i] == s[Place(i, |a|, |x|)] && t[i] < n { }
    forall i, j | 0 <= i < j < |t| ensures t[i] < t[j] {
      assert s[Place(i, |a|, |x|)] < s[Place(j, |a|, |x|)];
    }
  }

  function Place(i: nat, a: nat, x: nat): nat { if i < a then i else i + x }

  // ----- The route of a stream through the router --------------------------------------

  /** Every packet of list number `k` hashes to processor `k`. */
  ghost predicate Hashed(c: Config, ss: seq<seq<Pkt>>) {
    forall q, i :: 0 <= q < |ss| && 0 <= i < |ss[q]| ==> RoutedTo(c, ss[q][i], q)
  }

  predicate RoutedTo(c: Config, p: Pkt, q: nat) { p.flow.Some? && c.ProcOf(p.ingress, p.flow.value) == q }

  /** Every packet of list number `k` came in on interface `k`. */
  ghost predicate Own(ss: seq<seq<Pkt>>) {
    forall r, i :: 0 <= r < |ss| && 0 <= i < |ss[r]| ==> ss[r][i].ingress == r
  }

  /** A processor holds only packets that hash to it; a receiver only its own. */
  ghost predicate Routed(c: Config, s: State) { Hashed(c, s.procQ) && Hashed(c, s.proc) && Own(s.pending) }

  lemma MoveHashed(c: Config, from: seq<seq<Pkt>>, to: seq<seq<Pkt>>, q: nat)
    requires Hashed(c, from) && Hashed(c, to) && Head(from, q) && q < |to|
    ensures Hashed(c, Pop(from, q)) && Hashed(c, Push(to, q, from[q][0]))
  {
  }

  lemma ReadOwn(c: Config, s: State, r: nat, flows: seq<Option<Flow>>)
    requires Own(s.pending) && Enabled(c, s, Read(r, flows))
    ensures Own(Next(c, s, Read(r, flows)).pending)
  {
  }

  lemma EnqueueRouted(c: Config, s: State, r: nat)
    requires Routed(c, s) && Head(s.pending, r)
    ensures Routed(c, EnqueueNext(c, s, r))
  {
  }

  lemma FinishRouted(c: Config, s: State, q: nat, o: Outcome)
    requires Routed(c, s) && Head(s.proc, q)
    ensures Routed(c, FinishNext(c, s, q, o))
  {
    MoveHashed(c, s.proc, s.proc, q);
    hide Hashed, Own;
  }

  lemma StepRouted(c: Config, s: State, step: Step)
    requires Routed(c, s) && Enabled(c, s, step)
    ensures Routed(c, Next(c, s, step))
  {
    hide Hashed, Own, EnqueueNext, FinishNext;
    match step {
      case Read(r, flows) => ReadOwn(c, s, r, flows);
      case Enqueue(r) => EnqueueRouted(c, s, r);
      case Take(q) => MoveHashed(c, s.procQ, s.proc, q);
      case Finish(q, o) => FinishRouted(c, s, q, o);
      case _ =>
    }
  }

  function Item(m: Stream, ss: seq<seq<Pkt>>, i: nat): seq<nat> { if i < |ss| then Nums(m, ss[i]) else [] }

  /** Written so far and waiting at the forwarder of `e`. */
  function Out(m: Stream, s: State, e: nat): seq<nat> {
    Item(m, s.sent, e) + Item(m, s.fw, e) + Item(m, s.fwQ, e)
  }

  /** In the stream's own processor, in its queue, and still with the receiver. */
  function In(c: Config, m: Stream, s: State): seq<nat> {
    Item(m, s.proc, c.ProcOf(m.r, m.flow)) + Item(m, s.procQ, c.ProcOf(m.r, m.flow)) + Item(m, s.pending, m.r)
  }

  function Arrivals(m: Stream, s: State): nat { if m.r < |s.arrivals| then s.arrivals[m.r] else 0 }

  ghost predicate InOrder(c: Config, m: Stream, e: nat, s: State) {
    var all := Out(m, s, e) + In(c, m, s);
    Increasing(all) && Below(all, Arrivals(m, s))
  }

  // ----- Every step ------------------------------------------------------------------

  function Num(m: Stream, p: Pkt): seq<nat> { if Mine(m, p) then [p.num] else [] }

  lemma PopItem(m: Stream, ss: seq<seq<Pkt>>, i: nat, j: nat)
    requires Head(ss, i)
    ensures Item(m, ss, j) == (if i == j then Num(m, ss[i][0]) else []) + Item(m, Pop(ss, i), j)
  {
  }

  lemma PushItem(m: Stream, ss: seq<seq<Pkt>>, i: nat, p: Pkt, j: nat)
    requires i < |ss|
    ensures Item(m, Push(ss, i, p), j) == Item(m, ss, j) + if i == j then Num(m, p) else []
  {
    NumsPush(m, ss[i], p);
  }

  /** The new list is the old one, possibly without a part of it. */
  ghost predicate Thinner(old_: seq<nat>, new_: seq<nat>) {
    exists a, x, b :: old_ == a + x + b && new_ == a + b
  }

  lemma Thin(a: seq<nat>, x: seq<nat>, b: seq<nat>)
    ensures Thinner(a + x + b, a + b)
  {
  }

  lemma Same(a: seq<nat>)
    ensures Thinner(a, a)
  {
    assert a == a + [] + [] && a == a + [];
    Thin(a, [], []);
  }

  lemma ThinInOrder(c: Config, m: Stream, e: nat, s: State, t: State)
    requires InOrder(c, m, e, s) && Arrivals(m, t) == Arrivals(m, s)
    requires Thinner(Out(m, s, e) + In(c, m, s), Out(m, t, e) + In(c, m, t))
    ensures InOrder(c, m, e, t)
  {
    hide Out, In, Increasing, Below, Arrivals;
    var a, x, b :| Out(m, s, e) + In(c, m, s) == a + x + b && Out(m, t, e) + In(c, m, t) == a + b;
    DropMiddle(a, x, b, Arrivals(m, s));
  }

  lemma EnqueueOrder(c: Config, m: Stream, e: nat, s: State, r: nat)
    requires Routed(c, s) && Head(s.pending, r)
    ensures var t := EnqueueNext(c, s, r);
      Out(m, t, e) == Out(m, s, e) && Thinner(Out(m, s, e) + In(c, m, s), Out(m, t, e) + In(c, m, t))
  {
    hide Nums, Thinner, Item;
    var t := EnqueueNext(c, s, r);
    var p, q0 := s.pending[r][0], c.ProcOf(m.r, m.flow);
    var pre, rest := Out(m, s, e) + Item(m, s.proc, q0), Item(m, t.pending, m.r);
    PopItem(m, s.pending, r, m.r);
    if p.flow.Some? && c.ProcOf(r, p.flow.value) < |s.procQ| {
      PushItem(m, s.procQ, c.ProcOf(r, p.flow.value), p, q0);
    }
    var x := if r == m.r then Num(m, p) else [];
    assert Item(m, s.pending, m.r) == x + rest;
    var full := pre + Item(m, s.procQ, q0);
    assert Out(m, s, e) + In(c, m, s) == full + x + rest;
    if t.procQ == s.procQ {
      assert Out(m, t, e) + In(c, m, t) == full + rest;
      Thin(full, x, rest);
    } else {
      assert Num(m, p) == x;
      assert Item(m, t.procQ, q0) == Item(m, s.procQ, q0) + x;
      assert Out(m, t, e) + In(c, m, t) == full + x + rest;
      Same(full + x + rest);
    }
  }

  lemma FinishOrder(c: Config, m: Stream, e: nat, s: State, q: nat, o: Outcome)
    requires Routed(c, s) && Head(s.proc, q)
    ensures var t := FinishNext(c, s, q, o);
      Thinner(Out(m, s, e) + In(c, m, s), Out(m, t, e) + In(c, m, t))
  {
    hide Nums, Thinner, Item;
    var t := FinishNext(c, s, q, o);
    var p, q0 := s.proc[q][0], c.ProcOf(m.r, m.flow);
    PopItem(m, s.proc, q, q0);
    var x := if q == q0 then Num(m, p) else [];
    var rest := Item(m, t.proc, q0) + Item(m, s.procQ, q0) + Item(m, s.pending, m.r);
    assert Out(m, s, e) + In(c, m, s) == Out(m, s, e) + x + rest;
    if o.Forward? && o.egress < |s.fwQ| && |s.fwQ[o.egress]| < c.batch && o.egress == e {
      PushItem(m, s.fwQ, e, p, e);
      assert Num(m, p) == x;
      assert Out(m, t, e) + In(c, m, t) == Out(m, s, e) + x + rest;
      Same(Out(m, s, e) + x + rest);
    } else {
      if o.Forward? && o.egress < |s.fwQ| { PushItem(m, s.fwQ, o.egress, p, e); }
      assert Out(m, t, e) + In(c, m, t) == Out(m, s, e) + rest;
      Thin(Out(m, s, e), x, rest);
    }
  }

  lemma FinishSlowOrder(c: Config, m: Stream, e: nat, s: State, q: nat, o: SlowOutcome)
    requires Head(s.slow, q)
    ensures var t := FinishSlowNext(c, s, q, o); Out(m, t, e) == Out(m, s, e) && In(c, m, t) == In(c, m, s)
  {
    hide Nums, Item;
    if !o.SlowError? && o.egress < |s.fwQ| {
      var p := s.slow[q][0].(fast := false);
      PushItem(m, s.fwQ, o.egress, p, e);
      PushItem(m, s.fwQ, o.egress, p.(buf := Empty), e);
    }
  }

  lemma FlushOrder(c: Config, m: Stream, e: nat, s: State, f: nat, w: nat)
    requires Enabled(c, s, Flush(f, w))
    ensures var t := Next(c, s, Flush(f, w));
      Thinner(Out(m, s, e) + In(c, m, s), Out(m, t, e) + In(c, m, t))
  {
    hide Nums, Thinner;
    var t := Next(c, s, Flush(f, w));
    if f == e {
      var l, h := s.fw[e], Handled(w, |s.fw[e]|);
      NumsAppend(m, s.sent[e], l[..w]);
      assert l == l[..w] + l[w..h] + l[h..];
      NumsAppend(m, l[..w] + l[w..h], l[h..]);
      NumsAppend(m, l[..w], l[w..h]);
      var pre, post := Nums(m, s.sent[e]) + Nums(m, l[..w]), Nums(m, l[h..]) + Item(m, s.fwQ, e) + In(c, m, s);
      assert Out(m, s, e) + In(c, m, s) == pre + Nums(m, l[w..h]) + post;
      assert Out(m, t, e) + In(c, m, t) == pre + post;
      Thin(pre, Nums(m, l[w..h]), post);
    } else {
      assert Out(m, t, e) == Out(m, s, e) && In(c, m, t) == In(c, m, s);
      Same(Out(m, s, e) + In(c, m, s));
    }
  }

  lemma MoveItem(m: Stream, from: seq<seq<Pkt>>, to: seq<seq<Pkt>>, i: nat, j: nat)
    requires Head(from, i) && i < |to|
    ensures Item(m, Push(to, i, from[i][0]), j) + Item(m, Pop(from, i), j) == Item(m, to, j) + Item(m, from, j)
  {
    hide Nums, Item;
    PopItem(m, from, i, j);
    PushItem(m, to, i, from[i][0], j);
  }

  /** Steps that move a packet within the route, or touch nothing of it. */
  lemma MoveOrder(c: Config, m: Stream, e: nat, s: State, step: Step)
    requires Enabled(c, s, step)
    requires step.Collect? || step.Take? || step.TakeSlow? || step.Fetch? || step.Return?
    ensures var t := Next(c, s, step); Out(m, t, e) == Out(m, s, e) && In(c, m, t) == In(c, m, s)
  {
    hide Nums, Item;
    var t, q0 := Next(c, s, step), c.ProcOf(m.r, m.flow);
    match step {
      case Take(q) =>
        MoveItem(m, s.procQ, s.proc, q, q0);
        assert Item(m, t.proc, q0) + Item(m, t.procQ, q0) == Item(m, s.proc, q0) + Item(m, s.procQ, q0);
      case Fetch(f) =>
        MoveItem(m, s.fwQ, s.fw, f, e);
        assert Out(m, t, e) == Item(m, s.sent, e) + (Item(m, t.fw, e) + Item(m, t.fwQ, e));
        assert Out(m, s, e) == Item(m, s.sent, e) + (Item(m, s.fw, e) + Item(m, s.fwQ, e));
      case _ =>
    }
  }

  lemma {:induction false} ArrivedNums(m: Stream, ps: seq<Pkt>, num: nat)
    requires forall i :: 0 <= i < |ps| ==> ps[i].num == num + i
    ensures Increasing(Nums(m, ps)) && Below(Nums(m, ps), num + |ps|)
    ensures forall i :: 0 <= i < |Nums(m, ps)| ==> num <= Nums(m, ps)[i]
  {
    if ps != [] { ArrivedNums(m, ps[1..], num + 1); }
  }

  /** Numbers from `n` on behind numbers below `n`. */
  lemma AppendLater(a: seq<nat>, x: seq<nat>, n: nat, m: nat)
    requires Increasing(a) && Below(a, n) && n <= m
    requires Increasing(x) && Below(x, m) && forall i :: 0 <= i < |x| ==> n <= x[i]
    ensures Increasing(a + x) && Below(a + x, m)
  {
  }

  /** A read touches nothing but what is still with its receiver. */
  lemma ReadItems(c: Config, m: Stream, e: nat, s: State, r: nat, flows: seq<Option<Flow>>)
    requires Enabled(c, s, Read(r, flows))
    ensures var t := Next(c, s, Read(r, flows));
      && Out(m, t, e) == Out(m, s, e)
      && r < |t.pending| && |t.pending[r]| == |flows| && r < |t.arrivals| && t.arrivals[r] == s.arrivals[r] + |flows|
      && (forall i :: 0 <= i < |flows| ==> t.pending[r][i].num == s.arrivals[r] + i)
      && In(c, m, t) == In(c, m, s) + (if r == m.r then Nums(m, t.pending[r]) else [])
      && Arrivals(m, t) == (if r == m.r then t.arrivals[r] else Arrivals(m, s))
  {
    NumsNone(m, s.pending[r]);
    hide Nums;
  }

  /** New arrivals go behind everything that came before them. */
  lemma ReadOrder(c: Config, m: Stream, e: nat, s: State, r: nat, flows: seq<Option<Flow>>)
    requires InOrder(c, m, e, s) && Enabled(c, s, Read(r, flows))
    ensures InOrder(c, m, e, Next(c, s, Read(r, flows)))
  {
    hide Nums, Out, In, Increasing, Below, Next;
    var t := Next(c, s, Read(r, flows));
    ReadItems(c, m, e, s, r, flows);
    var before := Out(m, s, e) + In(c, m, s);
    if r == m.r {
      var x := Nums(m, t.pending[r]);
      ArrivedNums(m, t.pending[r], s.arrivals[r]);
      AppendLater(before, x, s.arrivals[r], t.arrivals[r]);
      assert Out(m, t, e) + In(c, m, t) == before + x;
    } else {
      assert In(c, m, t) == In(c, m, s) + [] == In(c, m, s);
    }
  }

  lemma StepOrder(c: Config, m: Stream, e: nat, s: State, step: Step)
    requires Routed(c, s) && InOrder(c, m, e, s) && Enabled(c, s, step)
    ensures InOrder(c, m, e, Next(c, s, step))
  {
    hide Routed, InOrder, Out, In, Thinner, EnqueueNext, FinishNext, FinishSlowNext;
    var t := Next(c, s, step);
    if step.Read? {
      ReadOrder(c, m, e, s, step.r, step.flows);
    } else {
      match step {
        case Enqueue(r) => EnqueueOrder(c, m, e, s, r);
        case Finish(q, o) => FinishOrder(c, m, e, s, q, o);
        case FinishSlow(q, o) => FinishSlowOrder(c, m, e, s, q, o); Same(Out(m, s, e) + In(c, m, s));
        case Flush(f, w) => FlushOrder(c, m, e, s, f, w);
        case _ => MoveOrder(c, m, e, s, step); Same(Out(m, s, e) + In(c, m, s));
      }
      SameArrivals(c, s, step);
      ThinInOrder(c, m, e, s, t);
    }
  }

  lemma SameArrivals(c: Config, s: State, step: Step)
    requires Enabled(c, s, step) && !step.Read?
    ensures Next(c, s, step).arrivals == s.arrivals
  {
  }

  lemma {:induction false} RunOrder(c: Config, m: Stream, e: nat, steps: seq<Step>)
    requires Reached(c, steps).Some?
    ensures Routed(c, Reached(c, steps).value) && InOrder(c, m, e, Reached(c, steps).value)
  {
    if steps != [] {
      var before := steps[..|steps| - 1];
      RunOrder(c, m, e, before);
      StepRouted(c, Reached(c, before).value, steps[|steps| - 1]);
      StepOrder(c, m, e, Reached(c, before).value, steps[|steps| - 1]);
    }
  }

  /**
   What has left on `e` is, for every stream, a list of strictly increasing arrival numbers:
   a subsequence of what came in, in every run.
   */
  lemma FlowOrderKept(c: Config, m: Stream, e: nat, steps: seq<Step>)
    requires Reached(c, steps).Some?
    ensures var s := Reached(c, steps).value;
      e < |s.sent| ==> Increasing(Nums(m, s.sent[e])) && Below(Nums(m, s.sent[e]), Arrivals(m, s))
  {
    RunOrder(c, m, e, steps);
    var s := Reached(c, steps).value;
    if e < |s.sent| {
      var all, own := Out(m, s, e) + In(c, m, s), Nums(m, s.sent[e]);
      assert own == Item(m, s.sent, e);
      assert forall i :: 0 <= i < |own| ==> own[i] == all[i];
    }
  }
}
