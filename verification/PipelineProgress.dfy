/**
 What gets through the router's pipeline: packets are lost only for one of a few reasons, and with
 none of them in the way a packet that came in is sent.
 */
module PipelineProgress {
  import opened Basics
  import opened Pipeline
  import PipelineOrder

  // ----- One forward -------------------------------------------------------------------------

  /** A packet for an egress with room is the last one in its queue; no buffer goes back. */
  lemma ForwardQueues(c: Config, s: State, q: nat, e: nat)
    requires Head(s.proc, q) && e < |s.fwQ| && |s.fwQ[e]| < c.batch
    ensures var t := FinishNext(c, s, q, Forward(e));
      && t.pool == s.pool && t.fwQ == s.fwQ[e := s.fwQ[e] + [s.proc[q][0]]] && t.proc == s.proc[q := s.proc[q][1..]]
      && t.slowQ == s.slowQ && t.sent == s.sent && t.fw == s.fw
  {
  }

  // ----- Losses ------------------------------------------------------------------------------

  predicate Holds(ss: seq<seq<Pkt>>, p: Pkt) { exists i :: 0 <= i < |ss| && p in ss[i] }

  /** The packet is with a receiver, a processor or a forwarder, or in a queue between them. */
  ghost predicate InRouter(s: State, p: Pkt) {
    || Holds(s.pending, p) || Holds(s.procQ, p) || Holds(s.proc, p) || Holds(s.slowQ, p) || Holds(s.slow, p)
    || Holds(s.fwQ, p) || Holds(s.fw, p)
  }

  ghost predicate WasSent(s: State, p: Pkt) { Holds(s.sent, p) }

  /** Why a step takes a packet out of the router without sending it. */
  ghost predicate Lost(c: Config, s: State, step: Step, p: Pkt)
    requires Enabled(c, s, step)
  {
    match step
    case Enqueue(r) =>
      // its header cannot be read, or the processor of its flow has a full queue
      && p == s.pending[r][0]
      && (p.buf.Empty? || p.flow.None?
          || var q := c.ProcOf(r, p.flow.value); q >= |s.procQ| || |s.procQ[q]| >= c.queue)
    case Finish(q, Discard) => p == s.proc[q][0]
    case Finish(q, Forward(e)) =>
      // the egress is unknown, or its forwarder has a full queue
      p == s.proc[q][0] && (e >= |s.fwQ| || |s.fwQ[e]| >= c.batch)
    case Finish(q, ToSlow) =>
      // the slow path has a full queue
      p == s.proc[q][0] && (c.slows == 0 || q % c.slows >= |s.slowQ| || |s.slowQ[q % c.slows]| >= c.queue)
    case FinishSlow(q, _) => p == s.slow[q][0]
    case Flush(e, w) =>
      // the first packet that a short write did not write
      w < |s.fw[e]| && p == s.fw[e][w]
    case _ => false
  }

  lemma HoldsHead(ss: seq<seq<Pkt>>, i: nat, p: Pkt)
    requires Head(ss, i) && Holds(ss, p)
    ensures Holds(Pop(ss, i), p) || p == ss[i][0]
  {
    var j :| 0 <= j < |ss| && p in ss[j];
    var t := Pop(ss, i);
    if j == i {
      if p != ss[i][0] { assert p in ss[i][1..] && p in t[i]; }
    } else {
      assert t[j] == ss[j];
    }
  }

  lemma HoldsPush(ss: seq<seq<Pkt>>, i: nat, x: Pkt)
    requires i < |ss|
    ensures Holds(Push(ss, i, x), x)
    ensures forall p :: Holds(ss, p) ==> Holds(Push(ss, i, x), p)
  {
    var t := Push(ss, i, x);
    assert t[i][|ss[i]|] == x;
    forall p | Holds(ss, p) ensures Holds(t, p) {
      var j :| 0 <= j < |ss| && p in ss[j];
      assert p in t[j];
    }
  }

  /** A list of one actor replaced: the others keep theirs. */
  lemma HoldsUpdate(ss: seq<seq<Pkt>>, i: nat, x: seq<Pkt>, p: Pkt)
    requires i < |ss| && Holds(ss, p)
    ensures Holds(ss[i := x], p) || p in ss[i]
    ensures p in x ==> Holds(ss[i := x], p)
  {
    var j :| 0 <= j < |ss| && p in ss[j];
    var t := ss[i := x];
    assert t[i] == x;
    if j != i { assert t[j] == ss[j]; }
  }

  lemma HoldsIn(ss: seq<seq<Pkt>>, i: nat, p: Pkt)
    requires i < |ss| && p in ss[i]
    ensures Holds(ss, p)
  {
  }

  lemma MoveKeeps(from: seq<seq<Pkt>>, to: seq<seq<Pkt>>, i: nat, p: Pkt)
    requires Head(from, i) && i < |to| && (Holds(from, p) || Holds(to, p))
    ensures Holds(Pop(from, i), p) || Holds(Push(to, i, from[i][0]), p)
  {
    HoldsPush(to, i, from[i][0]);
    if Holds(from, p) { HoldsHead(from, i, p); }
  }

  lemma FlushKeeps(c: Config, s: State, e: nat, w: nat, p: Pkt)
    requires Enabled(c, s, Flush(e, w)) && InRouter(s, p)
    ensures var t := Next(c, s, Flush(e, w)); InRouter(t, p) || WasSent(t, p) || Lost(c, s, Flush(e, w), p)
  {
    hide Holds;
    var l, h := s.fw[e], if w < |s.fw[e]| then w + 1 else |s.fw[e]|;
    var t := Next(c, s, Flush(e, w));
    assert t.fw == s.fw[e := l[h..]] && t.sent == s.sent[e := s.sent[e] + l[..w]];
    if Holds(s.fw, p) {
      HoldsUpdate(s.fw, e, l[h..], p);
      if p in l {
        var k :| 0 <= k < |l| && l[k] == p;
        if k < w {
          assert t.sent[e][|s.sent[e]| + k] == p;
          HoldsIn(t.sent, e, p);
        } else if k >= h {
          assert l[h..][k - h] == p;
        }
      }
    }
  }

  lemma EnqueueKeeps(c: Config, s: State, r: nat, p: Pkt)
    requires Enabled(c, s, Enqueue(r)) && InRouter(s, p)
    ensures InRouter(Next(c, s, Enqueue(r)), p) || Lost(c, s, Enqueue(r), p)
  {
    hide Holds;
    var x := s.pending[r][0];
    if Holds(s.pending, p) { HoldsHead(s.pending, r, p); }
    if x.flow.Some? && c.ProcOf(r, x.flow.value) < |s.procQ| { HoldsPush(s.procQ, c.ProcOf(r, x.flow.value), x); }
  }

  lemma FinishKeeps(c: Config, s: State, q: nat, o: Outcome, p: Pkt)
    requires Enabled(c, s, Finish(q, o)) && InRouter(s, p)
    ensures InRouter(Next(c, s, Finish(q, o)), p) || Lost(c, s, Finish(q, o), p)
  {
    hide Holds;
    var x := s.proc[q][0];
    if Holds(s.proc, p) { HoldsHead(s.proc, q, p); }
    match o
    case Discard =>
    case Forward(e) => if e < |s.fwQ| { HoldsPush(s.fwQ, e, x); }
    case ToSlow => if c.slows > 0 && q % c.slows < |s.slowQ| { HoldsPush(s.slowQ, q % c.slows, x); }
  }

  lemma FinishSlowKeeps(c: Config, s: State, q: nat, o: SlowOutcome, p: Pkt)
    requires Enabled(c, s, FinishSlow(q, o)) && InRouter(s, p)
    ensures InRouter(Next(c, s, FinishSlow(q, o)), p) || Lost(c, s, FinishSlow(q, o), p)
  {
    hide Holds;
    if Holds(s.slow, p) { HoldsHead(s.slow, q, p); }
    var x := s.slow[q][0].(fast := false);
    if !o.SlowError? && o.egress < |s.fwQ| {
      HoldsPush(s.fwQ, o.egress, x);
      HoldsPush(s.fwQ, o.egress, x.(buf := Empty));
    }
  }

  lemma ReadKeeps(c: Config, s: State, r: nat, flows: seq<Option<Flow>>, p: Pkt)
    requires Enabled(c, s, Read(r, flows)) && InRouter(s, p)
    ensures InRouter(Next(c, s, Read(r, flows)), p)
  {
    var t := Next(c, s, Read(r, flows));
    if Holds(s.pending, p) { HoldsUpdate(s.pending, r, t.pending[r], p); }
    hide Holds, Arrived;
  }

  /** A packet in the router stays there, is sent, or is lost for one of the reasons. */
  lemma StepKeeps(c: Config, s: State, step: Step, p: Pkt)
    requires Enabled(c, s, step) && InRouter(s, p)
    ensures InRouter(Next(c, s, step), p) || WasSent(Next(c, s, step), p) || Lost(c, s, step, p)
  {
    match step {
      case Read(r, flows) => ReadKeeps(c, s, r, flows, p);
      case Enqueue(r) => EnqueueKeeps(c, s, r, p);
      case Take(q) => MoveOne(c, s, step, p);
      case Finish(q, o) => FinishKeeps(c, s, q, o, p);
      case TakeSlow(q) => MoveOne(c, s, step, p);
      case FinishSlow(q, o) => FinishSlowKeeps(c, s, q, o, p);
      case Fetch(e) => MoveOne(c, s, step, p);
      case Flush(e, w) => FlushKeeps(c, s, e, w, p);
      case _ => hide Holds;
    }
    hide InRouter, WasSent, Lost, Next;
  }

  lemma MoveOne(c: Config, s: State, step: Step, p: Pkt)
    requires Enabled(c, s, step) && (step.Take? || step.TakeSlow? || step.Fetch?) && InRouter(s, p)
    ensures InRouter(Next(c, s, step), p)
  {
    hide Holds;
    match step {
      case Take(q) => if Holds(s.procQ, p) || Holds(s.proc, p) { MoveKeeps(s.procQ, s.proc, q, p); }
      case TakeSlow(q) => if Holds(s.slowQ, p) || Holds(s.slow, p) { MoveKeeps(s.slowQ, s.slow, q, p); }
      case Fetch(e) => if Holds(s.fwQ, p) || Holds(s.fw, p) { MoveKeeps(s.fwQ, s.fw, e, p); }
    }
  }

  lemma SentStays(c: Config, s: State, step: Step, p: Pkt)
    requires Enabled(c, s, step) && WasSent(s, p)
    ensures WasSent(Next(c, s, step), p)
  {
    if step.Flush? {
      var e, l := step.e, s.fw[step.e][..step.written];
      HoldsUpdate(s.sent, e, s.sent[e] + l, p);
      hide Holds;
    }
  }

  /** Some step of a run lost the packet. */
  ghost predicate LostIn(c: Config, steps: seq<Step>, from: nat, p: Pkt) {
    exists n: nat :: from <= n < |steps| && LostAt(c, steps, n, p)
  }

  ghost predicate LostAt(c: Config, steps: seq<Step>, n: nat, p: Pkt)
    requires n < |steps|
  {
    && Reached(c, steps[..n]).Some? && Enabled(c, Reached(c, steps[..n]).value, steps[n])
    && Lost(c, Reached(c, steps[..n]).value, steps[n], p)
  }

  /** In every run, a packet that is in the router at some point is there at the end, was sent, or was lost. */
  lemma {:induction false} NoPacketVanishes(c: Config, steps: seq<Step>, from: nat, p: Pkt)
    requires Reached(c, steps).Some? && from <= |steps| && Reached(c, steps[..from]).Some?
    requires InRouter(Reached(c, steps[..from]).value, p)
    ensures var t := Reached(c, steps).value; InRouter(t, p) || WasSent(t, p) || LostIn(c, steps, from, p)
  {
    hide InRouter, WasSent, Lost, Next, Enabled;
    if |steps| == from {
      assert steps[..from] == steps;
    } else {
      var n := |steps| - 1;
      var before := steps[..n];
      assert before[..from] == steps[..from];
      NoPacketVanishes(c, before, from, p);
      var s := Reached(c, before).value;
      if LostIn(c, before, from, p) {
        var m: nat :| from <= m < |before| && LostAt(c, before, m, p);
        assert before[..m] == steps[..m] && LostAt(c, steps, m, p);
      } else if WasSent(s, p) {
        SentStays(c, s, steps[n], p);
      } else {
        StepKeeps(c, s, steps[n], p);
        if Lost(c, s, steps[n], p) { assert LostAt(c, steps, n, p); }
      }
    }
  }

  // ----- A free way --------------------------------------------------------------------------

  /** The processor of the flow and the forwarder of the egress have nothing to do. */
  ghost predicate FreeWay(s: State, q: nat, e: nat) {
    && q < |s.procQ| && q < |s.proc| && s.procQ[q] == [] && s.proc[q] == []
    && FreeOut(s, e)
  }

  ghost predicate FreeOut(s: State, e: nat) {
    && e < |s.fwQ| && e < |s.fw| && e < |s.done| && e < |s.sent|
    && s.fwQ[e] == [] && s.fw[e] == [] && s.done[e] == []
  }

  /** The packet next to be enqueued, its header readable. */
  ghost predicate NextIn(c: Config, s: State, r: nat, p: Pkt, q: nat) {
    && Head(s.pending, r) && s.pending[r][0] == p && p.buf.Full? && p.flow.Some? && c.ProcOf(r, p.flow.value) == q
  }

  /** Continuing a run by a step. */
  lemma Continue(c: Config, steps: seq<Step>, more: seq<Step>, step: Step) returns (t: State)
    requires Reached(c, steps + more).Some? && Enabled(c, Reached(c, steps + more).value, step)
    ensures Reached(c, steps + (more + [step])) == Some(t) && t == Next(c, Reached(c, steps + more).value, step)
  {
    var all := steps + (more + [step]);
    assert all[..|all| - 1] == steps + more && all[|all| - 1] == step;
    t := Next(c, Reached(c, steps + more).value, step);
  }

  lemma TakeIn(c: Config, s: State, r: nat, p: Pkt, q: nat)
    requires NextIn(c, s, r, p, q) && c.queue > 0 && q < |s.procQ| && s.procQ[q] == []
    requires q < |s.proc| && s.proc[q] == []
    ensures Enabled(c, s, Enqueue(r))
    ensures var t := Next(c, s, Enqueue(r));
      && Enabled(c, t, Take(q))
      && var u := Next(c, t, Take(q));
      u == s.(pending := s.pending[r := s.pending[r][1..]], proc := s.proc[q := [p]])
  {
    var t := Next(c, s, Enqueue(r));
    assert t.procQ[q] == [p];
    var u := Next(c, t, Take(q));
    assert u.procQ[q] == [];
    assert u.procQ == s.procQ;
    assert u.proc[q] == [p];
  }

  /** From the forwarder's queue over the link. */
  lemma SendOut(c: Config, s: State, e: nat, p: Pkt)
    requires c.batch > 0 && e < |s.fwQ| && e < |s.fw| && e < |s.done| && e < |s.sent|
    requires s.fwQ[e] == [p] && s.fw[e] == [] && s.done[e] == []
    ensures Enabled(c, s, Fetch(e))
    ensures var t := Next(c, s, Fetch(e));
      && Enabled(c, t, Flush(e, 1))
      && Next(c, t, Flush(e, 1)).sent == s.sent[e := s.sent[e] + [p]]
  {
    var t := Next(c, s, Fetch(e));
    assert t.fw[e] == [p];
    assert t.fw[e][..1] == [p];
  }

  /** Over the link, as the end of a run. */
  lemma SendEnds(c: Config, steps: seq<Step>, before: seq<Step>, e: nat, p: Pkt) returns (more: seq<Step>)
    requires Reached(c, steps + before).Some? && c.batch > 0
    requires var s := Reached(c, steps + before).value;
      && e < |s.fwQ| && e < |s.fw| && e < |s.done| && e < |s.sent|
      && s.fwQ[e] == [p] && s.fw[e] == [] && s.done[e] == []
    ensures Reached(c, steps + more).Some?
    ensures var s, t := Reached(c, steps + before).value, Reached(c, steps + more).value;
      t.sent == s.sent[e := s.sent[e] + [p]]
  {
    hide Reached;
    SendOut(c, Reached(c, steps + before).value, e, p);
    hide Next, Enabled;
    var t := Continue(c, steps, before, Fetch(e));
    var u := Continue(c, steps, before + [Fetch(e)], Flush(e, 1));
    more := before + [Fetch(e)] + [Flush(e, 1)];
  }

  /**
   From every reachable state with the way free, there is a continuation in which the next packet
   of an interface leaves over its egress.
   */
  lemma PacketGetsThrough(c: Config, steps: seq<Step>, r: nat, p: Pkt, q: nat, e: nat) returns (more: seq<Step>)
    requires Reached(c, steps).Some? && c.queue > 0 && c.batch > 0
    requires NextIn(c, Reached(c, steps).value, r, p, q) && FreeWay(Reached(c, steps).value, q, e)
    ensures Reached(c, steps + more).Some?
    ensures var s, t := Reached(c, steps).value, Reached(c, steps + more).value;
      t.sent == s.sent[e := s.sent[e] + [p]]
  {
    hide Reached;
    var s := Reached(c, steps).value;
    assert steps + [] == steps;
    TakeIn(c, s, r, p, q);
    var s1 := Continue(c, steps, [], Enqueue(r));
    var s2 := Continue(c, steps, [] + [Enqueue(r)], Take(q));
    ForwardQueues(c, s2, q, e);
    var before := [] + [Enqueue(r)] + [Take(q)];
    var s3 := Continue(c, steps, before, Finish(q, Forward(e)));
    assert s3.fwQ[e] == [p] && s3.sent == s.sent;
    assert s3.done == s.done && s3.fw == s.fw;
    hide Next, Enabled, NextIn;
    more := SendEnds(c, steps, before + [Finish(q, Forward(e))], e, p);
  }

  lemma ToSlowQueues(c: Config, s: State, q: nat, p: Pkt)
    requires Head(s.proc, q) && s.proc[q][0] == p && c.slows > 0 && c.queue > 0
    requires var k := q % c.slows; k < |s.slowQ| && k < |s.slow| && s.slowQ[k] == [] && s.slow[k] == []
    ensures var k, t := q % c.slows, Next(c, s, Finish(q, ToSlow));
      && Enabled(c, t, TakeSlow(k))
      && var u := Next(c, t, TakeSlow(k));
      u == s.(proc := s.proc[q := s.proc[q][1..]], slow := s.slow[k := [p]])
  {
    var k, t := q % c.slows, Next(c, s, Finish(q, ToSlow));
    assert t.slowQ[k] == [p];
    var u := Next(c, t, TakeSlow(k));
    assert u.slowQ[k] == [];
    assert u.slowQ == s.slowQ;
    assert u.slow[k] == [p];
  }

  lemma ReplyQueues(c: Config, s: State, k: nat, p: Pkt, e: nat)
    requires k < |s.slow| && s.slow[k] == [p] && FreeOut(s, e) && c.batch > 0
    ensures var t := Next(c, s, FinishSlow(k, Reply(e)));
      && t.fwQ == s.fwQ[e := [p.(fast := false)]] && t.fw == s.fw && t.done == s.done && t.sent == s.sent
  {
    assert Next(c, s, FinishSlow(k, Reply(e))).fwQ[e] == [p.(fast := false)];
  }

  /** The answer to a packet that needs the slow path gets through just so. */
  lemma AnswerGetsThrough(c: Config, steps: seq<Step>, q: nat, p: Pkt, e: nat) returns (more: seq<Step>)
    requires Reached(c, steps).Some? && c.queue > 0 && c.batch > 0 && c.slows > 0
    requires var s := Reached(c, steps).value;
      && Head(s.proc, q) && s.proc[q][0] == p && FreeOut(s, e)
      && var k := q % c.slows;
      k < |s.slowQ| && k < |s.slow| && s.slowQ[k] == [] && s.slow[k] == []
    ensures Reached(c, steps + more).Some?
    ensures var s, t := Reached(c, steps).value, Reached(c, steps + more).value;
      t.sent == s.sent[e := s.sent[e] + [p.(fast := false)]]
  {
    hide Reached;
    var s, k := Reached(c, steps).value, q % c.slows;
    assert steps + [] == steps;
    ToSlowQueues(c, s, q, p);
    hide Next;
    var s1 := Continue(c, steps, [], Finish(q, ToSlow));
    var s2 := Continue(c, steps, [] + [Finish(q, ToSlow)], TakeSlow(k));
    ReplyQueues(c, s2, k, p, e);
    var before := [] + [Finish(q, ToSlow)] + [TakeSlow(k)];
    var s3 := Continue(c, steps, before, FinishSlow(k, Reply(e)));
    more := SendEnds(c, steps, before + [FinishSlow(k, Reply(e))], e, p.(fast := false));
  }

  /** In terms of order: the number of the packet is added behind those of its flow sent before. */
  lemma NumberGained(c: Config, steps: seq<Step>, r: nat, p: Pkt, q: nat, e: nat) returns (more: seq<Step>)
    requires Reached(c, steps).Some? && c.queue > 0 && c.batch > 0 && p.fast && p.ingress == r
    requires NextIn(c, Reached(c, steps).value, r, p, q) && FreeWay(Reached(c, steps).value, q, e)
    ensures Reached(c, steps + more).Some?
    ensures var s, t := Reached(c, steps).value, Reached(c, steps + more).value;
      && e < |t.sent|
      && PipelineOrder.Nums(PipelineOrder.Stream(r, p.flow.value), t.sent[e])
         == PipelineOrder.Nums(PipelineOrder.Stream(r, p.flow.value), s.sent[e]) + [p.num]
  {
    more := PacketGetsThrough(c, steps, r, p, q, e);
    PipelineOrder.NumsPush(PipelineOrder.Stream(r, p.flow.value), Reached(c, steps).value.sent[e], p);
    hide Reached;
  }
}
