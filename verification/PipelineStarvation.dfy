/**
 What nil slow-path results add up to: each takes one buffer out of use, there can be no more
 of them than buffers, and with the last one the router has stopped forwarding for good.
 */
module PipelineStarvation {
  import opened Basics
  import opened Pipeline
  import opened PipelineBuffers
  import FlowHash

  const FULL: Weight := (b: Slice) => if b.Full? then 1 else 0

  lemma {:induction false} SumFull(s: seq<Slice>)
    requires forall i :: 0 <= i < |s| ==> s[i].Full?
    ensures Sum(FULL, s) == |s|
  {
    if s != [] { SumFull(s[1..]); }
  }

  /** The buffers still of use and the nil results are as many as there were buffers. */
  lemma {:induction false} RunFull(c: Config, steps: seq<Step>)
    requires Reached(c, steps).Some?
    ensures Total(FULL, Reached(c, steps).value) + NilReplies(steps) == c.PoolSize()
  {
    if steps == [] {
      InitTotal(FULL, c);
      SumFull(Init(c).pool);
    } else {
      var before, step := steps[..|steps| - 1], steps[|steps| - 1];
      var s := Reached(c, before).value;
      RunFull(c, before);
      RunConserves(c, before);
      hide Total, Inside;
      StepTotal(FULL, c, s, step);
      StepTotal(EMPTY, c, s, step);
    }
  }

  /** No run has more nil results than there are buffers. */
  lemma NilRepliesBounded(c: Config, steps: seq<Step>)
    requires Reached(c, steps).Some?
    ensures NilReplies(steps) <= c.PoolSize()
  {
    RunFull(c, steps);
  }

  // ----- Starvation ------------------------------------------------------------------------

  /** A packet without a buffer is not one that came in. */
  ghost predicate EmptySlow(ss: seq<seq<Pkt>>) {
    forall i, k :: 0 <= i < |ss| && 0 <= k < |ss[i]| && ss[i][k].buf.Empty? ==> !ss[i][k].fast
  }

  lemma {:induction false} ZeroSum<T>(w: T -> nat, s: seq<T>)
    requires Sum(w, s) == 0
    ensures forall k :: 0 <= k < |s| ==> w(s[k]) == 0
  {
    if s != [] {
      ZeroSum(w, s[1..]);
      assert forall k :: 0 < k < |s| ==> s[k] == s[1..][k - 1];
    }
  }

  lemma {:induction false} ZeroSums<T>(w: T -> nat, ss: seq<seq<T>>, i: nat)
    requires Sums(w, ss) == 0 && i < |ss|
    ensures forall k :: 0 <= k < |ss[i]| ==> w(ss[i][k]) == 0
  {
    if i == 0 { ZeroSum(w, ss[0]); } else { ZeroSums(w, ss[1..], i - 1); }
  }

  lemma PushEmptySlow(ss: seq<seq<Pkt>>, i: nat, p: Pkt)
    requires EmptySlow(ss) && i < |ss| && (p.buf.Empty? ==> !p.fast)
    ensures EmptySlow(Push(ss, i, p))
  {
  }

  lemma ForwardEmptySlow(c: Config, s: State, e: nat, p: Pkt)
    requires EmptySlow(s.fwQ) && EmptySlow(s.fw) && (p.buf.Empty? ==> !p.fast)
    ensures EmptySlow(ToForwarder(c, s, e, p).fwQ) && EmptySlow(ToForwarder(c, s, e, p).fw)
  {
    if e < |s.fwQ| && |s.fwQ[e]| < c.batch { PushEmptySlow(s.fwQ, e, p); }
    hide EmptySlow;
  }

  lemma FetchEmptySlow(s: State, e: nat)
    requires EmptySlow(s.fwQ) && EmptySlow(s.fw) && Head(s.fwQ, e) && e < |s.fw|
    ensures EmptySlow(Pop(s.fwQ, e)) && EmptySlow(Push(s.fw, e, s.fwQ[e][0]))
  {
    PushEmptySlow(s.fw, e, s.fwQ[e][0]);
  }

  lemma FlushEmptySlow(ss: seq<seq<Pkt>>, e: nat, h: nat)
    requires EmptySlow(ss) && e < |ss| && h <= |ss[e]|
    ensures EmptySlow(ss[e := ss[e][h..]])
  {
  }

  lemma StepEmptySlow(c: Config, s: State, step: Step)
    requires Enabled(c, s, step) && Inside(EMPTY, s) == 0 && EmptySlow(s.fwQ) && EmptySlow(s.fw)
    ensures EmptySlow(Next(c, s, step).fwQ) && EmptySlow(Next(c, s, step).fw)
  {
    hide EmptySlow;
    match step {
      case Finish(q, o) =>
        PopSum(EMPTY, s.proc, q);
        if o.Forward? { ForwardEmptySlow(c, s.(proc := Pop(s.proc, q)), o.egress, s.proc[q][0]); }
      case FinishSlow(q, o) =>
        var p, t := s.slow[q][0].(fast := false), s.(slow := Pop(s.slow, q));
        match o {
          case Reply(e) => ForwardEmptySlow(c, t, e, p);
          case ReplyNil(e) => ForwardEmptySlow(c, t, e, p.(buf := Empty));
          case SlowError =>
        }
      case Fetch(e) => FetchEmptySlow(s, e);
      case Flush(e, w) => FlushEmptySlow(s.fw, e, Handled(w, |s.fw[e]|));
      case _ =>
    }
  }

  lemma {:induction false} RunEmptySlow(c: Config, steps: seq<Step>)
    requires Reached(c, steps).Some?
    ensures EmptySlow(Reached(c, steps).value.fwQ) && EmptySlow(Reached(c, steps).value.fw)
  {
    if steps != [] {
      var before := steps[..|steps| - 1];
      RunEmptySlow(c, before);
      RunConserves(c, before);
      StepEmptySlow(c, Reached(c, before).value, steps[|steps| - 1]);
    }
  }

  /** `b` is `a` with packets behind it none of which is on the fast path. */
  ghost predicate Grown(a: seq<Pkt>, b: seq<Pkt>) {
    a <= b && forall i :: |a| <= i < |b| ==> !b[i].fast
  }

  lemma NoFastLeft(s: State, e: nat)
    requires Total(FULL, s) == 0 && EmptySlow(s.fw) && e < |s.fw|
    ensures forall k :: 0 <= k < |s.fw[e]| ==> !s.fw[e][k].fast
  {
    ZeroSums(Of(FULL), s.fw, e);
    forall k | 0 <= k < |s.fw[e]| ensures !s.fw[e][k].fast {
      assert Of(FULL)(s.fw[e][k]) == 0;
    }
  }

  lemma OnlyFlushSends(c: Config, s: State, step: Step)
    requires Enabled(c, s, step) && !step.Flush?
    ensures Next(c, s, step).sent == s.sent
  {
  }

  /** With no buffer of use left, a step sends nothing of what came in. */
  lemma StarvedStep(c: Config, s: State, step: Step, e: nat)
    requires Enabled(c, s, step) && Total(FULL, s) == 0 && EmptySlow(s.fw) && e < |s.sent|
    ensures |Next(c, s, step).sent| == |s.sent| && Grown(s.sent[e], Next(c, s, step).sent[e])
  {
    hide Total, EmptySlow, EnqueueNext, FinishNext, FinishSlowNext;
    if step.Flush? {
      NoFastLeft(s, step.e);
      assert Next(c, s, step).sent == s.sent[step.e := s.sent[step.e] + s.fw[step.e][..step.written]];
    } else {
      OnlyFlushSends(c, s, step);
      hide Next;
    }
  }

  /**
   Once there were as many nil results as there are buffers, no slice is of use, and in every
   continuation no interface sends a fast-path packet any more.
   */
  lemma {:induction false} StarvedForever(c: Config, steps: seq<Step>, more: seq<Step>, e: nat)
    requires Reached(c, steps + more).Some? && NilReplies(steps) == c.PoolSize() && e < c.intfs
    ensures Reached(c, steps).Some? && NilReplies(steps + more) == c.PoolSize()
    ensures var s, t := Reached(c, steps).value, Reached(c, steps + more).value;
      && Total(FULL, t) == 0
      && |s.sent| == |t.sent| == c.intfs && Grown(s.sent[e], t.sent[e])
  {
    hide Total, Enabled, Next;
    var all := steps + more;
    if more == [] {
      assert all == steps;
    } else {
      var less := more[..|more| - 1];
      assert all[..|all| - 1] == steps + less;
      StarvedForever(c, steps, less, e);
      var s := Reached(c, steps + less).value;
      RunEmptySlow(c, steps + less);
      StarvedStep(c, s, all[|all| - 1], e);
    }
    RunFull(c, all);
    RunConserves(c, all);
    NilRepliesBounded(c, all);
  }

  // ----- One nil result --------------------------------------------------------------------

  /** One interface, one processor, one slow-path processor, and queues for one packet. */
  const SMALL: Config := Config(1, 1, 1, 1, 1, r => FlowHash.Word32(0))

  lemma ReachedNext(c: Config, steps: seq<Step>, step: Step)
    requires Reached(c, steps).Some? && Enabled(c, Reached(c, steps).value, step)
    ensures Reached(c, steps + [step]) == Some(Next(c, Reached(c, steps).value, step))
    ensures NilReplies(steps + [step]) == NilReplies(steps) + if NilReply(step) then 1 else 0
  {
    assert (steps + [step])[..|steps|] == steps;
  }

  const PACKET := Pkt(Full(0), 0, Some([]), 0, true)

  const NIL_STEPS: seq<Step> :=
    [Collect(0), Read(0, [Some([])]), Enqueue(0), Take(0), Finish(0, ToSlow), TakeSlow(0), FinishSlow(0, ReplyNil(0))]

  /** Moving the packet from a list that holds it to an empty one. */
  lemma PacketMoves()
    ensures Pop([[PACKET]], 0) == [[]] && Push([[]], 0, PACKET) == [[PACKET]]
  {
    assert [PACKET][1..] == [];
    assert [] + [PACKET] == [PACKET];
  }

  lemma StartsEmpty()
    ensures var s := Init(SMALL);
      && s.pool == [Full(0), Full(1), Full(2), Full(3), Full(4), Full(5), Full(6)]
      && s.free == [[]] && s.reusable == [0] && s.pending == [[]] && s.arrivals == [0]
      && s.procQ == [[]] && s.proc == [[]] && s.slowQ == [[]] && s.slow == [[]]
  {
    assert SMALL.PoolSize() == 7;
  }

  lemma BufferCollected()
    ensures Reached(SMALL, NIL_STEPS[..1]).Some? && NilReplies(NIL_STEPS[..1]) == 0
    ensures var s := Reached(SMALL, NIL_STEPS[..1]).value;
      && s.free == [[Full(0)]] && s.reusable == [0] && s.pending == [[]] && s.arrivals == [0]
      && s.procQ == [[]] && s.proc == [[]] && s.slowQ == [[]] && s.slow == [[]]
  {
    StartsEmpty();
    var l, s0 := NIL_STEPS, Init(SMALL);
    hide Init;
    ReachedNext(SMALL, [], l[0]);
    assert [] + [l[0]] == l[..1];
    assert Next(SMALL, s0, l[0]).free[0] == [Full(0)] by { assert [] + [Full(0)] + [] == [Full(0)]; }
  }

  /** The receiver reads the packet into the buffer. */
  lemma PacketRead()
    ensures Reached(SMALL, NIL_STEPS[..2]).Some? && NilReplies(NIL_STEPS[..2]) == 0
    ensures var s := Reached(SMALL, NIL_STEPS[..2]).value;
      s.pending == [[PACKET]] && s.procQ == [[]] && s.proc == [[]] && s.slowQ == [[]] && s.slow == [[]]
  {
    hide Reached, NilReplies;
    BufferCollected();
    var l := NIL_STEPS;
    ReachedNext(SMALL, l[..1], l[1]);
    assert l[..1] + [l[1]] == l[..2];
    assert [Full(0)][..1] == [Full(0)];
    assert Arrived(0, [Full(0)], [Some([])], 0) == [PACKET];
  }

  lemma PacketQueued()
    ensures Reached(SMALL, NIL_STEPS[..4]).Some? && NilReplies(NIL_STEPS[..4]) == 0
    ensures var s := Reached(SMALL, NIL_STEPS[..4]).value; s.proc == [[PACKET]] && s.slowQ == [[]] && s.slow == [[]]
  {
    hide FlowHash.ProcOf, Reached, NilReplies;
    PacketRead();
    PacketMoves();
    var l := NIL_STEPS;
    ReachedNext(SMALL, l[..2], l[2]);
    assert l[..2] + [l[2]] == l[..3];
    ReachedNext(SMALL, l[..3], l[3]);
    assert l[..3] + [l[3]] == l[..4];
  }

  lemma ReachesSlowPath()
    ensures Reached(SMALL, NIL_STEPS[..6]).Some? && NilReplies(NIL_STEPS[..6]) == 0
    ensures Reached(SMALL, NIL_STEPS[..6]).value.slow == [[PACKET]]
  {
    hide FlowHash.ProcOf, Reached, NilReplies;
    PacketQueued();
    PacketMoves();
    var l := NIL_STEPS;
    ReachedNext(SMALL, l[..4], l[4]);
    assert l[..4] + [l[4]] == l[..5];
    ReachedNext(SMALL, l[..5], l[5]);
    assert l[..5] + [l[5]] == l[..6];
  }

  /** The list of steps can be taken, and ends with a slice without capacity in the router. */
  lemma NilReplyHappens()
    ensures Reached(SMALL, NIL_STEPS).Some? && NilReplies(NIL_STEPS) == 1
    ensures Total(EMPTY, Reached(SMALL, NIL_STEPS).value) == 1
  {
    hide Total, Next;
    ReachesSlowPath();
    ReachedNext(SMALL, NIL_STEPS[..6], NIL_STEPS[6]);
    assert NIL_STEPS[..6] + [NIL_STEPS[6]] == NIL_STEPS;
    RunConserves(SMALL, NIL_STEPS);
  }
}
