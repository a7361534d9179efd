/**
 Conservation of buffers over every interleaving of the router's goroutines.  Buffers are
 weighed by an arbitrary function: a constant weight counts them, an indicator follows one.
 */
module PipelineBuffers {
  import opened Basics
  import opened Pipeline

  type Weight = Slice -> nat

  function Sum<T>(w: T -> nat, s: seq<T>): nat {
    if s == [] then 0 else w(s[0]) + Sum(w, s[1..])
  }

  function Sums<T>(w: T -> nat, ss: seq<seq<T>>): nat {
    if ss == [] then 0 else Sum(w, ss[0]) + Sums(w, ss[1..])
  }

  lemma {:induction false} SumAppend<T>(w: T -> nat, a: seq<T>, b: seq<T>)
    ensures Sum(w, a + b) == Sum(w, a) + Sum(w, b)
  {
    if a == [] {
      assert a + b == b;
    } else {
      SumAppend(w, a[1..], b);
      assert (a + b)[1..] == a[1..] + b;
    }
  }

  lemma {:induction false} SumsUpdate<T>(w: T -> nat, ss: seq<seq<T>>, i: nat, x: seq<T>)
    requires i < |ss|
    ensures Sums(w, ss[i := x]) + Sum(w, ss[i]) == Sums(w, ss) + Sum(w, x)
  {
    var t := ss[i := x];
    if i == 0 {
      assert t[1..] == ss[1..];
    } else {
      SumsUpdate(w, ss[1..], i - 1, x);
      assert t[1..] == ss[1..][i - 1 := x];
    }
  }

  /** A packet weighs what its buffer weighs. */
  function Of(w: Weight): Pkt -> nat { (p: Pkt) => w(p.buf) }

  lemma PopSum(w: Weight, ss: seq<seq<Pkt>>, i: nat)
    requires Head(ss, i)
    ensures Sums(Of(w), Pop(ss, i)) + w(ss[i][0].buf) == Sums(Of(w), ss)
  {
    SumsUpdate(Of(w), ss, i, ss[i][1..]);
  }

  lemma PushSum(w: Weight, ss: seq<seq<Pkt>>, i: nat, p: Pkt)
    requires i < |ss|
    ensures Sums(Of(w), Push(ss, i, p)) == Sums(Of(w), ss) + w(p.buf)
  {
    SumsUpdate(Of(w), ss, i, ss[i] + [p]);
    SumAppend(Of(w), ss[i], [p]);
    assert Sum(Of(w), [p]) == w(p.buf) by { assert [p][1..] == []; }
  }

  /** What the processors and the slow path hold, with their queues. */
  function Inside(w: Weight, s: State): nat {
    Sums(Of(w), s.procQ) + Sums(Of(w), s.proc) + Sums(Of(w), s.slowQ) + Sums(Of(w), s.slow)
  }

  /** The weight of all buffers, wherever they are. */
  function Total(w: Weight, s: State): nat {
    Sum(w, s.pool) + Sums(w, s.free) + Sums(Of(w), s.pending) + Inside(w, s)
    + Sums(Of(w), s.fwQ) + Sums(Of(w), s.fw) + Sums(Of(w), s.done)
  }

  lemma GiveBackTotal(w: Weight, s: State, b: Slice)
    ensures Total(w, GiveBack(s, b)) == Total(w, s) + w(b)
    ensures Inside(w, GiveBack(s, b)) == Inside(w, s)
  {
    SumAppend(w, s.pool, [b]);
    assert Sum(w, [b]) == w(b) by { assert [b][1..] == []; }
  }

  lemma ToForwarderTotal(w: Weight, c: Config, s: State, e: nat, p: Pkt)
    ensures Total(w, ToForwarder(c, s, e, p)) == Total(w, s) + w(p.buf)
    ensures Inside(w, ToForwarder(c, s, e, p)) == Inside(w, s)
  {
    if e < |s.fwQ| && |s.fwQ[e]| < c.batch { PushSum(w, s.fwQ, e, p); } else { GiveBackTotal(w, s, p.buf); }
  }

  lemma CollectTotal(w: Weight, c: Config, s: State, r: nat)
    requires Enabled(c, s, Collect(r))
    ensures Total(w, Next(c, s, Collect(r))) == Total(w, s)
    ensures Inside(w, Next(c, s, Collect(r))) == Inside(w, s)
  {
    var f, b := s.free[r], s.pool[0];
    var k := |f| - s.reusable[r];
    SumsUpdate(w, s.free, r, f[..k] + [b] + f[k..]);
    SumAppend(w, f[..k] + [b], f[k..]);
    SumAppend(w, f[..k], [b]);
    SumAppend(w, f[..k], f[k..]);
    assert f[..k] + f[k..] == f;
    assert Sum(w, [b]) == w(b) by { assert [b][1..] == []; }
  }

  lemma {:induction false} ArrivedSum(w: Weight, r: nat, bufs: seq<Slice>, flows: seq<Option<Flow>>, num: nat)
    requires |bufs| == |flows|
    ensures Sum(Of(w), Arrived(r, bufs, flows, num)) == Sum(w, bufs)
  {
    if bufs != [] {
      ArrivedSum(w, r, bufs[1..], flows[1..], num + 1);
      assert Arrived(r, bufs, flows, num)[1..] == Arrived(r, bufs[1..], flows[1..], num + 1);
    }
  }

  lemma ReadTotal(w: Weight, c: Config, s: State, r: nat, flows: seq<Option<Flow>>)
    requires Enabled(c, s, Read(r, flows))
    ensures Total(w, Next(c, s, Read(r, flows))) == Total(w, s)
    ensures Inside(w, Next(c, s, Read(r, flows))) == Inside(w, s)
  {
    var f, n := s.free[r], |flows|;
    SumsUpdate(w, s.free, r, f[n..]);
    SumsUpdate(Of(w), s.pending, r, Arrived(r, f[..n], flows, s.arrivals[r]));
    ArrivedSum(w, r, f[..n], flows, s.arrivals[r]);
    SumAppend(w, f[..n], f[n..]);
    assert f[..n] + f[n..] == f;
  }

  /** An enqueue feeds the processors only with buffers of full capacity. */
  lemma EnqueueTotal(w: Weight, c: Config, s: State, r: nat)
    requires Head(s.pending, r)
    ensures Total(w, EnqueueNext(c, s, r)) == Total(w, s)
    ensures w(Empty) > 0 && (forall i :: w(Full(i)) == 0) ==> Inside(w, EnqueueNext(c, s, r)) == Inside(w, s)
  {
    var p := s.pending[r][0];
    var t := s.(pending := Pop(s.pending, r));
    PopSum(w, s.pending, r);
    if p.buf.Empty? || p.flow.None? {
      GiveBackTotal(w, t, p.buf);
    } else {
      var q := c.ProcOf(r, p.flow.value);
      if q < |s.procQ| && |s.procQ[q]| < c.queue { PushSum(w, s.procQ, q, p); } else { GiveBackTotal(w, t, p.buf); }
    }
  }

  lemma FinishTotal(w: Weight, c: Config, s: State, q: nat, o: Outcome)
    requires Head(s.proc, q)
    ensures Total(w, FinishNext(c, s, q, o)) == Total(w, s)
    ensures Inside(w, FinishNext(c, s, q, o)) <= Inside(w, s)
  {
    var p := s.proc[q][0];
    var t := s.(proc := Pop(s.proc, q));
    PopSum(w, s.proc, q);
    match o
    case Discard => GiveBackTotal(w, t, p.buf);
    case Forward(e) => ToForwarderTotal(w, c, t, e, p);
    case ToSlow =>
      if c.slows > 0 && q % c.slows < |s.slowQ| && |s.slowQ[q % c.slows]| < c.queue {
        PushSum(w, s.slowQ, q % c.slows, p);
      } else {
        GiveBackTotal(w, t, p.buf);
      }
  }

  /** What a slow-path result does to the buffer of its packet. */
  function After(o: SlowOutcome, b: Slice): Slice { if o.ReplyNil? then Empty else b }

  lemma FinishSlowTotal(w: Weight, c: Config, s: State, q: nat, o: SlowOutcome)
    requires Head(s.slow, q)
    ensures Total(w, FinishSlowNext(c, s, q, o)) + w(s.slow[q][0].buf) == Total(w, s) + w(After(o, s.slow[q][0].buf))
    ensures Inside(w, FinishSlowNext(c, s, q, o)) + w(s.slow[q][0].buf) == Inside(w, s)
  {
    var p := s.slow[q][0];
    var t := s.(slow := Pop(s.slow, q));
    PopSum(w, s.slow, q);
    match o
    case SlowError => GiveBackTotal(w, t, p.buf);
    case Reply(e) => ToForwarderTotal(w, c, t, e, p.(fast := false));
    case ReplyNil(e) => ToForwarderTotal(w, c, t, e, p.(fast := false, buf := Empty));
  }

  lemma FlushTotal(w: Weight, c: Config, s: State, e: nat, n: nat)
    requires Enabled(c, s, Flush(e, n))
    ensures Total(w, Next(c, s, Flush(e, n))) == Total(w, s)
    ensures Inside(w, Next(c, s, Flush(e, n))) == Inside(w, s)
  {
    var f, h := s.fw[e], Handled(n, |s.fw[e]|);
    SumsUpdate(Of(w), s.fw, e, f[h..]);
    SumsUpdate(Of(w), s.done, e, f[..h]);
    SumAppend(Of(w), f[..h], f[h..]);
    assert f[..h] + f[h..] == f;
  }

  lemma MoveSum(w: Weight, from: seq<seq<Pkt>>, to: seq<seq<Pkt>>, i: nat)
    requires Head(from, i) && i < |to|
    ensures Sums(Of(w), Pop(from, i)) + Sums(Of(w), Push(to, i, from[i][0])) == Sums(Of(w), from) + Sums(Of(w), to)
  {
    PopSum(w, from, i);
    PushSum(w, to, i, from[i][0]);
  }

  predicate NilReply(step: Step) { step.FinishSlow? && step.slowOutcome.ReplyNil? }

  /** Every step keeps the weight, except that a nil slow-path result empties one buffer. */
  lemma StepTotal(w: Weight, c: Config, s: State, step: Step)
    requires Enabled(c, s, step)
    ensures !NilReply(step) ==> Total(w, Next(c, s, step)) == Total(w, s)
    ensures NilReply(step) ==>
      Total(w, Next(c, s, step)) + w(s.slow[step.q][0].buf) == Total(w, s) + w(Empty)
    ensures w(Empty) > 0 && (forall i :: w(Full(i)) == 0) ==> Inside(w, Next(c, s, step)) <= Inside(w, s)
    ensures NilReply(step) ==> w(s.slow[step.q][0].buf) <= Inside(w, s)
  {
    match step {
      case Collect(r) => CollectTotal(w, c, s, r);
      case Read(r, flows) => ReadTotal(w, c, s, r, flows);
      case Enqueue(r) => EnqueueTotal(w, c, s, r);
      case Take(q) => MoveSum(w, s.procQ, s.proc, q);
      case Finish(q, o) => FinishTotal(w, c, s, q, o);
      case TakeSlow(q) => MoveSum(w, s.slowQ, s.slow, q);
      case FinishSlow(q, o) => FinishSlowTotal(w, c, s, q, o);
      case Fetch(e) => MoveSum(w, s.fwQ, s.fw, e);
      case Flush(e, n) => FlushTotal(w, c, s, e, n);
      case Return(e) =>
        PopSum(w, s.done, e);
        GiveBackTotal(w, s.(done := Pop(s.done, e)), s.done[e][0].buf);
    }
  }

  // ----- Whole runs ------------------------------------------------------------------

  const ONE: Weight := (b: Slice) => 1
  const EMPTY: Weight := (b: Slice) => if b.Empty? then 1 else 0

  function The(b: Slice): Weight { (x: Slice) => if x == b then 1 else 0 }

  function NilReplies(steps: seq<Step>): nat {
    if steps == [] then 0
    else NilReplies(steps[..|steps| - 1]) + if NilReply(steps[|steps| - 1]) then 1 else 0
  }

  lemma {:induction false} NothingSums<T>(w: T -> nat, n: nat)
    ensures Sums(w, Nothing<T>(n)) == 0
  {
    if n > 0 {
      assert Nothing<T>(n)[1..] == Nothing<T>(n - 1);
      NothingSums(w, n - 1);
    }
  }

  lemma InitTotal(w: Weight, c: Config)
    ensures Total(w, Init(c)) == Sum(w, Init(c).pool) && Inside(w, Init(c)) == 0
  {
    NothingSums(w, c.intfs);
    NothingSums(Of(w), c.intfs);
    NothingSums(Of(w), c.procs);
    NothingSums(Of(w), c.slows);
  }

  lemma {:induction false} SumOne<T>(w: T -> nat, s: seq<T>)
    requires forall x :: w(x) == 1
    ensures Sum(w, s) == |s|
  {
    if s != [] { SumOne(w, s[1..]); }
  }

  /** The initial buffers are pairwise distinct. */
  lemma {:induction false} SumThe(id: nat, s: seq<Slice>, k: nat)
    requires forall i :: 0 <= i < |s| ==> s[i] == Full(k + i)
    ensures Sum(The(Full(id)), s) == if k <= id < k + |s| then 1 else 0
    ensures Sum(EMPTY, s) == 0
  {
    if s != [] { SumThe(id, s[1..], k + 1); }
  }

  /** Along every run: as many slices as at the start, and one lost per nil slow-path result. */
  lemma {:induction false} RunConserves(c: Config, steps: seq<Step>)
    requires Reached(c, steps).Some?
    ensures Shaped(c, Reached(c, steps).value)
    ensures Total(ONE, Reached(c, steps).value) == c.PoolSize()
    ensures Total(EMPTY, Reached(c, steps).value) == NilReplies(steps)
    ensures Inside(EMPTY, Reached(c, steps).value) == 0
  {
    if steps == [] {
      InitTotal(ONE, c);
      InitTotal(EMPTY, c);
      SumOne(ONE, Init(c).pool);
      SumThe(0, Init(c).pool, 0);
    } else {
      var before := steps[..|steps| - 1];
      var s, step := Reached(c, before).value, steps[|steps| - 1];
      RunConserves(c, before);
      StepShaped(c, s, step);
      StepTotal(ONE, c, s, step);
      StepTotal(EMPTY, c, s, step);
    }
  }

  /** No buffer is ever in two places; without nil slow-path results each is in exactly one. */
  lemma {:induction false} BufferUnique(c: Config, steps: seq<Step>, id: nat)
    requires Reached(c, steps).Some? && id < c.PoolSize()
    ensures Total(The(Full(id)), Reached(c, steps).value) <= 1
    ensures NilReplies(steps) == 0 ==> Total(The(Full(id)), Reached(c, steps).value) == 1
  {
    var w := The(Full(id));
    if steps == [] {
      InitTotal(w, c);
      SumThe(id, Init(c).pool, 0);
    } else {
      var before := steps[..|steps| - 1];
      BufferUnique(c, before, id);
      StepTotal(w, c, Reached(c, before).value, steps[|steps| - 1]);
    }
  }

  lemma {:induction false} SumsBound(ss: seq<seq<Pkt>>, cap: nat)
    requires forall i :: 0 <= i < |ss| ==> |ss[i]| <= cap
    ensures Sums(Of(ONE), ss) <= |ss| * cap
  {
    if ss != [] {
      SumOne(Of(ONE), ss[0]);
      SumsBound(ss[1..], cap);
      assert |ss| * cap == cap + |ss[1..]| * cap;
    }
  }

  lemma {:induction false} SharedBound<T, U>(w: T -> nat, v: U -> nat, a: seq<seq<T>>, b: seq<seq<U>>, cap: nat)
    requires |a| == |b| && forall i :: 0 <= i < |a| ==> |a[i]| + |b[i]| <= cap
    requires (forall x :: w(x) == 1) && (forall x :: v(x) == 1)
    ensures Sums(w, a) + Sums(v, b) <= |a| * cap
    ensures forall i :: 0 <= i < |a| && |a[i]| + |b[i]| < cap ==> Sums(w, a) + Sums(v, b) < |a| * cap
  {
    if a != [] {
      SumOne(w, a[0]);
      SumOne(v, b[0]);
      SharedBound(w, v, a[1..], b[1..], cap);
      assert |a| * cap == cap + |a[1..]| * cap;
      forall i | 0 <= i < |a| && |a[i]| + |b[i]| < cap
        ensures Sums(w, a) + Sums(v, b) < |a| * cap
      {
        if i > 0 { assert a[1..][i - 1] == a[i] && b[1..][i - 1] == b[i]; }
      }
    }
  }

  /** The slices outside the pool and the receivers fit what the pool size sets aside for them. */
  lemma OthersBound(c: Config, s: State)
    requires Shaped(c, s)
    ensures Inside(ONE, s) <= (c.procs + c.slows) * (c.queue + 1)
    ensures Sums(Of(ONE), s.fwQ) + Sums(Of(ONE), s.fw) + Sums(Of(ONE), s.done) <= c.intfs * (2 * c.batch)
  {
    hide Sums;
    SumsBound(s.procQ, c.queue);
    SumsBound(s.proc, 1);
    SumsBound(s.slowQ, c.queue);
    SumsBound(s.slow, 1);
    SumsBound(s.fwQ, c.batch);
    SharedBound(Of(ONE), Of(ONE), s.fw, s.done, c.batch);
    Spread(c.procs, c.slows, c.queue, c.intfs, c.batch);
  }

  lemma Spread(p: nat, s: nat, q: nat, n: nat, b: nat)
    ensures (p + s) * (q + 1) == p * q + p * 1 + s * q + s * 1
    ensures n * (2 * b) == n * b + n * b
  {
  }

  /** No return of a buffer ever blocks: the pool never holds more than its capacity. */
  lemma ReturnNeverBlocks(c: Config, steps: seq<Step>)
    requires Reached(c, steps).Some?
    ensures |Reached(c, steps).value.pool| <= c.PoolSize()
  {
    RunConserves(c, steps);
    SumOne(ONE, Reached(c, steps).value.pool);
  }

  /** The pool is what is left of the total. */
  lemma PoolRest(c: Config, s: State, receivers: nat)
    requires Total(ONE, s) == c.PoolSize() && Inside(ONE, s) <= (c.procs + c.slows) * (c.queue + 1)
    requires Sums(Of(ONE), s.fwQ) + Sums(Of(ONE), s.fw) + Sums(Of(ONE), s.done) <= c.intfs * (2 * c.batch)
    requires Sums(ONE, s.free) + Sums(Of(ONE), s.pending) == receivers < c.intfs * c.batch
    ensures s.pool != []
  {
    hide Sums, Inside;
    SumOne(ONE, s.pool);
  }

  /** A receiver that still collects buffers for its batch finds the pool non-empty. */
  lemma CollectNeverBlocks(c: Config, steps: seq<Step>, r: nat)
    requires Reached(c, steps).Some? && r < c.intfs
    ensures var s := Reached(c, steps).value;
      && r < |s.pending| && r < |s.free|
      && (s.pending[r] == [] && |s.free[r]| < c.batch ==> Enabled(c, s, Collect(r)))
  {
    hide Sum, Sums, Inside, Total, Reached;
    var s := Reached(c, steps).value;
    RunConserves(c, steps);
    OthersBound(c, s);
    SharedBound(ONE, Of(ONE), s.free, s.pending, c.batch);
    if s.pending[r] == [] && |s.free[r]| < c.batch {
      PoolRest(c, s, Sums(ONE, s.free) + Sums(Of(ONE), s.pending));
    }
  }
}
