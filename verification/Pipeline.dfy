/**
 The router's goroutines as a step system: receivers, processors, slow-path processors and
 forwarders that pass packet buffers through bounded queues and share one buffer pool.
 */
module Pipeline {
  import opened Basics
  import FlowHash

  type Flow = seq<Byte>

  /** A packet buffer; Empty is the zero-capacity slice a nil result turns into. */
  datatype Slice = Full(id: nat) | Empty

  /**
   A packet in a buffer: the interface it came in on, its flow (None if the header is too
   short to tell), its arrival number on that interface, and whether it is still the packet
   that came in rather than a slow-path answer.
   */
  datatype Pkt = Pkt(buf: Slice, ingress: nat, flow: Option<Flow>, num: nat, fast: bool)

  /** Interfaces, batch size, processors, slow-path processors, queue size, and each receiver's hash seed. */
  datatype Config = Config(intfs: nat, batch: nat, procs: nat, slows: nat, queue: nat, seed: nat -> FlowHash.Word32)
  {
    function ProcOf(r: nat, f: Flow): nat {
      if procs == 0 then 0 else FlowHash.ProcOf(seed(r), f, procs)
    }

    function PoolSize(): nat {
      intfs * batch + (procs + slows) * (queue + 1) + intfs * (2 * batch)
    }
  }

  datatype State = State(
    pool: seq<Slice>,
    free: seq<seq<Slice>>,      // per receiver: buffers collected and not yet read into, the reusable ones last
    reusable: seq<nat>,         // per receiver: how many of those the last read left over
    pending: seq<seq<Pkt>>,     // per receiver: packets read and not yet enqueued
    arrivals: seq<nat>,         // per receiver: packets received so far
    procQ: seq<seq<Pkt>>, proc: seq<seq<Pkt>>,
    slowQ: seq<seq<Pkt>>, slow: seq<seq<Pkt>>,
    fwQ: seq<seq<Pkt>>,
    fw: seq<seq<Pkt>>,          // per forwarder: packets to write
    done: seq<seq<Pkt>>,        // per forwarder: packets to give back
    sent: seq<seq<Pkt>>)        // per forwarder: history of packets written

  datatype Outcome = ToSlow | Discard | Forward(egress: nat)

  /** `ReplyNil` is the success with a nil packet of a router alert that is not a traceroute. */
  datatype SlowOutcome = SlowError | Reply(egress: nat) | ReplyNil(egress: nat)

  datatype Step =
    | Collect(r: nat)
    | Read(r: nat, flows: seq<Option<Flow>>)
    | Enqueue(r: nat)
    | Take(q: nat)
    | Finish(q: nat, outcome: Outcome)
    | TakeSlow(q: nat)
    | FinishSlow(q: nat, slowOutcome: SlowOutcome)
    | Fetch(e: nat)
    | Flush(e: nat, written: nat)
    | Return(e: nat)

  /** Moving packet queues, one list per actor. */
  predicate Head(ss: seq<seq<Pkt>>, i: nat) { i < |ss| && ss[i] != [] }

  function Pop(ss: seq<seq<Pkt>>, i: nat): seq<seq<Pkt>>
    requires Head(ss, i)
  {
    ss[i := ss[i][1..]]
  }

  function Push(ss: seq<seq<Pkt>>, i: nat, p: Pkt): seq<seq<Pkt>>
    requires i < |ss|
  {
    ss[i := ss[i] + [p]]
  }

  function Arrived(r: nat, bufs: seq<Slice>, flows: seq<Option<Flow>>, num: nat): (ps: seq<Pkt>)
    requires |bufs| == |flows|
    ensures |ps| == |bufs|
    ensures forall i :: 0 <= i < |ps| ==> ps[i] == Pkt(bufs[i], r, flows[i], num + i, true)
  {
    seq(|bufs|, i requires 0 <= i < |bufs| => Pkt(bufs[i], r, flows[i], num + i, true))
  }

  function GiveBack(s: State, b: Slice): State { s.(pool := s.pool + [b]) }

  /** A non-blocking send to the forwarder of `e`; the buffer goes to the pool otherwise. */
  function ToForwarder(c: Config, s: State, e: nat, p: Pkt): State {
    if e < |s.fwQ| && |s.fwQ[e]| < c.batch then s.(fwQ := Push(s.fwQ, e, p)) else GiveBack(s, p.buf)
  }

  predicate Enabled(c: Config, s: State, step: Step) {
    match step
    case Collect(r) =>
      && r < |s.free| && r < |s.pending| && r < |s.reusable| && s.pending[r] == []
      && s.reusable[r] <= |s.free[r]| < c.batch && s.pool != []
    case Read(r, flows) =>
      && r < |s.free| && r < |s.pending| && r < |s.reusable| && r < |s.arrivals|
      && s.pending[r] == [] && |s.free[r]| == c.batch
      && |flows| <= c.batch
      && forall i :: 0 <= i < |flows| && s.free[r][i].Empty? ==> flows[i].None?
    case Enqueue(r) => Head(s.pending, r)
    case Take(q) => Head(s.procQ, q) && q < |s.proc| && s.proc[q] == []
    case Finish(q, _) => Head(s.proc, q)
    case TakeSlow(q) => Head(s.slowQ, q) && q < |s.slow| && s.slow[q] == []
    case FinishSlow(q, _) => Head(s.slow, q)
    case Fetch(e) => Head(s.fwQ, e) && e < |s.fw| && e < |s.done| && s.done[e] == [] && |s.fw[e]| < c.batch
    case Flush(e, w) => Head(s.fw, e) && e < |s.done| && e < |s.sent| && s.done[e] == [] && w <= |s.fw[e]|
    case Return(e) => Head(s.done, e)
  }

  /** Packets no longer needed after a write of `w` packets: those, and one more if it fell short. */
  function Handled(w: nat, n: nat): nat { if w < n then w + 1 else n }

  function EnqueueNext(c: Config, s: State, r: nat): State
    requires Head(s.pending, r)
  {
    var p := s.pending[r][0];
    var t := s.(pending := Pop(s.pending, r));
    if p.buf.Empty? || p.flow.None? then GiveBack(t, p.buf)
    else
      var q := c.ProcOf(r, p.flow.value);
      if q < |s.procQ| && |s.procQ[q]| < c.queue then t.(procQ := Push(s.procQ, q, p)) else GiveBack(t, p.buf)
  }

  function FinishNext(c: Config, s: State, q: nat, o: Outcome): State
    requires Head(s.proc, q)
  {
    var p := s.proc[q][0];
    var t := s.(proc := Pop(s.proc, q));
    match o
    case Discard => GiveBack(t, p.buf)
    case Forward(e) => ToForwarder(c, t, e, p)
    case ToSlow =>
      if c.slows > 0 && q % c.slows < |s.slowQ| && |s.slowQ[q % c.slows]| < c.queue
      then t.(slowQ := Push(s.slowQ, q % c.slows, p)) else GiveBack(t, p.buf)
  }

  function FinishSlowNext(c: Config, s: State, q: nat, o: SlowOutcome): State
    requires Head(s.slow, q)
  {
    var p := s.slow[q][0];
    var t := s.(slow := Pop(s.slow, q));
    match o
    case SlowError => GiveBack(t, p.buf)
    case Reply(e) => ToForwarder(c, t, e, p.(fast := false))
    case ReplyNil(e) => ToForwarder(c, t, e, p.(fast := false, buf := Empty))
  }

  function Next(c: Config, s: State, step: Step): State
    requires Enabled(c, s, step)
  {
    match step
    case Collect(r) =>
      var k := |s.free[r]| - s.reusable[r];
      s.(pool := s.pool[1..], free := s.free[r := s.free[r][..k] + [s.pool[0]] + s.free[r][k..]])
    case Read(r, flows) =>
      s.(pending := s.pending[r := Arrived(r, s.free[r][..|flows|], flows, s.arrivals[r])],
         free := s.free[r := s.free[r][|flows|..]],
         reusable := s.reusable[r := c.batch - |flows|],
         arrivals := s.arrivals[r := s.arrivals[r] + |flows|])
    case Enqueue(r) => EnqueueNext(c, s, r)
    case Take(q) => s.(proc := Push(s.proc, q, s.procQ[q][0]), procQ := Pop(s.procQ, q))
    case Finish(q, o) => FinishNext(c, s, q, o)
    case TakeSlow(q) => s.(slow := Push(s.slow, q, s.slowQ[q][0]), slowQ := Pop(s.slowQ, q))
    case FinishSlow(q, o) => FinishSlowNext(c, s, q, o)
    case Fetch(e) => s.(fw := Push(s.fw, e, s.fwQ[e][0]), fwQ := Pop(s.fwQ, e))
    case Flush(e, w) =>
      var h := Handled(w, |s.fw[e]|);
      s.(fw := s.fw[e := s.fw[e][h..]],
         done := s.done[e := s.fw[e][..h]],
         sent := s.sent[e := s.sent[e] + s.fw[e][..w]])
    case Return(e) => GiveBack(s.(done := Pop(s.done, e)), s.done[e][0].buf)
  }

  function Nothing<T>(n: nat): (r: seq<seq<T>>)
    ensures |r| == n && forall i :: 0 <= i < n ==> r[i] == []
  {
    seq(n, i => [])
  }

  /** The pool filled with fresh buffers, all queues empty. */
  function Init(c: Config): State {
    State(seq(c.PoolSize(), i requires 0 <= i => Full(i)),
          Nothing(c.intfs), seq(c.intfs, i => 0), Nothing(c.intfs), seq(c.intfs, i => 0),
          Nothing(c.procs), Nothing(c.procs), Nothing(c.slows), Nothing(c.slows),
          Nothing(c.intfs), Nothing(c.intfs), Nothing(c.intfs), Nothing(c.intfs))
  }

  /**
   One buffer for each place a packet can be: a receiver's batch, a processor's queue and hand, a
   slow-path processor's, a forwarder's queue and batch.
   */
  lemma PoolSizeMeans(c: Config)
    ensures c.PoolSize() ==
      c.intfs * c.batch + (c.procs * c.queue + c.procs) + (c.slows * c.queue + c.slows)
      + (c.intfs * c.batch + c.intfs * c.batch)
  {
    assert (c.procs + c.slows) * (c.queue + 1) == c.procs * c.queue + c.procs + c.slows * c.queue + c.slows;
    assert c.intfs * (2 * c.batch) == c.intfs * c.batch + c.intfs * c.batch;
  }

  /** Allocates the buffers and puts them into the pool. */
  method InitPacketPool(c: Config) returns (pool: seq<Slice>)
    ensures pool == Init(c).pool
    ensures forall i, j :: 0 <= i < j < |pool| ==> pool[i] != pool[j]
  {
    var poolSize := c.intfs * c.batch + (c.procs + c.slows) * (c.queue + 1) + c.intfs * (2 * c.batch);
    pool := [];
    for i := 0 to poolSize
      invariant |pool| == i && forall k :: 0 <= k < i ==> pool[k] == Full(k)
    {
      pool := pool + [Full(i)];
    }
  }

  /** The state after a list of steps from the start, if each was enabled when it was taken. */
  function Reached(c: Config, steps: seq<Step>): Option<State> {
    if steps == [] then Some(Init(c))
    else
      var s := Reached(c, steps[..|steps| - 1]);
      if s.Some? && Enabled(c, s.value, steps[|steps| - 1]) then Some(Next(c, s.value, steps[|steps| - 1])) else None
  }

  // ----- Capacities ------------------------------------------------------------------

  /** A queue has its number of lists, each within its capacity. */
  ghost predicate Bounded(ss: seq<seq<Pkt>>, n: nat, cap: nat) {
    |ss| == n && forall i :: 0 <= i < n ==> |ss[i]| <= cap
  }

  ghost predicate Shared<T, U>(a: seq<seq<T>>, b: seq<seq<U>>, n: nat, cap: nat) {
    |a| == n && |b| == n && forall i :: 0 <= i < n ==> |a[i]| + |b[i]| <= cap
  }

  ghost predicate Reusable(free: seq<seq<Slice>>, n: seq<nat>) {
    |n| == |free| && forall i :: 0 <= i < |n| ==> n[i] <= |free[i]|
  }

  ghost predicate Shaped(c: Config, s: State) {
    && |s.arrivals| == c.intfs && |s.sent| == c.intfs
    && Shared(s.free, s.pending, c.intfs, c.batch) && Reusable(s.free, s.reusable)
    && Bounded(s.procQ, c.procs, c.queue) && Bounded(s.proc, c.procs, 1)
    && Bounded(s.slowQ, c.slows, c.queue) && Bounded(s.slow, c.slows, 1)
    && Bounded(s.fwQ, c.intfs, c.batch)
    && Shared(s.fw, s.done, c.intfs, c.batch)
  }

  lemma PopBounded(ss: seq<seq<Pkt>>, n: nat, cap: nat, i: nat)
    requires Bounded(ss, n, cap) && Head(ss, i)
    ensures Bounded(Pop(ss, i), n, cap)
  {
  }

  lemma PushBounded(ss: seq<seq<Pkt>>, n: nat, cap: nat, i: nat, p: Pkt)
    requires Bounded(ss, n, cap) && i < |ss| && |ss[i]| < cap
    ensures Bounded(Push(ss, i, p), n, cap)
  {
  }

  lemma ForwarderShaped(c: Config, s: State, e: nat, p: Pkt)
    requires Shaped(c, s)
    ensures Shaped(c, ToForwarder(c, s, e, p))
  {
    if e < |s.fwQ| && |s.fwQ[e]| < c.batch { PushBounded(s.fwQ, c.intfs, c.batch, e, p); }
    hide Bounded, Shared;
  }

  lemma ReadShaped(c: Config, s: State, r: nat, flows: seq<Option<Flow>>)
    requires Shaped(c, s) && Enabled(c, s, Read(r, flows))
    ensures Shaped(c, Next(c, s, Read(r, flows)))
  {
    hide Bounded;
  }

  lemma FlushShaped(c: Config, s: State, e: nat, w: nat)
    requires Shaped(c, s) && Enabled(c, s, Flush(e, w))
    ensures Shaped(c, Next(c, s, Flush(e, w)))
  {
    hide Bounded;
  }

  lemma FinishShaped(c: Config, s: State, q: nat, o: Outcome)
    requires Shaped(c, s) && Head(s.proc, q)
    ensures Shaped(c, FinishNext(c, s, q, o))
  {
    hide Bounded, Shared;
    var p := s.proc[q][0];
    var t := s.(proc := Pop(s.proc, q));
    PopBounded(s.proc, c.procs, 1, q);
    match o
    case Discard =>
    case Forward(e) => ForwarderShaped(c, t, e, p);
    case ToSlow =>
      if c.slows > 0 && q % c.slows < |s.slowQ| && |s.slowQ[q % c.slows]| < c.queue {
        PushBounded(s.slowQ, c.slows, c.queue, q % c.slows, p);
      }
  }

  lemma FinishSlowShaped(c: Config, s: State, q: nat, o: SlowOutcome)
    requires Shaped(c, s) && Head(s.slow, q)
    ensures Shaped(c, FinishSlowNext(c, s, q, o))
  {
    hide Bounded, Shared;
    var p := s.slow[q][0];
    var t := s.(slow := Pop(s.slow, q));
    PopBounded(s.slow, c.slows, 1, q);
    match o
    case SlowError =>
    case Reply(e) => ForwarderShaped(c, t, e, p.(fast := false));
    case ReplyNil(e) => ForwarderShaped(c, t, e, p.(fast := false, buf := Empty));
  }

  lemma EnqueueShaped(c: Config, s: State, r: nat)
    requires Shaped(c, s) && Head(s.pending, r)
    ensures Shaped(c, EnqueueNext(c, s, r))
  {
    hide Bounded;
    var p := s.pending[r][0];
    if !p.buf.Empty? && p.flow.Some? {
      var q := c.ProcOf(r, p.flow.value);
      if q < |s.procQ| && |s.procQ[q]| < c.queue { PushBounded(s.procQ, c.procs, c.queue, q, p); }
    }
  }

  lemma MoveShaped(from: seq<seq<Pkt>>, to: seq<seq<Pkt>>, n: nat, cap: nat, m: nat, i: nat)
    requires Bounded(from, n, cap) && Bounded(to, m, 1) && Head(from, i) && i < |to| && to[i] == []
    ensures Bounded(Pop(from, i), n, cap) && Bounded(Push(to, i, from[i][0]), m, 1)
  {
  }

  lemma StepShaped(c: Config, s: State, step: Step)
    requires Shaped(c, s) && Enabled(c, s, step)
    ensures Shaped(c, Next(c, s, step))
  {
    match step {
      case Read(r, flows) => ReadShaped(c, s, r, flows);
      case Enqueue(r) => EnqueueShaped(c, s, r);
      case Finish(q, o) => FinishShaped(c, s, q, o);
      case FinishSlow(q, o) => FinishSlowShaped(c, s, q, o);
      case Flush(e, w) => FlushShaped(c, s, e, w);
      case Take(q) => MoveShaped(s.procQ, s.proc, c.procs, c.queue, c.procs, q);
      case TakeSlow(q) => MoveShaped(s.slowQ, s.slow, c.slows, c.queue, c.slows, q);
      case _ => LocalShaped(c, s, step);
    }
    hide Bounded, Shared, EnqueueNext, FinishNext, FinishSlowNext;
  }

  lemma LocalShaped(c: Config, s: State, step: Step)
    requires Shaped(c, s) && Enabled(c, s, step) && (step.Collect? || step.Fetch? || step.Return?)
    ensures Shaped(c, Next(c, s, step))
  {
    if step.Fetch? { PopBounded(s.fwQ, c.intfs, c.batch, step.e); }
    hide Bounded;
  }
}
