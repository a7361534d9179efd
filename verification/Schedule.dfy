/** The tick that schedules origination and propagation, and the rate it allows per interface. */
module Schedule {
  import opened Basics

  /** Nanoseconds; the zero time is a clock that was never set. */
  type Time = int

  const ZERO_TIME: Time := 0
  const MAX_DURATION := 0x7fff_ffff_ffff_ffff

  type Duration = x: int | -MAX_DURATION - 1 <= x <= MAX_DURATION

  /** The difference of two times saturates. */
  function Sub(a: Time, b: Time): Duration {
    if a - b > MAX_DURATION then MAX_DURATION else if a - b < -MAX_DURATION - 1 then -MAX_DURATION - 1 else a - b
  }

  // ----- The schedule of one interface -------------------------------------------------

  /** The time of the last full tick, and of the last success on the interface. */
  datatype State = State(last: Time, sent: Time)

  /** A run at some time, in which sending would work or not; or a reset of the interface. */
  datatype Event = Run(at: Time, works: bool) | Reset(at: Time)

  predicate Passed(period: Duration, s: State, now: Time) { Sub(now, s.last) >= period }

  predicate Overdue(period: Duration, s: State, now: Time) { Sub(now, s.sent) > period }

  predicate Succeeds(period: Duration, s: State, e: Event) {
    e.Run? && e.works && (Passed(period, s, e.at) || Overdue(period, s, e.at))
  }

  function Next(period: Duration, s: State, e: Event): State {
    match e
    case Reset(_) => s.(sent := ZERO_TIME)
    case Run(now, _) =>
      State(if Passed(period, s, now) then now else s.last, if Succeeds(period, s, e) then now else s.sent)
  }

  predicate In(w: Time, period: Duration, t: Time) { w <= t < w + period }

  /** Runs with a success in the window of one period that starts at `w`. */
  function Successes(period: Duration, s: State, es: seq<Event>, w: Time): nat
    decreases es
  {
    if es == [] then 0
    else (if Succeeds(period, s, es[0]) && In(w, period, es[0].at) then 1 else 0)
         + Successes(period, Next(period, s, es[0]), es[1..], w)
  }

  function Resets(period: Duration, es: seq<Event>, w: Time): nat {
    if es == [] then 0
    else (if es[0].Reset? && In(w, period, es[0].at) then 1 else 0) + Resets(period, es[1..], w)
  }

  ghost predicate Monotone(es: seq<Event>) { forall i, j :: 0 <= i < j < |es| ==> es[i].at <= es[j].at }

  /** Successes still possible in the window: one by a full tick, one by being overdue. */
  function Budget(s: State, w: Time): nat {
    (if s.last >= w then 0 else 1) + if s.sent >= w then 0 else 1
  }

  lemma {:induction false} NoneAfter(period: Duration, s: State, es: seq<Event>, w: Time)
    requires forall i :: 0 <= i < |es| ==> es[i].at >= w + period
    ensures Successes(period, s, es, w) == 0
    decreases es
  {
    if es != [] { NoneAfter(period, Next(period, s, es[0]), es[1..], w); }
  }

  /** An event in the window pays for its success from the budget; a reset adds to it. */
  lemma EventPays(period: Duration, s: State, e: Event, w: Time)
    requires period > 0 && In(w, period, e.at)
    ensures (if Succeeds(period, s, e) then 1 else 0) + Budget(Next(period, s, e), w)
            <= Budget(s, w) + if e.Reset? then 1 else 0
  {
  }

  lemma {:induction false} InWindow(period: Duration, s: State, es: seq<Event>, w: Time)
    requires period > 0 && Monotone(es) && forall i :: 0 <= i < |es| ==> es[i].at >= w
    ensures Successes(period, s, es, w) <= Budget(s, w) + Resets(period, es, w)
    decreases es
  {
    if es != [] {
      if In(w, period, es[0].at) {
        EventPays(period, s, es[0], w);
        InWindow(period, Next(period, s, es[0]), es[1..], w);
      } else {
        NoneAfter(period, s, es, w);
      }
    }
  }

  /**
   With a clock that does not go back, an interface has at most two runs with a success in
   any window of one period, and one more for each reset in it.
   */
  lemma {:induction false} RateBound(period: Duration, s: State, es: seq<Event>, w: Time)
    requires period > 0 && Monotone(es)
    ensures Successes(period, s, es, w) <= 2 + Resets(period, es, w)
    decreases es
  {
    if es != [] {
      if es[0].at < w {
        RateBound(period, Next(period, s, es[0]), es[1..], w);
      } else {
        InWindow(period, s, es, w);
      }
    }
  }

  /** Two are possible from the start: a failed full tick, an overdue success, the next full tick. */
  lemma RateBoundTight()
    ensures exists es, w ::
      Monotone(es) && Resets(10, es, w) == 0 && Successes(10, State(ZERO_TIME, ZERO_TIME), es, w) == 2
  {
    var a, b, c, d := Run(100, true), Run(110, false), Run(111, true), Run(120, true);
    var es := [a, b, c, d];
    var s := State(ZERO_TIME, ZERO_TIME);
    assert es[1..] == [b, c, d] && [b, c, d][1..] == [c, d] && [c, d][1..] == [d] && [d][1..] == [];
    assert Next(10, s, a) == State(100, 100);
    assert Next(10, State(100, 100), b) == State(110, 100);
    assert Next(10, State(110, 100), c) == State(110, 111);
    assert Successes(10, State(110, 111), [d], 111) == 1;
    assert Successes(10, State(110, 100), [c, d], 111) == 2;
    assert Successes(10, State(100, 100), [b, c, d], 111) == 2;
    assert Successes(10, s, es, 111) == 2;
    assert Resets(10, [d], 111) == 0;
    assert Resets(10, [c, d], 111) == 0;
    assert Resets(10, [b, c, d], 111) == 0;
    assert Monotone(es);
  }

  /** A run succeeds if and only if sending works and a period is over, or more than one without a success. */
  lemma SucceedsIff(period: Duration, s: State, at: Time, works: bool)
    requires at - s.last <= MAX_DURATION && at - s.sent <= MAX_DURATION && s.last <= at && s.sent <= at
    ensures Succeeds(period, s, Run(at, works)) <==> works && (at - s.last >= period || at - s.sent > period)
    ensures Next(period, s, Run(at, works)).last == if at - s.last >= period then at else s.last
  {
  }

  /** Times too far apart for a duration count as the longest or shortest one: about 292 years. */
  lemma FarApart(a: Time, b: Time)
    ensures a - b > 9223372036854775807 ==> Sub(a, b) == 9223372036854775807
    ensures a - b < -9223372036854775808 ==> Sub(a, b) == -9223372036854775808
    ensures -9223372036854775808 <= a - b <= 9223372036854775807 ==> Sub(a, b) == a - b
  {
  }

  /** No interface falls behind: after a run in which sending works the last success is a period old at most. */
  lemma NeverBehind(period: Duration, s: State, at: Time)
    requires 0 <= period < MAX_DURATION
    ensures at - Next(period, s, Run(at, true)).sent <= period
  {
  }

  // ----- The objects -------------------------------------------------------------------

  class Tick {
    var now: Time
    var last: Time
    const period: Duration

    constructor (period: Duration)
      ensures this.period == period && now == ZERO_TIME && last == ZERO_TIME
    {
      this.period, now, last := period, ZERO_TIME, ZERO_TIME;
    }

    method SetNow(now: Time)
      modifies this`now
      ensures this.now == now
    {
      this.now := now;
    }

    predicate Passed()
      reads this
    {
      Sub(now, last) >= period
    }

    predicate Overdue(timestamp: Time)
      reads this
    {
      Sub(now, timestamp) > period
    }

    method UpdateLast()
      modifies this`last
      ensures last == if old(Passed()) then now else old(last)
    {
      if Passed() { last := now; }
    }

    /** All positions on a full tick, otherwise those of the timestamps that are overdue. */
    method Due(times: seq<Time>) returns (need: seq<nat>)
      ensures Increasing(need, |times|)
      ensures forall i :: 0 <= i < |times| ==> (i in need <==> Passed() || Overdue(times[i]))
    {
      need := [];
      if Passed() {
        need := seq(|times|, i => i);
        forall i | 0 <= i < |times| ensures i in need { assert need[i] == i; }
        return;
      }
      for i := 0 to |times|
        invariant Increasing(need, i)
        invariant forall k :: 0 <= k < i ==> (k in need <==> Overdue(times[k]))
      {
        if Overdue(times[i]) { need := need + [i]; }
      }
    }
  }

  /** Positions in a list of length `n`, in order. */
  ghost predicate Increasing(s: seq<nat>, n: nat) {
    && (forall k :: 0 <= k < |s| ==> s[k] < n)
    && forall j, k :: 0 <= j < k < |s| ==> s[j] < s[k]
  }

  /** What the topology says about an interface. */
  datatype TopoInfo = TopoInfo(ia: IA, linkType: LinkType, remoteId: IfId)

  class Interface {
    var topoInfo: TopoInfo
    var lastOriginate: Time
    var lastPropagate: Time

    constructor (info: TopoInfo)
      ensures topoInfo == info && lastOriginate == ZERO_TIME && lastPropagate == ZERO_TIME
    {
      topoInfo, lastOriginate, lastPropagate := info, ZERO_TIME, ZERO_TIME;
    }

    method UpdateTopoInfo(info: TopoInfo)
      modifies this`topoInfo
      ensures topoInfo == info.(remoteId := old(topoInfo).remoteId)
    {
      topoInfo := info.(remoteId := topoInfo.remoteId);
    }

    method Reset()
      modifies this`lastOriginate, this`lastPropagate
      ensures lastOriginate == ZERO_TIME && lastPropagate == ZERO_TIME
    {
      lastOriginate, lastPropagate := ZERO_TIME, ZERO_TIME;
    }

    method Originate(now: Time)
      modifies this`lastOriginate
      ensures lastOriginate == now
    {
      lastOriginate := now;
    }

    method Propagate(now: Time)
      modifies this`lastPropagate
      ensures lastPropagate == now
    {
      lastPropagate := now;
    }
  }

  class Interfaces {
    var intfs: map<IfId, Interface>

    constructor ()
      ensures intfs == map[] && Valid()
    {
      intfs := map[];
    }

    /** No two identifiers share an object. */
    ghost predicate Valid()
      reads this
    {
      forall i <- intfs, j <- intfs :: i != j ==> intfs[i] != intfs[j]
    }

    /** An interface that stays keeps its schedule and remote ID; one that comes anew starts from zero. */
    method Update(infos: map<IfId, TopoInfo>)
      requires Valid()
      modifies this, intfs.Values
      ensures Valid() && intfs.Keys == infos.Keys
      ensures forall i <- infos :: i in old(intfs) ==>
        && intfs[i] == old(intfs)[i]
        && intfs[i].lastOriginate == old(intfs[i].lastOriginate)
        && intfs[i].lastPropagate == old(intfs[i].lastPropagate)
        && intfs[i].topoInfo == infos[i].(remoteId := old(intfs[i].topoInfo).remoteId)
      ensures forall i <- infos :: i !in old(intfs) ==>
        && fresh(intfs[i]) && intfs[i].topoInfo == infos[i]
        && intfs[i].lastOriginate == ZERO_TIME && intfs[i].lastPropagate == ZERO_TIME
    {
      var m: map<IfId, Interface> := map[];
      var todo := infos.Keys;
      while todo != {}
        invariant todo <= infos.Keys && m.Keys == infos.Keys - todo && intfs == old(intfs)
        invariant forall i <- m, j <- m :: i != j ==> m[i] != m[j]
        invariant forall i <- intfs :: i !in m ==> intfs[i].topoInfo == old(intfs[i].topoInfo)
        invariant forall i <- intfs ::
          intfs[i].lastOriginate == old(intfs[i].lastOriginate) && intfs[i].lastPropagate == old(intfs[i].lastPropagate)
        invariant forall i <- m :: i in intfs ==>
          m[i] == intfs[i] && m[i].topoInfo == infos[i].(remoteId := old(intfs[i].topoInfo).remoteId)
        invariant forall i <- m :: i !in intfs ==>
          && fresh(m[i]) && m[i].topoInfo == infos[i]
          && m[i].lastOriginate == ZERO_TIME && m[i].lastPropagate == ZERO_TIME
      {
        var i :| i in todo;
        if i in intfs {
          intfs[i].UpdateTopoInfo(infos[i]);
          m := m[i := intfs[i]];
        } else {
          var intf := new Interface(infos[i]);
          m := m[i := intf];
        }
        todo := todo - {i};
      }
      intfs := m;
    }
  }

  class Originator {
    const tick: Tick

    constructor (tick: Tick)
      ensures this.tick == tick
    {
      this.tick := tick;
    }

    /** The positions of the interfaces that need a beacon, in order. */
    method NeedBeacon(active: seq<Interface>) returns (need: seq<nat>)
      ensures Increasing(need, |active|)
      ensures forall i :: 0 <= i < |active| ==>
        (i in need <==> tick.Passed() || tick.Overdue(active[i].lastOriginate))
    {
      need := tick.Due(seq(|active|, i requires 0 <= i < |active| reads active => active[i].lastOriginate));
    }

    /** One run: each interface makes the step of the schedule. */
    method Run(now: Time, active: seq<Interface>, works: seq<bool>)
      requires |works| == |active| && forall i, j :: 0 <= i < j < |active| ==> active[i] != active[j]
      modifies tick, active
      ensures tick.now == now
      ensures forall i :: 0 <= i < |active| ==>
        State(tick.last, active[i].lastOriginate)
        == Next(tick.period, State(old(tick.last), old(active[i].lastOriginate)), Event.Run(now, works[i]))
      ensures forall i :: 0 <= i < |active| ==>
        active[i].lastPropagate == old(active[i].lastPropagate) && active[i].topoInfo == old(active[i].topoInfo)
    {
      tick.SetNow(now);
      var need := NeedBeacon(active);
      for k := 0 to |need|
        invariant tick.now == now && tick.last == old(tick.last)
        invariant forall i :: 0 <= i < |active| ==>
          active[i].lastPropagate == old(active[i].lastPropagate) && active[i].topoInfo == old(active[i].topoInfo)
        invariant forall i :: 0 <= i < |active| ==>
          active[i].lastOriginate == if i in need[..k] && works[i] then now else old(active[i].lastOriginate)
      {
        assert need[..k + 1] == need[..k] + [need[k]];
        if works[need[k]] { active[need[k]].Originate(now); }
      }
      assert need[..|need|] == need;
      tick.UpdateLast();
    }
  }

  /** Some beacon of the list gets through. */
  predicate AnyWorks(sends: seq<bool>) { exists k :: 0 <= k < |sends| && sends[k] }

  class Propagator {
    const tick: Tick

    constructor (tick: Tick)
      ensures this.tick == tick
    {
      this.tick := tick;
    }

    /** The positions of the interfaces that beacons should be propagated on, in order. */
    method NeedsBeacons(intfs: seq<Interface>) returns (need: seq<nat>)
      ensures Increasing(need, |intfs|)
      ensures forall i :: 0 <= i < |intfs| ==>
        (i in need <==> tick.Passed() || tick.Overdue(intfs[i].lastPropagate))
    {
      need := tick.Due(seq(|intfs|, i requires 0 <= i < |intfs| reads intfs => intfs[i].lastPropagate));
    }

    /** Sends every beacon on the interface; one that gets through is enough to note the time. */
    method Propagate(intf: Interface, sends: seq<bool>)
      modifies intf`lastPropagate
      ensures intf.lastPropagate == if AnyWorks(sends) then tick.now else old(intf.lastPropagate)
      ensures forall k :: 0 <= k < |sends| && sends[k] ==> intf.lastPropagate == tick.now
      ensures (forall k :: 0 <= k < |sends| ==> !sends[k]) ==> intf.lastPropagate == old(intf.lastPropagate)
    {
      for k := 0 to |sends|
        invariant intf.lastPropagate == if AnyWorks(sends[..k]) then tick.now else old(intf.lastPropagate)
      {
        assert forall j :: 0 <= j < k ==> sends[..k + 1][j] == sends[..k][j];
        assert sends[..k + 1][k] == sends[k];
        if sends[k] { intf.Propagate(tick.now); }
      }
      assert sends[..|sends|] == sends;
    }

    /** One run; `sends` tells for each interface and beacon whether sending works. */
    method Run(now: Time, intfs: seq<Interface>, sends: seq<seq<bool>>)
      requires |sends| == |intfs| && forall i, j :: 0 <= i < j < |intfs| ==> intfs[i] != intfs[j]
      modifies tick, intfs
      ensures tick.now == now
      ensures forall i :: 0 <= i < |intfs| ==>
        State(tick.last, intfs[i].lastPropagate)
        == Next(tick.period, State(old(tick.last), old(intfs[i].lastPropagate)), Event.Run(now, AnyWorks(sends[i])))
      ensures forall i :: 0 <= i < |intfs| ==>
        intfs[i].lastOriginate == old(intfs[i].lastOriginate) && intfs[i].topoInfo == old(intfs[i].topoInfo)
    {
      hide AnyWorks;
      tick.SetNow(now);
      var need := NeedsBeacons(intfs);
      for k := 0 to |need|
        invariant tick.now == now && tick.last == old(tick.last)
        invariant forall i :: 0 <= i < |intfs| ==>
          intfs[i].lastOriginate == old(intfs[i].lastOriginate) && intfs[i].topoInfo == old(intfs[i].topoInfo)
        invariant forall i :: 0 <= i < |intfs| ==>
          intfs[i].lastPropagate == if i in need[..k] && AnyWorks(sends[i]) then now else old(intfs[i].lastPropagate)
      {
        assert need[..k + 1] == need[..k] + [need[k]];
        Propagate(intfs[need[k]], sends[need[k]]);
      }
      assert need[..|need|] == need;
      tick.UpdateLast();
    }
  }
}
