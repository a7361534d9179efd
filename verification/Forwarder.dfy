/** The forwarder of one interface: reads packets from its queue and writes them in batches. */
module Forwarder {
  import opened Basics
  import opened Pipeline

  /** What the outside decides in one round: packets ready in the queue, and WriteBatch's result. */
  datatype Round = Round(ready: nat, result: int)

  /** What happened in one round: the packets offered to WriteBatch and how many it wrote. */
  datatype Outcome = Outcome(offered: seq<Pkt>, written: nat)
  {
    predicate Valid() { written <= |offered| }

    /** Packets given back to the pool: the written ones and at most one that is dropped. */
    function Gone(): (r: seq<Pkt>)
      requires Valid()
      ensures |r| == if written < |offered| then written + 1 else |offered|
    {
      offered[..Handled(written, |offered|)]
    }

    function Leftover(): seq<Pkt>
      requires Valid()
    {
      offered[Handled(written, |offered|)..]
    }
  }

  predicate AllValid(log: seq<Outcome>) { forall k :: 0 <= k < |log| ==> log[k].Valid() }

  /** All packets given back, in order. */
  function Returned(log: seq<Outcome>): seq<Pkt>
    requires AllValid(log)
  {
    if log == [] then [] else Returned(log[..|log| - 1]) + log[|log| - 1].Gone()
  }

  lemma ReturnedSnoc(log: seq<Outcome>, o: Outcome)
    requires AllValid(log) && o.Valid()
    ensures AllValid(log + [o]) && Returned(log + [o]) == Returned(log) + o.Gone()
  {
    assert (log + [o])[..|log|] == log;
  }

  function Min(a: int, b: int): int { if a < b then a else b }
  function Max(a: int, b: int): int { if a < b then b else a }

  /** How many packets a read of up to `n` takes; a blocking read waits for one if there is one to come. */
  function Taken(coming: nat, ready: nat, n: nat, needsBlocking: bool): nat {
    Min(coming, Min(n, if needsBlocking then Max(1, ready) else ready))
  }

  /**
   Moves packets from the queue, which will deliver `c` and then be closed, to `pkts` from
   position `at` on; `ready` of them can be had without waiting.
   */
  method ReadUpTo(c: seq<Pkt>, ready: nat, n: nat, needsBlocking: bool, pkts: array<Pkt>, at: nat) returns (i: nat)
    requires at + n <= pkts.Length && (needsBlocking ==> n > 0)
    modifies pkts
    ensures i == Taken(|c|, ready, n, needsBlocking)
    ensures pkts[..at + i] == old(pkts[..at]) + c[..i]
  {
    i := 0;
    if needsBlocking {
      if c == [] { return 0; }
      pkts[at] := c[0];
      i := 1;
    }
    while i < n
      invariant i <= n && i <= |c|
      invariant i <= Taken(|c|, ready, n, needsBlocking)
      invariant pkts[..at + i] == old(pkts[..at]) + c[..i]
    {
      if i >= ready || i >= |c| { return i; }
      pkts[at + i] := c[i];
      assert pkts[..at + i + 1] == pkts[..at + i] + [c[i]];
      i := i + 1;
    }
  }

  /** Moves `n` packets from position `d` to the head of the array. */
  method ShiftLeft(pkts: array<Pkt>, n: nat, d: nat)
    requires d > 0 && n + d <= pkts.Length
    modifies pkts
    ensures pkts[..n] == old(pkts[d..d + n])
  {
    for i := 0 to n
      invariant forall k :: 0 <= k < i ==> pkts[k] == old(pkts[k + d])
      invariant forall k :: i <= k < pkts.Length ==> pkts[k] == old(pkts[k])
    {
      pkts[i] := pkts[i + d];
    }
  }

  /** Each round starts with what the one before left over, in the same order. */
  ghost predicate Carried(log: seq<Outcome>)
    requires AllValid(log)
  {
    forall k :: 0 < k < |log| ==> log[k - 1].Leftover() <= log[k].offered
  }

  ghost predicate Answers(rounds: seq<Round>, log: seq<Outcome>) {
    && |log| <= |rounds|
    && forall k :: 0 <= k < |log| ==> log[k].written == Max(0, Min(rounds[k].result, |log[k].offered|))
  }

  /** The packets given back, those held and those not yet read are the queue, in order. */
  ghost predicate Accounted(queue: seq<Pkt>, batch: nat, rounds: seq<Round>, log: seq<Outcome>, held: seq<Pkt>,
                            rest: seq<Pkt>) {
    && AllValid(log) && Answers(rounds, log) && Carried(log)
    && Returned(log) + held + rest == queue
    && (log != [] ==> held == log[|log| - 1].Leftover())
    && (forall k :: 0 <= k < |log| ==> |log[k].offered| <= batch)
    && (rest != [] ==> forall k :: 0 <= k < |log| ==> log[k].offered != [])
  }

  lemma Regroup(done: seq<Pkt>, held: seq<Pkt>, c: seq<Pkt>, i: nat, h: nat)
    requires i <= |c| && h <= |held| + i
    ensures var offered := held + c[..i]; done + offered[..h] + offered[h..] + c[i..] == done + held + c
  {
    var offered := held + c[..i];
    assert offered[..h] + offered[h..] == offered;
    assert done + offered[..h] + offered[h..] + c[i..] == done + offered + c[i..];
    assert c[..i] + c[i..] == c;
  }

  lemma RoundAccounted(queue: seq<Pkt>, batch: nat, rounds: seq<Round>, log: seq<Outcome>,
                       held: seq<Pkt>, rest: seq<Pkt>, taken: nat, o: Outcome)
    requires Accounted(queue, batch, rounds, log, held, rest) && |log| < |rounds| && taken <= |rest|
    requires o.offered == held + rest[..taken] && |o.offered| <= batch
    requires rest[taken..] != [] ==> o.offered != []
    requires o.written == Max(0, Min(rounds[|log|].result, |o.offered|))
    ensures Accounted(queue, batch, rounds, log + [o], o.Leftover(), rest[taken..])
  {
    hide Returned, Carried;
    ReturnedSnoc(log, o);
    Regroup(Returned(log), held, rest, taken, Handled(o.written, |o.offered|));
    CarriedSnoc(log, held, o);
  }

  lemma CarriedSnoc(log: seq<Outcome>, held: seq<Pkt>, o: Outcome)
    requires AllValid(log) && Carried(log) && o.Valid() && held <= o.offered
    requires log != [] ==> held == log[|log| - 1].Leftover()
    ensures AllValid(log + [o]) && Carried(log + [o])
  {
  }

  /**
   The forwarder's loop, for any list of rounds.  Whatever WriteBatch answers, each packet
   read is written or dropped once, at most one per short write is dropped, none is doubled
   and none overtakes another.
   */
  method RunForwarder(queue: seq<Pkt>, batch: nat, rounds: seq<Round>)
    returns (log: seq<Outcome>, held: seq<Pkt>, rest: seq<Pkt>)
    requires batch > 0
    ensures AllValid(log) && |log| == |rounds| && Answers(rounds, log) && Carried(log)
    ensures Returned(log) + held + rest == queue && |held| < batch
    ensures forall k :: 0 <= k < |log| ==> |log[k].offered| <= batch
    ensures forall k :: 0 <= k < |log| ==>
      |log[k].Gone()| == (if log[k].written < |log[k].offered| then log[k].written + 1 else |log[k].offered|)
    ensures rest != [] ==> forall k :: 0 <= k < |log| ==> log[k].offered != []
  {
    var pkts := new Pkt[batch](_ => Pkt(Empty, 0, None, 0, false));
    var toWrite := 0;
    log, rest := [], queue;
    for k := 0 to |rounds|
      invariant fresh(pkts) && 0 <= toWrite < batch && |log| == k
      invariant Accounted(queue, batch, rounds, log, pkts[..toWrite], rest)
    {
      hide Accounted, Returned, Answers, Carried;
      ghost var kept := pkts[..toWrite];
      var taken := ReadUpTo(rest, rounds[k].ready, batch - toWrite, toWrite == 0, pkts, toWrite);
      toWrite := toWrite + taken;

      var offered := pkts[..toWrite];
      var written := Min(rounds[k].result, toWrite);
      if written < 0 { written := 0; }
      var o := Outcome(offered, written);
      RoundAccounted(queue, batch, rounds, log, kept, rest, taken, o);
      log, rest := log + [o], rest[taken..];

      if written != toWrite {
        toWrite := toWrite - (written + 1);
        ShiftLeft(pkts, toWrite, written + 1);
      } else {
        toWrite := 0;
      }
      assert pkts[..toWrite] == o.Leftover();
    }
    held := pkts[..toWrite];
  }

  /** A read fills up from what is ready, takes one at least if it may wait, and no more than there is room for. */
  lemma TakenMeans(coming: nat, ready: nat, n: nat, needsBlocking: bool)
    ensures coming >= n && ready >= n ==> Taken(coming, ready, n, needsBlocking) == n
    ensures coming > 0 && n > 0 && needsBlocking ==> Taken(coming, ready, n, needsBlocking) >= 1
    ensures coming >= ready && ready <= n && (!needsBlocking || ready > 0) ==>
      Taken(coming, ready, n, needsBlocking) == ready
    ensures Taken(coming, ready, n, needsBlocking) <= n && Taken(coming, ready, n, needsBlocking) <= coming
  {
  }
}
