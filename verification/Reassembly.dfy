/** The round trip of a message through the chunks it is sent in, for every order of arrival. */
module Reassembly {
  import opened Basics
  import opened Counting
  import opened Chunks

  datatype Arrival = Arrival(from: Sender, data: Bytes)

  /** What the server did so far: its state, what it put out, and who made it exit. */
  datatype Session = Session(messages: Messages, outputs: seq<Arrival>, stopped: Option<Sender>)

  function Serve(ms: Messages, arrivals: seq<Arrival>): Session {
    if arrivals == [] then Session(ms, [], None)
    else
      var before, last := Serve(ms, arrivals[..|arrivals| - 1]), arrivals[|arrivals| - 1];
      if before.stopped.Some? then before
      else
        match Receive(before.messages, last.from, last.data)
        case Exit => before.(stopped := Some(last.from))
        case Next(m, out) =>
          Session(m, if out.Some? then before.outputs + [Arrival(last.from, out.value)] else before.outputs, None)
  }

  /** The data of one sender among others. */
  function Of(arrivals: seq<Arrival>, a: Sender): seq<Bytes> {
    if arrivals == [] then []
    else
      var init, last := Of(arrivals[..|arrivals| - 1], a), arrivals[|arrivals| - 1];
      if last.from == a then init + [last.data] else init
  }

  // ----- One packet --------------------------------------------------------------------

  function Pow10(k: nat): nat { if k == 0 then 1 else 10 * Pow10(k - 1) }

  lemma {:induction false} DecimalLength(n: nat, k: nat)
    requires k > 0 && n < Pow10(k)
    ensures |Decimal(n)| <= k
  {
    if n >= 10 {
      assert k > 1 by { assert Pow10(1) == 10 * Pow10(0) == 10; }
      DecimalLength(n / 10, k - 1);
    }
  }

  lemma HeaderLength(i: nat, n: nat)
    requires i <= MAX_INT && n <= MAX_INT
    ensures |Header(i, n)| <= 40
  {
    assert Pow10(4) == 10000 && Pow10(8) == 10000 * Pow10(4) && Pow10(12) == 10000 * Pow10(8)
        && Pow10(16) == 10000 * Pow10(12) && Pow10(19) == 1000 * Pow10(16);
    DecimalLength(i, 19);
    DecimalLength(n, 19);
  }

  /** A packet fits in the read buffer. */
  predicate Fits(message: Bytes, n: nat, i: nat)
    requires i < n
  {
    |Packet(message, n, i)| <= BUFFER
  }

  /** The part of a chunk that is read. */
  function Arriving(message: Bytes, n: nat, i: nat): Bytes
    requires i < n
  {
    var chunk, room := Chunk(message, n, i), BUFFER - |Header(i, n)|;
    if |chunk| <= room then chunk else if room > 0 then chunk[..room] else []
  }

  lemma PacketParsed(message: Bytes, n: nat, i: nat)
    requires i < n <= MAX_INT
    ensures Parse(Read(Packet(message, n, i))) == Some(Parsed(i, n, Arriving(message, n, i)))
  {
    HeaderLength(i, n);
    assert Read(Packet(message, n, i)) == Header(i, n) + Arriving(message, n, i);
    ParseHeader(i, n, Arriving(message, n, i));
  }

  /** The chunks the server holds once those numbered in `order` have come. */
  function Got(message: Bytes, n: nat, order: seq<nat>): (r: seq<Option<Bytes>>)
    ensures |r| == n
    ensures forall i :: 0 <= i < n ==> r[i] == if i in order then Some(Arriving(message, n, i)) else None
  {
    seq(n, i requires 0 <= i < n => if i in order then Some(Arriving(message, n, i)) else None)
  }

  /** The first `k` chunks as they arrive, joined. */
  function Joined(message: Bytes, n: nat, k: nat): Bytes
    requires k <= n
  {
    if k == 0 then [] else Joined(message, n, k - 1) + Arriving(message, n, k - 1)
  }

  lemma {:induction false} ConcatGot(message: Bytes, n: nat, k: nat, chunks: seq<Option<Bytes>>)
    requires k <= n && |chunks| == k && forall i :: 0 <= i < k ==> chunks[i] == Some(Arriving(message, n, i))
    ensures Concat(chunks) == Joined(message, n, k)
  {
    if k > 0 { ConcatGot(message, n, k - 1, chunks[..k - 1]); }
  }

  // ----- Any order of arrival ------------------------------------------------------------

  ghost predicate Numbering(n: nat, order: seq<nat>) {
    Distinct(order) && forall k :: 0 <= k < |order| ==> order[k] < n
  }

  function Below(n: nat): set<nat> { if n == 0 then {} else Below(n - 1) + {n - 1} }

  lemma {:induction false} BelowMeans(n: nat)
    ensures |Below(n)| == n && forall i: nat :: i in Below(n) <==> i < n
  {
    if n > 0 { BelowMeans(n - 1); }
  }

  /** As many distinct numbers below n as n are all of them; there are never more. */
  lemma Pigeonhole(order: seq<nat>, n: nat)
    requires Numbering(n, order)
    ensures |order| <= n
    ensures |order| == n ==> forall i: nat :: i < n ==> i in order
  {
    DistinctCount(order);
    ElementsMeans(order);
    BelowMeans(n);
    var s := Elements(order);
    SubsetCount(s, Below(n));
    if |order| == n {
      forall i: nat | i < n ensures i in order {
        if i !in order { SubsetCount(s, Below(n) - {i}); }
      }
    }
  }

  /** The state for the sender after the chunks in `order`. */
  ghost predicate Holds(ms: Messages, a: Sender, message: Bytes, n: nat, order: seq<nat>) {
    if order == [] || |order| == n then a !in ms
    else a in ms && ms[a] == Message(|order|, Got(message, n, order))
  }

  lemma OtherSender(ms: Messages, from: Sender, data: Bytes, a: Sender)
    requires from != a && Receive(ms, from, data).Next?
    ensures var t := Receive(ms, from, data).messages; (a in t <==> a in ms) && (a in ms ==> t[a] == ms[a])
  {
  }

  lemma GotStep(message: Bytes, n: nat, order: seq<nat>)
    requires order != [] && Numbering(n, order)
    ensures var i := order[|order| - 1]; var before := Got(message, n, order[..|order| - 1]);
      && before[i].None? && before[i := Some(Arriving(message, n, i))] == Got(message, n, order)
    ensures Got(message, n, []) == NoChunks(n)
  {
    hide Arriving;
    var i, init := order[|order| - 1], order[..|order| - 1];
    assert order == init + [i];
    assert i !in init;
  }

  lemma OwnChunk(ms: Messages, a: Sender, message: Bytes, n: nat, order: seq<nat>)
    requires n <= MAX_INT && order != [] && Numbering(n, order)
    requires Holds(ms, a, message, n, order[..|order| - 1])
    ensures var o := Receive(ms, a, Packet(message, n, order[|order| - 1]));
      && o.Next? && Holds(o.messages, a, message, n, order)
      && o.emitted == if |order| == n then Some(Joined(message, n, n)) else None
  {
    hide Parse, Packet, Arriving, Concat, Joined, Got, Numbering, Read, NoChunks;
    assert order[|order| - 1] < n by { NumberingLast(n, order); }
    PacketParsed(message, n, order[|order| - 1]);
    Pigeonhole(order, n);
    GotStep(message, n, order);
    GotSize(message, n, order);
    GotSize(message, n, order[..|order| - 1]);
    if |order| == n { GotAll(message, n, order); }
  }

  lemma NumberingLast(n: nat, order: seq<nat>)
    requires order != [] && Numbering(n, order)
    ensures order[|order| - 1] < n
  {
  }

  lemma GotSize(message: Bytes, n: nat, order: seq<nat>)
    ensures |Got(message, n, order)| == n && |NoChunks(n)| == n
  {
  }

  lemma GotAll(message: Bytes, n: nat, order: seq<nat>)
    requires Numbering(n, order) && |order| == n
    ensures Concat(Got(message, n, order)) == Joined(message, n, n)
  {
    Pigeonhole(order, n);
    ConcatGot(message, n, n, Got(message, n, order));
  }

  /** Sender `a` sent the packets of the message, and those numbered in `order` have arrived. */
  ghost predicate Sent(arrivals: seq<Arrival>, a: Sender, message: Bytes, n: nat, order: seq<nat>) {
    && Numbering(n, order) && |Of(arrivals, a)| == |order|
    && forall k :: 0 <= k < |order| ==> Of(arrivals, a)[k] == Packet(message, n, order[k])
  }

  /** Every prefix of the arrivals: the sender never makes the server exit, and is answered once. */
  lemma {:induction false} ServeMessage(ms: Messages, arrivals: seq<Arrival>, a: Sender, message: Bytes, n: nat,
                                        order: seq<nat>)
    requires a !in ms && n <= MAX_INT && Sent(arrivals, a, message, n, order)
    ensures var s := Serve(ms, arrivals);
      && s.stopped != Some(a)
      && (s.stopped.None? ==>
            && Holds(s.messages, a, message, n, order)
            && Of(s.outputs, a) == if order != [] && |order| == n then [Joined(message, n, n)] else [])
      && (Of(s.outputs, a) == [] || Of(s.outputs, a) == [Joined(message, n, n)])
  {
    hide Receive, Holds, Joined, Packet;
    if arrivals == [] {
      NothingHeld(ms, a, message, n);
    } else {
      var last := arrivals[|arrivals| - 1];
      var init := arrivals[..|arrivals| - 1];
      var before := Serve(ms, init);
      if last.from == a {
        var prior := order[..|order| - 1];
        ServeMessage(ms, init, a, message, n, prior);
        if before.stopped.None? {
          Pigeonhole(order, n);
          OwnChunk(before.messages, a, message, n, order);
          OutputSnoc(before.outputs, a, a, Joined(message, n, n));
        }
      } else {
        ServeMessage(ms, init, a, message, n, order);
        if before.stopped.None? {
          var o := Receive(before.messages, last.from, last.data);
          if o.Next? {
            OtherHolds(before.messages, last.from, last.data, a, message, n, order);
            if o.emitted.Some? { OutputSnoc(before.outputs, a, last.from, o.emitted.value); }
          }
        }
      }
    }
  }

  lemma NothingHeld(ms: Messages, a: Sender, message: Bytes, n: nat)
    requires a !in ms
    ensures Holds(ms, a, message, n, [])
  {
  }

  lemma OtherHolds(ms: Messages, from: Sender, data: Bytes, a: Sender, message: Bytes, n: nat, order: seq<nat>)
    requires from != a && Receive(ms, from, data).Next? && Holds(ms, a, message, n, order)
    ensures Holds(Receive(ms, from, data).messages, a, message, n, order)
  {
    OtherSender(ms, from, data, a);
  }

  lemma OutputSnoc(outputs: seq<Arrival>, a: Sender, from: Sender, data: Bytes)
    ensures Of(outputs + [Arrival(from, data)], a) == Of(outputs, a) + if from == a then [data] else []
  {
    assert (outputs + [Arrival(from, data)])[..|outputs|] == outputs;
  }

  // ----- The round trip ------------------------------------------------------------------

  ghost predicate AllFit(message: Bytes, n: nat, k: nat)
    requires k <= n
  {
    forall i :: 0 <= i < k ==> Fits(message, n, i)
  }

  lemma ArrivingSize(message: Bytes, n: nat, i: nat)
    requires i < n <= MAX_INT
    ensures |Chunk(message, n, i)| == ChunkSize(message, n)
    ensures if Fits(message, n, i) then Arriving(message, n, i) == Chunk(message, n, i)
            else |Arriving(message, n, i)| < ChunkSize(message, n)
  {
    HeaderLength(i, n);
    ChunkBounds(message, n, i);
    var c := ChunkSize(message, n);
    assert (i + 1) * c == i * c + c;
  }

  lemma ChunkPrefix(message: Bytes, n: nat, i: nat, at: nat)
    requires i < n && at == i * ChunkSize(message, n)
    ensures at + ChunkSize(message, n) <= |message|
    ensures message[..at] + Chunk(message, n, i) == message[..at + ChunkSize(message, n)]
  {
    ChunkBounds(message, n, i);
    Multiple(i + 1, ChunkSize(message, n));
  }

  lemma Multiple(k: nat, c: nat)
    ensures k > 0 ==> k * c == (k - 1) * c + c && (k - 1) * c >= 0
  {
  }

  lemma AllFitStep(message: Bytes, n: nat, k: nat)
    requires 0 < k <= n
    ensures AllFit(message, n, k) <==> AllFit(message, n, k - 1) && Fits(message, n, k - 1)
  {
    hide Fits;
  }

  /** What is put together: all chunks if they fit, less than that otherwise. */
  lemma {:induction false} JoinedPrefix(message: Bytes, n: nat, k: nat, size: nat)
    requires 0 < n <= MAX_INT && k <= n && size == k * ChunkSize(message, n)
    ensures size <= |message|
    ensures if AllFit(message, n, k) then Joined(message, n, k) == message[..size] else |Joined(message, n, k)| < size
  {
    hide Arriving, Fits, Chunk, ChunkSize;
    if k > 0 {
      Multiple(k, ChunkSize(message, n));
      AllFitStep(message, n, k);
      JoinedPrefix(message, n, k - 1, size - ChunkSize(message, n));
      JoinedLast(message, n, k, size - ChunkSize(message, n));
    }
  }

  /** One chunk behind those before it. */
  lemma JoinedLast(message: Bytes, n: nat, k: nat, at: nat)
    requires 0 < k <= n <= MAX_INT && at == (k - 1) * ChunkSize(message, n) && at <= |message|
    requires if AllFit(message, n, k - 1) then Joined(message, n, k - 1) == message[..at]
             else |Joined(message, n, k - 1)| < at
    ensures at + ChunkSize(message, n) <= |message|
    ensures if AllFit(message, n, k - 1) && Fits(message, n, k - 1)
            then Joined(message, n, k) == message[..at + ChunkSize(message, n)]
            else |Joined(message, n, k)| < at + ChunkSize(message, n)
  {
    hide Arriving, Fits, Chunk, ChunkSize, AllFit;
    ChunkPrefix(message, n, k - 1, at);
    ArrivingSize(message, n, k - 1);
  }

  /**
   For every message, every number of paths and every order of arrival between the packets
   of others: unless another sender makes the server exit, it puts the message out exactly
   once.
   */
  lemma EmittedOnce(ms: Messages, arrivals: seq<Arrival>, a: Sender, message: Bytes, n: nat, order: seq<nat>)
    requires a !in ms && 0 < n <= MAX_INT && Sent(arrivals, a, message, n, order) && |order| == n
    ensures var s := Serve(ms, arrivals);
      s.stopped != Some(a) && (s.stopped.None? ==> a !in s.messages && Of(s.outputs, a) == [Joined(message, n, n)])
  {
    ServeMessage(ms, arrivals, a, message, n, order);
  }

  lemma Division(m: nat, n: nat, q: nat, r: nat)
    requires n > 0 && q == m / n && r == m % n
    ensures m == n * q + r
  {
  }

  /**
   What is put out is the message itself exactly if the number of paths divides its length
   and every packet fits in the read buffer; if they fit, a shorter rest than the number of
   paths is cut off.
   */
  lemma RoundTrip(message: Bytes, n: nat, rest: nat)
    requires 0 < n <= MAX_INT && rest == |message| % n
    ensures rest < n && rest <= |message|
    ensures AllFit(message, n, n) ==> Joined(message, n, n) == message[..|message| - rest]
    ensures Joined(message, n, n) == message <==> rest == 0 && AllFit(message, n, n)
  {
    hide Joined, AllFit;
    Division(|message|, n, ChunkSize(message, n), rest);
    JoinedPrefix(message, n, n, |message| - rest);
  }
}
