/**
 Sending a message in chunks over several paths, and putting it together again from chunks
 that arrive in any order, between those of other senders.
 */
module Chunks {
  import opened Basics

  type Bytes = seq<Byte>

  const NEWLINE: Byte := 10
  const COMMA: Byte := 44
  const PLUS: Byte := 43
  const MINUS: Byte := 45
  const ZERO: Byte := 48
  const MAX_INT := 0x7fff_ffff_ffff_ffff
  const BUFFER := 10000

  // ----- Headers -----------------------------------------------------------------------

  function Decimal(n: nat): (r: Bytes)
    ensures r != []
    ensures forall k :: 0 <= k < |r| ==> ZERO <= r[k] < ZERO + 10
  {
    if n < 10 then [ZERO + n] else Decimal(n / 10) + [ZERO + n % 10]
  }

  /** The value of a non-empty list of decimal digits. */
  function Digits(s: Bytes): Option<nat> {
    if s == [] || !(ZERO <= s[|s| - 1] < ZERO + 10) then None
    else if |s| == 1 then Some(s[0] - ZERO)
    else
      var high := Digits(s[..|s| - 1]);
      if high.None? then None else Some(10 * high.value + (s[|s| - 1] - ZERO))
  }

  /** A 64-bit decimal integer with an optional sign. */
  function Atoi(s: Bytes): Option<int> {
    var signed := s != [] && (s[0] == PLUS || s[0] == MINUS);
    var n := Digits(if signed then s[1..] else s);
    if n.None? then None
    else
      var v: int := if signed && s[0] == MINUS then 0 - n.value else n.value;
      if -MAX_INT - 1 <= v <= MAX_INT then Some(v) else None
  }

  /** The first position of a byte, or -1. */
  function IndexByte(s: Bytes, b: Byte): (i: int)
    ensures i == -1 || (0 <= i < |s| && s[i] == b)
    ensures forall k :: 0 <= k < (if i == -1 then |s| else i) ==> s[k] != b
  {
    if s == [] then -1 else if s[0] == b then 0
    else
      var i := IndexByte(s[1..], b);
      assert forall k :: 0 < k < |s| ==> s[k] == s[1..][k - 1];
      if i == -1 then -1 else i + 1
  }

  /** Index, number of chunks, and payload. */
  datatype Parsed = Parsed(index: int, total: int, payload: Bytes)

  /** The header is two integers with one comma between them, up to the first newline. */
  function Parse(data: Bytes): Option<Parsed> {
    var end := IndexByte(data, NEWLINE);
    if end <= 0 then None
    else
      var header := data[..end];
      var comma := IndexByte(header, COMMA);
      if comma == -1 || IndexByte(header[comma + 1..], COMMA) != -1 then None
      else
        var index, total := Atoi(header[..comma]), Atoi(header[comma + 1..]);
        if index.None? || total.None? then None else Some(Parsed(index.value, total.value, data[end + 1..]))
  }

  function Header(i: nat, n: nat): Bytes { Decimal(i) + [COMMA] + Decimal(n) + [NEWLINE] }

  lemma {:induction false} DigitsDecimal(n: nat)
    ensures Digits(Decimal(n)) == Some(n)
  {
    if n >= 10 {
      DigitsDecimal(n / 10);
      assert Decimal(n)[..|Decimal(n)| - 1] == Decimal(n / 10);
    }
  }

  lemma AtoiDecimal(n: nat)
    requires n <= MAX_INT
    ensures Atoi(Decimal(n)) == Some(n)
  {
    DigitsDecimal(n);
  }

  lemma IndexFirst(s: Bytes, b: Byte, i: nat)
    requires i < |s| && s[i] == b && forall k :: 0 <= k < i ==> s[k] != b
    ensures IndexByte(s, b) == i
  {
  }

  /** Every header that is sent is read back, whatever follows it. */
  lemma ParseHeader(i: nat, n: nat, payload: Bytes)
    requires i <= MAX_INT && n <= MAX_INT
    ensures Parse(Header(i, n) + payload) == Some(Parsed(i, n, payload))
  {
    var data, a, b := Header(i, n) + payload, Decimal(i), Decimal(n);
    var end := |a| + 1 + |b|;
    IndexFirst(data, NEWLINE, end);
    var header := data[..end];
    assert header == a + [COMMA] + b;
    IndexFirst(header, COMMA, |a|);
    assert header[..|a|] == a && header[|a| + 1..] == b && data[end + 1..] == payload;
    AtoiDecimal(i);
    AtoiDecimal(n);
  }

  // ----- Sending -----------------------------------------------------------------------

  function ChunkSize(message: Bytes, n: nat): nat
    requires n > 0
  {
    |message| / n
  }

  lemma Quotient(m: nat, n: nat)
    requires n > 0
    ensures n * (m / n) <= m
  {
  }

  lemma Multiples(i: nat, n: nat, c: nat)
    requires i < n
    ensures 0 <= i * c <= (i + 1) * c <= n * c
  {
    var d := n - (i + 1);
    assert n * c == (i + 1) * c + d * c && (i + 1) * c == i * c + c;
  }

  lemma ChunkBounds(message: Bytes, n: nat, i: nat)
    requires i < n
    ensures 0 <= i * ChunkSize(message, n) <= (i + 1) * ChunkSize(message, n) <= |message|
  {
    Quotient(|message|, n);
    Multiples(i, n, ChunkSize(message, n));
  }

  function Chunk(message: Bytes, n: nat, i: nat): Bytes
    requires i < n
  {
    ChunkBounds(message, n, i);
    message[i * ChunkSize(message, n)..(i + 1) * ChunkSize(message, n)]
  }

  function Packet(message: Bytes, n: nat, i: nat): Bytes
    requires i < n
  {
    Header(i, n) + Chunk(message, n, i)
  }

  /** One packet per path. */
  method SendMessage(message: Bytes, n: nat) returns (packets: seq<Bytes>)
    requires n > 0
    ensures |packets| == n && forall i :: 0 <= i < n ==> packets[i] == Packet(message, n, i)
  {
    var chunkSize := |message| / n;
    packets := [];
    for i := 0 to n
      invariant |packets| == i && forall k :: 0 <= k < i ==> packets[k] == Packet(message, n, k)
    {
      ChunkBounds(message, n, i);
      var chunk := Header(i, n);
      var begin := i * chunkSize;
      var end := if (i + 1) * chunkSize < |message| then (i + 1) * chunkSize else |message|;
      chunk := chunk + message[begin..end];
      packets := packets + [chunk];
    }
  }

  // ----- Receiving ---------------------------------------------------------------------

  /** A sender's address without the port. */
  type Sender = nat

  datatype Message = Message(got: nat, chunks: seq<Option<Bytes>>)

  type Messages = map<Sender, Message>

  /** The server exits on a bad chunk; otherwise it goes on, perhaps with a whole message. */
  datatype Outcome = Exit | Next(messages: Messages, emitted: Option<Bytes>)

  /** What fits in the read buffer. */
  function Read(data: Bytes): Bytes { if |data| <= BUFFER then data else data[..BUFFER] }

  function Concat(chunks: seq<Option<Bytes>>): Bytes {
    if chunks == [] then []
    else Concat(chunks[..|chunks| - 1]) + if chunks[|chunks| - 1].Some? then chunks[|chunks| - 1].value else []
  }

  function NoChunks(n: nat): (r: seq<Option<Bytes>>)
    ensures |r| == n && forall i :: 0 <= i < n ==> r[i] == None
  {
    seq(n, i => None)
  }

  function Pending(ms: Messages, from: Sender, total: nat): Message {
    if from in ms then ms[from] else Message(0, NoChunks(total))
  }

  /** Only the first chunk of a message says how many there are. */
  function Receive(ms: Messages, from: Sender, data: Bytes): Outcome {
    var p := Parse(Read(data));
    if p.None? || (from !in ms && p.value.total < 0) then Exit
    else
      var m := Pending(ms, from, if p.value.total < 0 then 0 else p.value.total);
      var i := p.value.index;
      if !(0 <= i < |m.chunks|) || m.chunks[i].Some? then Exit
      else
        var chunks := m.chunks[i := Some(p.value.payload)];
        if m.got + 1 != |chunks| then Next(ms[from := Message(m.got + 1, chunks)], None)
        else Next(ms - {from}, Some(Concat(chunks)))
  }

  method Join(chunks: seq<Option<Bytes>>) returns (message: Bytes)
    ensures message == Concat(chunks)
  {
    message := [];
    for k := 0 to |chunks|
      invariant message == Concat(chunks[..k])
    {
      assert chunks[..k + 1][..k] == chunks[..k];
      if chunks[k].Some? { message := message + chunks[k].value; }
    }
    assert chunks[..|chunks|] == chunks;
  }

  class Server {
    var messages: Messages

    constructor ()
      ensures messages == map[]
    {
      messages := map[];
    }

    /** One packet; `exit` when the program stops. */
    method Handle(from: Sender, data: Bytes) returns (exit: bool, emitted: Option<Bytes>)
      modifies this
      ensures exit <==> Receive(old(messages), from, data) == Exit
      ensures !exit ==> Receive(old(messages), from, data) == Next(messages, emitted)
    {
      hide Parse, Concat, Read;
      var p := Parse(Read(data));
      if p.None? { return true, None; }
      var index, total := p.value.index, p.value.total;
      if from !in messages {
        if total < 0 { return true, None; }
        messages := messages[from := Message(0, NoChunks(total))];
      }
      var m := messages[from];
      if index < 0 || index >= |m.chunks| { return true, None; }
      if m.chunks[index].Some? { return true, None; }
      m := Message(m.got + 1, m.chunks[index := Some(p.value.payload)]);
      messages := messages[from := m];
      if m.got != |m.chunks| {
        assert messages == old(messages)[from := m];
        return false, None;
      }
      var message := Join(m.chunks);
      messages := messages - {from};
      assert messages == old(messages) - {from};
      return false, Some(message);
    }
  }
}
