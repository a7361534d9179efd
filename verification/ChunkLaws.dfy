/** Which packets the server takes, and what it does with them, in terms of their bytes. */
module ChunkLaws {
  import opened Basics
  import opened Chunks

  /** `data` is two numbers, a comma between and a newline behind, and then the payload. */
  ghost predicate Spells(data: Bytes, a: Bytes, b: Bytes, payload: Bytes) {
    && data == a + [44] + b + [10] + payload
    && 44 !in a && 10 !in a && 44 !in b && 10 !in b
  }

  /** What is read was spelled. */
  lemma ParseSpelled(data: Bytes) returns (a: Bytes, b: Bytes)
    requires Parse(data).Some?
    ensures var p := Parse(data).value;
      Spells(data, a, b, p.payload) && Atoi(a) == Some(p.index) && Atoi(b) == Some(p.total)
  {
    hide Atoi;
    var p, end := Parse(data).value, IndexByte(data, NEWLINE);
    var header := data[..end];
    var comma := IndexByte(header, COMMA);
    a, b := header[..comma], header[comma + 1..];
    assert header == a + [44] + b;
    assert data == header + [10] + p.payload;
    assert forall k :: 0 <= k < |header| ==> header[k] == data[k];
    assert forall k :: 0 <= k < |b| ==> b[k] == header[comma + 1 + k];
  }

  /** A packet is read as what it spells, and read only if it spells something. */
  lemma ParseIff(data: Bytes, p: Parsed)
    ensures Parse(data) == Some(p) <==>
      exists a: Bytes, b: Bytes :: Spells(data, a, b, p.payload) && Atoi(a) == Some(p.index) && Atoi(b) == Some(p.total)
  {
    hide Parse, Spells, Atoi;
    if Parse(data) == Some(p) { var a, b := ParseSpelled(data); }
    if exists a: Bytes, b: Bytes ::
         Spells(data, a, b, p.payload) && Atoi(a) == Some(p.index) && Atoi(b) == Some(p.total)
    {
      var a: Bytes, b: Bytes :|
        Spells(data, a, b, p.payload) && Atoi(a) == Some(p.index) && Atoi(b) == Some(p.total);
      SpelledParse(data, a, b, p.payload);
    }
  }

  lemma SpelledParse(data: Bytes, a: Bytes, b: Bytes, payload: Bytes)
    requires Spells(data, a, b, payload) && Atoi(a).Some? && Atoi(b).Some?
    ensures Parse(data) == Some(Parsed(Atoi(a).value, Atoi(b).value, payload))
  {
    hide Atoi;
    var end := |a| + 1 + |b|;
    IndexFirst(data, NEWLINE, end);
    var header := data[..end];
    assert header == a + [44] + b;
    IndexFirst(header, COMMA, |a|);
    assert header[..|a|] == a && header[|a| + 1..] == b && data[end + 1..] == payload;
    assert IndexByte(b, COMMA) == -1;
  }

  /** Numbers may have a sign; anything else but digits is refused. */
  lemma AtoiSigned(n: nat)
    requires n <= 9223372036854775807
    ensures Atoi(Decimal(n)) == Some(n) && Atoi([43] + Decimal(n)) == Some(n)
    ensures Atoi([45] + Decimal(n)).Some? && Atoi([45] + Decimal(n)).value == 0 - n
    ensures Atoi([]) == None && Atoi([43]) == None && Atoi([45]) == None
  {
    DigitsDecimal(n);
    assert ([43] + Decimal(n))[1..] == Decimal(n) && ([45] + Decimal(n))[1..] == Decimal(n);
  }

  lemma {:induction false} DigitsOnly(s: Bytes)
    ensures Digits(s).Some? <==> s != [] && forall k :: 0 <= k < |s| ==> 48 <= s[k] <= 57
  {
    if |s| > 1 { DigitsOnly(s[..|s| - 1]); }
  }

  /** The number of chunks that count for a sender: that of its first packet. */
  function Expected(ms: Messages, from: Sender, total: int): int {
    if from in ms then |ms[from].chunks| else total
  }

  /** The chunk with this index was not seen yet. */
  predicate Missing(ms: Messages, from: Sender, index: int) {
    from in ms && 0 <= index < |ms[from].chunks| ==> ms[from].chunks[index].None?
  }

  /** A packet is taken if and only if it can be read and its index is a new one in range; else the server exits. */
  lemma TakenIff(ms: Messages, from: Sender, data: Bytes)
    ensures Receive(ms, from, data).Next? <==>
      && Parse(if |data| <= 10000 then data else data[..10000]).Some?
      && var p := Parse(if |data| <= 10000 then data else data[..10000]).value;
      0 <= p.index < Expected(ms, from, p.total) && Missing(ms, from, p.index)
  {
    hide Parse;
  }

  /** The state after a packet is taken: its payload at its index, and a whole message is put out and forgotten. */
  lemma TakenMeans(ms: Messages, from: Sender, data: Bytes)
    requires Receive(ms, from, data).Next? && |data| <= 10000
    ensures Parse(data).Some?
    ensures var p, o := Parse(data).value, Receive(ms, from, data);
      && (forall x :: x in ms && x != from ==> x in o.messages && o.messages[x] == ms[x])
      && (forall x :: x in o.messages ==> x in ms || x == from)
      && (o.emitted.Some? <==> from !in o.messages)
      && (o.emitted.None? ==>
            && var m := o.messages[from];
            && |m.chunks| == Expected(ms, from, p.total) && m.chunks[p.index] == Some(p.payload)
            && m.got == 1 + (if from in ms then ms[from].got else 0) && m.got != |m.chunks|
            && forall k :: 0 <= k < |m.chunks| && k != p.index ==>
                 m.chunks[k] == if from in ms then ms[from].chunks[k] else None)
  {
    hide Parse, Concat;
  }
}
