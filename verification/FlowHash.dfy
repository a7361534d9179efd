/** The choice of a processor for a packet, from the flow ID and the address header. */
module FlowHash {
  import opened Basics

  /** A 32-bit hash state. */
  datatype Word32 = Word32(bits: bv32)

  const CMN_HDR_LEN := 12
  const IA_BYTES := 8
  const LINE_LEN := 4

  /** One step of FNV-1a. */
  function HashFnv1a(state: Word32, c: Byte): Word32 {
    Word32((state.bits ^ (c as bv32)) * 16777619)
  }

  /** FNV-1a over a list of bytes. */
  function HashAll(state: Word32, bytes: seq<Byte>): Word32 {
    if bytes == [] then state
    else HashFnv1a(HashAll(state, bytes[..|bytes| - 1]), bytes[|bytes| - 1])
  }

  /** Length in bytes of a host address whose 4-bit type and length field is `t`. */
  function AddrLength(t: nat): nat { LINE_LEN * (1 + t % 4) }

  function AddrHdrLen(data: seq<Byte>): nat
    requires |data| >= CMN_HDR_LEN
  {
    2 * IA_BYTES + AddrLength(data[9] / 16) + AddrLength(data[9] % 16)
  }

  /** The data holds the common header and the whole address header. */
  predicate HasAddresses(data: seq<Byte>) {
    |data| >= CMN_HDR_LEN && |data| >= CMN_HDR_LEN + AddrHdrLen(data)
  }

  /** What identifies a flow: the 20 bits of flow ID and the bytes of the address header. */
  function FlowKey(data: seq<Byte>): seq<Byte>
    requires HasAddresses(data)
  {
    [data[1] % 16, data[2], data[3]] + data[CMN_HDR_LEN..CMN_HDR_LEN + AddrHdrLen(data)]
  }

  /** The processor of a flow, on an interface with the given hash seed. */
  function ProcOf(seed: Word32, flow: seq<Byte>, procs: nat): (q: nat)
    requires procs > 0
    ensures q < procs
  {
    HashAll(seed, flow).bits as nat % procs
  }

  lemma HashSnoc(state: Word32, bytes: seq<Byte>, c: Byte)
    ensures HashAll(state, bytes + [c]) == HashFnv1a(HashAll(state, bytes), c)
  {
    assert (bytes + [c])[..|bytes|] == bytes;
  }

  /** Fails exactly on data too short for its address header; otherwise depends on the flow only. */
  method ComputeProcID(data: seq<Byte>, procs: nat, seed: Word32) returns (r: Option<nat>)
    requires procs > 0
    ensures r.Some? <==> HasAddresses(data)
    ensures r.Some? ==> r.value == ProcOf(seed, FlowKey(data), procs)
  {
    hide HashFnv1a;
    if |data| < CMN_HDR_LEN { return None; }
    var addrHdrLen := AddrHdrLen(data);
    if |data| < CMN_HDR_LEN + addrHdrLen { return None; }

    var s := HashFnv1a(seed, data[1] % 16);
    ghost var key := [data[1] % 16];
    HashSnoc(seed, [], data[1] % 16);
    assert [] + key == key;
    for i := 2 to 4
      invariant s == HashAll(seed, key)
      invariant key == [data[1] % 16] + data[2..i]
    {
      HashSnoc(seed, key, data[i]);
      key := key + [data[i]];
      s := HashFnv1a(s, data[i]);
    }
    for i := CMN_HDR_LEN to CMN_HDR_LEN + addrHdrLen
      invariant s == HashAll(seed, key)
      invariant key == [data[1] % 16] + data[2..4] + data[CMN_HDR_LEN..i]
    {
      HashSnoc(seed, key, data[i]);
      key := key + [data[i]];
      s := HashFnv1a(s, data[i]);
    }
    assert data[2..4] == [data[2], data[3]];
    assert key == FlowKey(data);
    return Some(s.bits as nat % procs);
  }

  /** Only the flow ID and the addresses matter: traffic class, payload and path do not. */
  lemma SameFlowSameProc(a: seq<Byte>, b: seq<Byte>, procs: nat, seed: Word32)
    requires procs > 0 && HasAddresses(a) && |b| >= CMN_HDR_LEN
    requires a[1] % 16 == b[1] % 16 && a[2..4] == b[2..4] && a[9] == b[9]
    requires |b| >= CMN_HDR_LEN + AddrHdrLen(a)
    requires a[CMN_HDR_LEN..CMN_HDR_LEN + AddrHdrLen(a)] == b[CMN_HDR_LEN..CMN_HDR_LEN + AddrHdrLen(a)]
    ensures HasAddresses(b)
    ensures ProcOf(seed, FlowKey(a), procs) == ProcOf(seed, FlowKey(b), procs)
  {
    assert a[2] == a[2..4][0] && a[3] == a[2..4][1] && b[2] == b[2..4][0] && b[3] == b[2..4][1];
    assert FlowKey(a) == FlowKey(b);
  }

  /** FNV-1a as published: the hash of the letter a from the offset basis. */
  lemma KnownHash()
    ensures HashFnv1a(Word32(0x811C9DC5), 97) == Word32(0xE40C292C)
  {
    assert (97 as bv32) == 0x61;
    assert (0x811C9DC5 as bv32 ^ 0x61) == 0x811C9DA4;
    assert (0x811C9DA4 as bv32 * 16777619) == 0xE40C292C;
  }

  /** For the letters ab, whatever the number of processors. */
  lemma KnownProc(procs: nat)
    requires procs > 0
    ensures ProcOf(Word32(0x811C9DC5), [97, 98], procs) == 1294271946 % procs
  {
    KnownHash();
    var a, s := Word32(0x811C9DC5), HashAll(Word32(0x811C9DC5), [97, 98]);
    assert [97, 98][..1] == [97] && [97][..0] == [];
    assert HashAll(a, [97]) == HashFnv1a(HashAll(a, []), 97);
    assert s == HashFnv1a(Word32(0xE40C292C), 98);
    assert (98 as bv32) == 0x62;
    assert (0xE40C292C as bv32 ^ 0x62) == 0xE40C294E;
    assert (0xE40C294E as bv32 * 16777619) == 0x4D2505CA;
    assert (0x4D2505CA as bv32) as nat == 1294271946;
  }

  /** Host addresses have 4, 8, 12 or 16 bytes; two IAs of 8 bytes go before them. */
  lemma AddressLengths(data: seq<Byte>)
    requires |data| >= 12
    ensures AddrLength(0) == 4 && AddrLength(1) == 8 && AddrLength(2) == 12 && AddrLength(3) == 16
    ensures AddrHdrLen(data) == 16 + 4 * (data[9] / 16 % 4 + 1) + 4 * (data[9] % 4 + 1)
  {
  }

  /** Nothing of the flow ID or the addresses is left out: equal keys mean equal flows. */
  lemma KeyDetermines(a: seq<Byte>, b: seq<Byte>)
    requires HasAddresses(a) && HasAddresses(b) && a[9] == b[9] && FlowKey(a) == FlowKey(b)
    ensures a[1] % 16 == b[1] % 16 && a[2..4] == b[2..4]
    ensures a[12..12 + AddrHdrLen(a)] == b[12..12 + AddrHdrLen(b)]
  {
    var k, l := FlowKey(a), FlowKey(b);
    assert k[0] == l[0] && k[1] == l[1] && k[2] == l[2];
    assert a[12..12 + AddrHdrLen(a)] == k[3..] && b[12..12 + AddrHdrLen(b)] == l[3..];
  }
}
