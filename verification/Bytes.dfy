/** Bytes, 16-bit numbers, and messages with the first byte split into its bit fields. */
module Bytes {
  type byte = b: int | 0 <= b < 0x100
  type u16 = n: int | 0 <= n < 0x1_0000
  type nibble = n: int | 0 <= n < 0x10
  type twobit = n: int | 0 <= n < 4

  // Message types, the top four bits of a message's first byte.
  const PUBLISH: nibble := 0x3
  const PUBACK: nibble := 0x4
  const PUBREC: nibble := 0x5
  const PUBREL: nibble := 0x6
  const PUBCOMP: nibble := 0x7
  const SUBSCRIBE: nibble := 0x8
  const UNSUBSCRIBE: nibble := 0xA

  /** The first byte of a message: type, DUP, the two QoS bits and RETAIN. */
  datatype Header = Header(mtype: nibble, dup: bool, qos: twobit, retain: bool)

  /** A message in wire format; `body` is everything after the first byte. */
  datatype Message = Message(head: Header, body: seq<byte>) {
    function Size(): nat {
      1 + |body|
    }
  }

  function Bit(b: bool): nat {
    if b then 1 else 0
  }

  function HeaderByte(h: Header): byte {
    16 * h.mtype + 8 * Bit(h.dup) + 2 * h.qos + Bit(h.retain)
  }

  /** The masks 0xF0, 0x08, 0x06 and 0x01 of the source, written as arithmetic. */
  function ParseHeader(b: byte): Header {
    Header(b / 16, b / 8 % 2 == 1, b / 2 % 4, b % 2 == 1)
  }

  function ToBytes(m: Message): seq<byte> {
    [HeaderByte(m.head)] + m.body
  }

  function OfBytes(s: seq<byte>): Message
    requires s != []
  {
    Message(ParseHeader(s[0]), s[1..])
  }

  /** Splitting the first byte loses nothing, in either direction. */
  lemma {:induction false} HeaderRoundTrip(h: Header, b: byte)
    ensures ParseHeader(HeaderByte(h)) == h
    ensures HeaderByte(ParseHeader(b)) == b
  {
    var low := 8 * Bit(h.dup) + 2 * h.qos + Bit(h.retain);
    assert HeaderByte(h) / 16 == h.mtype;
    assert HeaderByte(h) / 8 == 2 * h.mtype + Bit(h.dup);
    assert HeaderByte(h) / 2 == 8 * h.mtype + 4 * Bit(h.dup) + h.qos;
    SplitByte(b);
  }

  /** The first bytes of the messages that are built and answered, by the numbers of the protocol. */
  lemma {:induction false} FirstBytes()
    ensures HeaderByte(Header(PUBLISH, false, 0, false)) == 0x30
    ensures HeaderByte(Header(PUBACK, false, 0, false)) == 0x40 && HeaderByte(Header(PUBREC, false, 0, false)) == 0x50
    ensures HeaderByte(Header(PUBREL, false, 1, false)) == 0x62 && HeaderByte(Header(PUBCOMP, false, 0, false)) == 0x70
    ensures HeaderByte(Header(SUBSCRIBE, false, 1, false)) == 0x82
    ensures HeaderByte(Header(UNSUBSCRIBE, false, 1, false)) == 0xA2
  {
  }

  /** Where the flags are: DUP is bit 3, RETAIN bit 0, and QoS 2 and 1 are bits 2 and 1. */
  lemma {:induction false} FlagBits(h: Header)
    ensures var b := HeaderByte(h);
      && b / 16 == h.mtype && (b / 8 % 2 == 1 <==> h.dup) && (b % 2 == 1 <==> h.retain)
      && (b / 4 % 2 == 1 <==> h.qos >= 2) && (b / 2 % 2 == 1 <==> h.qos % 2 == 1)
  {
    var b := HeaderByte(h);
    HeaderRoundTrip(h, b);
    hide HeaderByte;
    assert ParseHeader(b) == h;
    TwoBits(b);
  }

  lemma {:induction false} TwoBits(b: byte)
    ensures b / 2 % 4 == 2 * (b / 4 % 2) + b / 2 % 2
  {
    assert b / 2 == 2 * (b / 4) + b / 2 % 2;
    assert b / 4 == 2 * (b / 8) + b / 4 % 2;
  }

  lemma {:induction false} SplitByte(b: byte)
    ensures b == 16 * (b / 16) + 8 * (b / 8 % 2) + 2 * (b / 2 % 4) + b % 2
  {
    assert b / 8 == 2 * (b / 16) + b / 8 % 2;
    assert b / 2 == 4 * (b / 8) + b / 2 % 4;
  }

  lemma {:induction false} BytesRoundTrip(m: Message, s: seq<byte>)
    ensures OfBytes(ToBytes(m)) == m
    ensures s != [] ==> ToBytes(OfBytes(s)) == s
    ensures |ToBytes(m)| == m.Size()
  {
    HeaderRoundTrip(m.head, if s != [] then s[0] else 0);
    assert ToBytes(m)[1..] == m.body;
  }

  /** A 16-bit number in network byte order. */
  function Big16(n: u16): seq<byte> {
    [n / 256, n % 256]
  }

  function Read16(s: seq<byte>, at: nat): u16
    requires at + 2 <= |s|
  {
    256 * (s[at] as int) + s[at + 1] as int
  }

  lemma {:induction false} Big16RoundTrip(n: u16, rest: seq<byte>)
    ensures |Big16(n)| == 2 && Read16(Big16(n) + rest, 0) == n
  {
    var s := Big16(n) + rest;
    assert s[0] == n / 256 && s[1] == n % 256;
  }

  /** A number read in the middle of a buffer. */
  lemma {:induction false} Read16At(s: seq<byte>, at: nat)
    requires at + 2 <= |s|
    ensures Read16(s, at) == Read16(s[at..], 0)
  {
  }

  /** memcpy to position `at` of a buffer. */
  method CopyInto(a: array<byte>, at: nat, r: seq<byte>)
    requires at + |r| <= a.Length
    modifies a
    ensures a[..at + |r|] == old(a[..at]) + r
  {
    for i := 0 to |r|
      invariant a[..at + i] == old(a[..at]) + r[..i]
    {
      a[at + i] := r[i];
      assert r[..i + 1] == r[..i] + [r[i]] && a[..at + i + 1] == a[..at + i] + [r[i]];
    }
    assert r[..|r|] == r;
  }
}
