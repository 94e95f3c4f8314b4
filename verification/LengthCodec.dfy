/** The remaining-length field (section 2.1 of MQTT V3.1, section 2.2.3 of OASIS MQTT 3.1.1). */
module LengthCodec {
  import opened Bytes
  import opened Wrappers

  /** A field: how many bytes it takes and the length it holds. */
  datatype Field = Field(size: nat, length: nat)

  /** What the decoder reports; its length is a C int. */
  datatype Decoded = Decoded(size: nat, length: int)

  const MAX_LENGTH: nat := 268435455

  const TWO31: int := 0x8000_0000
  const TWO32: int := 0x1_0000_0000

  /** The value of an int or a long after arithmetic: 32 bits, two's complement, wrapping around. */
  function Wrap(n: int): (w: int)
    ensures -TWO31 <= w < TWO31
    ensures -TWO31 <= n < TWO31 ==> w == n
  {
    var m := n % TWO32;
    if m < TWO31 then m else m - TWO32
  }

  /** Numbers that differ by a multiple of 2^32 wrap to the same int. */
  lemma {:induction false} WrapSame(a: int, b: int, k: int)
    requires a == b + k * TWO32
    ensures Wrap(a) == Wrap(b)
  {
  }

  /** How far wrapping moves a number. */
  lemma {:induction false} WrapMoves(n: int) returns (k: int)
    ensures Wrap(n) == n + k * TWO32
  {
    k := if n % TWO32 < TWO31 then -(n / TWO32) else -(n / TWO32) - 1;
  }

  /** Wrapping at every step of acc + d * m is wrapping at the end. */
  lemma {:induction false} WrapStep(acc: int, d: int, m: int)
    ensures Wrap(Wrap(acc) + Wrap(d * Wrap(m))) == Wrap(acc + d * m)
    ensures Wrap(Wrap(m) * 128) == Wrap(m * 128)
  {
    hide Wrap;
    var i := WrapMoves(acc);
    var j := WrapMoves(m);
    var k := WrapMoves(d * Wrap(m));
    assert d * Wrap(m) == d * m + (d * j) * TWO32 by {
      assert d * (m + j * TWO32) == d * m + (d * j) * TWO32;
    }
    WrapSame(Wrap(acc) + Wrap(d * Wrap(m)), acc + d * m, i + k + d * j);
    WrapSame(Wrap(m) * 128, m * 128, 128 * j);
  }

  /** The encoding, low seven bits first. */
  function Encode(l: nat): (s: seq<byte>)
    ensures |s| > 0
  {
    if l < 128 then [l] else [128 + l % 128] + Encode(l / 128)
  }

  /** One digit, with the top bit set if more follow. */
  function Digit(l: nat): byte {
    if l < 128 then l else 128 + l % 128
  }

  function Tail(l: nat): seq<byte> {
    if l == 0 then [] else Encode(l)
  }

  lemma {:induction false} EncodeUnfolds(l: nat, out: seq<byte>)
    ensures out + Encode(l) == out + [Digit(l)] + Tail(l / 128)
  {
    assert Encode(l) == [Digit(l)] + Tail(l / 128);
  }

  /** mspEncodeFHeaderLength. */
  method EncodeFHeaderLength(length: nat) returns (out: seq<byte>)
    ensures out == Encode(length)
  {
    hide Encode;
    EncodeUnfolds(length, []);
    var l: nat := length / 128;
    out := [Digit(length)];
    assert [] + Encode(length) == Encode(length) && [] + [Digit(length)] == out;
    while l > 0
      invariant out + Tail(l) == Encode(length)
      decreases l
    {
      EncodeUnfolds(l, out);
      out := out + [Digit(l)];
      l := l / 128;
    }
  }

  /** The byte i places behind a pointer to the bytes s; what lies behind them is arbitrary. */
  function ByteAt(s: seq<byte>, i: nat, beyond: byte): byte {
    if i < |s| then s[i] else beyond
  }

  /** The field at the start of s, wherever its last byte is. */
  function Field0(s: seq<byte>): Option<Field>
  {
    if s == [] then None
    else if s[0] < 128 then Some(Field(1, s[0]))
    else match Field0(s[1..])
      case None => None
      case Some(f) => Some(Field(f.size + 1, s[0] - 128 + 128 * f.length))
  }

  /** What mspDecodeFHeaderLength computes for the |s| bytes it is told of: its guard lets it look at
      one byte more, and its int arithmetic wraps around. */
  function Decode(s: seq<byte>, beyond: byte): Option<Decoded> {
    Wrapped(Field0(s + [beyond]))
  }

  function Wrapped(f: Option<Field>): Option<Decoded> {
    match f
    case None => None
    case Some(g) => Some(Decoded(g.size, Wrap(g.length)))
  }

  function Pow128(n: nat): nat {
    if n == 0 then 1 else 128 * Pow128(n - 1)
  }

  /** The seven low bits. */
  function Low(d: int): nat {
    d % 128
  }

  /** Where the decoder stands after i bytes, all with their top bit set, summing to acc. */
  lemma {:induction false} FieldStep(s: seq<byte>, i: nat, acc: nat)
    requires i < |s|
    ensures acc + Low(s[i]) * Pow128(i) >= 0 && Pow128(i + 1) == Pow128(i) * 128
    ensures s[i] < 128 ==> Shifted(Field0(s[i..]), i, acc) == Some(Field(i + 1, acc + Low(s[i]) * Pow128(i)))
    ensures s[i] >= 128 ==>
              Shifted(Field0(s[i..]), i, acc) == Shifted(Field0(s[i + 1..]), i + 1, acc + Low(s[i]) * Pow128(i))
  {
    assert s[i..][1..] == s[i + 1..];
    if s[i] >= 128 {
      match Field0(s[i + 1..])
      case None =>
      case Some(f) => Distribute(s[i] - 128, f.length, Pow128(i));
    }
  }

  lemma {:induction false} Distribute(d: nat, l: nat, m: nat)
    ensures (d + 128 * l) * m == d * m + l * (128 * m)
  {
  }

  /** The field of a longer input whose first i bytes were acc. */
  function Shifted(f: Option<Field>, i: nat, acc: nat): Option<Field> {
    match f
    case None => None
    case Some(g) => Some(Field(i + g.size, acc + g.length * Pow128(i)))
  }

  lemma {:induction false} EmptyField(t: seq<byte>, i: nat)
    requires i == |t|
    ensures Field0(t[i..]) == None
    ensures forall n: nat, acc: nat :: Shifted(None, n, acc) == None
  {
  }

  lemma {:induction false} FirstByte(t: seq<byte>)
    requires t != []
    ensures t[0] >= 128 ==> Field0(t) == Shifted(Field0(t[1..]), 1, Low(t[0]))
    ensures t[0] < 128 ==> Field0(t) == Some(Field(1, Low(t[0])))
    ensures Pow128(1) == 128
  {
    assert Pow128(0) == 1;
  }

  /** mspDecodeFHeaderLength. */
  method DecodeFHeaderLength(s: seq<byte>, beyond: byte) returns (rc: int, size: nat, length: int)
    ensures Decode(s, beyond).None? ==> rc == -1 && size == 0 && length == 0
    ensures Decode(s, beyond).Some? ==> rc == 0 && Decoded(size, length) == Decode(s, beyond).value
  {
    ghost var t := s + [beyond];
    var multiplier := 1;
    length, size := 0, 0;
    var d: int := ByteAt(s, 0, beyond);
    hide Field0, Pow128, Low, Shifted, Wrap;
    FirstByte(t);
    LowIsSmall(d);
    ghost var acc: nat := Low(d);
    size, length, multiplier := 1, Low(d), 128;
    while d >= 128 && size <= |s|
      invariant 1 <= size <= |t| && multiplier == Wrap(Pow128(size)) && length == Wrap(acc)
      invariant d == t[size - 1]
      invariant d >= 128 ==> Field0(t) == Shifted(Field0(t[size..]), size, acc)
      invariant d < 128 ==> Field0(t) == Some(Field(size, acc))
      decreases |t| - size
    {
      d := ByteAt(s, size, beyond);
      FieldStep(t, size, acc);
      WrapStep(acc, Low(d), Pow128(size));
      acc := acc + Low(d) * Pow128(size);
      size, length, multiplier := size + 1, Wrap(length + Wrap(Low(d) * multiplier)), Wrap(multiplier * 128);
    }
    if d >= 128 {
      EmptyField(t, size);
      return -1, 0, 0;
    }
    return 0, size, length;
  }

  lemma {:induction false} LowIsSmall(d: int)
    ensures Low(d) < 128 && Wrap(Low(d)) == Low(d) && Wrap(128) == 128
  {
  }

  // ----- What the codec promises ----------------------------------------------------------------

  /** Decoding inverts encoding, whatever follows the field. */
  lemma {:induction false} DecodeInvertsEncode(l: nat, rest: seq<byte>, beyond: byte)
    ensures Decode(Encode(l) + rest, beyond) == Some(Decoded(|Encode(l)|, Wrap(l)))
    ensures l <= MAX_LENGTH ==> Decode(Encode(l) + rest, beyond) == Some(Decoded(|Encode(l)|, l))
  {
    FieldOfEncode(l, rest + [beyond]);
    assert Encode(l) + rest + [beyond] == Encode(l) + (rest + [beyond]);
  }

  lemma {:induction false} FieldOfEncode(l: nat, rest: seq<byte>)
    ensures Field0(Encode(l) + rest) == Some(Field(|Encode(l)|, l))
  {
    if l >= 128 {
      FieldOfEncode(l / 128, rest);
      assert (Encode(l) + rest)[1..] == Encode(l / 128) + rest;
    }
  }

  /** No encoding is a prefix of another one. */
  lemma {:induction false} PrefixFree(a: nat, b: nat, rest: seq<byte>)
    requires Encode(a) + rest == Encode(b)
    ensures a == b && rest == []
  {
    FieldOfEncode(a, rest);
    FieldOfEncode(b, []);
    assert Encode(b) + [] == Encode(b);
  }

  /** Every field the decoder accepts is at least as long as the encoding of its length, and the
      encoding is the only one of that size. */
  lemma {:induction false} Minimal(s: seq<byte>)
    requires Field0(s).Some?
    ensures var f := Field0(s).value;
      && |Encode(f.length)| <= f.size <= |s|
      && (|Encode(f.length)| == f.size <==> s[..f.size] == Encode(f.length))
    decreases |s|
  {
    var f := Field0(s).value;
    if s[0] >= 128 {
      Minimal(s[1..]);
      var g := Field0(s[1..]).value;
      assert s[..f.size] == [s[0]] + s[1..][..g.size];
      if f.length >= 128 {
        assert f.length / 128 == g.length && f.length % 128 == s[0] - 128;
        assert Encode(f.length)[1..] == Encode(g.length);
        assert s[..f.size][1..] == s[1..][..g.size];
      }
    } else {
      assert s[..1] == [s[0]];
    }
  }

  /** MSP_CALC_FHEADER_LENGTH: the size of the fixed header for a remaining length. */
  function CalcFHeaderLength(l: nat): int {
    if l <= 127 then 2
    else if l <= 16383 then 3
    else if l <= 2097151 then 4
    else if l <= MAX_LENGTH then 5
    else -1
  }

  /** The size macro agrees with the encoder, and fails exactly where four bytes are not enough. */
  lemma {:induction false} HeaderLengthAgrees(l: nat)
    ensures l <= MAX_LENGTH ==> CalcFHeaderLength(l) == 1 + |Encode(l)|
    ensures |Encode(l)| <= 4 <==> CalcFHeaderLength(l) != -1
    ensures CalcFHeaderLength(l) != -1 <==> l <= 268435455
  {
    if l >= 128 {
      var l1 := l / 128;
      assert |Encode(l)| == 1 + |Encode(l1)|;
      if l1 >= 128 {
        var l2 := l1 / 128;
        assert |Encode(l1)| == 1 + |Encode(l2)|;
        if l2 >= 128 {
          assert |Encode(l2)| == 1 + |Encode(l2 / 128)|;
        }
      }
    }
  }

  /** The handlers' bound check, on the bytes behind the first one; the sum is a long. */
  predicate Accepted(s: seq<byte>, beyond: byte) {
    var d := Decode(s, beyond);
    d.Some? && Wrap(d.value.size + d.value.length) <= |s|
  }

  /** The field and what it announces lie in the buffer. */
  predicate Inside(s: seq<byte>, d: Decoded) {
    0 <= d.length && d.size + d.length <= |s|
  }

  /** What passes the bound check lies in the buffer exactly if the decoded length is not negative and
      adding the size of the field does not overflow; the byte behind the buffer then changes
      nothing. */
  lemma {:induction false} AcceptedInsideIff(s: seq<byte>, beyond: byte, other: byte)
    requires Accepted(s, beyond) && |s| < TWO31
    ensures var d := Decode(s, beyond).value; Inside(s, d) <==> 0 <= d.length && d.length + d.size < TWO31
    ensures var d := Decode(s, beyond).value;
      Inside(s, d) ==> Accepted(s, other) && Decode(s, other) == Some(d) == Wrapped(Field0(s)) && 1 <= d.size <= |s|
  {
    hide Wrap;
    var d := Decode(s, beyond).value;
    FieldLocal(s, beyond);
    FieldLocal(s, other);
    assert 0 <= d.length && d.length + d.size < TWO31 ==> Wrap(d.size + d.length) == d.size + d.length;
  }

  /** The decoded length is negative exactly if the field has five bytes or more and bit 3 of the fifth
      is set. */
  lemma {:induction false} NegativeIff(s: seq<byte>)
    requires Field0(s).Some?
    ensures var f := Field0(s).value;
      f.size <= |s| && (Wrap(f.length) < 0 <==> f.size >= 5 && s[4] % 16 >= 8)
    ensures Field0(s).value.size <= 4 ==> Field0(s).value.length <= MAX_LENGTH
  {
    FieldDigit(s);
    var f := Field0(s).value;
    if f.size >= 2 { FieldDigit(s[1..]); }
    if f.size >= 3 { FieldDigit(s[2..]); assert s[1..][1..] == s[2..]; }
    if f.size >= 4 { FieldDigit(s[3..]); assert s[2..][1..] == s[3..]; }
    if f.size >= 5 {
      FieldDigit(s[4..]);
      assert s[3..][1..] == s[4..];
      FifthDigit(f.length, Field0(s[4..]).value.length, s[4]);
    }
  }

  /** One byte off the front of a field. */
  lemma {:induction false} FieldDigit(s: seq<byte>)
    requires Field0(s).Some?
    ensures var f := Field0(s).value;
      && s != [] && f.size >= 1 && (f.size == 1 <==> s[0] < 128)
      && (f.size == 1 ==> f.length == s[0])
      && (f.size > 1 ==> Field0(s[1..]).Some? && var g := Field0(s[1..]).value;
            f.size == g.size + 1 && f.length == s[0] as int % 128 + 128 * g.length)
    ensures Field0(s).value.size <= |s| && Field0(s).value.length % 16 == s[0] as int % 16
    decreases |s|
  {
    if s[0] >= 128 { FieldDigit(s[1..]); }
  }

  lemma {:induction false} FifthDigit(length: nat, rest: nat, b: byte)
    requires 0 <= length - 0x1000_0000 * rest < 0x1000_0000 && rest % 16 == b as int % 16
    ensures Wrap(length) < 0 <==> b % 16 >= 8
  {
    var low, q, r := length - 0x1000_0000 * rest, rest / 16, rest % 16;
    assert length == low + 0x1000_0000 * r + TWO32 * q;
    WrapSame(length, low + 0x1000_0000 * r, q);
  }

  /** Fields of at most four bytes, which is what the protocol allows, are inside whenever the check
      accepts them. */
  lemma {:induction false} ShortFieldInside(s: seq<byte>, beyond: byte)
    requires Accepted(s, beyond) && Decode(s, beyond).value.size <= 4 && |s| < TWO31
    ensures Inside(s, Decode(s, beyond).value)
  {
    NegativeIff(s + [beyond]);
    AcceptedInsideIff(s, beyond, beyond);
  }

  /** A five-byte field can pass the check and lie outside: these four bytes, with a fifth behind the
      buffer, decode to the length -1. */
  lemma {:induction false} AcceptedOutside()
    ensures var s := [255, 255, 255, 255];
      Decode(s, 127) == Some(Decoded(5, -1)) && Accepted(s, 127) && !Inside(s, Decode(s, 127).value)
  {
    var s: seq<byte> := [255, 255, 255, 255];
    var t := s + [127];
    assert t[1..] == [255, 255, 255, 127] && t[1..][1..] == [255, 255, 127];
    assert t[1..][1..][1..] == [255, 127] && t[1..][1..][1..][1..] == [127];
    assert Field0([127]) == Some(Field(1, 127));
    assert Field0([255, 127]) == Some(Field(2, 127 + 128 * 127));
    assert Field0([255, 255, 127]) == Some(Field(3, 127 + 128 * (127 + 128 * 127)));
    assert Field0(t) == Some(Field(5, 0x8_0000_0000 - 1));
    WrapSame(0x8_0000_0000 - 1, -1, 8);
  }

  /** Looking one byte further finds a field only if there was one before, or it ends there. */
  lemma {:induction false} FieldLocal(s: seq<byte>, beyond: byte)
    ensures Field0(s).Some? ==> Field0(s + [beyond]) == Field0(s) && 1 <= Field0(s).value.size <= |s|
    ensures Field0(s).None? && Field0(s + [beyond]).Some? ==> Field0(s + [beyond]).value.size == |s| + 1
    decreases |s|
  {
    if s != [] && s[0] >= 128 {
      FieldLocal(s[1..], beyond);
      assert (s + [beyond])[1..] == s[1..] + [beyond];
    } else if s == [] {
      assert (s + [beyond])[1..] == [];
    }
  }

  /** The guard's extra byte does matter to the decoder alone: it takes a field that is cut short. */
  lemma {:induction false} DecoderOverreads(beyond: byte)
    requires beyond < 128
    ensures Field0([128]).None? && Decode([128], beyond) == Some(Decoded(2, 128 * beyond))
    ensures !Accepted([128], beyond)
  {
    hide Wrap;
    var s: seq<byte> := [128];
    assert Field0([beyond]) == Some(Field(1, beyond));
    assert (s + [beyond])[1..] == [beyond];
    assert s[1..] == [];
  }
}
