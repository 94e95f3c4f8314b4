/** Stream reassembly and partial writes: mspTCPReadMsg and mspTCPWrite over a socket that hands over
    as few bytes at a time as it likes. */
module Framing {
  import opened Bytes
  import opened Wrappers
  import opened LengthCodec

  /** One direction of a TCP connection as the client sees it: bytes to come, then the end. */
  class Incoming {
    var stream: seq<byte>
    /** How many bytes each coming call hands over, for as long as the list lasts. */
    var sizes: seq<nat>

    constructor (stream: seq<byte>, sizes: seq<nat>)
      ensures this.stream == stream && this.sizes == sizes
    {
      this.stream, this.sizes := stream, sizes;
    }

    /** msp_recv: some of the bytes asked for; none once the peer has closed. */
    method Recv(n: nat) returns (r: seq<byte>)
      requires n > 0
      modifies this
      ensures |r| <= n && r + stream == old(stream)
      ensures r == [] <==> old(stream) == []
    {
      var k := n;
      if sizes != [] {
        k := if 0 < sizes[0] < n then sizes[0] else n;
        sizes := sizes[1..];
      }
      k := if k <= |stream| then k else |stream|;
      r, stream := stream[..k], stream[k..];
    }
  }

  /** The size of the first message of a stream, if the stream holds all of it. */
  function MessageSize(s: seq<byte>): Option<nat> {
    if s == [] then None
    else match Field0(s[1..])
      case None => None
      case Some(f) => if 1 + f.size + f.length <= |s| then Some(1 + f.size + f.length) else None
  }

  /** A length field of at most four bytes, as the protocol demands. */
  predicate ShortField(s: seq<byte>) {
    |s| < 5 || s[1] < 128 || s[2] < 128 || s[3] < 128 || s[4] < 128
  }

  /** The length field at the head of a stream as the decoder reads it. */
  function HeaderOf(s: seq<byte>): Option<Decoded> {
    if s == [] then None else Wrapped(Field0(s[1..]))
  }

  /** The header does not run out of a buffer of this size. */
  predicate HeaderFits(s: seq<byte>, capacity: nat) {
    match HeaderOf(s)
    case None => |s| < capacity
    case Some(d) => 1 + d.size <= capacity
  }

  /** Adding up the size to report does not overflow a long. */
  predicate Reportable(s: seq<byte>) {
    var d := HeaderOf(s);
    d.Some? ==> d.value.size + d.value.length + 2 < TWO31
  }

  /** What reading a message does: nothing to be had, or so many bytes taken and a length reported. */
  datatype Reading = NoMessage | Taken(consumed: nat, reported: int)

  /** One byte more is reported for a PUBLISH, whatever its flags. */
  function Spare(first: byte): nat {
    if 0x30 <= first <= 0x3F then 1 else 0
  }

  /** A length that wrapped to a negative number takes no body at all. */
  function ReadOutcome(s: seq<byte>): Reading {
    match HeaderOf(s)
    case None => NoMessage
    case Some(d) =>
      var k := 1 + d.size + if d.length > 0 then d.length else 0;
      if k > |s| then NoMessage else Taken(k, 1 + d.size + d.length + Spare(s[0]))
  }

  /** With a field of at most four bytes exactly the first message is taken and its size reported, and
      one more for PUBLISH. */
  lemma {:induction false} ShortOutcome(s: seq<byte>)
    requires ShortField(s)
    ensures HeaderFits(s, 5) && Reportable(s)
    ensures ReadOutcome(s) ==
            match MessageSize(s) case None => NoMessage case Some(k) => Taken(k, k + if s != [] then Spare(s[0]) else 0)
  {
    hide Wrap;
    if HeaderOf(s).Some? {
      NegativeIff(s[1..]);
      FieldShape(s[1..]);
    } else if |s| >= 5 {
      SomeFieldEnds(s);
    }
  }

  /** A length field that wraps: six bytes are taken and five reported, which a handler takes for four
      behind the first (`LengthCodec.AcceptedOutside`). */
  lemma {:induction false} WrappedReport()
    ensures ReadOutcome([0x40, 255, 255, 255, 255, 127]) == Taken(6, 5)
  {
    var s: seq<byte> := [0x40, 255, 255, 255, 255, 127];
    AcceptedOutside();
    assert s[1..] == [255, 255, 255, 255] + [127];
  }

  /** A field ends at its first byte with a clear top bit. */
  lemma {:induction false} FieldShape(s: seq<byte>)
    requires Field0(s).Some?
    ensures var n := Field0(s).value.size;
      1 <= n <= |s| && s[n - 1] < 128 && forall i :: 0 <= i < n - 1 ==> s[i] >= 128
    decreases |s|
  {
    if s[0] >= 128 {
      FieldShape(s[1..]);
      forall i | 1 <= i < Field0(s).value.size - 1 ensures s[i] >= 128 { assert s[i] == s[1..][i - 1]; }
    }
  }

  lemma {:induction false} SomeFieldEnds(s: seq<byte>)
    requires |s| >= 5 && ShortField(s)
    ensures HeaderOf(s).Some?
  {
    var n := if s[1] < 128 then 0 else if s[2] < 128 then 1 else if s[3] < 128 then 2 else 3;
    assert forall i :: 0 <= i < 4 ==> s[1..][i] == s[i + 1];
    FieldEnds(s[1..], n);
  }

  /** The first n bytes of a stream are a message header up to and including, at most, the last byte
      of the length field. */
  predicate InHeader(s: seq<byte>, n: nat) {
    n <= |s| && forall i :: 1 <= i < n - 1 ==> s[i] >= 128
  }

  /** The message in a buffer: first byte, length field, body. */
  function Wire(first: byte, body: seq<byte>): seq<byte> {
    [first] + Encode(|body|) + body
  }

  /** The test with the mask for the message type. */
  predicate IsPublish(first: byte) {
    first / 16 == PUBLISH
  }

  /** A whole message in front of anything is found as that message. */
  lemma {:induction false} FrameFound(first: byte, body: seq<byte>, rest: seq<byte>)
    ensures MessageSize(Wire(first, body) + rest) == Some(|Wire(first, body)|)
  {
    var s := Wire(first, body) + rest;
    assert s[1..] == Encode(|body|) + (body + rest);
    FieldOfEncode(|body|, body + rest);
  }

  /** Nothing behind the message matters, and nothing less than all of it will do. */
  lemma {:induction false} FrameExact(s: seq<byte>, n: nat)
    requires MessageSize(s).Some? && n <= |s|
    ensures MessageSize(s[..n]) == if n >= MessageSize(s).value then MessageSize(s) else None
  {
    var k := MessageSize(s).value;
    if n > 0 {
      assert s[..n][1..] == s[1..][..n - 1];
      FieldCut(s[1..], n - 1);
    }
  }

  lemma {:induction false} FieldCut(s: seq<byte>, n: nat)
    requires Field0(s).Some? && n <= |s|
    ensures Field0(s[..n]) == if n >= Field0(s).value.size then Field0(s) else None
    decreases n
  {
    if s[0] >= 128 && n > 0 {
      assert s[..n][1..] == s[1..][..n - 1];
      FieldCut(s[1..], n - 1);
    }
  }

  /** Where the header ends. */
  lemma {:induction false} HeaderEnds(s: seq<byte>, n: nat)
    requires InHeader(s, n) && n >= 2
    ensures s[n - 1] < 128 ==> Field0(s[1..]).Some? && Field0(s[1..]).value.size == n - 1
    ensures s[n - 1] >= 128 ==> Field0(s[1..n]).None?
  {
    assert forall i :: 0 <= i < n - 2 ==> s[1..][i] >= 128;
    FieldEnds(s[1..], n - 2);
    assert s[1..][..n - 1] == s[1..n];
  }

  lemma {:induction false} FieldEnds(s: seq<byte>, n: nat)
    requires n < |s| && forall i :: 0 <= i < n ==> s[i] >= 128
    ensures s[n] < 128 ==> Field0(s).Some? && Field0(s).value.size == n + 1
    ensures s[n] >= 128 ==> Field0(s[..n + 1]).None?
    decreases n
  {
    if n > 0 {
      FieldEnds(s[1..], n - 1);
      assert s[..n + 1][1..] == s[1..][..n];
    } else {
      assert s[n] >= 128 ==> s[..1][1..] == [];
    }
  }

  /** A stream that ends inside the header holds no message. */
  lemma {:induction false} HeaderCut(s: seq<byte>)
    requires InHeader(s, |s|) && (|s| >= 2 ==> s[|s| - 1] >= 128)
    ensures HeaderOf(s).None?
  {
    if |s| >= 2 {
      FieldEnds(s[1..], |s| - 2);
      assert s[1..][..|s| - 1] == s[1..];
    } else if |s| == 1 {
      assert s[1..] == [];
    }
  }

  /** The bytes r just read are the next ones of the stream s. */
  lemma {:induction false} ReadOn(s: seq<byte>, n: nat, r: seq<byte>, rest: seq<byte>)
    requires n <= |s| && r + rest == s[n..]
    ensures n + |r| <= |s| && s[..n] + r == s[..n + |r|] && rest == s[n + |r|..]
    ensures forall i :: 0 <= i < |r| ==> s[n + i] == r[i]
  {
    assert s == s[..n] + (r + rest);
    assert forall i :: 0 <= i < |r| ==> s[n + i] == (r + rest)[i];
  }

  lemma {:induction false} NothingRead(s: seq<byte>)
    ensures InHeader(s, 0)
  {
  }

  /** A header that goes on has room for its next byte. */
  lemma {:induction false} HeaderRoom(s: seq<byte>, n: nat, capacity: nat)
    requires HeaderFits(s, capacity) && InHeader(s, n) && n >= 2 && s[n - 1] >= 128
    ensures n < capacity
  {
    if HeaderOf(s).Some? {
      FieldShape(s[1..]);
      var size := Field0(s[1..]).value.size;
      assert s[1..][size - 1] == s[size];
    }
  }

  /** The next byte, or the first two. */
  lemma {:induction false} InHeaderGrows(s: seq<byte>, n: nat, k: nat)
    requires InHeader(s, n) && n + k <= |s| && (k == 1 || (k == 2 && n == 0))
    requires n >= 2 ==> s[n - 1] >= 128
    ensures InHeader(s, n + k)
  {
  }

  /** The size of the message whose header is read. */
  lemma {:induction false} SizeKnown(s: seq<byte>, n: nat, beyond: byte)
    requires 2 <= n <= |s| && InHeader(s, n) && s[n - 1] < 128
    ensures var d := Decode(s[1..n], beyond);
      d.Some? && d.value.size == n - 1 && HeaderOf(s) == d
  {
    HeaderEnds(s, n);
    FieldCut(s[1..], n - 1);
    assert s[1..][..n - 1] == s[1..n];
    FieldLocal(s[1..n], beyond);
  }

  /** The receive side of a connection handle. */
  class Receiver {
    var buffer: array<byte>

    constructor (size: nat)
      requires size >= 5
      ensures fresh(buffer) && buffer.Length == size
    {
      buffer := new byte[size](_ => 0);
    }

    /** One recv into the buffer behind the n bytes read so far; 0 if the stream has ended. */
    method ReadSome(link: Incoming, n: nat, want: nat, ghost s: seq<byte>) returns (k: nat)
      requires 0 < want && n + want <= buffer.Length && n <= |s|
      requires link.stream == s[n..] && buffer[..n] == s[..n]
      modifies buffer, link
      ensures k <= want && n + k <= |s| && (k == 0 <==> n == |s|)
      ensures link.stream == s[n + k..] && buffer[..n + k] == s[..n + k]
    {
      var r := link.Recv(want);
      ReadOn(s, n, r, link.stream);
      CopyInto(buffer, n, r);
      k := |r|;
    }

    /** The first loop of mspTCPReadMsg: first byte and length field. */
    method ReadHeader(link: Incoming) returns (rc: int, n: nat)
      requires buffer.Length >= 2 && HeaderFits(link.stream, buffer.Length)
      modifies buffer, link
      ensures rc == 0 || rc == -1
      ensures rc == 0 ==>
                var s := old(link.stream);
                && 2 <= n <= buffer.Length && n <= |s| && InHeader(s, n) && s[n - 1] < 128
                && buffer[..n] == s[..n] && link.stream == s[n..]
      ensures rc == -1 ==> HeaderOf(old(link.stream)).None?
    {
      hide HeaderOf, HeaderFits, InHeader;
      ghost var s := link.stream;
      var want := 2;
      n, rc := 0, 0;
      NothingRead(s);
      while want > 0
        invariant n <= |s| && n <= buffer.Length && 0 <= want <= 2 && (want == 2 ==> n == 0)
        invariant want > 0 ==> n + want <= buffer.Length
        invariant InHeader(s, n) && (want > 0 && n >= 2 ==> s[n - 1] >= 128)
        invariant want == 0 ==> n >= 2 && s[n - 1] < 128
        invariant buffer[..n] == s[..n] && link.stream == s[n..]
        decreases |s| - n, want
      {
        var k := ReadSome(link, n, want, s);
        if k == 0 {
          HeaderCut(s);
          return -1, 0;
        }
        InHeaderGrows(s, n, k);
        n := n + k;
        want := 1;
        assert n > 1 ==> buffer[n - 1] == buffer[..n][n - 1];
        if n > 1 && buffer[n - 1] < 128 {
          want := 0;
        }
        if n >= 2 && want == 1 { HeaderRoom(s, n, buffer.Length); }
      }
    }

    /** mspRealloc. */
    method Enlarge(size: nat, ghost keep: nat)
      requires keep <= buffer.Length <= size
      modifies this
      ensures fresh(buffer) && buffer.Length == size && buffer[..keep] == old(buffer[..keep])
    {
      var b := new byte[size](i requires 0 <= i < size reads this, buffer =>
                              if i < buffer.Length then buffer[i] else 0);
      buffer := b;
    }

    /** The second loop of mspTCPReadMsg: the rest of the message. */
    method ReadBody(link: Incoming, at: nat, length: nat, ghost s: seq<byte>) returns (rc: int)
      requires at + length <= buffer.Length && at <= |s|
      requires link.stream == s[at..] && buffer[..at] == s[..at]
      modifies buffer, link
      ensures rc == if at + length <= |s| then 0 else -1
      ensures rc == 0 ==> buffer[..at + length] == s[..at + length] && link.stream == s[at + length..]
    {
      var left, n := length, at;
      while left > 0
        invariant n + left == at + length && 0 <= left && n <= |s| && link.stream == s[n..] && buffer[..n] == s[..n]
      {
        var k := ReadSome(link, n, left, s);
        if k == 0 {
          return -1;
        }
        n, left := n + k, left - k;
      }
      return 0;
    }

    /** mspTCPReadMsg: however the bytes arrive, it does what `ReadOutcome` says of the whole stream. */
    method ReadMsg(link: Incoming) returns (rc: int, msgLen: int)
      requires buffer.Length >= 2 && HeaderFits(link.stream, buffer.Length) && Reportable(link.stream)
      modifies this, buffer, link
      ensures var s := old(link.stream);
        match ReadOutcome(s)
        case NoMessage => rc == -1 && msgLen == 0
        case Taken(k, reported) =>
          && rc == 0 && msgLen == reported <= buffer.Length && k <= |s| && k <= buffer.Length
          && buffer[..k] == s[..k] && link.stream == s[k..]
      ensures buffer.Length >= old(buffer.Length) && (buffer == old(buffer) || fresh(buffer))
    {
      ghost var s := link.stream;
      var n, size, length;
      rc, n := ReadHeader(link);
      if rc == -1 {
        return -1, 0;
      }
      hide Wrap, Field0, InHeader, HeaderFits, Decode, HeaderOf;
      var beyond := if n < buffer.Length then buffer[n] else 0;
      assert buffer[1..n] == s[1..n];
      SizeKnown(s, n, beyond);
      rc, size, length := DecodeFHeaderLength(buffer[1..n], beyond);
      msgLen := length + size + 1;
      if IsPublish(buffer[0]) {
        msgLen := msgLen + 1;
      }
      if msgLen > buffer.Length {
        Enlarge(msgLen, n);
      }
      rc := ReadBody(link, n, if length > 0 then length else 0, s);
      if rc == -1 {
        msgLen := 0;
      }
    }
  }

  // ----- Sending --------------------------------------------------------------------------------

  /** The other direction: what has been handed to the socket. */
  class Outgoing {
    var sent: seq<byte>
    /** How many bytes each coming call takes; 0 is an error. */
    var sizes: seq<nat>

    constructor (sizes: seq<nat>)
      ensures sent == [] && this.sizes == sizes
    {
      sent, this.sizes := [], sizes;
    }

    method Send(data: seq<byte>) returns (n: int)
      requires data != []
      modifies this
      ensures n <= |data| && (n > 0 ==> sent == old(sent) + data[..n]) && (n <= 0 ==> sent == old(sent))
    {
      n := |data|;
      if sizes != [] {
        n := if sizes[0] < |data| then sizes[0] else |data|;
        sizes := sizes[1..];
      }
      sent := sent + data[..n];
    }
  }

  /** mspTCPWrite: all of the message, or a proper part of it and an error. */
  method TCPWrite(link: Outgoing, msg: seq<byte>) returns (rc: int)
    modifies link
    ensures rc == 0 || rc == -1
    ensures rc == 0 ==> link.sent == old(link.sent) + msg
    ensures rc == -1 ==> exists k :: 0 <= k < |msg| && link.sent == old(link.sent) + msg[..k]
  {
    var left, at := |msg|, 0;
    while left > 0
      invariant at + left == |msg| && 0 <= at && 0 <= left && link.sent == old(link.sent) + msg[..at]
    {
      var n := link.Send(msg[at..]);
      if n <= 0 {
        return -1;
      }
      assert msg[..at] + msg[at..][..n] == msg[..at + n];
      left, at := left - n, at + n;
    }
    assert msg[..|msg|] == msg;
    return 0;
  }

  // ----- Round trip -----------------------------------------------------------------------------

  datatype Msg = Msg(first: byte, body: seq<byte>)

  function Stream(msgs: seq<Msg>): seq<byte> {
    if msgs == [] then [] else Wire(msgs[0].first, msgs[0].body) + Stream(msgs[1..])
  }

  predicate Sendable(msgs: seq<Msg>) {
    forall i :: 0 <= i < |msgs| ==> |msgs[i].body| <= MAX_LENGTH
  }

  lemma {:induction false} StreamIsShort(msgs: seq<Msg>)
    requires Sendable(msgs) && msgs != []
    ensures ShortField(Stream(msgs)) && MessageSize(Stream(msgs)) == Some(|Wire(msgs[0].first, msgs[0].body)|)
  {
    var s, l := Stream(msgs), |msgs[0].body|;
    FrameFound(msgs[0].first, msgs[0].body, Stream(msgs[1..]));
    HeaderLengthAgrees(l);
    EncodeEnds(l);
    var i := |Encode(l)|;
    assert s[i] == Encode(l)[i - 1];
  }

  lemma {:induction false} EncodeEnds(l: nat)
    ensures Encode(l)[|Encode(l)| - 1] < 128
  {
    if l >= 128 { EncodeEnds(l / 128); }
  }

  /** Whatever messages are written one after the other come out again one by one, in order and byte
      for byte, however the network cuts the stream; then the end of the stream is reported. */
  method ReceiveStream(receiver: Receiver, link: Incoming, ghost msgs: seq<Msg>) returns (received: seq<seq<byte>>)
    requires receiver.buffer.Length >= 5
    requires Sendable(msgs) && link.stream == Stream(msgs)
    modifies receiver, receiver.buffer, link
    ensures |received| == |msgs| && forall i :: 0 <= i < |msgs| ==> received[i] == Wire(msgs[i].first, msgs[i].body)
  {
    received := [];
    ghost var i := 0;
    while true
      invariant i == |received| <= |msgs| && link.stream == Stream(msgs[i..])
      invariant forall j :: 0 <= j < i ==> received[j] == Wire(msgs[j].first, msgs[j].body)
      invariant receiver.buffer.Length >= 5
      invariant receiver.buffer == old(receiver.buffer) || fresh(receiver.buffer)
      decreases |msgs| - i
    {
      if i < |msgs| {
        StreamIsShort(msgs[i..]);
      }
      ShortOutcome(link.stream);
      var rc, n := receiver.ReadMsg(link);
      if rc == -1 {
        return;
      }
      ghost var w := Wire(msgs[i].first, msgs[i].body);
      WireStart(msgs[i].first, msgs[i].body, Stream(msgs[i + 1..]));
      assert msgs[i..][1..] == msgs[i + 1..];
      var k := if IsPublish(receiver.buffer[0]) then n - 1 else n;
      received := received + [receiver.buffer[..k]];
      i := i + 1;
    }
  }

  lemma {:induction false} WireStart(first: byte, body: seq<byte>, rest: seq<byte>)
    ensures var w := Wire(first, body); (w + rest)[..|w|] == w && (w + rest)[|w|..] == rest && |w| > 0 && w[0] == first
  {
  }
}
