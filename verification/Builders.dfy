/** The two-pass message builders: a sizing pass over the caller's parameters, then a writing pass into a
    block of exactly that size. */
module Builders {
  import opened Bytes
  import opened Wrappers
  import opened LengthCodec
  import Outbound
  import opened Inbound
  import opened InboundFacts
  import opened Framing
  import opened WireIds

  const SPACE: byte := 32
  /** sizeof(SUB_PARMS) and sizeof(UNSUB_PARMS). */
  const PARMS_SIZE: nat := 4
  const LONG_SIZE: nat := 4

  // ----- Trimming -------------------------------------------------------------------------------

  predicate NotBlank(s: seq<byte>) {
    exists i :: 0 <= i < |s| && s[i] != SPACE
  }

  /** The buffer without the spaces at its end. */
  function Trim(s: seq<byte>): (t: seq<byte>)
    ensures |t| <= |s|
  {
    if s == [] || s[|s| - 1] != SPACE then s else Trim(s[..|s| - 1])
  }

  /** What is cut off is only spaces, and nothing more could be. */
  lemma {:induction false} TrimMeans(s: seq<byte>)
    ensures Trim(s) == s[..|Trim(s)|]
    ensures forall i :: |Trim(s)| <= i < |s| ==> s[i] == SPACE
    ensures Trim(s) != [] ==> s[|Trim(s)| - 1] != SPACE
    ensures NotBlank(s) <==> Trim(s) != []
  {
    if s != [] && s[|s| - 1] == SPACE {
      var f := s[..|s| - 1];
      TrimMeans(f);
      if NotBlank(s) {
        var i :| 0 <= i < |s| && s[i] != SPACE;
        assert f[i] != SPACE;
      }
      if NotBlank(f) {
        var i :| 0 <= i < |f| && f[i] != SPACE;
        assert s[i] != SPACE;
      }
    } else if s != [] {
      assert s[|s| - 1] != SPACE;
    }
  }

  /** mspCharTrim for spaces; the buffer must hold some other character, or it would be left. */
  method CharTrim(buffer: seq<byte>) returns (len: nat)
    requires NotBlank(buffer)
    ensures len == |Trim(buffer)| && buffer[..len] == Trim(buffer) && len > 0
  {
    TrimMeans(buffer);
    len := |buffer|;
    while buffer[len - 1] == SPACE
      invariant |Trim(buffer)| <= len <= |buffer|
      decreases len
    {
      len := len - 1;
    }
  }

  // ----- Subscribe and unsubscribe --------------------------------------------------------------

  datatype Kind = Subscribe | Unsubscribe

  datatype Topic = Topic(name: seq<byte>, qos: twobit)

  /** A length in the caller's memory, low byte first. A negative one, with the top bit set, would lead the
      C pointers backwards; the callers' lengths are not negative (`WellFilled`). */
  function LongAt(block: seq<byte>, at: nat): nat
    requires at + LONG_SIZE <= |block|
  {
    block[at] as int + 0x100 * block[at + 1] as int + 0x1_0000 * block[at + 2] as int
    + 0x100_0000 * block[at + 3] as int
  }

  /** The QoS byte for an options word: MQISDP_QOS_2 is bit 4, MQISDP_QOS_1 bit 3. */
  function QosOf(options: nat): twobit {
    if options / 16 % 2 == 1 then 2 else if options / 8 % 2 == 1 then 1 else 0
  }

  /** Where the entry at `at` ends, if the block holds its length word. */
  function EntryEnd(kind: Kind, block: seq<byte>, at: nat): nat
    requires at + LONG_SIZE <= |block|
  {
    at + LONG_SIZE + LongAt(block, at) + (if kind.Subscribe? then LONG_SIZE else 0)
  }

  function RawName(kind: Kind, block: seq<byte>, at: nat): seq<byte>
    requires at + LONG_SIZE <= |block| && EntryEnd(kind, block, at) <= |block|
  {
    block[at + LONG_SIZE..at + LONG_SIZE + LongAt(block, at)]
  }

  function TopicAt(kind: Kind, block: seq<byte>, at: nat): Topic
    requires at + LONG_SIZE <= |block| && EntryEnd(kind, block, at) <= |block|
  {
    Topic(Trim(RawName(kind, block, at)),
          if kind.Subscribe? then QosOf(LongAt(block, EntryEnd(kind, block, at) - LONG_SIZE)) else 0)
  }

  /** The topics of a well-formed block from position `at` on. */
  function TopicsFrom(kind: Kind, block: seq<byte>, at: nat): Option<seq<Topic>>
    decreases |block| - at
  {
    if at >= |block| then Some([])
    else if at + LONG_SIZE > |block| || EntryEnd(kind, block, at) > |block| then None
    else match TopicsFrom(kind, block, EntryEnd(kind, block, at))
      case None => None
      case Some(rest) => Some([TopicAt(kind, block, at)] + rest)
  }

  /** What the builders rely on: no length word met is negative, and every topic that lies inside the block
      has a character that is not a space. */
  predicate WellFilled(kind: Kind, block: seq<byte>, at: nat)
    decreases |block| - at
  {
    at + LONG_SIZE <= |block| ==>
      && LongAt(block, at) < TWO31
      && (EntryEnd(kind, block, at) <= |block| ==>
            NotBlank(RawName(kind, block, at)) && WellFilled(kind, block, EntryEnd(kind, block, at)))
  }

  /** One topic as it goes on the wire. */
  function WireTopic(kind: Kind, t: Topic): seq<byte> {
    Big16(|t.name| % 0x1_0000) + t.name + if kind.Subscribe? then [t.qos] else []
  }

  function Payload(kind: Kind, ts: seq<Topic>): seq<byte> {
    if ts == [] then [] else WireTopic(kind, ts[0]) + Payload(kind, ts[1..])
  }

  function TopicsHeader(kind: Kind): Header {
    Header(if kind.Subscribe? then SUBSCRIBE else UNSUBSCRIBE, false, 1, false)
  }

  /** The whole message. */
  function TopicsMessage(kind: Kind, id: u16, ts: seq<Topic>): seq<byte> {
    [HeaderByte(TopicsHeader(kind))] + Encode(2 + |Payload(kind, ts)|) + Big16(id) + Payload(kind, ts)
  }

  /** Reads the payload back. */
  function DecodeTopics(kind: Kind, s: seq<byte>): Option<seq<Topic>>
    decreases |s|
  {
    if s == [] then Some([])
    else if |s| < 2 then None
    else
      var n := Read16(s, 0);
      var end := 2 + n + if kind.Subscribe? then 1 else 0;
      if end > |s| || (kind.Subscribe? && s[end - 1] > 2) then None
      else match DecodeTopics(kind, s[end..])
        case None => None
        case Some(rest) => Some([Topic(s[2..2 + n], if kind.Subscribe? then s[end - 1] as int else 0)] + rest)
  }

  predicate ShortNames(kind: Kind, ts: seq<Topic>) {
    forall i {:trigger ts[i]} :: 0 <= i < |ts| ==>
      |ts[i].name| < 0x1_0000 && ts[i].qos <= (if kind.Subscribe? then 2 else 0)
  }

  /** Decoding the payload gives the topics and their QoS back, in order. */
  lemma {:induction false} TopicsRoundTrip(kind: Kind, ts: seq<Topic>)
    requires ShortNames(kind, ts)
    ensures DecodeTopics(kind, Payload(kind, ts)) == Some(ts)
    decreases |ts|
  {
    if ts != [] {
      var t, rest := ts[0], Payload(kind, ts[1..]);
      TopicsRoundTrip(kind, ts[1..]);
      FirstTopic(kind, t, rest);
      hide DecodeTopics, WireTopic;
      assert ts == [t] + ts[1..];
    }
  }

  lemma {:induction false} FirstTopic(kind: Kind, t: Topic, rest: seq<byte>)
    requires |t.name| < 0x1_0000 && t.qos <= if kind.Subscribe? then 2 else 0
    ensures DecodeTopics(kind, WireTopic(kind, t) + rest) ==
            match DecodeTopics(kind, rest) case None => None case Some(ts) => Some([t] + ts)
  {
    hide Big16, Read16, DecodeTopics;
    var n, last := |t.name|, if kind.Subscribe? then [t.qos as byte] else [];
    var s := WireTopic(kind, t) + rest;
    assert WireTopic(kind, t) == Big16(n) + t.name + last;
    Big16RoundTrip(n, t.name + last + rest);
    Placed(Big16(n), t.name, last, rest);
    DecodesFirst(kind, s, n, 2 + n + |last|);
  }

  /** Three parts in front of the rest, where they stand. */
  lemma {:induction false} Placed(a: seq<byte>, b: seq<byte>, c: seq<byte>, rest: seq<byte>)
    ensures var s, i, j, k := a + b + c + rest, |a|, |a| + |b|, |a| + |b| + |c|;
      && s == a + (b + c + rest) && |s| == k + |rest|
      && s[i..j] == b && s[k..] == rest && (c != [] ==> s[k - 1] == c[|c| - 1])
  {
  }

  lemma {:induction false} DecodesFirst(kind: Kind, s: seq<byte>, n: nat, end: nat)
    requires 2 <= |s| && Read16(s, 0) == n && end == 2 + n + (if kind.Subscribe? then 1 else 0) <= |s|
    requires kind.Subscribe? ==> s[end - 1] <= 2
    ensures DecodeTopics(kind, s) ==
            match DecodeTopics(kind, s[end..])
            case None => None
            case Some(ts) => Some([Topic(s[2..2 + n], if kind.Subscribe? then s[end - 1] as int else 0)] + ts)
  {
    hide Read16;
  }

  datatype BuildRc = BuildOk | InvalidStrucLength | QueueFull | DataTooBig

  /** The sizing pass: the remaining length. `spill` is what trimming a topic that runs out of the block
      gives; the pass fails then whatever it is. */
  method SizeTopics(kind: Kind, block: seq<byte>, spill: nat) returns (rc: BuildRc, rLength: nat)
    requires |block| >= PARMS_SIZE && WellFilled(kind, block, PARMS_SIZE)
    ensures rc == BuildOk || rc == InvalidStrucLength
    ensures rc == BuildOk <==> TopicsFrom(kind, block, PARMS_SIZE).Some?
    ensures rc == BuildOk ==> rLength == 2 + |Payload(kind, TopicsFrom(kind, block, PARMS_SIZE).value)|
  {
    var at := PARMS_SIZE;
    rc, rLength := BuildOk, 2;
    ghost var all := TopicsFrom(kind, block, PARMS_SIZE);
    while at < |block|
      invariant rc == BuildOk && WellFilled(kind, block, at) && rLength >= 2
      invariant TopicsFrom(kind, block, at).Some? <==> all.Some?
      invariant all.Some? ==>
                  rLength + |Payload(kind, TopicsFrom(kind, block, at).value)| == 2 + |Payload(kind, all.value)|
      decreases |block| - at
    {
      if at + LONG_SIZE > |block| {
        return InvalidStrucLength, rLength;
      }
      var end := EntryEnd(kind, block, at);
      var extra := if kind.Subscribe? then 3 else 2;
      if end > |block| {
        return InvalidStrucLength, rLength + spill + extra;
      }
      var tLength := CharTrim(RawName(kind, block, at));
      rLength := rLength + tLength + extra;
      at := end;
    }
  }

  /** Appending to what a buffer holds so far. */
  method Emit(msg: array<byte>, n: nat, r: seq<byte>, ghost rest: seq<byte>) returns (n1: nat)
    requires n <= msg.Length && n + |r| + |rest| == msg.Length
    modifies msg
    ensures n1 == n + |r| && msg[..n1] + rest == old(msg[..n]) + (r + rest)
  {
    CopyInto(msg, n, r);
    n1 := n + |r|;
  }

  /** One topic of the block, and the rest. */
  lemma {:induction false} PayloadUnfolds(kind: Kind, block: seq<byte>, at: nat)
    requires at < |block| && TopicsFrom(kind, block, at).Some?
    ensures at + LONG_SIZE <= |block| && EntryEnd(kind, block, at) <= |block|
    ensures TopicsFrom(kind, block, EntryEnd(kind, block, at)).Some?
    ensures Payload(kind, TopicsFrom(kind, block, at).value) ==
            WireTopic(kind, TopicAt(kind, block, at))
            + Payload(kind, TopicsFrom(kind, block, EntryEnd(kind, block, at)).value)
  {
    var rest := TopicsFrom(kind, block, EntryEnd(kind, block, at)).value;
    assert ([TopicAt(kind, block, at)] + rest)[1..] == rest;
  }

  /** The writing pass over the topics: it stays inside the block it writes and fills it exactly. */
  method WriteTopics(kind: Kind, block: seq<byte>, msg: array<byte>, start: nat)
    requires |block| >= PARMS_SIZE && WellFilled(kind, block, PARMS_SIZE) && TopicsFrom(kind, block, PARMS_SIZE).Some?
    requires msg.Length == start + |Payload(kind, TopicsFrom(kind, block, PARMS_SIZE).value)|
    modifies msg
    ensures msg[..] == old(msg[..start]) + Payload(kind, TopicsFrom(kind, block, PARMS_SIZE).value)
  {
    hide TopicsFrom, Payload, WireTopic, EntryEnd;
    assert start <= msg.Length;
    ghost var goal := msg[..start] + Payload(kind, TopicsFrom(kind, block, PARMS_SIZE).value);
    var at, n := PARMS_SIZE, start;
    while at < |block|
      invariant TopicsFrom(kind, block, at).Some? && WellFilled(kind, block, at)
      invariant 0 <= n <= msg.Length && n + |Payload(kind, TopicsFrom(kind, block, at).value)| == msg.Length
      invariant msg[..n] + Payload(kind, TopicsFrom(kind, block, at).value) == goal
      decreases |block| - at
    {
      PayloadUnfolds(kind, block, at);
      EntryGrows(kind, block, at);
      var next := EntryEnd(kind, block, at);
      var t := TopicAt(kind, block, at);
      ghost var rest := Payload(kind, TopicsFrom(kind, block, next).value);
      n := Emit(msg, n, WireTopic(kind, t), rest);
      at := next;
    }
    PayloadEnds(kind, block, at);
    assert msg[..n] == msg[..];
  }

  lemma {:induction false} EntryGrows(kind: Kind, block: seq<byte>, at: nat)
    requires at + LONG_SIZE <= |block|
    ensures at < EntryEnd(kind, block, at)
  {
  }

  lemma {:induction false} PayloadEnds(kind: Kind, block: seq<byte>, at: nat)
    requires at >= |block|
    ensures TopicsFrom(kind, block, at) == Some([]) && Payload(kind, []) == []
  {
  }

  /** mspBuildScadaSubscribeMsg and mspBuildScadaUnsubscribeMsg. */
  method BuildTopics(kind: Kind, block: seq<byte>, queued: nat, id: u16, spill: nat)
    returns (rc: BuildRc, msg: array<byte>)
    requires |block| >= PARMS_SIZE && WellFilled(kind, block, PARMS_SIZE)
    ensures rc == BuildOk <==>
              && TopicsFrom(kind, block, PARMS_SIZE).Some?
              && queued + |TopicsMessage(kind, id, TopicsFrom(kind, block, PARMS_SIZE).value)| + Outbound.IPQ_SIZE
                 <= Outbound.MAX_OUTQ
    ensures rc == BuildOk ==> msg[..] == TopicsMessage(kind, id, TopicsFrom(kind, block, PARMS_SIZE).value)
    ensures TopicsFrom(kind, block, PARMS_SIZE).Some? ==>
              && rc != InvalidStrucLength
              && (rc == DataTooBig <==> 2 + |Payload(kind, TopicsFrom(kind, block, PARMS_SIZE).value)| > MAX_LENGTH)
  {
    hide TopicsFrom, Payload, WellFilled, Encode, Big16;
    msg := new byte[0];
    var rLength;
    rc, rLength := SizeTopics(kind, block, spill);
    var fHLength := CalcFHeaderLength(rLength);
    var total := fHLength + rLength;
    HeaderLengthAgrees(rLength);
    Big16RoundTrip(id, []);
    if queued + total + Outbound.IPQ_SIZE > Outbound.MAX_OUTQ {
      rc := QueueFull;
    }
    if fHLength == -1 {
      EncodeLong(rLength);
      rc := DataTooBig;
    }
    if rc == BuildOk {
      msg := new byte[total];
      var length := EncodeFHeaderLength(rLength);
      var head := [HeaderByte(TopicsHeader(kind))] + length + Big16(id);
      CopyInto(msg, 0, head);
      assert msg[..|head|] == head;
      WriteTopics(kind, block, msg, |head|);
    }
  }

  /** A length the size macro refuses is over the cap anyway. */
  lemma {:induction false} EncodeLong(l: nat)
    requires CalcFHeaderLength(l) == -1
    ensures l > Outbound.MAX_OUTQ
  {
  }

  /** What is built decodes to the trimmed topics and their QoS, in order. */
  lemma {:induction false} BuiltTopicsDecode(kind: Kind, block: seq<byte>, queued: nat, id: u16)
    requires TopicsFrom(kind, block, PARMS_SIZE).Some?
    requires var ts := TopicsFrom(kind, block, PARMS_SIZE).value;
      queued + |TopicsMessage(kind, id, ts)| + Outbound.IPQ_SIZE <= Outbound.MAX_OUTQ
    ensures var ts := TopicsFrom(kind, block, PARMS_SIZE).value;
      var m := TopicsMessage(kind, id, ts);
      var f := Field0(m[1..]);
      && f.Some? && 1 + f.value.size + f.value.length == |m| && f.value.length >= 2
      && ParseHeader(m[0]) == TopicsHeader(kind)
      && Read16(m, 1 + f.value.size) == id
      && DecodeTopics(kind, m[1 + f.value.size + 2..]) == Some(ts)
  {
    hide Field0, Payload, DecodeTopics, TopicsFrom, Encode, HeaderByte, ParseHeader, Big16, Read16;
    var ts := TopicsFrom(kind, block, PARMS_SIZE).value;
    var pay := Payload(kind, ts);
    var m := TopicsMessage(kind, id, ts);
    ShortTopics(kind, block, PARMS_SIZE, |m|);
    TopicsRoundTrip(kind, ts);
    Big16RoundTrip(id, pay);
    var e := Encode(2 + |pay|);
    assert m[1..] == e + (Big16(id) + pay);
    FieldOfEncode(2 + |pay|, Big16(id) + pay);
    HeaderRoundTrip(TopicsHeader(kind), 0);
    assert m[1 + |e|..] == Big16(id) + pay;
    Read16At(m, 1 + |e|);
    assert m[1 + |e| + 2..] == pay;
  }

  /** The names of a message within the cap fit their 16-bit length. */
  lemma {:induction false} ShortTopics(kind: Kind, block: seq<byte>, at: nat, n: nat)
    requires TopicsFrom(kind, block, at).Some? && |Payload(kind, TopicsFrom(kind, block, at).value)| <= n < 0x1_0000
    ensures ShortNames(kind, TopicsFrom(kind, block, at).value)
    decreases |block| - at
  {
    if at < |block| {
      PayloadUnfolds(kind, block, at);
      var next := EntryEnd(kind, block, at);
      ShortTopics(kind, block, next, n);
      var ts, rest := TopicsFrom(kind, block, at).value, TopicsFrom(kind, block, next).value;
      assert ts == [TopicAt(kind, block, at)] + rest;
    }
  }

  // ----- What the caller asks for ---------------------------------------------------------------

  /** One topic as a caller gives it: a name that may have spaces behind it, and an options word. */
  datatype Wish = Wish(name: seq<byte>, options: nat)

  /** A long in the caller's memory, low byte first. */
  function LongBytes(n: nat): seq<byte> {
    [n % 0x100, n / 0x100 % 0x100, n / 0x1_0000 % 0x100, n / 0x100_0000 % 0x100]
  }

  /** The topics behind the structure's length: for each the length of its name, the name and, to subscribe,
      the options. */
  function BlockOf(kind: Kind, ws: seq<Wish>): seq<byte> {
    if ws == [] then [] else WishBytes(kind, ws[0]) + BlockOf(kind, ws[1..])
  }

  function WishBytes(kind: Kind, w: Wish): seq<byte> {
    LongBytes(|w.name|) + w.name + if kind.Subscribe? then LongBytes(w.options) else []
  }

  /** What is asked for: the name without the spaces, and QoS 2 if the options have 0x10, otherwise 1 if they
      have 0x08. */
  function Wanted(kind: Kind, ws: seq<Wish>): seq<Topic> {
    if ws == [] then []
    else
      var o := ws[0].options;
      var qos := if kind.Unsubscribe? then 0 else if o / 0x10 % 2 == 1 then 2 else if o / 0x08 % 2 == 1 then 1 else 0;
      [Topic(Trim(ws[0].name), qos)] + Wanted(kind, ws[1..])
  }

  predicate Sized(ws: seq<Wish>) {
    forall i {:trigger ws[i]} :: 0 <= i < |ws| ==> |ws[i].name| < TWO31 && ws[i].options < TWO32
  }

  lemma {:induction false} LongRead(block: seq<byte>, at: nat, n: nat)
    requires at + LONG_SIZE <= |block| && block[at..at + LONG_SIZE] == LongBytes(n) && n < TWO32
    ensures LongAt(block, at) == n
  {
    var s := block[at..at + LONG_SIZE];
    assert s[0] == block[at] && s[1] == block[at + 1] && s[2] == block[at + 2] && s[3] == block[at + 3];
    var a, b, c := n / 0x100, n / 0x1_0000, n / 0x100_0000;
    assert n == 0x100 * a + n % 0x100 && a == 0x100 * b + a % 0x100 && b == 0x100 * c + b % 0x100;
  }

  /** The first topic of what is left of a block. */
  lemma {:induction false} FirstWish(kind: Kind, block: seq<byte>, at: nat, w: Wish, rest: seq<byte>)
    requires at <= |block| && block[at..] == WishBytes(kind, w) + rest && |w.name| < TWO31 && w.options < TWO32
    ensures at + LONG_SIZE <= |block| && LongAt(block, at) == |w.name|
    ensures EntryEnd(kind, block, at) == at + |WishBytes(kind, w)| <= |block|
    ensures RawName(kind, block, at) == w.name && block[EntryEnd(kind, block, at)..] == rest
    ensures kind.Subscribe? ==> LongAt(block, EntryEnd(kind, block, at) - LONG_SIZE) == w.options
  {
    hide LongBytes, LongAt;
    var n, last := |w.name|, if kind.Subscribe? then LongBytes(w.options) else [];
    LongSizes(n);
    LongSizes(w.options);
    Placed(LongBytes(n), w.name, last, rest);
    Shifted(block, at, 0, LONG_SIZE);
    Shifted(block, at, LONG_SIZE, LONG_SIZE + n);
    LongRead(block, at, n);
    if kind.Subscribe? {
      Shifted(block, at, LONG_SIZE + n, LONG_SIZE + n + LONG_SIZE);
      LongRead(block, at + LONG_SIZE + n, w.options);
    }
    assert block[at..][|WishBytes(kind, w)|..] == block[at + |WishBytes(kind, w)|..];
  }

  lemma {:induction false} LongSizes(n: nat)
    ensures |LongBytes(n)| == LONG_SIZE
  {
  }

  lemma {:induction false} Shifted(s: seq<byte>, at: nat, i: nat, j: nat)
    requires i <= j && at + j <= |s|
    ensures s[at..][i..j] == s[at + i..at + j]
  {
  }

  /** One more topic is read. */
  lemma {:induction false} TopicsNext(kind: Kind, block: seq<byte>, at: nat, ts: seq<Topic>)
    requires at + LONG_SIZE <= |block| && EntryEnd(kind, block, at) <= |block|
    requires TopicsFrom(kind, block, EntryEnd(kind, block, at)) == Some(ts)
    ensures TopicsFrom(kind, block, at) == Some([TopicAt(kind, block, at)] + ts)
    ensures
      (LongAt(block, at) < TWO31 && NotBlank(RawName(kind, block, at))
       && WellFilled(kind, block, EntryEnd(kind, block, at))) ==> WellFilled(kind, block, at)
  {
    hide LongAt, TopicAt, NotBlank, RawName;
  }

  lemma {:induction false} BlockEnds(kind: Kind, block: seq<byte>)
    ensures TopicsFrom(kind, block, |block|) == Some([]) && WellFilled(kind, block, |block|)
  {
  }

  /** A caller's block is read as what it asks for, in order. */
  lemma {:induction false} BlockRead(kind: Kind, block: seq<byte>, at: nat, ws: seq<Wish>)
    requires at <= |block| && block[at..] == BlockOf(kind, ws) && Sized(ws)
    ensures TopicsFrom(kind, block, at) == Some(Wanted(kind, ws))
    ensures (forall i :: 0 <= i < |ws| ==> NotBlank(ws[i].name)) ==> WellFilled(kind, block, at)
    decreases |ws|
  {
    hide TopicsFrom, WellFilled, LongAt, WishBytes, Trim, RawName, NotBlank, EntryEnd;
    if ws == [] {
      assert |block[at..]| == 0;
      BlockEnds(kind, block);
    } else {
      FirstWish(kind, block, at, ws[0], BlockOf(kind, ws[1..]));
      var next := EntryEnd(kind, block, at);
      assert forall i :: 0 <= i < |ws[1..]| ==> ws[1..][i] == ws[i + 1];
      BlockRead(kind, block, next, ws[1..]);
      hide BlockOf;
      TopicsNext(kind, block, at, Wanted(kind, ws[1..]));
    }
  }

  /** From the caller to the broker: the message built from a block has the first byte 0x82 or 0xA2, holds its
      id, and decodes to exactly the topics and QoS asked for, in order. */
  lemma {:induction false} WishesRoundTrip(kind: Kind, head: seq<byte>, ws: seq<Wish>, queued: nat, id: u16)
    requires |head| == PARMS_SIZE && Sized(ws)
    requires queued + |TopicsMessage(kind, id, Wanted(kind, ws))| + Outbound.IPQ_SIZE <= Outbound.MAX_OUTQ
    ensures TopicsFrom(kind, head + BlockOf(kind, ws), PARMS_SIZE) == Some(Wanted(kind, ws))
    ensures var m := TopicsMessage(kind, id, Wanted(kind, ws));
      var f := Field0(m[1..]);
      && m[0] == (if kind.Subscribe? then 0x82 else 0xA2)
      && f.Some? && 1 + f.value.size + f.value.length == |m| && f.value.length >= 2
      && WireId(OfBytes(m)) == Some(id)
      && DecodeTopics(kind, m[1 + f.value.size + 2..]) == Some(Wanted(kind, ws))
  {
    hide TopicsFrom, BlockOf, DecodeTopics, Payload, Field0, WireId, Read16, Encode, Big16;
    var block := head + BlockOf(kind, ws);
    assert block[PARMS_SIZE..] == BlockOf(kind, ws);
    BlockRead(kind, block, PARMS_SIZE, ws);
    BuiltTopicsDecode(kind, block, queued, id);
    FirstBytes();
    TopicsCarry(kind, id, Wanted(kind, ws));
  }

  /** The id of a built SUBSCRIBE or UNSUBSCRIBE where the broker reads it. */
  lemma {:induction false} TopicsCarry(kind: Kind, id: u16, ts: seq<Topic>)
    ensures WireId(OfBytes(TopicsMessage(kind, id, ts))) == Some(id)
            && Carries(OfBytes(TopicsMessage(kind, id, ts)), id)
  {
    hide Field0, Encode, Big16, Read16, Payload, HeaderByte, ParseHeader;
    var m, pay := TopicsMessage(kind, id, ts), Payload(kind, ts);
    var e := Encode(2 + |pay|);
    HeaderRoundTrip(TopicsHeader(kind), 0);
    assert m[1..] == e + (Big16(id) + pay);
    Big16RoundTrip(id, pay);
    FieldOfEncode(2 + |pay|, Big16(id) + pay);
    assert m[1..][|e|..] == Big16(id) + pay;
    Read16At(m[1..], |e|);
  }

  /** ... and of a built PUBLISH. */
  lemma {:induction false} PublishCarries(h: Header, id: u16, topic: seq<byte>, data: seq<byte>)
    requires h.mtype == PUBLISH && |topic| < 0x1_0000
    ensures var m := PublishMessage(h, id, topic, data);
      (h.qos > 0 ==> WireId(OfBytes(m)) == Some(id)) && Carries(OfBytes(m), id)
  {
    hide Field0, Encode, Big16, Read16, HeaderByte, ParseHeader;
    var m, body := PublishMessage(h, id, topic, data), PublishBody(h.qos, id, topic, data);
    var e, n := Encode(|body|), |topic|;
    HeaderRoundTrip(h, 0);
    assert m[1..] == e + body;
    FieldOfEncode(|body|, body);
    Big16RoundTrip(n, topic + (if h.qos > 0 then Big16(id) else []) + data);
    assert m[1..][|e|..] == Big16(n) + (topic + (if h.qos > 0 then Big16(id) else []) + data);
    Read16At(m[1..], |e|);
    if h.qos > 0 {
      Big16RoundTrip(id, data);
      assert m[1..][|e| + 2 + n..] == Big16(id) + data;
      Read16At(m[1..], |e| + 2 + n);
    }
  }

  // ----- Publish --------------------------------------------------------------------------------

  /** MQISDP_RETAIN is bit 1 of the options. */
  predicate RetainOf(options: nat) {
    options / 2 % 2 == 1
  }

  function PublishBody(qos: twobit, id: u16, topic: seq<byte>, data: seq<byte>): seq<byte> {
    Big16(|topic| % 0x1_0000) + topic + (if qos > 0 then Big16(id) else []) + data
  }

  /** A PUBLISH on the wire with these flags. */
  function PublishMessage(h: Header, id: u16, topic: seq<byte>, data: seq<byte>): seq<byte> {
    var body := PublishBody(h.qos, id, topic, data);
    [HeaderByte(h)] + Encode(|body|) + body
  }

  /** The flags for an options word: DUP is clear on the first copy. */
  function PublishHeader(options: nat): Header {
    Header(PUBLISH, false, QosOf(options), RetainOf(options))
  }

  /** mspBuildScadaPublishMsg. */
  method BuildPublish(options: nat, topic: seq<byte>, data: seq<byte>, queued: nat, id: u16)
    returns (rc: BuildRc, msg: array<byte>)
    requires NotBlank(topic)
    ensures rc == BuildOk <==>
              queued + |PublishMessage(PublishHeader(options), id, Trim(topic), data)| + Outbound.IPQ_SIZE
              <= Outbound.MAX_OUTQ
    ensures rc == DataTooBig <==> |PublishBody(QosOf(options), id, Trim(topic), data)| > MAX_LENGTH
    ensures rc != InvalidStrucLength
    ensures rc == BuildOk ==> msg[..] == PublishMessage(PublishHeader(options), id, Trim(topic), data)
    ensures rc == BuildOk ==> msg.Length > 0 && AsksFor(options, msg[0])
  {
    hide Encode, AsksFor, PublishMessage, PublishBody;
    FlagsAsked(options);
    PublishSize(PublishHeader(options), id, Trim(topic), data);
    msg := new byte[0];
    rc := BuildOk;
    var dLength := CharTrim(topic);
    var rLength := dLength + 2;
    if options / 8 % 2 == 1 || options / 16 % 2 == 1 {
      rLength := rLength + 2;
    }
    rLength := rLength + |data|;
    var fHLength := CalcFHeaderLength(rLength);
    var total := fHLength + rLength;
    HeaderLengthAgrees(rLength);
    if queued + total + Outbound.IPQ_SIZE > Outbound.MAX_OUTQ {
      rc := QueueFull;
    }
    if fHLength == -1 {
      EncodeLong(rLength);
      rc := DataTooBig;
    }
    if rc == BuildOk {
      var length := EncodeFHeaderLength(rLength);
      var head := [HeaderByte(PublishHeader(options))] + length;
      var name := Big16(dLength % 0x1_0000) + topic[..dLength];
      var msgId := if QosOf(options) > 0 then Big16(id) else [];
      PublishParts(PublishHeader(options), id, Trim(topic), data);
      msg := WriteParts(total, head, name, msgId, data);
      assert msg[..][0] == head[0];
    }
  }

  /** The parts of a message, one after the other into a block of exactly their size. */
  method WriteParts(total: nat, a: seq<byte>, b: seq<byte>, c: seq<byte>, d: seq<byte>) returns (msg: array<byte>)
    requires total == |a| + |b| + |c| + |d|
    ensures msg[..] == a + b + c + d
  {
    msg := new byte[total];
    assert msg[..0] + (a + (b + (c + d))) == a + b + c + d;
    var n := Emit(msg, 0, a, b + (c + d));
    n := Emit(msg, n, b, c + d);
    n := Emit(msg, n, c, d);
    assert d + [] == d;
    n := Emit(msg, n, d, []);
    assert msg[..n] + [] == msg[..];
  }

  lemma {:induction false} PublishSize(h: Header, id: u16, topic: seq<byte>, data: seq<byte>)
    ensures |PublishBody(h.qos, id, topic, data)| == 2 + |topic| + (if h.qos > 0 then 2 else 0) + |data|
    ensures var n := |PublishBody(h.qos, id, topic, data)|; |PublishMessage(h, id, topic, data)| == 1 + |Encode(n)| + n
  {
    hide Encode;
  }

  lemma {:induction false} PublishParts(h: Header, id: u16, topic: seq<byte>, data: seq<byte>)
    ensures var l := Encode(|PublishBody(h.qos, id, topic, data)|);
      PublishMessage(h, id, topic, data) ==
      ([HeaderByte(h)] + l) + (Big16(|topic| % 0x1_0000) + topic) + (if h.qos > 0 then Big16(id) else []) + data
  {
    hide Encode, Big16;
  }

  /** The first byte of a PUBLISH for these options: type 3, DUP clear, the two QoS bits and RETAIN. MQISDP_QOS_2
      is 0x10 and wins over MQISDP_QOS_1, 0x08; MQISDP_RETAIN is 0x02. */
  predicate AsksFor(options: nat, first: byte) {
    && first / 16 == 3 && first / 8 % 2 == 0
    && (first / 4 % 2 == 1 <==> options / 0x10 % 2 == 1)
    && (first / 2 % 2 == 1 <==> options / 0x08 % 2 == 1 && options / 0x10 % 2 == 0)
    && (first % 2 == 1 <==> options / 0x02 % 2 == 1)
  }

  lemma {:induction false} FlagsAsked(options: nat)
    ensures AsksFor(options, HeaderByte(PublishHeader(options)))
  {
    FlagBits(PublishHeader(options));
  }

  /** What a receiver makes of a built PUBLISH with the spare byte behind it: topic, payload, QoS, RETAIN
      and message id come back exactly if the publication fits the inbound limit; otherwise it is
      refused. The outbound cap keeps the topic within its 16-bit length. */
  lemma {:induction false} WireRoundTrip(h: Header, id: u16, topic: seq<byte>, data: seq<byte>, spare: byte,
                                         beyond: byte)
    requires h.mtype == PUBLISH && h.qos <= 2
    requires |PublishMessage(h, id, topic, data)| + Outbound.IPQ_SIZE <= Outbound.MAX_OUTQ
    ensures var buf, qos := PublishMessage(h, id, topic, data) + [spare], h.qos;
      && Framed(buf)
      && Parse(Flagged(buf), beyond) ==
           if |topic| + |data| + RPQ_SIZE > MAX_INQ then None
           else Some(Pub(h.retain, h.dup, qos, topic, data, if qos > 0 then id else 0, if qos == 2 then 0
             else RELEASED))
  {
    hide Field0, ParseBody, HeaderByte, ParseHeader, Decode, Accepted, Encode, Framed, Big16;
    var qos, body := h.qos, PublishBody(h.qos, id, topic, data);
    var e := Encode(|body|);
    Big16RoundTrip(|topic| % 0x1_0000, []);
    var msg := PublishMessage(h, id, topic, data);
    var buf := msg + [spare];
    HeaderRoundTrip(h, 0);
    PublishFramed(h, body, spare);
    var flag: byte := if qos == 2 then 0 else RELEASED;
    var b := Flagged(buf);
    assert b == msg + [flag];
    PublishFramed(h, body, flag);
    FramedField(b, b, beyond);
    assert b == ([HeaderByte(h)] + e) + (body + [flag]);
    ParsePublishBody([HeaderByte(h)] + e, h, id, topic, data, flag, beyond);
  }

  /** From the options to the receiver: QoS 2 if they have 0x10, otherwise 1 if they have 0x08, RETAIN if they have
      0x02. */
  lemma {:induction false} PublishRoundTrip(options: nat, id: u16, topic: seq<byte>, data: seq<byte>, spare: byte,
                                            beyond: byte)
    requires |PublishMessage(PublishHeader(options), id, Trim(topic), data)| + Outbound.IPQ_SIZE <= Outbound.MAX_OUTQ
    ensures var buf := PublishMessage(PublishHeader(options), id, Trim(topic), data) + [spare];
      var qos := if options / 0x10 % 2 == 1 then 2 else if options / 0x08 % 2 == 1 then 1 else 0;
      && Framed(buf)
      && Parse(Flagged(buf), beyond) ==
           if |Trim(topic)| + |data| + RPQ_SIZE > 32768 then None
           else Some(Pub(options / 0x02 % 2 == 1, false, qos, Trim(topic), data, if qos > 0 then id else 0,
                         if qos == 2 then 0 else 1))
  {
    hide PublishMessage, Parse, Framed, Flagged;
    WireRoundTrip(PublishHeader(options), id, Trim(topic), data, spare, beyond);
  }

  /** From the broker's stream to the publication: reading a stream that begins with a PUBLISH of any QoS, with
      or without DUP and RETAIN, takes exactly that message and reports one byte more; what then stands in the
      buffer is framed and decodes to the publication. */
  lemma {:induction false} StreamRoundTrip(h: Header, id: u16, topic: seq<byte>, data: seq<byte>, rest: seq<byte>,
                                           buf: seq<byte>, beyond: byte)
    requires h.mtype == PUBLISH && h.qos <= 2
    requires |PublishMessage(h, id, topic, data)| + Outbound.IPQ_SIZE <= Outbound.MAX_OUTQ
    requires var m, s := PublishMessage(h, id, topic, data), PublishMessage(h, id, topic, data) + rest;
      var r := ReadOutcome(s);
      r.Taken? && |buf| == r.reported && r.consumed <= |buf| && r.consumed <= |s|
        && buf[..r.consumed] == s[..r.consumed]
    ensures var m := PublishMessage(h, id, topic, data);
      ReadOutcome(m + rest) == Taken(|m|, |m| + 1) && buf[..|m|] == m && Framed(buf)
    ensures Parse(Flagged(buf), beyond) ==
      if |topic| + |data| + RPQ_SIZE > MAX_INQ then None
      else Some(Pub(h.retain, h.dup, h.qos, topic, data, if h.qos > 0 then id else 0, if h.qos == 2 then 0 else 1))
  {
    var m, body := PublishMessage(h, id, topic, data), PublishBody(h.qos, id, topic, data);
    assert m == Wire(HeaderByte(h), body);
    FrameFound(HeaderByte(h), body, rest);
    FlagBits(h);
    PublishOutcome(HeaderByte(h), body, rest);
    hide PublishMessage, PublishBody, Parse, Framed, Flagged, ReadOutcome, Wire;
    assert (m + rest)[..|m|] == m;
    assert buf == m + [buf[|m|]];
    WireRoundTrip(h, id, topic, data, buf[|m|], beyond);
  }

  lemma {:induction false} PublishOutcome(first: byte, body: seq<byte>, rest: seq<byte>)
    requires first / 16 == 3 && |Wire(first, body)| < Outbound.MAX_OUTQ
    ensures ReadOutcome(Wire(first, body) + rest) == Taken(|Wire(first, body)|, |Wire(first, body)| + 1)
  {
    var s := Wire(first, body) + rest;
    assert s[1..] == Encode(|body|) + (body + rest);
    FieldOfEncode(|body|, body + rest);
  }

  lemma {:induction false} PublishFramed(h: Header, body: seq<byte>, flag: byte)
    ensures var b := [HeaderByte(h)] + Encode(|body|) + body + [flag];
      0 < |body| && |b| < TWO31 ==> Framed(b) && Field0(b[1..]) == Some(Field(|Encode(|body|)|, |body|))
  {
    var b := [HeaderByte(h)] + Encode(|body|) + body + [flag];
    assert b[1..] == Encode(|body|) + (body + [flag]);
    FieldOfEncode(|body|, body + [flag]);
  }

  lemma {:induction false} ParsePublishBody(pre: seq<byte>, h: Header, id: u16, topic: seq<byte>, data: seq<byte>,
                                            flag: byte, beyond: byte)
    requires pre != [] && h.qos <= 2 && |topic| < 0x1_0000
    ensures var body := PublishBody(h.qos, id, topic, data);
      ParseBody(pre + (body + [flag]), h, |pre|, |body|, beyond) ==
        if |topic| + |data| + RPQ_SIZE > MAX_INQ then None
        else Some(Pub(h.retain, h.dup, h.qos, topic, data, if h.qos > 0 then id else 0, flag))
  {
    var body := PublishBody(h.qos, id, topic, data);
    var b, n := pre + (body + [flag]), |topic|;
    var idPart := if h.qos > 0 then Big16(id) else [];
    hide Read16, Big16, ParseBody;
    Big16RoundTrip(n, topic + idPart + data + [flag]);
    Big16RoundTrip(id, data + [flag]);
    var at := |pre|;
    Sliced(b, pre, Big16(n), topic, idPart, data, [flag]);
    Read16At(b, at);
    if h.qos > 0 { Read16At(b, at + 2 + n); }
    ParseParts(b, h, at, topic, if h.qos > 0 then id else 0, data, beyond);
  }

  /** A buffer with the parts of a PUBLISH in their places decodes to them. */
  lemma {:induction false} ParseParts(b: seq<byte>, h: Header, at: nat, topic: seq<byte>, id: u16, data: seq<byte>,
                                      beyond: byte)
    requires h.qos <= 2 && |topic| < 0x1_0000
    requires var n, k := |topic|, if h.qos > 0 then 2 else 0;
      && |b| == at + 2 + n + k + |data| + 1 && Read16(b, at) == n && b[at + 2..at + 2 + n] == topic
      && (if h.qos > 0 then Read16(b, at + 2 + n) == id else id == 0)
      && b[at + 2 + n + k..at + 2 + n + k + |data|] == data
    ensures ParseBody(b, h, at, |b| - at - 1, beyond) ==
      if |topic| + |data| + RPQ_SIZE > MAX_INQ then None
      else Some(Pub(h.retain, h.dup, h.qos, topic, data, id, b[|b| - 1]))
  {
    Read16IsBytes(b, at);
    hide Read16;
  }

  lemma {:induction false} Read16IsBytes(b: seq<byte>, at: nat)
    requires at + 2 <= |b|
    ensures Read16(b, at) == 256 * b[at] as int + b[at + 1] as int
  {
  }

  /** The parts of a buffer where they stand. */
  lemma {:induction false} Sliced(b: seq<byte>, p: seq<byte>, l: seq<byte>, t: seq<byte>, i: seq<byte>, d: seq<byte>,
                                  f: seq<byte>)
    requires b == p + (l + t + i + d + f) && |l| == 2
    ensures b[|p|..] == l + (t + i + d + f) && b[|p| + 2..|p| + 2 + |t|] == t
    ensures b[|p| + 2 + |t|..] == i + (d + f)
    ensures b[|p| + 2 + |t| + |i|..|p| + 2 + |t| + |i| + |d|] == d && b[|b| - |f|..] == f
  {
  }
}
