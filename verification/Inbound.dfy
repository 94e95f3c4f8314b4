/** The inbound half of a connection handle, on values: what a received PUBLISH decodes to, the queue
    of received publications with its index of unreleased QoS 2 messages, the store of received
    messages, and what each event does to them. `InboundEngine` computes the same on linked lists. */
module Inbound {
  import opened Bytes
  import opened Wrappers
  import opened LengthCodec
  import opened Links

  const MAX_INQ: nat := 32768
  /** sizeof(RPQ); nothing depends on the value. */
  const RPQ_SIZE: nat := 36
  const RELEASED: byte := 1
  /** The largest value of a 32-bit unsigned long. */
  const MAX_RCVID: nat := 0xFFFF_FFFF

  // ----- Decoding a PUBLISH ---------------------------------------------------------------------

  /** A decoded publication; `qos` is the level, 2 also for the reserved bit pattern 11. `flag` is the
      byte behind the message: 1 once the publication may go to the application. */
  datatype Pub = Pub(retain: bool, dup: bool, qos: twobit, topic: seq<byte>, payload: seq<byte>, id: u16, flag: byte)

  function QosLevel(h: Header): twobit {
    if h.qos >= 2 then 2 else h.qos
  }

  /** The decoding part of mspStorePublication on the bytesRead bytes of buf, flag byte included.
      `beyond` stands for memory behind the buffer, which the topic length may be read from. */
  function Parse(buf: seq<byte>, beyond: byte): Option<Pub>
    requires buf != []
  {
    var d := Decode(buf[1..], beyond);
    if !Accepted(buf[1..], beyond) then None
    else
      ParseBody(buf, ParseHeader(buf[0]), 1 + d.value.size, d.value.length, beyond)
  }

  /** The same from the variable header on, which starts at `pos` and is `length` bytes long with the
      payload. */
  function ParseBody(buf: seq<byte>, h: Header, pos: nat, length: int, beyond: byte): Option<Pub>
    requires buf != []
  {
    var qos := QosLevel(h);
    var topicLength := 256 * ByteAt(buf, pos, beyond) as nat + ByteAt(buf, pos + 1, beyond) as nat;
    var after := pos + 2 + topicLength;
    if qos > 0 && after + 2 > |buf| then None
    else
      var id := if qos > 0 then Read16(buf, after) else 0;
      var data := if qos > 0 then after + 2 else after;
      var bufferLength := if qos > 0 then length - 4 else length - 2;
      if after > |buf| || bufferLength - topicLength < 0 || data + bufferLength - topicLength > |buf| then None
      else if bufferLength + RPQ_SIZE > MAX_INQ then None
      else
        Some(Pub(h.retain, h.dup, qos, buf[pos + 2..after], buf[data..data + bufferLength - topicLength], id,
          buf[|buf| - 1]))
  }

  /** The buffer as mspTCPReadMsg hands it over: one message and the spare byte. */
  predicate Framed(buf: seq<byte>) {
    && 3 <= |buf| < TWO31
    && var f := Field0(buf[1..]); f.Some? && f.value.size + f.value.length + 2 == |buf|
  }

  /** The flag byte as it is set on arrival: QoS 2 waits for its release. */
  function Flagged(buf: seq<byte>): seq<byte>
    requires buf != []
  {
    SetFlag(buf, if QosLevel(ParseHeader(buf[0])) == 2 then 0 else RELEASED)
  }

  function SetFlag(buf: seq<byte>, flag: byte): seq<byte>
    requires buf != []
  {
    buf[|buf| - 1 := flag]
  }

  // ----- State ----------------------------------------------------------------------------------

  /** A queued publication. `uid` is the number of its arrival and `origin` the number of the broker's
      message, both history stamps; the C structure has neither, and no wire id. */
  datatype Rpq = Rpq(pub: Pub, rcvId: nat, uid: nat, origin: nat)

  /** The stored bytes of a received message, with the same stamp. */
  datatype Received = Received(bytes: seq<byte>, origin: nat)

  datatype AckKind = Puback | Pubrec | Pubcomp
  datatype Ack = Ack(kind: AckKind, id: u16, origin: nat)

  /** An acknowledgement on the wire: its type, the length 2, the id. */
  function AckBytes(a: Ack): seq<byte> {
    var mtype := match a.kind case Puback => PUBACK case Pubrec => PUBREC case Pubcomp => PUBCOMP;
    [HeaderByte(Header(mtype, false, 0, false)), 2] + Big16(a.id)
  }

  /** `hash` gives for a wire id the unreleased entry (by uid) its PUBREL would release; `acks` is the
      history of acknowledgements written to a socket; `arrivals` numbers the entries. */
  datatype InConn = InConn(
    q: seq<Rpq>, hash: map<u16, nat>, attached: bool, rcvd: map<nat, Received>,
    sock: bool, acks: seq<Ack>, nextRcvId: nat, arrivals: nat)

  function NextRcvId(id: nat): nat {
    if id == MAX_RCVID then 1 else id + 1
  }

  /** rtpEntries. */
  function Ready(q: seq<Rpq>): nat {
    if q == [] then 0 else Ready(q[..|q| - 1]) + (if q[|q| - 1].pub.flag == RELEASED then 1 else 0)
  }

  /** bufferLength, the room for topic and payload. */
  function PubSize(p: Pub): nat {
    |p.topic| + |p.payload|
  }

  /** numBytesQueued. */
  function InTotal(q: seq<Rpq>): nat {
    if q == [] then 0
    else
      var p := q[|q| - 1].pub;
      InTotal(q[..|q| - 1]) + RPQ_SIZE + |p.topic| + |p.payload|
  }

  // ----- Operations -----------------------------------------------------------------------------

  /** A QoS 2 publication still to be released: only these are indexed. */
  predicate Indexed(p: Pub) {
    p.qos == 2 && p.flag == 0
  }

  /** A resent QoS 2 message that is already waiting. */
  predicate IsDuplicate(c: InConn, p: Pub) {
    Indexed(p) && p.dup && p.id in c.hash
  }

  /** The queueing part of mspStorePublication. */
  function Enlist(c: InConn, e: Rpq): InConn {
    c.(q := c.q + [e], arrivals := c.arrivals + 1,
       hash := if Indexed(e.pub) then c.hash[e.pub.id := e.uid] else c.hash)
  }

  function SendAck(c: InConn, a: Ack, writeOk: bool): InConn {
    if !c.sock then c
    else if writeOk then c.(acks := c.acks + [a])
    else c.(sock := false)
  }

  /** mspSendPublishResponse. */
  function Respond(c: InConn, p: Pub, origin: nat, writeOk: bool): InConn {
    if p.qos == 2 then SendAck(c, Ack(Pubrec, p.id, origin), writeOk)
    else if p.qos == 1 then SendAck(c, Ack(Puback, p.id, origin), writeOk)
    else c
  }

  /** Whether the publication goes to the store. */
  predicate Persisted(c: InConn, p: Pub) {
    p.qos != 0 && c.attached
  }

  function NewEntry(c: InConn, p: Pub, origin: nat): Rpq {
    Rpq(p, if Persisted(c, p) then NextRcvId(c.nextRcvId) else 0, c.arrivals, origin)
  }

  /** A decoded PUBLISH that is no duplicate: queue, persist, acknowledge; when the store refuses, the
      entry and the index entry of its wire id go again. */
  function Take(c: InConn, bytes: seq<byte>, p: Pub, origin: nat, add: bool, writeOk: bool): InConn {
    var e := NewEntry(c, p, origin);
    var c1 := Enlist(c, e);
    if !Persisted(c, p) then Respond(c1, p, origin, writeOk)
    else if add then
      Respond(c1.(nextRcvId := e.rcvId, rcvd := c.rcvd[e.rcvId := Received(bytes, origin)]), p, origin, writeOk)
    else c1.(nextRcvId := e.rcvId, q := c.q, hash := c1.hash - {p.id})
  }

  /** The PUBLISH case of mspReceiveScadaMessage. */
  function OnPublish(c: InConn, buf: seq<byte>, beyond: byte, origin: nat, add: bool, writeOk: bool): InConn
    requires buf != []
  {
    match Parse(Flagged(buf), beyond)
    case None => c
    case Some(p) => if IsDuplicate(c, p) then c else Take(c, Flagged(buf), p, origin, add, writeOk)
  }

  /** How updReceivedMessage ends; it can report failure after the flag is set. */
  datatype UpdResult = NotSet | SetButFailed | Set

  /** The store after the flag of a received message was to be set. */
  function SetReleased(rcvd: map<nat, Received>, rcvId: nat, upd: UpdResult): map<nat, Received> {
    if upd.NotSet? || rcvId !in rcvd || rcvd[rcvId].bytes == [] then rcvd
    else rcvd[rcvId := rcvd[rcvId].(bytes := SetFlag(rcvd[rcvId].bytes, RELEASED))]
  }

  function WithFlag(e: Rpq, flag: byte): Rpq {
    e.(pub := e.pub.(flag := flag))
  }

  /** The entry with this uid, or |q|. */
  function PlaceOf(q: seq<Rpq>, uid: nat, i: nat): (k: nat)
    requires i <= |q|
    ensures i <= k <= |q| && (k < |q| ==> q[k].uid == uid)
    ensures forall j :: i <= j < k ==> q[j].uid != uid
    decreases |q| - i
  {
    if i == |q| || q[i].uid == uid then i else PlaceOf(q, uid, i + 1)
  }

  /** The PUBREL case of mspReceiveScadaMessage. `origin` stamps the PUBCOMP. */
  function OnPubrel(c: InConn, id: u16, origin: nat, upd: UpdResult, writeOk: bool): InConn {
    var comp := Ack(Pubcomp, id, origin);
    if id !in c.hash || PlaceOf(c.q, c.hash[id], 0) == |c.q| then SendAck(c, comp, writeOk)
    else
      var k := PlaceOf(c.q, c.hash[id], 0);
      var c1 := if c.attached then c.(rcvd := SetReleased(c.rcvd, c.q[k].rcvId, upd)) else c;
      if c.attached && !upd.Set? then c1
      else SendAck(c1.(q := c.q[k := WithFlag(c.q[k], RELEASED)], hash := c.hash - {id}), comp, writeOk)
  }

  /** The first publication that may go to the application, or |q|. */
  function FirstReady(q: seq<Rpq>, i: nat): (k: nat)
    requires i <= |q|
    ensures i <= k <= |q| && (k < |q| ==> q[k].pub.flag != 0)
    ensures forall j :: i <= j < k ==> q[j].pub.flag == 0
    decreases |q| - i
  {
    if i == |q| || q[i].pub.flag != 0 then i else FirstReady(q, i + 1)
  }

  /** The first entry with this receive id, or |q|. */
  function FirstRcv(q: seq<Rpq>, rcvId: nat, i: nat): (k: nat)
    requires i <= |q|
    ensures i <= k <= |q| && (k < |q| ==> q[k].rcvId == rcvId)
    ensures forall j :: i <= j < k ==> q[j].rcvId != rcvId
    decreases |q| - i
  {
    if i == |q| || q[i].rcvId == rcvId then i else FirstRcv(q, rcvId, i + 1)
  }

  /** The answer to a receive request: a publication and whether there are more, or none. */
  datatype Offer = NoPubs | Offered(rcvId: nat, pub: Pub, more: bool)

  /** mspSendRcvPubResponse. */
  function OfferOf(q: seq<Rpq>): Offer {
    var k := FirstReady(q, 0);
    if k == |q| then NoPubs else Offered(q[k].rcvId, q[k].pub, Ready(q) > 1)
  }

  /** mspDeletePublication: the application has the publication. */
  function Accept(c: InConn, rcvId: nat, del: bool): InConn {
    var k := FirstRcv(c.q, rcvId, 0);
    if k == |c.q| then c
    else
      c.(q := Drop(c.q, k),
         rcvd := if Persisted(c, c.q[k].pub) && del then c.rcvd - {c.q[k].rcvId} else c.rcvd)
  }

  /** One message of the reload loop; `ok` says whether it could be queued. */
  function ReloadStep(c: InConn, key: nat, v: Received): (InConn, bool)
    requires v.bytes != []
  {
    var c1 := if key > c.nextRcvId then c.(nextRcvId := key) else c;
    match Parse(v.bytes, 0)
    case None => (c1, false)
    case Some(p) =>
      if IsDuplicate(c1, p) then (c1, false) else (Enlist(c1, Rpq(p, key, c.arrivals, v.origin)), true)
  }

  function ReloadFrom(c: InConn, msgs: seq<(nat, Received)>, i: nat): (InConn, bool)
    requires i <= |msgs| && forall j :: 0 <= j < |msgs| ==> msgs[j].1.bytes != []
    decreases |msgs| - i
  {
    if i == |msgs| then (c, true)
    else
      var (c1, ok1) := ReloadStep(c, msgs[i].0, msgs[i].1);
      var (c2, ok2) := ReloadFrom(c1, msgs, i + 1);
      (c2, ok1 && ok2)
  }

  /** The inbound part of a connect with a new handle. */
  function Fresh(c: InConn): InConn {
    c.(q := [], hash := map[], sock := false, nextRcvId := 0)
  }
}
