/** The outbound half of a connection handle, on values.

    `Conn` is what `OutboundEngine.Handle` holds in its linked queue, hash table and counters; the
    functions below are what the engine's methods compute. Results of calls into the outside world
    (the persistence store, the socket) are parameters. */
module Outbound {
  import opened Bytes
  import opened Wrappers
  import opened SentStores

  const MAX_OUTQ: nat := 32768
  /** sizeof(IPQ); nothing depends on the value. */
  const IPQ_SIZE: nat := 32
  const MAX_MSGS: u16 := 65535

  /** The status field of a queued message. */
  datatype Status = InProgress | Retrying

  /** A queued message. `origin` is a history stamp: the number of the API request that allocated
      the id (for a PUBREL: of the request it releases). The C structure has no such field. */
  datatype Entry = Entry(id: u16, data: Message, status: Status, origin: nat)

  /** What was handed to TCP, and what is in the store, with the same history stamp. */
  datatype Packet = Packet(id: u16, data: Message, origin: nat)
  datatype Stored = Stored(data: Message, origin: nat)

  /** `wire` is the history of every complete message written to a socket. */
  datatype Conn = Conn(
    q: seq<Entry>,
    attached: bool,
    store: Store<nat, Stored>,
    sock: bool,
    wire: seq<Packet>,
    nextMsgId: u16)

  datatype Rc = Ok | NotSent | PersistenceFailed | OutOfMemory | ConnectionBroken | NotBuilt

  /** QoS 1 and 2 are queued; the reserved QoS bit pattern 11 is not. */
  predicate IsStored(data: Message) {
    data.head.qos == 1 || data.head.qos == 2
  }

  predicate IsRel(data: Message) {
    data.head.mtype == PUBREL
  }

  function WithDup(data: Message): Message {
    data.(head := data.head.(dup := true))
  }

  /** The PUBREL that mspSendPubReceivedResponse builds: QoS 1 so that it is queued. */
  function PubrelMessage(id: u16): Message {
    Message(Header(PUBREL, false, 1, false), [2] + Big16(id))
  }

  // ----- Store keys -----------------------------------------------------------------------------

  /** One more than the largest unsigned long. */
  const ULONG: nat := 0x1_0000_0000

  /** add and update get the id through a signed short, so it arrives sign-extended ... */
  function AddKey(id: u16): nat {
    if id <= 32767 then id else ULONG - 0x1_0000 + id
  }

  /** ... delete gets it through an unsigned short. */
  function DelKey(id: u16): nat {
    id
  }

  function IdOfKey(key: nat): u16 {
    key % 0x1_0000
  }

  // ----- The queue ------------------------------------------------------------------------------

  predicate HasId(q: seq<Entry>, id: u16) {
    exists i :: 0 <= i < |q| && q[i].id == id
  }

  predicate DistinctIds(q: seq<Entry>) {
    forall i, j :: 0 <= i < j < |q| ==> q[i].id != q[j].id
  }

  /** All entries but the last. */
  function Front(q: seq<Entry>): seq<Entry>
    requires q != []
  {
    q[..|q| - 1]
  }

  function Without(q: seq<Entry>, id: u16): seq<Entry> {
    if q == [] then []
    else if q[|q| - 1].id == id then Without(Front(q), id)
    else Without(Front(q), id) + [q[|q| - 1]]
  }

  function Total(q: seq<Entry>): nat {
    if q == [] then 0 else Total(Front(q)) + IPQ_SIZE + q[|q| - 1].data.Size()
  }

  // ----- Operations -----------------------------------------------------------------------------

  function Write(c: Conn, p: Packet, writeOk: bool): (Conn, Rc) {
    if !c.sock then (c, NotSent)
    else if writeOk then (c.(wire := c.wire + [p]), Ok)
    else (c.(sock := false), NotSent)
  }

  function Put(store: Store<nat, Stored>, id: u16, v: Stored, put: PutResult): Store<nat, Stored> {
    if IsRel(v.data) then store.Update(AddKey(id), v, put) else store.Add(AddKey(id), v, put)
  }

  function PacketOf(e: Entry): Packet {
    Packet(e.id, e.data, e.origin)
  }

  /** Whether a message can be queued: the byte cap first, then the store. */
  function Admit(c: Conn, data: Message, init: bool, put: PutResult): Rc {
    if Total(c.q) + data.Size() + IPQ_SIZE > MAX_OUTQ then OutOfMemory
    else if !init && c.attached && put.Refused? then PersistenceFailed
    else Ok
  }

  /** The store with the message in it, unless the message came from there or there is no store. */
  function Persisted(store: Store<nat, Stored>, attached: bool, e: Entry, init: bool, put: PutResult)
    : Store<nat, Stored>
  {
    if !init && attached then Put(store, e.id, Stored(e.data, e.origin), put) else store
  }

  /** The message queued and stored, the entry it replaces gone. */
  function Queued(c: Conn, e: Entry, init: bool, put: PutResult): Conn {
    c.(q := Without(c.q, e.id) + [e], store := Persisted(c.store, c.attached, e, init, put))
  }

  /** mspSendScadaMessage with retryFlag 0: queue, persist, drop the entry it replaces, write. */
  function Send(c: Conn, data: Message, id: u16, origin: nat, init: bool, put: PutResult, writeOk: bool): (Conn, Rc) {
    var e := Entry(id, data, if init then Retrying else InProgress, origin);
    if !IsStored(data) then Write(c, PacketOf(e), writeOk)
    else if !Admit(c, data, init, put).Ok? then (c, Admit(c, data, init, put))
    else Write(Queued(c, e, init, put), PacketOf(e), writeOk)
  }

  /** A publish, subscribe or unsubscribe request whose message could be built: it goes out under the
      next id, and the next id moves on whatever the outcome. */
  function Request(c: Conn, data: Message, origin: nat, put: PutResult, writeOk: bool): (Conn, Rc) {
    var (c1, rc) := Send(c, data, c.nextMsgId, origin, false, put, writeOk);
    (c1.(nextMsgId := NextMsgId(c.nextMsgId)), rc)
  }

  /** Any such request: refused outright on a broken connection; without a message (the builder found the
      queue full or the data too long) only the next id moves on. */
  function ApiRequest(c: Conn, broken: bool, msg: Option<Message>, origin: nat, put: PutResult, writeOk: bool)
    : (Conn, Rc)
  {
    if broken then (c, ConnectionBroken)
    else if msg.None? then (c.(nextMsgId := NextMsgId(c.nextMsgId)), NotBuilt)
    else Request(c, msg.value, origin, put, writeOk)
  }

  function NextMsgId(id: u16): u16 {
    if id == MAX_MSGS then 1 else id + 1
  }

  /** A PUBREC arrived. */
  function OnPubrec(c: Conn, id: u16, origin: nat, put: PutResult, writeOk: bool): (Conn, Rc) {
    Send(c, PubrelMessage(id), id, origin, false, put, writeOk)
  }

  /** A PUBACK, PUBCOMP, SUBACK or UNSUBACK arrived; the store's answer is ignored. */
  function OnAck(c: Conn, id: u16, del: DelResult): Conn {
    c.(q := Without(c.q, id),
       store := if c.attached then c.store.Delete(DelKey(id), del) else c.store)
  }

  /** What mspSendGetStatusResponse answers for a message handle. */
  datatype MsgStatus = HandleError | Delivered | Pending(status: Status)

  function StatusOf(q: seq<Entry>, handle: int): (r: MsgStatus)
    ensures r.Delivered? <==> 0 < handle <= MAX_MSGS && !HasId(q, handle)
    ensures r.HandleError? <==> !(0 < handle <= MAX_MSGS)
    ensures r.Pending? ==> exists i :: 0 <= i < |q| && q[i].id == handle && q[i].status == r.status
  {
    if !(0 < handle <= MAX_MSGS) then HandleError
    else if q == [] then Delivered
    else if q[|q| - 1].id == handle then Pending(q[|q| - 1].status)
    else
      assert forall i :: 0 <= i < |q| - 1 ==> q[i] == Front(q)[i];
      StatusOf(Front(q), handle)
  }

  /** What one retry pass makes of an entry: sent again with DUP, or only marked for next time. */
  function Retried(e: Entry): Entry {
    if e.status.Retrying? then e.(data := WithDup(e.data)) else e.(status := Retrying)
  }

  function RetryStep(c: Conn, i: nat, writeOk: bool): Conn
    requires i < |c.q|
  {
    var e := Retried(c.q[i]);
    var c1 := c.(q := c.q[i := e]);
    if c.q[i].status.Retrying? then Write(c1, PacketOf(e), writeOk).0 else c1
  }

  /** The retry pass over the entries from position i on; `writes[i]` is the socket's answer. */
  function RetryFrom(c: Conn, i: nat, writes: seq<bool>): Conn
    requires i <= |c.q| == |writes|
    decreases |c.q| - i
  {
    if i == |c.q| then c else RetryFrom(RetryStep(c, i, writes[i]), i + 1, writes)
  }

  function Retry(c: Conn, writes: seq<bool>): Conn
    requires |writes| == |c.q|
  {
    RetryFrom(c, 0, writes)
  }

  /** Reload at connect: nothing is in memory and the socket is closed. */
  function Fresh(c: Conn): Conn {
    c.(q := [], sock := false, nextMsgId := 0)
  }

  function ReloadStep(c: Conn, key: nat, v: Stored): Conn {
    var c1 := if key > c.nextMsgId then c.(nextMsgId := IdOfKey(key)) else c;
    Send(c1, v.data, IdOfKey(key), v.origin, true, Written, false).0
  }

  /** The reload loop from message i on. */
  function ReloadFrom(c: Conn, msgs: seq<(nat, Stored)>, i: nat): Conn
    requires i <= |msgs|
    decreases |msgs| - i
  {
    if i == |msgs| then c else ReloadFrom(ReloadStep(c, msgs[i].0, msgs[i].1), msgs, i + 1)
  }

  /** Connect: reload the store's messages in the order it lists them, then step the id. */
  function Reload(c: Conn, msgs: seq<(nat, Stored)>): Conn {
    var c1 := ReloadFrom(Fresh(c), msgs, 0);
    c1.(nextMsgId := NextMsgId(c1.nextMsgId))
  }
}
