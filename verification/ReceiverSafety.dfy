/** Receiver safety: with a store attached and a broker that sets DUP on every copy but the first and
    reuses an id only after the flow for it has ended, no acknowledged message is lost, a released QoS 2
    message is never taken or unreleased again, and it is delivered twice only after a deletion that
    failed and a restart, over every run with duplicates, lost connections, failures of every store call
    and restarts (MQTT V3.1 section 4.1, OASIS MQTT 3.1.1 section 4.3.3). */
module ReceiverSafety {
  import opened Bytes
  import opened Wrappers
  import opened SentStores
  import opened Links
  import opened Inbound
  import opened InboundFacts
  import opened InboundRecovery
  import opened ReceiverProtocol
  import opened ReceiverData
  import opened WireIds

  /** The application took message u and acknowledged it to the library: whether the store could delete
      it, and after how many restarts that was. */
  datatype Delivery = Delivery(u: nat, deleted: bool, epoch: nat)

  /** `acks[..read]` have reached the broker or were lost; `completed` are the messages whose flow the
      broker has ended; `epoch` counts the restarts. */
  datatype RSys = RSys(
    c: InConn, ids: seq<u16>, lvl: seq<twobit>, inflight: map<u16, Flight>,
    down: seq<Down>, read: nat, delivered: seq<Delivery>, completed: set<nat>, epoch: nat)

  /** Every way the system moves. A crash inside a call leaves what a failing store call, `SetButFailed`
      or a failing socket write leaves; `Restarted` follows. */
  datatype RAction =
    | Send(id: u16, buf: seq<byte>)
    | Resend(id: u16)
    | ReadAck
    | Arrive(add: bool, upd: UpdResult, ok: bool)
    | Deliver(del: bool)
    | Lost
    | Back
    | Restarted(msgs: seq<(nat, Received)>)

  /** A PUBLISH as the framing hands it over, with this wire id if it decodes. */
  predicate BufOk(buf: seq<byte>, id: u16) {
    Framed(buf) && var p := Parse(Flagged(buf), 0); p.Some? && p.value.qos > 0 ==> p.value.id == id
  }

  /** The broker uses a free id for a message with QoS above 0 and does not set DUP on the first copy;
      receive ids do not wrap; the store lists what it holds. */
  predicate REnabled(s: RSys, a: RAction) {
    match a
    case Send(id, buf) => s.c.sock && BufOk(buf, id) && !Dup(buf) && (Level(buf) > 0 ==> id !in s.inflight)
    case Resend(id) => s.c.sock && id in s.inflight && s.inflight[id].buf != []
    case ReadAck => s.read < |s.c.acks|
    case Arrive(_, _, _) => s.down != [] && (s.down[0].Copy? ==> s.down[0].buf != []) && s.c.nextRcvId < MAX_RCVID
    case Deliver(_) => FirstReady(s.c.q, 0) < |s.c.q|
    case Restarted(msgs) => Lists(msgs, s.c.rcvd) && forall i :: 0 <= i < |msgs| ==> msgs[i].1.bytes != []
    case _ => true
  }

  /** A closed socket loses what is on the link. */
  function Cut(s: RSys): RSys {
    if s.c.sock then s else s.(down := [], read := |s.c.acks|)
  }

  /** What a broker makes of the bytes of an acknowledgement; the stamp is the model's. */
  function AckOf(buf: seq<byte>, origin: nat): Option<Ack>
    requires buf != []
  {
    match IdRead(buf, 0)
    case None => None
    case Some(id) =>
      if buf[0] / 16 == 0x4 then Some(Ack(Puback, id, origin))
      else if buf[0] / 16 == 0x5 then Some(Ack(Pubrec, id, origin))
      else if buf[0] / 16 == 0x7 then Some(Ack(Pubcomp, id, origin))
      else None
  }

  lemma {:induction false} AckReadBack(a: Ack)
    ensures AckOf(AckBytes(a), a.origin) == Some(a)
  {
    IdReadBack(AckBytes(a)[0], a.id, 0);
  }

  /** An acknowledgement as the broker reads it. */
  function Heard(a: Ack): (b: Ack)
    ensures b == a
  {
    AckReadBack(a);
    AckOf(AckBytes(a), a.origin).value
  }

  /** The id of a release as the client reads it. */
  function ReleaseId(id: u16): (read: u16)
    ensures read == id
  {
    IdReadBack(0x62, id, 0);
    IdRead([0x62, 2] + Big16(id), 0).value
  }

  /** The broker reads an acknowledgement; it knows only its kind and id. */
  function BrokerReads(s: RSys, a: Ack): RSys {
    if a.id !in s.inflight || s.inflight[a.id].buf == [] then s
    else
      var f, two := s.inflight[a.id], Level(s.inflight[a.id].buf) == 2;
      match a.kind
      case Puback => if Level(f.buf) == 1 then s.(inflight := s.inflight - {a.id}) else s
      case Pubrec =>
        if two && !f.released then
          s.(inflight := s.inflight[a.id := f.(released := true)], down := s.down + [Rel(a.id, f.u)])
        else s
      case Pubcomp =>
        if two && f.released then s.(inflight := s.inflight - {a.id}, completed := s.completed + {f.u}) else s
  }

  function Arrived(s: RSys, add: bool, upd: UpdResult, ok: bool): RSys
    requires s.down != [] && (s.down[0].Copy? ==> s.down[0].buf != [])
  {
    var c1 := match s.down[0]
              case Copy(_, buf, u) => OnPublish(s.c, buf, 0, u, add, ok)
              case Rel(id, u) => OnPubrel(s.c, ReleaseId(id), u, upd, ok);
    s.(c := c1, down := s.down[1..])
  }

  function RStep(s: RSys, a: RAction): RSys
    requires REnabled(s, a)
  {
    match a
    case Send(id, buf) =>
      s.(ids := s.ids + [id], lvl := s.lvl + [Level(buf)],
         inflight := if Level(buf) > 0 then s.inflight[id := Flight(|s.ids|, buf, false)] else s.inflight,
         down := s.down + [Copy(id, buf, |s.ids|)])
    case Resend(id) =>
      var f := s.inflight[id];
      s.(down := s.down + [if f.released then Rel(id, f.u) else Copy(id, WithDupByte(f.buf), f.u)])
    case ReadAck => BrokerReads(s.(read := s.read + 1), Heard(s.c.acks[s.read]))
    case Arrive(add, upd, ok) => Cut(Arrived(s, add, upd, ok))
    case Deliver(del) =>
      var e := s.c.q[FirstReady(s.c.q, 0)];
      s.(c := Accept(s.c, e.rcvId, del), delivered := s.delivered + [Delivery(e.origin, del, s.epoch)])
    case Lost => Cut(s.(c := s.c.(sock := false)))
    case Back => s.(c := s.c.(sock := true), down := [], read := |s.c.acks|)
    case Restarted(msgs) =>
      s.(c := ReloadFrom(Fresh(s.c), msgs, 0).0, down := [], read := |s.c.acks|, epoch := s.epoch + 1)
  }

  function RStart(): RSys {
    RSys(InConn([], map[], true, map[], false, [], 0, 0), [], [], map[], [], 0, [], {}, 0)
  }

  ghost predicate RReaches(s: RSys, run: seq<RAction>, t: RSys)
    decreases |run|
  {
    if run == [] then s == t
    else REnabled(s, run[0]) && RReaches(RStep(s, run[0]), run[1..], t)
  }

  // ----- What the client's data means to the protocol -------------------------------------------

  /** The delivered messages that the flow concerns. */
  ghost function DoneOf(lvl: seq<twobit>, delivered: seq<Delivery>): set<nat> {
    set i | 0 <= i < |delivered| && delivered[i].u < |lvl| && lvl[delivered[i].u] > 0 :: delivered[i].u
  }

  ghost function Done(s: RSys): set<nat> {
    DoneOf(s.lvl, s.delivered)
  }

  ghost function CtxOf(s: RSys): Ctx {
    Ctx(s.ids, s.lvl, s.inflight, HeldIn(s.c) + Done(s), PastIn(s.c) + Done(s), ReleasedIn(s.c) + Done(s),
      WaitingIn(s.c))
  }

  /** A stored message is one the broker sent. */
  predicate FromBroker(ids: seq<u16>, lvl: seq<twobit>, v: Received) {
    Sane(v) && v.origin < |ids| == |lvl| && lvl[v.origin] == PubOf(v).qos && ids[v.origin] == PubOf(v).id
  }

  predicate Two(lvl: seq<twobit>, u: nat) {
    u < |lvl| && lvl[u] == 2
  }

  /** Stored messages come from the broker, and a QoS 2 message is stored under one key. */
  ghost predicate StoreOk(rcvd: map<nat, Received>, ids: seq<u16>, lvl: seq<twobit>) {
    && |ids| == |lvl|
    && (forall k :: k in rcvd ==> FromBroker(ids, lvl, rcvd[k]))
    && (forall k, l :: k in rcvd && l in rcvd && k != l && rcvd[k].origin == rcvd[l].origin ==>
        !Two(lvl, rcvd[k].origin))
  }

  /** A QoS 2 message that was delivered is stored only if no deletion of it succeeded, and then as
      released ... */
  predicate StoredAfter(lvl: seq<twobit>, v: Received, d: Delivery) {
    v.origin == d.u && Two(lvl, d.u) ==> !d.deleted && LeftOver(v)
  }

  /** ... it is queued only after a restart ... */
  predicate QueuedAfter(lvl: seq<twobit>, e: Rpq, d: Delivery, epoch: nat) {
    e.origin == d.u && Two(lvl, d.u) ==> d.epoch < epoch && e.pub.flag == RELEASED
  }

  /** ... and delivered again only after both. */
  predicate DeliveredAfter(lvl: seq<twobit>, d: Delivery, e: Delivery) {
    d.u == e.u && Two(lvl, d.u) ==> !d.deleted && d.epoch < e.epoch
  }

  predicate InStore(rcvd: map<nat, Received>, u: nat) {
    exists k :: k in rcvd && rcvd[k].origin == u
  }

  predicate WasDeleted(delivered: seq<Delivery>, u: nat) {
    exists j :: 0 <= j < |delivered| && delivered[j].u == u && delivered[j].deleted
  }

  ghost predicate DeliveredOk(q: seq<Rpq>, rcvd: map<nat, Received>, lvl: seq<twobit>, delivered: seq<Delivery>,
                              epoch: nat)
  {
    && (forall i {:trigger delivered[i]} :: 0 <= i < |delivered| ==>
          delivered[i].u < |lvl| && delivered[i].epoch <= epoch)
    && (forall k, i :: k in rcvd && 0 <= i < |delivered| ==> StoredAfter(lvl, rcvd[k], delivered[i]))
    && (forall k, i :: 0 <= k < |q| && 0 <= i < |delivered| ==> QueuedAfter(lvl, q[k], delivered[i], epoch))
    && (forall i, j :: 0 <= i < j < |delivered| ==> DeliveredAfter(lvl, delivered[i], delivered[j]))
    && (forall i {:trigger delivered[i]} :: 0 <= i < |delivered| && Two(lvl, delivered[i].u) ==>
        KeptOrDeleted(rcvd, delivered, delivered[i].u))
    && (forall k :: k in rcvd ==> HasRcv(q, k) || rcvd[k].origin in DoneOf(lvl, delivered))
  }

  predicate KeptOrDeleted(rcvd: map<nat, Received>, delivered: seq<Delivery>, u: nat) {
    InStore(rcvd, u) || WasDeleted(delivered, u)
  }

  ghost predicate DataOk(s: RSys) {
    && InSound(s.c) && StoreOk(s.c.rcvd, s.ids, s.lvl)
    && DeliveredOk(s.c.q, s.c.rcvd, s.lvl, s.delivered, s.epoch)
  }

  /** The queue entries' stamps are those of the stored messages; QoS 0 entries are from the broker. */
  ghost predicate QueueFrom(s: RSys) {
    StampsOk(s.c.q, s.ids, s.lvl)
  }

  ghost predicate StampsOk(q: seq<Rpq>, ids: seq<u16>, lvl: seq<twobit>) {
    forall i {:trigger q[i]} :: 0 <= i < |q| ==> q[i].origin < |ids| == |lvl| && lvl[q[i].origin] == q[i].pub.qos
  }

  ghost predicate BufsOk(s: RSys) {
    && (forall w :: w in s.inflight ==> BufOk(s.inflight[w].buf, w))
    && (forall i {:trigger s.down[i]} :: 0 <= i < |s.down| && s.down[i].Copy? ==> BufOk(s.down[i].buf, s.down[i].id))
  }

  ghost predicate AcksOk(x: Ctx, acks: seq<Ack>) {
    forall i {:trigger acks[i]} :: 0 <= i < |acks| ==> AckOk(x, acks[i])
  }

  /** Everything but the link. */
  ghost predicate StateOk(s: RSys) {
    && DataOk(s) && QueueFrom(s) && BufsOk(s) && s.read <= |s.c.acks|
    && AcksOk(CtxOf(s), s.c.acks) && s.completed <= CtxOf(s).released
  }

  ghost predicate RInv(s: RSys) {
    StateOk(s) && LinkOk(CtxOf(s), s.c.acks[s.read..], s.down)
  }

  // ----- What the invariant says about messages -------------------------------------------------

  lemma {:induction false} ReleasedPast(s: RSys)
    requires DataOk(s)
    ensures var x := CtxOf(s); x.released <= x.past <= x.held && Done(s) <= x.released
  {
    hide InSound, StoreOk, DeliveredOk, DoneOf;
    ReleasedIsPast(s.c);
  }

  /** A message that waits is not released. */
  lemma {:induction false} WaitingUnreleased(s: RSys)
    requires DataOk(s) && QueueFrom(s)
    ensures forall w :: w in CtxOf(s).waiting ==> CtxOf(s).waiting[w] !in CtxOf(s).released
  {
    hide HashOk, InOrder, AllHashed, InCovers, Parse, Framed, WaitingIn, StoreOk, DeliveredOk, DoneOf;
    forall w | w in WaitingIn(s.c) ensures WaitingIn(s.c)[w] !in ReleasedIn(s.c) + Done(s) {
      WaitingKeys(s.c);
      var k := WaitingEntry(s.c, w);
      OnlyEntry(s, k);
      QueuedDone(s, k);
    }
  }

  /** A QoS 2 message has one entry. */
  lemma {:induction false} OnlyEntry(s: RSys, k: nat)
    requires DataOk(s) && QueueFrom(s) && k < |s.c.q| && s.c.q[k].pub.qos == 2
    ensures Two(s.lvl, s.c.q[k].origin)
    ensures forall i :: 0 <= i < |s.c.q| && s.c.q[i].origin == s.c.q[k].origin ==> i == k
  {
    hide HashOk, InOrder, AllHashed, InCovers, Parse, Framed, DeliveredOk, KeysOk, FromBroker;
    var c, e := s.c, s.c.q[k];
    assert Holds(e, c.rcvd[e.rcvId]);
    assert IdOk(c.attached, c.nextRcvId, e);
    assert e.origin < |s.lvl| && s.lvl[e.origin] == 2;
    forall i | 0 <= i < |c.q| && i != k ensures c.q[i].origin != e.origin {
      if c.q[i].pub.qos == 2 {
        assert Holds(c.q[i], c.rcvd[c.q[i].rcvId]);
        assert c.q[i].rcvId != e.rcvId;
      }
    }
  }

  /** A QoS 2 message that waits has not been delivered. */
  lemma {:induction false} QueuedDone(s: RSys, k: nat)
    requires DataOk(s) && k < |s.c.q| && s.c.q[k].pub.flag != RELEASED && Two(s.lvl, s.c.q[k].origin)
    ensures s.c.q[k].origin !in Done(s)
  {
    hide InSound, StoreOk, KeptOrDeleted;
    forall i | 0 <= i < |s.delivered| ensures s.delivered[i].u != s.c.q[k].origin {
      assert QueuedAfter(s.lvl, s.c.q[k], s.delivered[i], s.epoch);
    }
  }

  /** A message in the store that was not delivered has an entry. */
  lemma {:induction false} HeldEntry(s: RSys, u: nat) returns (i: nat)
    requires DataOk(s) && u in HeldIn(s.c) && u !in Done(s)
    ensures i < |s.c.q| && s.c.q[i].origin == u && s.c.q[i].pub.qos > 0 && FlagOk(s.c.q[i].pub)
    ensures u < |s.lvl| && s.lvl[u] == s.c.q[i].pub.qos && s.ids[u] == s.c.q[i].pub.id
  {
    hide HashOk, InOrder, AllHashed, Parse, Framed, KeptOrDeleted, StoredAfter, QueuedAfter, DeliveredAfter;
    var k :| k in s.c.rcvd && s.c.rcvd[k].origin == u;
    i := EntryOf(s.c, k);
    assert FromBroker(s.ids, s.lvl, s.c.rcvd[k]);
    assert FlagOk(s.c.q[i].pub);
  }

  /** A message that is held but not released waits under its id. */
  lemma {:induction false} HeldWaits(s: RSys, u: nat)
    requires DataOk(s) && u in CtxOf(s).held && u !in CtxOf(s).released && u < |s.lvl| && s.lvl[u] == 2
    ensures s.ids[u] in s.c.hash && s.ids[u] in CtxOf(s).waiting && CtxOf(s).waiting[s.ids[u]] == u
  {
    hide HashOk, InOrder, InBacked, InCovers, WaitingIn, Parse, Framed, StoreOk, DeliveredOk, DoneOf;
    ReleasedPast(s);
    var i := HeldEntry(s, u);
    WaitingAt(s.c, i);
    WaitingKeys(s.c);
  }

  // ----- The link is cut ------------------------------------------------------------------------

  lemma {:induction false} CutOk(s: RSys)
    requires StateOk(s) && CtxOk(CtxOf(s))
    ensures RInv(s.(down := [], read := |s.c.acks|))
  {
    hide InSound, HeldIn, PastIn, ReleasedIn, WaitingIn, CtxOk;
    var t := s.(down := [], read := |s.c.acks|);
    assert CtxOf(t) == CtxOf(s);
    assert t.c.acks[t.read..] == [];
    NothingOnLink(CtxOf(s));
  }

  lemma {:induction false} CutStep(s: RSys)
    requires RInv(s)
    ensures RInv(Cut(s)) && RInv(s.(down := [], read := |s.c.acks|))
  {
    hide StateOk, CtxOk;
    CutOk(s);
  }

  // ----- Steps of the broker --------------------------------------------------------------------

  lemma {:induction false} SendCtx(s: RSys, id: u16, buf: seq<byte>)
    requires DataOk(s) && REnabled(s, Send(id, buf)) && buf != []
    ensures CtxOf(RStep(s, Send(id, buf))) == Grown(CtxOf(s), id, buf)
  {
    hide InSound, StoreOk, HeldIn, PastIn, ReleasedIn, WaitingIn;
    DoneGrows(s.lvl, Level(buf), s.delivered);
  }

  lemma {:induction false} DoneGrows(lvl: seq<twobit>, l: twobit, delivered: seq<Delivery>)
    requires forall i {:trigger delivered[i]} :: 0 <= i < |delivered| ==> delivered[i].u < |lvl|
    ensures DoneOf(lvl + [l], delivered) == DoneOf(lvl, delivered)
  {
  }

  /** Numbering a new message changes nothing for the old ones. */
  lemma {:induction false} DeliveredGrows(q: seq<Rpq>, rcvd: map<nat, Received>, ids: seq<u16>, id: u16,
                                          lvl: seq<twobit>, l: twobit, delivered: seq<Delivery>, epoch: nat)
    requires DeliveredOk(q, rcvd, lvl, delivered, epoch) && StoreOk(rcvd, ids, lvl) && StampsOk(q, ids, lvl)
    ensures DeliveredOk(q, rcvd, lvl + [l], delivered, epoch) && StoreOk(rcvd, ids + [id], lvl + [l])
    ensures StampsOk(q, ids + [id], lvl + [l])
  {
    hide HasRcv, InStore, WasDeleted, Sane, PubOf, LeftOver;
    DoneGrows(lvl, l, delivered);
    var m := lvl + [l];
    forall k | k in rcvd
      ensures FromBroker(ids + [id], m, rcvd[k]) && Two(m, rcvd[k].origin) == Two(lvl, rcvd[k].origin)
    {
      assert FromBroker(ids, lvl, rcvd[k]);
    }
    forall k, i | k in rcvd && 0 <= i < |delivered| ensures StoredAfter(m, rcvd[k], delivered[i]) {
      assert StoredAfter(lvl, rcvd[k], delivered[i]);
    }
    forall k, i | 0 <= k < |q| && 0 <= i < |delivered| ensures QueuedAfter(m, q[k], delivered[i], epoch) {
      assert QueuedAfter(lvl, q[k], delivered[i], epoch);
    }
    forall i, j | 0 <= i < j < |delivered| ensures DeliveredAfter(m, delivered[i], delivered[j]) {
      assert DeliveredAfter(lvl, delivered[i], delivered[j]);
    }
  }

  lemma {:induction false} SendData(s: RSys, id: u16, buf: seq<byte>)
    requires DataOk(s) && QueueFrom(s) && BufsOk(s) && REnabled(s, Send(id, buf)) && buf != []
    ensures var t := RStep(s, Send(id, buf)); DataOk(t) && QueueFrom(t) && BufsOk(t)
  {
    hide InSound, StoreOk, DeliveredOk, StampsOk, BufOk, Level, Dup;
    var t := RStep(s, Send(id, buf));
    DeliveredGrows(s.c.q, s.c.rcvd, s.ids, id, s.lvl, Level(buf), s.delivered, s.epoch);
    forall i | 0 <= i < |t.down| && t.down[i].Copy? ensures BufOk(t.down[i].buf, t.down[i].id) {
      if i < |s.down| { assert t.down[i] == s.down[i]; }
    }
  }

  lemma {:induction false} SendStep(s: RSys, id: u16, buf: seq<byte>)
    requires RInv(s) && REnabled(s, Send(id, buf)) && buf != []
    ensures RInv(RStep(s, Send(id, buf)))
  {
    var t, x := RStep(s, Send(id, buf)), CtxOf(s);
    hide DataOk, QueueFrom, BufsOk, BufOk, CtxOf, LinkOk, CtxOk, AckOk;
    LinkCtx(x, s.c.acks[s.read..], s.down);
    SendCtx(s, id, buf);
    SendData(s, id, buf);
    FirstCopy(x, s.c.acks[s.read..], s.down, id, buf);
    CtxIds(s);
    forall i | 0 <= i < |t.c.acks| ensures AckOk(CtxOf(t), t.c.acks[i]) { GrownAck(x, id, buf, t.c.acks[i]); }
  }

  /** The parts of the context that are the broker's. */
  lemma {:induction false} CtxIds(s: RSys)
    ensures var x := CtxOf(s); x.ids == s.ids && x.lvl == s.lvl && x.inflight == s.inflight
  {
  }

  lemma {:induction false} CtxSame(s: RSys, t: RSys)
    requires t.c == s.c && t.ids == s.ids && t.lvl == s.lvl && t.inflight == s.inflight
    requires t.delivered == s.delivered && t.epoch == s.epoch
    ensures CtxOf(t) == CtxOf(s) && (DataOk(s) ==> DataOk(t)) && (QueueFrom(s) ==> QueueFrom(t))
  {
    hide InSound, StoreOk, DeliveredOk, DoneOf, StampsOk, HeldIn, PastIn, ReleasedIn, WaitingIn;
  }

  lemma {:induction false} LinkCtx(x: Ctx, up: seq<Ack>, down: seq<Down>)
    requires LinkOk(x, up, down)
    ensures CtxOk(x)
  {
  }

  lemma {:induction false} DupCopy(buf: seq<byte>, w: u16)
    requires BufOk(buf, w) && buf != []
    ensures BufOk(WithDupByte(buf), w) && Dup(WithDupByte(buf)) && Level(WithDupByte(buf)) == Level(buf)
  {
    hide Parse, Framed;
    var h := ParseHeader(buf[0]);
    HeaderRoundTrip(h.(dup := true), 0);
    FramedLong(buf);
    assert Flagged(WithDupByte(buf)) == WithDupByte(Flagged(buf));
    ParseFlag(buf, 0, 0, 0);
    ParseFlag(buf, RELEASED, 0, 0);
    ParseDup(Flagged(buf), 0);
    ParseDup(buf, 0);
  }

  lemma {:induction false} FramedLong(buf: seq<byte>)
    requires Framed(buf)
    ensures |buf| >= 3
  {
  }

  lemma {:induction false} BufsAppend(s: RSys, t: RSys, p: Down)
    requires BufsOk(s) && t.down == s.down + [p] && (p.Copy? ==> BufOk(p.buf, p.id))
    requires forall w :: w in t.inflight ==> w in s.inflight && t.inflight[w].buf == s.inflight[w].buf
    ensures BufsOk(t)
  {
    hide BufOk;
    forall i | 0 <= i < |t.down| && t.down[i].Copy? ensures BufOk(t.down[i].buf, t.down[i].id) {
      if i < |s.down| { assert t.down[i] == s.down[i]; }
    }
  }

  lemma {:induction false} BufsTail(s: RSys)
    requires BufsOk(s) && s.down != []
    ensures BufsOk(s.(down := s.down[1..])) && (s.down[0].Copy? ==> BufOk(s.down[0].buf, s.down[0].id))
  {
    hide BufOk;
    forall i | 0 <= i < |s.down[1..]| && s.down[1..][i].Copy? ensures BufOk(s.down[1..][i].buf, s.down[1..][i].id) {
      assert s.down[1..][i] == s.down[i + 1];
    }
  }

  lemma {:induction false} FlightBuf(s: RSys, w: u16)
    requires BufsOk(s) && w in s.inflight
    ensures BufOk(s.inflight[w].buf, w) && s.inflight[w].buf != []
  {
  }

  lemma {:induction false} ResendStep(s: RSys, id: u16)
    requires RInv(s) && REnabled(s, Resend(id))
    ensures RInv(RStep(s, Resend(id)))
  {
    var t, x, f := RStep(s, Resend(id)), CtxOf(s), s.inflight[id];
    hide DataOk, QueueFrom, CtxOf, LinkOk, CtxOk, BufOk, AcksOk, BufsOk;
    CtxIds(s);
    CtxSame(s, t);
    FlightBuf(s, id);
    if f.released {
      SendRelease(x, s.c.acks[s.read..], s.down, id);
      BufsAppend(s, t, Rel(id, f.u));
    } else {
      DupCopy(f.buf, id);
      NextCopy(x, s.c.acks[s.read..], s.down, id, WithDupByte(f.buf));
      BufsAppend(s, t, Copy(id, WithDupByte(f.buf), f.u));
    }
  }

  lemma {:induction false} AcksSame(x: Ctx, y: Ctx, acks: seq<Ack>)
    requires AcksOk(x, acks) && y.ids == x.ids && y.lvl == x.lvl && x.held <= y.held && x.released <= y.released
    ensures AcksOk(y, acks)
  {
    forall i | 0 <= i < |acks| ensures AckOk(y, acks[i]) { assert AckOk(x, acks[i]); }
  }

  /** The context after a change to what is in flight. */
  lemma {:induction false} CtxFlight(s: RSys, t: RSys)
    requires t == s.(inflight := t.inflight, down := t.down, read := t.read, completed := t.completed)
    ensures CtxOf(t) == CtxOf(s).(inflight := t.inflight) && (DataOk(s) ==> DataOk(t))
            && (QueueFrom(s) ==> QueueFrom(t))
  {
    hide DataOk, QueueFrom, HeldIn, PastIn, ReleasedIn, WaitingIn, CtxOf;
    var m := t.(inflight := s.inflight);
    CtxSame(s, m);
    FlightOnly(m, t.inflight);
  }

  lemma {:induction false} FlightOnly(s: RSys, inflight: map<u16, Flight>)
    ensures var t := s.(inflight := inflight);
      CtxOf(t) == CtxOf(s).(inflight := inflight) && (DataOk(s) ==> DataOk(t)) && (QueueFrom(s) ==> QueueFrom(t))
  {
    hide InSound, StoreOk, DeliveredOk, DoneOf, StampsOk, HeldIn, PastIn, ReleasedIn, WaitingIn;
  }

  /** The broker reads the acknowledgement a off the link. */
  lemma {:induction false} AckRead(s: RSys) returns (a: Ack)
    requires RInv(s) && s.read < |s.c.acks|
    ensures a == s.c.acks[s.read] && UpAckOk(CtxOf(s), a)
    ensures var up := s.c.acks[s.read + 1..];
      && LinkOk(CtxOf(s), up, s.down)
      && (forall i :: 0 <= i < |up| ==> AckPrecedes(a, up[i]))
      && (forall j :: 0 <= j < |s.down| && s.down[j].id == a.id && Numbered(CtxOf(s), s.down[j]) ==>
          a.origin <= s.down[j].origin)
  {
    hide StateOk, CtxOf, LinkOk, UpAckOk, AckPrecedes;
    var up := s.c.acks[s.read..];
    a := up[0];
    assert up[1..] == s.c.acks[s.read + 1..];
    PopUp(CtxOf(s), up, s.down);
  }

  function Marking(s: RSys, w: u16): RSys
    requires w in s.inflight
  {
    var f := s.inflight[w];
    s.(read := s.read + 1, inflight := s.inflight[w := f.(released := true)], down := s.down + [Rel(w, f.u)])
  }

  lemma {:induction false} PubrecRead(s: RSys, a: Ack)
    requires RInv(s) && s.read < |s.c.acks| && a == s.c.acks[s.read] && a.kind.Pubrec?
    requires a.id in s.inflight
    ensures RInv(Marking(s, a.id))
  {
    hide DataOk, QueueFrom, CtxOf, LinkOk, CtxOk, BufsOk, BufOk, AcksOk, AckPrecedes, PktOk, UpAckOk, FlightOk,
      Numbered, Precedes;
    var t, x, w := Marking(s, a.id), CtxOf(s), a.id;
    var up := s.c.acks[s.read + 1..];
    var b := AckRead(s);
    CtxIds(s);
    LinkCtx(x, up, s.down);
    CtxFlight(s, t);
    MarkedLink(x, up, s.down, a);
    SendRelease(Marked(x, w), up, s.down, w);
    BufsAppend(s, t, Rel(w, s.inflight[w].u));
    AcksSame(x, CtxOf(t), t.c.acks);
  }

  lemma {:induction false} FreedRead(s: RSys, a: Ack, completed: set<nat>)
    requires RInv(s) && s.read < |s.c.acks| && completed <= CtxOf(s).released
    requires Freeable(CtxOf(s), s.c.acks[s.read + 1..], s.down, a.id)
    ensures RInv(s.(read := s.read + 1, inflight := s.inflight - {a.id}, completed := completed))
  {
    var t, x := s.(read := s.read + 1, inflight := s.inflight - {a.id}, completed := completed), CtxOf(s);
    hide DataOk, QueueFrom, CtxOf, LinkOk, BufsOk, BufOk, AcksOk, Freeable;
    var b := AckRead(s);
    CtxIds(s);
    CtxFlight(s, t);
    FreedLink(x, s.c.acks[s.read + 1..], s.down, a.id);
    AcksSame(x, CtxOf(t), t.c.acks);
    BufsLess(s, t);
  }

  lemma {:induction false} BufsLess(s: RSys, t: RSys)
    requires BufsOk(s) && t.down == s.down
    requires forall w :: w in t.inflight ==> w in s.inflight && t.inflight[w] == s.inflight[w]
    ensures BufsOk(t)
  {
    hide BufOk;
  }

  lemma {:induction false} IgnoredRead(s: RSys)
    requires RInv(s) && s.read < |s.c.acks|
    ensures RInv(s.(read := s.read + 1))
  {
    var t := s.(read := s.read + 1);
    hide DataOk, QueueFrom, CtxOf, LinkOk, BufsOk, AcksOk;
    var b := AckRead(s);
    CtxSame(s, t);
    BufsLess(s, t);
  }

  lemma {:induction false} ReadAckStep(s: RSys)
    requires RInv(s) && REnabled(s, ReadAck)
    ensures RInv(RStep(s, ReadAck))
  {
    hide RInv, LinkOk, CtxOk, AckPrecedes, Freeable, WaitOk, CtxOf, DataOk, QueueFrom, Done, Numbered;
    InvData(s);
    var x, a, up := CtxOf(s), s.c.acks[s.read], s.c.acks[s.read + 1..];
    var b := AckRead(s);
    CtxIds(s);
    if a.id in s.inflight && s.inflight[a.id].buf != [] {
      FlightLevel(s, up, a.id);
      var f, two := s.inflight[a.id], Level(s.inflight[a.id].buf) == 2;
      if a.kind.Pubrec? && two && !f.released {
        PubrecRead(s, a);
      } else if a.kind.Puback? && Level(f.buf) == 1 {
        AckFrees(x, up, s.down, a.id);
        FreedRead(s, a, s.completed);
      } else if a.kind.Pubcomp? && two && f.released {
        ReleasedPast(s);
        WaitingUnreleased(s);
        CompleteFrees(x, up, s.down, a);
        FreedRead(s, a, s.completed + {f.u});
      } else {
        IgnoredRead(s);
      }
    } else {
      IgnoredRead(s);
    }
  }

  lemma {:induction false} InvData(s: RSys)
    requires RInv(s)
    ensures DataOk(s) && QueueFrom(s) && s.completed <= CtxOf(s).released && CtxOk(CtxOf(s))
  {
  }

  lemma {:induction false} FlightLevel(s: RSys, up: seq<Ack>, w: u16)
    requires LinkOk(CtxOf(s), up, s.down) && w in s.inflight
    ensures FlightOk(CtxOf(s), w)
  {
  }

  // ----- Steps of the client --------------------------------------------------------------------

  /** The packet at the head of the link. */
  lemma {:induction false} Head(s: RSys) returns (p: Down)
    requires RInv(s) && s.down != []
    ensures p == s.down[0] && PktOk(CtxOf(s), p) && (p.Copy? ==> BufOk(p.buf, p.id))
    ensures var x, up, rest := CtxOf(s), s.c.acks[s.read..], s.down[1..];
      && LinkOk(x, up, rest) && BufsOk(s.(down := rest)) && CtxOk(x)
      && (Numbered(x, p) ==> forall j :: 0 <= j < |rest| && rest[j].id == p.id && Numbered(x, rest[j]) ==>
          Precedes(p, rest[j]))
      && (Numbered(x, p) ==> forall i :: 0 <= i < |up| && up[i].id == p.id ==> up[i].origin <= p.origin)
  {
    hide DataOk, QueueFrom, BufsOk, AcksOk, CtxOf, LinkOk, CtxOk, BufOk, PktOk, Precedes, Numbered;
    p := s.down[0];
    PopDown(CtxOf(s), s.c.acks[s.read..], s.down);
    LinkCtx(CtxOf(s), s.c.acks[s.read..], s.down);
    BufsTail(s);
  }

  /** Data, views and acknowledgements put together again after the client handled a packet. */
  lemma {:induction false} Assembled(s: RSys, t: RSys, rest: seq<Down>)
    requires RInv(s) && BufsOk(s.(down := rest)) && t == s.(c := t.c, down := rest)
    requires DataOk(t) && QueueFrom(t) && s.read <= |t.c.acks|
    requires LinkOk(CtxOf(t), t.c.acks[s.read..], rest) && AcksOk(CtxOf(t), t.c.acks)
    requires CtxOf(s).released <= CtxOf(t).released
    ensures RInv(t)
  {
    hide DataOk, QueueFrom, CtxOf, LinkOk, AcksOk, BufOk;
  }

  /** Nothing relevant changed. */
  lemma {:induction false} Unchanged(s: RSys, t: RSys, rest: seq<Down>)
    requires RInv(s) && BufsOk(s.(down := rest)) && t == s.(c := t.c, down := rest)
             && LinkOk(CtxOf(s), s.c.acks[s.read..], rest)
    requires InSound(t.c) && SameViews(s.c, t.c) && t.c.rcvd == s.c.rcvd && t.c.acks == s.c.acks && QueueFrom(t)
    requires t.c.q == s.c.q
             || (t.c.q != [] && t.c.q == s.c.q + [t.c.q[|t.c.q| - 1]] && !Two(s.lvl, t.c.q[|t.c.q| - 1].origin))
    ensures RInv(t)
  {
    SoundNow(s);
    SameData(s, t);
    hide DataOk, QueueFrom, CtxOf, LinkOk, AcksOk, BufsOk, InSound, SameViews;
    Assembled(s, t, rest);
  }

  lemma {:induction false} SoundNow(s: RSys)
    requires RInv(s)
    ensures DataOk(s) && InSound(s.c) && QueueFrom(s) && AcksOk(CtxOf(s), s.c.acks) && s.read <= |s.c.acks|
  {
  }

  /** One more entry at the end, of a message that was not delivered. */
  lemma {:induction false} DeliveredAppend(q: seq<Rpq>, e: Rpq, rcvd: map<nat, Received>, lvl: seq<twobit>,
                                           delivered: seq<Delivery>, epoch: nat)
    requires DeliveredOk(q, rcvd, lvl, delivered, epoch) && (Two(lvl, e.origin) ==> e.origin !in DoneOf(lvl, delivered))
    ensures DeliveredOk(q + [e], rcvd, lvl, delivered, epoch)
  {
    hide KeptOrDeleted, StoredAfter, DeliveredAfter, LeftOver;
    forall k, i | 0 <= k < |q + [e]| && 0 <= i < |delivered|
      ensures QueuedAfter(lvl, (q + [e])[k], delivered[i], epoch)
    {
      if k < |q| { assert QueuedAfter(lvl, q[k], delivered[i], epoch); }
    }
    forall k | k in rcvd && HasRcv(q, k) ensures HasRcv(q + [e], k) { StillQueued(q, e, k); }
  }

  lemma {:induction false} SameData(s: RSys, t: RSys)
    requires DataOk(s) && InSound(t.c) && SameViews(s.c, t.c) && t.c.rcvd == s.c.rcvd
    requires t == s.(c := t.c, down := t.down)
    requires t.c.q == s.c.q
             || (t.c.q != [] && t.c.q == s.c.q + [t.c.q[|t.c.q| - 1]] && !Two(s.lvl, t.c.q[|t.c.q| - 1].origin))
    ensures DataOk(t) && CtxOf(t) == CtxOf(s)
  {
    hide InSound, StoreOk, DeliveredOk, DoneOf, HeldIn, PastIn, ReleasedIn, WaitingIn;
    if t.c.q != s.c.q {
      DeliveredAppend(s.c.q, t.c.q[|t.c.q| - 1], s.c.rcvd, s.lvl, s.delivered, s.epoch);
    }
  }

  /** A decoded copy at the head of the link. */
  predicate DecodesTo(s: RSys, p: Down, pub: Pub) {
    && p.Copy? && p.buf != [] && BufOk(p.buf, p.id) && Framed(Flagged(p.buf)) && Parse(Flagged(p.buf), 0) == Some(pub)
    && FlagOk(pub) && (pub.qos == 2 <==> Indexed(pub)) && pub.qos == Level(p.buf) && (pub.qos > 0 ==> pub.id == p.id)
    && pub.dup == Dup(p.buf) && pub.qos <= 2
  }

  lemma {:induction false} DecodedHead(s: RSys, p: Down)
    requires p.Copy? && p.buf != [] && BufOk(p.buf, p.id) && Parse(Flagged(p.buf), 0).Some?
    ensures DecodesTo(s, p, Parse(Flagged(p.buf), 0).value)
  {
    FramedLong(p.buf);
    hide Framed;
    ParseFlag(p.buf, if Level(p.buf) == 2 then 0 else RELEASED, 0, 0);
    FlaggedOk(p.buf, 0);
    ParsedFlag(Flagged(p.buf), 0);
    ParsedDup(Flagged(p.buf));
    assert Flagged(p.buf)[0] == p.buf[0];
  }

  lemma {:induction false} ParsedDup(buf: seq<byte>)
    requires buf != [] && Parse(buf, 0).Some?
    ensures Parse(buf, 0).value.dup == ParseHeader(buf[0]).dup
  {
  }

  /** A copy that is not dropped belongs to a message the client does not hold, and nothing waits under
      its id. */
  lemma {:induction false} NotHeld(s: RSys, p: Down, pub: Pub)
    requires DataOk(s) && QueueFrom(s) && CtxOk(CtxOf(s)) && PktOk(CtxOf(s), p) && Numbered(CtxOf(s), p)
    requires DecodesTo(s, p, pub) && !IsDuplicate(s.c, pub)
    ensures p.id !in s.c.hash && (s.lvl[p.origin] == 2 ==> p.origin !in CtxOf(s).held)
  {
    NotHeldTwo(s, p, pub);
    NothingWaits(s, p, pub);
  }

  lemma {:induction false} NotHeldTwo(s: RSys, p: Down, pub: Pub)
    requires DataOk(s) && PktOk(CtxOf(s), p) && DecodesTo(s, p, pub) && !IsDuplicate(s.c, pub)
    ensures s.lvl[p.origin] == 2 ==> p.origin !in CtxOf(s).held
  {
    var x, u := CtxOf(s), p.origin;
    CtxIds(s);
    ReleasedPast(s);
    hide CtxOf, DataOk, Framed, Parse, BufOk, Level, Dup, Recent;
    if x.lvl[u] == 2 && u in x.held {
      HeldWaits(s, u);
      assert false;
    }
  }

  lemma {:induction false} NothingWaits(s: RSys, p: Down, pub: Pub)
    requires DataOk(s) && CtxOk(CtxOf(s)) && PktOk(CtxOf(s), p) && Numbered(CtxOf(s), p) && DecodesTo(s, p, pub)
    requires s.lvl[p.origin] == 2 ==> p.origin !in CtxOf(s).held
    ensures p.id !in s.c.hash
  {
    var x := CtxOf(s);
    CtxIds(s);
    hide CtxOf, DataOk, Framed, Parse, BufOk, Level, Dup, DecodesTo, FlightOk, IsDuplicate;
    assert forall w :: w in x.waiting ==> WaitOk(x, w);
    if p.id in s.c.hash {
      HashWaits(s, p.id);
      assert false;
    }
  }

  lemma {:induction false} HashWaits(s: RSys, w: u16)
    requires DataOk(s) && w in s.c.hash
    ensures w in CtxOf(s).waiting
  {
    hide InBacked, InCovers, AllHashed, WaitingIn, InInv;
    WaitingKeys(s.c);
  }

  /** The new message is stored: data. */
  lemma {:induction false} StoredData(s: RSys, t: RSys, p: Down, pub: Pub, key: nat, e: Rpq)
    requires DataOk(s) && DecodesTo(s, p, pub) && pub.qos > 0 && p.origin < |s.ids| && s.ids[p.origin] == p.id
             && s.lvl[p.origin] == pub.qos
    requires pub.qos == 2 ==> p.origin !in CtxOf(s).held
    requires t == s.(c := t.c, down := t.down) && InSound(t.c)
    requires key !in s.c.rcvd && t.c.rcvd == s.c.rcvd[key := Received(Flagged(p.buf), p.origin)]
    requires t.c.q == s.c.q + [e] && e.rcvId == key && e.pub == pub && e.origin == p.origin
    ensures DataOk(t)
  {
    var v := Received(Flagged(p.buf), p.origin);
    hide InSound, PastIn, ReleasedIn, WaitingIn, Parse, Framed, StoreOk, DeliveredOk, DecodesTo, FromBroker;
    SoundIs(s);
    assert InStore(s.c.rcvd, p.origin) ==> p.origin in HeldIn(s.c);
    DecodedFrom(s, p, pub);
    StoreAdds(s.c.rcvd, s.ids, s.lvl, key, v);
    DeliveredAdds(s.c.q, e, s.c.rcvd, s.lvl, s.delivered, s.epoch, v);
  }

  lemma {:induction false} DecodedFrom(s: RSys, p: Down, pub: Pub)
    requires DecodesTo(s, p, pub) && pub.qos > 0 && p.origin < |s.ids| == |s.lvl| && s.ids[p.origin] == p.id
    requires s.lvl[p.origin] == pub.qos
    ensures FromBroker(s.ids, s.lvl, Received(Flagged(p.buf), p.origin))
  {
    hide Parse, Framed, Flagged;
    DecodedId(s, p, pub);
  }

  /** A new key for a message that is not stored. */
  lemma {:induction false} StoreAdds(rcvd: map<nat, Received>, ids: seq<u16>, lvl: seq<twobit>, key: nat, v: Received)
    requires StoreOk(rcvd, ids, lvl) && key !in rcvd && FromBroker(ids, lvl, v)
    requires Two(lvl, v.origin) ==> !InStore(rcvd, v.origin)
    ensures StoreOk(rcvd[key := v], ids, lvl)
  {
    hide FromBroker;
    forall k | k in rcvd && rcvd[k].origin == v.origin ensures !Two(lvl, v.origin) { assert InStore(rcvd, v.origin); }
  }

  lemma {:induction false} DeliveredAdds(q: seq<Rpq>, e: Rpq, rcvd: map<nat, Received>, lvl: seq<twobit>,
                                         delivered: seq<Delivery>, epoch: nat, v: Received)
    requires DeliveredOk(q, rcvd, lvl, delivered, epoch) && e.pub.qos > 0 && v.origin == e.origin
    requires e.rcvId !in rcvd && (Two(lvl, e.origin) ==> e.origin !in DoneOf(lvl, delivered))
    ensures DeliveredOk(q + [e], rcvd[e.rcvId := v], lvl, delivered, epoch)
  {
    DeliveredAppend(q, e, rcvd, lvl, delivered, epoch);
    hide DeliveredAfter, QueuedAfter, LeftOver, WasDeleted;
    var r := rcvd[e.rcvId := v];
    assert (q + [e])[|q|] == e && HasRcv(q + [e], e.rcvId);
    forall k, i | k in r && 0 <= i < |delivered| ensures StoredAfter(lvl, r[k], delivered[i]) {
      if k != e.rcvId { assert StoredAfter(lvl, rcvd[k], delivered[i]); }
    }
    forall i | 0 <= i < |delivered| && Two(lvl, delivered[i].u) ensures KeptOrDeleted(r, delivered, delivered[i].u) {
      assert KeptOrDeleted(rcvd, delivered, delivered[i].u);
      if k :| k in rcvd && rcvd[k].origin == delivered[i].u { assert r[k].origin == delivered[i].u; }
    }
  }

  lemma {:induction false} StoredCtx(s: RSys, t: RSys, p: Down, pub: Pub)
    requires t == s.(c := t.c, down := t.down) && p.origin < |s.lvl| && s.lvl[p.origin] == pub.qos && 0 < pub.qos <= 2
    requires FlagOk(pub) && (pub.qos == 2 <==> Indexed(pub)) && p.id == pub.id
    requires var gone := if pub.flag == RELEASED then {p.origin} else {};
      && HeldIn(t.c) == HeldIn(s.c) + {p.origin} && PastIn(t.c) == PastIn(s.c) + gone
        && ReleasedIn(t.c) == ReleasedIn(s.c) + gone
      && WaitingIn(t.c) == if Indexed(pub) then WaitingIn(s.c)[pub.id := p.origin] else WaitingIn(s.c)
    ensures CtxOf(t) == StoredIn(CtxOf(s), p.id, p.origin)
  {
    hide HeldIn, PastIn, ReleasedIn, WaitingIn, DoneOf;
    var x, y, u := CtxOf(s), CtxOf(t), p.origin;
    assert y.held == x.held + {u};
    if pub.qos == 2 {
      assert PastIn(t.c) == PastIn(s.c) && ReleasedIn(t.c) == ReleasedIn(s.c);
      assert y.past == x.past && y.released == x.released;
    } else {
      assert pub.flag == RELEASED;
      assert y.past == x.past + {u} && y.released == x.released + {u};
    }
  }

  lemma {:induction false} QueueAppended(s: RSys, t: RSys, e: Rpq)
    requires QueueFrom(s) && t == s.(c := t.c, down := t.down) && (t.c.q == s.c.q || t.c.q == s.c.q + [e])
    requires e.origin < |s.ids| == |s.lvl| && s.lvl[e.origin] == e.pub.qos
    ensures QueueFrom(t)
  {
    forall i | 0 <= i < |t.c.q| ensures t.c.q[i].origin < |t.ids| && t.lvl[t.c.q[i].origin] == t.c.q[i].pub.qos {
      if i < |s.c.q| { assert t.c.q[i] == s.c.q[i]; }
    }
  }

  /** What Take adds to the acknowledgements. */
  lemma {:induction false} TakeAcks(c: InConn, bytes: seq<byte>, p: Pub, u: nat, add: bool, ok: bool)
    ensures var d := Take(c, bytes, p, u, add, ok);
      && d.q == (if Persisted(c, p) && !add then c.q else c.q + [NewEntry(c, p, u)])
      && (d.acks == c.acks ||
          (p.qos > 0 && (c.attached ==> add)
            && d.acks == c.acks + [Ack(if p.qos == 2 then Pubrec else Puback, p.id, u)]))
  {
  }

  /** The acknowledgements after a packet was handled: as before, or one more. */
  lemma {:induction false} AcksNow(s: RSys, t: RSys, y: Ctx, a: Ack, rest: seq<Down>)
    requires SoundParts(s) && y.ids == s.ids && y.lvl == s.lvl && CtxOf(s).held <= y.held
             && CtxOf(s).released <= y.released
    requires t.c.acks == s.c.acks || t.c.acks == s.c.acks + [a]
    requires LinkOk(y, s.c.acks[s.read..], rest)
    requires t.c.acks != s.c.acks ==> LinkOk(y, s.c.acks[s.read..] + [a], rest)
    ensures s.read <= |t.c.acks| && LinkOk(y, t.c.acks[s.read..], rest) && AcksOk(y, t.c.acks)
  {
    hide CtxOk, DownOk, Cross, AckOk;
    CtxIds(s);
    AcksSame(CtxOf(s), y, s.c.acks);
    if t.c.acks != s.c.acks {
      var up := s.c.acks[s.read..] + [a];
      assert t.c.acks[s.read..] == up;
      assert up[|up| - 1] == a && UpAckOk(y, a);
      forall i | 0 <= i < |t.c.acks| ensures AckOk(y, t.c.acks[i]) {
        if i < |s.c.acks| { assert t.c.acks[i] == s.c.acks[i]; }
      }
    }
  }

  ghost predicate SoundParts(s: RSys) {
    DataOk(s) && QueueFrom(s) && AcksOk(CtxOf(s), s.c.acks) && s.read <= |s.c.acks|
  }

  /** A copy's message number is known. */
  lemma {:induction false} KnownPkt(x: Ctx, p: Down)
    requires PktOk(x, p)
    ensures p.origin < |x.ids| == |x.lvl| && x.ids[p.origin] == p.id
    ensures p.Copy? ==> p.buf != [] && x.lvl[p.origin] == Level(p.buf)
    ensures p.Rel? ==> x.lvl[p.origin] == 2 && p.origin in x.held && Numbered(x, p)
  {
  }

  /** A copy arrives and its message is stored. */
  lemma {:induction false} StoredStep(s: RSys, t: RSys, pub: Pub, key: nat)
    requires RInv(s) && s.down != [] && DecodesTo(s, s.down[0], pub) && pub.qos > 0
    requires var p := s.down[0];
      && p.origin < |s.lvl| == |s.ids| && s.lvl[p.origin] == pub.qos && s.ids[p.origin] == p.id
      && (pub.qos == 2 ==> p.origin !in CtxOf(s).held)
      && t == s.(c := t.c, down := s.down[1..]) && InSound(t.c) && QueueFrom(t)
      && key !in s.c.rcvd && t.c.rcvd == s.c.rcvd[key := Received(Flagged(p.buf), p.origin)]
      && t.c.q == s.c.q + [Rpq(pub, key, s.c.arrivals, p.origin)]
      && CtxOf(t) == StoredIn(CtxOf(s), p.id, p.origin)
      && (t.c.acks == s.c.acks
          || t.c.acks == s.c.acks + [Ack(if pub.qos == 2 then Pubrec else Puback, pub.id, p.origin)])
    ensures RInv(t)
  {
    var x, rest := CtxOf(s), s.down[1..];
    var p := Head(s);
    SoundNow(s);
    CtxIds(s);
    ReleasedPast(s);
    StoredData(s, t, p, pub, key, Rpq(pub, key, s.c.arrivals, p.origin));
    DecodedId(s, p, pub);
    var a := Ack(if pub.qos == 2 then Pubrec else Puback, p.id, p.origin);
    assert Numbered(x, p);
    hide RInv, LinkOk, PktOk, CtxOf, DecodesTo, DataOk, QueueFrom, AcksOk, Precedes, Numbered, InSound, BufsOk;
    StoredLink(x, s.c.acks[s.read..], rest, p);
    if t.c.acks != s.c.acks {
      AcknowledgeLink(x, s.c.acks[s.read..], rest, p, a.kind);
    }
    AcksNow(s, t, CtxOf(t), a, rest);
    Assembled(s, t, rest);
  }

  lemma {:induction false} DecodedId(s: RSys, p: Down, pub: Pub)
    requires DecodesTo(s, p, pub)
    ensures p.buf != [] && pub.qos == Level(p.buf) && (pub.qos > 0 ==> pub.id == p.id) && FlagOk(pub) && pub.qos <= 2
    ensures pub.qos == 2 <==> Indexed(pub)
    ensures Flagged(p.buf) != [] && Framed(Flagged(p.buf)) && Parse(Flagged(p.buf), 0) == Some(pub)
  {
  }

  /** A copy at the head of the link that is not dropped. */
  ghost predicate Takes(s: RSys, p: Down, pub: Pub) {
    && s.down != [] && p == s.down[0] && p.Copy? && p.buf != []
    && DecodesTo(s, p, pub) && !IsDuplicate(s.c, pub) && s.c.nextRcvId < MAX_RCVID
  }

  function AfterTake(s: RSys, p: Down, pub: Pub, add: bool, ok: bool): RSys
    requires s.down != [] && p.Copy? && p.buf != []
  {
    s.(c := Take(s.c, Flagged(p.buf), pub, p.origin, add, ok), down := s.down[1..])
  }

  /** What is known of it. */
  lemma {:induction false} TakeFacts(s: RSys, p: Down, pub: Pub)
    requires RInv(s) && Takes(s, p, pub)
    ensures InSound(s.c) && s.c.attached && FlagOk(pub) && pub.qos <= 2 && (pub.qos == 2 <==> Indexed(pub))
    ensures p.origin < |s.ids| == |s.lvl| && s.ids[p.origin] == p.id && s.lvl[p.origin] == pub.qos
    ensures pub.qos > 0 ==> p.id == pub.id && p.id !in s.c.hash && (pub.qos == 2 ==> p.origin !in CtxOf(s).held)
  {
    hide RInv, LinkOk, CtxOf, DataOk, QueueFrom, AcksOk, InSound, BufsOk, DecodesTo, IsDuplicate, CtxOk, Precedes;
    var q := Head(s);
    SoundNow(s);
    SoundIs(s);
    CtxIds(s);
    DecodedId(s, p, pub);
    KnownPkt(CtxOf(s), p);
    if pub.qos > 0 { NotHeld(s, p, pub); }
  }

  /** A copy arrives and is taken. */
  lemma {:induction false} TakenStep(s: RSys, p: Down, pub: Pub, add: bool, ok: bool)
    requires RInv(s) && Takes(s, p, pub)
    ensures RInv(AfterTake(s, p, pub, add, ok))
  {
    hide RInv, CtxOf, DataOk, QueueFrom, InSound, DecodesTo, IsDuplicate, Take, Parse, Framed, Flagged;
    var t, bytes := AfterTake(s, p, pub, add, ok), Flagged(p.buf);
    TakeFacts(s, p, pub);
    DecodedId(s, p, pub);
    TakeEffect(s.c, bytes, pub, p.origin, add, ok);
    TakeAcks(s.c, bytes, pub, p.origin, add, ok);
    SoundNow(s);
    QueueAppended(s, t, NewEntry(s.c, pub, p.origin));
    if pub.qos > 0 && add {
      hide HeldIn, PastIn, ReleasedIn, WaitingIn;
      StoredCtx(s, t, p, pub);
      StoredStep(s, t, pub, s.c.nextRcvId + 1);
    } else {
      hide SameViews;
      PassedOver(s, t);
    }
  }

  /** Nothing of it concerns the flow. */
  lemma {:induction false} PassedOver(s: RSys, t: RSys)
    requires RInv(s) && s.down != [] && t == s.(c := t.c, down := s.down[1..])
    requires InSound(t.c) && SameViews(s.c, t.c) && t.c.rcvd == s.c.rcvd && t.c.acks == s.c.acks && QueueFrom(t)
    requires t.c.q == s.c.q
             || (t.c.q != [] && t.c.q == s.c.q + [t.c.q[|t.c.q| - 1]] && !Two(s.lvl, t.c.q[|t.c.q| - 1].origin))
    ensures RInv(t)
  {
    hide RInv, CtxOf, QueueFrom, InSound, SameViews, LinkOk, Precedes, Numbered;
    var p := Head(s);
    Unchanged(s, t, s.down[1..]);
  }

  lemma {:induction false} SoundIs(s: RSys)
    requires DataOk(s)
    ensures InSound(s.c) && s.c.attached && |s.ids| == |s.lvl|
  {
  }

  /** A copy arrives. */
  lemma {:induction false} CopyStep(s: RSys, add: bool, ok: bool)
    requires RInv(s) && s.down != [] && s.down[0].Copy? && s.down[0].buf != [] && s.c.nextRcvId < MAX_RCVID
    ensures var p := s.down[0]; RInv(s.(c := OnPublish(s.c, p.buf, 0, p.origin, add, ok), down := s.down[1..]))
  {
    var p := Head(s);
    SoundNow(s);
    hide RInv, LinkOk, PktOk, CtxOf, DataOk, AcksOk, Precedes, Numbered, InSound, BufsOk, Take, Parse, Framed, Flagged,
      BufOk;
    if Parse(Flagged(p.buf), 0).Some? {
      var pub := Parse(Flagged(p.buf), 0).value;
      DecodedHead(s, p);
      if !IsDuplicate(s.c, pub) {
        TakenStep(s, p, pub, add, ok);
      } else {
        PassedOver(s, s.(down := s.down[1..]));
      }
    } else {
      PassedOver(s, s.(down := s.down[1..]));
    }
  }

  // ----- A release arrives ----------------------------------------------------------------------

  lemma {:induction false} ReleasedData(s: RSys, t: RSys)
    requires DataOk(s) && QueueFrom(s) && t == s.(c := t.c, down := t.down) && InSound(t.c)
    requires t.c.rcvd.Keys == s.c.rcvd.Keys && forall k :: k in s.c.rcvd ==> SameMessage(s.c.rcvd[k], t.c.rcvd[k])
    requires Grows(s.c.q, t.c.q) && |t.c.q| == |s.c.q|
    ensures DataOk(t) && QueueFrom(t)
  {
    hide InSound, StoreOk, DeliveredOk, Grows, SameMessage;
    StoreReleased(s.c.rcvd, t.c.rcvd, s.ids, s.lvl);
    DeliveredReleased(s.c.q, t.c.q, s.c.rcvd, t.c.rcvd, s.lvl, s.delivered, s.epoch);
    StampsReleased(s.c.q, t.c.q, s.ids, s.lvl);
  }

  lemma {:induction false} StoreReleased(rcvd: map<nat, Received>, r: map<nat, Received>, ids: seq<u16>,
                                         lvl: seq<twobit>)
    requires StoreOk(rcvd, ids, lvl) && r.Keys == rcvd.Keys && forall k :: k in rcvd ==> SameMessage(rcvd[k], r[k])
    ensures StoreOk(r, ids, lvl)
  {
    hide Sane, PubOf, LeftOver;
    forall k | k in r ensures FromBroker(ids, lvl, r[k]) && r[k].origin == rcvd[k].origin {
      assert FromBroker(ids, lvl, rcvd[k]) && SameMessage(rcvd[k], r[k]);
    }
  }

  lemma {:induction false} DeliveredReleased(q: seq<Rpq>, q1: seq<Rpq>, rcvd: map<nat, Received>, r: map<nat, Received>,
                                             lvl: seq<twobit>, delivered: seq<Delivery>, epoch: nat)
    requires DeliveredOk(q, rcvd, lvl, delivered, epoch) && Grows(q, q1) && |q1| == |q|
    requires r.Keys == rcvd.Keys && forall k :: k in rcvd ==> SameMessage(rcvd[k], r[k])
    ensures DeliveredOk(q1, r, lvl, delivered, epoch)
  {
    hide Sane, PubOf, LeftOver, WasDeleted, DeliveredAfter, DoneOf;
    forall k, i | k in r && 0 <= i < |delivered| ensures StoredAfter(lvl, r[k], delivered[i]) {
      assert StoredAfter(lvl, rcvd[k], delivered[i]) && SameMessage(rcvd[k], r[k]);
    }
    forall k, i | 0 <= k < |q1| && 0 <= i < |delivered| ensures QueuedAfter(lvl, q1[k], delivered[i], epoch) {
      assert QueuedAfter(lvl, q[k], delivered[i], epoch);
    }
    forall i | 0 <= i < |delivered| && Two(lvl, delivered[i].u) ensures KeptOrDeleted(r, delivered, delivered[i].u) {
      assert KeptOrDeleted(rcvd, delivered, delivered[i].u);
      if k :| k in rcvd && rcvd[k].origin == delivered[i].u { assert SameMessage(rcvd[k], r[k]); }
    }
    forall k | k in r ensures HasRcv(q1, k) || r[k].origin in DoneOf(lvl, delivered) {
      assert SameMessage(rcvd[k], r[k]);
      if i :| 0 <= i < |q| && q[i].rcvId == k && q[i].pub.qos > 0 { assert q1[i].rcvId == k && q1[i].pub.qos > 0; }
    }
  }

  lemma {:induction false} StampsReleased(q: seq<Rpq>, q1: seq<Rpq>, ids: seq<u16>, lvl: seq<twobit>)
    requires StampsOk(q, ids, lvl) && Grows(q, q1) && |q1| == |q|
    ensures StampsOk(q1, ids, lvl)
  {
    forall i | 0 <= i < |q1| ensures q1[i].origin < |ids| == |lvl| && lvl[q1[i].origin] == q1[i].pub.qos {
      assert q1[i] == q[i] || q1[i] == WithFlag(q[i], RELEASED);
    }
  }

  /** What the release does to the context. */
  function ReleaseCtx(x: Ctx, id: u16, u: nat, upd: UpdResult): Ctx {
    if upd.NotSet? then x else if upd.SetButFailed? then PassedOn(x, u) else Let(PassedOn(x, u), {id}, {u})
  }

  lemma {:induction false} ReleasedCtx(s: RSys, t: RSys, id: u16, u: nat, upd: UpdResult)
    requires t == s.(c := t.c, down := t.down) && HeldIn(t.c) == HeldIn(s.c)
    requires PastIn(t.c) == PastIn(s.c) + (if upd.NotSet? then {} else {u})
    requires ReleasedIn(t.c) == ReleasedIn(s.c) + (if upd.Set? then {u} else {})
    requires WaitingIn(t.c) == if upd.Set? then WaitingIn(s.c) - {id} else WaitingIn(s.c)
    ensures CtxOf(t) == ReleaseCtx(CtxOf(s), id, u, upd)
  {
    hide HeldIn, PastIn, ReleasedIn, WaitingIn, DoneOf;
    var x, y := CtxOf(s), CtxOf(t);
    assert y.past == if upd.NotSet? then x.past else x.past + {u};
    assert y.released == if upd.Set? then x.released + {u} else x.released;
  }

  lemma {:induction false} ReleaseLink(x: Ctx, up: seq<Ack>, rest: seq<Down>, p: Down, upd: UpdResult)
    requires LinkOk(x, up, rest) && p.Rel? && PktOk(x, p) && Numbered(x, p)
    requires forall j :: 0 <= j < |rest| && rest[j].id == p.id && Numbered(x, rest[j]) ==> Precedes(p, rest[j])
    requires forall i :: 0 <= i < |up| && up[i].id == p.id ==> up[i].origin <= p.origin
    ensures var y := ReleaseCtx(x, p.id, p.origin, upd);
      LinkOk(y, up, rest) && (upd.Set? ==> LinkOk(y, up + [Ack(Pubcomp, p.id, p.origin)], rest))
  {
    hide LinkOk, Precedes;
    if upd.NotSet? { return; }
    PassedLink(x, up, rest, p);
    var z := PassedOn(x, p.origin);
    if upd.Set? {
      LetLink(z, up, rest, {p.id}, {p.origin});
      PassedPkt(x, p);
      CompleteLink(Let(z, {p.id}, {p.origin}), up, rest, p);
    }
  }

  lemma {:induction false} PassedPkt(x: Ctx, p: Down)
    requires p.Rel? && PktOk(x, p)
    ensures PktOk(Let(PassedOn(x, p.origin), {p.id}, {p.origin}), p)
    ensures forall r: Down :: Numbered(Let(PassedOn(x, p.origin), {p.id}, {p.origin}), r) <==> Numbered(x, r)
  {
  }

  /** What OnPubrel adds to the acknowledgements, and that it only raises flags. */
  lemma {:induction false} PubrelAcks(c: InConn, id: u16, u: nat, upd: UpdResult, ok: bool)
    requires c.attached
    ensures var d := OnPubrel(c, id, u, upd, ok);
      && Grows(c.q, d.q) && |d.q| == |c.q|
      && (d.acks == c.acks || d.acks == c.acks + [Ack(Pubcomp, id, u)])
      && (id in c.hash && PlaceOf(c.q, c.hash[id], 0) < |c.q| && !upd.Set? ==> d.acks == c.acks)
  {
  }

  lemma {:induction false} RelStep(s: RSys, upd: UpdResult, ok: bool)
    requires RInv(s) && s.down != [] && s.down[0].Rel?
    ensures var p := s.down[0]; RInv(s.(c := OnPubrel(s.c, p.id, p.origin, upd, ok), down := s.down[1..]))
  {
    var p := Head(s);
    SoundNow(s);
    CtxIds(s);
    KnownPkt(CtxOf(s), p);
    SoundIs(s);
    var x, up, rest := CtxOf(s), s.c.acks[s.read..], s.down[1..];
    var t := s.(c := OnPubrel(s.c, p.id, p.origin, upd, ok), down := rest);
    var a := Ack(Pubcomp, p.id, p.origin);
    PubrelEffect(s.c, p.id, p.origin, upd, ok);
    PubrelAcks(s.c, p.id, p.origin, upd, ok);
    if p.id in s.c.hash {
      HashPlaced(s, p);
      hide RInv, LinkOk, PktOk, CtxOf, DataOk, QueueFrom, AcksOk, Precedes, Numbered, InSound, BufsOk, OnPubrel;
      ReleasedData(s, t);
      ReleasedCtx(s, t, p.id, p.origin, upd);
      ReleaseLink(x, up, rest, p, upd);
      AcksNow(s, t, CtxOf(t), a, rest);
      Assembled(s, t, rest);
    } else {
      UnhashedReleased(s, p);
      hide RInv, LinkOk, PktOk, CtxOf, DataOk, QueueFrom, AcksOk, Precedes, Numbered, InSound, BufsOk, OnPubrel;
      ReleasedData(s, t);
      SameData(s, t);
      CompleteLink(x, up, rest, p);
      AcksNow(s, t, x, a, rest);
      Assembled(s, t, rest);
    }
  }

  /** The entry waiting under the id of a release is the message it releases. */
  lemma {:induction false} HashPlaced(s: RSys, p: Down)
    requires DataOk(s) && p.Rel? && PktOk(CtxOf(s), p) && p.id in s.c.hash
    ensures p.id in WaitingIn(s.c) && WaitingIn(s.c)[p.id] == p.origin && PlaceOf(s.c.q, s.c.hash[p.id], 0) < |s.c.q|
  {
    hide InBacked, InCovers, AllHashed, WaitingIn;
    var k := WaitingEntry(s.c, p.id);
  }

  /** If nothing waits under the id of a release, the message is released already. */
  lemma {:induction false} UnhashedReleased(s: RSys, p: Down)
    requires DataOk(s) && p.Rel? && PktOk(CtxOf(s), p) && p.id !in s.c.hash
    ensures p.origin in CtxOf(s).released
  {
    CtxIds(s);
    hide DataOk, CtxOf;
    if p.origin !in CtxOf(s).released {
      HeldWaits(s, p.origin);
      assert false;
    }
  }

  // ----- Delivery and restart -------------------------------------------------------------------

  /** Delivering the first ready publication: data. */
  lemma {:induction false} DeliveredData(s: RSys, t: RSys, k: nat, del: bool)
    requires DataOk(s) && QueueFrom(s) && k < |s.c.q|
    requires t == s.(c := t.c, delivered := s.delivered + [Delivery(s.c.q[k].origin, del, s.epoch)])
    requires var e := s.c.q[k];
      && InSound(t.c) && t.c.q == Drop(s.c.q, k) && t.c.rcvd == Deleted(s.c.rcvd, e, del) && e.pub.flag == RELEASED
      && (e.pub.qos > 0 ==> e.rcvId in s.c.rcvd && s.c.rcvd[e.rcvId].origin == e.origin && LeftOver(s.c.rcvd[e.rcvId]))
    ensures DataOk(t) && QueueFrom(t)
  {
    hide InSound, DeliveredOk, StoreOk, LeftOver, Drop;
    var e := s.c.q[k];
    StoreLess(s.c.rcvd, t.c.rcvd, s.ids, s.lvl);
    StampsDrop(s.c.q, k, s.ids, s.lvl);
    if s.lvl[e.origin] == 2 {
      OnlyEntry(s, k);
      OnlyKey(s.c.rcvd, s.ids, s.lvl, e.rcvId);
    }
    SoundQueued(s.c);
    DeliveredOnce(s.c.q, k, s.c.rcvd, s.lvl, s.delivered, s.epoch, del);
  }

  lemma {:induction false} StoreLess(rcvd: map<nat, Received>, r: map<nat, Received>, ids: seq<u16>, lvl: seq<twobit>)
    requires StoreOk(rcvd, ids, lvl) && forall k :: k in r ==> k in rcvd && r[k] == rcvd[k]
    ensures StoreOk(r, ids, lvl)
  {
    hide FromBroker;
  }

  lemma {:induction false} OnlyKey(rcvd: map<nat, Received>, ids: seq<u16>, lvl: seq<twobit>, key: nat)
    requires StoreOk(rcvd, ids, lvl) && key in rcvd && Two(lvl, rcvd[key].origin)
    ensures forall k :: k in rcvd && rcvd[k].origin == rcvd[key].origin ==> k == key
  {
    hide FromBroker;
  }

  lemma {:induction false} StampsDrop(q: seq<Rpq>, k: nat, ids: seq<u16>, lvl: seq<twobit>)
    requires StampsOk(q, ids, lvl) && k < |q|
    ensures StampsOk(Drop(q, k), ids, lvl) && q[k].origin < |lvl| && lvl[q[k].origin] == q[k].pub.qos
  {
    forall i | 0 <= i < |Drop(q, k)|
      ensures Drop(q, k)[i].origin < |ids| == |lvl| && lvl[Drop(q, k)[i].origin] == Drop(q, k)[i].pub.qos
    {
      DropFrom(q, k, i);
    }
  }

  /** Receive ids of QoS 1 and 2 entries tell them apart. */
  lemma {:induction false} SoundQueued(c: InConn)
    requires InSound(c)
    ensures forall i, j :: 0 <= i < j < |c.q| && c.q[i].pub.qos > 0 ==> c.q[i].rcvId != c.q[j].rcvId
  {
    hide InBacked, InCovers, AllHashed, HashOk, InOrder;
    forall i, j | 0 <= i < j < |c.q| && c.q[i].pub.qos > 0 ensures c.q[i].rcvId != c.q[j].rcvId {
      assert IdOk(c.attached, c.nextRcvId, c.q[i]);
    }
  }

  lemma {:induction false} DeliveredOnce(q: seq<Rpq>, k: nat, rcvd: map<nat, Received>, lvl: seq<twobit>,
                                         delivered: seq<Delivery>, epoch: nat, del: bool)
    requires DeliveredOk(q, rcvd, lvl, delivered, epoch) && k < |q| && q[k].origin < |lvl|
             && lvl[q[k].origin] == q[k].pub.qos
    requires q[k].pub.qos > 0 ==>
               q[k].rcvId in rcvd && rcvd[q[k].rcvId].origin == q[k].origin && LeftOver(rcvd[q[k].rcvId])
    requires Two(lvl, q[k].origin) ==>
               && (forall i :: 0 <= i < |q| && q[i].origin == q[k].origin ==> i == k)
               && (forall l :: l in rcvd && rcvd[l].origin == q[k].origin ==> l == q[k].rcvId)
    requires forall i, j :: 0 <= i < j < |q| && q[i].pub.qos > 0 ==> q[i].rcvId != q[j].rcvId
    ensures DeliveredOk(Drop(q, k), Deleted(rcvd, q[k], del), lvl,
                        delivered + [Delivery(q[k].origin, del, epoch)], epoch)
  {
    hide LeftOver, KeptOrDeleted;
    var e, n := q[k], |delivered|;
    var d := Delivery(e.origin, del, epoch);
    var r, ds, dq := Deleted(rcvd, e, del), delivered + [d], Drop(q, k);
    forall l, i | l in r && 0 <= i < |ds| ensures StoredAfter(lvl, r[l], ds[i]) {
      if i < n { assert StoredAfter(lvl, rcvd[l], delivered[i]); }
    }
    forall j, i | 0 <= j < |dq| && 0 <= i < |ds| ensures QueuedAfter(lvl, dq[j], ds[i], epoch) {
      DropFrom(q, k, j);
      if i < n { assert QueuedAfter(lvl, q[if j < k then j else j + 1], delivered[i], epoch); }
    }
    forall i, j | 0 <= i < j < |ds| ensures DeliveredAfter(lvl, ds[i], ds[j]) {
      if j < n {
        assert DeliveredAfter(lvl, delivered[i], delivered[j]);
      } else {
        assert QueuedAfter(lvl, e, delivered[i], epoch);
        if e.pub.qos > 0 { assert StoredAfter(lvl, rcvd[e.rcvId], delivered[i]); }
      }
    }
    forall i | 0 <= i < |ds| && Two(lvl, ds[i].u) ensures KeptOrDeleted(r, ds, ds[i].u) {
      StillKept(rcvd, e, del, delivered, epoch, if i < n then delivered[i].u else e.origin);
    }
    DoneAdds(lvl, delivered, d);
    forall l | l in r ensures HasRcv(dq, l) || r[l].origin in DoneOf(lvl, ds) {
      if HasRcv(q, l) { DropHas(q, k, l); }
    }
  }

  lemma {:induction false} DoneAdds(lvl: seq<twobit>, delivered: seq<Delivery>, d: Delivery)
    requires d.u < |lvl|
    ensures DoneOf(lvl, delivered + [d]) == DoneOf(lvl, delivered) + if lvl[d.u] > 0 then {d.u} else {}
  {
    var ds := delivered + [d];
    assert ds[|delivered|] == d && forall i :: 0 <= i < |delivered| ==> ds[i] == delivered[i];
  }

  /** Every other entry stays. */
  lemma {:induction false} DropHas(q: seq<Rpq>, k: nat, l: nat)
    requires k < |q| && HasRcv(q, l)
    ensures HasRcv(Drop(q, k), l) || (q[k].rcvId == l && q[k].pub.qos > 0)
  {
    var j :| 0 <= j < |q| && q[j].rcvId == l && q[j].pub.qos > 0;
    if j != k { DropSame(q, k, j); }
  }

  lemma {:induction false} StillKept(rcvd: map<nat, Received>, e: Rpq, del: bool, delivered: seq<Delivery>, epoch: nat,
                                     u: nat)
    requires KeptOrDeleted(rcvd, delivered, u) || u == e.origin
    requires e.pub.qos > 0 ==> e.rcvId in rcvd && rcvd[e.rcvId].origin == e.origin
    requires u == e.origin ==> e.pub.qos > 0
    ensures KeptOrDeleted(Deleted(rcvd, e, del), delivered + [Delivery(e.origin, del, epoch)], u)
  {
    var r, ds := Deleted(rcvd, e, del), delivered + [Delivery(e.origin, del, epoch)];
    assert ds[|delivered|] == Delivery(e.origin, del, epoch);
    if u == e.origin {
      if !del { assert r[e.rcvId].origin == u; }
    } else if InStore(rcvd, u) {
      var k :| k in rcvd && rcvd[k].origin == u;
      assert k in r;
    } else {
      var j :| 0 <= j < |delivered| && delivered[j].u == u && delivered[j].deleted;
      assert ds[j] == delivered[j];
    }
  }

  lemma {:induction false} DeliveredCtx(s: RSys, t: RSys, k: nat, del: bool)
    requires DataOk(s) && QueueFrom(s) && k < |s.c.q|
    requires t == s.(c := t.c, delivered := s.delivered + [Delivery(s.c.q[k].origin, del, s.epoch)])
    requires var e := s.c.q[k];
      && HeldIn(t.c) + Taken(e) == HeldIn(s.c) && PastIn(t.c) + Taken(e) == PastIn(s.c)
      && ReleasedIn(t.c) + Taken(e) == ReleasedIn(s.c) && WaitingIn(t.c) == WaitingIn(s.c)
    ensures CtxOf(t) == CtxOf(s)
  {
    hide InSound, HeldIn, PastIn, ReleasedIn, WaitingIn, DataOk, DoneOf;
    var e := s.c.q[k];
    assert e.origin < |s.lvl| && s.lvl[e.origin] == e.pub.qos;
    DoneAdds(s.lvl, s.delivered, Delivery(e.origin, del, s.epoch));
    assert CtxOf(t).held == CtxOf(s).held && CtxOf(t).past == CtxOf(s).past && CtxOf(t).released == CtxOf(s).released;
  }

  lemma {:induction false} DeliverStep(s: RSys, del: bool)
    requires RInv(s) && REnabled(s, Deliver(del))
    ensures RInv(RStep(s, Deliver(del)))
  {
    hide RInv, CtxOf, DataOk, QueueFrom, AcksOk, InSound, HeldIn, PastIn, ReleasedIn, WaitingIn, Drop, Accept,
      LeftOver, Deleted;
    SoundNow(s);
    AcceptEffect(s.c, del);
    var k, t := FirstReady(s.c.q, 0), RStep(s, Deliver(del));
    DeliveredData(s, t, k, del);
    DeliveredCtx(s, t, k, del);
    DeliveredTogether(s, t);
  }

  lemma {:induction false} DeliveredTogether(s: RSys, t: RSys)
    requires RInv(s) && t == s.(c := t.c, delivered := t.delivered) && t.c.acks == s.c.acks
    requires DataOk(t) && QueueFrom(t) && CtxOf(t) == CtxOf(s)
    ensures RInv(t)
  {
    hide CtxOf, DataOk, QueueFrom, AcksOk, LinkOk;
    BufsLess(s, t);
  }

  lemma {:induction false} ReloadedData(s: RSys, t: RSys)
    requires DataOk(s) && t == s.(c := t.c, down := t.down, read := t.read, epoch := s.epoch + 1)
    requires InSound(t.c) && FromStore(t.c) && AllQueued(t.c.q, t.c.rcvd) && t.c.rcvd == s.c.rcvd
    ensures DataOk(t) && QueueFrom(t)
  {
    hide InSound, Sane, PubOf, KeptOrDeleted, DeliveredAfter;
    forall i | 0 <= i < |t.c.q| ensures t.c.q[i].origin < |t.ids| && t.lvl[t.c.q[i].origin] == t.c.q[i].pub.qos {
      assert IsStored(t.c.q[i], t.c.rcvd[t.c.q[i].rcvId]);
      assert FromBroker(s.ids, s.lvl, s.c.rcvd[t.c.q[i].rcvId]);
    }
    forall k, i | 0 <= k < |t.c.q| && 0 <= i < |t.delivered|
      ensures QueuedAfter(t.lvl, t.c.q[k], t.delivered[i], t.epoch)
    {
      assert IsStored(t.c.q[k], t.c.rcvd[t.c.q[k].rcvId]);
      assert StoredAfter(s.lvl, s.c.rcvd[t.c.q[k].rcvId], s.delivered[i]);
    }
  }

  lemma {:induction false} ReloadedCtx(s: RSys, t: RSys, ids: set<u16>)
    requires DataOk(s) && t == s.(c := t.c, down := t.down, read := t.read, epoch := t.epoch)
    requires HeldIn(t.c) == HeldIn(s.c) && PastIn(t.c) == PastIn(s.c) && ReleasedIn(t.c) == PastIn(s.c)
    requires WaitingIn(t.c) == WaitingIn(s.c) - ids
    ensures CtxOf(t) == Let(CtxOf(s), ids, CtxOf(s).past)
  {
    ReleasedPast(s);
    hide InSound, HeldIn, PastIn, ReleasedIn, WaitingIn, DataOk, DoneOf;
    assert CtxOf(t).released == CtxOf(s).released + CtxOf(s).past;
  }

  lemma {:induction false} RestartedStep(s: RSys, msgs: seq<(nat, Received)>)
    requires RInv(s) && REnabled(s, Restarted(msgs))
    ensures RInv(RStep(s, Restarted(msgs)))
  {
    hide RInv, LinkOk, CtxOf, CtxOk, DataOk, QueueFrom, AcksOk, InSound, HeldIn, PastIn, ReleasedIn, WaitingIn,
      ReloadFrom, Lists;
    SoundNow(s);
    ReloadEffect(s.c, msgs);
    InvData(s);
    var x, t := CtxOf(s), RStep(s, Restarted(msgs));
    var ids := WaitingIn(s.c).Keys - WaitingIn(t.c).Keys;
    ReloadedData(s, t);
    ReloadedCtx(s, t, ids);
    NothingOnLink(x);
    LetLink(x, [], [], ids, x.past);
    LinkCtx(CtxOf(t), [], []);
    RestartedTogether(s, t);
  }

  lemma {:induction false} RestartedTogether(s: RSys, t: RSys)
    requires RInv(s) && t == s.(c := t.c, down := [], read := |s.c.acks|, epoch := t.epoch) && t.c.acks == s.c.acks
    requires DataOk(t) && QueueFrom(t) && CtxOk(CtxOf(t))
    requires var x, y := CtxOf(s), CtxOf(t);
             y.ids == x.ids && y.lvl == x.lvl && x.held <= y.held && x.released <= y.released
    ensures RInv(t)
  {
    hide CtxOf, DataOk, QueueFrom, AcksOk, LinkOk, CtxOk, BufOk;
    NothingOnLink(CtxOf(t));
    AcksSame(CtxOf(s), CtxOf(t), t.c.acks);
    assert t.c.acks[t.read..] == [];
  }

  lemma {:induction false} SocketStep(s: RSys, sock: bool)
    requires RInv(s)
    ensures var t := s.(c := s.c.(sock := sock));
            RInv(t.(down := [], read := |t.c.acks|)) && (s.c.sock ==> RInv(Cut(t)))
    ensures RInv(s.(c := s.c.(sock := sock)))
  {
    hide LinkOk, CtxOf, CtxOk, DataOk, AcksOk, InSound, BufOk, HeldIn, PastIn, ReleasedIn, WaitingIn, SameViews;
    var t := s.(c := s.c.(sock := sock));
    SoundNow(s);
    SoundIs(s);
    AckViews(s.c, t.c);
    SameData(s, t);
    CutStep(t);
  }

  // ----- Main results ---------------------------------------------------------------------------

  lemma {:induction false} RStepOk(s: RSys, a: RAction)
    requires RInv(s) && REnabled(s, a)
    ensures RInv(RStep(s, a))
  {
    hide RInv, LinkOk, DataOk, BrokerReads, Take, OnPublish, OnPubrel, Accept, ReloadFrom, Framed, Parse;
    match a
    case Send(id, buf) => BufNotEmpty(buf, id); SendStep(s, id, buf);
    case Resend(id) => ResendStep(s, id);
    case ReadAck => ReadAckStep(s);
    case Arrive(add, upd, ok) =>
      if s.down[0].Copy? { CopyStep(s, add, ok); } else { RelStep(s, upd, ok); }
      CutStep(Arrived(s, add, upd, ok));
    case Deliver(del) => DeliverStep(s, del);
    case Lost =>
      SocketStep(s, false);
      CutStep(s.(c := s.c.(sock := false)));
    case Back => SocketStep(s, true);
    case Restarted(msgs) => RestartedStep(s, msgs);
  }

  lemma {:induction false} BufNotEmpty(buf: seq<byte>, id: u16)
    requires BufOk(buf, id)
    ensures buf != []
  {
  }

  lemma {:induction false} RStartOk()
    ensures RInv(RStart())
  {
    hide InSound, LinkOk, CtxOf, CtxOk, StoreOk, DeliveredOk;
    var s := RStart();
    EmptySound(s.c);
    EmptyStore();
    EmptyCtx(s);
    assert s.c.acks[s.read..] == [];
    NothingOnLink(CtxOf(s));
  }

  lemma {:induction false} EmptySound(c: InConn)
    requires c.q == [] && c.hash == map[] && c.rcvd == map[] && c.attached
    ensures InSound(c)
  {
    assert InInv(c) && InBacked(c.q, c.rcvd) && InCovers(c.q, c.rcvd) && AllHashed(c.q, c.hash);
  }

  lemma {:induction false} EmptyStore()
    ensures StoreOk(map[], [], []) && DeliveredOk([], map[], [], [], 0)
  {
  }

  lemma {:induction false} EmptyCtx(s: RSys)
    requires s.inflight == map[] && s.c.hash == map[] && s.c.rcvd == map[] && s.c.q == []
    requires s.ids == [] && s.lvl == [] && s.delivered == []
    ensures CtxOk(CtxOf(s))
  {
    assert WaitingIn(s.c) == map[] && HeldIn(s.c) == {} && PastIn(s.c) == {} && Done(s) == {};
  }

  lemma {:induction false} RRunOk(s: RSys, run: seq<RAction>, t: RSys)
    requires RInv(s) && RReaches(s, run, t)
    ensures RInv(t)
    decreases |run|
  {
    hide RInv, REnabled, RStep;
    if run != [] {
      RStepOk(s, run[0]);
      RRunOk(RStep(s, run[0]), run[1..], t);
    }
  }

  predicate WasDelivered(s: RSys, u: nat) {
    exists i :: 0 <= i < |s.delivered| && s.delivered[i].u == u
  }

  /** The client has message u: in the store, or delivered. */
  ghost predicate Has(s: RSys, u: nat) {
    InStore(s.c.rcvd, u) || WasDelivered(s, u)
  }

  ghost predicate QueuedReady(s: RSys, u: nat) {
    exists i :: 0 <= i < |s.c.q| && s.c.q[i].origin == u && s.c.q[i].pub.flag == RELEASED
  }

  /** Message u is delivered or ready to be. */
  ghost predicate Available(s: RSys, u: nat) {
    QueuedReady(s, u) || WasDelivered(s, u)
  }

  /** Receiver safety. In every reachable state: a QoS 2 message is queued at most once; one that was
      delivered is stored or queued again only if its deletion failed, queued only after a restart since,
      and so delivered again only after both; every message acknowledged with PUBACK or PUBREC is in the
      store or delivered; every message acknowledged with PUBCOMP, and so every one the broker has
      finished with, is delivered or ready to be. */
  lemma {:induction false} ExactlyOnceInbound(run: seq<RAction>, t: RSys)
    requires RReaches(RStart(), run, t)
    ensures forall i, k :: 0 <= i < k < |t.c.q| && t.c.q[k].pub.qos == 2 ==> t.c.q[i].origin != t.c.q[k].origin
    ensures forall k, i :: k in t.c.rcvd && 0 <= i < |t.delivered| ==> StoredAfter(t.lvl, t.c.rcvd[k], t.delivered[i])
    ensures forall k, i :: 0 <= k < |t.c.q| && 0 <= i < |t.delivered| ==>
              QueuedAfter(t.lvl, t.c.q[k], t.delivered[i], t.epoch)
    ensures forall i, j :: 0 <= i < j < |t.delivered| ==> DeliveredAfter(t.lvl, t.delivered[i], t.delivered[j])
    ensures forall i :: 0 <= i < |t.c.acks| ==> Has(t, t.c.acks[i].origin)
    ensures forall i :: 0 <= i < |t.c.acks| && t.c.acks[i].kind.Pubcomp? ==> Available(t, t.c.acks[i].origin)
    ensures forall u :: u in t.completed ==> Available(t, u)
  {
    hide RInv, DataOk, QueueFrom, AcksOk, RReaches, Has, Available;
    RStartOk();
    RRunOk(RStart(), run, t);
    SoundNow(t);
    InvData(t);
    DeliveredFacts(t);
    forall i | 0 <= i < |t.c.acks|
      ensures Has(t, t.c.acks[i].origin) && (t.c.acks[i].kind.Pubcomp? ==> Available(t, t.c.acks[i].origin))
    {
      AckFacts(t, i);
    }
    forall u | u in t.completed ensures Available(t, u) { ReleasedFacts(t, u); }
  }

  lemma {:induction false} DeliveredFacts(t: RSys)
    requires DataOk(t) && QueueFrom(t)
    ensures forall i, k :: 0 <= i < k < |t.c.q| && t.c.q[k].pub.qos == 2 ==> t.c.q[i].origin != t.c.q[k].origin
    ensures forall k, i :: k in t.c.rcvd && 0 <= i < |t.delivered| ==> StoredAfter(t.lvl, t.c.rcvd[k], t.delivered[i])
    ensures forall k, i :: 0 <= k < |t.c.q| && 0 <= i < |t.delivered| ==>
              QueuedAfter(t.lvl, t.c.q[k], t.delivered[i], t.epoch)
    ensures forall i, j :: 0 <= i < j < |t.delivered| ==> DeliveredAfter(t.lvl, t.delivered[i], t.delivered[j])
  {
    hide InSound, StoreOk, KeptOrDeleted, StoredAfter, QueuedAfter, DeliveredAfter;
    forall k | 0 <= k < |t.c.q| && t.c.q[k].pub.qos == 2
      ensures forall i :: 0 <= i < |t.c.q| && t.c.q[i].origin == t.c.q[k].origin ==> i == k
    {
      OnlyEntry(t, k);
    }
  }

  /** Once released, always released: a QoS 2 message that is ready or delivered stays so over every run,
      and never waits for its release again. */
  lemma {:induction false} ReleasedStays(run: seq<RAction>, s: RSys, more: seq<RAction>, t: RSys, u: nat)
    requires RReaches(RStart(), run, s) && RReaches(s, more, t) && Two(s.lvl, u) && Available(s, u)
    ensures Available(t, u)
    ensures forall i :: 0 <= i < |t.c.q| && t.c.q[i].origin == u ==> t.c.q[i].pub.flag == RELEASED
  {
    hide RInv, DataOk, QueueFrom, AcksOk, RReaches, Available, LinkOk, CtxOf, REnabled, RStep;
    RStartOk();
    RRunOk(RStart(), run, s);
    AvailableReleased(s, u);
    KeepsReleased(s, more, t, {u});
    ReleasedFacts(t, u);
    LevelsStay(s, more, t);
    NeverWaits(t, u);
  }

  lemma {:induction false} AvailableReleased(s: RSys, u: nat)
    requires RInv(s) && Two(s.lvl, u) && Available(s, u)
    ensures u in CtxOf(s).released
  {
    hide LinkOk, DataOk, BufsOk, AcksOk;
    if QueuedReady(s, u) {
      var i :| 0 <= i < |s.c.q| && s.c.q[i].origin == u && s.c.q[i].pub.flag == RELEASED;
      assert s.lvl[u] == s.c.q[i].pub.qos;
    }
  }

  /** What the broker has finished with only grows, and no step depends on it. So counting a set of released
      messages among it shows that they stay released. */
  function Counting(s: RSys, us: set<nat>): RSys {
    s.(completed := s.completed + us)
  }

  lemma {:induction false} CountingStep(s: RSys, a: RAction, us: set<nat>)
    requires REnabled(s, a)
    ensures REnabled(Counting(s, us), a) && RStep(Counting(s, us), a) == Counting(RStep(s, a), us)
  {
    hide OnPublish, OnPubrel, Accept, ReloadFrom, Lists, BufOk;
  }

  lemma {:induction false} KeepsReleased(s: RSys, run: seq<RAction>, t: RSys, us: set<nat>)
    requires RInv(s) && RReaches(s, run, t) && us <= CtxOf(s).released
    ensures RInv(t) && us <= CtxOf(t).released
    decreases |run|
  {
    hide REnabled, RStep, DataOk, QueueFrom, BufsOk, AcksOk, LinkOk;
    if run != [] {
      var c, t1 := Counting(s, us), RStep(s, run[0]);
      CtxSame(s, c);
      CountingInv(s, us);
      CountingStep(s, run[0], us);
      RStepOk(s, run[0]);
      RStepOk(c, run[0]);
      CtxSame(t1, Counting(t1, us));
      KeepsReleased(t1, run[1..], t, us);
    }
  }

  lemma {:induction false} CountingInv(s: RSys, us: set<nat>)
    requires RInv(s) && us <= CtxOf(s).released
    ensures RInv(Counting(s, us))
  {
    hide DataOk, QueueFrom, AcksOk, LinkOk, BufOk, CtxOf;
    CtxSame(s, Counting(s, us));
    BufsLess(s, Counting(s, us));
  }

  lemma {:induction false} LevelsStay(s: RSys, run: seq<RAction>, t: RSys)
    requires RReaches(s, run, t)
    ensures s.lvl <= t.lvl
    decreases |run|
  {
    hide REnabled;
    if run != [] {
      LevelStays(s, run[0]);
      LevelsStay(RStep(s, run[0]), run[1..], t);
    }
  }

  lemma {:induction false} LevelStays(s: RSys, a: RAction)
    requires REnabled(s, a)
    ensures s.lvl <= RStep(s, a).lvl
  {
    hide OnPublish, OnPubrel, Accept, ReloadFrom, Lists, BufOk;
  }

  lemma {:induction false} NeverWaits(t: RSys, u: nat)
    requires RInv(t) && u in CtxOf(t).released && Two(t.lvl, u)
    ensures forall i :: 0 <= i < |t.c.q| && t.c.q[i].origin == u ==> t.c.q[i].pub.flag == RELEASED
  {
    hide LinkOk, BufsOk, AcksOk, StoreOk, DeliveredOk, DoneOf;
    forall i | 0 <= i < |t.c.q| && t.c.q[i].origin == u ensures t.c.q[i].pub.flag == RELEASED {
      assert FlagOk(t.c.q[i].pub) && t.lvl[u] == t.c.q[i].pub.qos;
      OnlyEntry(t, i);
      if t.c.q[i].pub.flag != RELEASED { QueuedDone(t, i); }
    }
  }

  /** After a restart a delivered QoS 2 message is ready to be delivered again exactly if every deletion of
      it failed. */
  lemma {:induction false} SecondDeliveryIff(run: seq<RAction>, t: RSys, msgs: seq<(nat, Received)>, u: nat)
    requires RReaches(RStart(), run, t) && REnabled(t, Restarted(msgs)) && Two(t.lvl, u) && WasDelivered(t, u)
    ensures QueuedReady(RStep(t, Restarted(msgs)), u) <==> !WasDeleted(t.delivered, u)
  {
    hide RInv, DataOk, QueueFrom, AcksOk, RReaches, InSound, FromStore, AllQueued, ReloadFrom, Lists, StoredAfter,
      KeptOrDeleted;
    RStartOk();
    RRunOk(RStart(), run, t);
    SoundNow(t);
    ReloadEffect(t.c, msgs);
    var d := RStep(t, Restarted(msgs));
    StoredIff(t, u);
    if InStore(t.c.rcvd, u) {
      StoredReady(t, d, u);
    } else if QueuedReady(d, u) {
      ReadyStored(d, u);
    }
  }

  lemma {:induction false} StoredIff(t: RSys, u: nat)
    requires DataOk(t) && Two(t.lvl, u) && WasDelivered(t, u)
    ensures InStore(t.c.rcvd, u) <==> !WasDeleted(t.delivered, u)
    ensures forall k :: k in t.c.rcvd && t.c.rcvd[k].origin == u ==> LeftOver(t.c.rcvd[k])
  {
    hide InSound, StoreOk, QueuedAfter, DeliveredAfter, LeftOver, DoneOf;
    var i :| 0 <= i < |t.delivered| && t.delivered[i].u == u;
    assert KeptOrDeleted(t.c.rcvd, t.delivered, u);
    forall k | k in t.c.rcvd && t.c.rcvd[k].origin == u ensures LeftOver(t.c.rcvd[k]) && !WasDeleted(t.delivered, u) {
      assert StoredAfter(t.lvl, t.c.rcvd[k], t.delivered[i]);
      forall j | 0 <= j < |t.delivered| && t.delivered[j].u == u ensures !t.delivered[j].deleted {
        assert StoredAfter(t.lvl, t.c.rcvd[k], t.delivered[j]);
      }
    }
  }

  lemma {:induction false} StoredReady(t: RSys, d: RSys, u: nat)
    requires d.c.rcvd == t.c.rcvd && InSound(d.c) && FromStore(d.c) && AllQueued(d.c.q, d.c.rcvd)
             && InStore(t.c.rcvd, u)
    requires forall k :: k in t.c.rcvd && t.c.rcvd[k].origin == u ==> LeftOver(t.c.rcvd[k])
    ensures QueuedReady(d, u)
  {
    hide Sane, PubOf;
    var k :| k in t.c.rcvd && t.c.rcvd[k].origin == u;
    var i := EntryOf(d.c, k);
    assert IsStored(d.c.q[i], d.c.rcvd[k]);
  }

  lemma {:induction false} ReadyStored(d: RSys, u: nat)
    requires FromStore(d.c) && QueuedReady(d, u)
    ensures InStore(d.c.rcvd, u)
  {
    hide Sane, PubOf;
    var i :| 0 <= i < |d.c.q| && d.c.q[i].origin == u && d.c.q[i].pub.flag == RELEASED;
    assert IsStored(d.c.q[i], d.c.rcvd[d.c.q[i].rcvId]);
  }

  lemma {:induction false} ReleasedFacts(t: RSys, u: nat)
    requires u in CtxOf(t).released
    ensures Available(t, u)
  {
  }

  lemma {:induction false} AckFacts(t: RSys, i: nat)
    requires AcksOk(CtxOf(t), t.c.acks) && i < |t.c.acks|
    ensures Has(t, t.c.acks[i].origin) && (t.c.acks[i].kind.Pubcomp? ==> Available(t, t.c.acks[i].origin))
  {
    hide Available;
    var u := t.c.acks[i].origin;
    assert AckOk(CtxOf(t), t.c.acks[i]);
    if t.c.acks[i].kind.Pubcomp? { ReleasedFacts(t, u); }
  }
}
