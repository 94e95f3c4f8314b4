/** Sender safety: over every run, whatever the broker replies and whatever fails, a message is not
    written again once its release has been written, so a broker that follows the QoS 2 flow
    forwards each message at most once (MQTT V3.1 section 4.1, OASIS MQTT 3.1.1 section 4.3.3). */
module AtMostOnce {
  import opened Bytes
  import opened SentStores
  import opened LengthCodec
  import opened Wrappers
  import opened Outbound
  import opened QueueFacts
  import opened WireIds

  /** `ids[u]` is the message id that request number u was given. Packets `wire[..read]` have
      reached the broker or were lost with their connection; the rest is in flight. `pending` and
      `forwarded` are the broker: received but unreleased QoS 2 messages, and those it passed on. */
  datatype Sys = Sys(c: Conn, ids: seq<u16>, read: nat, pending: map<u16, nat>, forwarded: seq<nat>)

  /** Every way the system moves. A crash between two steps inside one call leaves the state of the
      call with a failing socket write, or with `WrittenOldKept`/`PlainRemoved`; `Restart` follows. */
  datatype Action =
    | Publish(data: Message, put: PutResult, writeOk: bool)
    | Pubrec(id: u16, origin: nat, put: PutResult, writeOk: bool)
    | Ack(id: u16, del: DelResult)
    | RetryPass(writes: seq<bool>)
    | SocketLost
    | Reconnected
    | Restart(msgs: seq<(nat, Stored)>)
    | BrokerReads

  predicate IsPub(p: Packet, u: nat) {
    !IsRel(p.data) && p.origin == u
  }

  predicate IsPub2(p: Packet) {
    !IsRel(p.data) && p.data.head.qos == 2
  }

  /** Some release of `id` was written after some copy of message u. */
  predicate Spent(wire: seq<Packet>, u: nat, id: u16) {
    exists h, i :: 0 <= h < i < |wire| && IsPub(wire[h], u) && IsRel(wire[i].data) && wire[i].id == id
  }

  predicate Enabled(s: Sys, a: Action) {
    match a
    case Publish(data, _, _) => !IsRel(data) && Carries(data, s.c.nextMsgId)
    case RetryPass(writes) => |writes| == |s.c.q|
    case Restart(msgs) => if s.c.attached then Lists(msgs, s.c.store.View()) else msgs == []
    case BrokerReads => s.read < |s.c.wire|
    case _ => true
  }

  /** A closed socket loses what is in flight. */
  function Settle(s: Sys): Sys {
    if s.c.sock then s else s.(read := |s.c.wire|)
  }

  /** The broker reads a message; the id is the one in its bytes. */
  function BrokerRead(s: Sys): Sys
    requires s.read < |s.c.wire|
  {
    var p := s.c.wire[s.read];
    var s1 := s.(read := s.read + 1);
    match WireId(p.data)
    case None => s1
    case Some(id) =>
      if IsRel(p.data) && id in s.pending then
        s1.(pending := s.pending - {id}, forwarded := s.forwarded + [s.pending[id]])
      else if IsPub2(p) && id !in s.pending then
        s1.(pending := s.pending[id := p.origin])
      else s1
  }

  function Apply(s: Sys, a: Action): Sys
    requires Enabled(s, a)
  {
    match a
    case Publish(data, put, writeOk) =>
      Settle(s.(c := Request(s.c, data, |s.ids|, put, writeOk).0, ids := s.ids + [s.c.nextMsgId]))
    case Pubrec(id, origin, put, writeOk) => Settle(s.(c := OnPubrec(s.c, id, origin, put, writeOk).0))
    case Ack(id, del) => Settle(s.(c := OnAck(s.c, id, del)))
    case RetryPass(writes) => Settle(s.(c := Retry(s.c, writes)))
    case SocketLost => Settle(s.(c := s.c.(sock := false)))
    case Reconnected => s.(c := s.c.(sock := true), read := |s.c.wire|)
    case Restart(msgs) => Settle(s.(c := Reload(s.c, msgs)))
    case BrokerReads => BrokerRead(s)
  }

  /** A message too long for the queue. */
  function TooLong(id: u16): Message {
    Message(Header(PUBLISH, false, 1, false), [0, 0, 0] + Big16(id) + seq(MAX_OUTQ, i => 0))
  }

  /** Every request of the application is one of these steps, or none: on a broken connection nothing
      happens, and a message that could not be built leaves what a message refused for its length leaves. */
  lemma {:induction false} RequestIsStep(s: Sys, broken: bool, msg: Option<Message>, put: PutResult, writeOk: bool)
    returns (a: Action)
    requires msg.Some? ==> !IsRel(msg.value) && Carries(msg.value, s.c.nextMsgId)
    ensures Enabled(s, a) && a == Publish(if msg.Some? then msg.value else TooLong(s.c.nextMsgId), put, writeOk)
    ensures var c1 := ApiRequest(s.c, broken, msg, |s.ids|, put, writeOk).0;
      if broken then c1 == s.c else Apply(s, a) == Settle(s.(c := c1, ids := s.ids + [s.c.nextMsgId]))
  {
    a := Publish(if msg.Some? then msg.value else TooLong(s.c.nextMsgId), put, writeOk);
    TooLongCarries(s.c.nextMsgId);
  }

  lemma {:induction false} TooLongCarries(id: u16)
    ensures Carries(TooLong(id), id)
  {
    var b := TooLong(id).body;
    assert b[0] == 0 && b[1] == 0 && b[2] == 0;
    assert Field0(b) == Some(Field(1, 0)) && Read16(b, 1) == 0;
    assert b[3..] == Big16(id) + b[5..];
    Read16At(b, 3);
    Big16RoundTrip(id, b[5..]);
  }

  function Init(attached: bool): Sys {
    Sys(Conn([], attached, Store(map[], map[]), false, [], 1), [], 0, map[], [])
  }

  /** All states a run from `Init` can be in. */
  ghost predicate Reaches(s: Sys, run: seq<Action>, t: Sys)
    decreases |run|
  {
    if run == [] then s == t
    else Enabled(s, run[0]) && Reaches(Apply(s, run[0]), run[1..], t)
  }

  // ----- The invariant --------------------------------------------------------------------------

  predicate GoodEntry(id: u16, data: Message, origin: nat, ids: seq<u16>) {
    (!IsRel(data) ==> origin < |ids| && ids[origin] == id) && Carries(data, id)
  }

  predicate QueueLive(q: seq<Entry>, u: nat) {
    exists i :: 0 <= i < |q| && !IsRel(q[i].data) && q[i].origin == u
  }

  predicate StoreLive(store: Store<nat, Stored>, u: nat) {
    exists k :: k in store.plain && k !in store.upd && store.plain[k].origin == u
  }

  /** Message u may still be written: it is queued, or a reload would queue it. */
  predicate Live(c: Conn, u: nat) {
    QueueLive(c.q, u) || (c.attached && StoreLive(c.store, u))
  }

  predicate StoreGood(store: Store<nat, Stored>, ids: seq<u16>) {
    && (forall k :: k in store.plain ==> var v := store.plain[k];
          !IsRel(v.data) && v.origin < |ids| && AddKey(ids[v.origin]) == k && Carries(v.data, ids[v.origin]))
    && (forall k :: k in store.upd ==>
          && IsRel(store.upd[k].data) && IsStored(store.upd[k].data) && k == AddKey(IdOfKey(k))
          && Carries(store.upd[k].data, IdOfKey(k)))
  }

  ghost predicate ClientInv(c: Conn, ids: seq<u16>) {
    && DistinctIds(c.q)
    && (forall i :: 0 <= i < |c.q| ==> GoodEntry(c.q[i].id, c.q[i].data, c.q[i].origin, ids))
    && (forall i :: 0 <= i < |c.wire| ==> GoodEntry(c.wire[i].id, c.wire[i].data, c.wire[i].origin, ids))
    && (c.attached ==> StoreGood(c.store, ids))
    && (c.attached ==> forall i :: 0 <= i < |c.q| && IsRel(c.q[i].data) ==> AddKey(c.q[i].id) in c.store.upd)
    && (forall u: nat :: Live(c, u) ==> u < |ids| && !Spent(c.wire, u, ids[u]))
    && NeverAfterRelease(c.wire)
  }

  /** No copy of a message follows a release that followed an earlier copy of it. */
  predicate NeverAfterRelease(wire: seq<Packet>) {
    forall j :: 0 <= j < |wire| && !IsRel(wire[j].data) ==> !Spent(wire[..j], wire[j].origin, wire[j].id)
  }

  predicate NoDuplicates(s: seq<nat>) {
    forall i, j :: 0 <= i < j < |s| ==> s[i] != s[j]
  }

  predicate HasArrived(wire: seq<Packet>, read: nat, u: nat)
    requires read <= |wire|
  {
    exists h :: 0 <= h < read && IsPub(wire[h], u)
  }

  ghost predicate BrokerInv(s: Sys) {
    && s.read <= |s.c.wire|
    && NoDuplicates(s.forwarded)
    && (forall u :: u in s.forwarded ==> u < |s.ids| && Spent(s.c.wire[..s.read], u, s.ids[u]))
    && (forall id :: id in s.pending ==> s.pending[id] < |s.ids| && s.ids[s.pending[id]] == id)
    && (forall id :: id in s.pending ==> s.pending[id] !in s.forwarded && HasArrived(s.c.wire, s.read, s.pending[id]))
  }

  ghost predicate Inv(s: Sys) {
    ClientInv(s.c, s.ids) && BrokerInv(s)
  }

  // ----- Writing to the wire --------------------------------------------------------------------

  lemma {:induction false} SpentMonotone(wire: seq<Packet>, more: seq<Packet>, u: nat, id: u16)
    requires Spent(wire, u, id)
    ensures Spent(wire + more, u, id)
  {
    var h, i :| 0 <= h < i < |wire| && IsPub(wire[h], u) && IsRel(wire[i].data) && wire[i].id == id;
    assert (wire + more)[h] == wire[h] && (wire + more)[i] == wire[i];
  }

  lemma {:induction false} SpentBetween(wire: seq<Packet>, h: nat, i: nat, j: nat)
    requires h < i < j <= |wire|
    requires !IsRel(wire[h].data) && IsRel(wire[i].data)
    ensures Spent(wire[..j], wire[h].origin, wire[i].id)
  {
    assert IsPub(wire[..j][h], wire[h].origin) && IsRel(wire[..j][i].data);
  }

  /** One more packet spends a message only if it is a release of that message's id. */
  lemma {:induction false} SpentByLast(wire: seq<Packet>, p: Packet, u: nat, id: u16)
    requires Spent(wire + [p], u, id) && !(IsRel(p.data) && p.id == id)
    ensures Spent(wire, u, id)
  {
    var w := wire + [p];
    var h, i :| 0 <= h < i < |w| && IsPub(w[h], u) && IsRel(w[i].data) && w[i].id == id;
    assert wire[h] == w[h] && wire[i] == w[i];
  }

  /** Writing a message that is not spent, or a release of an id no live message has. */
  lemma {:induction false} WriteKeeps(c: Conn, p: Packet, ok: bool, ids: seq<u16>)
    requires ClientInv(c, ids)
    requires GoodEntry(p.id, p.data, p.origin, ids)
    requires !IsRel(p.data) ==> !Spent(c.wire, p.origin, p.id)
    requires IsRel(p.data) ==> forall u: nat :: Live(c, u) ==> ids[u] != p.id
    ensures ClientInv(Write(c, p, ok).0, ids)
  {
    hide Carries;
    var c1 := Write(c, p, ok).0;
    assert c1.q == c.q && c1.store == c.store && c1.attached == c.attached;
    forall u: nat | Live(c1, u) ensures u < |ids| && !Spent(c1.wire, u, ids[u]) {
      assert Live(c, u);
      if Spent(c1.wire, u, ids[u]) {
        SpentByLast(c.wire, p, u, ids[u]);
      }
    }
    forall j | 0 <= j < |c1.wire| && !IsRel(c1.wire[j].data)
      ensures !Spent(c1.wire[..j], c1.wire[j].origin, c1.wire[j].id)
    {
      if j < |c.wire| {
        assert c1.wire[..j] == c.wire[..j] && c1.wire[j] == c.wire[j];
      } else {
        assert c1.wire[..j] == c.wire;
      }
    }
  }

  // ----- Client steps ---------------------------------------------------------------------------

  lemma {:induction false} QueuedKeeps(c: Conn, e: Entry, init: bool, put: PutResult, ids: seq<u16>)
    requires ClientInv(c, ids) && GoodEntry(e.id, e.data, e.origin, ids) && IsStored(e.data)
    requires !init && c.attached ==> !put.Refused?
    requires init && c.attached && IsRel(e.data) ==> AddKey(e.id) in c.store.upd
    requires !IsRel(e.data) ==> !Spent(c.wire, e.origin, e.id)
    ensures var c1 := Queued(c, e, init, put);
      && ClientInv(c1, ids)
      && (!IsRel(e.data) ==> Live(c1, e.origin))
      && (IsRel(e.data) && (init ==> c.attached) ==> forall u: nat :: Live(c1, u) ==> ids[u] != e.id)
  {
    hide Carries;
    var c1 := Queued(c, e, init, put);
    WithoutDrops(c.q, e.id);
    var w := Without(c.q, e.id);
    assert forall i :: 0 <= i < |w| ==> w[i] in c.q && w[i].id != e.id;
    assert c1.q[|w|] == e;
    if c.attached { QueuedStore(c, e, init, put, ids); }
    hide Spent, NeverAfterRelease, StoreGood, Persisted, AddKey;
    forall u: nat | Live(c1, u)
      ensures u < |ids| && !Spent(c1.wire, u, ids[u]) && (IsRel(e.data) && (init ==> c.attached) ==> ids[u] != e.id)
    {
      QueuedLive(c, e, init, put, ids, u);
    }
  }

  lemma {:induction false} QueuedStore(c: Conn, e: Entry, init: bool, put: PutResult, ids: seq<u16>)
    requires c.attached && StoreGood(c.store, ids) && GoodEntry(e.id, e.data, e.origin, ids) && IsStored(e.data)
    requires !init ==> !put.Refused?
    requires init && IsRel(e.data) ==> AddKey(e.id) in c.store.upd
    ensures var s := Persisted(c.store, true, e, init, put);
      StoreGood(s, ids) && c.store.upd.Keys <= s.upd.Keys && (IsRel(e.data) ==> AddKey(e.id) in s.upd)
  {
    hide Carries;
    AddKeyRoundTrip(e.id);
  }

  /** Queueing a message brings back to life nothing but that message; queueing a release nothing with its id. */
  lemma {:induction false} QueuedLive(c: Conn, e: Entry, init: bool, put: PutResult, ids: seq<u16>, u: nat)
    requires ClientInv(c, ids) && GoodEntry(e.id, e.data, e.origin, ids) && IsStored(e.data)
    requires !init && c.attached ==> !put.Refused?
    requires init && c.attached && IsRel(e.data) ==> AddKey(e.id) in c.store.upd
    requires Live(Queued(c, e, init, put), u)
    ensures Live(c, u) || (!IsRel(e.data) && u == e.origin)
    ensures u < |ids| && (IsRel(e.data) && (init ==> c.attached) ==> ids[u] != e.id)
  {
    hide Carries;
    hide Spent, NeverAfterRelease;
    var c1, w := Queued(c, e, init, put), Without(c.q, e.id);
    WithoutDrops(c.q, e.id);
    AddKeyRoundTrip(e.id);
    if QueueLive(c1.q, u) {
      var i :| 0 <= i < |c1.q| && !IsRel(c1.q[i].data) && c1.q[i].origin == u;
      if i < |w| {
        assert w[i] in c.q && w[i].id != e.id;
        var k :| 0 <= k < |c.q| && c.q[k] == w[i];
        assert QueueLive(c.q, u);
      }
    } else {
      var k :| k in c1.store.plain && k !in c1.store.upd && c1.store.plain[k].origin == u;
      if k in c.store.plain && c.store.plain[k] == c1.store.plain[k] {
        assert StoreLive(c.store, u);
      }
    }
  }

  lemma {:induction false} SendKeeps(c: Conn, data: Message, id: u16, origin: nat, init: bool, put: PutResult,
                                     writeOk: bool, ids: seq<u16>)
    requires ClientInv(c, ids) && GoodEntry(id, data, origin, ids)
    requires !IsRel(data) ==> !Spent(c.wire, origin, id)
    requires IsRel(data) ==> IsStored(data)
    requires init ==> c.attached && !c.sock
    requires init && IsRel(data) ==> AddKey(id) in c.store.upd
    ensures ClientInv(Send(c, data, id, origin, init, put, writeOk).0, ids)
  {
    hide Carries;
    var p := Packet(id, data, origin);
    if !IsStored(data) {
      WriteKeeps(c, p, writeOk, ids);
    } else if Admit(c, data, init, put).Ok? {
      var e := Entry(id, data, if init then Retrying else InProgress, origin);
      QueuedKeeps(c, e, init, put, ids);
      WriteKeeps(Queued(c, e, init, put), PacketOf(e), writeOk, ids);
    }
  }

  lemma {:induction false} AckKeeps(c: Conn, id: u16, del: DelResult, ids: seq<u16>)
    requires ClientInv(c, ids)
    ensures ClientInv(OnAck(c, id, del), ids)
  {
    var c1 := OnAck(c, id, del);
    WithoutDrops(c.q, id);
    assert forall i :: 0 <= i < |c1.q| ==> c1.q[i] in c.q && c1.q[i].id != id;
    forall u: nat | Live(c1, u) ensures Live(c, u) {
      if QueueLive(c1.q, u) {
        var i :| 0 <= i < |c1.q| && !IsRel(c1.q[i].data) && c1.q[i].origin == u;
        var k :| 0 <= k < |c.q| && c.q[k] == c1.q[i];
        assert QueueLive(c.q, u);
      } else {
        var k :| k in c1.store.plain && k !in c1.store.upd && c1.store.plain[k].origin == u;
        assert StoreLive(c.store, u);
      }
    }
  }

  /** Marking an entry, or setting its DUP bit, keeps everything the invariant speaks of. */
  lemma {:induction false} MarkKeeps(c: Conn, i: nat, ids: seq<u16>)
    requires ClientInv(c, ids) && i < |c.q|
    ensures var c1 := c.(q := c.q[i := Retried(c.q[i])]);
            ClientInv(c1, ids) && forall u: nat :: Live(c, u) <==> Live(c1, u)
  {
    var c1 := c.(q := c.q[i := Retried(c.q[i])]);
    forall j | 0 <= j < |c.q|
      ensures c1.q[j].id == c.q[j].id && c1.q[j].origin == c.q[j].origin && IsRel(c1.q[j].data) == IsRel(c.q[j].data)
    {
    }
    forall u: nat ensures QueueLive(c.q, u) <==> QueueLive(c1.q, u) {
      if QueueLive(c.q, u) {
        var j :| 0 <= j < |c.q| && !IsRel(c.q[j].data) && c.q[j].origin == u;
        assert !IsRel(c1.q[j].data) && c1.q[j].origin == u;
      }
      if QueueLive(c1.q, u) {
        var j :| 0 <= j < |c1.q| && !IsRel(c1.q[j].data) && c1.q[j].origin == u;
        assert !IsRel(c.q[j].data) && c.q[j].origin == u;
      }
    }
  }

  lemma {:induction false} RetryStepKeeps(c: Conn, i: nat, writeOk: bool, ids: seq<u16>)
    requires ClientInv(c, ids) && i < |c.q|
    ensures ClientInv(RetryStep(c, i, writeOk), ids)
  {
    hide Carries;
    MarkKeeps(c, i, ids);
    var e := Retried(c.q[i]);
    var c1 := c.(q := c.q[i := e]);
    assert c1.q[i] == e;
    if c.q[i].status.Retrying? {
      if IsRel(e.data) {
        forall u: nat | Live(c1, u) ensures ids[u] != e.id {
          if QueueLive(c1.q, u) {
            var j :| 0 <= j < |c1.q| && !IsRel(c1.q[j].data) && c1.q[j].origin == u;
            assert c1.q[j].id != e.id;
          }
        }
      } else {
        assert QueueLive(c1.q, e.origin);
        assert Live(c1, e.origin);
      }
      WriteKeeps(c1, PacketOf(e), writeOk, ids);
    }
  }

  lemma {:induction false} RetryKeeps(c: Conn, i: nat, writes: seq<bool>, ids: seq<u16>)
    requires ClientInv(c, ids) && i <= |c.q| == |writes|
    ensures ClientInv(RetryFrom(c, i, writes), ids)
    decreases |c.q| - i
  {
    if i < |c.q| {
      RetryStepKeeps(c, i, writes[i], ids);
      RetryKeeps(RetryStep(c, i, writes[i]), i + 1, writes, ids);
    }
  }

  predicate StoredUnder(store: Store<nat, Stored>, key: nat, v: Stored) {
    key in store.View() && store.View()[key] == v
  }

  lemma {:induction false} ReloadStepKeeps(c: Conn, key: nat, v: Stored, ids: seq<u16>)
    requires ClientInv(c, ids) && !c.sock && c.attached && StoredUnder(c.store, key, v)
    ensures var c1 := ReloadStep(c, key, v);
      ClientInv(c1, ids) && !c1.sock && c1.attached && c1.store == c.store && c1.wire == c.wire
  {
    hide Carries;
    var c1 := if key > c.nextMsgId then c.(nextMsgId := IdOfKey(key)) else c;
    forall u: nat | Live(c1, u) ensures Live(c, u) { assert StoreLive(c1.store, u) == StoreLive(c.store, u); }
    var id := IdOfKey(key);
    if key in c.store.upd {
      assert v == c.store.upd[key];
    } else {
      AddKeyRoundTrip(ids[v.origin]);
      assert StoreLive(c.store, v.origin);
      assert Live(c, v.origin);
    }
    SendKeeps(c1, v.data, id, v.origin, true, Written, false, ids);
  }

  lemma {:induction false} ReloadKeeps(c: Conn, msgs: seq<(nat, Stored)>, i: nat, ids: seq<u16>)
    requires ClientInv(c, ids) && !c.sock && c.attached && i <= |msgs|
    requires forall j :: 0 <= j < |msgs| ==> StoredUnder(c.store, msgs[j].0, msgs[j].1)
    ensures ClientInv(ReloadFrom(c, msgs, i), ids)
    decreases |msgs| - i
  {
    if i < |msgs| {
      ReloadStepKeeps(c, msgs[i].0, msgs[i].1, ids);
      ReloadKeeps(ReloadStep(c, msgs[i].0, msgs[i].1), msgs, i + 1, ids);
    }
  }

  lemma {:induction false} RestartKeeps(c: Conn, msgs: seq<(nat, Stored)>, ids: seq<u16>)
    requires ClientInv(c, ids)
    requires if c.attached then Lists(msgs, c.store.View()) else msgs == []
    ensures ClientInv(Reload(c, msgs), ids)
  {
    var f := Fresh(c);
    forall u: nat | Live(f, u) ensures Live(c, u) {}
    if c.attached {
      ReloadKeeps(f, msgs, 0, ids);
    }
    var c1 := ReloadFrom(f, msgs, 0);
    var c2 := Reload(c, msgs);
    forall u: nat | Live(c2, u) ensures Live(c1, u) {}
  }

  lemma {:induction false} RetryGrows(c: Conn, i: nat, writes: seq<bool>)
    requires i <= |c.q| == |writes|
    ensures c.wire <= RetryFrom(c, i, writes).wire
    decreases |c.q| - i
  {
    if i < |c.q| {
      RetryGrows(RetryStep(c, i, writes[i]), i + 1, writes);
    }
  }

  lemma {:induction false} ReloadWritesNothing(c: Conn, msgs: seq<(nat, Stored)>, i: nat)
    requires !c.sock && i <= |msgs|
    ensures ReloadFrom(c, msgs, i).wire == c.wire && !ReloadFrom(c, msgs, i).sock
    decreases |msgs| - i
  {
    if i < |msgs| {
      ReloadWritesNothing(ReloadStep(c, msgs[i].0, msgs[i].1), msgs, i + 1);
    }
  }

  /** The wire's history only grows. */
  lemma {:induction false} WireGrows(s: Sys, a: Action)
    requires Enabled(s, a)
    ensures s.c.wire <= Apply(s, a).c.wire
  {
    match a
    case RetryPass(writes) => RetryGrows(s.c, 0, writes);
    case Restart(msgs) => ReloadWritesNothing(Fresh(s.c), msgs, 0);
    case _ =>
  }

  lemma {:induction false} RequestKeeps(c: Conn, data: Message, put: PutResult, writeOk: bool, ids: seq<u16>)
    requires ClientInv(c, ids) && !IsRel(data) && Carries(data, c.nextMsgId)
    ensures ClientInv(Request(c, data, |ids|, put, writeOk).0, ids + [c.nextMsgId])
  {
    hide Carries;
    var u, ids1 := |ids|, ids + [c.nextMsgId];
    assert ClientInv(c, ids1);
    SendKeeps(c, data, c.nextMsgId, u, false, put, writeOk, ids1);
    var c1 := Send(c, data, c.nextMsgId, u, false, put, writeOk).0;
    var c2 := Request(c, data, u, put, writeOk).0;
    forall v: nat | Live(c2, v) ensures Live(c1, v) {}
  }

  /** Every client action keeps the client's half of the invariant. */
  lemma {:induction false} ClientKeeps(s: Sys, a: Action)
    requires ClientInv(s.c, s.ids) && Enabled(s, a)
    ensures ClientInv(Apply(s, a).c, Apply(s, a).ids)
  {
    hide Carries;
    match a
    case Publish(data, put, writeOk) => RequestKeeps(s.c, data, put, writeOk, s.ids);
    case Pubrec(id, origin, put, writeOk) =>
      PubrelBytes(id);
      SendKeeps(s.c, PubrelMessage(id), id, origin, false, put, writeOk, s.ids);
    case Ack(id, del) => AckKeeps(s.c, id, del, s.ids);
    case RetryPass(writes) => RetryKeeps(s.c, 0, writes, s.ids);
    case SocketLost => ConnectionKeeps(s.c, false, s.ids);
    case Reconnected => ConnectionKeeps(s.c, true, s.ids);
    case Restart(msgs) => RestartKeeps(s.c, msgs, s.ids);
    case BrokerReads =>
  }

  lemma {:induction false} ConnectionKeeps(c: Conn, sock: bool, ids: seq<u16>)
    requires ClientInv(c, ids)
    ensures ClientInv(c.(sock := sock), ids)
  {
    hide Carries;
    var c1 := c.(sock := sock);
    forall u: nat | Live(c1, u) ensures Live(c, u) {}
  }

  // ----- What a return code means, and the end of a connection ----------------------------------

  /** 0 exactly if the message went out whole, as the next one on the wire; 1 only without a socket or with it
      dropped for a failed write, and then nothing went out; an error only if nothing changed. */
  lemma {:induction false} SendOutcome(c: Conn, data: Message, id: u16, origin: nat, put: PutResult, writeOk: bool)
    ensures var (d, rc) := Send(c, data, id, origin, false, put, writeOk);
      && (rc.Ok? <==> d.wire == c.wire + [Packet(id, data, origin)]) && (rc.Ok? ==> c.sock && d.sock)
      && (rc.NotSent? ==> !d.sock && d.wire == c.wire)
      && (!rc.Ok? && !rc.NotSent? ==> d == c)
  {
    assert c.wire != c.wire + [Packet(id, data, origin)];
  }

  lemma {:induction false} PassWithoutSocket(c: Conn, i: nat, writes: seq<bool>)
    requires i <= |c.q| == |writes| && !c.sock
    ensures RetryFrom(c, i, writes).wire == c.wire && !RetryFrom(c, i, writes).sock
    decreases |c.q| - i
  {
    if i < |c.q| { PassWithoutSocket(RetryStep(c, i, writes[i]), i + 1, writes); }
  }

  /** Once the socket is gone, nothing goes out before a new connection: a message cut short by a failed write
      is the last thing its connection carries. */
  lemma {:induction false} SilentUntilReconnected(s: Sys, run: seq<Action>, t: Sys)
    requires !s.c.sock && Reaches(s, run, t) && forall i :: 0 <= i < |run| ==> !run[i].Reconnected?
    ensures !t.c.sock && t.c.wire == s.c.wire
    decreases |run|
  {
    if run != [] {
      SilentStep(s, run[0]);
      hide Apply, Enabled;
      SilentUntilReconnected(Apply(s, run[0]), run[1..], t);
    }
  }

  lemma {:induction false} SilentStep(s: Sys, a: Action)
    requires !s.c.sock && Enabled(s, a) && !a.Reconnected?
    ensures !Apply(s, a).c.sock && Apply(s, a).c.wire == s.c.wire
  {
    hide Carries, Admit, RetryFrom, ReloadFrom;
    match a
    case RetryPass(writes) => PassWithoutSocket(s.c, 0, writes);
    case Restart(msgs) => ReloadWritesNothing(Fresh(s.c), msgs, 0);
    case _ =>
  }

  // ----- The broker -----------------------------------------------------------------------------

  /** More history on the wire, more ids handed out, and a later read position change nothing. */
  lemma {:induction false} BrokerUnaffected(s: Sys, t: Sys)
    requires BrokerInv(s)
    requires s.c.wire <= t.c.wire && s.ids <= t.ids && s.read <= t.read <= |t.c.wire|
    requires t.pending == s.pending && t.forwarded == s.forwarded
    ensures BrokerInv(t)
  {
    forall u | u in t.forwarded ensures u < |t.ids| && Spent(t.c.wire[..t.read], u, t.ids[u]) {
      assert t.c.wire[..t.read] == s.c.wire[..s.read] + t.c.wire[s.read..t.read];
      SpentMonotone(s.c.wire[..s.read], t.c.wire[s.read..t.read], u, s.ids[u]);
    }
    forall id | id in t.pending ensures HasArrived(t.c.wire, t.read, t.pending[id]) {
      var h :| 0 <= h < s.read && IsPub(s.c.wire[h], s.pending[id]);
      assert t.c.wire[h] == s.c.wire[h];
    }
  }

  lemma {:induction false} ReleaseSpends(wire: seq<Packet>, read: nat, u: nat)
    requires read < |wire| && HasArrived(wire, read, u) && IsRel(wire[read].data)
    ensures Spent(wire[..read + 1], u, wire[read].id)
  {
    var h :| 0 <= h < read && IsPub(wire[h], u);
    SpentBetween(wire, h, read, read + 1);
  }

  lemma {:induction false} AppendNew(s: seq<nat>, u: nat)
    requires NoDuplicates(s) && u !in s
    ensures NoDuplicates(s + [u])
    ensures forall v :: v in s + [u] <==> v in s || v == u
  {
  }

  lemma {:induction false} ReleaseKeeps(s: Sys)
    requires BrokerInv(s) && s.read < |s.c.wire|
    requires IsRel(s.c.wire[s.read].data) && s.c.wire[s.read].id in s.pending
    requires WireId(s.c.wire[s.read].data) == Some(s.c.wire[s.read].id)
    ensures BrokerInv(BrokerRead(s))
  {
    var id := s.c.wire[s.read].id;
    var u := s.pending[id];
    var s1 := s.(read := s.read + 1);
    BrokerUnaffected(s, s1);
    ReleaseSpends(s.c.wire, s.read, u);
    AppendNew(s.forwarded, u);
    var t := BrokerRead(s);
    assert t.pending == s.pending - {id} && t.forwarded == s.forwarded + [u];
    assert t.c == s1.c && t.ids == s1.ids && t.read == s1.read;
  }

  lemma {:induction false} ReceiveKeeps(s: Sys)
    requires BrokerInv(s) && s.read < |s.c.wire|
    requires var p := s.c.wire[s.read];
      && IsPub2(p) && p.id !in s.pending && p.origin !in s.forwarded && p.origin < |s.ids| && s.ids[p.origin] == p.id
      && WireId(p.data) == Some(p.id)
    ensures BrokerInv(BrokerRead(s))
  {
    var p, t := s.c.wire[s.read], BrokerRead(s);
    var s1 := s.(read := s.read + 1);
    BrokerUnaffected(s, s1);
    assert IsPub(s.c.wire[s.read], p.origin);
    assert HasArrived(t.c.wire, t.read, p.origin);
    assert t == s1.(pending := s.pending[p.id := p.origin]);
  }

  /** A message about to be read has not been passed on: its release would have come before it. */
  lemma {:induction false} UnreadUnforwarded(s: Sys)
    requires Inv(s) && s.read < |s.c.wire| && !IsRel(s.c.wire[s.read].data)
    ensures var p := s.c.wire[s.read];
      p.origin !in s.forwarded && p.origin < |s.ids| && s.ids[p.origin] == p.id
  {
    hide Carries;
    hide Spent, Live, StoreGood;
    var p := s.c.wire[s.read];
    assert GoodEntry(p.id, p.data, p.origin, s.ids);
    assert !Spent(s.c.wire[..s.read], p.origin, p.id);
  }

  lemma {:induction false} BrokerKeeps(s: Sys)
    requires Inv(s) && s.read < |s.c.wire|
    ensures BrokerInv(BrokerRead(s))
  {
    var p := s.c.wire[s.read];
    assert GoodEntry(p.id, p.data, p.origin, s.ids);
    hide WireId;
    if IsRel(p.data) && p.id in s.pending {
      ReleaseKeeps(s);
    } else if IsPub2(p) && p.id !in s.pending {
      UnreadUnforwarded(s);
      hide ClientInv, BrokerInv;
      ReceiveKeeps(s);
    } else {
      BrokerUnaffected(s, s.(read := s.read + 1));
    }
  }

  // ----- Main results ---------------------------------------------------------------------------

  lemma {:induction false} StepKeeps(s: Sys, a: Action)
    requires Inv(s) && Enabled(s, a)
    ensures Inv(Apply(s, a))
  {
    hide ClientInv, Request, Send, Retry, Reload, OnAck;
    ClientKeeps(s, a);
    if a.BrokerReads? {
      BrokerKeeps(s);
    } else {
      WireGrows(s, a);
      BrokerUnaffected(s, Apply(s, a));
    }
  }

  lemma {:induction false} RunKeeps(s: Sys, run: seq<Action>, t: Sys)
    requires Inv(s) && Reaches(s, run, t)
    ensures Inv(t)
    decreases |run|
  {
    if run != [] {
      StepKeeps(s, run[0]);
      RunKeeps(Apply(s, run[0]), run[1..], t);
    }
  }

  lemma {:induction false} InitKeeps(attached: bool)
    ensures Inv(Init(attached))
  {
  }

  /** In every reachable state: the broker has forwarded no message twice, no message was written to the
      wire again after its release had been, and every message on the wire holds its id in its bytes. */
  lemma {:induction false} AtMostOnce(attached: bool, run: seq<Action>, t: Sys)
    requires Reaches(Init(attached), run, t)
    ensures NoDuplicates(t.forwarded)
    ensures forall i :: 0 <= i < |t.c.wire| ==> Carries(t.c.wire[i].data, t.c.wire[i].id)
    ensures forall h, i, j :: 0 <= h < i < j < |t.c.wire| && WrittenThenReleased(t.c.wire[h], t.c.wire[i]) ==>
              !IsPub(t.c.wire[j], t.c.wire[h].origin)
  {
    InitKeeps(attached);
    hide Reaches, Init, Carries;
    RunKeeps(Init(attached), run, t);
    var w := t.c.wire;
    forall i | 0 <= i < |w| ensures Carries(w[i].data, w[i].id) {
      assert GoodEntry(w[i].id, w[i].data, w[i].origin, t.ids);
    }
    forall h, i, j | 0 <= h < i < j < |w| && WrittenThenReleased(w[h], w[i])
      ensures !IsPub(w[j], w[h].origin)
    {
      SpentBetween(w, h, i, j);
      assert GoodEntry(w[h].id, w[h].data, w[h].origin, t.ids) && GoodEntry(w[j].id, w[j].data, w[j].origin, t.ids);
    }
  }

  predicate WrittenThenReleased(p: Packet, r: Packet) {
    !IsRel(p.data) && IsRel(r.data) && p.id == r.id
  }
}
