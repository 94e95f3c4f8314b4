/** What a reload at connect gives back of the received messages. */
module InboundRecovery {
  import opened Bytes
  import opened Wrappers
  import opened SentStores
  import opened LengthCodec
  import opened Links
  import opened Inbound
  import opened InboundFacts

  /** The stored bytes are one message that decodes. */
  predicate Sane(v: Received) {
    v.bytes != [] && Framed(v.bytes) && Parse(v.bytes, 0).Some? && FlagOk(Parse(v.bytes, 0).value)
      && Parse(v.bytes, 0).value.qos > 0
  }

  function PubOf(v: Received): Pub
    requires Sane(v)
  {
    Parse(v.bytes, 0).value
  }

  /** The stored message is the queued publication; its flag may be ahead, when updReceivedMessage set
      it but reported failure. */
  predicate Holds(e: Rpq, v: Received) {
    && Sane(v) && v.origin == e.origin && e.pub.flag <= PubOf(v).flag
    && PubOf(v).(flag := e.pub.flag) == e.pub
  }

  /** Every queued publication that should be stored is ... */
  ghost predicate InBacked(q: seq<Rpq>, rcvd: map<nat, Received>) {
    forall i {:trigger q[i]} :: 0 <= i < |q| && q[i].pub.qos > 0 ==> q[i].rcvId in rcvd && Holds(q[i], rcvd[q[i].rcvId])
  }

  ghost predicate HasRcv(q: seq<Rpq>, k: nat) {
    exists i :: 0 <= i < |q| && q[i].rcvId == k && q[i].pub.qos > 0
  }

  /** A message that could not be deleted after its delivery: the store has it as released. */
  predicate LeftOver(v: Received) {
    Sane(v) && PubOf(v).flag == RELEASED
  }

  /** ... and every stored one is queued or left over. */
  ghost predicate InCovers(q: seq<Rpq>, rcvd: map<nat, Received>) {
    forall k :: k in rcvd ==> HasRcv(q, k) || LeftOver(rcvd[k])
  }

  /** Every stored message is queued. */
  ghost predicate AllQueued(q: seq<Rpq>, rcvd: map<nat, Received>) {
    forall k :: k in rcvd ==> HasRcv(q, k)
  }

  ghost predicate KeysOk(rcvd: map<nat, Received>, next: nat) {
    forall k :: k in rcvd ==> 0 < k <= next
  }

  /** Every waiting publication can be found by its wire id. */
  ghost predicate AllHashed(q: seq<Rpq>, hash: map<u16, nat>) {
    forall i {:trigger q[i]} :: 0 <= i < |q| && Indexed(q[i].pub) ==>
      q[i].pub.id in hash && hash[q[i].pub.id] == q[i].uid
  }

  ghost predicate InSound(c: InConn) {
    && c.attached && InInv(c) && InBacked(c.q, c.rcvd) && InCovers(c.q, c.rcvd) && AllHashed(c.q, c.hash)
    && KeysOk(c.rcvd, c.nextRcvId)
  }

  /** In every stored message the flag byte is 0 or 1, so setting its lowest bit makes it 1. */
  lemma {:induction false} StoredFlag(c: InConn, k: nat)
    requires InSound(c) && k in c.rcvd
    ensures c.rcvd[k].bytes != [] && c.rcvd[k].bytes[|c.rcvd[k].bytes| - 1] <= 1
  {
    hide AllHashed, InInv, KeysOk, Parse, Framed, FlagOk;
    if HasRcv(c.q, k) {
      var i :| 0 <= i < |c.q| && c.q[i].rcvId == k && c.q[i].pub.qos > 0;
      assert Holds(c.q[i], c.rcvd[k]);
    } else {
      assert LeftOver(c.rcvd[k]);
    }
    SaneFlag(c.rcvd[k]);
  }

  lemma {:induction false} SaneFlag(v: Received)
    requires Sane(v)
    ensures v.bytes != [] && v.bytes[|v.bytes| - 1] <= 1
  {
    DecodedAs(v.bytes, 0);
  }

  // ----- What keeps waiting publications indexed ------------------------------------------------

  /** The wire id of a waiting publication on a PUBLISH that is taken: the index entry is lost if the new
      publication waits as well, or if the store refuses it, whatever its QoS. */
  predicate TakesIndex(c: InConn, p: Pub, add: bool) {
    p.id in c.hash && (Indexed(p) || (Persisted(c, p) && !add))
  }

  lemma {:induction false} DropIndexIff(q: seq<Rpq>, hash: map<u16, nat>, id: u16)
    requires HashOk(q, hash) && AllHashed(q, hash)
    ensures AllHashed(q, hash - {id}) <==> id !in hash
  {
    if id in hash {
      assert HashedAt(q, id, hash[id]);
      var k :| 0 <= k < |q| && q[k].uid == hash[id] && Indexed(q[k].pub) && q[k].pub.id == id;
      assert q[k].pub.id !in hash - {id};
    } else {
      assert hash - {id} == hash;
    }
  }

  lemma {:induction false} AddIndexIff(q: seq<Rpq>, hash: map<u16, nat>, e: Rpq, arrivals: nat)
    requires HashOk(q, hash) && AllHashed(q, hash) && InOrder(q, arrivals) && e.uid == arrivals
    ensures AllHashed(q + [e], if Indexed(e.pub) then hash[e.pub.id := e.uid] else hash) <==>
            !(Indexed(e.pub) && e.pub.id in hash)
  {
    var r, h := q + [e], if Indexed(e.pub) then hash[e.pub.id := e.uid] else hash;
    if Indexed(e.pub) && e.pub.id in hash {
      assert HashedAt(q, e.pub.id, hash[e.pub.id]);
      var k :| 0 <= k < |q| && q[k].uid == hash[e.pub.id] && Indexed(q[k].pub) && q[k].pub.id == e.pub.id;
      assert r[k] == q[k] && h[r[k].pub.id] != r[k].uid;
    } else {
      hide HashOk, InOrder;
      forall i {:trigger r[i]} | 0 <= i < |r| && Indexed(r[i].pub)
        ensures r[i].pub.id in h && h[r[i].pub.id] == r[i].uid
      {
        assert i < |q| ==> r[i] == q[i];
      }
    }
  }

  /** After a PUBLISH every waiting publication can still be found, exactly unless it took an index entry. */
  lemma {:induction false} IndexKeptIff(c: InConn, bytes: seq<byte>, p: Pub, origin: nat, add: bool, ok: bool)
    requires InInv(c) && AllHashed(c.q, c.hash)
    ensures var d := Take(c, bytes, p, origin, add, ok); AllHashed(d.q, d.hash) <==> !TakesIndex(c, p, add)
  {
    hide EntriesOk, DistinctRcv, HashOk, AllHashed, InOrder;
    if Persisted(c, p) && !add {
      DropIndexIff(c.q, c.hash, p.id);
      assert c.hash[p.id := c.arrivals] - {p.id} == c.hash - {p.id};
    } else {
      AddIndexIff(c.q, c.hash, NewEntry(c, p, origin), c.arrivals);
    }
  }

  /** What losing it means: the publication stays unreleased, and its PUBREL is answered with PUBCOMP. */
  lemma {:induction false} LostRelease(c: InConn, bytes: seq<byte>, p: Pub, origin: nat, ok: bool,
                                       u: nat, upd: UpdResult)
    returns (k: nat)
    requires InInv(c) && TakesIndex(c, p, false) && Persisted(c, p) && c.sock
    ensures var d := Take(c, bytes, p, origin, false, ok);
      var r := OnPubrel(d, p.id, u, upd, true);
      && k < |r.q| && r.q[k] == c.q[k] && Indexed(c.q[k].pub) && c.q[k].pub.id == p.id
      && r.acks == c.acks + [Ack(Pubcomp, p.id, u)]
  {
    assert HashedAt(c.q, p.id, c.hash[p.id]);
    k :| 0 <= k < |c.q| && c.q[k].uid == c.hash[p.id] && Indexed(c.q[k].pub) && c.q[k].pub.id == p.id;
  }

  // ----- Reload ---------------------------------------------------------------------------------

  /** After a reload the receive ids go on behind the largest key in the store, or start anew. */
  lemma {:induction false} ReloadNextRcvId(c: InConn, msgs: seq<(nat, Received)>)
    requires forall i :: 0 <= i < |msgs| ==> msgs[i].1.bytes != []
    ensures var n := ReloadFrom(Fresh(c), msgs, 0).0.nextRcvId;
      && (n == 0 || exists i :: 0 <= i < |msgs| && msgs[i].0 == n) && forall i :: 0 <= i < |msgs| ==> msgs[i].0 <= n
  {
    LargestKey(Fresh(c), msgs, 0);
  }

  lemma {:induction false} LargestKey(c: InConn, msgs: seq<(nat, Received)>, i: nat)
    requires i <= |msgs| && forall j :: 0 <= j < |msgs| ==> msgs[j].1.bytes != []
    ensures var n := ReloadFrom(c, msgs, i).0.nextRcvId;
      && c.nextRcvId <= n && (n == c.nextRcvId || exists j :: i <= j < |msgs| && msgs[j].0 == n)
      && forall j :: i <= j < |msgs| ==> msgs[j].0 <= n
    decreases |msgs| - i
  {
    hide Parse, IsDuplicate;
    if i < |msgs| {
      assert ReloadStep(c, msgs[i].0, msgs[i].1).0.nextRcvId == if msgs[i].0 > c.nextRcvId then msgs[i].0
        else c.nextRcvId;
      hide ReloadStep;
      LargestKey(ReloadStep(c, msgs[i].0, msgs[i].1).0, msgs, i + 1);
    }
  }

  predicate Waiting(v: Received) {
    Sane(v) && Indexed(PubOf(v))
  }

  /** The stored messages are sane, have keys above 0, and no two that wait share a wire id. */
  ghost predicate Reloadable(rcvd: map<nat, Received>) {
    && (forall k :: k in rcvd ==> 0 < k && Sane(rcvd[k]))
    && (forall k, l :: k in rcvd && l in rcvd && k != l && Waiting(rcvd[k]) && Waiting(rcvd[l]) ==>
        PubOf(rcvd[k]).id != PubOf(rcvd[l]).id)
  }

  /** The queue entry of a stored message. */
  lemma {:induction false} EntryOf(c: InConn, k: nat) returns (i: nat)
    requires InSound(c) && k in c.rcvd && HasRcv(c.q, k)
    ensures i < |c.q| && c.q[i].rcvId == k && c.q[i].pub.qos > 0 && Holds(c.q[i], c.rcvd[k])
  {
    i :| 0 <= i < |c.q| && c.q[i].rcvId == k && c.q[i].pub.qos > 0;
  }

  /** A message that waits in the store is queued. */
  lemma {:induction false} WaitingQueued(c: InConn, k: nat)
    requires InSound(c) && k in c.rcvd && Waiting(c.rcvd[k])
    ensures HasRcv(c.q, k)
  {
  }

  lemma {:induction false} SoundReloadable(c: InConn)
    requires InSound(c)
    ensures Reloadable(c.rcvd)
  {
    hide Sane;
    forall k | k in c.rcvd ensures 0 < k && Sane(c.rcvd[k]) {
      if HasRcv(c.q, k) {
        var i := EntryOf(c, k);
        SaneHeld(c.q[i], c.rcvd[k]);
      }
    }
    forall k, l | k in c.rcvd && l in c.rcvd && k != l && Waiting(c.rcvd[k]) && Waiting(c.rcvd[l])
      ensures PubOf(c.rcvd[k]).id != PubOf(c.rcvd[l]).id
    {
      WaitingQueued(c, k);
      WaitingQueued(c, l);
      var i := EntryOf(c, k);
      var j := EntryOf(c, l);
      WaitingHeld(c.q[i], c.rcvd[k]);
      WaitingHeld(c.q[j], c.rcvd[l]);
      assert i < j || j < i;
    }
  }

  lemma {:induction false} SaneHeld(e: Rpq, v: Received)
    requires Holds(e, v)
    ensures Sane(v)
  {
  }

  lemma {:induction false} WaitingHeld(e: Rpq, v: Received)
    requires Holds(e, v) && Waiting(v)
    ensures Indexed(e.pub) && e.pub.id == PubOf(v).id
  {
  }

  /** What message m becomes in the queue. */
  function LoadedRpq(m: (nat, Received), uid: nat): Rpq
    requires Sane(m.1)
  {
    Rpq(PubOf(m.1), m.0, uid, m.1.origin)
  }

  ghost predicate AllSane(msgs: seq<(nat, Received)>) {
    forall i {:trigger msgs[i]} :: 0 <= i < |msgs| ==> Sane(msgs[i].1) && 0 < msgs[i].0
  }

  ghost predicate ApartWaiting(msgs: seq<(nat, Received)>) {
    forall i, j ::
      0 <= i < j < |msgs| && Sane(msgs[i].1) && Sane(msgs[j].1) && Waiting(msgs[i].1) && Waiting(msgs[j].1) ==>
      PubOf(msgs[i].1).id != PubOf(msgs[j].1).id
  }

  lemma {:induction false} ListedSane(rcvd: map<nat, Received>, msgs: seq<(nat, Received)>)
    requires Reloadable(rcvd) && Lists(msgs, rcvd)
    ensures AllSane(msgs) && ApartWaiting(msgs) && DistinctKeys(msgs)
    ensures forall i :: 0 <= i < |msgs| ==> msgs[i].1.bytes != []
  {
    hide PubOf, Waiting;
    forall i | 0 <= i < |msgs| ensures Sane(msgs[i].1) && 0 < msgs[i].0 && msgs[i].1.bytes != [] {
      assert msgs[i].0 in rcvd;
    }
    forall i, j | 0 <= i < j < |msgs| && Waiting(msgs[i].1) && Waiting(msgs[j].1)
      ensures PubOf(msgs[i].1).id != PubOf(msgs[j].1).id
    {
      assert msgs[i].0 in rcvd && msgs[j].0 in rcvd && msgs[i].0 != msgs[j].0;
    }
  }

  /** After i messages the queue holds exactly those, in listing order. */
  ghost predicate ReloadedTo(c: InConn, d: InConn, msgs: seq<(nat, Received)>, i: nat)
    requires AllSane(msgs) && i <= |msgs|
  {
    && |d.q| == i && d.attached && !d.sock && d.rcvd == c.rcvd && d.acks == c.acks
    && (forall j {:trigger d.q[j]} :: 0 <= j < i ==> d.q[j] == LoadedRpq(msgs[j], c.arrivals + j))
    && d.arrivals == c.arrivals + i
    && InInv(d) && AllHashed(d.q, d.hash)
  }

  lemma {:induction false} ReloadOne(c: InConn, d: InConn, msgs: seq<(nat, Received)>, i: nat)
    requires AllSane(msgs) && ApartWaiting(msgs) && DistinctKeys(msgs) && i < |msgs| && ReloadedTo(c, d, msgs, i)
    requires msgs[i].1.bytes != []
    ensures ReloadStep(d, msgs[i].0, msgs[i].1).1
    ensures ReloadedTo(c, ReloadStep(d, msgs[i].0, msgs[i].1).0, msgs, i + 1)
  {
    hide Parse, InInv, AllHashed, Framed;
    var key, v := msgs[i].0, msgs[i].1;
    assert Sane(v);
    var e := LoadedRpq(msgs[i], d.arrivals);
    NotWaitingTwice(c, d, msgs, i);
    var next := if key > d.nextRcvId then key else d.nextRcvId;
    forall j | 0 <= j < i ensures d.q[j].rcvId != key { assert d.q[j] == LoadedRpq(msgs[j], c.arrivals + j); }
    EnlistKeeps(d, e, next);
    HashedToo(d, e);
    var d1 := ReloadStep(d, key, v).0;
    assert d1 == Enlist(d, e).(nextRcvId := next);
    forall j | 0 <= j < i + 1 ensures d1.q[j] == LoadedRpq(msgs[j], c.arrivals + j) {
      if j < i { assert d1.q[j] == d.q[j]; }
    }
  }

  /** Nothing already reloaded waits under the wire id of message i. */
  lemma {:induction false} NotWaitingTwice(c: InConn, d: InConn, msgs: seq<(nat, Received)>, i: nat)
    requires AllSane(msgs) && ApartWaiting(msgs) && i < |msgs| && ReloadedTo(c, d, msgs, i)
    ensures Sane(msgs[i].1) && (Indexed(PubOf(msgs[i].1)) ==> PubOf(msgs[i].1).id !in d.hash)
  {
    hide Parse, Framed;
    assert Sane(msgs[i].1);
    var w := PubOf(msgs[i].1).id;
    if Indexed(PubOf(msgs[i].1)) {
      forall k | 0 <= k < i && Indexed(d.q[k].pub) ensures d.q[k].pub.id != w {
        assert d.q[k] == LoadedRpq(msgs[k], c.arrivals + k) && Sane(msgs[k].1);
        assert Waiting(msgs[k].1) && Waiting(msgs[i].1);
      }
      if w in d.hash {
        var k := HashPlace(d, w);
        assert false;
      }
    }
  }

  lemma {:induction false} HashedToo(d: InConn, e: Rpq)
    requires AllHashed(d.q, d.hash) && (Indexed(e.pub) ==> e.pub.id !in d.hash) && e.uid == d.arrivals
    ensures AllHashed(Enlist(d, e).q, Enlist(d, e).hash)
  {
    var r := Enlist(d, e).q;
    assert forall j :: 0 <= j < |d.q| ==> r[j] == d.q[j];
  }

  lemma {:induction false} ReloadAll(c: InConn, d: InConn, msgs: seq<(nat, Received)>, i: nat)
    requires AllSane(msgs) && ApartWaiting(msgs) && DistinctKeys(msgs) && i <= |msgs| && ReloadedTo(c, d, msgs, i)
    requires forall j :: 0 <= j < |msgs| ==> msgs[j].1.bytes != []
    ensures ReloadFrom(d, msgs, i).1 && ReloadedTo(c, ReloadFrom(d, msgs, i).0, msgs, |msgs|)
    decreases |msgs| - i
  {
    hide ReloadedTo, ReloadStep, ApartWaiting, DistinctKeys, AllSane;
    if i < |msgs| {
      ReloadOne(c, d, msgs, i);
      ReloadAll(c, ReloadStep(d, msgs[i].0, msgs[i].1).0, msgs, i + 1);
    }
  }

  /** A reloaded entry for a queued one: the same receive id, options, topic and payload; released if
      the store says so. */
  predicate Restored(e: Rpq, r: Rpq, v: Received) {
    && Holds(e, v) && r.rcvId == e.rcvId && r.origin == e.origin
    && r.pub == e.pub.(flag := PubOf(v).flag)
  }

  /** A queued publication and its reloaded twin, wherever they stand. */
  ghost predicate IsReloaded(c: InConn, d: InConn, i: nat)
    requires i < |c.q|
  {
    c.q[i].rcvId in c.rcvd && exists j :: 0 <= j < |d.q| && Restored(c.q[i], d.q[j], c.rcvd[c.q[i].rcvId])
  }

  /** Every entry is exactly what the store says. */
  ghost predicate FromStore(d: InConn) {
    forall j {:trigger d.q[j]} :: 0 <= j < |d.q| ==> d.q[j].rcvId in d.rcvd && IsStored(d.q[j], d.rcvd[d.q[j].rcvId])
  }

  predicate IsStored(e: Rpq, v: Received) {
    Sane(v) && e.pub == PubOf(v) && e.origin == v.origin
  }

  /** Recovery: in whatever order the store lists the messages, no reloaded message is refused, the
      queue again mirrors the store, and it holds exactly the QoS 1 and 2 publications it held before. */
  lemma {:induction false} ReloadRestores(c: InConn, msgs: seq<(nat, Received)>)
    requires InSound(c) && Lists(msgs, c.rcvd)
    ensures forall i :: 0 <= i < |msgs| ==> msgs[i].1.bytes != []
    ensures var (d, ok) := ReloadFrom(Fresh(c), msgs, 0);
      && ok && InSound(d) && FromStore(d) && AllQueued(d.q, d.rcvd) && d.rcvd == c.rcvd && d.acks == c.acks && !d.sock
        && |d.q| == |msgs|
      && (forall i :: 0 <= i < |c.q| && c.q[i].pub.qos > 0 ==> IsReloaded(c, d, i))
  {
    hide Sane, Waiting, InInv, Holds;
    SoundReloadable(c);
    ListedSane(c.rcvd, msgs);
    NothingReloaded(c, msgs);
    ReloadAll(c, Fresh(c), msgs, 0);
    var d := ReloadFrom(Fresh(c), msgs, 0).0;
    ReloadMirrors(c, d, msgs);
    forall i | 0 <= i < |c.q| && c.q[i].pub.qos > 0 ensures IsReloaded(c, d, i) {
      TwinOf(c, d, i);
    }
  }

  lemma {:induction false} NothingReloaded(c: InConn, msgs: seq<(nat, Received)>)
    requires AllSane(msgs) && c.attached
    ensures ReloadedTo(c, Fresh(c), msgs, 0)
  {
  }

  lemma {:induction false} ReloadMirrors(c: InConn, d: InConn, msgs: seq<(nat, Received)>)
    requires AllSane(msgs) && Lists(msgs, c.rcvd) && ReloadedTo(c, d, msgs, |msgs|)
    ensures InBacked(d.q, d.rcvd) && AllQueued(d.q, d.rcvd) && FromStore(d) && KeysOk(d.rcvd, d.nextRcvId)
  {
    hide Parse, HashOk, InOrder, DistinctRcv, AllHashed, Framed;
    forall j | 0 <= j < |d.q|
      ensures d.q[j].rcvId in d.rcvd && Holds(d.q[j], d.rcvd[d.q[j].rcvId]) && d.q[j].pub.qos > 0
              && IsStored(d.q[j], d.rcvd[d.q[j].rcvId])
    {
      assert d.q[j] == LoadedRpq(msgs[j], c.arrivals + j) && Sane(msgs[j].1);
    }
    forall k | k in d.rcvd ensures HasRcv(d.q, k) && 0 < k <= d.nextRcvId {
      var j :| 0 <= j < |msgs| && msgs[j].0 == k;
      assert IdOk(d.attached, d.nextRcvId, d.q[j]);
      assert d.q[j] == LoadedRpq(msgs[j], c.arrivals + j) && Sane(msgs[j].1);
      assert d.q[j].rcvId == k && d.q[j].pub.qos > 0;
    }
  }

  lemma {:induction false} TwinOf(c: InConn, d: InConn, i: nat)
    requires InBacked(c.q, c.rcvd) && i < |c.q| && c.q[i].pub.qos > 0
    requires d.rcvd == c.rcvd && InBacked(d.q, d.rcvd) && AllQueued(d.q, d.rcvd) && FromStore(d)
    ensures IsReloaded(c, d, i)
  {
    hide Sane;
    var k := c.q[i].rcvId;
    assert HasRcv(d.q, k);
    var j :| 0 <= j < |d.q| && d.q[j].rcvId == k && d.q[j].pub.qos > 0;
    assert Holds(c.q[i], c.rcvd[k]) && Holds(d.q[j], c.rcvd[k]);
    assert Restored(c.q[i], d.q[j], c.rcvd[k]);
  }
}
