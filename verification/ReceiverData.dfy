/** Which messages the client holds, has stored as released, has released in memory or waits to release,
    and how each operation changes these. */
module ReceiverData {
  import opened Bytes
  import opened Wrappers
  import opened SentStores
  import opened Links
  import opened Inbound
  import opened InboundFacts
  import opened InboundRecovery

  ghost function HeldIn(c: InConn): set<nat> {
    set k | k in c.rcvd :: c.rcvd[k].origin
  }

  ghost function PastIn(c: InConn): set<nat> {
    set k | k in c.rcvd && Sane(c.rcvd[k]) && PubOf(c.rcvd[k]).flag == RELEASED :: c.rcvd[k].origin
  }

  ghost function ReleasedIn(c: InConn): set<nat> {
    set i | 0 <= i < |c.q| && c.q[i].pub.qos > 0 && c.q[i].pub.flag == RELEASED :: c.q[i].origin
  }

  ghost function WaitingIn(c: InConn): map<u16, nat> {
    map w | w in c.hash && PlaceOf(c.q, c.hash[w], 0) < |c.q| :: c.q[PlaceOf(c.q, c.hash[w], 0)].origin
  }

  /** All four views stay. */
  ghost predicate SameViews(c: InConn, d: InConn) {
    HeldIn(d) == HeldIn(c) && PastIn(d) == PastIn(c) && ReleasedIn(d) == ReleasedIn(c) && WaitingIn(d) == WaitingIn(c)
  }

  // ----- Entries and stored messages ------------------------------------------------------------

  lemma {:induction false} WaitingAt(c: InConn, i: nat)
    requires InSound(c) && i < |c.q| && Indexed(c.q[i].pub)
    ensures c.q[i].pub.id in WaitingIn(c) && WaitingIn(c)[c.q[i].pub.id] == c.q[i].origin
  {
    PlaceUnique(c.q, c.arrivals, i);
  }

  lemma {:induction false} WaitingEntry(c: InConn, w: u16) returns (i: nat)
    requires InSound(c) && w in c.hash
    ensures w in WaitingIn(c) && i < |c.q| && c.q[i].origin == WaitingIn(c)[w] && Indexed(c.q[i].pub)
            && c.q[i].pub.id == w
    ensures c.q[i].uid == c.hash[w] && i == PlaceOf(c.q, c.hash[w], 0)
  {
    i := HashPlace(c, w);
  }

  /** Which entry the index leads to, and what that means for the view. */
  lemma {:induction false} WaitingKeys(c: InConn)
    requires InInv(c)
    ensures WaitingIn(c).Keys == c.hash.Keys
  {
    forall w | w in c.hash ensures w in WaitingIn(c) { var k := HashPlace(c, w); }
  }

  lemma {:induction false} WaitingIs(c: InConn, w: u16, k: nat)
    requires InInv(c) && w in c.hash && k < |c.q| && c.q[k].uid == c.hash[w]
    ensures w in WaitingIn(c) && WaitingIn(c)[w] == c.q[k].origin
  {
    PlaceUnique(c.q, c.arrivals, k);
  }

  /** Acknowledging changes none of this. */
  lemma {:induction false} AckViews(c: InConn, d: InConn)
    requires InSound(c) && d == c.(sock := d.sock, acks := d.acks)
    ensures InSound(d) && SameViews(c, d)
  {
  }

  // ----- A new message --------------------------------------------------------------------------

  /** The entry of a new message that the store took, or that it need not take. */
  lemma {:induction false} EnlistSound(c: InConn, e: Rpq, next: nat, bytes: seq<byte>)
    requires InSound(c) && c.nextRcvId < next && e.uid == c.arrivals && FlagOk(e.pub) && e.pub.qos > 0
             && e.rcvId == next
    requires bytes != [] && Framed(bytes) && Parse(bytes, 0) == Some(e.pub) && e.pub.id !in c.hash
    ensures next !in c.rcvd
    ensures InSound(Enlist(c, e).(nextRcvId := next, rcvd := c.rcvd[next := Received(bytes, e.origin)]))
  {
    hide Parse, Framed, HashOk, InOrder, DistinctRcv, AllHashed;
    var d := Enlist(c, e).(nextRcvId := next, rcvd := c.rcvd[next := Received(bytes, e.origin)]);
    forall i | 0 <= i < |c.q| ensures c.q[i].rcvId < next { assert IdOk(c.attached, c.nextRcvId, c.q[i]); }
    EnlistKeeps(c, e, next);
    HashedToo(c, e);
    forall i | 0 <= i < |d.q| && d.q[i].pub.qos > 0
      ensures d.q[i].rcvId in d.rcvd && Holds(d.q[i], d.rcvd[d.q[i].rcvId])
    {
      if i < |c.q| { assert d.q[i] == c.q[i]; }
    }
    assert d.q[|c.q|] == e && HasRcv(d.q, next);
    forall k | k in c.rcvd && HasRcv(c.q, k) ensures HasRcv(d.q, k) { StillQueued(c.q, e, k); }
  }

  lemma {:induction false} StillQueued(q: seq<Rpq>, e: Rpq, k: nat)
    requires HasRcv(q, k)
    ensures HasRcv(q + [e], k)
  {
    var i :| 0 <= i < |q| && q[i].rcvId == k && q[i].pub.qos > 0;
    assert (q + [e])[i] == q[i];
  }

  lemma {:induction false} EnlistViews(c: InConn, e: Rpq, next: nat, bytes: seq<byte>)
    requires InSound(c) && next !in c.rcvd && e.pub.qos > 0 && e.uid == c.arrivals
    requires bytes != [] && Framed(bytes) && Parse(bytes, 0) == Some(e.pub) && FlagOk(e.pub) && e.pub.id !in c.hash
    requires InSound(Enlist(c, e).(nextRcvId := next, rcvd := c.rcvd[next := Received(bytes, e.origin)]))
    ensures var d := Enlist(c, e).(nextRcvId := next, rcvd := c.rcvd[next := Received(bytes, e.origin)]);
      var gone := if e.pub.flag == RELEASED then {e.origin} else {};
      && HeldIn(d) == HeldIn(c) + {e.origin} && PastIn(d) == PastIn(c) + gone && ReleasedIn(d) == ReleasedIn(c) + gone
      && WaitingIn(d) == if Indexed(e.pub) then WaitingIn(c)[e.pub.id := e.origin] else WaitingIn(c)
  {
    hide Parse, Framed, InInv, InBacked, InCovers, AllHashed, WaitingIn, ReleasedIn;
    var d := Enlist(c, e).(nextRcvId := next, rcvd := c.rcvd[next := Received(bytes, e.origin)]);
    SoundInv(c);
    SoundInv(d);
    SameQueue(Enlist(c, e), d);
    assert d.rcvd[next] == Received(bytes, e.origin);
    assert forall k :: k in c.rcvd ==> k in d.rcvd && d.rcvd[k] == c.rcvd[k];
    EnlistReleased(c, e);
    EnlistWaiting(c, d, e);
  }

  lemma {:induction false} SoundInv(c: InConn)
    requires InSound(c)
    ensures InInv(c) && c.attached
  {
  }

  lemma {:induction false} SameRcvd(c: InConn, d: InConn)
    requires d.rcvd == c.rcvd
    ensures HeldIn(d) == HeldIn(c) && PastIn(d) == PastIn(c)
  {
  }

  lemma {:induction false} SameQueue(c: InConn, d: InConn)
    requires d.q == c.q
    ensures ReleasedIn(d) == ReleasedIn(c)
  {
  }

  lemma {:induction false} EnlistReleased(c: InConn, e: Rpq)
    ensures ReleasedIn(Enlist(c, e)) ==
            ReleasedIn(c) + if e.pub.qos > 0 && e.pub.flag == RELEASED then {e.origin} else {}
  {
    var r := Enlist(c, e).q;
    assert r[|c.q|] == e && forall i :: 0 <= i < |c.q| ==> r[i] == c.q[i];
  }

  lemma {:induction false} EnlistWaiting(c: InConn, d: InConn, e: Rpq)
    requires InInv(c) && InInv(d) && d.q == c.q + [e] && d.hash == Enlist(c, e).hash && e.uid == c.arrivals
             && (Indexed(e.pub) ==> e.pub.id !in c.hash)
    ensures WaitingIn(d) == if Indexed(e.pub) then WaitingIn(c)[e.pub.id := e.origin] else WaitingIn(c)
  {
    hide InInv, InBacked, InCovers, AllHashed, WaitingIn, Indexed;
    WaitingKeys(c);
    WaitingKeys(d);
    forall w | w in c.hash ensures WaitingIn(c)[w] == WaitingIn(d)[w] {
      var k := HashPlace(c, w);
      assert d.q[k] == c.q[k];
      WaitingIs(c, w, k);
      WaitingIs(d, w, k);
    }
    if Indexed(e.pub) {
      assert d.q[|c.q|] == e;
      WaitingIs(d, e.pub.id, |c.q|);
    }
  }

  /** A QoS 0 message is only queued. */
  lemma {:induction false} PassingSound(c: InConn, e: Rpq)
    requires InSound(c) && e.uid == c.arrivals && FlagOk(e.pub) && e.pub.qos == 0 && e.rcvId == 0
    ensures InSound(Enlist(c, e)) && SameViews(c, Enlist(c, e))
  {
    hide InInv, AllHashed, WaitingIn, ReleasedIn, Holds, HeldIn, PastIn;
    var d := Enlist(c, e);
    EnlistKeeps(c, e, c.nextRcvId);
    HashedToo(c, e);
    assert forall i :: 0 <= i < |c.q| ==> d.q[i] == c.q[i];
    SameRcvd(c, d);
    forall k | k in d.rcvd && HasRcv(c.q, k) ensures HasRcv(d.q, k) { StillQueued(c.q, e, k); }
    EnlistReleased(c, e);
    EnlistWaiting(c, d, e);
  }

  /** What taking a decoded message does; nothing may wait under its id. */
  lemma {:induction false} TakeEffect(c: InConn, bytes: seq<byte>, p: Pub, u: nat, add: bool, ok: bool)
    requires InSound(c) && c.nextRcvId < MAX_RCVID && FlagOk(p) && (p.qos > 0 ==> p.id !in c.hash)
    requires bytes != [] && Framed(bytes) && Parse(bytes, 0) == Some(p)
    ensures var d := Take(c, bytes, p, u, add, ok);
      && InSound(d)
      && (if p.qos > 0 && add then
            var gone := if p.flag == RELEASED then {u} else {};
            && c.nextRcvId + 1 !in c.rcvd && d.rcvd == c.rcvd[c.nextRcvId + 1 := Received(bytes, u)]
            && HeldIn(d) == HeldIn(c) + {u} && PastIn(d) == PastIn(c) + gone && ReleasedIn(d) == ReleasedIn(c) + gone
            && WaitingIn(d) == if Indexed(p) then WaitingIn(c)[p.id := u] else WaitingIn(c)
          else SameViews(c, d) && d.rcvd == c.rcvd)
  {
    hide Parse, Framed, InSound, HeldIn, PastIn, ReleasedIn, WaitingIn;
    AttachedSound(c);
    var e := NewEntry(c, p, u);
    if p.qos == 0 {
      PassingSound(c, e);
    } else if add {
      EnlistSound(c, e, e.rcvId, bytes);
      EnlistViews(c, e, e.rcvId, bytes);
      var d := Enlist(c, e).(nextRcvId := e.rcvId, rcvd := c.rcvd[e.rcvId := Received(bytes, u)]);
      RespondOnly(d, p, u, ok);
      AckViews(d, Respond(d, p, u, ok));
    } else {
      RefusedSound(c, Take(c, bytes, p, u, add, ok));
    }
  }

  lemma {:induction false} AttachedSound(c: InConn)
    requires InSound(c)
    ensures c.attached
  {
  }

  /** The store refused: only numbers move on. */
  lemma {:induction false} RefusedSound(c: InConn, d: InConn)
    requires InSound(c) && d.q == c.q && d.hash == c.hash && d.attached && d.rcvd == c.rcvd
    requires c.nextRcvId <= d.nextRcvId && c.arrivals <= d.arrivals
    ensures InSound(d) && SameViews(c, d)
  {
    forall i | 0 <= i < |d.q| ensures FlagOk(d.q[i].pub) && IdOk(d.attached, d.nextRcvId, d.q[i]) {
      assert FlagOk(c.q[i].pub) && IdOk(c.attached, c.nextRcvId, c.q[i]);
    }
  }

  // ----- A release ------------------------------------------------------------------------------

  /** The stored message of a queue entry with its flag set. */
  lemma {:induction false} FlagSet(v: Received)
    requires Sane(v)
    ensures var w := v.(bytes := SetFlag(v.bytes, RELEASED)); Sane(w) && PubOf(w) == PubOf(v).(flag := RELEASED)
  {
    hide Parse, Framed;
    ParseFlag(v.bytes, RELEASED, 0, 0);
  }

  lemma {:induction false} SetIsLeft(v: Received)
    requires Sane(v)
    ensures LeftOver(v.(bytes := SetFlag(v.bytes, RELEASED)))
  {
    FlagSet(v);
  }

  lemma {:induction false} SetBacked(q: seq<Rpq>, rcvd: map<nat, Received>, r: nat)
    requires InBacked(q, rcvd) && InCovers(q, rcvd) && r in rcvd && Sane(rcvd[r])
    ensures var s := rcvd[r := rcvd[r].(bytes := SetFlag(rcvd[r].bytes, RELEASED))]; InBacked(q, s) && InCovers(q, s)
  {
    var s := rcvd[r := rcvd[r].(bytes := SetFlag(rcvd[r].bytes, RELEASED))];
    hide Sane, PubOf, FlagOk;
    FlagSet(rcvd[r]);
    assert LeftOver(s[r]) by { SetIsLeft(rcvd[r]); }
    forall i | 0 <= i < |q| && q[i].pub.qos > 0 ensures q[i].rcvId in s && Holds(q[i], s[q[i].rcvId]) {
      assert Holds(q[i], rcvd[q[i].rcvId]);
      HeldFlag(q[i], rcvd[q[i].rcvId]);
    }
  }

  lemma {:induction false} HeldFlag(e: Rpq, v: Received)
    requires Holds(e, v)
    ensures Sane(v) && PubOf(v).flag <= RELEASED && e.pub.flag <= RELEASED
  {
  }

  /** The store has the release, memory not yet. */
  function Promised(c: InConn, k: nat): InConn
    requires k < |c.q| && c.q[k].rcvId in c.rcvd && c.rcvd[c.q[k].rcvId].bytes != []
  {
    c.(rcvd := SetReleased(c.rcvd, c.q[k].rcvId, Set))
  }

  lemma {:induction false} PromisedEffect(c: InConn, k: nat)
    requires InSound(c) && k < |c.q| && c.q[k].pub.qos > 0
    ensures var r := c.q[k].rcvId;
      && r in c.rcvd && Sane(c.rcvd[r]) && c.rcvd[r].origin == c.q[k].origin
      && var d := Promised(c, k);
         && InSound(d) && d.rcvd == c.rcvd[r := c.rcvd[r].(bytes := SetFlag(c.rcvd[r].bytes, RELEASED))]
         && Sane(d.rcvd[r]) && PubOf(d.rcvd[r]) == PubOf(c.rcvd[r]).(flag := RELEASED)
         && HeldIn(d) == HeldIn(c) && PastIn(d) == PastIn(c) + {c.q[k].origin}
         && ReleasedIn(d) == ReleasedIn(c) && WaitingIn(d) == WaitingIn(c)
  {
    hide Parse, Framed, HashOk, InOrder, DistinctRcv, AllHashed, EntriesOk;
    var r := c.q[k].rcvId;
    assert Holds(c.q[k], c.rcvd[r]);
    SetBacked(c.q, c.rcvd, r);
    FlagSet(c.rcvd[r]);
    var d := Promised(c, k);
    PastSet(c, d, r);
    assert forall l :: l in c.rcvd ==> l in d.rcvd && d.rcvd[l].origin == c.rcvd[l].origin;
  }

  lemma {:induction false} PastSet(c: InConn, d: InConn, r: nat)
    requires r in c.rcvd && d.rcvd.Keys == c.rcvd.Keys && d.rcvd[r].origin == c.rcvd[r].origin
    requires Sane(d.rcvd[r]) && PubOf(d.rcvd[r]).flag == RELEASED && forall l :: l in c.rcvd && l != r ==>
             d.rcvd[l] == c.rcvd[l]
    ensures PastIn(d) == PastIn(c) + {c.rcvd[r].origin} && HeldIn(d) == HeldIn(c)
  {
    hide Sane, PubOf;
  }

  /** Memory follows the store. */
  lemma {:induction false} ReleaseEffect(c: InConn, id: u16, k: nat)
    requires InSound(c) && id in c.hash && k == PlaceOf(c.q, c.hash[id], 0) && k < |c.q|
    requires c.q[k].rcvId in c.rcvd && Sane(c.rcvd[c.q[k].rcvId]) && PubOf(c.rcvd[c.q[k].rcvId]).flag == RELEASED
    requires Indexed(c.q[k].pub) && c.q[k].pub.id == id
    ensures var d := Release(c, id, k);
      && InSound(d) && HeldIn(d) == HeldIn(c) && PastIn(d) == PastIn(c)
      && ReleasedIn(d) == ReleasedIn(c) + {c.q[k].origin} && WaitingIn(d) == WaitingIn(c) - {id}
  {
    hide Parse, Framed, HashOk, InOrder, DistinctRcv, EntriesOk, WaitingIn, ReleasedIn, InBacked, InCovers, AllHashed;
    var d := Release(c, id, k);
    ReleaseKeeps(c, id);
    ReleaseBacked(c.q, c.rcvd, k);
    ReleaseHashed(c, id, k);
    ReleaseWaiting(c, id, k);
    ReleaseReleased(c, id, k);
    SameRcvd(c, d);
  }

  lemma {:induction false} ReleaseBacked(q: seq<Rpq>, rcvd: map<nat, Received>, k: nat)
    requires InBacked(q, rcvd) && InCovers(q, rcvd) && k < |q| && q[k].rcvId in rcvd
    requires Sane(rcvd[q[k].rcvId]) && PubOf(rcvd[q[k].rcvId]).flag == RELEASED
    ensures var r := q[k := WithFlag(q[k], RELEASED)]; InBacked(r, rcvd) && InCovers(r, rcvd)
  {
    hide Sane, PubOf;
    var r := q[k := WithFlag(q[k], RELEASED)];
    forall i | 0 <= i < |r| && r[i].pub.qos > 0 ensures r[i].rcvId in rcvd && Holds(r[i], rcvd[r[i].rcvId]) {
      assert Holds(q[i], rcvd[q[i].rcvId]);
    }
    forall l | l in rcvd && HasRcv(q, l) ensures HasRcv(r, l) {
      var i :| 0 <= i < |q| && q[i].rcvId == l && q[i].pub.qos > 0;
      assert r[i].rcvId == l && r[i].pub.qos > 0;
    }
  }

  lemma {:induction false} ReleaseHashed(c: InConn, id: u16, k: nat)
    requires AllHashed(c.q, c.hash) && InInv(c) && k < |c.q| && id in c.hash && c.q[k].uid == c.hash[id]
    ensures var d := Release(c, id, k); AllHashed(d.q, d.hash)
  {
    hide HashOk, EntriesOk, DistinctRcv;
    var d := Release(c, id, k);
    forall i | 0 <= i < |d.q| && Indexed(d.q[i].pub)
      ensures d.q[i].pub.id in d.hash && d.hash[d.q[i].pub.id] == d.q[i].uid
    {
      assert d.q[i] == c.q[i];
      assert i < k || k < i;
    }
  }

  lemma {:induction false} ReleaseWaiting(c: InConn, id: u16, k: nat)
    requires k < |c.q| && id in c.hash && InInv(c) && InInv(Release(c, id, k))
    ensures WaitingIn(Release(c, id, k)) == WaitingIn(c) - {id}
  {
    hide InInv, WaitingIn, Indexed;
    var d := Release(c, id, k);
    WaitingKeys(c);
    WaitingKeys(d);
    forall w | w in d.hash ensures WaitingIn(c)[w] == WaitingIn(d)[w] {
      var j := HashPlace(c, w);
      WaitingIs(c, w, j);
      WaitingIs(d, w, j);
    }
  }

  lemma {:induction false} ReleaseReleased(c: InConn, id: u16, k: nat)
    requires k < |c.q| && Indexed(c.q[k].pub)
    ensures ReleasedIn(Release(c, id, k)) == ReleasedIn(c) + {c.q[k].origin}
  {
    var r := Release(c, id, k).q;
    assert forall i :: 0 <= i < |r| && i != k ==> r[i] == c.q[i];
    assert r[k].pub.qos > 0 && r[k].pub.flag == RELEASED && r[k].origin == c.q[k].origin;
  }

  /** The same stored message, up to its flag. */
  predicate SameMessage(v: Received, w: Received) {
    && w.origin == v.origin && (Sane(v) ==> Sane(w) && PubOf(w).qos == PubOf(v).qos && PubOf(w).id == PubOf(v).id)
    && (LeftOver(v) ==> LeftOver(w))
  }

  /** What a received PUBREL does. */
  lemma {:induction false} PubrelEffect(c: InConn, id: u16, u: nat, upd: UpdResult, ok: bool)
    requires InSound(c)
    ensures var d := OnPubrel(c, id, u, upd, ok);
      && InSound(d) && d.rcvd.Keys == c.rcvd.Keys && (forall k :: k in c.rcvd ==> SameMessage(c.rcvd[k], d.rcvd[k]))
      && (id !in c.hash ==> SameViews(c, d) && d.q == c.q && d.rcvd == c.rcvd)
      && (id in c.hash ==>
            && id in WaitingIn(c)
            && var o := WaitingIn(c)[id];
               && HeldIn(d) == HeldIn(c)
               && PastIn(d) == PastIn(c) + (if upd.NotSet? then {} else {o})
               && ReleasedIn(d) == ReleasedIn(c) + (if upd.Set? then {o} else {})
               && WaitingIn(d) == if upd.Set? then WaitingIn(c) - {id} else WaitingIn(c))
  {
    hide InInv, InBacked, InCovers, AllHashed, HeldIn, PastIn, ReleasedIn, WaitingIn, Parse, Framed;
    var d := OnPubrel(c, id, u, upd, ok);
    if id !in c.hash {
      AckViews(c, d);
    } else {
      var k := WaitingEntry(c, id);
      PromisedEffect(c, k);
      var c1 := Promised(c, k);
      if upd.Set? {
        ReleaseEffect(c1, id, k);
        AckViews(Release(c1, id, k), d);
      }
    }
  }

  // ----- Delivery -------------------------------------------------------------------------------

  /** Where an entry stands after the k-th is gone. */
  function Moved(j: nat, k: nat): nat
    requires j != k
  {
    if j < k then j else j - 1
  }

  lemma {:induction false} DropSame(q: seq<Rpq>, k: nat, j: nat)
    requires k < |q| && j < |q| && j != k
    ensures Moved(j, k) < |Drop(q, k)| && Drop(q, k)[Moved(j, k)] == q[j]
  {
  }

  lemma {:induction false} DropFrom(q: seq<Rpq>, k: nat, i: nat)
    requires k < |q| && i < |Drop(q, k)|
    ensures |Drop(q, k)| == |q| - 1 && Drop(q, k)[i] == q[if i < k then i else i + 1]
  {
  }

  /** The numbers of the flow that a delivered entry takes with it. */
  function Taken(e: Rpq): set<nat> {
    if e.pub.qos > 0 then {e.origin} else {}
  }

  /** The store after the entry was delivered; a deletion that fails leaves the message there. */
  function Deleted(rcvd: map<nat, Received>, e: Rpq, del: bool): map<nat, Received> {
    if e.pub.qos > 0 && del then rcvd - {e.rcvId} else rcvd
  }

  lemma {:induction false} DropMirrors(c: InConn, k: nat, del: bool)
    requires InSound(c) && k < |c.q| && c.q[k].pub.flag == RELEASED
    ensures var q, rcvd := Drop(c.q, k), Deleted(c.rcvd, c.q[k], del);
      InBacked(q, rcvd) && InCovers(q, rcvd) && KeysOk(rcvd, c.nextRcvId)
  {
    hide HashOk, InOrder, AllHashed, Sane;
    var q, rcvd := Drop(c.q, k), Deleted(c.rcvd, c.q[k], del);
    forall i | 0 <= i < |q| && q[i].pub.qos > 0 ensures q[i].rcvId in rcvd && Holds(q[i], rcvd[q[i].rcvId]) {
      var j := if i < k then i else i + 1;
      DropFrom(c.q, k, i);
      assert q[i] == c.q[j];
      assert IdOk(c.attached, c.nextRcvId, c.q[j]);
    }
    forall l | l in rcvd ensures HasRcv(q, l) || LeftOver(rcvd[l]) {
      if HasRcv(c.q, l) {
        var j :| 0 <= j < |c.q| && c.q[j].rcvId == l && c.q[j].pub.qos > 0;
        if j == k {
          ReleasedHeld(c.q[k], c.rcvd[l]);
        } else {
          DropSame(c.q, k, j);
        }
      }
    }
  }

  /** What is released in memory is released in the store. */
  lemma {:induction false} ReleasedHeld(e: Rpq, v: Received)
    requires Holds(e, v) && e.pub.flag == RELEASED
    ensures LeftOver(v)
  {
  }

  lemma {:induction false} DropAllHashed(q: seq<Rpq>, hash: map<u16, nat>, k: nat)
    requires AllHashed(q, hash) && k < |q|
    ensures AllHashed(Drop(q, k), hash)
  {
    hide Indexed, Drop;
    forall i | 0 <= i < |Drop(q, k)| && Indexed(Drop(q, k)[i].pub)
      ensures Drop(q, k)[i].pub.id in hash && hash[Drop(q, k)[i].pub.id] == Drop(q, k)[i].uid
    {
      DropFrom(q, k, i);
    }
  }

  lemma {:induction false} DropReleased(c: InConn, d: InConn, k: nat)
    requires k < |c.q| && d.q == Drop(c.q, k) && c.q[k].pub.flag == RELEASED
    ensures ReleasedIn(d) + Taken(c.q[k]) == ReleasedIn(c)
  {
    hide Drop;
    forall i | 0 <= i < |c.q| && c.q[i].pub.qos > 0 && c.q[i].pub.flag == RELEASED && i != k
      ensures c.q[i].origin in ReleasedIn(d)
    {
      DropSame(c.q, k, i);
    }
    forall i | 0 <= i < |d.q| && d.q[i].pub.qos > 0 && d.q[i].pub.flag == RELEASED
      ensures d.q[i].origin in ReleasedIn(c)
    {
      DropFrom(c.q, k, i);
    }
  }

  lemma {:induction false} DropWaiting(c: InConn, d: InConn, k: nat)
    requires InInv(c) && InInv(d) && k < |c.q| && d.q == Drop(c.q, k) && d.hash == c.hash && c.q[k].pub.flag != 0
    ensures WaitingIn(d) == WaitingIn(c)
  {
    hide InInv, WaitingIn, Drop;
    WaitingKeys(c);
    WaitingKeys(d);
    forall w | w in c.hash ensures WaitingIn(d)[w] == WaitingIn(c)[w] {
      var j := HashPlace(c, w);
      WaitingIs(c, w, j);
      DropSame(c.q, k, j);
      WaitingIs(d, w, Moved(j, k));
    }
  }

  lemma {:induction false} DropStored(c: InConn, d: InConn, k: nat)
    requires k < |c.q| && c.q[k].pub.qos > 0 && c.q[k].rcvId in c.rcvd && d.rcvd == c.rcvd - {c.q[k].rcvId}
    requires Sane(c.rcvd[c.q[k].rcvId]) && PubOf(c.rcvd[c.q[k].rcvId]).flag == RELEASED
    requires c.rcvd[c.q[k].rcvId].origin == c.q[k].origin
    ensures HeldIn(d) + Taken(c.q[k]) == HeldIn(c) && PastIn(d) + Taken(c.q[k]) == PastIn(c)
  {
    hide Sane, PubOf;
    assert forall l :: l in d.rcvd <==> l in c.rcvd && l != c.q[k].rcvId;
    assert forall l :: l in d.rcvd ==> d.rcvd[l] == c.rcvd[l];
    forall l | l in c.rcvd && l != c.q[k].rcvId ensures c.rcvd[l].origin in HeldIn(d) { assert d.rcvd[l] == c.rcvd[l]; }
    forall l | l in c.rcvd && l != c.q[k].rcvId && Sane(c.rcvd[l]) && PubOf(c.rcvd[l]).flag == RELEASED
      ensures c.rcvd[l].origin in PastIn(d)
    {
      assert d.rcvd[l] == c.rcvd[l];
    }
  }

  /** What delivering the first ready publication does, whether or not it can be deleted. */
  lemma {:induction false} AcceptEffect(c: InConn, del: bool)
    requires InSound(c) && FirstReady(c.q, 0) < |c.q|
    ensures var k := FirstReady(c.q, 0);
      var e := c.q[k];
      var d := Accept(c, e.rcvId, del);
      && InSound(d) && d.q == Drop(c.q, k) && d.sock == c.sock && d.acks == c.acks && d.rcvd == Deleted(c.rcvd, e, del)
      && e.pub.flag == RELEASED
      && (e.pub.qos > 0 ==> e.rcvId in c.rcvd && c.rcvd[e.rcvId].origin == e.origin && LeftOver(c.rcvd[e.rcvId]))
      && HeldIn(d) + Taken(e) == HeldIn(c) && PastIn(d) + Taken(e) == PastIn(c)
      && ReleasedIn(d) + Taken(e) == ReleasedIn(c) && WaitingIn(d) == WaitingIn(c)
  {
    hide HashOk, InOrder, DistinctRcv, AllHashed, InCovers, HeldIn, PastIn, ReleasedIn, WaitingIn, Sane, KeysOk;
    var k := FirstReady(c.q, 0);
    var e := c.q[k];
    var d := Accept(c, e.rcvId, del);
    OfferedIsFoundIff(c);
    assert FlagOk(e.pub);
    AcceptKeeps(c, e.rcvId, del);
    DropMirrors(c, k, del);
    DropAllHashed(c.q, c.hash, k);
    DropReleased(c, d, k);
    DropWaiting(c, d, k);
    if e.pub.qos > 0 {
      assert Holds(e, c.rcvd[e.rcvId]);
      ReleasedHeld(e, c.rcvd[e.rcvId]);
      if del { DropStored(c, d, k); } else { KeptStored(c, d, k); }
    } else {
      SameRcvd(c, d);
    }
  }

  lemma {:induction false} KeptStored(c: InConn, d: InConn, k: nat)
    requires k < |c.q| && c.q[k].pub.qos > 0 && c.q[k].rcvId in c.rcvd && d.rcvd == c.rcvd
    requires LeftOver(c.rcvd[c.q[k].rcvId]) && c.rcvd[c.q[k].rcvId].origin == c.q[k].origin
    ensures HeldIn(d) + Taken(c.q[k]) == HeldIn(c) && PastIn(d) + Taken(c.q[k]) == PastIn(c)
  {
    hide Sane, PubOf;
  }

  // ----- Reload ---------------------------------------------------------------------------------

  lemma {:induction false} ReloadedReleased(c: InConn, d: InConn)
    requires InSound(d) && FromStore(d) && AllQueued(d.q, d.rcvd) && d.rcvd == c.rcvd
    ensures ReleasedIn(d) == PastIn(c)
  {
    hide HashOk, InOrder, DistinctRcv, AllHashed, Parse, Framed;
    forall k | k in c.rcvd && Sane(c.rcvd[k]) && PubOf(c.rcvd[k]).flag == RELEASED
      ensures c.rcvd[k].origin in ReleasedIn(d)
    {
      var i := EntryOf(d, k);
      assert IsStored(d.q[i], d.rcvd[k]);
    }
    forall i | 0 <= i < |d.q| && d.q[i].pub.qos > 0 && d.q[i].pub.flag == RELEASED ensures d.q[i].origin in PastIn(c) {
      assert IsStored(d.q[i], d.rcvd[d.q[i].rcvId]);
    }
  }

  lemma {:induction false} ReloadedWaiting(c: InConn, d: InConn, w: u16)
    requires InSound(c) && InSound(d) && FromStore(d) && d.rcvd == c.rcvd && w in WaitingIn(d)
    ensures w in WaitingIn(c) && WaitingIn(c)[w] == WaitingIn(d)[w]
  {
    hide HashOk, InOrder, DistinctRcv, AllHashed, Parse, Framed, InBacked, InCovers, WaitingIn;
    WaitingKeys(d);
    var j := WaitingEntry(d, w);
    var k := d.q[j].rcvId;
    assert IsStored(d.q[j], d.rcvd[k]);
    WaitingQueued(c, k);
    var i := EntryOf(c, k);
    WaitingAt(c, i);
  }

  /** What a reload does: what the store says is released is released, nothing new waits. */
  lemma {:induction false} ReloadEffect(c: InConn, msgs: seq<(nat, Received)>)
    requires InSound(c) && Lists(msgs, c.rcvd) && forall i :: 0 <= i < |msgs| ==> msgs[i].1.bytes != []
    ensures var d := ReloadFrom(Fresh(c), msgs, 0).0;
      && InSound(d) && FromStore(d) && AllQueued(d.q, d.rcvd) && d.rcvd == c.rcvd && d.acks == c.acks && !d.sock
      && HeldIn(d) == HeldIn(c) && PastIn(d) == PastIn(c) && ReleasedIn(d) == PastIn(c)
      && WaitingIn(d) == WaitingIn(c) - (WaitingIn(c).Keys - WaitingIn(d).Keys)
  {
    hide InSound, FromStore, AllQueued, HeldIn, PastIn, ReleasedIn, WaitingIn, Lists;
    ReloadRestores(c, msgs);
    var d := ReloadFrom(Fresh(c), msgs, 0).0;
    ReloadedReleased(c, d);
    SameRcvd(c, d);
    forall w | w in WaitingIn(d) ensures w in WaitingIn(c) && WaitingIn(c)[w] == WaitingIn(d)[w] {
      ReloadedWaiting(c, d, w);
    }
  }

  /** What is released in memory is released in the store. */
  lemma {:induction false} ReleasedIsPast(c: InConn)
    requires InSound(c)
    ensures ReleasedIn(c) <= PastIn(c) <= HeldIn(c)
  {
    hide HashOk, InOrder, DistinctRcv, AllHashed, Parse, Framed, InCovers;
    forall i | 0 <= i < |c.q| && c.q[i].pub.qos > 0 && c.q[i].pub.flag == RELEASED ensures c.q[i].origin in PastIn(c) {
      var v := c.rcvd[c.q[i].rcvId];
      assert Holds(c.q[i], v);
      assert PubOf(v).flag == RELEASED;
    }
  }
}
