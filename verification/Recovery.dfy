/** What a reload at connect gives back, and the byte cap that makes it possible. */
module Recovery {
  import opened Bytes
  import opened SentStores
  import opened Outbound
  import opened QueueFacts

  /** Two messages that differ at most in the DUP bit. */
  predicate SameUpToDup(a: Message, b: Message) {
    WithDup(a) == WithDup(b)
  }

  predicate Matches(e: Entry, v: Stored) {
    SameUpToDup(e.data, v.data) && e.origin == v.origin
  }

  /** Every queued message is in the store ... */
  predicate Backed(q: seq<Entry>, view: map<nat, Stored>) {
    forall i :: 0 <= i < |q| ==> AddKey(q[i].id) in view && Matches(q[i], view[AddKey(q[i].id)])
  }

  predicate HasKey(q: seq<Entry>, k: nat) {
    exists i :: 0 <= i < |q| && AddKey(q[i].id) == k
  }

  /** ... and every stored message is queued. */
  predicate Covers(q: seq<Entry>, view: map<nat, Stored>) {
    forall k :: k in view ==> HasKey(q, k)
  }

  /** Queue and store hold the same messages under the same ids. */
  predicate Mirrors(q: seq<Entry>, view: map<nat, Stored>) {
    DistinctIds(q) && Backed(q, view) && Covers(q, view)
  }

  predicate AllStored(q: seq<Entry>) {
    forall i :: 0 <= i < |q| ==> IsStored(q[i].data)
  }

  predicate Sound(c: Conn) {
    c.attached && Mirrors(c.q, c.store.View()) && Total(c.q) <= MAX_OUTQ && AllStored(c.q)
  }

  // ----- Steps that keep queue and store the same -----------------------------------------------

  lemma {:induction false} WithoutIndex(q: seq<Entry>, id: u16, i: nat) returns (k: nat)
    requires i < |Without(q, id)|
    ensures k < |q| && q[k] == Without(q, id)[i] && q[k].id != id
  {
    WithoutDrops(q, id);
    assert Without(q, id)[i] in q;
    k :| 0 <= k < |q| && q[k] == Without(q, id)[i];
  }

  lemma {:induction false} WithoutCovers(q: seq<Entry>, id: u16, k: nat)
    requires HasKey(q, k) && k != AddKey(id)
    ensures HasKey(Without(q, id), k)
  {
    WithoutDrops(q, id);
    var i :| 0 <= i < |q| && AddKey(q[i].id) == k;
    assert q[i] in Without(q, id);
    var j :| 0 <= j < |Without(q, id)| && Without(q, id)[j] == q[i];
  }

  lemma {:induction false} WithoutBacked(q: seq<Entry>, id: u16, view: map<nat, Stored>, view1: map<nat, Stored>)
    requires Backed(q, view)
    requires forall k :: k in view && k != AddKey(id) ==> k in view1 && view1[k] == view[k]
    ensures Backed(Without(q, id), view1)
  {
    var w := Without(q, id);
    forall i | 0 <= i < |w| ensures AddKey(w[i].id) in view1 && Matches(w[i], view1[AddKey(w[i].id)]) {
      var k := WithoutIndex(q, id, i);
      assert AddKey(q[k].id) != AddKey(id);
    }
  }

  lemma {:induction false} WithoutStored(q: seq<Entry>, id: u16)
    requires AllStored(q)
    ensures AllStored(Without(q, id))
  {
    forall i | 0 <= i < |Without(q, id)| ensures IsStored(Without(q, id)[i].data) {
      var k := WithoutIndex(q, id, i);
    }
  }

  lemma {:induction false} QueuedMirrors(q: seq<Entry>, e: Entry, v: Stored, view: map<nat, Stored>)
    requires Mirrors(q, view) && Matches(e, v)
    ensures Mirrors(Without(q, e.id) + [e], view[AddKey(e.id) := v])
  {
    hide Without, Matches;
    var w, q1, view1 := Without(q, e.id), Without(q, e.id) + [e], view[AddKey(e.id) := v];
    WithoutDrops(q, e.id);
    WithoutBacked(q, e.id, view, view1);
    assert Backed(q1, view1);
    forall k | k in view1 ensures HasKey(q1, k) {
      if k == AddKey(e.id) {
        assert AddKey(q1[|w|].id) == k;
      } else {
        WithoutCovers(q, e.id, k);
        var i :| 0 <= i < |w| && AddKey(w[i].id) == k;
        assert AddKey(q1[i].id) == k;
      }
    }
    assert forall i :: 0 <= i < |w| ==> w[i] in w;
  }

  lemma {:induction false} QueuedFits(q: seq<Entry>, e: Entry)
    requires Total(q) + e.data.Size() + IPQ_SIZE <= MAX_OUTQ && AllStored(q) && IsStored(e.data)
    ensures Total(Without(q, e.id) + [e]) <= MAX_OUTQ && AllStored(Without(q, e.id) + [e])
  {
    TotalWithout(q, e.id);
    TotalConcat(Without(q, e.id), [e]);
    TotalOne(e);
    WithoutStored(q, e.id);
  }

  lemma {:induction false} WriteSound(c: Conn, p: Packet, ok: bool)
    requires Sound(c)
    ensures Sound(Write(c, p, ok).0) && |Write(c, p, ok).0.q| == |c.q|
  {
  }

  /** A send keeps queue and store the same, whether it succeeds, is refused for space, is refused
      by the store and rolled back, or is queued and not written. */
  lemma {:induction false} SendSound(c: Conn, data: Message, id: u16, origin: nat, put: PutResult, writeOk: bool)
    requires Sound(c)
    requires IsRel(data) || AddKey(id) !in c.store.upd
    ensures Sound(Send(c, data, id, origin, false, put, writeOk).0)
  {
    var e := Entry(id, data, InProgress, origin);
    if !IsStored(data) {
      WriteSound(c, PacketOf(e), writeOk);
    } else if Admit(c, data, false, put).Ok? {
      PutView(c.store, id, Stored(data, origin), put);
      QueuedMirrors(c.q, e, Stored(data, origin), c.store.View());
      QueuedFits(c.q, e);
      WriteSound(Queued(c, e, false, put), PacketOf(e), writeOk);
    }
  }

  /** An acknowledgement keeps queue and store the same for ids that fit a signed short, when the
      store deletes what it is asked to delete. */
  lemma {:induction false} AckSound(c: Conn, id: u16)
    requires Sound(c) && id <= 32767
    ensures Sound(OnAck(c, id, BothRemoved))
  {
    var c1, view := OnAck(c, id, BothRemoved), c.store.View();
    assert c1.store.View() == view - {AddKey(id)};
    WithoutDrops(c.q, id);
    TotalWithout(c.q, id);
    WithoutStored(c.q, id);
    AckBacked(c.q, id, view);
    forall k | k in c1.store.View() ensures HasKey(c1.q, k) {
      WithoutCovers(c.q, id, k);
    }
  }

  lemma {:induction false} AckBacked(q: seq<Entry>, id: u16, view: map<nat, Stored>)
    requires Backed(q, view)
    ensures Backed(Without(q, id), view - {AddKey(id)})
  {
    WithoutBacked(q, id, view, view - {AddKey(id)});
  }

  lemma {:induction false} WithoutLosesKey(q: seq<Entry>, id: u16)
    ensures !HasKey(Without(q, id), AddKey(id))
  {
    forall i | 0 <= i < |Without(q, id)| ensures AddKey(Without(q, id)[i].id) != AddKey(id) {
      var k := WithoutIndex(q, id, i);
    }
  }

  /** For any other id the acknowledged message stays in the store, and queue and store differ. */
  lemma {:induction false} AckLeaks(c: Conn, id: u16, del: DelResult)
    requires Sound(c) && HasId(c.q, id) && id > 32767
    ensures AddKey(id) in OnAck(c, id, del).store.View() && !HasKey(OnAck(c, id, del).q, AddKey(id))
    ensures !Sound(OnAck(c, id, del))
  {
    KeysAgreeIff(id);
    DeleteView(c.store, DelKey(id), del);
    WithoutLosesKey(c.q, id);
    var i :| 0 <= i < |c.q| && c.q[i].id == id;
    assert AddKey(c.q[i].id) in c.store.View();
  }

  /** So an acknowledgement keeps queue and store the same exactly for ids up to 32767. */
  lemma {:induction false} AckSoundIff(c: Conn, id: u16)
    requires Sound(c) && HasId(c.q, id)
    ensures Sound(OnAck(c, id, BothRemoved)) <==> id <= 32767
  {
    hide Sound;
    if id <= 32767 { AckSound(c, id); } else { AckLeaks(c, id, BothRemoved); }
  }

  lemma {:induction false} RetryStepSound(c: Conn, i: nat, writeOk: bool)
    requires Sound(c) && i < |c.q|
    ensures Sound(RetryStep(c, i, writeOk)) && |RetryStep(c, i, writeOk).q| == |c.q|
  {
    var e := Retried(c.q[i]);
    var c1 := c.(q := c.q[i := e]);
    MarkMirrors(c.q, i, c.store.View());
    MarkFits(c.q, i);
    assert Sound(c1);
    if c.q[i].status.Retrying? {
      WriteSound(c1, PacketOf(e), writeOk);
    }
  }

  lemma {:induction false} RetrySound(c: Conn, writes: seq<bool>)
    requires Sound(c) && |writes| == |c.q|
    ensures Sound(Retry(c, writes))
  {
    forall d: Conn, j: nat, ok | Sound(d) && j < |d.q| ensures Sound(RetryStep(d, j, ok)) {
      RetryStepSound(d, j, ok);
    }
    RetryInduction(d => Sound(d), c, 0, writes);
  }

  lemma {:induction false} MarkFits(q: seq<Entry>, i: nat)
    requires i < |q| && AllStored(q)
    ensures AllStored(q[i := Retried(q[i])]) && Total(q[i := Retried(q[i])]) == Total(q)
  {
    TotalUpdate(q, i, Retried(q[i]));
  }

  lemma {:induction false} MarkMirrors(q: seq<Entry>, i: nat, view: map<nat, Stored>)
    requires Mirrors(q, view) && i < |q|
    ensures Mirrors(q[i := Retried(q[i])], view)
  {
    var q1 := q[i := Retried(q[i])];
    assert forall j :: 0 <= j < |q| ==> q1[j].id == q[j].id;
    forall k | k in view ensures HasKey(q1, k) {
      var j :| 0 <= j < |q| && AddKey(q[j].id) == k;
      assert AddKey(q1[j].id) == k;
    }
  }

  // ----- Reload ---------------------------------------------------------------------------------

  function LoadedEntry(m: (nat, Stored)): Entry {
    Entry(IdOfKey(m.0), m.1.data, Retrying, m.1.origin)
  }

  function Loaded(msgs: seq<(nat, Stored)>): (q: seq<Entry>)
    ensures |q| == |msgs| && forall i {:trigger q[i]} :: 0 <= i < |msgs| ==> q[i] == LoadedEntry(msgs[i])
  {
    seq(|msgs|, i requires 0 <= i < |msgs| => LoadedEntry(msgs[i]))
  }

  /** Entry e holds what the stored message m holds. */
  predicate Twin(e: Entry, m: (nat, Stored)) {
    AddKey(e.id) == m.0 && e.data.Size() == m.1.data.Size()
  }

  predicate HasTwin(q: seq<Entry>, m: (nat, Stored)) {
    exists k :: 0 <= k < |q| && Twin(q[k], m)
  }

  lemma {:induction false} TwinRemains(q: seq<Entry>, k: nat, m: (nat, Stored))
    requires k < |q| && HasTwin(q, m) && AddKey(q[k].id) != m.0
    ensures HasTwin(q[..k] + q[k + 1..], m)
  {
    var j :| 0 <= j < |q| && Twin(q[j], m);
    assert (q[..k] + q[k + 1..])[if j < k then j else j - 1] == q[j];
  }

  /** Messages that the queue holds, each once, take no more room than the queue. */
  lemma {:induction false} LoadedFits(msgs: seq<(nat, Stored)>, q: seq<Entry>)
    requires DistinctKeys(msgs)
    requires forall i :: 0 <= i < |msgs| ==> HasTwin(q, msgs[i])
    ensures Total(Loaded(msgs)) <= Total(q)
    decreases |msgs|
  {
    if msgs != [] {
      var n := |msgs| - 1;
      var k :| 0 <= k < |q| && Twin(q[k], msgs[n]);
      var q1 := q[..k] + q[k + 1..];
      forall i | 0 <= i < n ensures HasTwin(q1, msgs[..n][i]) {
        TwinRemains(q, k, msgs[i]);
      }
      LoadedFits(msgs[..n], q1);
      TotalRemove(q, k);
      assert Front(Loaded(msgs)) == Loaded(msgs[..n]);
    }
  }

  predicate Loadable(m: (nat, Stored)) {
    m.0 == AddKey(IdOfKey(m.0)) && IsStored(m.1.data)
  }

  /** One reloaded message that fits and whose id is new is appended. */
  lemma {:induction false} ReloadStepAppends(c: Conn, m: (nat, Stored))
    requires !c.sock && Total(c.q) + IPQ_SIZE + m.1.data.Size() <= MAX_OUTQ
    requires Loadable(m) && !HasKey(c.q, m.0)
    ensures var c1 := ReloadStep(c, m.0, m.1);
      c1.q == c.q + [LoadedEntry(m)] && c1.store == c.store && c1.attached == c.attached && !c1.sock
  {
    assert forall i :: 0 <= i < |c.q| ==> AddKey(c.q[i].id) != AddKey(IdOfKey(m.0));
    WithoutAbsent(c.q, IdOfKey(m.0));
  }

  lemma {:induction false} TotalPrefix(q: seq<Entry>, i: nat)
    requires i <= |q|
    ensures Total(q[..i]) <= Total(q)
  {
    TotalConcat(q[..i], q[i..]);
    assert q == q[..i] + q[i..];
  }

  /** With the messages before it reloaded, message i fits and its key is new. */
  lemma {:induction false} ReloadRoom(msgs: seq<(nat, Stored)>, i: nat)
    requires i < |msgs| == |Loaded(msgs)| && Total(Loaded(msgs)) <= MAX_OUTQ
    requires DistinctKeys(msgs) && forall j :: 0 <= j < |msgs| ==> Loadable(msgs[j])
    ensures var r := Loaded(msgs);
      && r[..i] + [r[i]] == r[..i + 1] && r[i] == LoadedEntry(msgs[i])
      && Total(r[..i]) + IPQ_SIZE + msgs[i].1.data.Size() <= MAX_OUTQ && !HasKey(r[..i], msgs[i].0)
  {
    hide IdOfKey, AddKey, Total;
    var r := Loaded(msgs);
    assert r[..i + 1] == r[..i] + [r[i]];
    TotalAppend(r[..i], r[i]);
    TotalPrefix(r, i + 1);
    forall j | 0 <= j < i ensures AddKey(r[..i][j].id) != msgs[i].0 {
      assert Loadable(msgs[j]) && r[..i][j] == LoadedEntry(msgs[j]);
    }
  }

  /** No reloaded message is refused: each is appended, in listing order. */
  lemma {:induction false} ReloadAppends(c: Conn, msgs: seq<(nat, Stored)>, i: nat)
    requires !c.sock && i <= |msgs| == |Loaded(msgs)| && c.q == Loaded(msgs)[..i] && Total(Loaded(msgs)) <= MAX_OUTQ
    requires DistinctKeys(msgs) && forall j :: 0 <= j < |msgs| ==> Loadable(msgs[j])
    ensures ReloadFrom(c, msgs, i).q == Loaded(msgs)
    ensures ReloadFrom(c, msgs, i).store == c.store && ReloadFrom(c, msgs, i).attached == c.attached
    decreases |msgs| - i
  {
    hide Total, HasKey, DistinctKeys, Loadable, Loaded, LoadedEntry, ReloadStep;
    if i < |msgs| {
      ReloadRoom(msgs, i);
      ReloadStepAppends(c, msgs[i]);
      ReloadAppends(ReloadStep(c, msgs[i].0, msgs[i].1), msgs, i + 1);
    }
  }

  lemma {:induction false} LoadedIsBacked(msgs: seq<(nat, Stored)>, view: map<nat, Stored>, i: nat)
    requires Lists(msgs, view) && i < |msgs| && Loadable(msgs[i])
    ensures |Loaded(msgs)| == |msgs|
    ensures var e := Loaded(msgs)[i]; AddKey(e.id) == msgs[i].0 && Matches(e, view[msgs[i].0]) && IsStored(e.data)
  {
  }

  lemma {:induction false} LoadedMirrors(msgs: seq<(nat, Stored)>, view: map<nat, Stored>)
    requires Lists(msgs, view)
    requires forall i :: 0 <= i < |msgs| ==> Loadable(msgs[i])
    ensures Mirrors(Loaded(msgs), view) && AllStored(Loaded(msgs))
  {
    var q := Loaded(msgs);
    forall i | 0 <= i < |msgs|
      ensures AddKey(q[i].id) == msgs[i].0 && Matches(q[i], view[msgs[i].0]) && IsStored(q[i].data)
    {
      LoadedIsBacked(msgs, view, i);
    }
    forall k | k in view ensures HasKey(q, k) {
      var i :| 0 <= i < |msgs| && msgs[i].0 == k;
      assert AddKey(q[i].id) == k;
    }
    assert forall i, j :: 0 <= i < j < |q| ==> AddKey(q[i].id) != AddKey(q[j].id);
  }

  /** What a listed message looks like when the queue mirrors the store. */
  lemma {:induction false} ListedIsLoadable(c: Conn, m: (nat, Stored))
    requires Sound(c) && m.0 in c.store.View() && c.store.View()[m.0] == m.1
    ensures Loadable(m) && HasTwin(c.q, m)
  {
    var i :| 0 <= i < |c.q| && AddKey(c.q[i].id) == m.0;
    AddKeyRoundTrip(c.q[i].id);
    assert Twin(c.q[i], m);
  }

  /** The same message, up to DUP. */
  predicate Recovered(e: Entry, r: Entry) {
    r.id == e.id && SameUpToDup(r.data, e.data) && r.origin == e.origin
  }

  /** Two mirrors of one store hold the same messages. */
  lemma {:induction false} MirrorsAgree(q: seq<Entry>, r: seq<Entry>, view: map<nat, Stored>, i: nat) returns (j: nat)
    requires Mirrors(q, view) && Mirrors(r, view) && i < |q|
    ensures j < |r| && Recovered(q[i], r[j])
  {
    assert HasKey(r, AddKey(q[i].id));
    j :| 0 <= j < |r| && AddKey(r[j].id) == AddKey(q[i].id);
  }

  predicate Holds(r: seq<Entry>, e: Entry) {
    exists j :: 0 <= j < |r| && Recovered(e, r[j])
  }

  predicate SameMessages(q: seq<Entry>, r: seq<Entry>) {
    (forall i :: 0 <= i < |q| ==> Holds(r, q[i])) && (forall j :: 0 <= j < |r| ==> Holds(q, r[j]))
  }

  lemma {:induction false} MirrorsSame(q: seq<Entry>, r: seq<Entry>, view: map<nat, Stored>)
    requires Mirrors(q, view) && Mirrors(r, view)
    ensures SameMessages(q, r)
  {
    forall i | 0 <= i < |q| ensures Holds(r, q[i]) {
      var j := MirrorsAgree(q, r, view, i);
    }
    forall j | 0 <= j < |r| ensures Holds(q, r[j]) {
      var i := MirrorsAgree(r, q, view, j);
    }
  }

  /** Recovery: in whatever order the store lists its messages, a reload rebuilds a queue that holds
      exactly the messages the queue held before, up to the DUP bit, and refuses none of them. */
  lemma {:induction false} ReloadRecovers(c: Conn, msgs: seq<(nat, Stored)>)
    requires Sound(c) && Lists(msgs, c.store.View())
    ensures var c1 := Reload(c, msgs);
      Sound(c1) && c1.store == c.store && |c1.q| == |msgs| && SameMessages(c.q, c1.q)
  {
    var view, r := c.store.View(), Loaded(msgs);
    forall i | 0 <= i < |msgs| ensures Loadable(msgs[i]) && HasTwin(c.q, msgs[i]) {
      ListedIsLoadable(c, msgs[i]);
    }
    LoadedFits(msgs, c.q);
    ReloadAppends(Fresh(c), msgs, 0);
    LoadedMirrors(msgs, view);
    assert Reload(c, msgs).q == r;
    MirrorsSame(c.q, r, view);
  }
}
