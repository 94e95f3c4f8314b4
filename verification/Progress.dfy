/** Sender progress: which queued messages can still reach the broker for good. Every release and every
    QoS 1 message can; a QoS 2 PUBLISH can exactly if a PUBREL fits beside the QoS 2 messages that are not
    released yet, because the PUBREL is queued before the PUBLISH it replaces is taken out. */
module Progress {
  import opened Bytes
  import opened SentStores
  import opened Outbound
  import opened QueueFacts
  import opened AtMostOnce
  import opened Duplicates
  import opened Recovery
  import opened Conservation
  import opened WireIds

  // ----- Messages that wait for their release ---------------------------------------------------

  predicate Unreleased(e: Entry) {
    IsPub2(PacketOf(e))
  }

  /** The queued QoS 2 messages that are not released yet. */
  function Waiting(q: seq<Entry>): seq<Entry> {
    if q == [] then []
    else if Unreleased(q[|q| - 1]) then Waiting(Front(q)) + [q[|q| - 1]]
    else Waiting(Front(q))
  }

  predicate Waits(q: seq<Entry>, u: nat) {
    exists i :: 0 <= i < |q| && Unreleased(q[i]) && q[i].origin == u
  }

  /** A PUBREL fits beside them. */
  predicate Fits(q: seq<Entry>) {
    Total(Waiting(q)) + IPQ_SIZE + PubrelMessage(0).Size() <= MAX_OUTQ
  }

  lemma {:induction false} WaitingIs(q: seq<Entry>)
    ensures forall e :: e in Waiting(q) <==> e in q && Unreleased(e)
    ensures DistinctIds(q) ==> DistinctIds(Waiting(q))
    ensures Total(Waiting(q)) <= Total(q)
  {
    if q != [] {
      hide Front, Unreleased;
      var f, r := Front(q), Waiting(Front(q));
      FrontAt(q);
      WaitingIs(f);
      TotalAppend(r, q[|q| - 1]);
      if DistinctIds(q) {
        assert DistinctIds(f);
        forall i | 0 <= i < |r| ensures r[i].id != q[|q| - 1].id { assert r[i] in f; }
      }
    }
  }

  lemma {:induction false} WaitsWaiting(q: seq<Entry>, u: nat)
    ensures Waits(q, u) <==> exists e :: e in Waiting(q) && e.origin == u
  {
    hide Unreleased;
    WaitingIs(q);
    if Waits(q, u) {
      var i :| 0 <= i < |q| && Unreleased(q[i]) && q[i].origin == u;
      assert q[i] in Waiting(q);
    }
  }

  lemma {:induction false} AllWaiting(q: seq<Entry>)
    requires forall i :: 0 <= i < |q| ==> Unreleased(q[i])
    ensures Waiting(q) == q
  {
    if q != [] {
      hide Front, Unreleased;
      FrontAt(q);
      AllWaiting(Front(q));
    }
  }

  /** An id that none of them has may leave the queue. */
  lemma {:induction false} WaitingWithout(q: seq<Entry>, id: u16)
    requires forall i :: 0 <= i < |q| && q[i].id == id ==> !Unreleased(q[i])
    ensures Waiting(Without(q, id)) == Waiting(q)
  {
    if q != [] {
      var r, e := Without(Front(q), id), q[|q| - 1];
      assert Front(r + [e]) == r;
      hide Front, Unreleased;
      FrontAt(q);
      WaitingWithout(Front(q), id);
    }
  }

  /** The same message, up to DUP and the status. */
  predicate Same(e: Entry, r: Entry) {
    r.id == e.id && r.origin == e.origin && SameUpToDup(r.data, e.data)
  }

  predicate SameQueue(q: seq<Entry>, r: seq<Entry>) {
    |r| == |q| && forall i :: 0 <= i < |q| ==> Same(q[i], r[i])
  }

  lemma {:induction false} SameWaiting(q: seq<Entry>, r: seq<Entry>)
    requires SameQueue(q, r)
    ensures SameQueue(Waiting(q), Waiting(r))
  {
    if q != [] {
      assert Same(q[|q| - 1], r[|r| - 1]);
      hide Same, Unreleased;
      SameWaiting(Front(q), Front(r));
      SameKind(q[|q| - 1], r[|r| - 1]);
    }
  }

  lemma {:induction false} SameKind(e: Entry, r: Entry)
    requires Same(e, r)
    ensures Unreleased(e) == Unreleased(r) && e.data.Size() == r.data.Size()
  {
    assert WithDup(e.data).head.qos == e.data.head.qos && WithDup(r.data).head.qos == r.data.head.qos;
    assert WithDup(e.data).head.mtype == e.data.head.mtype && WithDup(r.data).head.mtype == r.data.head.mtype;
    assert WithDup(e.data).body == e.data.body && WithDup(r.data).body == r.data.body;
  }

  lemma {:induction false} SameTotal(q: seq<Entry>, r: seq<Entry>)
    requires SameQueue(q, r)
    ensures Total(q) == Total(r)
  {
    if q != [] {
      assert Same(q[|q| - 1], r[|r| - 1]);
      hide Same;
      SameTotal(Front(q), Front(r));
      SameKind(q[|q| - 1], r[|r| - 1]);
    }
  }

  lemma {:induction false} SameFits(q: seq<Entry>, r: seq<Entry>, u: nat)
    requires SameQueue(q, r)
    ensures (Fits(q) <==> Fits(r)) && (Waits(q, u) ==> Waits(r, u))
  {
    SameWaiting(q, r);
    SameTotal(Waiting(q), Waiting(r));
    if Waits(q, u) {
      var i :| 0 <= i < |q| && Unreleased(q[i]) && q[i].origin == u;
      SameKind(q[i], r[i]);
    }
  }

  // ----- Runs without new messages --------------------------------------------------------------

  /** No new message, and the store deletes what it is told to; while it is `working`, it also takes every
      release. */
  predicate Quiet(a: Action, working: bool) {
    !a.Publish? && Tidy(a) && (working && a.Pubrec? ==> a.put.Written?)
  }

  predicate AllQuiet(run: seq<Action>, working: bool) {
    forall i :: 0 <= i < |run| ==> Quiet(run[i], working)
  }

  /** The broker, the link and the store can behave so that w becomes v. */
  ghost predicate Leads(w: World, v: World, working: bool) {
    exists run :: Reachable(w, run, v) && AllQuiet(run, working)
  }

  lemma {:induction false} LeadsSelf(w: World, working: bool)
    ensures Leads(w, w, working)
  {
    assert Reachable(w, [], w) && AllQuiet([], working);
  }

  lemma {:induction false} LeadsOn(w: World, a: Action, v: World, working: bool)
    requires Conforms(w, a) && Quiet(a, working) && Leads(Step(w, a), v, working)
    ensures Leads(w, v, working)
  {
    hide Conforms, Step, Quiet;
    var run :| Reachable(Step(w, a), run, v) && AllQuiet(run, working);
    assert ([a] + run)[1..] == run;
    assert Reachable(w, [a] + run, v);
  }

  lemma {:induction false} LeadsThrough(w: World, v: World, t: World, working: bool)
    requires Leads(w, v, working) && Leads(v, t, working)
    ensures Leads(w, t, working)
  {
    hide Quiet;
    var first :| Reachable(w, first, v) && AllQuiet(first, working);
    var second :| Reachable(v, second, t) && AllQuiet(second, working);
    Joined(w, first, v, second, t);
  }

  lemma {:induction false} Joined(w: World, first: seq<Action>, v: World, second: seq<Action>, t: World)
    requires Reachable(w, first, v) && Reachable(v, second, t)
    ensures Reachable(w, first + second, t)
    decreases |first|
  {
    hide Conforms, Step;
    if first == [] {
      assert first + second == second;
    } else {
      Joined(Step(w, first[0]), first[1..], v, second, t);
      assert (first + second)[1..] == first[1..] + second;
    }
  }

  // ----- A queue that is stuck ------------------------------------------------------------------

  ghost predicate Stuck(w: World, u: nat) {
    WInv(w) && Sound(w.s.c) && Waits(w.s.c.q, u) && !Fits(w.s.c.q)
  }

  /** What an acknowledgement takes out of the queue is not waiting for its release. */
  lemma {:induction false} AckSpares(w: World, i: nat)
    requires WInv(w) && w.down != [] && w.down[0].kind != Rec && i < |w.s.c.q| && w.s.c.q[i].id == w.down[0].id
    ensures !Unreleased(w.s.c.q[i])
  {
    var x, e, r := CtxOf(w), w.s.c.q[i], w.down[0];
    hide UpOk, AcceptedOk, Current;
    assert EntryOk(x, e) && ReplyOk(x, r);
    assert ViewOk(x, AddKey(e.id));
    CurrentUnique(x, e.id, e.origin, r.origin);
  }

  lemma {:induction false} AckWaiting(w: World)
    requires WInv(w) && w.down != [] && w.down[0].kind != Rec
    ensures Waiting(Without(w.s.c.q, w.down[0].id)) == Waiting(w.s.c.q)
  {
    hide WInv, Unreleased;
    forall i | 0 <= i < |w.s.c.q| && w.s.c.q[i].id == w.down[0].id ensures !Unreleased(w.s.c.q[i]) { AckSpares(w, i); }
    WaitingWithout(w.s.c.q, w.down[0].id);
  }

  lemma {:induction false} PassSame(c: Conn, writes: seq<bool>)
    requires |writes| == |c.q|
    ensures SameQueue(c.q, Retry(c, writes).q)
  {
    PassTouchesOnce(c, c.q, 0, writes);
    forall i | 0 <= i < |c.q| ensures Same(c.q[i], Retry(c, writes).q[i]) { MarkedSame(c.q[i]); }
  }

  lemma {:induction false} MarkedSame(e: Entry)
    ensures Same(e, Retried(e))
  {
  }

  /** The PUBREL is refused, for want of room. */
  lemma {:induction false} Refuses(c: Conn, id: u16, origin: nat, put: PutResult, ok: bool)
    requires !Fits(c.q)
    ensures OnPubrec(c, id, origin, put, ok) == (c, OutOfMemory)
  {
    WaitingIs(c.q);
  }

  /** Distinct messages that are all in r take no more room than r. */
  lemma {:induction false} TotalWithin(q: seq<Entry>, r: seq<Entry>)
    requires DistinctIds(q) && forall i :: 0 <= i < |q| ==> Holds(r, q[i])
    ensures Total(q) <= Total(r)
    decreases |q|
  {
    if q != [] {
      var n := |q| - 1;
      var k :| 0 <= k < |r| && Recovered(q[n], r[k]);
      var r1 := r[..k] + r[k + 1..];
      forall i | 0 <= i < |Front(q)| ensures Holds(r1, Front(q)[i]) { HeldStill(r, k, q[i]); }
      TotalWithin(Front(q), r1);
      TotalRemove(r, k);
      SameKind(q[n], r[k]);
    }
  }

  lemma {:induction false} HeldStill(r: seq<Entry>, k: nat, e: Entry)
    requires k < |r| && Holds(r, e) && r[k].id != e.id
    ensures Holds(r[..k] + r[k + 1..], e)
  {
    var j :| 0 <= j < |r| && Recovered(e, r[j]);
    assert (r[..k] + r[k + 1..])[if j < k then j else j - 1] == r[j];
  }

  lemma {:induction false} HeldWaiting(q: seq<Entry>, r: seq<Entry>, e: Entry)
    requires SameMessages(q, r) && e in Waiting(q)
    ensures Holds(Waiting(r), e)
  {
    WaitingIs(q);
    WaitingIs(r);
    var i :| 0 <= i < |q| && q[i] == e;
    assert Holds(r, q[i]);
    var j :| 0 <= j < |r| && Recovered(e, r[j]);
    SameKind(e, r[j]);
    assert r[j] in Waiting(r);
  }

  /** A reload gives back all that waited. */
  lemma {:induction false} ReloadStuck(c: Conn, msgs: seq<(nat, Stored)>, u: nat)
    requires Sound(c) && Lists(msgs, c.store.View()) && Waits(c.q, u) && !Fits(c.q)
    ensures var d := Reload(c, msgs); Waits(d.q, u) && !Fits(d.q)
  {
    var r := Reload(c, msgs).q;
    ReloadRecovers(c, msgs);
    hide SameMessages, Holds, Recovered, Backed, Covers, AllStored, Reload, Lists, Unreleased;
    WaitingIs(c.q);
    forall i | 0 <= i < |Waiting(c.q)|
      ensures Holds(Waiting(r), Waiting(c.q)[i])
    {
      HeldWaiting(c.q, r, Waiting(c.q)[i]);
    }
    TotalWithin(Waiting(c.q), Waiting(r));
    WaitsWaiting(c.q, u);
    var e :| e in Waiting(c.q) && e.origin == u;
    HeldWaiting(c.q, r, e);
    HeldOrigin(Waiting(r), e);
    WaitsWaiting(r, u);
  }

  lemma {:induction false} HeldOrigin(r: seq<Entry>, e: Entry)
    requires Holds(r, e)
    ensures exists f :: f in r && f.origin == e.origin
  {
    var j :| 0 <= j < |r| && Recovered(e, r[j]);
    assert r[j] in r;
  }

  lemma {:induction false} StepConn(w: World, a: Action)
    requires Conforms(w, a)
    ensures Step(w, a).s.c == Apply(w.s, a).c
  {
    hide Request, OnPubrec, OnAck, Retry, Reload;
  }

  lemma {:induction false} StuckQueue(w: World, a: Action, u: nat)
    requires Stuck(w, u) && Conforms(w, a) && Quiet(a, false)
    ensures var q := Apply(w.s, a).c.q; Waits(q, u) && !Fits(q)
  {
    hide WInv, Sound, Fits, Waits, OnPubrec, Retry, Reload;
    var c := w.s.c;
    match a
    case Pubrec(id, origin, put, ok) => Refuses(c, id, origin, put, ok);
    case Ack(id, _) => StuckAck(w, u);
    case RetryPass(writes) =>
      PassSame(c, writes);
      SameFits(c.q, Retry(c, writes).q, u);
    case Restart(msgs) => ReloadStuck(c, msgs, u);
    case _ =>
  }

  lemma {:induction false} StuckStep(w: World, a: Action, u: nat)
    requires Stuck(w, u) && Conforms(w, a) && Quiet(a, false)
    ensures Stuck(Step(w, a), u)
  {
    hide WInv, Sound, Fits, Waits, Step, Apply;
    StepOk(w, a);
    StepSound(w, a);
    StepConn(w, a);
    StuckQueue(w, a, u);
  }

  lemma {:induction false} StuckAck(w: World, u: nat)
    requires WInv(w) && w.down != [] && w.down[0].kind != Rec && Waits(w.s.c.q, u) && !Fits(w.s.c.q)
    ensures Waits(Without(w.s.c.q, w.down[0].id), u) && !Fits(Without(w.s.c.q, w.down[0].id))
  {
    hide WInv, Waits;
    AckWaiting(w);
    WaitsWaiting(w.s.c.q, u);
    WaitsWaiting(Without(w.s.c.q, w.down[0].id), u);
  }

  lemma {:induction false} StuckRun(w: World, run: seq<Action>, v: World, u: nat)
    requires Stuck(w, u) && Reachable(w, run, v) && AllQuiet(run, false)
    ensures Stuck(v, u)
    decreases |run|
  {
    hide Stuck, Conforms, Step, Quiet;
    if run != [] {
      StuckStep(w, run[0], u);
      StuckRun(Step(w, run[0]), run[1..], v, u);
    }
  }

  lemma {:induction false} WaitsUnforwarded(w: World, u: nat)
    requires WInv(w) && Waits(w.s.c.q, u)
    ensures u !in w.s.forwarded
  {
    var x := CtxOf(w);
    var i :| 0 <= i < |w.s.c.q| && Unreleased(w.s.c.q[i]) && w.s.c.q[i].origin == u;
    assert EntryOk(x, w.s.c.q[i]);
    assert ViewOk(x, AddKey(w.s.c.q[i].id));
  }

  // ----- A queue that is not --------------------------------------------------------------------

  predicate InFlight(w: World, p: Packet) {
    exists i :: w.s.read <= i < |w.s.c.wire| && w.s.c.wire[i] == p
  }

  /** The broker reads everything in flight. If each packet has one answer, the answers come in order. */
  lemma {:induction false} ReadAll(w: World, working: bool) returns (v: World)
    requires WInv(w)
    ensures Leads(w, v, working) && WInv(v) && v.s.c == w.s.c && v.s.read == |v.s.c.wire| && w.down <= v.down
    ensures forall i, r :: w.s.read <= i < |w.s.c.wire| && r in Answer(w.s.c.wire[i]) ==> r in v.down
    ensures (forall i :: w.s.read <= i < |w.s.c.wire| ==> |Answer(w.s.c.wire[i])| == 1) ==>
              && |v.down| == |w.down| + |w.s.c.wire| - w.s.read
              && forall i {:trigger w.s.c.wire[i]} :: w.s.read <= i < |w.s.c.wire| ==>
                   Answer(w.s.c.wire[i]) == [v.down[|w.down| + i - w.s.read]]
    decreases |w.s.c.wire| - w.s.read
  {
    hide CtxOk, QueueOk, UpOk, DownOk, AcceptedOk, Answer;
    if w.s.read == |w.s.c.wire| {
      v := w;
      LeadsSelf(w, working);
    } else {
      var w1 := Step(w, BrokerReads);
      StepOk(w, BrokerReads);
      v := ReadAll(w1, working);
      LeadsOn(w, BrokerReads, v, working);
      hide WInv, Leads;
      PrefixIn(w1.down, v.down);
    }
  }

  lemma {:induction false} PrefixIn(a: seq<Reply>, b: seq<Reply>)
    requires a <= b
    ensures forall r :: r in a ==> r in b
  {
    assert forall i :: 0 <= i < |a| ==> a[i] == b[i];
  }

  function AllTrue(n: nat): (s: seq<bool>)
    ensures |s| == n && forall i :: 0 <= i < n ==> s[i]
  {
    seq(n, i => true)
  }

  /** One pass over a new connection. */
  lemma {:induction false} OnePass(w: World, working: bool) returns (v: World)
    requires WInv(w)
    ensures v.s.c.sock && WInv(v) && v.down == [] && v.s.read == |w.s.c.wire|
    ensures v.s.c.wire == w.s.c.wire + Resent(w.s.c.q, 0) && SameQueue(w.s.c.q, v.s.c.q)
    ensures |v.s.c.q| == |w.s.c.q| && forall i :: 0 <= i < |v.s.c.q| ==> v.s.c.q[i] == Retried(w.s.c.q[i])
    ensures forall t :: Leads(v, t, working) ==> Leads(w, t, working)
  {
    hide CtxOk, QueueOk, UpOk, DownOk, AcceptedOk, RetryFrom, Same;
    var w1, a := Step(w, Reconnected), RetryPass(AllTrue(|w.s.c.q|));
    StepOk(w, Reconnected);
    PassTouchesOnce(w1.s.c, w1.s.c.q, 0, a.writes);
    PassResends(w1.s.c, w1.s.c.q, 0, a.writes);
    PassSame(w1.s.c, a.writes);
    v := Step(w1, a);
    StepOk(w1, a);
    forall t | Leads(v, t, working) ensures Leads(w, t, working) {
      LeadsOn(w1, a, t, working);
      LeadsOn(w, Reconnected, t, working);
    }
  }

  /** The answer the broker has for a queued message. */
  function ReplyFor(e: Entry): Reply {
    Reply(if IsRel(e.data) then Comp else if e.data.head.qos == 2 then Rec else Done, e.id, e.origin)
  }

  /** One answer for each entry from k on, in order. */
  predicate RepliesFor(q: seq<Entry>, k: nat, down: seq<Reply>) {
    k <= |q| && |down| == |q| - k && forall i {:trigger q[i]} :: k <= i < |q| ==> down[i - k] == ReplyFor(q[i])
  }

  lemma {:induction false} OneAnswer(x: Conservation.Ctx, e: Entry)
    requires EntryOk(x, e)
    ensures Answer(PacketOf(e)) == [ReplyFor(e)]
  {
  }

  /** Everything queued is due after one pass, and sent once on the next connection; the broker answers each. */
  lemma {:induction false} Answered(w: World, working: bool) returns (v: World)
    requires WInv(w)
    ensures Leads(w, v, working) && WInv(v) && v.s.c.sock && v.s.read == |v.s.c.wire|
    ensures SameQueue(w.s.c.q, v.s.c.q) && RepliesFor(v.s.c.q, 0, v.down)
  {
    hide WInv, Same, SameQueue, Leads, Resent, RepliesFor;
    var w1 := OnePass(w, working);
    var w2 := OnePass(w1, working);
    SameTwice(w.s.c.q, w1.s.c.q, w2.s.c.q);
    SentOnce(w1.s.c.wire, w1.s.c.q, w2);
    v := ReadAll(w2, working);
    InOrder(w2, v);
  }

  /** In flight is each queued message, once, in order. */
  predicate EachInFlight(w: World) {
    && w.s.read + |w.s.c.q| == |w.s.c.wire|
    && forall i {:trigger w.s.c.q[i]} :: 0 <= i < |w.s.c.q| ==> w.s.c.wire[w.s.read + i] == PacketOf(w.s.c.q[i])
  }

  lemma {:induction false} SentOnce(wire: seq<Packet>, q: seq<Entry>, w: World)
    requires w.s.c.wire == wire + Resent(q, 0) && w.s.read == |wire| && |w.s.c.q| == |q|
    requires forall i :: 0 <= i < |q| ==> q[i].status.Retrying? && w.s.c.q[i] == Retried(q[i])
    ensures EachInFlight(w)
  {
    hide Retried, Resent;
    AllDue(q, 0);
    forall i {:trigger w.s.c.q[i]} | 0 <= i < |q| ensures w.s.c.wire[|wire| + i] == PacketOf(w.s.c.q[i]) {
      assert Resent(q, 0)[i - 0] == PacketOf(Retried(q[i]));
    }
  }

  lemma {:induction false} InOrder(w: World, v: World)
    requires WInv(w) && EachInFlight(w) && w.down == [] && v.s.c == w.s.c
    requires (forall i :: w.s.read <= i < |w.s.c.wire| ==> |Answer(w.s.c.wire[i])| == 1) ==>
              && |v.down| == |w.down| + |w.s.c.wire| - w.s.read
              && forall i {:trigger w.s.c.wire[i]} :: w.s.read <= i < |w.s.c.wire| ==>
                   Answer(w.s.c.wire[i]) == [v.down[|w.down| + i - w.s.read]]
    ensures RepliesFor(v.s.c.q, 0, v.down)
  {
    hide CtxOk, UpOk, DownOk, AcceptedOk, Answer, EntryOk, ReplyFor, CtxOf;
    var q, n := w.s.c.q, w.s.read;
    forall i | n <= i < |w.s.c.wire| ensures Answer(w.s.c.wire[i]) == [ReplyFor(q[i - n])] {
      assert w.s.c.wire[n + (i - n)] == PacketOf(q[i - n]);
      OneAnswer(CtxOf(w), q[i - n]);
    }
    forall i {:trigger q[i]} | 0 <= i < |q| ensures v.down[i - 0] == ReplyFor(q[i]) {
      assert Answer(w.s.c.wire[n + i]) == [v.down[0 + (n + i) - n]];
    }
  }

  lemma {:induction false} SameTwice(p: seq<Entry>, q: seq<Entry>, r: seq<Entry>)
    requires SameQueue(p, q) && SameQueue(q, r)
    ensures SameQueue(p, r)
  {
    forall i | 0 <= i < |p| ensures Same(p[i], r[i]) { assert Same(p[i], q[i]) && Same(q[i], r[i]); }
  }

  lemma {:induction false} Completed(v: World, r: Reply)
    requires WInv(v) && r in v.down && r.kind != Rec
    ensures |v.two| == |v.s.ids| && Conservation.Delivered(v, r.origin)
            && (r.kind == Comp ==> r.origin in v.s.forwarded)
  {
    var i :| 0 <= i < |v.down| && v.down[i] == r;
    assert ReplyOk(CtxOf(v), v.down[i]);
  }

  // ----- Reading the answers --------------------------------------------------------------------

  /** Long enough that a PUBREL takes no more room. */
  predicate AllLong(q: seq<Entry>) {
    forall i :: 0 <= i < |q| ==> q[i].data.Size() >= PubrelMessage(0).Size()
  }

  /** The client has read the answers for the first k entries of q0: `a` are those it could not release,
      `r` the releases, which take no more room than the messages they replaced. Message u is not released
      yet, and if it has been tried the queue was too full. */
  ghost predicate Halfway(w: World, u: nat, q0: seq<Entry>, k: nat, a: seq<Entry>, r: seq<Entry>) {
    && WInv(w) && w.s.c.sock && k <= |q0| && w.s.c.q == a + q0[k..] + r && RepliesFor(q0, k, w.down)
    && Total(a) + Total(r) <= Total(Waiting(q0[..k]))
    && (Waits(q0[..k], u) ==> Waits(a, u) && Total(q0) + IPQ_SIZE + PubrelMessage(0).Size() > MAX_OUTQ)
  }

  lemma {:induction false} WaitingNext(q: seq<Entry>, k: nat, u: nat)
    requires k < |q|
    ensures Waiting(q[..k + 1]) == Waiting(q[..k]) + if Unreleased(q[k]) then [q[k]] else []
    ensures Waits(q[..k + 1], u) <==> Waits(q[..k], u) || (Unreleased(q[k]) && q[k].origin == u)
  {
    hide Unreleased;
    var p, n := q[..k], q[..k + 1];
    assert Front(n) == p && n[k] == q[k];
    if Waits(p, u) {
      var i :| 0 <= i < |p| && Unreleased(p[i]) && p[i].origin == u;
      assert n[i] == p[i];
    }
    if Waits(n, u) {
      var i :| 0 <= i < |n| && Unreleased(n[i]) && n[i].origin == u;
      assert i < k ==> p[i] == n[i];
    }
  }

  lemma {:induction false} WaitsAppend(a: seq<Entry>, e: Entry, u: nat)
    ensures Waits(a, u) ==> Waits(a + [e], u)
    ensures Unreleased(e) && e.origin == u ==> Waits(a + [e], u)
  {
    hide Unreleased;
    var b := a + [e];
    assert b[|a|] == e && forall i :: 0 <= i < |a| ==> b[i] == a[i];
  }

  /** Entry k leaves the queue. */
  lemma {:induction false} OutOfMiddle(q: seq<Entry>, q0: seq<Entry>, k: nat, a: seq<Entry>, r: seq<Entry>)
    requires k < |q0| && q == a + q0[k..] + r && DistinctIds(q)
    ensures Without(q, q0[k].id) == a + q0[k + 1..] + r
  {
    hide Without;
    assert q[|a|] == q0[k];
    WithoutAt(q, |a|);
    assert q[..|a|] == a && q[|a| + 1..] == q0[k + 1..] + r;
  }

  /** The queue takes no more room than it did at first. */
  lemma {:induction false} NoMoreRoom(q0: seq<Entry>, k: nat, a: seq<Entry>, r: seq<Entry>)
    requires k <= |q0| && Total(a) + Total(r) <= Total(Waiting(q0[..k]))
    ensures Total(a + q0[k..] + r) <= Total(q0)
  {
    hide Total, Waiting;
    TotalConcat(a + q0[k..], r);
    TotalConcat(a, q0[k..]);
    WaitingIs(q0[..k]);
    TotalConcat(q0[..k], q0[k..]);
    assert q0 == q0[..k] + q0[k..];
  }

  lemma {:induction false} RepliesNext(q: seq<Entry>, k: nat, down: seq<Reply>)
    requires RepliesFor(q, k, down) && k < |q|
    ensures down != [] && down[0] == ReplyFor(q[k]) && RepliesFor(q, k + 1, down[1..])
  {
    hide ReplyFor;
    assert down[k - k] == ReplyFor(q[k]);
    forall i {:trigger q[i]} | k + 1 <= i < |q| ensures down[1..][i - (k + 1)] == ReplyFor(q[i]) {
      assert down[1..][i - (k + 1)] == down[i - k];
    }
  }

  lemma {:induction false} QueueDistinct(w: World)
    requires WInv(w)
    ensures DistinctIds(w.s.c.q)
  {
  }

  /** An answer that ends a flow. */
  lemma {:induction false} EndStep(w: World, u: nat, q0: seq<Entry>, k: nat, a: seq<Entry>, r: seq<Entry>,
                                   working: bool)
    returns (v: World)
    requires Halfway(w, u, q0, k, a, r) && k < |q0| && !Unreleased(q0[k]) && ReplyFor(q0[k]).kind != Rec
    ensures Halfway(v, u, q0, k + 1, a, r)
    ensures forall t :: Leads(v, t, working) ==> Leads(w, t, working)
  {
    hide CtxOk, QueueOk, UpOk, DownOk, AcceptedOk, Without, Total, Unreleased, Waits, RepliesFor, ReplyFor, Waiting;
    RepliesNext(q0, k, w.down);
    QueueDistinct(w);
    OutOfMiddle(w.s.c.q, q0, k, a, r);
    WaitingNext(q0, k, u);
    assert Waiting(q0[..k]) + [] == Waiting(q0[..k]);
    ReplyIds(q0[k]);
    var act := Ack(q0[k].id, BothRemoved);
    v := Step(w, act);
    StepOk(w, act);
    forall t | Leads(v, t, working) ensures Leads(w, t, working) { LeadsOn(w, act, t, working); }
  }

  lemma {:induction false} ReplyIds(e: Entry)
    ensures ReplyFor(e).id == e.id && ReplyFor(e).origin == e.origin && (ReplyFor(e).kind == Rec <==> Unreleased(e))
  {
  }

  /** A PUBREC the client does not act on: its store fails, or there is no room. */
  lemma {:induction false} RefusedStep(w: World, u: nat, q0: seq<Entry>, k: nat, a: seq<Entry>, r: seq<Entry>,
                                       put: PutResult, working: bool)
    returns (v: World)
    requires Halfway(w, u, q0, k, a, r) && k < |q0| && Unreleased(q0[k]) && (working ==> put.Written?)
    requires put.Refused? || Total(w.s.c.q) + IPQ_SIZE + PubrelMessage(0).Size() > MAX_OUTQ
    requires q0[k].origin == u ==> !put.Refused?
    ensures Halfway(v, u, q0, k + 1, a + [q0[k]], r)
    ensures forall t :: Leads(v, t, working) ==> Leads(w, t, working)
  {
    hide CtxOk, QueueOk, UpOk, DownOk, AcceptedOk, Without, Total, Unreleased, Waits, RepliesFor, ReplyFor, Waiting;
    RepliesNext(q0, k, w.down);
    ReplyIds(q0[k]);
    NoMoreRoom(q0, k, a, r);
    WaitingNext(q0, k, u);
    WaitsAppend(a, q0[k], u);
    TotalAppend(a, q0[k]);
    TotalAppend(Waiting(q0[..k]), q0[k]);
    var act := Pubrec(q0[k].id, q0[k].origin, put, true);
    v := Step(w, act);
    StepOk(w, act);
    assert a + q0[k..] + r == (a + [q0[k]]) + q0[k + 1..] + r;
    forall t | Leads(v, t, working) ensures Leads(w, t, working) { LeadsOn(w, act, t, working); }
  }

  function RelEntry(e: Entry): Entry {
    Entry(e.id, PubrelMessage(e.id), InProgress, e.origin)
  }

  /** A PUBREC the client acts on. */
  lemma {:induction false} ReleasedStep(w: World, k: nat, q0: seq<Entry>, a: seq<Entry>, r: seq<Entry>, working: bool)
    returns (v: World)
    requires WInv(w) && w.s.c.sock && k < |q0| && w.s.c.q == a + q0[k..] + r && RepliesFor(q0, k, w.down)
    requires Unreleased(q0[k]) && Total(w.s.c.q) + IPQ_SIZE + PubrelMessage(0).Size() <= MAX_OUTQ
    ensures WInv(v) && v.s.c.sock && v.s.c.q == a + q0[k + 1..] + (r + [RelEntry(q0[k])])
    ensures RepliesFor(q0, k + 1, v.down) && InFlight(v, PacketOf(RelEntry(q0[k])))
    ensures forall t :: Leads(v, t, working) ==> Leads(w, t, working)
  {
    hide CtxOk, QueueOk, UpOk, DownOk, AcceptedOk, Without, Total, Unreleased, RepliesFor, ReplyFor;
    RepliesNext(q0, k, w.down);
    ReplyIds(q0[k]);
    QueueDistinct(w);
    OutOfMiddle(w.s.c.q, q0, k, a, r);
    var act := Pubrec(q0[k].id, q0[k].origin, Written, true);
    v := Step(w, act);
    StepOk(w, act);
    assert v.s.c.wire == w.s.c.wire + [PacketOf(RelEntry(q0[k]))];
    assert v.s.c.wire[|w.s.c.wire|] == PacketOf(RelEntry(q0[k]));
    assert (a + q0[k + 1..] + r) + [RelEntry(q0[k])] == a + q0[k + 1..] + (r + [RelEntry(q0[k])]);
    forall t | Leads(v, t, working) ensures Leads(w, t, working) { LeadsOn(w, act, t, working); }
  }

  lemma {:induction false} ReleasedHalfway(w: World, v: World, u: nat, q0: seq<Entry>, k: nat, a: seq<Entry>,
                                           r: seq<Entry>)
    requires Halfway(w, u, q0, k, a, r) && k < |q0| && Unreleased(q0[k]) && q0[k].origin != u
    requires q0[k].data.Size() >= PubrelMessage(0).Size()
    requires WInv(v) && v.s.c.sock && v.s.c.q == a + q0[k + 1..] + (r + [RelEntry(q0[k])])
             && RepliesFor(q0, k + 1, v.down)
    ensures Halfway(v, u, q0, k + 1, a, r + [RelEntry(q0[k])])
  {
    hide WInv, Total, Unreleased, Waits, RepliesFor, Waiting;
    WaitingNext(q0, k, u);
    TotalAppend(r, RelEntry(q0[k]));
    TotalAppend(Waiting(q0[..k]), q0[k]);
  }

  /** The rest of the answers, up to the release of message u. With a working store every PUBREC is acted
      on if there is room, otherwise only that of u. */
  lemma {:induction false} ReadAnswers(w: World, u: nat, q0: seq<Entry>, k: nat, a: seq<Entry>, r: seq<Entry>,
                                       working: bool)
    returns (v: World)
    requires Halfway(w, u, q0, k, a, r) && (working ==> AllLong(q0) && AllLong(a) && AllLong(r))
    ensures Leads(w, v, working) && WInv(v)
    ensures u in v.s.forwarded || StillWaits(v, u, q0, working)
    decreases |q0| - k
  {
    hide Halfway, WInv, Leads, Unreleased, ReplyFor, Total, Waiting, Waits;
    HalfwayIs(w, u, q0, k, a, r);
    if k == |q0| {
      v := w;
      LeadsSelf(w, working);
      NothingRead(w, u, q0, a, r);
    } else if !Unreleased(q0[k]) {
      ReplyIds(q0[k]);
      var w1 := EndStep(w, u, q0, k, a, r, working);
      v := ReadAnswers(w1, u, q0, k + 1, a, r, working);
    } else {
      var put := if working || q0[k].origin == u then Written else Refused;
      if put.Refused? || Total(w.s.c.q) + IPQ_SIZE + PubrelMessage(0).Size() > MAX_OUTQ {
        var w1 := RefusedStep(w, u, q0, k, a, r, put, working);
        v := ReadAnswers(w1, u, q0, k + 1, a + [q0[k]], r, working);
      } else {
        var w1 := ReleasedStep(w, k, q0, a, r, working);
        if q0[k].origin == u {
          PubrelBytes(q0[k].id);
          v := PassesOn(w1, RelEntry(q0[k]), working);
        } else {
          ReleasedHalfway(w, w1, u, q0, k, a, r);
          v := ReadAnswers(w1, u, q0, k + 1, a, r + [RelEntry(q0[k])], working);
        }
      }
    }
  }

  /** Message u is still unreleased, because the queue was too full; it takes no more room now than the
      unreleased messages did. */
  ghost predicate StillWaits(v: World, u: nat, q0: seq<Entry>, working: bool) {
    && Total(v.s.c.q) <= Total(Waiting(q0)) && (working ==> AllLong(v.s.c.q))
    && (Waits(q0, u) ==> Waits(v.s.c.q, u) && Total(q0) + IPQ_SIZE + PubrelMessage(0).Size() > MAX_OUTQ)
  }

  lemma {:induction false} HalfwayIs(w: World, u: nat, q0: seq<Entry>, k: nat, a: seq<Entry>, r: seq<Entry>)
    requires Halfway(w, u, q0, k, a, r)
    ensures WInv(w) && w.s.c.sock && k <= |q0| && w.s.c.q == a + q0[k..] + r && RepliesFor(q0, k, w.down)
  {
    hide WInv, RepliesFor;
  }

  lemma {:induction false} NothingRead(w: World, u: nat, q0: seq<Entry>, a: seq<Entry>, r: seq<Entry>)
    requires Halfway(w, u, q0, |q0|, a, r)
    ensures WInv(w) && StillWaits(w, u, q0, AllLong(a) && AllLong(r))
  {
    hide WInv, RepliesFor, Total, Waiting, Unreleased;
    assert q0[..|q0|] == q0 && a + q0[|q0|..] + r == a + r;
    TotalConcat(a, r);
    if Waits(a, u) {
      var i :| 0 <= i < |a| && Unreleased(a[i]) && a[i].origin == u;
      assert (a + r)[i] == a[i];
    }
  }

  lemma {:induction false} PassesOn(w: World, e: Entry, working: bool) returns (v: World)
    requires WInv(w) && InFlight(w, PacketOf(e)) && IsRel(e.data) && Carries(e.data, e.id)
    ensures Leads(w, v, working) && WInv(v) && e.origin in v.s.forwarded
  {
    hide WInv, Leads;
    v := ReadAll(w, working);
    var p, r := PacketOf(e), Reply(Comp, e.id, e.origin);
    assert r in Answer(p);
    Completed(v, r);
  }

  /** A connection on which everything queued is sent, and all answers are read. */
  lemma {:induction false} Round(w: World, u: nat, working: bool) returns (v: World)
    requires WInv(w) && Waits(w.s.c.q, u) && (working ==> AllLong(w.s.c.q))
    ensures Leads(w, v, working) && WInv(v)
    ensures u in v.s.forwarded || StillWaits(v, u, w.s.c.q, working)
  {
    hide WInv, Leads, Unreleased, ReplyFor, Waiting, Same, RepliesFor;
    var q := w.s.c.q;
    var w1 := Answered(w, working);
    var q0 := w1.s.c.q;
    SameFits(q, q0, u);
    SameWaiting(q, q0);
    SameTotal(q, q0);
    SameTotal(Waiting(q), Waiting(q0));
    if working { SameLong(q, q0); }
    NothingDone(w1, u);
    v := ReadAnswers(w1, u, q0, 0, [], [], working);
    LeadsThrough(w, w1, v, working);
  }

  lemma {:induction false} NothingDone(w: World, u: nat)
    requires WInv(w) && w.s.c.sock && RepliesFor(w.s.c.q, 0, w.down)
    ensures Halfway(w, u, w.s.c.q, 0, [], [])
  {
    hide WInv, RepliesFor;
    assert [] + w.s.c.q[0..] + [] == w.s.c.q && w.s.c.q[..0] == [];
  }

  lemma {:induction false} SameLong(q: seq<Entry>, r: seq<Entry>)
    requires SameQueue(q, r) && AllLong(q)
    ensures AllLong(r)
  {
    forall i | 0 <= i < |r| ensures r[i].data.Size() >= PubrelMessage(0).Size() { SameKind(q[i], r[i]); }
  }

  /** The first round makes room, the second releases message u. */
  lemma {:induction false} Comes(w: World, u: nat, working: bool) returns (v: World)
    requires WInv(w) && Waits(w.s.c.q, u) && Fits(w.s.c.q) && (working ==> AllLong(w.s.c.q))
    ensures Leads(w, v, working) && u in v.s.forwarded
  {
    hide WInv, Leads, Waits, Total, Waiting;
    v := Round(w, u, working);
    if u !in v.s.forwarded {
      var w1 := v;
      v := Round(w1, u, working);
      LeadsThrough(w, w1, v, working);
    }
  }

  // ----- Main results ---------------------------------------------------------------------------

  /** In every reachable state, with a store that deletes what it is told to: a queued QoS 2 PUBLISH can
      still be passed on by the broker without new messages, if and only if a PUBREL fits beside the
      unreleased messages. While no queued message is shorter than a PUBREL, then also with a store that
      refuses nothing. */
  lemma {:induction false} DeliverableIff(run: seq<Action>, w: World, u: nat)
    requires Reachable(Start(), run, w) && (forall i :: 0 <= i < |run| ==> Tidy(run[i])) && Waits(w.s.c.q, u)
    ensures (exists v :: Leads(w, v, false) && u in v.s.forwarded) <==> Fits(w.s.c.q)
    ensures AllLong(w.s.c.q) ==> ((exists v :: Leads(w, v, true) && u in v.s.forwarded) <==> Fits(w.s.c.q))
  {
    RunSound(Start(), run, w);
    hide WInv, Sound, Waits, Fits, Leads;
    if Fits(w.s.c.q) {
      var v := Comes(w, u, false);
      if AllLong(w.s.c.q) { var v1 := Comes(w, u, true); }
    } else {
      forall v, working | Leads(w, v, working) ensures u !in v.s.forwarded { StuckLeads(w, v, u, working); }
    }
  }

  lemma {:induction false} StuckLeads(w: World, v: World, u: nat, working: bool)
    requires Stuck(w, u) && Leads(w, v, working)
    ensures u !in v.s.forwarded
  {
    hide Stuck;
    var more :| Reachable(w, more, v) && AllQuiet(more, working);
    assert AllQuiet(more, false);
    StuckRun(w, more, v, u);
    StuckIs(v, u);
    WaitsUnforwarded(v, u);
  }

  lemma {:induction false} StuckIs(w: World, u: nat)
    requires Stuck(w, u)
    ensures WInv(w) && Waits(w.s.c.q, u)
  {
    hide WInv, Sound;
  }

  /** Every other queued message can, with a store that refuses nothing: releases, QoS 1 messages,
      subscriptions. */
  lemma {:induction false} OthersComeThrough(run: seq<Action>, w: World, i: nat) returns (v: World)
    requires Reachable(Start(), run, w) && i < |w.s.c.q| && !Unreleased(w.s.c.q[i])
    ensures Leads(w, v, true) && |v.two| == |v.s.ids| && Conservation.Delivered(v, w.s.c.q[i].origin)
  {
    RunOk(Start(), run, w);
    hide Leads, WInv, Same, ReplyFor, Unreleased;
    v := Answered(w, true);
    var e := v.s.c.q[i];
    assert Same(w.s.c.q[i], e);
    SameKind(w.s.c.q[i], e);
    ReplyIds(e);
    assert v.down[i - 0] == ReplyFor(v.s.c.q[i]);
    Completed(v, ReplyFor(e));
    SameOrigin(w.s.c.q[i], e);
  }

  lemma {:induction false} SameOrigin(e: Entry, r: Entry)
    requires Same(e, r)
    ensures r.origin == e.origin
  {
  }

  /** One large message is enough: it is accepted, and whatever follows without another message, it is never
      passed on. */
  lemma {:induction false} AcceptedNeverDelivered(data: Message, ok: bool, v: World)
    requires !IsRel(data) && data.head.qos == 2 && Carries(data, 1)
    requires IPQ_SIZE + data.Size() <= MAX_OUTQ < IPQ_SIZE + data.Size() + IPQ_SIZE + PubrelMessage(0).Size()
    requires Leads(Step(Start(), Publish(data, Written, ok)), v, false)
    ensures 0 in Step(Start(), Publish(data, Written, ok)).accepted && 0 !in v.s.forwarded
  {
    var a := Publish(data, Written, ok);
    var w, e := Step(Start(), a), Entry(1, data, InProgress, 0);
    assert w.s.c.q == [] + [e];
    TotalOne(e);
    AllWaiting([e]);
    assert Unreleased(w.s.c.q[0]);
    assert Reachable(w, [], w);
    assert Reachable(Start(), [a], w);
    hide Step, Total, Waiting, Leads;
    DeliverableIff([a], w, 0);
  }
}
