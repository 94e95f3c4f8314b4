/** Message ids and what their status means: when an id comes around again, and that an accepted message
    stays queued under its id until that id is acknowledged. */
module Pending {
  import opened Bytes
  import opened SentStores
  import opened Outbound
  import opened QueueFacts
  import opened AtMostOnce
  import opened Recovery
  import opened Conservation

  // ----- Message ids ----------------------------------------------------------------------------

  /** The id after n further allocations. */
  function After(id: u16, n: nat): u16 {
    if n == 0 then id else NextMsgId(After(id, n - 1))
  }

  /** The ids run through 1 to 65535 and start over. */
  lemma {:induction false} AfterClosed(id: u16, n: nat)
    requires id > 0
    ensures After(id, n) == (id - 1 + n) % 65535 + 1
  {
    if n > 0 {
      AfterClosed(id, n - 1);
      Successor(id - 1 + n - 1);
    } else {
      assert (id - 1) % 65535 == id - 1;
    }
  }

  lemma {:induction false} Successor(a: nat)
    ensures (a + 1) % 65535 == if a % 65535 == 65534 then 0 else a % 65535 + 1
  {
  }

  /** Two allocations give the same id exactly if a multiple of 65535 lies between them. */
  lemma {:induction false} SameIdIff(id: u16, j: nat, k: nat)
    requires id > 0 && j <= k
    ensures After(id, j) == After(id, k) <==> (k - j) % 65535 == 0
  {
    AfterClosed(id, j);
    AfterClosed(id, k);
    SameRemainder(id - 1 + j, k - j);
  }

  lemma {:induction false} SameRemainder(a: nat, d: nat)
    ensures a % 65535 == (a + d) % 65535 <==> d % 65535 == 0
  {
    var x, y := a / 65535, (a + d) / 65535;
    assert a == 65535 * x + a % 65535 && a + d == 65535 * y + (a + d) % 65535;
    if a % 65535 == (a + d) % 65535 {
      assert d == 65535 * (y - x);
    }
  }

  /** After a reload the ids go on behind the largest one in the store, or start with 1. */
  lemma {:induction false} ReloadNextId(c: Conn, msgs: seq<(nat, Stored)>)
    requires forall i :: 0 <= i < |msgs| ==> msgs[i].0 <= 32767
    ensures var n := Reload(c, msgs).nextMsgId;
      && (msgs == [] ==> n == 1) && (msgs != [] ==> exists i :: 0 <= i < |msgs| && n == msgs[i].0 + 1)
      && forall i :: 0 <= i < |msgs| ==> msgs[i].0 < n
  {
    LargestKey(Fresh(c), msgs, 0);
  }

  lemma {:induction false} LargestKey(c: Conn, msgs: seq<(nat, Stored)>, i: nat)
    requires i <= |msgs| && c.nextMsgId <= 32767 && forall j :: 0 <= j < |msgs| ==> msgs[j].0 <= 32767
    ensures var n := ReloadFrom(c, msgs, i).nextMsgId;
      && c.nextMsgId <= n <= 32767 && (n == c.nextMsgId || exists j :: i <= j < |msgs| && n == msgs[j].0)
      && forall j :: i <= j < |msgs| ==> msgs[j].0 <= n
    decreases |msgs| - i
  {
    hide Admit;
    if i < |msgs| {
      assert ReloadStep(c, msgs[i].0, msgs[i].1).nextMsgId == if msgs[i].0 > c.nextMsgId then msgs[i].0
        else c.nextMsgId;
      hide ReloadStep;
      LargestKey(ReloadStep(c, msgs[i].0, msgs[i].1), msgs, i + 1);
    }
  }

  /** Entry i got its id at allocation times[i]; `first` is the id of allocation 0. */
  predicate AllocatedAt(q: seq<Entry>, times: seq<nat>, first: u16) {
    |times| == |q| && forall i :: 0 <= i < |q| ==> q[i].id == After(first, times[i])
  }

  /** The id of allocation `now` is in use exactly if a queued entry is a multiple of 65535 allocations
      old; so with fewer than 65535 allocations since the oldest one it displaces nothing. */
  lemma {:induction false} DisplacesIff(q: seq<Entry>, times: seq<nat>, first: u16, now: nat)
    requires first > 0 && AllocatedAt(q, times, first) && forall i :: 0 <= i < |q| ==> times[i] < now
    ensures HasId(q, After(first, now)) <==> exists i :: 0 <= i < |q| && (now - times[i]) % 65535 == 0
    ensures (forall i :: 0 <= i < |q| ==> now - times[i] < 65535) ==> Without(q, After(first, now)) == q
  {
    hide After, Without;
    var id := After(first, now);
    forall i | 0 <= i < |q| ensures q[i].id == id <==> (now - times[i]) % 65535 == 0 {
      SameIdIff(first, times[i], now);
    }
    if forall i :: 0 <= i < |q| ==> now - times[i] < 65535 {
      forall i | 0 <= i < |q| ensures q[i].id != id { assert 0 < now - times[i] < 65535; }
      WithoutAbsent(q, id);
    }
  }

  // ----- Pending until acknowledged -------------------------------------------------------------

  lemma {:induction false} WithoutHas(q: seq<Entry>, id: u16, other: u16)
    requires HasId(q, id) && id != other
    ensures HasId(Without(q, other), id)
  {
    WithoutDrops(q, other);
    var i :| 0 <= i < |q| && q[i].id == id;
    assert q[i] in Without(q, other);
    var j :| 0 <= j < |Without(q, other)| && Without(q, other)[j] == q[i];
  }

  /** Queueing, replacing and writing take no id off the queue, and a message that is accepted puts its
      own there. */
  lemma {:induction false} SendHas(c: Conn, data: Message, id: u16, origin: nat, put: PutResult, ok: bool, other: u16)
    ensures var (d, rc) := Send(c, data, id, origin, false, put, ok);
      && (HasId(c.q, other) ==> HasId(d.q, other))
      && (IsStored(data) && (rc.Ok? || rc.NotSent?) ==> HasId(d.q, id))
  {
    hide Without, Put, Total;
    var e := Entry(id, data, InProgress, origin);
    var q := Without(c.q, id) + [e];
    assert q[|q| - 1].id == id;
    if HasId(c.q, other) && other != id {
      WithoutHas(c.q, other, id);
      var i :| 0 <= i < |Without(c.q, id)| && Without(c.q, id)[i].id == other;
      assert q[i].id == other;
    }
  }

  lemma {:induction false} RetryHas(c: Conn, writes: seq<bool>, id: u16)
    requires |writes| == |c.q| && HasId(c.q, id)
    ensures HasId(Retry(c, writes).q, id)
  {
    var p := (d: Conn) => HasId(d.q, id);
    forall d: Conn, j: nat, ok | p(d) && j < |d.q| ensures p(RetryStep(d, j, ok)) {
      var i :| 0 <= i < |d.q| && d.q[i].id == id;
      assert RetryStep(d, j, ok).q[i].id == id;
    }
    RetryInduction(p, c, 0, writes);
  }

  /** Acknowledges this id. */
  predicate Acks(a: Action, id: u16) {
    a.Ack? && a.id == id
  }

  lemma {:induction false} StepHas(s: Sys, a: Action, id: u16)
    requires Enabled(s, a) && HasId(s.c.q, id) && !Acks(a, id) && !a.Restart?
    ensures HasId(Apply(s, a).c.q, id)
  {
    hide Send, HasId, Retry, Without;
    match a
    case Publish(data, put, ok) => SendHas(s.c, data, s.c.nextMsgId, |s.ids|, put, ok, id);
    case Pubrec(i, origin, put, ok) => SendHas(s.c, PubrelMessage(i), i, origin, put, ok, id);
    case Ack(i, del) => WithoutHas(s.c.q, id, i);
    case RetryPass(writes) => RetryHas(s.c, writes, id);
    case _ =>
  }

  /** Whatever the broker replies and whatever fails: until its id is acknowledged a message stays queued,
      or its release does, and the status of the id is not DELIVERED. */
  lemma {:induction false} PendingUntilAcknowledged(s: Sys, run: seq<Action>, t: Sys, id: u16)
    requires Reaches(s, run, t) && HasId(s.c.q, id)
    requires forall i :: 0 <= i < |run| ==> !Acks(run[i], id) && !run[i].Restart?
    ensures HasId(t.c.q, id) && !StatusOf(t.c.q, id).Delivered?
    decreases |run|
  {
    hide Apply, HasId, Enabled;
    if run != [] {
      assert !Acks(run[0], id);
      StepHas(s, run[0], id);
      PendingUntilAcknowledged(Apply(s, run[0]), run[1..], t, id);
    }
  }

  /** Across a reload as well, when queue and store hold the same messages. */
  lemma {:induction false} ReloadHas(c: Conn, msgs: seq<(nat, Stored)>, id: u16)
    requires Sound(c) && Lists(msgs, c.store.View()) && HasId(c.q, id)
    ensures HasId(Reload(c, msgs).q, id)
  {
    hide Sound, Lists, Reload;
    ReloadRecovers(c, msgs);
    var i :| 0 <= i < |c.q| && c.q[i].id == id;
    assert Holds(Reload(c, msgs).q, c.q[i]);
  }

  /** With the conforming broker of `Conservation` and a store that deletes what it is told to: pending
      across crashes and restarts too. */
  lemma {:induction false} PendingAcrossRestarts(w: World, run: seq<Action>, v: World, id: u16)
    requires WInv(w) && Sound(w.s.c) && Reachable(w, run, v) && HasId(w.s.c.q, id)
    requires forall i :: 0 <= i < |run| ==> !Acks(run[i], id) && Tidy(run[i])
    ensures HasId(v.s.c.q, id) && !StatusOf(v.s.c.q, id).Delivered?
    decreases |run|
  {
    hide WInv, Sound, HasId;
    if run != [] {
      assert !Acks(run[0], id) && Tidy(run[0]);
      WorldStepHas(w, run[0], id);
      StepOk(w, run[0]);
      StepSound(w, run[0]);
      PendingAcrossRestarts(Conservation.Step(w, run[0]), run[1..], v, id);
    }
  }

  lemma {:induction false} WorldStepHas(w: World, a: Action, id: u16)
    requires Conforms(w, a) && Sound(w.s.c) && HasId(w.s.c.q, id) && !Acks(a, id)
    ensures HasId(Conservation.Step(w, a).s.c.q, id)
  {
    hide HasId, Sound, Send, Retry, Reload, Request, OnPubrec, OnAck;
    if a.Restart? {
      ReloadHas(w.s.c, a.msgs, id);
    } else {
      StepHas(w.s, a, id);
    }
  }

  // ----- The byte cap ---------------------------------------------------------------------------

  predicate WithinCap(c: Conn) {
    Total(c.q) <= MAX_OUTQ
  }

  lemma {:induction false} SendCap(c: Conn, data: Message, id: u16, origin: nat, init: bool, put: PutResult, ok: bool)
    requires WithinCap(c)
    ensures WithinCap(Send(c, data, id, origin, init, put, ok).0)
  {
    hide Without, Put, Total;
    var e := Entry(id, data, if init then Retrying else InProgress, origin);
    TotalWithout(c.q, id);
    TotalAppend(Without(c.q, id), e);
  }

  lemma {:induction false} RetryCap(c: Conn, writes: seq<bool>)
    requires |writes| == |c.q| && WithinCap(c)
    ensures WithinCap(Retry(c, writes))
  {
    var p := (d: Conn) => WithinCap(d);
    forall d: Conn, j: nat, ok | p(d) && j < |d.q| ensures p(RetryStep(d, j, ok)) {
      TotalUpdate(d.q, j, Retried(d.q[j]));
    }
    RetryInduction(p, c, 0, writes);
  }

  lemma {:induction false} ReloadCap(c: Conn, msgs: seq<(nat, Stored)>, i: nat)
    requires i <= |msgs| && WithinCap(c)
    ensures WithinCap(ReloadFrom(c, msgs, i))
    decreases |msgs| - i
  {
    hide Send, Total;
    if i < |msgs| {
      var c1 := if msgs[i].0 > c.nextMsgId then c.(nextMsgId := IdOfKey(msgs[i].0)) else c;
      SendCap(c1, msgs[i].1.data, IdOfKey(msgs[i].0), msgs[i].1.origin, true, Written, false);
      ReloadCap(ReloadStep(c, msgs[i].0, msgs[i].1), msgs, i + 1);
    }
  }

  lemma {:induction false} StepCap(s: Sys, a: Action)
    requires Enabled(s, a) && WithinCap(s.c)
    ensures WithinCap(Apply(s, a).c)
  {
    hide Send, Retry, Without, Total, ReloadFrom;
    match a
    case Publish(data, put, ok) => SendCap(s.c, data, s.c.nextMsgId, |s.ids|, false, put, ok);
    case Pubrec(i, origin, put, ok) => SendCap(s.c, PubrelMessage(i), i, origin, false, put, ok);
    case Ack(i, del) => TotalWithout(s.c.q, i);
    case RetryPass(writes) => RetryCap(s.c, writes);
    case Restart(msgs) =>
      NothingQueued();
      ReloadCap(Fresh(s.c), msgs, 0);
    case _ =>
  }

  lemma {:induction false} NothingQueued()
    ensures Total([]) == 0
  {
  }

  lemma {:induction false} RunCap(s: Sys, run: seq<Action>, t: Sys)
    requires WithinCap(s.c) && Reaches(s, run, t)
    ensures WithinCap(t.c)
    decreases |run|
  {
    hide WithinCap, Apply, Enabled;
    if run != [] {
      StepCap(s, run[0]);
      RunCap(Apply(s, run[0]), run[1..], t);
    }
  }

  /** In every reachable state the queued messages with their control blocks take at most 32768 bytes,
      whatever the broker replies and whatever fails. */
  lemma {:induction false} CapHolds(attached: bool, run: seq<Action>, t: Sys)
    requires Reaches(Init(attached), run, t)
    ensures Total(t.c.q) <= 32768
  {
    NothingQueued();
    RunCap(Init(attached), run, t);
  }
}
