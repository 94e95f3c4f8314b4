/** The DUP bit: what lets a receiver tell a copy from a new message under the same id. */
module Duplicates {
  import opened Bytes
  import opened SentStores
  import opened Outbound
  import opened AtMostOnce

  /** Every copy of a message but the first one written carries DUP. */
  predicate CopiesMarked(wire: seq<Packet>) {
    forall i, j :: 0 <= i < j < |wire| && !IsRel(wire[i].data) && IsPub(wire[j], wire[i].origin) ==>
      wire[j].data.head.dup
  }

  /** What was written after `from` packets is marked. */
  predicate MarkedFrom(wire: seq<Packet>, from: nat) {
    forall k :: from <= k < |wire| ==> wire[k].data.head.dup
  }

  /** A retry pass adds only marked packets. */
  lemma {:induction false} RetryMarks(c: Conn, i: nat, writes: seq<bool>)
    requires i <= |c.q| == |writes|
    ensures var w := RetryFrom(c, i, writes).wire; |c.wire| <= |w| && w[..|c.wire|] == c.wire && MarkedFrom(w, |c.wire|)
    decreases |c.q| - i
  {
    if i < |c.q| {
      var d := RetryStep(c, i, writes[i]);
      RetryMarks(d, i + 1, writes);
      var w := RetryFrom(d, i + 1, writes).wire;
      assert |c.wire| <= |d.wire| && d.wire[..|c.wire|] == c.wire && MarkedFrom(d.wire, |c.wire|);
      assert w[..|c.wire|] == w[..|d.wire|][..|c.wire|];
      forall k | |c.wire| <= k < |w| ensures w[k].data.head.dup {
        if k < |d.wire| { assert w[k] == w[..|d.wire|][k]; }
      }
    }
  }

  /** Marked packets, a release, or the first copy of a new message keep it. */
  lemma {:induction false} AppendMarked(wire: seq<Packet>, w: seq<Packet>, n: nat)
    requires CopiesMarked(wire) && |wire| <= |w| && w[..|wire|] == wire
    requires forall i :: 0 <= i < |wire| && !IsRel(wire[i].data) ==> wire[i].origin < n
    requires MarkedFrom(w, |wire|) || (|w| == |wire| + 1 && (IsRel(w[|wire|].data) || w[|wire|].origin >= n))
    ensures CopiesMarked(w)
  {
    assert forall i :: 0 <= i < |wire| ==> w[i] == w[..|wire|][i];
    forall i, j | 0 <= i < j < |w| && !IsRel(w[i].data) && IsPub(w[j], w[i].origin) ensures w[j].data.head.dup {
      if j < |wire| { assert wire[i] == w[i] && wire[j] == w[j]; }
    }
  }

  lemma {:induction false} StepMarks(s: Sys, a: Action)
    requires Inv(s) && Enabled(s, a) && CopiesMarked(s.c.wire)
    ensures CopiesMarked(Apply(s, a).c.wire)
  {
    hide Inv, CopiesMarked, RetryFrom, ReloadFrom;
    KnownOrigins(s);
    var w, v := s.c.wire, Apply(s, a).c.wire;
    match a
    case RetryPass(writes) =>
      RetryMarks(s.c, 0, writes);
      AppendMarked(w, v, |s.ids|);
    case Restart(msgs) => ReloadWritesNothing(Fresh(s.c), msgs, 0);
    case Publish(_, _, _) => if v != w { AppendMarked(w, v, |s.ids|); }
    case Pubrec(_, _, _, _) => if v != w { AppendMarked(w, v, |s.ids|); }
    case _ =>
  }

  lemma {:induction false} KnownOrigins(s: Sys)
    requires Inv(s)
    ensures forall i :: 0 <= i < |s.c.wire| && !IsRel(s.c.wire[i].data) ==> s.c.wire[i].origin < |s.ids|
  {
    assert forall i :: 0 <= i < |s.c.wire| ==> GoodEntry(s.c.wire[i].id, s.c.wire[i].data, s.c.wire[i].origin, s.ids);
  }

  lemma {:induction false} RunMarks(s: Sys, run: seq<Action>, t: Sys)
    requires Inv(s) && CopiesMarked(s.c.wire) && Reaches(s, run, t)
    ensures CopiesMarked(t.c.wire)
    decreases |run|
  {
    hide Inv, CopiesMarked, Apply, Enabled;
    if run != [] {
      StepMarks(s, run[0]);
      StepKeeps(s, run[0]);
      RunMarks(Apply(s, run[0]), run[1..], t);
    }
  }

  /** Over every run, whatever the broker replies and whatever fails, restarts included: of the copies of
      a message all but the first one written carry DUP. */
  lemma {:induction false} ResentWithDup(attached: bool, run: seq<Action>, t: Sys)
    requires Reaches(Init(attached), run, t)
    ensures CopiesMarked(t.c.wire)
  {
    InitKeeps(attached);
    hide Inv, Reaches;
    RunMarks(Init(attached), run, t);
  }

  /** A copy differs from the message in bit 3 of its first byte and in nothing else: QoS, RETAIN, id, topic and
      payload are the same. */
  lemma {:induction false} DupIsOneBit(m: Message)
    ensures var s, t := ToBytes(m), ToBytes(WithDup(m));
      && |t| == |s| && t[1..] == s[1..] && t[0] / 8 % 2 == 1 && t[0] / 16 == s[0] / 16 && t[0] % 8 == s[0] % 8
  {
    FlagBits(m.head);
    FlagBits(WithDup(m).head);
    TopBits(ToBytes(m)[0]);
    TopBits(ToBytes(WithDup(m))[0]);
    assert ToBytes(m)[1..] == m.body && ToBytes(WithDup(m))[1..] == m.body;
  }

  lemma {:induction false} TopBits(b: byte)
    ensures b == 8 * (b / 8) + b % 8 && b / 8 == 2 * (b / 16) + b / 8 % 2
  {
  }

  // ----- What a retry pass sends ----------------------------------------------------------------

  /** The queue after a pass that has dealt with the first i entries. */
  predicate Passed(q: seq<Entry>, r: seq<Entry>, i: nat) {
    && |r| == |q| && i <= |q|
    && (forall k :: 0 <= k < i ==> r[k] == Retried(q[k]))
    && (forall k :: i <= k < |q| ==> r[k] == q[k])
  }

  /** A pass changes each entry once: one that waited since the last pass gets DUP, one sent since then is
      only marked for the next pass. */
  lemma {:induction false} PassTouchesOnce(c: Conn, q: seq<Entry>, i: nat, writes: seq<bool>)
    requires |writes| == |c.q| && Passed(q, c.q, i)
    ensures Passed(q, RetryFrom(c, i, writes).q, |q|)
    decreases |c.q| - i
  {
    if i < |c.q| { PassTouchesOnce(RetryStep(c, i, writes[i]), q, i + 1, writes); }
  }

  /** The copy of a due entry. */
  function ResentOne(e: Entry): seq<Packet> {
    if e.status.Retrying? then [PacketOf(Retried(e))] else []
  }

  /** The copies a pass writes for the entries from i on. */
  function Resent(q: seq<Entry>, i: nat): seq<Packet>
    requires i <= |q|
    decreases |q| - i
  {
    if i == |q| then [] else ResentOne(q[i]) + Resent(q, i + 1)
  }

  lemma {:induction false} StepResends(c: Conn, q: seq<Entry>, i: nat)
    requires i < |q| && Passed(q, c.q, i) && c.sock
    ensures var d := RetryStep(c, i, true); Passed(q, d.q, i + 1) && d.sock && d.wire == c.wire + ResentOne(q[i])
  {
  }

  lemma {:induction false} PassedLength(q: seq<Entry>, r: seq<Entry>, i: nat)
    requires Passed(q, r, i)
    ensures |r| == |q| && i <= |q|
  {
  }

  lemma {:induction false} PacketsJoin(a: seq<Packet>, b: seq<Packet>, c: seq<Packet>)
    ensures (a + b) + c == a + (b + c)
  {
  }

  /** While the socket takes everything, a pass sends every message that has waited since the pass before,
      with DUP, in queue order, and nothing else. */
  lemma {:induction false} PassResends(c: Conn, q: seq<Entry>, i: nat, writes: seq<bool>)
    requires |writes| == |c.q| && Passed(q, c.q, i) && c.sock && forall k :: 0 <= k < |writes| ==> writes[k]
    ensures RetryFrom(c, i, writes).wire == c.wire + Resent(q, i) && RetryFrom(c, i, writes).sock
    decreases |c.q| - i
  {
    if i < |c.q| {
      hide Passed, RetryStep, ResentOne;
      PassedLength(q, c.q, i);
      StepResends(c, q, i);
      var d := RetryStep(c, i, true);
      PassedLength(q, d.q, i + 1);
      PassResends(d, q, i + 1, writes);
      PacketsJoin(c.wire, ResentOne(q[i]), Resent(q, i + 1));
    }
  }

  /** So a message still queued after two passes has been sent again: the first pass makes every entry
      due, the second sends all of them. */
  lemma {:induction false} TwoPassesResendAll(c: Conn, first: seq<bool>, d: Conn, second: seq<bool>)
    requires |first| == |c.q| && d.q == Retry(c, first).q && d.sock && |second| == |d.q|
    requires forall k :: 0 <= k < |second| ==> second[k]
    ensures |d.q| == |c.q| && |Resent(d.q, 0)| == |c.q| && Retry(d, second).wire == d.wire + Resent(d.q, 0)
    ensures forall k :: 0 <= k < |c.q| ==>
              Resent(d.q, 0)[k].id == c.q[k].id && Resent(d.q, 0)[k].data == WithDup(c.q[k].data)
  {
    PassTouchesOnce(c, c.q, 0, first);
    PassResends(d, d.q, 0, second);
    AllDue(d.q, 0);
    forall k | 0 <= k < |c.q|
      ensures Resent(d.q, 0)[k].id == c.q[k].id && Resent(d.q, 0)[k].data == WithDup(c.q[k].data)
    {
      assert d.q[k] == Retried(c.q[k]);
      assert Resent(d.q, 0)[k - 0] == PacketOf(Retried(d.q[k]));
    }
  }

  lemma {:induction false} AllDue(q: seq<Entry>, i: nat)
    requires i <= |q| && forall k :: 0 <= k < |q| ==> q[k].status.Retrying?
    ensures |Resent(q, i)| == |q| - i
    ensures forall k {:trigger q[k]} :: i <= k < |q| ==> Resent(q, i)[k - i] == PacketOf(Retried(q[k]))
    decreases |q| - i
  {
    if i < |q| {
      AllDue(q, i + 1);
      var all, rest := Resent(q, i), Resent(q, i + 1);
      hide Resent;
      assert ResentOne(q[i]) == [PacketOf(Retried(q[i]))];
      assert all == ResentOne(q[i]) + rest;
      forall k {:trigger q[k]} | i <= k < |q| ensures all[k - i] == PacketOf(Retried(q[k])) {
        if k > i { assert all[k - i] == rest[k - (i + 1)]; }
      }
    }
  }
}
