/** The waiting loop of MQIsdp_receivePub in the single-thread build: each round hands part of the
    caller's timeout to the socket wait of the main loop and takes what was waited off the rest. */
module ReceiveWait {
  import opened Bytes
  import opened Links
  import opened Inbound
  import opened InboundFacts

  function Min(a: int, b: int): int {
    if a < b then a else b
  }

  /** How long the socket is waited for, at most: half the keep-alive time, in milliseconds. */
  function Slice(keepAlive: int, remaining: int): int {
    Min(500 * keepAlive, remaining)
  }

  datatype Answer = Publication(offer: Offer) | NoPublications(waited: int) | ConnectionBroken

  predicate Wellformed(es: seq<InEvent>) {
    forall i {:trigger es[i]} :: 0 <= i < |es| && es[i].PublishIn? ==> |es[i].buf| > 1
  }

  predicate FlagsOk(q: seq<Rpq>) {
    forall i {:trigger q[i]} :: 0 <= i < |q| ==> FlagOk(q[i].pub)
  }

  lemma {:induction false} FlagsKept(c: InConn, e: InEvent)
    requires FlagsOk(c.q) && (e.PublishIn? ==> |e.buf| > 1)
    ensures FlagsOk(Receive(c, e).q) && Ready(c.q) <= Ready(Receive(c, e).q)
  {
    hide OnPublish, OnPubrel, FlagsOk, Ready;
    match e
    case PublishIn(buf, origin, add, ok) => PublishFlags(c, buf, origin, add, ok);
    case PubrelIn(id, origin, upd, ok) => PubrelFlags(c, id, origin, upd, ok);
    case OtherIn =>
  }

  lemma {:induction false} PublishFlags(c: InConn, buf: seq<byte>, origin: nat, add: bool, ok: bool)
    requires FlagsOk(c.q) && |buf| > 1
    ensures var d := OnPublish(c, buf, 0, origin, add, ok); FlagsOk(d.q) && Ready(c.q) <= Ready(d.q)
  {
    hide Parse, Ready, IsDuplicate, FlagOk;
    if Parse(Flagged(buf), 0).Some? {
      FlaggedOk(buf, 0);
      ReadyAppend(c.q, NewEntry(c, Parse(Flagged(buf), 0).value, origin));
    }
  }

  lemma {:induction false} PubrelFlags(c: InConn, id: u16, origin: nat, upd: UpdResult, ok: bool)
    requires FlagsOk(c.q)
    ensures var d := OnPubrel(c, id, origin, upd, ok); FlagsOk(d.q) && Ready(c.q) <= Ready(d.q)
  {
    hide Ready, PlaceOf;
    if id in c.hash && PlaceOf(c.q, c.hash[id], 0) < |c.q| {
      var k := PlaceOf(c.q, c.hash[id], 0);
      ReadyUpdate(c.q, k, WithFlag(c.q[k], RELEASED));
      ReadyOne(c.q[k]);
      ReadyOne(WithFlag(c.q[k], RELEASED));
    }
  }

  lemma {:induction false} NothingReady(q: seq<Rpq>)
    requires FlagsOk(q)
    ensures OfferOf(q).NoPubs? <==> Ready(q) == 0
  {
    hide Ready;
    ReadyPositive(q);
    var k := FirstReady(q, 0);
    if k < |q| { assert FlagOk(q[k].pub); }
  }

  lemma {:induction false} ReceiveAllOne(c: InConn, es: seq<InEvent>, i: nat)
    requires i < |es| && Wellformed(es)
    ensures Wellformed(es[..i]) && Wellformed(es[..i + 1])
    ensures ReceiveAll(c, es[..i + 1]) == Receive(ReceiveAll(c, es[..i]), es[i])
    decreases i
  {
    assert forall j :: 0 <= j < i + 1 ==> es[..i + 1][j] == es[j];
    assert forall j :: 0 <= j < i ==> es[..i][j] == es[j];
    if i > 0 {
      assert forall j :: 0 <= j < |es[1..]| ==> es[1..][j] == es[j + 1];
      ReceiveAllOne(Receive(c, es[0]), es[1..], i - 1);
      assert es[..i][1..] == es[1..][..i - 1] && es[..i + 1][1..] == es[1..][..i];
    } else {
      assert es[..1][1..] == [] && es[..0] == [];
    }
  }

  /** One run of the main loop for a receive request: wait, handle what arrives, wait again, and answer when
      nothing comes. The wait is set to zero as soon as a publication is ready; until then each packet starts
      it anew. `handed` are the waits handed to the socket; all but the last ended early. */
  method ServeReceive(c: InConn, keepAlive: int, remaining: int, arriving: seq<InEvent>, broken: bool)
    returns (c1: InConn, a: Answer, handed: seq<int>)
    requires FlagsOk(c.q) && Wellformed(arriving)
    ensures c1 == ReceiveAll(c, arriving) && FlagsOk(c1.q)
    ensures a.Publication? <==> Ready(c1.q) > 0
    ensures a.Publication? ==> a.offer == OfferOf(c1.q)
    ensures a.ConnectionBroken? <==> Ready(c1.q) == 0 && broken
    ensures a.NoPublications? ==> a.waited == Slice(keepAlive, remaining)
    ensures |handed| == |arriving| + 1 && WaitsFor(c, arriving, handed, keepAlive, remaining)
    ensures Ready(c1.q) == 0 ==> AllAre(handed, Slice(keepAlive, remaining))
  {
    hide Receive, Ready;
    c1 := c;
    var sockWait := if Ready(c.q) > 0 then 0 else Slice(keepAlive, remaining);
    handed := [sockWait];
    assert arriving[..0] == [];
    for i := 0 to |arriving|
      invariant Wellformed(arriving[..i]) && c1 == ReceiveAll(c, arriving[..i]) && FlagsOk(c1.q)
      invariant sockWait == if Ready(c1.q) > 0 then 0 else Slice(keepAlive, remaining)
      invariant |handed| == i + 1
      invariant forall j :: 0 <= j <= i ==> handed[j] == WaitAfter(c, arriving, j, keepAlive, remaining)
      invariant Ready(c1.q) == 0 ==> AllAre(handed, Slice(keepAlive, remaining))
    {
      ReceiveAllOne(c, arriving, i);
      FlagsKept(c1, arriving[i]);
      c1 := Receive(c1, arriving[i]);
      if Ready(c1.q) > 0 {
        sockWait := 0;
      }
      handed := handed + [sockWait];
    }
    assert arriving[..|arriving|] == arriving;
    NothingReady(c1.q);
    var offer := OfferOf(c1.q);
    a := if offer != NoPubs then Publication(offer) else if broken then ConnectionBroken else NoPublications(sockWait);
  }

  /** The wait after the first i packets. */
  function WaitAfter(c: InConn, es: seq<InEvent>, i: nat, keepAlive: int, remaining: int): int
    requires i <= |es| && Wellformed(es)
  {
    WellformedPart(es, i);
    if Ready(ReceiveAll(c, es[..i]).q) > 0 then 0 else Slice(keepAlive, remaining)
  }

  /** Before each wait the ready publications are looked at anew. */
  ghost predicate WaitsFor(c: InConn, es: seq<InEvent>, handed: seq<int>, keepAlive: int, remaining: int)
    requires Wellformed(es)
  {
    |handed| == |es| + 1
    && forall i :: 0 <= i <= |es| ==> handed[i] == WaitAfter(c, es, i, keepAlive, remaining)
  }

  predicate AllAre(waits: seq<int>, w: int) {
    forall i :: 0 <= i < |waits| ==> waits[i] == w
  }

  lemma {:induction false} WellformedPart(es: seq<InEvent>, i: nat)
    requires i <= |es| && Wellformed(es)
    ensures Wellformed(es[..i])
  {
    assert forall j :: 0 <= j < i ==> es[..i][j] == es[j];
  }

  function Sum(waits: seq<int>): int {
    if waits == [] then 0 else Sum(waits[..|waits| - 1]) + waits[|waits| - 1]
  }

  lemma {:induction false} SumAppend(waits: seq<int>, w: int)
    ensures Sum(waits + [w]) == Sum(waits) + w
  {
    assert (waits + [w])[..|waits|] == waits;
  }

  lemma {:induction false} SumConcat(a: seq<int>, b: seq<int>)
    ensures Sum(a + b) == Sum(a) + Sum(b)
  {
    if b == [] {
      assert a + b == a;
    } else {
      assert (a + b)[..|a + b| - 1] == a + b[..|b| - 1];
      SumConcat(a, b[..|b| - 1]);
    }
  }

  lemma {:induction false} SumSame(waits: seq<int>, w: int)
    requires AllAre(waits, w)
    ensures Sum(waits) == |waits| * w
  {
    if waits != [] { SumSame(waits[..|waits| - 1], w); }
  }

  /** What rounds with these waits hand to the socket: each wait once, and once more for every packet. */
  function AllHanded(waits: seq<int>, net: nat -> seq<InEvent>): int {
    if waits == [] then 0
    else
      var n := |waits| - 1;
      AllHanded(waits[..n], net) + (|net(n)| + 1) * waits[n]
  }

  lemma {:induction false} HandedAppend(waits: seq<int>, w: int, net: nat -> seq<InEvent>)
    ensures AllHanded(waits + [w], net) == AllHanded(waits, net) + (|net(|waits|)| + 1) * w
  {
    assert (waits + [w])[..|waits|] == waits;
  }

  lemma {:induction false} SumNone(net: nat -> seq<InEvent>)
    ensures Sum([]) == 0 && AllHanded([], net) == 0
  {
  }

  predicate Quiet(net: nat -> seq<InEvent>, n: nat) {
    forall i: nat {:trigger net(i)} :: i < n ==> net(i) == []
  }

  /** That is never less than the waits themselves, and the same exactly if no packet came. */
  lemma {:induction false} HandedIff(waits: seq<int>, net: nat -> seq<InEvent>)
    requires forall i :: 0 <= i < |waits| ==> waits[i] > 0
    ensures AllHanded(waits, net) >= Sum(waits)
    ensures AllHanded(waits, net) == Sum(waits) <==> Quiet(net, |waits|)
  {
    if waits != [] {
      var n := |waits| - 1;
      HandedIff(waits[..n], net);
      var k, w := |net(n)|, waits[n];
      assert (k + 1) * w == k * w + w && k * w >= 0 && (k * w == 0 <==> k == 0);
    }
  }

  /** How many rounds a timeout takes, if no publication comes. */
  function Rounds(keepAlive: int, msTimeout: int): nat
    requires keepAlive > 0
    decreases if msTimeout > 0 then msTimeout else 0
  {
    if msTimeout <= 500 * keepAlive then 1 else 1 + Rounds(keepAlive, msTimeout - 500 * keepAlive)
  }

  /** The timeout divided by half the keep-alive time, rounded up. */
  lemma {:induction false} RoundsClosed(keepAlive: int, msTimeout: int)
    requires keepAlive > 0 && msTimeout > 0
    ensures 500 * keepAlive * (Rounds(keepAlive, msTimeout) - 1) < msTimeout
    ensures msTimeout <= 500 * keepAlive * Rounds(keepAlive, msTimeout)
    decreases msTimeout
  {
    var s := 500 * keepAlive;
    if msTimeout > s {
      RoundsClosed(keepAlive, msTimeout - s);
      var n := Rounds(keepAlive, msTimeout - s);
      assert s * (n - 1) + s == s * n && s * n + s == s * (n + 1);
    }
  }

  /** The do-while loop of MQIsdp_receivePub; `net` and `broken` say what each round meets, and `waits` are
      the waits it is told of with NO_PUBS. When it ends without a publication these are positive and add up
      to exactly the timeout, each but the last half the keep-alive time. The waits handed to the socket are
      these, each once more for every packet of its round. A timeout that is not positive takes one round. */
  method ReceivePub(c: InConn, keepAlive: int, msTimeout: int, net: nat -> seq<InEvent>, broken: nat -> bool)
    returns (c1: InConn, a: Answer, waits: seq<int>, handed: seq<int>)
    requires FlagsOk(c.q) && forall i :: Wellformed(net(i))
    requires keepAlive > 0 || (keepAlive == 0 && msTimeout <= 0)
    ensures FlagsOk(c1.q) && (a.Publication? <==> Ready(c1.q) > 0)
    ensures msTimeout > 0 ==> forall i :: 0 <= i < |waits| ==> 0 < waits[i] <= 500 * keepAlive
    ensures a.NoPublications? && msTimeout > 0 ==> Sum(waits) == msTimeout && |waits| == Rounds(keepAlive, msTimeout)
    ensures msTimeout > 0 ==> Sum(waits) <= msTimeout
    ensures a.NoPublications? && msTimeout <= 0 ==> waits == [Slice(keepAlive, msTimeout)]
    ensures a.NoPublications? ==> Sum(handed) == AllHanded(waits, net)
  {
    hide Receive, Ready, WaitsFor, AllAre, ReceiveAll, OfferOf, Sum, AllHanded;
    SumNone(net);
    var remaining, round := msTimeout, 0;
    waits := [];
    c1, a, handed := ServeReceive(c, keepAlive, remaining, net(0), broken(0));
    if a.NoPublications? { SumSame(handed, a.waited); }
    while a.NoPublications? && remaining - a.waited > 0
      invariant FlagsOk(c1.q) && 0 <= round && (a.Publication? <==> Ready(c1.q) > 0)
      invariant a.NoPublications? ==> a.waited == Slice(keepAlive, remaining)
      invariant remaining + Sum(waits) == msTimeout && round == |waits|
      invariant a.NoPublications? ==> Sum(handed) == AllHanded(waits, net) + (|net(round)| + 1) * a.waited
      invariant msTimeout > 0 ==> remaining > 0 && forall i :: 0 <= i < |waits| ==> 0 < waits[i] <= 500 * keepAlive
      invariant msTimeout <= 0 ==> waits == [] && remaining == msTimeout
      invariant msTimeout > 0 ==> |waits| + Rounds(keepAlive, remaining) == Rounds(keepAlive, msTimeout)
      decreases remaining
    {
      SumAppend(waits, a.waited);
      HandedAppend(waits, a.waited, net);
      waits, remaining, round := waits + [a.waited], remaining - a.waited, round + 1;
      var more;
      c1, a, more := ServeReceive(c1, keepAlive, remaining, net(round), broken(round));
      SumConcat(handed, more);
      handed := handed + more;
      if a.NoPublications? { SumSame(more, a.waited); }
    }
    if a.NoPublications? {
      SumAppend(waits, a.waited);
      HandedAppend(waits, a.waited, net);
      waits := waits + [a.waited];
    }
  }

  /** What is left of the timeout after n rounds that bring nothing. */
  function Budget(keepAlive: int, remaining: int, n: nat): int
    decreases n
  {
    if n == 0 then remaining else Budget(keepAlive, remaining - Slice(keepAlive, remaining), n - 1)
  }

  lemma {:induction false} BudgetKept(keepAlive: int, remaining: int, n: nat)
    requires keepAlive <= 0 && remaining > 0
    ensures Budget(keepAlive, remaining, n) >= remaining
    decreases n
  {
    if n > 0 { BudgetKept(keepAlive, remaining - Slice(keepAlive, remaining), n - 1); }
  }

  lemma {:induction false} BudgetSpent(keepAlive: int, remaining: int)
    requires keepAlive > 0 && remaining > 0
    ensures Budget(keepAlive, remaining, Rounds(keepAlive, remaining)) == 0
    decreases remaining
  {
    var n := Rounds(keepAlive, remaining);
    if remaining > 500 * keepAlive {
      BudgetSpent(keepAlive, remaining - 500 * keepAlive);
    } else {
      assert Budget(keepAlive, 0, 0) == 0;
      assert n == 1;
    }
  }

  /** A positive timeout with no publication coming is ever used up exactly if the keep-alive time is
      positive; otherwise the loop goes on. */
  lemma {:induction false} WaitEndsIff(keepAlive: int, msTimeout: int)
    requires msTimeout > 0
    ensures (exists n: nat :: Budget(keepAlive, msTimeout, n) <= 0) <==> keepAlive > 0
  {
    if keepAlive > 0 {
      BudgetSpent(keepAlive, msTimeout);
    } else {
      forall n: nat ensures Budget(keepAlive, msTimeout, n) > 0 { BudgetKept(keepAlive, msTimeout, n); }
    }
  }
}
