/** What a dropped duplicate costs: the client answers a QoS 2 message with PUBREC only when it takes it, so
    a PUBREC that is lost is never repeated, and the message is never released. */
module ReceiverStalls {
  import opened Bytes
  import opened Wrappers
  import opened SentStores
  import opened Inbound
  import opened InboundFacts
  import opened InboundRecovery
  import opened ReceiverProtocol
  import opened ReceiverData
  import opened ReceiverSafety

  predicate PubrecOnWay(s: RSys, w: u16) {
    exists i :: s.read <= i < |s.c.acks| && s.c.acks[i].kind.Pubrec? && s.c.acks[i].id == w
  }

  /** Message u waits for its release under id w, the broker waits for its PUBREC, and none is on the
      way. */
  ghost predicate Stalled(s: RSys, w: u16, u: nat) {
    && w in s.inflight && s.inflight[w].u == u && !s.inflight[w].released && Two(s.lvl, u)
    && w in WaitingIn(s.c) && WaitingIn(s.c)[w] == u
    && !PubrecOnWay(s, w)
  }

  /** Nothing that concerns id w changed, but for acknowledgements that are no PUBREC for it. */
  predicate NoPubrec(s: RSys, t: RSys, w: u16) {
    && s.read <= t.read && |s.c.acks| <= |t.c.acks|
    && (forall i :: 0 <= i < |s.c.acks| ==> t.c.acks[i] == s.c.acks[i])
    && (forall i :: |s.c.acks| <= i < |t.c.acks| ==> !(t.c.acks[i].kind.Pubrec? && t.c.acks[i].id == w))
  }

  lemma {:induction false} StaysStalled(s: RSys, t: RSys, w: u16, u: nat)
    requires Stalled(s, w, u) && NoPubrec(s, t, w) && s.lvl <= t.lvl
    requires w in t.inflight && t.inflight[w] == s.inflight[w] && w in WaitingIn(t.c) && WaitingIn(t.c)[w] == u
    ensures Stalled(t, w, u)
  {
    hide WaitingIn;
  }

  /** What the invariant says about it. */
  lemma {:induction false} StalledFacts(s: RSys, w: u16, u: nat)
    requires RInv(s) && Stalled(s, w, u)
    ensures InSound(s.c) && w in s.c.hash && u !in PastIn(s.c) && Level(s.inflight[w].buf) == 2
            && s.inflight[w].buf != []
    ensures DataOk(s) && QueueFrom(s) && u !in CtxOf(s).released && w in CtxOf(s).waiting && CtxOf(s).waiting[w] == u
  {
    hide LinkOk, AcksOk, BufsOk, StoreOk, DeliveredOk, DoneOf, HeldIn, PastIn, ReleasedIn, WaitingIn, InBacked,
      InCovers, AllHashed;
    InvData(s);
    hide InInv;
    WaitingKeys(s.c);
    WaitingUnreleased(s);
    assert FlightOk(CtxOf(s), w);
  }

  lemma {:induction false} SendStalls(s: RSys, a: RAction, w: u16, u: nat)
    requires Stalled(s, w, u) && REnabled(s, a) && (a.Send? || a.Resend?)
    ensures Stalled(RStep(s, a), w, u)
  {
    hide WaitingIn, BufOk, Level, Dup;
    StaysStalled(s, RStep(s, a), w, u);
  }

  /** The broker reads an acknowledgement that is no PUBREC for w. */
  lemma {:induction false} ReadStalls(s: RSys, w: u16, u: nat)
    requires Stalled(s, w, u) && s.read < |s.c.acks| && s.inflight[w].buf != [] && Level(s.inflight[w].buf) == 2
    ensures Stalled(BrokerReads(s.(read := s.read + 1), s.c.acks[s.read]), w, u)
  {
    hide WaitingIn, Level;
    var a := s.c.acks[s.read];
    assert !(a.kind.Pubrec? && a.id == w);
    var t := BrokerReads(s.(read := s.read + 1), a);
    assert t.c == s.c && t.lvl == s.lvl && t.read == s.read + 1;
    assert w in t.inflight && t.inflight[w] == s.inflight[w];
    hide BrokerReads;
    StaysStalled(s, t, w, u);
  }

  /** A copy: one with this id is dropped, unanswered. */
  lemma {:induction false} CopyStalls(s: RSys, w: u16, u: nat, add: bool, ok: bool)
    requires RInv(s) && Stalled(s, w, u) && s.down != [] && s.down[0].Copy? && s.down[0].buf != []
             && s.c.nextRcvId < MAX_RCVID
    ensures var p := s.down[0];
      Stalled(s.(c := OnPublish(s.c, p.buf, 0, p.origin, add, ok), down := s.down[1..]), w, u)
  {
    hide RInv, Parse, Framed, Take, DecodesTo, BufOk, InSound, DataOk, QueueFrom, CtxOf, PktOk, LinkOk, BufsOk,
      WaitingIn, HeldIn, PastIn, ReleasedIn, Precedes, Numbered, IsDuplicate, Stalled;
    StalledIs(s, w, u);
    var p := Head(s);
    var t := s.(c := OnPublish(s.c, p.buf, 0, p.origin, add, ok), down := s.down[1..]);
    if Parse(Flagged(p.buf), 0).Some? && !IsDuplicate(s.c, Parse(Flagged(p.buf), 0).value) {
      var pub := Parse(Flagged(p.buf), 0).value;
      DecodedHead(s, p);
      assert t == AfterTake(s, p, pub, add, ok);
      hide OnPublish;
      TakeStalls(s, w, u, p, pub, add, ok);
    } else {
      assert t == s.(down := s.down[1..]);
      hide OnPublish;
      StaysStalled(s, t, w, u);
    }
  }

  lemma {:induction false} StalledIs(s: RSys, w: u16, u: nat)
    requires Stalled(s, w, u)
    ensures w in s.inflight && w in WaitingIn(s.c) && WaitingIn(s.c)[w] == u
  {
    hide WaitingIn;
  }

  lemma {:induction false} TakeStalls(s: RSys, w: u16, u: nat, p: Down, pub: Pub, add: bool, ok: bool)
    requires RInv(s) && Stalled(s, w, u) && Takes(s, p, pub)
    ensures Stalled(AfterTake(s, p, pub, add, ok), w, u)
  {
    hide RInv, Parse, Framed, Flagged, DecodesTo, BufOk, InSound, DataOk, QueueFrom, CtxOf, PktOk, LinkOk, BufsOk,
      WaitingIn, HeldIn, PastIn, ReleasedIn, Precedes, Numbered, IsDuplicate, Take;
    StalledFacts(s, w, u);
    TakeFacts(s, p, pub);
    DecodedId(s, p, pub);
    TakeEffect(s.c, Flagged(p.buf), pub, p.origin, add, ok);
    TakeAcks(s.c, Flagged(p.buf), pub, p.origin, add, ok);
    StaysStalled(s, AfterTake(s, p, pub, add, ok), w, u);
  }

  /** A release: it is for another id. */
  lemma {:induction false} RelStalls(s: RSys, w: u16, u: nat, upd: UpdResult, ok: bool)
    requires RInv(s) && Stalled(s, w, u) && s.down != [] && s.down[0].Rel?
    ensures var p := s.down[0];
      Stalled(s.(c := OnPubrel(s.c, p.id, p.origin, upd, ok), down := s.down[1..]), w, u)
  {
    hide RInv, InSound, DataOk, QueueFrom, CtxOf, LinkOk, BufsOk, WaitingIn, HeldIn, PastIn, ReleasedIn, Precedes;
    StalledFacts(s, w, u);
    var p := Head(s);
    CtxIds(s);
    SoundIs(s);
    assert p.id != w;
    PubrelEffect(s.c, p.id, p.origin, upd, ok);
    PubrelAcks(s.c, p.id, p.origin, upd, ok);
    hide OnPubrel, PktOk;
    StaysStalled(s, s.(c := OnPubrel(s.c, p.id, p.origin, upd, ok), down := s.down[1..]), w, u);
  }

  lemma {:induction false} DeliverStalls(s: RSys, w: u16, u: nat, del: bool)
    requires RInv(s) && Stalled(s, w, u) && REnabled(s, Deliver(del))
    ensures Stalled(RStep(s, Deliver(del)), w, u)
  {
    hide RInv, InSound, DataOk, QueueFrom, CtxOf, WaitingIn, HeldIn, PastIn, ReleasedIn, Accept, LeftOver;
    StalledFacts(s, w, u);
    AcceptEffect(s.c, del);
    StaysStalled(s, RStep(s, Deliver(del)), w, u);
  }

  /** A restart: the store says that the message waits, so it waits again. */
  lemma {:induction false} RestartStalls(s: RSys, w: u16, u: nat, msgs: seq<(nat, Received)>)
    requires RInv(s) && Stalled(s, w, u) && REnabled(s, Restarted(msgs))
    ensures Stalled(RStep(s, Restarted(msgs)), w, u)
  {
    hide RInv, InSound, DataOk, QueueFrom, CtxOf, WaitingIn, HeldIn, PastIn, ReleasedIn, ReloadFrom, Lists, FromStore,
      AllQueued, AcksOk;
    StalledFacts(s, w, u);
    SoundNow(s);
    ReloadEffect(s.c, msgs);
    WaitsAgain(s.c, RStep(s, Restarted(msgs)).c, w);
    StaysStalled(s, RStep(s, Restarted(msgs)), w, u);
  }

  lemma {:induction false} WaitsAgain(c: InConn, d: InConn, w: u16)
    requires InSound(c) && InSound(d) && FromStore(d) && AllQueued(d.q, d.rcvd) && d.rcvd == c.rcvd
    requires w in WaitingIn(c) && w in c.hash && WaitingIn(c)[w] !in PastIn(c)
    ensures w in WaitingIn(d) && WaitingIn(d)[w] == WaitingIn(c)[w]
  {
    hide HashOk, InOrder, DistinctRcv, AllHashed, InCovers, KeysOk, Parse, Framed, WaitingIn;
    var i := WaitingEntry(c, w);
    var k := c.q[i].rcvId;
    assert Holds(c.q[i], c.rcvd[k]);
    var j := EntryOf(d, k);
    assert IsStored(d.q[j], d.rcvd[k]);
    WaitingAt(d, j);
  }

  lemma {:induction false} CutStalls(s: RSys, w: u16, u: nat)
    requires Stalled(s, w, u)
    ensures Stalled(Cut(s), w, u) && Stalled(s.(down := [], read := |s.c.acks|), w, u)
  {
    hide WaitingIn;
  }

  lemma {:induction false} SocketStalls(s: RSys, w: u16, u: nat, sock: bool)
    requires InSound(s.c) && Stalled(s, w, u)
    ensures Stalled(s.(c := s.c.(sock := sock)), w, u)
  {
    hide InSound, WaitingIn, HeldIn, PastIn, ReleasedIn;
    var t := s.(c := s.c.(sock := sock));
    AckViews(s.c, t.c);
    StaysStalled(s, t, w, u);
  }

  lemma {:induction false} ArriveStalls(s: RSys, w: u16, u: nat, add: bool, upd: UpdResult, ok: bool)
    requires RInv(s) && Stalled(s, w, u) && REnabled(s, Arrive(add, upd, ok))
    ensures Stalled(RStep(s, Arrive(add, upd, ok)), w, u)
  {
    hide RInv, Stalled, OnPublish, OnPubrel;
    if s.down[0].Copy? { CopyStalls(s, w, u, add, ok); } else { RelStalls(s, w, u, upd, ok); }
    CutStalls(Arrived(s, add, upd, ok), w, u);
  }

  lemma {:induction false} LinkStalls(s: RSys, w: u16, u: nat, a: RAction)
    requires REnabled(s, a) && (a.Lost? || a.Back?)
    requires RInv(s) && Stalled(s, w, u)
    ensures Stalled(RStep(s, a), w, u)
  {
    hide RInv, Stalled, InSound, DataOk, QueueFrom, CtxOf, PastIn, WaitingIn;
    StalledFacts(s, w, u);
    SocketStalls(s, w, u, a.Back?);
    CutStalls(s.(c := s.c.(sock := a.Back?)), w, u);
  }

  lemma {:induction false} StepStalls(s: RSys, a: RAction, w: u16, u: nat)
    requires RInv(s) && Stalled(s, w, u) && REnabled(s, a)
    ensures Stalled(RStep(s, a), w, u)
  {
    hide RInv, Stalled, RStep, REnabled;
    match a
    case Send(_, _) => SendStalls(s, a, w, u);
    case Resend(_) => SendStalls(s, a, w, u);
    case ReadAck => AckStalls(s, w, u);
    case Arrive(add, upd, ok) => ArriveStalls(s, w, u, add, upd, ok);
    case Deliver(del) => DeliverStalls(s, w, u, del);
    case Lost => LinkStalls(s, w, u, a);
    case Back => LinkStalls(s, w, u, a);
    case Restarted(msgs) => RestartStalls(s, w, u, msgs);
  }

  lemma {:induction false} AckStalls(s: RSys, w: u16, u: nat)
    requires RInv(s) && Stalled(s, w, u) && REnabled(s, ReadAck)
    ensures Stalled(RStep(s, ReadAck), w, u)
  {
    hide RInv, Stalled, InSound, DataOk, QueueFrom, CtxOf, PastIn, WaitingIn, BrokerReads;
    StalledFacts(s, w, u);
    ReadStalls(s, w, u);
  }

  /** Whatever a conforming broker sends, through reconnects and restarts: a waiting message whose PUBREC
      is not on its way is never released and never delivered. */
  lemma {:induction false} StalledForever(run: seq<RAction>, s: RSys, more: seq<RAction>, t: RSys, w: u16, u: nat)
    requires RReaches(RStart(), run, s) && RReaches(s, more, t) && Stalled(s, w, u)
    ensures Stalled(t, w, u) && !Available(t, u)
  {
    hide RInv, RReaches, Stalled, Available;
    RStartOk();
    RRunOk(RStart(), run, s);
    StallsOverRuns(s, more, t, w, u);
    RRunOk(s, more, t);
    NotAvailable(t, w, u);
  }

  lemma {:induction false} StallsOverRuns(s: RSys, run: seq<RAction>, t: RSys, w: u16, u: nat)
    requires RInv(s) && RReaches(s, run, t) && Stalled(s, w, u)
    ensures Stalled(t, w, u)
    decreases |run|
  {
    hide RInv, Stalled, REnabled, RStep;
    if run != [] {
      StepStalls(s, run[0], w, u);
      RStepOk(s, run[0]);
      StallsOverRuns(RStep(s, run[0]), run[1..], t, w, u);
    }
  }

  lemma {:induction false} NotAvailable(t: RSys, w: u16, u: nat)
    requires RInv(t) && Stalled(t, w, u)
    ensures !Available(t, u)
  {
    StalledFacts(t, w, u);
    hide RInv, DataOk, QueueFrom, CtxOf, Available, WaitingIn, InSound;
    if Available(t, u) { AvailableReleased(t, u); }
  }

  // ----- And otherwise it can be released -------------------------------------------------------

  /** The broker has seen the PUBREC, and sends the release again on a new connection. */
  lemma {:induction false} ReleaseArrives(s: RSys, w: u16, u: nat) returns (run: seq<RAction>, t: RSys)
    requires RInv(s) && w in WaitingIn(s.c) && WaitingIn(s.c)[w] == u && s.c.nextRcvId < MAX_RCVID
    requires w in s.inflight && s.inflight[w].released
    ensures RReaches(s, run, t) && Available(t, u)
  {
    hide RInv, InSound, OnPubrel, WaitingIn, HeldIn, PastIn, DoneOf, BufOk;
    WaitFacts(s, w);
    var c := s.c.(sock := true);
    AckViews(s.c, c);
    var s1 := s.(c := c, down := [], read := |s.c.acks|);
    var s2 := s1.(down := [Rel(w, u)]);
    PubrelEffect(c, w, u, Set, true);
    t := Cut(s2.(c := OnPubrel(c, w, u, Set, true), down := []));
    run := [Back, Resend(w), Arrive(true, Set, true)];
    assert RStep(s, run[0]) == s1 && RStep(s1, run[1]) == s2 && RStep(s2, run[2]) == t;
    ThreeSteps(s, s1, s2, run);
    assert u in ReleasedIn(t.c);
  }

  lemma {:induction false} ThreeSteps(s: RSys, s1: RSys, s2: RSys, run: seq<RAction>)
    requires |run| == 3 && REnabled(s, run[0]) && RStep(s, run[0]) == s1
    requires REnabled(s1, run[1]) && RStep(s1, run[1]) == s2 && REnabled(s2, run[2])
    ensures RReaches(s, run, RStep(s2, run[2]))
  {
    hide REnabled, RStep;
    var s3 := RStep(s2, run[2]);
    assert run[2..][1..] == [] && RReaches(s2, run[2..], s3);
    assert run[1..][1..] == run[2..] && RReaches(s1, run[1..], s3);
  }

  lemma {:induction false} WaitFacts(s: RSys, w: u16)
    requires RInv(s) && w in WaitingIn(s.c)
    ensures InSound(s.c) && w in s.c.hash && w in s.inflight && WaitingIn(s.c)[w] == s.inflight[w].u
    ensures Two(s.lvl, s.inflight[w].u) && s.inflight[w].buf != [] && Level(s.inflight[w].buf) == 2
  {
    hide RInv, InSound, InInv, DataOk, QueueFrom, WaitingIn, HeldIn, PastIn, ReleasedIn, DoneOf;
    InvData(s);
    SoundIs(s);
    SoundInv(s.c);
    WaitingKeys(s.c);
    assert WaitOk(CtxOf(s), w) && FlightOk(CtxOf(s), w);
  }

  /** The broker reads acknowledgements until it has seen the PUBREC. */
  lemma {:induction false} ReleaseComes(s: RSys, w: u16, u: nat) returns (run: seq<RAction>, t: RSys)
    requires RInv(s) && w in WaitingIn(s.c) && WaitingIn(s.c)[w] == u && s.c.nextRcvId < MAX_RCVID
    requires w in s.inflight && (s.inflight[w].released || PubrecOnWay(s, w))
    ensures RReaches(s, run, t) && Available(t, u)
    decreases |s.c.acks| - s.read
  {
    hide RInv, Available, WaitingIn, REnabled, RStep;
    if s.inflight[w].released {
      run, t := ReleaseArrives(s, w, u);
    } else {
      var s1 := OneRead(s, w);
      var more;
      more, t := ReleaseComes(s1, w, u);
      run := [ReadAck] + more;
      assert run[1..] == more;
    }
  }

  lemma {:induction false} OneRead(s: RSys, w: u16) returns (s1: RSys)
    requires RInv(s) && w in WaitingIn(s.c) && w in s.inflight && !s.inflight[w].released && PubrecOnWay(s, w)
    ensures REnabled(s, ReadAck) && s1 == RStep(s, ReadAck) && RInv(s1) && s1.c == s.c && s1.read == s.read + 1
    ensures w in s1.inflight && (s1.inflight[w].released || PubrecOnWay(s1, w))
  {
    hide RInv, WaitingIn, Level, BrokerReads, InSound, PubrecOnWay;
    WaitFacts(s, w);
    ReadOnce(s, w);
    s1 := RStep(s, ReadAck);
    RStepOk(s, ReadAck);
  }

  lemma {:induction false} ReadOnce(s: RSys, w: u16)
    requires w in s.inflight && s.inflight[w].buf != [] && Level(s.inflight[w].buf) == 2
    requires !s.inflight[w].released && PubrecOnWay(s, w)
    ensures s.read < |s.c.acks|
    ensures var t := BrokerReads(s.(read := s.read + 1), s.c.acks[s.read]);
      && t.c == s.c && t.read == s.read + 1 && w in t.inflight && (t.inflight[w].released || PubrecOnWay(t, w))
  {
    hide Level;
  }

  /** The exact condition: message u, waiting for its release under id w, can still come to be released
      and delivered if and only if the broker has seen its PUBREC or the PUBREC is on its way. */
  lemma {:induction false} ReleasableIff(run: seq<RAction>, s: RSys, w: u16)
    requires RReaches(RStart(), run, s) && w in WaitingIn(s.c) && s.c.nextRcvId < MAX_RCVID
    ensures w in s.inflight
    ensures (exists more, t :: RReaches(s, more, t) && Available(t, WaitingIn(s.c)[w]))
            <==> s.inflight[w].released || PubrecOnWay(s, w)
  {
    hide RReaches, RInv, InSound, WaitingIn, Available, Level;
    RStartOk();
    RRunOk(RStart(), run, s);
    WaitFacts(s, w);
    var u := WaitingIn(s.c)[w];
    if s.inflight[w].released || PubrecOnWay(s, w) {
      var more, t := ReleaseComes(s, w, u);
    } else {
      forall more, t | RReaches(s, more, t) ensures !Available(t, u) { StalledForever(run, s, more, t, w, u); }
    }
  }

  /** Losing the connection with the PUBREC on it is how a message gets there. */
  lemma {:induction false} LossStalls(s: RSys, w: u16, u: nat)
    requires RInv(s) && w in WaitingIn(s.c) && WaitingIn(s.c)[w] == u && w in s.inflight && !s.inflight[w].released
    ensures Stalled(Cut(s.(c := s.c.(sock := false))), w, u)
  {
    WaitFacts(s, w);
    hide RInv, InSound, WaitingIn, HeldIn, PastIn, ReleasedIn;
    AckViews(s.c, s.c.(sock := false));
  }
}
