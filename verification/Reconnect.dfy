/** The reconnect timer: when a lost connection is tried again, how often, and when the library gives
    up. */
module Reconnects {
  datatype ConnState = Disconnected | Connecting | Connected | Broken

  /** How an attempt to connect ends: no TCP connection, CONNECT not written, CONNECT written. */
  datatype Outcome = TcpFailed | WriteFailed | ConnectSent

  /** connState, connRetries, timeForNextConnect, the two parameters, and whether there is a socket. */
  datatype Rec = Rec(state: ConnState, retries: int, next: int, retryCount: int, interval: int, sock: bool)

  /** mspMQIsdpReconnect. */
  function Attempt(r: Rec, o: Outcome): Rec {
    match o
    case TcpFailed => r.(sock := false)
    case WriteFailed => r.(state := Disconnected, sock := false)
    case ConnectSent => r.(state := Connecting, sock := true)
  }

  /** The connect request; under clean start the library is not to reconnect on its own. */
  function First(now: int, clean: bool, retryCount: int, interval: int, o: Outcome): Rec {
    Attempt(Rec(Connecting, if clean then -1 else 0, now + interval, retryCount, interval, false), o)
  }

  predicate Due(r: Rec, now: int) {
    !r.state.Connected? && (r.next == 0 || now >= r.next)
  }

  predicate MayRetry(r: Rec) {
    r.retries + 1 <= r.retryCount && r.retries >= 0
  }

  /** The reconnect part of the main loop. */
  function Pass(r: Rec, now: int, o: Outcome): Rec {
    if !Due(r, now) then r
    else
      var r1 := if MayRetry(r) then Attempt(r.(retries := r.retries + 1), o) else r.(state := Broken);
      r1.(next := now + r.interval)
  }

  function Accepted(r: Rec): Rec {
    r.(state := Connected, next := 0, retries := if r.retries > 0 then 0 else r.retries)
  }

  function Refused(r: Rec): Rec {
    r.(state := Disconnected, sock := false, retries := r.retryCount + 1)
  }

  function Lost(r: Rec): Rec {
    r.(state := Disconnected, sock := false)
  }

  /** The fields of the connection handle that the timer uses. */
  class Timer {
    var connState: ConnState
    var connRetries: int
    var timeForNextConnect: int
    var retryCount: int
    var retryInterval: int
    var sock: bool

    function Abs(): Rec
      reads this
    {
      Rec(connState, connRetries, timeForNextConnect, retryCount, retryInterval, sock)
    }

    /** Build and send the CONNECT of a new connection. */
    constructor (now: int, clean: bool, retryCount: int, retryInterval: int, o: Outcome)
      ensures Abs() == First(now, clean, retryCount, retryInterval, o)
    {
      connRetries := if clean then -1 else 0;
      this.retryCount, this.retryInterval := retryCount, retryInterval;
      timeForNextConnect, connState, sock := now + retryInterval, Connecting, false;
      new;
      TryConnect(o);
    }

    /** mspMQIsdpReconnect. */
    method TryConnect(o: Outcome)
      modifies this
      ensures Abs() == Attempt(old(Abs()), o)
    {
      sock := false;
      if o != TcpFailed {
        connState, sock := Connecting, true;
        if o == WriteFailed {
          connState, sock := Disconnected, false;
        }
      }
    }

    /** The reconnect part of mspHandleClientConnection. */
    method Poll(now: int, o: Outcome)
      modifies this
      ensures Abs() == Pass(old(Abs()), now, o)
    {
      if connState != Connected && (timeForNextConnect == 0 || now >= timeForNextConnect) {
        if connRetries + 1 <= retryCount && connRetries >= 0 {
          connRetries := connRetries + 1;
          TryConnect(o);
        } else {
          connState := Broken;
        }
        timeForNextConnect := now + retryInterval;
      }
    }

    /** The CONNACK case of mspReceiveScadaMessage. */
    method ReceiveConnack(accepted: bool)
      modifies this
      ensures Abs() == if accepted then Accepted(old(Abs())) else Refused(old(Abs()))
    {
      if accepted {
        connState, timeForNextConnect := Connected, 0;
        if connRetries > 0 {
          connRetries := 0;
        }
      } else {
        connState, sock, connRetries := Disconnected, false, retryCount + 1;
      }
    }
  }

  // ----- Runs -----------------------------------------------------------------------------------

  datatype Event = PassAt(now: int, o: Outcome) | Accept | Refuse | Lose

  /** `last` is how the last attempt to connect ended. `since` counts the reconnects since the last accepted CONNACK,
    `total` all of them; `sent` says that
      the last attempt to connect sent its CONNECT and the connection has not been lost since. Time is
      counted from `base`: the first connect, later the first pass after an accepted connection was lost;
      `first` says which. */
  datatype Hist = Hist(
    r: Rec, now: int, since: nat, total: nat, base: int, first: bool, refused: bool, sent: bool,
    last: Outcome)

  /** Time does not go back, and CONNACKs come over a socket. */
  predicate Can(h: Hist, e: Event) {
    match e
    case PassAt(now, _) => now >= h.now
    case Accept => h.r.sock
    case Refuse => h.r.sock
    case Lose => true
  }

  function Step(h: Hist, e: Event): Hist {
    match e
    case PassAt(now, o) =>
      var again := Due(h.r, now) && MayRetry(h.r);
      h.(r := Pass(h.r, now, o), now := now,
         since := if again then h.since + 1 else h.since, total := if again then h.total + 1 else h.total,
         sent := if again then o == ConnectSent else h.sent, last := if again then o else h.last,
         base := if Due(h.r, now) && h.r.next == 0 then now else h.base)
    case Accept => h.(r := Accepted(h.r), since := 0, first := false)
    case Refuse => h.(r := Refused(h.r), refused := true, sent := false)
    case Lose => h.(r := Lost(h.r), sent := false)
  }

  function Begin(now: int, clean: bool, retryCount: int, interval: int, o: Outcome): Hist {
    Hist(First(now, clean, retryCount, interval, o), now, 0, 0, now, true, false, o == ConnectSent, o)
  }

  predicate Reaches(h: Hist, run: seq<Event>, g: Hist)
    decreases |run|
  {
    if run == [] then h == g else Can(h, run[0]) && Reaches(Step(h, run[0]), run[1..], g)
  }

  /** There is a socket exactly while an attempt that sent its CONNECT has not been lost or refused; the
      library is connected only over one, and connecting only over one or after an attempt without TCP. */
  lemma {:induction false} SocketIff(now: int, clean: bool, retryCount: int, interval: int, o: Outcome,
                                     run: seq<Event>, g: Hist)
    requires Reaches(Begin(now, clean, retryCount, interval, o), run, g)
    ensures (g.r.sock <==> g.sent) && (g.r.state.Connected? ==> g.r.sock)
    ensures g.r.state.Connecting? ==> g.r.sock || g.last == TcpFailed
  {
    SocketStays(Begin(now, clean, retryCount, interval, o), run, g);
  }

  lemma {:induction false} SocketStays(h: Hist, run: seq<Event>, g: Hist)
    requires (h.r.sock <==> h.sent) && (h.r.state.Connected? ==> h.r.sock) && Reaches(h, run, g)
    requires h.r.state.Connecting? ==> h.r.sock || h.last == TcpFailed
    ensures (g.r.sock <==> g.sent) && (g.r.state.Connected? ==> g.r.sock)
    ensures g.r.state.Connecting? ==> g.r.sock || g.last == TcpFailed
    decreases |run|
  {
    if run != [] { SocketStays(Step(h, run[0]), run[1..], g); }
  }

  predicate Bounded(h: Hist) {
    h.since <= (if h.r.retryCount > 0 then h.r.retryCount else 0) && (h.r.retries >= 0 ==> h.since <= h.r.retries)
    && (h.r.retries < 0 ==> h.since == 0)
  }

  lemma {:induction false} StaysBounded(h: Hist, run: seq<Event>, g: Hist)
    requires Bounded(h) && Reaches(h, run, g)
    ensures Bounded(g) && g.r.retryCount == h.r.retryCount
    decreases |run|
  {
    if run != [] { StaysBounded(Step(h, run[0]), run[1..], g); }
  }

  /** Between two accepted CONNACKs, and before the first, the library reconnects at most retryCount
      times, whatever is lost or refused and whenever the main loop runs. */
  lemma {:induction false} ReconnectBound(now: int, clean: bool, retryCount: int, interval: int, o: Outcome,
                                          run: seq<Event>, g: Hist)
    requires Reaches(Begin(now, clean, retryCount, interval, o), run, g)
    ensures g.since <= if retryCount > 0 then retryCount else 0
  {
    StaysBounded(Begin(now, clean, retryCount, interval, o), run, g);
  }

  /** Under clean start: no retry is pending, or a refusal closed the socket for good. */
  predicate NoRetry(h: Hist) {
    h.total == 0 && (h.r.retries < 0 || (h.r.retries > h.r.retryCount && !h.r.sock))
  }

  lemma {:induction false} NeverRetries(h: Hist, run: seq<Event>, g: Hist)
    requires NoRetry(h) && Reaches(h, run, g)
    ensures NoRetry(g)
    decreases |run|
  {
    if run != [] { NeverRetries(Step(h, run[0]), run[1..], g); }
  }

  /** With clean start the library never reconnects, whatever happens. */
  lemma {:induction false} CleanStartNeverReconnects(now: int, retryCount: int, interval: int, o: Outcome,
                                                     run: seq<Event>, g: Hist)
    requires Reaches(Begin(now, true, retryCount, interval, o), run, g)
    ensures g.total == 0
  {
    NeverRetries(Begin(now, true, retryCount, interval, o), run, g);
  }

  /** Not connecting, and not to try again. */
  predicate Stopped(r: Rec) {
    !r.sock && !r.state.Connected? && !r.state.Connecting? && r.retries == r.retryCount + 1
  }

  lemma {:induction false} StaysStopped(h: Hist, run: seq<Event>, g: Hist)
    requires Stopped(h.r) && Reaches(h, run, g)
    ensures Stopped(g.r) && g.total == h.total && g.since == h.since
    ensures forall i :: 0 <= i < |run| ==> !run[i].Accept? && !run[i].Refuse?
    decreases |run|
  {
    if run != [] {
      StaysStopped(Step(h, run[0]), run[1..], g);
      assert forall i :: 1 <= i < |run| ==> run[i] == run[1..][i - 1];
    }
  }

  /** A refusal ends all retrying, with clean start or without: whatever follows, no reconnect is made, no
      CONNACK can come any more, and every pass that finds its time come declares the connection broken. */
  lemma {:induction false} RefusalStops(h: Hist, run: seq<Event>, g: Hist)
    requires h.r.sock && Reaches(Step(h, Refuse), run, g)
    ensures g.total == h.total && !g.r.sock && !g.r.state.Connected? && !g.r.state.Connecting?
    ensures forall i :: 0 <= i < |run| ==> !run[i].Accept? && !run[i].Refuse?
    ensures forall now, o :: now >= g.now && (g.r.next == 0 || now >= g.r.next) ==>
              Can(g, PassAt(now, o)) && Step(g, PassAt(now, o)).r.state.Broken?
  {
    StaysStopped(Step(h, Refuse), run, g);
  }

  /** n intervals. */
  function Span(n: int, interval: int): int {
    n * interval
  }

  /** How far the timer has got since the base. */
  predicate OnTime(h: Hist) {
    && h.r.interval >= 0 && h.r.retryCount >= 0 && h.r.retries >= 0 && 0 < h.base <= h.now
    && (if h.first then h.r.next > 0 && h.r.next >= h.base + Span(h.r.retries + 1, h.r.interval)
        else
          (h.r.next == 0 && h.r.retries == 0 && !h.r.state.Broken?)
          || (h.r.next > 0 && h.r.next >= h.base + Span(h.r.retries, h.r.interval)))
    && (h.r.state.Broken? ==> h.now >= h.base + Span(h.r.retryCount + if h.first then 1 else 0, h.r.interval))
  }

  lemma {:induction false} More(a: int, b: int, interval: int)
    requires a <= b && interval >= 0
    ensures Span(a, interval) <= Span(b, interval) && Span(a + 1, interval) == Span(a, interval) + interval
    ensures Span(0, interval) == 0
  {
  }

  lemma {:induction false} OnTimeStep(h: Hist, e: Event)
    requires OnTime(h) && Can(h, e) && !e.Refuse?
    ensures OnTime(Step(h, e))
  {
    if e.PassAt? { OnTimePass(h, e.now, e.o); }
  }

  lemma {:induction false} OnTimePass(h: Hist, now: int, o: Outcome)
    requires OnTime(h) && now >= h.now
    ensures OnTime(Step(h, PassAt(now, o)))
  {
    hide Span, Attempt;
    AttemptKeeps(h.r.(retries := h.r.retries + 1), o);
    More(h.r.retries, h.r.retries + 1, h.r.interval);
    More(h.r.retries + 1, h.r.retries + 2, h.r.interval);
    More(0, 1, h.r.interval);
    if h.r.retryCount <= h.r.retries {
      More(h.r.retryCount, h.r.retries, h.r.interval);
      More(h.r.retryCount + 1, h.r.retries + 1, h.r.interval);
    }
  }

  lemma {:induction false} AttemptKeeps(r: Rec, o: Outcome)
    ensures var a := Attempt(r, o);
      a == r.(state := a.state, sock := a.sock) && (a.state.Broken? ==> r.state.Broken?)
  {
  }

  lemma {:induction false} OnTimeRun(h: Hist, run: seq<Event>, g: Hist)
    requires OnTime(h) && Reaches(h, run, g) && forall i :: 0 <= i < |run| ==> !run[i].Refuse?
    ensures OnTime(g)
    decreases |run|
  {
    hide OnTime, Step;
    if run != [] {
      OnTimeStep(h, run[0]);
      OnTimeRun(Step(h, run[0]), run[1..], g);
    }
  }

  lemma {:induction false} FirstStays(h: Hist, run: seq<Event>, g: Hist)
    requires h.first && h.r.next != 0 && OnTime(h) && Reaches(h, run, g)
    requires forall i :: 0 <= i < |run| ==> !run[i].Refuse? && !run[i].Accept?
    ensures g.first && g.base == h.base && g.r.retryCount == h.r.retryCount && g.r.interval == h.r.interval
    decreases |run|
  {
    if run != [] {
      OnTimeStep(h, run[0]);
      FirstStays(Step(h, run[0]), run[1..], g);
    }
  }

  /** Without clean start, refusal or an accepted CONNACK the connection is not declared broken before
      (retryCount + 1) * retryInterval has passed since the first connect. */
  lemma {:induction false} BrokenNotBefore(now: int, retryCount: int, interval: int, o: Outcome, run: seq<Event>,
                                           g: Hist)
    requires now > 0 && retryCount >= 0 && interval >= 0
    requires Reaches(Begin(now, false, retryCount, interval, o), run, g)
    requires forall i :: 0 <= i < |run| ==> !run[i].Refuse? && !run[i].Accept?
    ensures g.r.state.Broken? ==> g.now >= now + (retryCount + 1) * interval
  {
    var h := Begin(now, false, retryCount, interval, o);
    OnTimeRun(h, run, g);
    FirstStays(h, run, g);
  }

  /** After an accepted connection it is one interval less, counted from the first pass that finds the
      connection gone. */
  lemma {:induction false} BrokenAfterAccept(now: int, retryCount: int, interval: int, o: Outcome, run: seq<Event>,
                                             g: Hist)
    requires now > 0 && retryCount >= 0 && interval >= 0
    requires Reaches(Begin(now, false, retryCount, interval, o), run, g)
    requires forall i :: 0 <= i < |run| ==> !run[i].Refuse?
    ensures g.r.state.Broken? ==> g.now >= g.base + (g.r.retryCount + if g.first then 1 else 0) * g.r.interval
  {
    OnTimeRun(Begin(now, false, retryCount, interval, o), run, g);
  }

  // ----- The bounds are exact -------------------------------------------------------------------

  /** n passes, one interval apart, that fail to connect. */
  function Passes(t: int, interval: int, n: nat): seq<Event>
    decreases n
  {
    if n == 0 then [] else [PassAt(t, TcpFailed)] + Passes(t + interval, interval, n - 1)
  }

  /** Failing passes use up the retries one by one, and the next one gives up. */
  lemma {:induction false} PassesBreak(h: Hist, t: int, n: nat) returns (g: Hist)
    requires h.r.interval >= 0 && h.now <= t && !h.r.state.Connected? && !h.r.state.Broken? && h.r.next <= t
    requires 0 <= h.r.retries && h.r.retries + n == h.r.retryCount && t > 0
    ensures Reaches(h, Passes(t, h.r.interval, n + 1), g) && g.r.state.Broken? && g.now == t + n * h.r.interval
    decreases n
  {
    var e := PassAt(t, TcpFailed);
    var run := Passes(t, h.r.interval, n + 1);
    assert run[0] == e && run[1..] == Passes(t + h.r.interval, h.r.interval, n);
    if n == 0 {
      g := Step(h, e);
      assert Reaches(g, run[1..], g);
    } else {
      g := PassesBreak(Step(h, e), t + h.r.interval, n - 1);
      More(n - 1, n, h.r.interval);
    }
  }

  /** With no broker the connection is broken after exactly (retryCount + 1) * retryInterval, if the main
      loop runs then. */
  lemma {:induction false} BreaksOnTime(now: int, retryCount: nat, interval: nat) returns (g: Hist)
    requires now > 0
    ensures var h := Begin(now, false, retryCount, interval, TcpFailed);
      Reaches(h, Passes(now + interval, interval, retryCount + 1), g)
    ensures g.r.state.Broken? && g.now == now + (retryCount + 1) * interval
  {
    g := PassesBreak(Begin(now, false, retryCount, interval, TcpFailed), now + interval, retryCount);
    More(retryCount, retryCount + 1, interval);
  }

  /** A connection accepted and lost at once is declared broken an interval earlier, so the bound from the
      first connect does not hold for runs with an accepted CONNACK. */
  lemma {:induction false} AcceptedBreaksEarly(now: int, retryCount: nat, interval: nat) returns (g: Hist)
    requires now > 0 && interval > 0
    ensures var h := Begin(now, false, retryCount, interval, ConnectSent);
      Reaches(h, [Accept, Lose] + Passes(now, interval, retryCount + 1), g)
    ensures g.r.state.Broken? && g.now == now + retryCount * interval < now + (retryCount + 1) * interval
  {
    var h := Begin(now, false, retryCount, interval, ConnectSent);
    var h1 := Step(h, Accept);
    var h2 := Step(h1, Lose);
    var rest := Passes(now, interval, retryCount + 1);
    g := PassesBreak(h2, now, retryCount);
    var run := [Accept, Lose] + rest;
    assert run[1..] == [Lose] + rest && run[1..][1..] == rest;
    assert Reaches(h1, run[1..], g);
    More(retryCount, retryCount + 1, interval);
  }

  /** A run of neither refusals nor accepted connections. */
  predicate Plain(run: seq<Event>) {
    forall i :: 0 <= i < |run| ==> !run[i].Refuse? && !run[i].Accept?
  }

  /** An accepted connection was lost and no pass has run since. */
  predicate JustLost(h: Hist) {
    OnTime(h) && !h.first && h.r.next == 0 && h.r.retries == 0 && !h.r.state.Connected?
  }

  /** That is where losing a connection that was just accepted leads. */
  lemma {:induction false} AcceptThenLose(h: Hist)
    requires OnTime(h) && h.r.sock
    ensures JustLost(Step(Step(h, Accept), Lose))
  {
    OnTimeStep(h, Accept);
    OnTimeStep(Step(h, Accept), Lose);
  }

  /** Every continuation whose first pass is at t, without refusal or accepted connection, meets the bound
      counted from `start`. */
  ghost predicate MeetsBound(h: Hist, t: int, start: int) {
    forall o, run, g :: Plain(run) && Reaches(h, [PassAt(t, o)] + run, g) && g.r.state.Broken? ==>
      g.now >= start + (h.r.retryCount + 1) * h.r.interval
  }

  lemma {:induction false} BaseStays(h: Hist, run: seq<Event>, g: Hist)
    requires OnTime(h) && h.r.next != 0 && Plain(run) && Reaches(h, run, g)
    ensures OnTime(g) && g.base == h.base && g.first == h.first
    ensures g.r.retryCount == h.r.retryCount && g.r.interval == h.r.interval
    decreases |run|
  {
    hide OnTime;
    if run != [] {
      NextStays(h, run[0]);
      BaseStays(Step(h, run[0]), run[1..], g);
    }
  }

  lemma {:induction false} NextStays(h: Hist, e: Event)
    requires OnTime(h) && h.r.next != 0 && Can(h, e) && !e.Refuse? && !e.Accept?
    ensures OnTime(Step(h, e)) && Step(h, e).r.next != 0
  {
    OnTimeStep(h, e);
  }

  /** Once an accepted connection is lost, the bound from an earlier start still holds exactly if the first
      pass that finds the loss comes at least one interval after that start. */
  lemma {:induction false} BoundAfterAcceptIff(h: Hist, t: int, start: int)
    requires JustLost(h) && h.now <= t
    ensures MeetsBound(h, t, start) <==> t >= start + h.r.interval
  {
    var n, i := h.r.retryCount, h.r.interval;
    More(n, n + 1, i);
    if t >= start + i {
      forall o, run, g | Plain(run) && Reaches(h, [PassAt(t, o)] + run, g) && g.r.state.Broken?
        ensures g.now >= start + (n + 1) * i
      {
        var e := PassAt(t, o);
        assert ([e] + run)[1..] == run;
        OnTimeStep(h, e);
        BaseStays(Step(h, e), run, g);
      }
    } else {
      var g := PassesBreak(h, t, n);
      var run := Passes(t + i, i, n);
      assert Passes(t, i, n + 1) == [PassAt(t, TcpFailed)] + run;
      PassesPlain(t + i, i, n);
      assert !MeetsBound(h, t, start);
    }
  }

  /** So for every connection that is accepted on time and then lost. */
  lemma {:induction false} AcceptedThenLostIff(h: Hist, t: int, start: int)
    requires OnTime(h) && h.r.sock && h.now <= t
    ensures MeetsBound(Step(Step(h, Accept), Lose), t, start) <==> t >= start + h.r.interval
  {
    hide MeetsBound;
    AcceptThenLose(h);
    BoundAfterAcceptIff(Step(Step(h, Accept), Lose), t, start);
  }

  lemma {:induction false} PassesPlain(t: int, interval: int, n: nat)
    ensures Plain(Passes(t, interval, n))
    decreases n
  {
    if n > 0 { PassesPlain(t + interval, interval, n - 1); }
  }
}
