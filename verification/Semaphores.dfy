/** The receive semaphore of the threaded build: a flag and a condition variable between the send
    thread, which makes publications available, and any number of receiving threads. */
module Semaphores {
  /** Where a receiving thread stands: outside; blocked in the condition wait; picked by a signal but
      not running yet; past the wait, the flag cleared; holding the mutex; offered a publication. */
  datatype Phase = Idle | Blocked | Signalled | Past | Locked | Offered

  /** What the send thread is in the middle of: nothing; between the signal for a publication and the end
      of its handling, where it counts the publication or has taken it off again; between the reply to an
      accept and the signal after it; between the signal for a decline and the reply to thread i. */
  datatype Sender = Free | Adding | Signalling | Replying(i: nat)

  /** `rtp` is rtpEntries, `flag` is msgAvailable. */
  datatype Sem = Sem(rtp: nat, flag: bool, sender: Sender, threads: seq<Phase>)

  /** Thread j is between its wait and its answer; one whose decline has been signalled is done. */
  predicate Active(s: Sem, j: nat)
    requires j < |s.threads|
  {
    var p := s.threads[j];
    (p.Past? || p.Locked? || p.Offered?) && s.sender != Replying(j)
  }

  predicate AnyThread(s: Sem, p: Phase) {
    exists i :: 0 <= i < |s.threads| && s.threads[i] == p
  }

  predicate SomeActive(s: Sem) {
    exists i :: 0 <= i < |s.threads| && Active(s, i)
  }

  predicate OtherActive(s: Sem, i: nat) {
    exists j :: 0 <= j < |s.threads| && j != i && Active(s, j)
  }

  predicate MutexFree(s: Sem) {
    !AnyThread(s, Locked) && !AnyThread(s, Offered)
  }

  /** mspSignalSemaphore; the condition variable picks thread w if it is blocked. */
  function Signal(s: Sem, w: nat): Sem {
    s.(flag := true,
       threads := if w < |s.threads| && s.threads[w].Blocked? then s.threads[w := Signalled] else s.threads)
  }

  /** The choice the condition variable has: a blocked thread, if there is one. */
  predicate Picks(s: Sem, w: nat) {
    AnyThread(s, Blocked) ==> w < |s.threads| && s.threads[w].Blocked?
  }

  /** The steps, each one atomic under the semaphore's lock or within the send thread. `Return` is a
      signalled thread running, a timeout or a spurious wake-up. `Begin` is the signal for a new or
      newly released publication; in `End` it is counted, or, when the store refused it, was taken off
      again. `Accept` deletes the publication and replies; the test of rtpEntries and the signal follow in
      `AfterAccept`. `Decline` tests and signals; the reply follows in `AfterDecline`. The send thread does
      one thing at a time; the receivers run in between. */
  datatype SemStep =
    | Enter(i: nat)
    | Return(i: nat)
    | Lock(i: nat)
    | LockFails(i: nat)
    | Ask(i: nat)
    | Accept(i: nat)
    | AfterAccept(w: nat)
    | Decline(i: nat, w: nat)
    | AfterDecline
    | Begin(w: nat)
    | End(refused: bool)

  predicate CanStep(s: Sem, e: SemStep) {
    match e
    case Enter(i) => i < |s.threads| && s.threads[i].Idle?
    case Return(i) => i < |s.threads| && (s.threads[i].Blocked? || s.threads[i].Signalled?)
    case Lock(i) => i < |s.threads| && s.threads[i].Past? && MutexFree(s)
    case LockFails(i) => i < |s.threads| && s.threads[i].Past?
    case Ask(i) => s.sender.Free? && i < |s.threads| && s.threads[i].Locked?
    case Accept(i) => s.sender.Free? && i < |s.threads| && s.threads[i].Offered?
    case AfterAccept(w) => s.sender.Signalling? && Picks(s, w)
    case Decline(i, w) => s.sender.Free? && i < |s.threads| && s.threads[i].Offered? && Picks(s, w)
    case AfterDecline => s.sender.Replying? && s.sender.i < |s.threads|
    case Begin(w) => s.sender.Free? && Picks(s, w)
    case End(_) => s.sender.Adding?
  }

  function StepSem(s: Sem, e: SemStep): Sem
    requires CanStep(s, e)
  {
    match e
    case Enter(i) =>
      if s.flag then s.(flag := false, threads := s.threads[i := Past]) else s.(threads := s.threads[i := Blocked])
    case Return(i) => s.(flag := false, threads := s.threads[i := Past])
    case Lock(i) => s.(threads := s.threads[i := Locked])
    case LockFails(i) => s.(threads := s.threads[i := Idle])
    case Ask(i) => s.(threads := s.threads[i := if s.rtp > 0 then Offered else Idle])
    case Accept(i) =>
      s.(rtp := if s.rtp > 0 then s.rtp - 1 else s.rtp, sender := Signalling, threads := s.threads[i := Idle])
    case AfterAccept(w) => SignalIfReady(s, w).(sender := Free)
    case Decline(i, w) => SignalIfReady(s, w).(sender := Replying(i))
    case AfterDecline => s.(sender := Free, threads := s.threads[s.sender.i := Idle])
    case Begin(w) => (if s.rtp == 0 then Signal(s, w) else s).(sender := Adding)
    case End(refused) => s.(sender := Free, rtp := if refused then s.rtp else s.rtp + 1)
  }

  function SignalIfReady(s: Sem, w: nat): Sem {
    if s.rtp > 0 then Signal(s, w) else s
  }

  /** Something is ready to be received, or about to be. */
  predicate Due(s: Sem) {
    s.rtp > 0 || s.sender.Adding?
  }

  /** A publication nobody is dealing with has its flag set, or is about to be signalled, and a set flag has
      woken a waiter if there is one. */
  predicate NoLostWakeup(s: Sem) {
    && (Due(s) && !SomeActive(s) ==> s.flag || s.sender.Signalling?)
    && (s.flag && AnyThread(s, Blocked) ==> AnyThread(s, Signalled))
  }

  /** The thread that is declined waits for the reply. */
  predicate Consistent(s: Sem) {
    s.sender.Replying? ==> s.sender.i < |s.threads| && s.threads[s.sender.i].Offered?
  }

  /** Only thread i changes. */
  lemma {:induction false} OthersSame(s: Sem, t: Sem, i: nat)
    requires i < |s.threads| == |t.threads| && t.threads == s.threads[i := t.threads[i]]
    requires forall j: nat :: j != i ==> (s.sender == Replying(j) <==> t.sender == Replying(j))
    ensures forall p :: AnyThread(s, p) && s.threads[i] != p ==> AnyThread(t, p)
    ensures forall p :: AnyThread(t, p) && t.threads[i] != p ==> AnyThread(s, p)
    ensures SomeActive(t) <==> Active(t, i) || OtherActive(s, i)
    ensures SomeActive(s) <==> Active(s, i) || OtherActive(s, i)
  {
    forall p | AnyThread(s, p) && s.threads[i] != p ensures AnyThread(t, p) {
      var j :| 0 <= j < |s.threads| && s.threads[j] == p;
      assert t.threads[j] == p;
    }
    forall p | AnyThread(t, p) && t.threads[i] != p ensures AnyThread(s, p) {
      var j :| 0 <= j < |t.threads| && t.threads[j] == p;
      assert s.threads[j] == p;
    }
    if OtherActive(s, i) {
      var j :| 0 <= j < |s.threads| && j != i && Active(s, j);
      assert Active(t, j);
    }
    if SomeActive(t) {
      var j :| 0 <= j < |t.threads| && Active(t, j);
      assert j != i ==> Active(s, j);
    }
  }

  /** A signal leaves nothing to be lost, whatever the send thread does next. */
  lemma {:induction false} SignalWakes(s: Sem, w: nat, next: Sender)
    requires Picks(s, w)
    ensures Signal(s, w).flag && NoLostWakeup(Signal(s, w).(sender := next))
  {
    var t := Signal(s, w);
    if AnyThread(s, Blocked) {
      assert t.threads[w] == Signalled;
    }
    assert AnyThread(t, Blocked) ==> AnyThread(t, Signalled);
    SameThreads(t, t.(sender := next));
  }

  lemma {:induction false} SameThreads(s: Sem, t: Sem)
    requires t.threads == s.threads
    ensures !s.sender.Replying? && !t.sender.Replying? ==> (SomeActive(t) <==> SomeActive(s))
    ensures forall p :: AnyThread(t, p) <==> AnyThread(s, p)
  {
    if !s.sender.Replying? && !t.sender.Replying? {
      assert forall i :: 0 <= i < |s.threads| ==> (Active(s, i) <==> Active(t, i));
    }
  }

  /** A thread that cannot lock the mutex takes the wake-up with it, unless nothing is ready, the flag
      has been set again or is about to be, or another receiver is between its wait and its answer. */
  predicate LosesNothing(s: Sem, e: SemStep) {
    e.LockFails? ==> !Due(s) || s.flag || s.sender.Signalling? || OtherActive(s, e.i)
  }

  /** Exactly then a failed lock keeps it ... */
  lemma {:induction false} FailedLockIff(s: Sem, i: nat)
    requires NoLostWakeup(s) && CanStep(s, LockFails(i))
    ensures NoLostWakeup(StepSem(s, LockFails(i))) <==>
            !Due(s) || s.flag || s.sender.Signalling? || OtherActive(s, i)
  {
    OthersSame(s, StepSem(s, LockFails(i)), i);
  }

  /** ... and so the steps that keep it are all the others and the failed locks that lose nothing. */
  lemma {:induction false} StepKeepsWakeupIff(s: Sem, e: SemStep)
    requires Consistent(s) && NoLostWakeup(s) && CanStep(s, e)
    ensures NoLostWakeup(StepSem(s, e)) <==> LosesNothing(s, e)
  {
    hide Signal, AnyThread, SomeActive, OtherActive;
    var t := StepSem(s, e);
    match e
    case Enter(i) => OthersSame(s, t, i);
    case Return(i) => OthersSame(s, t, i);
    case Lock(i) => OthersSame(s, t, i);
    case LockFails(i) => FailedLockIff(s, i);
    case Ask(i) => OthersSame(s, t, i);
    case Accept(i) => OthersSame(s, t, i);
    case AfterAccept(w) => if s.rtp > 0 { SignalWakes(s, w, Free); } else { SameThreads(s, t); }
    case Decline(i, w) => if s.rtp > 0 { SignalWakes(s, w, Replying(i)); } else { SameThreads(s, t); }
    case AfterDecline => OthersSame(s, t, s.sender.i);
    case Begin(w) => if s.rtp == 0 { SignalWakes(s, w, Adding); } else { SameThreads(s, t); }
    case End(_) => SameThreads(s, t);
  }

  lemma {:induction false} StaysConsistent(s: Sem, e: SemStep)
    requires Consistent(s) && CanStep(s, e)
    ensures Consistent(StepSem(s, e))
  {
    hide AnyThread;
  }

  ghost predicate SemReaches(s: Sem, run: seq<SemStep>, t: Sem)
    decreases |run|
  {
    if run == [] then s == t else CanStep(s, run[0]) && SemReaches(StepSem(s, run[0]), run[1..], t)
  }

  // ----- What rtpEntries counts -----------------------------------------------------------------

  predicate InCall(p: Phase) {
    p.Locked? || p.Offered?
  }

  /** One thread at a time holds the mutex, and an offer is of something there is. */
  ghost predicate Exclusive(s: Sem) {
    && (forall i, j :: 0 <= i < j < |s.threads| ==> !(InCall(s.threads[i]) && InCall(s.threads[j])))
    && (forall i :: 0 <= i < |s.threads| && s.threads[i].Offered? ==> s.rtp > 0)
  }

  /** How many publications the steps count, and how many are accepted. */
  function Counted(run: seq<SemStep>): nat {
    if run == [] then 0 else (if run[0] == End(false) then 1 else 0) + Counted(run[1..])
  }

  function AcceptedIn(run: seq<SemStep>): nat {
    if run == [] then 0 else (if run[0].Accept? then 1 else 0) + AcceptedIn(run[1..])
  }

  lemma {:induction false} StaysExclusive(s: Sem, e: SemStep)
    requires Exclusive(s) && Consistent(s) && CanStep(s, e)
    ensures Exclusive(StepSem(s, e))
    ensures StepSem(s, e).rtp + (if e.Accept? then 1 else 0) == s.rtp + if e == End(false) then 1 else 0
  {
    hide AnyThread, Picks, MutexFree;
    if e.Lock? { NobodyIn(s); }
  }

  lemma {:induction false} NobodyIn(s: Sem)
    requires MutexFree(s)
    ensures forall i :: 0 <= i < |s.threads| ==> !InCall(s.threads[i])
  {
    forall i | 0 <= i < |s.threads| ensures !InCall(s.threads[i]) {
      assert s.threads[i] == Locked ==> AnyThread(s, Locked);
      assert s.threads[i] == Offered ==> AnyThread(s, Offered);
    }
  }

  /** The publications that are ready are those counted and not accepted yet, over every run. */
  lemma {:induction false} CountsAgree(threads: nat, run: seq<SemStep>, t: Sem)
    requires SemReaches(AllIdle(threads), run, t)
    ensures t.rtp + AcceptedIn(run) == Counted(run)
  {
    RunCounts(AllIdle(threads), run, t);
  }

  lemma {:induction false} RunCounts(s: Sem, run: seq<SemStep>, t: Sem)
    requires Exclusive(s) && Consistent(s) && SemReaches(s, run, t)
    ensures t.rtp + AcceptedIn(run) == s.rtp + Counted(run)
    decreases |run|
  {
    hide Exclusive, Consistent, StepSem, CanStep;
    if run != [] {
      StaysExclusive(s, run[0]);
      StaysConsistent(s, run[0]);
      RunCounts(StepSem(s, run[0]), run[1..], t);
    }
  }

  // ----- Runs without a loss --------------------------------------------------------------------

  /** Each failed lock of the run loses nothing. */
  ghost predicate RunLosesNothing(s: Sem, run: seq<SemStep>)
    decreases |run|
  {
    run != [] ==> CanStep(s, run[0]) && LosesNothing(s, run[0]) && RunLosesNothing(StepSem(s, run[0]), run[1..])
  }

  lemma {:induction false} KeptOverRuns(s: Sem, run: seq<SemStep>, t: Sem)
    requires Consistent(s) && NoLostWakeup(s) && SemReaches(s, run, t) && RunLosesNothing(s, run)
    ensures NoLostWakeup(t)
    decreases |run|
  {
    hide Consistent, NoLostWakeup, StepSem, CanStep, LosesNothing;
    if run != [] {
      StepKeepsWakeupIff(s, run[0]);
      StaysConsistent(s, run[0]);
      KeptOverRuns(StepSem(s, run[0]), run[1..], t);
    }
  }

  function AllIdle(threads: nat): Sem {
    Sem(0, false, Free, seq(threads, _ => Idle))
  }

  /** In every interleaving, with any number of receivers, timeouts, spurious wake-ups and failed locks
      that lose nothing: if a publication is ready and no receiver is between its wait and its answer,
      then the flag is set, a waiter has been woken, or none is blocked and the next one to wait will not
      block; or the send thread's next step, on its own, makes it so. */
  lemma {:induction false} WakeupNeverLost(threads: nat, run: seq<SemStep>, t: Sem)
    requires SemReaches(AllIdle(threads), run, t) && RunLosesNothing(AllIdle(threads), run)
    requires t.rtp > 0 && !SomeActive(t)
    ensures Woken(t) || t.sender.Signalling?
    ensures forall w :: CanStep(t, AfterAccept(w)) ==> Woken(StepSem(t, AfterAccept(w)))
  {
    var s := AllIdle(threads);
    assert NoLostWakeup(s);
    KeptOverRuns(s, run, t);
    forall w | CanStep(t, AfterAccept(w)) ensures Woken(StepSem(t, AfterAccept(w))) { SignalWakes(t, w, Free); }
  }

  /** The flag is set, and has woken a waiter if there is one; a thread that comes does not block. */
  ghost predicate Woken(s: Sem) {
    && s.flag && (AnyThread(s, Blocked) ==> AnyThread(s, Signalled))
    && forall i: nat :: CanStep(s, Enter(i)) ==> StepSem(s, Enter(i)).threads[i].Past?
  }

  /** The first failed lock that loses something leaves a publication that nobody deals with and no flag. */
  lemma {:induction false} FailedLockLoses(threads: nat, run: seq<SemStep>, t: Sem, i: nat)
    requires SemReaches(AllIdle(threads), run, t) && RunLosesNothing(AllIdle(threads), run)
    requires CanStep(t, LockFails(i)) && !LosesNothing(t, LockFails(i))
    ensures var u := StepSem(t, LockFails(i)); Due(u) && !SomeActive(u) && !u.flag && !u.sender.Signalling?
  {
    var s := AllIdle(threads);
    assert NoLostWakeup(s);
    KeptOverRuns(s, run, t);
    OthersSame(t, StepSem(t, LockFails(i)), i);
  }

  /** Such a run, with one receiver. */
  lemma {:induction false} LosingRun()
    ensures exists run, t :: SemReaches(AllIdle(1), run, t) && t.rtp > 0 && t.sender.Free? && !SomeActive(t) && !t.flag
  {
    var s0, s1 := Sem(0, false, Free, [Idle]), Sem(0, true, Adding, [Idle]);
    var s2, s3, s4 := Sem(1, true, Free, [Idle]), Sem(1, false, Free, [Past]), Sem(1, false, Free, [Idle]);
    assert AllIdle(1) == s0;
    OneStep(s3, LockFails(0), [], s4);
    OneStep(s2, Enter(0), [LockFails(0)], s4);
    OneStep(s1, End(false), [Enter(0), LockFails(0)], s4);
    OneStep(s0, Begin(0), [End(false), Enter(0), LockFails(0)], s4);
    assert !SomeActive(s4);
  }

  lemma {:induction false} OneStep(s: Sem, e: SemStep, rest: seq<SemStep>, t: Sem)
    requires CanStep(s, e) && SemReaches(StepSem(s, e), rest, t)
    ensures SemReaches(s, [e] + rest, t)
  {
    assert ([e] + rest)[1..] == rest;
  }
}
