/** Sender conservation: with a store attached, ids that fit a signed short, and a broker that
    follows the flow over a per-connection FIFO link, no accepted message is lost and none is
    delivered twice. Every state here is a state of `AtMostOnce.Sys` plus the link back. */
module Conservation {
  import opened Bytes
  import opened SentStores
  import opened Outbound
  import opened QueueFacts
  import opened Wrappers
  import opened WireIds
  import opened AtMostOnce
  import opened Recovery

  /** PUBREC, PUBCOMP, and the acknowledgements of QoS 1 messages (PUBACK, SUBACK, UNSUBACK). */
  datatype ReplyKind = Rec | Comp | Done
  datatype Reply = Reply(kind: ReplyKind, id: u16, origin: nat)

  /** `two[u]` says whether request u was a QoS 2 PUBLISH; `down` is the link from the broker;
      `acked` the QoS 1 messages the broker received; `accepted` the requests for which the API
      reported no error. */
  datatype World = World(s: Sys, two: seq<bool>, down: seq<Reply>, acked: set<nat>, accepted: set<nat>)

  /** The id of a reply as the client reads it from its bytes: type, the length 2, the id. */
  function ReplyId(r: Reply): (id: u16)
    ensures id == r.id
  {
    var first: byte := match r.kind case Rec => 0x50 case Comp => 0x70 case Done => 0x40;
    IdReadBack(first, r.id, 0);
    IdRead([first, 2] + Big16(r.id), 0).value
  }

  /** Replies come off the front of the link, and new ids fit a signed short. */
  predicate Conforms(w: World, a: Action) {
    && Enabled(w.s, a)
    && w.s.c.attached
    && match a
       case Publish(_, put, _) => w.s.c.nextMsgId <= 32767 && !put.WrittenOldKept?
       case Pubrec(id, origin, _, _) =>
         w.down != [] && w.down[0].kind == Rec && w.down[0].origin == origin && id == ReplyId(w.down[0])
       case Ack(id, _) => w.down != [] && w.down[0].kind != Rec && id == ReplyId(w.down[0])
       case _ => true
  }

  /** What the broker answers, with the id in the bytes of the message. */
  function Answer(p: Packet): seq<Reply> {
    match WireId(p.data)
    case None => []
    case Some(id) =>
      if IsRel(p.data) then [Reply(Comp, id, p.origin)]
      else if p.data.head.qos == 2 then [Reply(Rec, id, p.origin)]
      else if p.data.head.qos == 1 then [Reply(Done, id, p.origin)]
      else []
  }

  /** A closed socket loses the replies in flight as well. */
  function Cut(w: World): World {
    if w.s.c.sock then w else w.(down := [])
  }

  function Step(w: World, a: Action): World
    requires Conforms(w, a)
  {
    var s1 := Apply(w.s, a);
    match a
    case Publish(data, put, writeOk) =>
      var rc := Request(w.s.c, data, |w.s.ids|, put, writeOk).1;
      var took := 1 <= data.head.qos <= 2 && (rc.Ok? || rc.NotSent?);
      Cut(w.(s := s1, two := w.two + [data.head.qos == 2],
             accepted := if took then w.accepted + {|w.s.ids|} else w.accepted))
    case Pubrec(_, _, _, _) => Cut(w.(s := s1, down := w.down[1..]))
    case Ack(_, _) => Cut(w.(s := s1, down := w.down[1..]))
    case Reconnected => w.(s := s1, down := [])
    case BrokerReads =>
      var p := w.s.c.wire[w.s.read];
      w.(s := s1, down := w.down + Answer(p),
         acked := if !IsRel(p.data) && p.data.head.qos == 1 then w.acked + {p.origin} else w.acked)
    case _ => Cut(w.(s := s1))
  }

  function Start(): World {
    World(Init(true), [], [], {}, {})
  }

  ghost predicate Reachable(w: World, run: seq<Action>, v: World)
    decreases |run|
  {
    if run == [] then w == v
    else Conforms(w, run[0]) && Reachable(Step(w, run[0]), run[1..], v)
  }

  // ----- The invariant --------------------------------------------------------------------------

  /** What the invariant says about a queue entry or a packet depends on this much of the world. */
  datatype Ctx = Ctx(
    ids: seq<u16>, two: seq<bool>, next: u16, view: map<nat, Stored>,
    pending: map<u16, nat>, forwarded: seq<nat>, acked: set<nat>)

  /** u is the newest request with its id, and ids from now on are larger. */
  predicate Current(x: Ctx, id: u16, u: nat) {
    && u < |x.ids| == |x.two| && x.ids[u] == id && id < x.next && id <= 32767
    && forall v :: u < v < |x.ids| ==> x.ids[v] != id
  }

  predicate InView(x: Ctx, id: u16, u: nat) {
    AddKey(id) in x.view && x.view[AddKey(id)].origin == u
  }

  predicate StoredPub(x: Ctx, id: u16, u: nat) {
    InView(x, id, u) && !IsRel(x.view[AddKey(id)].data)
  }

  /** The broker has message u: waiting for its release, or passed on. */
  predicate Held(x: Ctx, id: u16, u: nat) {
    u in x.forwarded || (id in x.pending && x.pending[id] == u)
  }

  predicate ViewOk(x: Ctx, k: nat)
    requires k in x.view
  {
    var v := x.view[k];
    && k <= 32767 && Current(x, k, v.origin) && IsStored(v.data) && Carries(v.data, k)
    && (if IsRel(v.data) then x.two[v.origin] && Held(x, k, v.origin)
        else x.two[v.origin] == (v.data.head.qos == 2) && v.origin !in x.forwarded)
  }

  predicate PendingOk(x: Ctx, id: u16)
    requires id in x.pending
  {
    var u := x.pending[id];
    Current(x, id, u) && x.two[u] && InView(x, id, u) && u !in x.forwarded
  }

  predicate EntryOk(x: Ctx, e: Entry) {
    && InView(x, e.id, e.origin) && IsStored(e.data) && Carries(e.data, e.id)
    && var v := x.view[AddKey(e.id)];
      IsRel(e.data) == IsRel(v.data) && (IsPub2(PacketOf(e)) == (!IsRel(v.data) && v.data.head.qos == 2))
  }

  predicate FlightOk(x: Ctx, p: Packet) {
    && Current(x, p.id, p.origin) && Carries(p.data, p.id)
    && (IsRel(p.data) ==> x.two[p.origin] && !StoredPub(x, p.id, p.origin) && Held(x, p.id, p.origin))
    && (IsPub2(p) ==> x.two[p.origin] && InView(x, p.id, p.origin) && p.origin !in x.forwarded)
    && (!IsRel(p.data) && p.data.head.qos == 1 ==> !x.two[p.origin])
  }

  predicate ReplyOk(x: Ctx, r: Reply) {
    && Current(x, r.id, r.origin)
    && match r.kind
       case Rec => x.two[r.origin] && Held(x, r.id, r.origin)
       case Comp => x.two[r.origin] && r.origin in x.forwarded && !StoredPub(x, r.id, r.origin)
       case Done => !x.two[r.origin] && r.origin in x.acked
  }

  /** Message u is still in the store, or the broker has it for good. */
  predicate Safe(x: Ctx, u: nat) {
    && u < |x.ids| == |x.two|
    && (InView(x, x.ids[u], u) || (if x.two[u] then u in x.forwarded else u in x.acked))
  }

  /** In flight, no copy of a message follows its release. */
  predicate ReleaseLast(flight: seq<Packet>) {
    forall i, j :: 0 <= i < j < |flight| && IsRel(flight[i].data) && IsPub2(flight[j]) ==>
      flight[i].origin != flight[j].origin
  }

  predicate CtxOk(x: Ctx) {
    && |x.two| == |x.ids|
    && (forall k :: k in x.view ==> ViewOk(x, k))
    && (forall id :: id in x.pending ==> PendingOk(x, id))
    && NoDuplicates(x.forwarded)
    && (forall u :: u in x.forwarded ==> u < |x.ids| && x.two[u])
  }

  predicate QueueOk(x: Ctx, q: seq<Entry>) {
    DistinctIds(q) && forall i :: 0 <= i < |q| ==> EntryOk(x, q[i])
  }

  predicate UpOk(x: Ctx, flight: seq<Packet>) {
    ReleaseLast(flight) && forall i :: 0 <= i < |flight| ==> FlightOk(x, flight[i])
  }

  predicate DownOk(x: Ctx, down: seq<Reply>) {
    forall i :: 0 <= i < |down| ==> ReplyOk(x, down[i])
  }

  predicate AcceptedOk(x: Ctx, accepted: set<nat>) {
    forall u :: u in accepted ==> Safe(x, u)
  }

  function CtxOf(w: World): Ctx {
    Ctx(w.s.ids, w.two, w.s.c.nextMsgId, w.s.c.store.View(), w.s.pending, w.s.forwarded, w.acked)
  }

  predicate WInv(w: World) {
    && w.s.c.attached && w.s.read <= |w.s.c.wire|
    && CtxOk(CtxOf(w))
    && QueueOk(CtxOf(w), w.s.c.q)
    && UpOk(CtxOf(w), w.s.c.wire[w.s.read..])
    && DownOk(CtxOf(w), w.down)
    && AcceptedOk(CtxOf(w), w.accepted)
  }

  // ----- How the context changes ----------------------------------------------------------------

  /** Two current requests with one id are one request. */
  lemma {:induction false} CurrentUnique(x: Ctx, id: u16, u: nat, v: nat)
    requires Current(x, id, u) && Current(x, id, v)
    ensures u == v
  {
  }

  /** A new request; stored or not. */
  function Grown(x: Ctx, two: bool, view: map<nat, Stored>, next: u16): Ctx {
    x.(ids := x.ids + [x.next], two := x.two + [two], view := view, next := next)
  }

  lemma {:induction false} CurrentGrown(x: Ctx, two: bool, view: map<nat, Stored>, next: u16, id: u16, u: nat)
    requires Current(x, id, u) && x.next < next
    ensures Current(Grown(x, two, view, next), id, u)
  {
    var y := Grown(x, two, view, next);
    forall v | u < v < |y.ids| ensures y.ids[v] != id { if v < |x.ids| { assert y.ids[v] == x.ids[v]; } }
  }

  predicate Extends(x: Ctx, view: map<nat, Stored>) {
    forall k :: k in x.view ==> k in view && view[k] == x.view[k]
  }

  lemma {:induction false} GrownOk(x: Ctx, w: World, data: Message, view: map<nat, Stored>)
    requires x == CtxOf(w) && WInv(w) && x.next <= 32767 && !IsRel(data) && Carries(data, x.next)
    requires view == x.view || (view == x.view[AddKey(x.next) := Stored(data, |x.ids|)] && IsStored(data))
    ensures var y := Grown(x, data.head.qos == 2, view, x.next + 1);
      CtxOk(y) && QueueOk(y, w.s.c.q) && UpOk(y, w.s.c.wire[w.s.read..]) && DownOk(y, w.down)
        && AcceptedOk(y, w.accepted)
      && Current(y, x.next, |x.ids|) && |x.two| == |x.ids| && |x.ids| !in x.forwarded
  {
    hide CtxOk, EntryOk, FlightOk, ReplyOk, Safe, Current, ReleaseLast;
    var y := Grown(x, data.head.qos == 2, view, x.next + 1);
    NextIsNew(x);
    GrownCtx(x, data, view);
    forall i | 0 <= i < |w.s.c.q|
      ensures EntryOk(y, w.s.c.q[i])
    {
      GrownEntry(x, data.head.qos == 2, view, w.s.c.q[i]);
    }
    var f := w.s.c.wire[w.s.read..];
    forall i | 0 <= i < |f| ensures FlightOk(y, f[i]) { GrownFlight(x, data.head.qos == 2, view, f[i]); }
    forall i | 0 <= i < |w.down| ensures ReplyOk(y, w.down[i]) {
      GrownReply(x, data.head.qos == 2, view, w.down[i]);
    }
    forall u | u in w.accepted ensures Safe(y, u) { GrownSafe(x, data.head.qos == 2, view, u); }
  }

  lemma {:induction false} GrownEntry(x: Ctx, two: bool, view: map<nat, Stored>, e: Entry)
    requires EntryOk(x, e) && Extends(x, view) && x.next <= 32767
    ensures EntryOk(Grown(x, two, view, x.next + 1), e)
  {
  }

  lemma {:induction false} GrownFlight(x: Ctx, two: bool, view: map<nat, Stored>, p: Packet)
    requires FlightOk(x, p) && Extends(x, view) && x.next <= 32767
    requires forall k :: k in view && k !in x.view ==> k == AddKey(x.next)
    ensures FlightOk(Grown(x, two, view, x.next + 1), p)
  {
    CurrentGrown(x, two, view, x.next + 1, p.id, p.origin);
  }

  lemma {:induction false} GrownReply(x: Ctx, two: bool, view: map<nat, Stored>, r: Reply)
    requires ReplyOk(x, r) && Extends(x, view) && x.next <= 32767
    requires forall k :: k in view && k !in x.view ==> k == AddKey(x.next)
    ensures ReplyOk(Grown(x, two, view, x.next + 1), r)
  {
    CurrentGrown(x, two, view, x.next + 1, r.id, r.origin);
  }

  lemma {:induction false} GrownSafe(x: Ctx, two: bool, view: map<nat, Stored>, u: nat)
    requires Safe(x, u) && Extends(x, view) && x.next <= 32767
    ensures Safe(Grown(x, two, view, x.next + 1), u)
  {
  }

  lemma {:induction false} GrownCtx(x: Ctx, data: Message, view: map<nat, Stored>)
    requires CtxOk(x) && x.next <= 32767 && !IsRel(data) && Carries(data, x.next) && Extends(x, view)
    requires view == x.view || (view == x.view[AddKey(x.next) := Stored(data, |x.ids|)] && IsStored(data))
    ensures var y := Grown(x, data.head.qos == 2, view, x.next + 1);
      CtxOk(y) && Current(y, x.next, |x.ids|) && |x.two| == |x.ids| && |x.ids| !in x.forwarded
  {
    var y := Grown(x, data.head.qos == 2, view, x.next + 1);
    forall k | k in y.view ensures ViewOk(y, k) {
      if k in x.view {
        assert ViewOk(x, k);
        CurrentGrown(x, data.head.qos == 2, view, x.next + 1, k, x.view[k].origin);
      }
    }
    forall id | id in y.pending ensures PendingOk(y, id) {
      assert PendingOk(x, id);
      CurrentGrown(x, data.head.qos == 2, view, x.next + 1, id, x.pending[id]);
    }
  }

  /** What a key of the store holds is the current request with that id. */
  lemma {:induction false} ViewCurrent(x: Ctx, id: u16, u: nat)
    requires CtxOk(x) && Current(x, id, u)
    ensures forall v: nat :: InView(x, id, v) ==> v == u
  {
    if AddKey(id) in x.view {
      assert ViewOk(x, AddKey(id));
      CurrentUnique(x, id, u, x.view[AddKey(id)].origin);
    }
  }

  function Released(x: Ctx, id: u16, u: nat, rel: Message): Ctx {
    x.(view := x.view[AddKey(id) := Stored(rel, u)])
  }

  lemma {:induction false} ReleasedCtx(x: Ctx, id: u16, u: nat, rel: Message)
    requires CtxOk(x) && Current(x, id, u) && x.two[u] && Held(x, id, u) && IsRel(rel) && IsStored(rel)
             && Carries(rel, id)
    ensures CtxOk(Released(x, id, u, rel))
  {
    hide Carries;
    var y := Released(x, id, u, rel);
    ViewCurrent(x, id, u);
    forall k | k in y.view ensures ViewOk(y, k) { if k != AddKey(id) { assert ViewOk(x, k); } }
    forall i | i in y.pending ensures PendingOk(y, i) { assert PendingOk(x, i); }
  }

  lemma {:induction false} ReleasedViews(x: Ctx, id: u16, u: nat, rel: Message, i: u16, v: nat)
    requires CtxOk(x) && Current(x, id, u) && IsRel(rel)
    ensures InView(x, i, v) ==> InView(Released(x, id, u, rel), i, v)
    ensures StoredPub(Released(x, id, u, rel), i, v) ==> StoredPub(x, i, v)
  {
    ViewCurrent(x, id, u);
  }

  /** The release of message u replaces it in the store. */
  lemma {:induction false} ReleasedOk(x: Ctx, w: World, id: u16, u: nat, rel: Message)
    requires x == CtxOf(w) && WInv(w) && Current(x, id, u) && x.two[u] && Held(x, id, u)
    requires IsRel(rel) && IsStored(rel) && Carries(rel, id)
    ensures var y := Released(x, id, u, rel);
      CtxOk(y) && UpOk(y, w.s.c.wire[w.s.read..]) && DownOk(y, w.down) && AcceptedOk(y, w.accepted)
  {
    var y := Released(x, id, u, rel);
    ReleasedCtx(x, id, u, rel);
    var f := w.s.c.wire[w.s.read..];
    forall i | 0 <= i < |f| ensures FlightOk(y, f[i]) {
      assert FlightOk(x, f[i]);
      ReleasedViews(x, id, u, rel, f[i].id, f[i].origin);
    }
    forall i | 0 <= i < |w.down| ensures ReplyOk(y, w.down[i]) {
      assert ReplyOk(x, w.down[i]);
      ReleasedViews(x, id, u, rel, w.down[i].id, w.down[i].origin);
    }
    forall v | v in w.accepted ensures Safe(y, v) {
      assert Safe(x, v);
      ReleasedViews(x, id, u, rel, x.ids[v], v);
    }
  }

  predicate Finished(x: Ctx, u: nat)
    requires u < |x.two|
  {
    if x.two[u] then u in x.forwarded else u in x.acked
  }

  function Removed(x: Ctx, id: u16): Ctx {
    x.(view := x.view - {AddKey(id)})
  }

  lemma {:induction false} RemovedCtx(x: Ctx, id: u16, u: nat)
    requires CtxOk(x) && Current(x, id, u) && Finished(x, u)
    ensures CtxOk(Removed(x, id))
  {
    hide Carries;
    var y := Removed(x, id);
    ViewCurrent(x, id, u);
    forall k | k in y.view ensures ViewOk(y, k) { assert ViewOk(x, k); }
    forall i | i in y.pending ensures PendingOk(y, i) { assert PendingOk(x, i); }
  }

  /** An acknowledged message leaves the store. */
  lemma {:induction false} RemovedOk(x: Ctx, w: World, id: u16, u: nat)
    requires x == CtxOf(w) && WInv(w) && Current(x, id, u) && Finished(x, u)
    ensures var y := Removed(x, id);
      CtxOk(y) && UpOk(y, w.s.c.wire[w.s.read..]) && DownOk(y, w.down) && AcceptedOk(y, w.accepted)
  {
    hide Carries, CtxOk;
    var y := Removed(x, id);
    RemovedCtx(x, id, u);
    ViewCurrent(x, id, u);
    var f := w.s.c.wire[w.s.read..];
    forall i | 0 <= i < |f| ensures FlightOk(y, f[i]) { assert FlightOk(x, f[i]); }
    forall i | 0 <= i < |w.down| ensures ReplyOk(y, w.down[i]) { assert ReplyOk(x, w.down[i]); }
    forall v | v in w.accepted ensures Safe(y, v) { assert Safe(x, v); }
  }

  function TakenIn(x: Ctx, id: u16, u: nat): Ctx {
    x.(pending := x.pending[id := u])
  }

  lemma {:induction false} ReceivedCtx(x: Ctx, id: u16, u: nat)
    requires CtxOk(x) && Current(x, id, u) && x.two[u] && InView(x, id, u) && u !in x.forwarded && id !in x.pending
    ensures CtxOk(TakenIn(x, id, u))
  {
    hide Carries;
    var y := TakenIn(x, id, u);
    forall k | k in y.view ensures ViewOk(y, k) { assert ViewOk(x, k); }
    forall i | i in y.pending ensures PendingOk(y, i) { if i != id { assert PendingOk(x, i); } }
  }

  /** The broker takes in a QoS 2 message. */
  lemma {:induction false} ReceivedOk(x: Ctx, w: World, id: u16, u: nat)
    requires x == CtxOf(w) && WInv(w) && Current(x, id, u) && x.two[u] && InView(x, id, u)
    requires u !in x.forwarded && id !in x.pending
    ensures var y := TakenIn(x, id, u);
      CtxOk(y) && QueueOk(y, w.s.c.q) && UpOk(y, w.s.c.wire[w.s.read..]) && DownOk(y, w.down)
        && AcceptedOk(y, w.accepted)
  {
    hide Carries, CtxOk;
    var y := TakenIn(x, id, u);
    ReceivedCtx(x, id, u);
    forall i | 0 <= i < |w.s.c.q| ensures EntryOk(y, w.s.c.q[i]) { assert EntryOk(x, w.s.c.q[i]); }
    var f := w.s.c.wire[w.s.read..];
    forall i | 0 <= i < |f| ensures FlightOk(y, f[i]) { assert FlightOk(x, f[i]); }
    forall i | 0 <= i < |w.down| ensures ReplyOk(y, w.down[i]) { assert ReplyOk(x, w.down[i]); }
    forall v | v in w.accepted ensures Safe(y, v) { assert Safe(x, v); }
  }

  lemma {:induction false} AckedCtx(x: Ctx, u: nat)
    requires CtxOk(x)
    ensures CtxOk(x.(acked := x.acked + {u}))
  {
    hide Carries;
    var y := x.(acked := x.acked + {u});
    forall k | k in y.view ensures ViewOk(y, k) { assert ViewOk(x, k); }
    forall i | i in y.pending ensures PendingOk(y, i) { assert PendingOk(x, i); }
  }

  /** The broker takes in a QoS 1 message. */
  lemma {:induction false} AckedOk(x: Ctx, w: World, u: nat)
    requires x == CtxOf(w) && WInv(w)
    ensures var y := x.(acked := x.acked + {u});
      CtxOk(y) && QueueOk(y, w.s.c.q) && UpOk(y, w.s.c.wire[w.s.read..]) && DownOk(y, w.down)
        && AcceptedOk(y, w.accepted)
  {
    hide Carries;
    var y := x.(acked := x.acked + {u});
    AckedCtx(x, u);
    forall i | 0 <= i < |w.s.c.q| ensures EntryOk(y, w.s.c.q[i]) { assert EntryOk(x, w.s.c.q[i]); }
    var f := w.s.c.wire[w.s.read..];
    forall i | 0 <= i < |f| ensures FlightOk(y, f[i]) { assert FlightOk(x, f[i]); }
    forall i | 0 <= i < |w.down| ensures ReplyOk(y, w.down[i]) { assert ReplyOk(x, w.down[i]); }
    forall v | v in w.accepted ensures Safe(y, v) { assert Safe(x, v); }
  }

  function Forwarded(x: Ctx, id: u16): Ctx
    requires id in x.pending
  {
    x.(pending := x.pending - {id}, forwarded := x.forwarded + [x.pending[id]])
  }

  lemma {:induction false} ForwardedCtx(x: Ctx, id: u16)
    requires CtxOk(x) && id in x.pending && !StoredPub(x, id, x.pending[id])
    ensures CtxOk(Forwarded(x, id))
    ensures forall i, v :: Held(x, i, v) ==> Held(Forwarded(x, id), i, v)
  {
    hide Carries;
    var y, u := Forwarded(x, id), x.pending[id];
    assert PendingOk(x, id);
    AppendNew(x.forwarded, u);
    forall i, v | Held(x, i, v) ensures Held(y, i, v) {}
    forall k | k in y.view ensures ViewOk(y, k) { assert ViewOk(x, k); }
    forall i | i in y.pending ensures PendingOk(y, i) { assert PendingOk(x, i); }
  }

  /** The broker passes a released message on; `rest` is what follows the release in flight. */
  lemma {:induction false} ForwardedOk(x: Ctx, w: World, id: u16, rest: seq<Packet>)
    requires x == CtxOf(w) && WInv(w) && id in x.pending && !StoredPub(x, id, x.pending[id])
    requires UpOk(x, rest)
    requires forall j :: 0 <= j < |rest| && IsPub2(rest[j]) ==> rest[j].origin != x.pending[id]
    ensures var y := Forwarded(x, id);
      CtxOk(y) && QueueOk(y, w.s.c.q) && UpOk(y, rest) && DownOk(y, w.down) && AcceptedOk(y, w.accepted)
  {
    var y := Forwarded(x, id);
    ForwardedCtx(x, id);
    hide CtxOk, EntryOk, FlightOk, ReplyOk, Safe, StoredPub, ReleaseLast;
    forall i | 0 <= i < |w.s.c.q| ensures EntryOk(y, w.s.c.q[i]) { ForwardedEntry(x, id, w.s.c.q[i]); }
    forall i | 0 <= i < |rest| ensures FlightOk(y, rest[i]) { ForwardedFlight(x, id, rest[i]); }
    forall i | 0 <= i < |w.down| ensures ReplyOk(y, w.down[i]) { ForwardedReply(x, id, w.down[i]); }
    forall v | v in w.accepted ensures Safe(y, v) { ForwardedSafe(x, id, v); }
  }

  lemma {:induction false} ForwardedFlight(x: Ctx, id: u16, p: Packet)
    requires CtxOk(x) && id in x.pending && FlightOk(x, p) && (IsPub2(p) ==> p.origin != x.pending[id])
    ensures FlightOk(Forwarded(x, id), p)
  {
    hide CtxOk;
  }

  lemma {:induction false} ForwardedReply(x: Ctx, id: u16, r: Reply)
    requires id in x.pending && ReplyOk(x, r)
    ensures ReplyOk(Forwarded(x, id), r)
  {
  }

  lemma {:induction false} ForwardedSafe(x: Ctx, id: u16, u: nat)
    requires id in x.pending && Safe(x, u)
    ensures Safe(Forwarded(x, id), u)
  {
  }

  lemma {:induction false} ForwardedEntry(x: Ctx, id: u16, e: Entry)
    requires id in x.pending && EntryOk(x, e)
    ensures EntryOk(Forwarded(x, id), e)
  {
  }

  /** After a restart ids continue above everything in the store. */
  lemma {:induction false} RenumberedOk(x: Ctx, w: World, next: u16)
    requires x == CtxOf(w) && WInv(w) && forall k :: k in x.view ==> k < next
    ensures var y := x.(next := next); CtxOk(y) && AcceptedOk(y, w.accepted)
  {
    var y := x.(next := next);
    forall k | k in y.view ensures ViewOk(y, k) { assert ViewOk(x, k); }
    forall i | i in y.pending ensures PendingOk(y, i) {
      assert PendingOk(x, i);
    }
    forall v | v in w.accepted ensures Safe(y, v) { assert Safe(x, v); }
  }

  // ----- Steps of the client --------------------------------------------------------------------

  function WithConn(w: World, c: Conn): World {
    w.(s := w.s.(c := c))
  }

  lemma {:induction false} WriteStep(w: World, p: Packet, ok: bool)
    requires WInv(w) && FlightOk(CtxOf(w), p)
    requires IsPub2(p) ==> StoredPub(CtxOf(w), p.id, p.origin)
    ensures WInv(WithConn(w, Write(w.s.c, p, ok).0))
  {
    hide Carries;
    var x, c1, f := CtxOf(w), Write(w.s.c, p, ok).0, w.s.c.wire[w.s.read..];
    assert CtxOf(WithConn(w, c1)) == x;
    if c1.wire != w.s.c.wire {
      var f1 := f + [p];
      assert c1.wire[w.s.read..] == f1;
      forall i, j | 0 <= i < j < |f1| && IsRel(f1[i].data) && IsPub2(f1[j]) ensures f1[i].origin != f1[j].origin {
        assert FlightOk(x, f[i]);
      }
    }
  }

  /** Losing what is in flight, in both directions, when the socket is closed. */
  lemma {:induction false} CutStep(w: World)
    requires WInv(w)
    ensures WInv(Cut(w.(s := Settle(w.s))))
    ensures WInv(w.(s := w.s.(read := |w.s.c.wire|), down := []))
  {
    assert w.s.c.wire[|w.s.c.wire|..] == [];
  }

  lemma {:induction false} DownTail(w: World)
    requires WInv(w) && w.down != []
    ensures WInv(w.(down := w.down[1..])) && ReplyOk(CtxOf(w), w.down[0])
  {
    forall i | 0 <= i < |w.down[1..]| ensures ReplyOk(CtxOf(w), w.down[1..][i]) {
      assert w.down[1..][i] == w.down[i + 1];
    }
  }

  lemma {:induction false} WithoutEntries(x: Ctx, y: Ctx, q: seq<Entry>, id: u16)
    requires QueueOk(x, q)
    requires forall k :: k in x.view && k != AddKey(id) ==> k in y.view && y.view[k] == x.view[k]
    ensures QueueOk(y, Without(q, id)) && !HasId(Without(q, id), id)
  {
    hide Carries;
    var r := Without(q, id);
    WithoutDrops(q, id);
    forall i | 0 <= i < |r| ensures EntryOk(y, r[i]) {
      assert r[i] in q && r[i].id != id;
      var k :| 0 <= k < |q| && q[k] == r[i];
      assert EntryOk(x, q[k]);
    }
  }

  lemma {:induction false} QueueAppend(x: Ctx, q: seq<Entry>, e: Entry)
    requires QueueOk(x, q) && !HasId(q, e.id) && EntryOk(x, e)
    ensures QueueOk(x, q + [e])
  {
  }

  /** A PUBREC arrives. If there is room for the PUBREL and the store takes it, it replaces the PUBLISH in
      the store; otherwise nothing changes and the PUBLISH stays there. Either way no message is lost. */
  lemma {:induction false} PubrecStep(w: World, id: u16, u: nat, put: PutResult, ok: bool)
    requires WInv(w) && ReplyOk(CtxOf(w), Reply(Rec, id, u))
    ensures WInv(WithConn(w, OnPubrec(w.s.c, id, u, put, ok).0))
    ensures var c, c1, rel := w.s.c, OnPubrec(w.s.c, id, u, put, ok).0, PubrelMessage(id);
      if Total(c.q) + IPQ_SIZE + rel.Size() > MAX_OUTQ || put.Refused? then c1 == c
      else c1.store.View() == c.store.View()[AddKey(id) := Stored(rel, u)] && !HasId(Front(c1.q), id)
  {
    hide CtxOk, QueueOk, UpOk, DownOk, AcceptedOk, Without;
    var x, rel := CtxOf(w), PubrelMessage(id);
    if Admit(w.s.c, rel, false, put).Ok? {
      var e := Entry(id, rel, InProgress, u);
      var c1 := Queued(w.s.c, e, false, put);
      var w1, y := WithConn(w, c1), Released(x, id, u, rel);
      PutView(w.s.c.store, id, Stored(rel, u), put);
      assert CtxOf(w1) == y;
      ReleasedOk(x, w, id, u, rel);
      WithoutEntries(x, y, w.s.c.q, id);
      QueueAppend(y, Without(w.s.c.q, id), e);
      WriteStep(w1, PacketOf(e), ok);
      assert Front(c1.q) == Without(w.s.c.q, id);
    }
  }

  lemma {:induction false} AckStep(w: World, r: Reply, del: DelResult)
    requires WInv(w) && ReplyOk(CtxOf(w), r) && r.kind != Rec
    ensures WInv(WithConn(w, OnAck(w.s.c, r.id, del)))
  {
    hide CtxOk, QueueOk, UpOk, DownOk, AcceptedOk, Without, Carries;
    var x, c1 := CtxOf(w), OnAck(w.s.c, r.id, del);
    var y := CtxOf(WithConn(w, c1));
    AckView(w, r, del);
    RemovedOk(x, w, r.id, r.origin);
    WithoutEntries(x, y, w.s.c.q, r.id);
  }

  /** The message leaves the store, or nothing changes there; only one the broker has for good is acknowledged. */
  lemma {:induction false} AckView(w: World, r: Reply, del: DelResult)
    requires w.s.c.attached && ReplyOk(CtxOf(w), r) && r.kind != Rec
    ensures var x, y := CtxOf(w), CtxOf(WithConn(w, OnAck(w.s.c, r.id, del))); y == x || y == Removed(x, r.id)
    ensures Current(CtxOf(w), r.id, r.origin) && Finished(CtxOf(w), r.origin)
  {
    KeysAgreeIff(r.id);
    DeleteView(w.s.c.store, DelKey(r.id), del);
  }

  lemma {:induction false} RetryStepOk(w: World, i: nat, ok: bool)
    requires WInv(w) && i < |w.s.c.q|
    ensures WInv(WithConn(w, RetryStep(w.s.c, i, ok)))
  {
    hide CtxOk, UpOk, DownOk, AcceptedOk, EntryOk;
    var x, e := CtxOf(w), Retried(w.s.c.q[i]);
    var w1 := WithConn(w, w.s.c.(q := w.s.c.q[i := e]));
    assert CtxOf(w1) == x;
    assert EntryOk(x, w.s.c.q[i]);
    RetriedOk(x, w.s.c.q[i]);
    assert WInv(w1);
    if w.s.c.q[i].status.Retrying? { WriteStep(w1, PacketOf(e), ok); }
  }

  /** What the invariant says about a queued message it says about a copy of it. */
  lemma {:induction false} RetriedOk(x: Ctx, e: Entry)
    requires CtxOk(x) && EntryOk(x, e)
    ensures var r := Retried(e);
      && EntryOk(x, r) && r.id == e.id && FlightOk(x, PacketOf(r))
      && (IsPub2(PacketOf(r)) ==> StoredPub(x, r.id, r.origin))
  {
    assert ViewOk(x, AddKey(e.id));
  }

  lemma {:induction false} RetryOk(w: World, writes: seq<bool>)
    requires WInv(w) && |writes| == |w.s.c.q|
    ensures WInv(WithConn(w, Retry(w.s.c, writes)))
  {
    var p := (c: Conn) => WInv(WithConn(w, c));
    forall d: Conn, j: nat, ok | p(d) && j < |d.q| ensures p(RetryStep(d, j, ok)) {
      RetryStepOk(WithConn(w, d), j, ok);
      assert WithConn(WithConn(w, d), RetryStep(d, j, ok)) == WithConn(w, RetryStep(d, j, ok));
    }
    assert WithConn(w, w.s.c) == w;
    RetryInduction(p, w.s.c, 0, writes);
  }

  /** The world after a request has been numbered, queued and stored, before it is written. */
  function Requested(w: World, data: Message, c: Conn): World {
    w.(s := w.s.(c := c.(nextMsgId := NextMsgId(w.s.c.nextMsgId)), ids := w.s.ids + [w.s.c.nextMsgId]),
       two := w.two + [data.head.qos == 2])
  }

  function NewEntry(c: Conn, data: Message, u: nat): Entry {
    Entry(c.nextMsgId, data, InProgress, u)
  }

  lemma {:induction false} NextIsNew(x: Ctx)
    requires CtxOk(x)
    ensures AddKey(x.next) !in x.view
  {
    assert forall k :: k in x.view ==> ViewOk(x, k);
  }

  lemma {:induction false} EnqueueCtx(w: World, data: Message, put: PutResult)
    requires w.s.c.attached && CtxOk(CtxOf(w)) && w.s.c.nextMsgId <= 32767 && !IsRel(data)
             && Carries(data, w.s.c.nextMsgId) && !put.Refused?
    ensures var c, u := w.s.c, |w.s.ids|;
      CtxOf(Requested(w, data, Queued(c, NewEntry(c, data, u), false, put)))
      == Grown(CtxOf(w), data.head.qos == 2, CtxOf(w).view[AddKey(c.nextMsgId) := Stored(data, u)], c.nextMsgId + 1)
  {
    NextIsNew(CtxOf(w));
    PutView(w.s.c.store, w.s.c.nextMsgId, Stored(data, |w.s.ids|), put);
  }

  /** A new message that is queued and stored, not yet written. */
  lemma {:induction false} EnqueueStep(w: World, data: Message, put: PutResult)
    requires WInv(w) && w.s.c.nextMsgId <= 32767 && !IsRel(data) && Carries(data, w.s.c.nextMsgId) && IsStored(data)
             && put.Written?
    ensures var e := NewEntry(w.s.c, data, |w.s.ids|);
      var w1 := Requested(w, data, Queued(w.s.c, e, false, put));
      WInv(w1) && FlightOk(CtxOf(w1), PacketOf(e)) && StoredPub(CtxOf(w1), e.id, e.origin)
  {
    hide Carries, CtxOk, QueueOk, UpOk, DownOk, AcceptedOk, Without;
    var x, q, e := CtxOf(w), w.s.c.q, NewEntry(w.s.c, data, |w.s.ids|);
    var view := x.view[AddKey(e.id) := Stored(data, e.origin)];
    GrownOk(x, w, data, view);
    EnqueueCtx(w, data, put);
    var y := Grown(x, data.head.qos == 2, view, e.id + 1);
    WithoutEntries(x, y, q, e.id);
    QueueAppend(y, Without(q, e.id), e);
    assert FlightOk(y, PacketOf(e));
  }

  lemma {:induction false} RequestStep(w: World, data: Message, put: PutResult, ok: bool)
    requires WInv(w) && w.s.c.nextMsgId <= 32767 && !IsRel(data) && Carries(data, w.s.c.nextMsgId)
             && !put.WrittenOldKept?
    ensures var (c1, rc) := Request(w.s.c, data, |w.s.ids|, put, ok);
      var w1 := Requested(w, data, c1);
      WInv(w1) && (IsStored(data) && (rc.Ok? || rc.NotSent?) ==> Safe(CtxOf(w1), |w.s.ids|))
  {
    hide Carries, CtxOk, QueueOk, UpOk, DownOk, AcceptedOk, Without;
    var x, c := CtxOf(w), w.s.c;
    var e := NewEntry(c, data, |w.s.ids|);
    if IsStored(data) && Admit(c, data, false, put).Ok? {
      EnqueueStep(w, data, put);
      WriteStep(Requested(w, data, Queued(c, e, false, put)), PacketOf(e), ok);
    } else {
      GrownOk(x, w, data, x.view);
      var w1 := Requested(w, data, c);
      assert WInv(w1);
      if !IsStored(data) {
        WriteStep(w1, PacketOf(e), ok);
      }
    }
  }

  // ----- Restart --------------------------------------------------------------------------------

  predicate KeysBelow(msgs: seq<(nat, Stored)>, i: nat, n: nat) {
    forall j :: i <= j < |msgs| ==> msgs[j].0 <= n
  }

  /** After a reload the next id is no smaller than any key reloaded. */
  lemma {:induction false} ReloadNumbers(c: Conn, msgs: seq<(nat, Stored)>, i: nat)
    requires i <= |msgs| && KeysBelow(msgs, i, 32767) && c.nextMsgId <= 32767
    ensures var n := ReloadFrom(c, msgs, i).nextMsgId; c.nextMsgId <= n <= 32767 && KeysBelow(msgs, i, n)
    decreases |msgs| - i
  {
    if i < |msgs| {
      var c1 := ReloadStep(c, msgs[i].0, msgs[i].1);
      assert msgs[i].0 <= 32767;
      assert c1.nextMsgId == if msgs[i].0 > c.nextMsgId then msgs[i].0 else c.nextMsgId;
      ReloadNumbers(c1, msgs, i + 1);
    }
  }

  predicate FromView(x: Ctx, m: (nat, Stored)) {
    m.0 in x.view && x.view[m.0] == m.1
  }

  lemma {:induction false} ReloadStepQueues(x: Ctx, c: Conn, m: (nat, Stored))
    requires CtxOk(x) && QueueOk(x, c.q) && !c.sock && FromView(x, m)
    ensures var c1 := ReloadStep(c, m.0, m.1);
      QueueOk(x, c1.q) && c1.store == c.store && c1.wire == c.wire && c1.attached == c.attached && !c1.sock
  {
    hide Carries, Without, QueueOk;
    assert ViewOk(x, m.0);
    var e := Entry(m.0, m.1.data, Retrying, m.1.origin);
    WithoutEntries(x, x, c.q, m.0);
    QueueAppend(x, Without(c.q, m.0), e);
  }

  lemma {:induction false} ReloadQueues(x: Ctx, c: Conn, msgs: seq<(nat, Stored)>, i: nat)
    requires CtxOk(x) && QueueOk(x, c.q) && !c.sock && i <= |msgs|
    requires forall j :: 0 <= j < |msgs| ==> FromView(x, msgs[j])
    ensures var c1 := ReloadFrom(c, msgs, i);
      QueueOk(x, c1.q) && c1.store == c.store && c1.wire == c.wire && c1.attached == c.attached && !c1.sock
    decreases |msgs| - i
  {
    if i < |msgs| {
      ReloadStepQueues(x, c, msgs[i]);
      ReloadQueues(x, ReloadStep(c, msgs[i].0, msgs[i].1), msgs, i + 1);
    }
  }

  lemma {:induction false} ReloadOk(w: World, msgs: seq<(nat, Stored)>)
    requires WInv(w) && Lists(msgs, w.s.c.store.View())
    ensures var x, c1 := CtxOf(w), Reload(w.s.c, msgs);
      && QueueOk(x, c1.q) && c1.attached && c1.store == w.s.c.store && (forall k :: k in x.view ==> k < c1.nextMsgId)
  {
    hide Carries, QueueOk, ReloadFrom, DownOk, UpOk;
    var x, c1 := CtxOf(w), ReloadFrom(Fresh(w.s.c), msgs, 0);
    forall i | 0 <= i < |msgs| ensures FromView(x, msgs[i]) && msgs[i].0 <= 32767 { assert ViewOk(x, msgs[i].0); }
    ReloadNumbers(Fresh(w.s.c), msgs, 0);
    ReloadQueues(x, Fresh(w.s.c), msgs, 0);
    forall k | k in x.view ensures k < Reload(w.s.c, msgs).nextMsgId {
      var i :| 0 <= i < |msgs| && msgs[i].0 == k;
    }
  }

  lemma {:induction false} RestartStep(w: World, msgs: seq<(nat, Stored)>)
    requires WInv(w) && Lists(msgs, w.s.c.store.View())
    ensures var c1 := Reload(w.s.c, msgs);
      && WInv(w.(s := w.s.(c := c1, read := |c1.wire|), down := []))
      && c1.store == w.s.c.store && forall k :: k in c1.store.View() ==> k < c1.nextMsgId
  {
    hide Reload, CtxOk, AcceptedOk, Lists;
    var x, c1 := CtxOf(w), Reload(w.s.c, msgs);
    ReloadOk(w, msgs);
    RenumberedOk(x, w, c1.nextMsgId);
    var y := x.(next := c1.nextMsgId);
    forall i | 0 <= i < |c1.q| ensures EntryOk(y, c1.q[i]) { assert EntryOk(x, c1.q[i]); }
    assert c1.wire[|c1.wire|..] == [];
  }

  // ----- Steps of the broker --------------------------------------------------------------------

  lemma {:induction false} UpTail(x: Ctx, flight: seq<Packet>)
    requires UpOk(x, flight) && flight != []
    ensures UpOk(x, flight[1..]) && FlightOk(x, flight[0])
    ensures IsRel(flight[0].data) ==> forall j :: 0 <= j < |flight[1..]| && IsPub2(flight[1..][j]) ==>
            flight[1..][j].origin != flight[0].origin
  {
    forall i | 0 <= i < |flight[1..]| ensures FlightOk(x, flight[1..][i]) { assert FlightOk(x, flight[i + 1]); }
    forall i, j | 0 <= i < j < |flight[1..]| && IsRel(flight[1..][i].data) && IsPub2(flight[1..][j])
      ensures flight[1..][i].origin != flight[1..][j].origin
    {
      assert flight[1..][i] == flight[i + 1] && flight[1..][j] == flight[j + 1];
    }
    if IsRel(flight[0].data) {
      forall j | 0 <= j < |flight[1..]| && IsPub2(flight[1..][j]) ensures flight[1..][j].origin != flight[0].origin {
        assert flight[1..][j] == flight[j + 1];
      }
    }
  }

  lemma {:induction false} DownAppend(x: Ctx, down: seq<Reply>, r: Reply)
    requires DownOk(x, down) && ReplyOk(x, r)
    ensures DownOk(x, down + [r])
  {
  }

  /** The broker waits to release at most the current message with an id. */
  lemma {:induction false} PendingIs(x: Ctx, id: u16, u: nat)
    requires CtxOk(x) && id in x.pending && Current(x, id, u)
    ensures x.pending[id] == u && PendingOk(x, id)
  {
    assert PendingOk(x, id);
    CurrentUnique(x, id, u, x.pending[id]);
  }

  lemma {:induction false} ReadRelease(w: World, p: Packet)
    requires Conforms(w, BrokerReads)
    requires WInv(w) && w.s.read < |w.s.c.wire| && p == w.s.c.wire[w.s.read] && IsRel(p.data)
    ensures WInv(Step(w, BrokerReads))
  {
    hide CtxOk, QueueOk, UpOk, DownOk, AcceptedOk, PendingOk;
    var x, f, w1 := CtxOf(w), w.s.c.wire[w.s.read..], Step(w, BrokerReads);
    UpTail(x, f);
    assert w1.s.c.wire[w1.s.read..] == f[1..];
    if p.id in x.pending {
      PendingIs(x, p.id, p.origin);
      ForwardedOk(x, w, p.id, f[1..]);
    }
    DownAppend(CtxOf(w1), w.down, Reply(Comp, p.id, p.origin));
  }

  lemma {:induction false} ReadPublish(w: World, p: Packet)
    requires Conforms(w, BrokerReads)
    requires WInv(w) && w.s.read < |w.s.c.wire| && p == w.s.c.wire[w.s.read] && IsPub2(p)
    ensures WInv(Step(w, BrokerReads))
  {
    hide CtxOk, QueueOk, UpOk, DownOk, AcceptedOk, PendingOk;
    var x, f, w1 := CtxOf(w), w.s.c.wire[w.s.read..], Step(w, BrokerReads);
    UpTail(x, f);
    assert w1.s.c.wire[w1.s.read..] == f[1..];
    if p.id in x.pending {
      PendingIs(x, p.id, p.origin);
    } else {
      ReceivedOk(x, w, p.id, p.origin);
      UpTail(CtxOf(w1), f);
    }
    DownAppend(CtxOf(w1), w.down, Reply(Rec, p.id, p.origin));
  }

  lemma {:induction false} ReadOther(w: World, p: Packet)
    requires Conforms(w, BrokerReads)
    requires WInv(w) && w.s.read < |w.s.c.wire| && p == w.s.c.wire[w.s.read] && !IsRel(p.data) && p.data.head.qos != 2
    ensures WInv(Step(w, BrokerReads))
  {
    hide CtxOk, QueueOk, UpOk, DownOk, AcceptedOk;
    var x, f, w1 := CtxOf(w), w.s.c.wire[w.s.read..], Step(w, BrokerReads);
    UpTail(x, f);
    assert w1.s.c.wire[w1.s.read..] == f[1..];
    if p.data.head.qos == 1 {
      AckedOk(x, w, p.origin);
      UpTail(CtxOf(w1), f);
      DownAppend(CtxOf(w1), w.down, Reply(Done, p.id, p.origin));
    } else {
      assert w.down + [] == w.down;
    }
  }

  lemma {:induction false} BrokerStep(w: World)
    requires WInv(w) && w.s.read < |w.s.c.wire|
    ensures WInv(Step(w, BrokerReads))
  {
    assert w.s.c.attached;
    hide WInv, Step;
    var p := w.s.c.wire[w.s.read];
    if IsRel(p.data) {
      ReadRelease(w, p);
    } else if p.data.head.qos == 2 {
      ReadPublish(w, p);
    } else {
      ReadOther(w, p);
    }
  }

  // ----- Main results ---------------------------------------------------------------------------

  lemma {:induction false} StepOk(w: World, a: Action)
    requires WInv(w) && Conforms(w, a)
    ensures WInv(Step(w, a))
  {
    hide Carries, CtxOk, QueueOk, UpOk, DownOk;
    var s := w.s;
    match a
    case Publish(data, put, ok) =>
      RequestStep(w, data, put, ok);
      var (c1, rc) := Request(s.c, data, |s.ids|, put, ok);
      var w1 := Requested(w, data, c1);
      var took := IsStored(data) && (rc.Ok? || rc.NotSent?);
      var w2 := w1.(accepted := if took then w.accepted + {|s.ids|} else w.accepted);
      assert CtxOf(w2) == CtxOf(w1);
      CutStep(w2);
    case Pubrec(id, origin, put, ok) =>
      DownTail(w);
      var w1 := w.(down := w.down[1..]);
      PubrecStep(w1, id, origin, put, ok);
      CutStep(WithConn(w1, OnPubrec(s.c, id, origin, put, ok).0));
    case Ack(id, del) =>
      DownTail(w);
      var w1 := w.(down := w.down[1..]);
      AckStep(w1, w.down[0], del);
      CutStep(WithConn(w1, OnAck(s.c, id, del)));
    case RetryPass(writes) =>
      RetryOk(w, writes);
      CutStep(WithConn(w, Retry(s.c, writes)));
    case SocketLost => CutStep(WithConn(w, s.c.(sock := false)));
    case Reconnected => CutStep(WithConn(w, s.c.(sock := true)));
    case Restart(msgs) =>
      RestartStep(w, msgs);
      RestartCloses(s.c, msgs);
    case BrokerReads => BrokerStep(w);
  }

  lemma {:induction false} RestartCloses(c: Conn, msgs: seq<(nat, Stored)>)
    ensures !Reload(c, msgs).sock
  {
    ReloadWritesNothing(Fresh(c), msgs, 0);
  }

  lemma {:induction false} RunOk(w: World, run: seq<Action>, v: World)
    requires WInv(w) && Reachable(w, run, v)
    ensures WInv(v)
    decreases |run|
  {
    if run != [] {
      StepOk(w, run[0]);
      RunOk(Step(w, run[0]), run[1..], v);
    }
  }

  /** The broker has request u for good: a QoS 2 message passed on, another message received. */
  predicate Delivered(v: World, u: nat)
    requires |v.two| == |v.s.ids|
  {
    u < |v.s.ids| && (if v.two[u] then u in v.s.forwarded else u in v.acked)
  }

  predicate InStore(v: World, u: nat) {
    u < |v.s.ids| && InView(CtxOf(v), v.s.ids[u], u)
  }

  /** Conservation: in every reachable state each accepted message is in the store under its id or
      the broker has it for good, and the broker has passed no QoS 2 message on twice. So a QoS 2
      message that has left the store was passed on exactly once, a QoS 1 message at least once. */
  lemma {:induction false} NothingLostNothingTwice(run: seq<Action>, v: World)
    requires Reachable(Start(), run, v)
    ensures |v.two| == |v.s.ids|
    ensures forall u :: u in v.accepted ==> InStore(v, u) || Delivered(v, u)
    ensures NoDuplicates(v.s.forwarded)
    ensures forall u :: u in v.s.forwarded ==> Delivered(v, u)
  {
    RunOk(Start(), run, v);
    forall u | u in v.accepted ensures Safe(CtxOf(v), u) {}
  }

  // ----- Status ---------------------------------------------------------------------------------

  /** The store did delete what it was asked to delete. */
  predicate Tidy(a: Action) {
    a.Ack? ==> a.del.BothRemoved?
  }

  lemma {:induction false} PublishSound(w: World, data: Message, put: PutResult, ok: bool)
    requires WInv(w) && Sound(w.s.c)
    ensures Sound(Request(w.s.c, data, |w.s.ids|, put, ok).0)
  {
    var c := w.s.c;
    NextIsNew(CtxOf(w));
    SendSound(c, data, c.nextMsgId, |w.s.ids|, put, ok);
    assert Sound(Send(c, data, c.nextMsgId, |w.s.ids|, false, put, ok).0);
  }

  lemma {:induction false} FrontIsSmall(w: World)
    requires WInv(w) && w.down != []
    ensures w.down[0].id <= 32767
  {
    DownTail(w);
  }

  lemma {:induction false} StepSound(w: World, a: Action)
    requires WInv(w) && Sound(w.s.c) && Conforms(w, a) && Tidy(a)
    ensures Sound(Apply(w.s, a).c)
  {
    hide WInv, Retry, Reload, Request, Send, OnAck, Mirrors, AllStored, Total;
    var c := w.s.c;
    match a
    case Publish(data, put, ok) => PublishSound(w, data, put, ok);
    case Pubrec(id, origin, put, ok) => SendSound(c, PubrelMessage(id), id, origin, put, ok);
    case Ack(id, del) =>
      FrontIsSmall(w);
      AckSound(c, id);
    case RetryPass(writes) => RetrySound(c, writes);
    case Restart(msgs) => ReloadRecovers(c, msgs);
    case _ =>
  }

  lemma {:induction false} RunSound(w: World, run: seq<Action>, v: World)
    requires WInv(w) && Sound(w.s.c) && Reachable(w, run, v)
    requires forall i :: 0 <= i < |run| ==> Tidy(run[i])
    ensures WInv(v) && Sound(v.s.c)
    decreases |run|
  {
    hide WInv, Sound;
    if run != [] {
      StepOk(w, run[0]);
      StepSound(w, run[0]);
      RunSound(Step(w, run[0]), run[1..], v);
    }
  }

  lemma {:induction false} StartOk()
    ensures WInv(Start()) && Sound(Start().s.c)
  {
  }

  lemma {:induction false} AcceptedSafe(v: World, u: nat)
    requires WInv(v) && u in v.accepted
    ensures Safe(CtxOf(v), u)
  {
  }

  lemma {:induction false} StoredHasKey(v: World, k: nat)
    requires Sound(v.s.c) && k in CtxOf(v).view
    ensures HasKey(v.s.c.q, k)
  {
  }

  /** When the store deletes what it is asked to delete: an accepted message whose status is
      DELIVERED has reached the broker for good, whatever crashes and reconnects lie between. */
  lemma {:induction false} DeliveredMeansDelivered(run: seq<Action>, v: World, u: nat)
    requires Reachable(Start(), run, v) && forall i :: 0 <= i < |run| ==> Tidy(run[i])
    requires u in v.accepted
    ensures |v.two| == |v.s.ids| && u < |v.s.ids|
    ensures StatusOf(v.s.c.q, v.s.ids[u]).Delivered? ==> Delivered(v, u)
  {
    StartOk();
    hide WInv, Reachable, Start;
    RunSound(Start(), run, v);
    AcceptedSafe(v, u);
    hide CtxOf;
    if InStore(v, u) {
      var k := AddKey(v.s.ids[u]);
      StoredHasKey(v, k);
      var i :| 0 <= i < |v.s.c.q| && AddKey(v.s.c.q[i].id) == k;
      assert HasId(v.s.c.q, v.s.ids[u]);
    }
  }
}
