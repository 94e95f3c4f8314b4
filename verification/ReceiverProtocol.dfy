/** The receiving side of the QoS 2 flow as the two ends of a link see it, without the client's data:
    which messages the broker has in flight, which of them the client holds, has stored as released or
    waits to release, and what is on the link in either direction (MQTT V3.1 section 4.1, OASIS MQTT
    3.1.1 section 4.3.3). */
module ReceiverProtocol {
  import opened Bytes
  import opened Inbound

  /** A message the broker has not finished: PUBLISH unacknowledged, or PUBREL sent. */
  datatype Flight = Flight(u: nat, buf: seq<byte>, released: bool)

  /** A packet on its way to the client, stamped with the number of its message. */
  datatype Down = Copy(id: u16, buf: seq<byte>, origin: nat) | Rel(id: u16, origin: nat)

  /** `ids` and `lvl` give the wire id and the QoS of every message the broker ever sent; `held` are the
      messages the client has stored, or delivered after that; `past` those stored as released,
      `released` those released in memory, or delivered; `waiting` those indexed by wire id. */
  datatype Ctx = Ctx(
    ids: seq<u16>, lvl: seq<twobit>, inflight: map<u16, Flight>,
    held: set<nat>, past: set<nat>, released: set<nat>, waiting: map<u16, nat>)

  function Level(buf: seq<byte>): twobit
    requires buf != []
  {
    QosLevel(ParseHeader(buf[0]))
  }

  predicate Dup(buf: seq<byte>) {
    buf != [] && ParseHeader(buf[0]).dup
  }

  predicate Known(x: Ctx, id: u16, u: nat) {
    u < |x.ids| == |x.lvl| && x.ids[u] == id
  }

  predicate Newest(x: Ctx, id: u16, u: nat) {
    Known(x, id, u) && x.lvl[u] > 0 && forall v :: u < v < |x.ids| && x.lvl[v] > 0 ==> x.ids[v] != id
  }

  predicate FlightOk(x: Ctx, w: u16)
    requires w in x.inflight
  {
    var f := x.inflight[w];
    && Newest(x, w, f.u) && f.buf != [] && Level(f.buf) == x.lvl[f.u] && !Dup(f.buf)
    && (if f.released then x.lvl[f.u] == 2 && f.u in x.held else x.lvl[f.u] == 2 ==> f.u !in x.past)
  }

  predicate WaitOk(x: Ctx, w: u16)
    requires w in x.waiting
  {
    var u := x.waiting[w];
    w in x.inflight && x.inflight[w].u == u && Known(x, w, u) && x.lvl[u] == 2 && u in x.held
  }

  predicate CtxOk(x: Ctx) {
    && |x.ids| == |x.lvl|
    && (forall w :: w in x.inflight ==> FlightOk(x, w))
    && (forall w :: w in x.waiting ==> WaitOk(x, w))
    && (forall u :: u in x.held ==> u < |x.ids|) && x.past <= x.held
  }

  /** A packet that belongs to a QoS 1 or 2 message. */
  predicate Numbered(x: Ctx, p: Down) {
    p.origin < |x.lvl| && x.lvl[p.origin] > 0
  }

  /** Nothing of an older message with this id is left once the broker saw the newest one received, or
      while the client waits to release one. */
  predicate Recent(x: Ctx, id: u16, origin: nat) {
    && (id in x.inflight && x.inflight[id].released ==> origin == x.inflight[id].u)
    && (id in x.waiting ==> origin == x.waiting[id])
  }

  predicate PktOk(x: Ctx, p: Down) {
    && Known(x, p.id, p.origin)
    && (Numbered(x, p) ==> Recent(x, p.id, p.origin))
    && match p
       case Rel(id, u) => x.lvl[u] == 2 && u in x.held
         && (id in x.inflight && x.inflight[id].u == u ==> x.inflight[id].released)
       case Copy(id, buf, u) =>
         && buf != [] && Level(buf) == x.lvl[u]
         && (x.lvl[u] == 2 ==>
               id in x.inflight && x.inflight[id].u == u && u !in x.past && (!Dup(buf) ==> u !in x.held))
  }

  /** What may follow a packet with the same id: newer messages only, no copy of a message behind its
      release, and only the first copy without DUP. */
  predicate Precedes(p: Down, q: Down) {
    && p.origin <= q.origin
    && (p.origin == q.origin && q.Copy? ==> p.Copy? && Dup(q.buf))
  }

  predicate DownOk(x: Ctx, down: seq<Down>) {
    && (forall i {:trigger down[i]} :: 0 <= i < |down| ==> PktOk(x, down[i]))
    && (forall i, j ::
          0 <= i < j < |down| && down[i].id == down[j].id && Numbered(x, down[i]) && Numbered(x, down[j]) ==>
          Precedes(down[i], down[j]))
  }

  /** What an acknowledgement once sent stands for, ever after. */
  predicate AckOk(x: Ctx, a: Ack) {
    && Known(x, a.id, a.origin) && a.origin in x.held
    && match a.kind
       case Puback => x.lvl[a.origin] == 1
       case Pubrec => x.lvl[a.origin] == 2
       case Pubcomp => x.lvl[a.origin] == 2 && a.origin in x.released
  }

  /** An acknowledgement still on its way. */
  predicate UpAckOk(x: Ctx, a: Ack) {
    && AckOk(x, a)
    && (a.id in x.inflight && x.inflight[a.id].released ==> a.origin == x.inflight[a.id].u)
    && (a.kind.Pubrec? ==> a.id in x.inflight && x.inflight[a.id].u == a.origin)
  }

  predicate AckPrecedes(a: Ack, b: Ack) {
    a.id == b.id ==> a.origin <= b.origin && !(a.origin == b.origin && a.kind.Pubcomp? && b.kind.Pubrec?)
  }

  predicate UpOk(x: Ctx, up: seq<Ack>) {
    && (forall i {:trigger up[i]} :: 0 <= i < |up| ==> UpAckOk(x, up[i]))
    && (forall i, j :: 0 <= i < j < |up| ==> AckPrecedes(up[i], up[j]))
  }

  predicate Cross(x: Ctx, up: seq<Ack>, down: seq<Down>) {
    forall i, j :: 0 <= i < |up| && 0 <= j < |down| && up[i].id == down[j].id && Numbered(x, down[j]) ==>
      up[i].origin <= down[j].origin
  }

  predicate LinkOk(x: Ctx, up: seq<Ack>, down: seq<Down>) {
    CtxOk(x) && DownOk(x, down) && UpOk(x, up) && Cross(x, up, down)
  }

  // ----- The link -------------------------------------------------------------------------------

  lemma {:induction false} NothingOnLink(x: Ctx)
    requires CtxOk(x)
    ensures LinkOk(x, [], [])
  {
  }

  /** Nothing on the link belongs to a message newer than the one in flight under its id. */
  lemma {:induction false} NotNewer(x: Ctx, w: u16, p: Down)
    requires CtxOk(x) && w in x.inflight && p.id == w && PktOk(x, p) && Numbered(x, p)
    ensures p.origin <= x.inflight[w].u
  {
    assert FlightOk(x, w);
  }

  lemma {:induction false} AckNotNewer(x: Ctx, w: u16, a: Ack)
    requires CtxOk(x) && w in x.inflight && a.id == w && AckOk(x, a)
    ensures a.origin <= x.inflight[w].u
  {
    assert FlightOk(x, w);
  }

  /** The broker sends a packet of a message in flight. */
  lemma {:induction false} SendDown(x: Ctx, up: seq<Ack>, down: seq<Down>, p: Down)
    requires LinkOk(x, up, down) && PktOk(x, p)
    requires Numbered(x, p) ==> forall j :: 0 <= j < |down| && down[j].id == p.id && Numbered(x, down[j]) ==>
             Precedes(down[j], p)
    requires Numbered(x, p) ==> forall i :: 0 <= i < |up| && up[i].id == p.id ==> up[i].origin <= p.origin
    ensures LinkOk(x, up, down + [p])
  {
    hide CtxOk, PktOk, UpAckOk, AckPrecedes, Precedes;
    var d := down + [p];
    assert d[|down|] == p && forall j :: 0 <= j < |down| ==> d[j] == down[j];
  }

  lemma {:induction false} PopDown(x: Ctx, up: seq<Ack>, down: seq<Down>)
    requires LinkOk(x, up, down) && down != []
    ensures LinkOk(x, up, down[1..]) && PktOk(x, down[0])
    ensures Numbered(x, down[0]) ==>
              && (forall j :: 0 <= j < |down[1..]| && down[1..][j].id == down[0].id && Numbered(x, down[1..][j]) ==>
                  Precedes(down[0], down[1..][j]))
              && (forall i :: 0 <= i < |up| && up[i].id == down[0].id ==> up[i].origin <= down[0].origin)
  {
    hide CtxOk, PktOk, UpAckOk, AckPrecedes, Precedes;
    assert forall j :: 0 <= j < |down[1..]| ==> down[1..][j] == down[j + 1];
  }

  lemma {:induction false} SendUp(x: Ctx, up: seq<Ack>, down: seq<Down>, a: Ack)
    requires LinkOk(x, up, down) && UpAckOk(x, a)
    requires forall i :: 0 <= i < |up| ==> AckPrecedes(up[i], a)
    requires forall j :: 0 <= j < |down| && down[j].id == a.id && Numbered(x, down[j]) ==> a.origin <= down[j].origin
    ensures LinkOk(x, up + [a], down)
  {
    hide CtxOk, PktOk, UpAckOk, AckPrecedes, Precedes;
    var u := up + [a];
    assert u[|up|] == a && forall i :: 0 <= i < |up| ==> u[i] == up[i];
  }

  lemma {:induction false} PopUp(x: Ctx, up: seq<Ack>, down: seq<Down>)
    requires LinkOk(x, up, down) && up != []
    ensures LinkOk(x, up[1..], down) && UpAckOk(x, up[0])
    ensures forall i :: 0 <= i < |up[1..]| ==> AckPrecedes(up[0], up[1..][i])
    ensures forall j :: 0 <= j < |down| && down[j].id == up[0].id && Numbered(x, down[j]) ==>
            up[0].origin <= down[j].origin
  {
    hide CtxOk, PktOk, UpAckOk, AckPrecedes, Precedes;
    assert forall i :: 0 <= i < |up[1..]| ==> up[1..][i] == up[i + 1];
  }

  // ----- The broker -----------------------------------------------------------------------------

  function Grown(x: Ctx, id: u16, buf: seq<byte>): Ctx
    requires buf != []
  {
    x.(ids := x.ids + [id], lvl := x.lvl + [Level(buf)],
       inflight := if Level(buf) > 0 then x.inflight[id := Flight(|x.ids|, buf, false)] else x.inflight)
  }

  lemma {:induction false} GrownCtx(x: Ctx, id: u16, buf: seq<byte>)
    requires CtxOk(x) && buf != [] && !Dup(buf) && (Level(buf) > 0 ==> id !in x.inflight)
    ensures CtxOk(Grown(x, id, buf))
  {
    var y := Grown(x, id, buf);
    forall w | w in y.inflight ensures FlightOk(y, w) { if w in x.inflight { assert FlightOk(x, w); } }
    forall w | w in y.waiting ensures WaitOk(y, w) { assert WaitOk(x, w); }
  }

  lemma {:induction false} GrownPkt(x: Ctx, id: u16, buf: seq<byte>, p: Down)
    requires CtxOk(x) && buf != [] && (Level(buf) > 0 ==> id !in x.inflight) && PktOk(x, p)
    ensures PktOk(Grown(x, id, buf), p) && (Numbered(Grown(x, id, buf), p) <==> Numbered(x, p))
  {
  }

  lemma {:induction false} GrownAck(x: Ctx, id: u16, buf: seq<byte>, a: Ack)
    requires CtxOk(x) && buf != [] && (Level(buf) > 0 ==> id !in x.inflight)
    ensures AckOk(x, a) ==> AckOk(Grown(x, id, buf), a)
    ensures UpAckOk(x, a) ==> UpAckOk(Grown(x, id, buf), a)
  {
  }

  /** A new message is numbered; its id is free. */
  lemma {:induction false} GrownLink(x: Ctx, up: seq<Ack>, down: seq<Down>, id: u16, buf: seq<byte>)
    requires LinkOk(x, up, down) && buf != [] && !Dup(buf) && (Level(buf) > 0 ==> id !in x.inflight)
    ensures LinkOk(Grown(x, id, buf), up, down)
  {
    var y := Grown(x, id, buf);
    GrownCtx(x, id, buf);
    forall i | 0 <= i < |down|
      ensures PktOk(y, down[i]) && (Numbered(y, down[i]) <==> Numbered(x, down[i]))
    {
      GrownPkt(x, id, buf, down[i]);
    }
    forall i | 0 <= i < |up| ensures UpAckOk(y, up[i]) { GrownAck(x, id, buf, up[i]); }
  }

  /** ... and its first copy sent. */
  lemma {:induction false} FirstCopy(x: Ctx, up: seq<Ack>, down: seq<Down>, id: u16, buf: seq<byte>)
    requires LinkOk(x, up, down) && buf != [] && !Dup(buf) && (Level(buf) > 0 ==> id !in x.inflight)
    ensures LinkOk(Grown(x, id, buf), up, down + [Copy(id, buf, |x.ids|)])
  {
    var y, p := Grown(x, id, buf), Copy(id, buf, |x.ids|);
    assert id in x.waiting ==> WaitOk(x, id);
    GrownLink(x, up, down, id, buf);
    forall j | 0 <= j < |down| ensures down[j].origin < |x.ids| { assert PktOk(x, down[j]); }
    forall i | 0 <= i < |up| ensures up[i].origin < |x.ids| { assert UpAckOk(x, up[i]); }
    SendDown(y, up, down, p);
  }

  /** Another copy of an unacknowledged message, with DUP. */
  lemma {:induction false} NextCopy(x: Ctx, up: seq<Ack>, down: seq<Down>, w: u16, buf: seq<byte>)
    requires LinkOk(x, up, down) && w in x.inflight && !x.inflight[w].released
    requires buf != [] && Dup(buf) && Level(buf) == Level(x.inflight[w].buf)
    ensures LinkOk(x, up, down + [Copy(w, buf, x.inflight[w].u)])
  {
    var u := x.inflight[w].u;
    assert FlightOk(x, w);
    assert w in x.waiting ==> WaitOk(x, w);
    forall j | 0 <= j < |down| && down[j].id == w && Numbered(x, down[j]) ensures Precedes(down[j], Copy(w, buf, u)) {
      NotNewer(x, w, down[j]);
      assert PktOk(x, down[j]);
    }
    forall i | 0 <= i < |up| && up[i].id == w ensures up[i].origin <= u {
      assert UpAckOk(x, up[i]);
      AckNotNewer(x, w, up[i]);
    }
    SendDown(x, up, down, Copy(w, buf, u));
  }

  /** A release, sent or sent again. */
  lemma {:induction false} SendRelease(x: Ctx, up: seq<Ack>, down: seq<Down>, w: u16)
    requires LinkOk(x, up, down) && w in x.inflight && x.inflight[w].released
    ensures LinkOk(x, up, down + [Rel(w, x.inflight[w].u)])
  {
    var u := x.inflight[w].u;
    assert FlightOk(x, w);
    assert w in x.waiting ==> WaitOk(x, w);
    forall j | 0 <= j < |down| && down[j].id == w && Numbered(x, down[j])
      ensures Precedes(down[j], Rel(w, u))
    {
      NotNewer(x, w, down[j]);
    }
    forall i | 0 <= i < |up| && up[i].id == w ensures up[i].origin <= u { assert UpAckOk(x, up[i]); }
    SendDown(x, up, down, Rel(w, u));
  }

  function Marked(x: Ctx, w: u16): Ctx
    requires w in x.inflight
  {
    x.(inflight := x.inflight[w := x.inflight[w].(released := true)])
  }

  /** The broker reads a PUBREC: nothing older with its id is on the link any more. */
  lemma {:induction false} MarkedLink(x: Ctx, up: seq<Ack>, down: seq<Down>, a: Ack)
    requires LinkOk(x, up, down) && UpAckOk(x, a) && a.kind.Pubrec?
    requires forall i :: 0 <= i < |up| ==> AckPrecedes(a, up[i])
    requires forall j :: 0 <= j < |down| && down[j].id == a.id && Numbered(x, down[j]) ==> a.origin <= down[j].origin
    ensures LinkOk(Marked(x, a.id), up, down)
  {
    var y := Marked(x, a.id);
    MarkedCtx(x, a);
    hide CtxOk, Precedes;
    forall j | 0 <= j < |down| ensures PktOk(y, down[j]) && (Numbered(y, down[j]) <==> Numbered(x, down[j])) {
      MarkedPkt(x, a, down[j]);
    }
    forall i | 0 <= i < |up| ensures UpAckOk(y, up[i]) {
      assert UpAckOk(x, up[i]) && AckPrecedes(a, up[i]);
      if up[i].id == a.id { AckNotNewer(x, a.id, up[i]); }
    }
  }

  lemma {:induction false} MarkedCtx(x: Ctx, a: Ack)
    requires CtxOk(x) && UpAckOk(x, a) && a.kind.Pubrec?
    ensures CtxOk(Marked(x, a.id))
  {
    var y := Marked(x, a.id);
    forall w | w in y.inflight ensures FlightOk(y, w) { assert FlightOk(x, w); }
    forall w | w in y.waiting ensures WaitOk(y, w) { assert WaitOk(x, w); }
  }

  lemma {:induction false} MarkedPkt(x: Ctx, a: Ack, p: Down)
    requires CtxOk(x) && UpAckOk(x, a) && a.kind.Pubrec? && PktOk(x, p)
    requires p.id == a.id && Numbered(x, p) ==> a.origin <= p.origin
    ensures PktOk(Marked(x, a.id), p)
  {
    if p.id == a.id && Numbered(x, p) { NotNewer(x, a.id, p); }
  }

  function Freed(x: Ctx, w: u16): Ctx {
    x.(inflight := x.inflight - {w})
  }

  /** The message is finished: nothing on the link and nothing waiting depends on its being in flight. */
  predicate Freeable(x: Ctx, up: seq<Ack>, down: seq<Down>, w: u16) {
    && w !in x.waiting
    && (forall j {:trigger down[j]} :: 0 <= j < |down| ==> !NeedsFlight(x, down[j], w))
    && (forall i {:trigger up[i]} :: 0 <= i < |up| ==> !(up[i].id == w && up[i].kind.Pubrec?))
  }

  /** A copy of a QoS 2 message with this id. */
  predicate NeedsFlight(x: Ctx, p: Down, w: u16) {
    p.id == w && p.Copy? && p.origin < |x.lvl| && x.lvl[p.origin] == 2
  }

  lemma {:induction false} FreedLink(x: Ctx, up: seq<Ack>, down: seq<Down>, w: u16)
    requires LinkOk(x, up, down) && Freeable(x, up, down, w)
    ensures LinkOk(Freed(x, w), up, down)
  {
    var y := Freed(x, w);
    forall v | v in y.inflight ensures FlightOk(y, v) { assert FlightOk(x, v); }
    forall v | v in y.waiting ensures WaitOk(y, v) { assert WaitOk(x, v); }
    forall j | 0 <= j < |down|
      ensures PktOk(y, down[j]) && (Numbered(y, down[j]) <==> Numbered(x, down[j]))
    {
      assert PktOk(x, down[j]);
    }
    forall i | 0 <= i < |up| ensures UpAckOk(y, up[i]) { assert UpAckOk(x, up[i]); }
  }

  /** The broker reads a PUBCOMP for a message it has released. */
  lemma {:induction false} CompleteFrees(x: Ctx, up: seq<Ack>, down: seq<Down>, a: Ack)
    requires LinkOk(x, up, down) && UpAckOk(x, a) && a.kind.Pubcomp? && a.id in x.inflight && x.inflight[a.id].released
    requires x.released <= x.past && forall w :: w in x.waiting ==> x.waiting[w] !in x.released
    requires forall i :: 0 <= i < |up| ==> AckPrecedes(a, up[i])
    ensures Freeable(x, up, down, a.id)
  {
    assert a.id in x.waiting ==> WaitOk(x, a.id);
    forall j | 0 <= j < |down| ensures !NeedsFlight(x, down[j], a.id) { assert PktOk(x, down[j]); }
    forall i | 0 <= i < |up|
      ensures !(up[i].id == a.id && up[i].kind.Pubrec?)
    {
      assert UpAckOk(x, up[i]) && AckPrecedes(a, up[i]);
    }
  }

  /** The broker reads a PUBACK for a QoS 1 message. */
  lemma {:induction false} AckFrees(x: Ctx, up: seq<Ack>, down: seq<Down>, w: u16)
    requires LinkOk(x, up, down) && w in x.inflight && Level(x.inflight[w].buf) == 1
    requires FlightOk(x, w)
    ensures Freeable(x, up, down, w)
  {
    assert w in x.waiting ==> WaitOk(x, w);
    forall j | 0 <= j < |down| ensures !NeedsFlight(x, down[j], w) { assert PktOk(x, down[j]); }
    forall i | 0 <= i < |up| ensures !(up[i].id == w && up[i].kind.Pubrec?) { assert UpAckOk(x, up[i]); }
  }

  // ----- The client -----------------------------------------------------------------------------

  /** The client stores message u and, for QoS 2, waits for its release. */
  function StoredIn(x: Ctx, id: u16, u: nat): Ctx
    requires u < |x.lvl|
  {
    if x.lvl[u] == 2 then x.(held := x.held + {u}, waiting := x.waiting[id := u])
    else x.(held := x.held + {u}, past := x.past + {u}, released := x.released + {u})
  }

  lemma {:induction false} StoredLink(x: Ctx, up: seq<Ack>, down: seq<Down>, p: Down)
    requires LinkOk(x, up, down) && p.Copy? && PktOk(x, p) && Numbered(x, p)
    requires x.lvl[p.origin] == 2 ==> p.origin !in x.held
    requires forall j :: 0 <= j < |down| && down[j].id == p.id && Numbered(x, down[j]) ==> Precedes(p, down[j])
    ensures LinkOk(StoredIn(x, p.id, p.origin), up, down)
  {
    var y := StoredIn(x, p.id, p.origin);
    StoredCtx(x, p);
    forall j | 0 <= j < |down|
      ensures PktOk(y, down[j]) && (Numbered(y, down[j]) <==> Numbered(x, down[j]))
    {
      StoredPkt(x, p, down[j]);
    }
    forall i | 0 <= i < |up| ensures UpAckOk(y, up[i]) { StoredAck(x, p, up[i]); }
    hide CtxOk, PktOk, UpAckOk, Precedes, Numbered, StoredIn;
  }

  lemma {:induction false} StoredCtx(x: Ctx, p: Down)
    requires CtxOk(x) && p.Copy? && PktOk(x, p) && Numbered(x, p) && (x.lvl[p.origin] == 2 ==> p.origin !in x.held)
    ensures CtxOk(StoredIn(x, p.id, p.origin))
  {
    var y, two := StoredIn(x, p.id, p.origin), x.lvl[p.origin] == 2;
    forall w | w in y.inflight ensures FlightOk(y, w) { assert FlightOk(x, w); }
    forall w | w in y.waiting ensures WaitOk(y, w) { if !two || w != p.id { assert WaitOk(x, w); } }
  }

  lemma {:induction false} StoredPkt(x: Ctx, p: Down, q: Down)
    requires CtxOk(x) && p.Copy? && PktOk(x, p) && Numbered(x, p) && (x.lvl[p.origin] == 2 ==> p.origin !in x.held)
    requires PktOk(x, q) && (q.id == p.id && Numbered(x, q) ==> Precedes(p, q))
    ensures var y := StoredIn(x, p.id, p.origin); PktOk(y, q) && (Numbered(y, q) <==> Numbered(x, q))
  {
    if x.lvl[p.origin] == 2 && q.id == p.id && Numbered(x, q) { NotNewer(x, p.id, q); }
    hide CtxOk;
  }

  lemma {:induction false} StoredAck(x: Ctx, p: Down, a: Ack)
    requires p.Copy? && PktOk(x, p) && Numbered(x, p) && UpAckOk(x, a)
    ensures UpAckOk(StoredIn(x, p.id, p.origin), a)
  {
  }

  /** PUBREC or PUBACK for a message just stored. */
  lemma {:induction false} AcknowledgeLink(x: Ctx, up: seq<Ack>, down: seq<Down>, p: Down, kind: AckKind)
    requires LinkOk(x, up, down) && p.Copy? && PktOk(x, p) && Numbered(x, p) && x.released <= x.held
    requires x.lvl[p.origin] == 2 ==> p.origin !in x.held
    requires forall j :: 0 <= j < |down| && down[j].id == p.id && Numbered(x, down[j]) ==> Precedes(p, down[j])
    requires forall i :: 0 <= i < |up| && up[i].id == p.id ==> up[i].origin <= p.origin
    requires kind == if x.lvl[p.origin] == 2 then Pubrec else Puback
    ensures LinkOk(StoredIn(x, p.id, p.origin), up + [Ack(kind, p.id, p.origin)], down)
  {
    var y, a := StoredIn(x, p.id, p.origin), Ack(kind, p.id, p.origin);
    StoredLink(x, up, down, p);
    forall i | 0 <= i < |up| ensures AckPrecedes(up[i], a) { assert UpAckOk(x, up[i]); }
    assert p.id in x.inflight ==> FlightOk(x, p.id);
    SendUp(y, up, down, a);
  }

  /** The release of u is in the store, perhaps not yet in memory. */
  function PassedOn(x: Ctx, u: nat): Ctx {
    x.(past := x.past + {u})
  }

  lemma {:induction false} PassedLink(x: Ctx, up: seq<Ack>, down: seq<Down>, p: Down)
    requires LinkOk(x, up, down) && p.Rel? && PktOk(x, p) && Numbered(x, p)
    requires forall j :: 0 <= j < |down| && down[j].id == p.id && Numbered(x, down[j]) ==> Precedes(p, down[j])
    ensures LinkOk(PassedOn(x, p.origin), up, down)
  {
    var y := PassedOn(x, p.origin);
    forall w | w in y.inflight ensures FlightOk(y, w) { assert FlightOk(x, w); }
    forall w | w in y.waiting ensures WaitOk(y, w) { assert WaitOk(x, w); }
    forall j | 0 <= j < |down|
      ensures PktOk(y, down[j]) && (Numbered(y, down[j]) <==> Numbered(x, down[j]))
    {
      assert PktOk(x, down[j]);
    }
    forall i | 0 <= i < |up| ensures UpAckOk(y, up[i]) { assert UpAckOk(x, up[i]); }
  }

  /** u is released in memory and no longer waits; also what a reload does to messages whose release is
      in the store. */
  function Let(x: Ctx, ids: set<u16>, us: set<nat>): Ctx {
    x.(released := x.released + us, waiting := x.waiting - ids)
  }

  lemma {:induction false} LetLink(x: Ctx, up: seq<Ack>, down: seq<Down>, ids: set<u16>, us: set<nat>)
    requires LinkOk(x, up, down)
    ensures LinkOk(Let(x, ids, us), up, down)
  {
    var y := Let(x, ids, us);
    forall w | w in y.inflight ensures FlightOk(y, w) { assert FlightOk(x, w); }
    forall w | w in y.waiting ensures WaitOk(y, w) { assert WaitOk(x, w); }
    forall j | 0 <= j < |down|
      ensures PktOk(y, down[j]) && (Numbered(y, down[j]) <==> Numbered(x, down[j]))
    {
      assert PktOk(x, down[j]);
    }
    forall i | 0 <= i < |up| ensures UpAckOk(y, up[i]) { assert UpAckOk(x, up[i]); }
  }

  /** PUBCOMP for a message released. */
  lemma {:induction false} CompleteLink(x: Ctx, up: seq<Ack>, down: seq<Down>, p: Down)
    requires LinkOk(x, up, down) && p.Rel? && PktOk(x, p) && Numbered(x, p) && p.origin in x.released
    requires forall j :: 0 <= j < |down| && down[j].id == p.id && Numbered(x, down[j]) ==> Precedes(p, down[j])
    requires forall i :: 0 <= i < |up| && up[i].id == p.id ==> up[i].origin <= p.origin
    ensures LinkOk(x, up + [Ack(Pubcomp, p.id, p.origin)], down)
  {
    SendUp(x, up, down, Ack(Pubcomp, p.id, p.origin));
  }
}
