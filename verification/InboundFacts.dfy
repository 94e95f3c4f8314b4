/** What every inbound operation keeps: the queue, its index and its receive ids agree, what is
    offered is what an acknowledgement deletes, and acknowledgements follow the store. */
module InboundFacts {
  import opened Bytes
  import opened Wrappers
  import opened LengthCodec
  import opened Links
  import opened Framing
  import opened Inbound

  // ----- Decoding -------------------------------------------------------------------------------

  /** What mspTCPReadMsg leaves in the buffer for a PUBLISH is framed: one message and the spare byte. */
  lemma {:induction false} ReadIsFramed(s: seq<byte>, buf: seq<byte>)
    requires MessageSize(s).Some? && |buf| == MessageSize(s).value + 1
    requires |buf| < TWO31
    requires MessageSize(s).value <= |s| && buf[..|buf| - 1] == s[..|buf| - 1]
    ensures Framed(buf)
  {
    var k := MessageSize(s).value;
    var f := Field0(s[1..]).value;
    FieldInside(s[1..]);
    hide Field0;
    SamePart(s, buf, k, f.size);
    FieldPrefix(buf[1..][..f.size], buf[1..][f.size..]);
    assert buf[1..] == buf[1..][..f.size] + buf[1..][f.size..];
  }

  /** Buffers that agree up to k agree on the n bytes behind the first one. */
  lemma {:induction false} SamePart(s: seq<byte>, t: seq<byte>, k: nat, n: nat)
    requires 1 + n <= k <= |s| && k <= |t| && s[..k] == t[..k]
    ensures s[1..][..n] == t[1..][..n]
  {
    assert s[1..][..n] == s[..k][1..1 + n];
    assert t[1..][..n] == t[..k][1..1 + n];
  }

  /** The decoded publication with another flag byte, and nothing else changed. */
  function Reflagged(p: Option<Pub>, flag: byte): Option<Pub> {
    match p
    case None => None
    case Some(q) => Some(q.(flag := flag))
  }

  /** The flag byte lies outside the message, and memory behind the buffer does not matter. */
  lemma {:induction false} ParseFlag(buf: seq<byte>, flag: byte, beyond: byte, other: byte)
    requires Framed(buf)
    ensures Framed(SetFlag(buf, flag))
    ensures Parse(SetFlag(buf, flag), other) == Reflagged(Parse(buf, beyond), flag)
  {
    var b, f := SetFlag(buf, flag), Field0(buf[1..]).value;
    FramedField(buf, b, beyond);
    FramedField(buf, b, other);
    FramedParse(buf, beyond, f);
    FramedParse(b, other, f);
    hide Parse, Framed, Decode, Accepted, ParseBody, Field0;
    ParseBodyFlag(buf, flag, ParseHeader(buf[0]), 1 + f.size, f.length, beyond, other);
  }

  /** With the length field decoded, what is left is the variable header and the payload. */
  lemma {:induction false} FramedParse(buf: seq<byte>, beyond: byte, f: Field)
    requires buf != [] && Accepted(buf[1..], beyond) && Decode(buf[1..], beyond) == Some(Decoded(f.size, f.length))
    ensures Parse(buf, beyond) == ParseBody(buf, ParseHeader(buf[0]), 1 + f.size, f.length, beyond)
  {
    hide ParseBody, Decode, Accepted;
  }

  /** A change behind the length field's reach leaves the field. */
  lemma {:induction false} FramedField(buf: seq<byte>, b: seq<byte>, beyond: byte)
    requires Framed(buf) && |b| == |buf| && forall i :: 1 <= i < |buf| - 1 ==> b[i] == buf[i]
    ensures var f := Field0(buf[1..]).value;
      && Framed(b) && Accepted(buf[1..], beyond) && Accepted(b[1..], beyond) && f.size >= 1
      && Decode(buf[1..], beyond) == Some(Decoded(f.size, f.length))
        && Decode(b[1..], beyond) == Some(Decoded(f.size, f.length))
  {
    var f, s, t := Field0(buf[1..]).value, buf[1..], b[1..];
    FieldLocal(s, beyond);
    FieldInside(s);
    assert s[..f.size] == t[..f.size];
    assert s[..f.size] + s[f.size..] == s && t[..f.size] + t[f.size..] == t;
    FieldPrefix(s[..f.size], s[f.size..]);
    FieldPrefix(s[..f.size], t[f.size..]);
    FieldLocal(t, beyond);
  }

  lemma {:induction false} FieldInside(s: seq<byte>)
    requires Field0(s).Some?
    ensures 1 <= Field0(s).value.size <= |s| && Field0(s[..Field0(s).value.size]) == Field0(s)
    decreases |s|
  {
    if s[0] >= 128 {
      FieldInside(s[1..]);
      var n := Field0(s).value.size;
      assert s[..n][1..] == s[1..][..n - 1];
    }
  }

  lemma {:induction false} FieldPrefix(s: seq<byte>, rest: seq<byte>)
    ensures Field0(s).Some? ==> Field0(s + rest) == Field0(s)
    decreases |s|
  {
    if s != [] && s[0] >= 128 {
      FieldPrefix(s[1..], rest);
      assert (s + rest)[1..] == s[1..] + rest;
    }
  }

  /** A length that wrapped to a negative number passes the bound check of the length field, but not the
      checks behind it: the publication is refused. */
  lemma {:induction false} NegativeLengthRefused(buf: seq<byte>, beyond: byte)
    requires buf != [] && Accepted(buf[1..], beyond) && Decode(buf[1..], beyond).value.length < 0
    ensures Parse(buf, beyond).None?
  {
    var d := Decode(buf[1..], beyond).value;
    hide Decode, Accepted;
    assert ParseBody(buf, ParseHeader(buf[0]), 1 + d.size, d.length, beyond).None?;
  }

  lemma {:induction false} ParseBodyFlag(buf: seq<byte>, flag: byte, h: Header, pos: nat, length: nat, beyond: byte,
                                         other: byte)
    requires buf != [] && pos + length + 1 == |buf| && pos >= 1
    ensures ParseBody(SetFlag(buf, flag), h, pos, length, other)
            == Reflagged(ParseBody(buf, h, pos, length, beyond), flag)
  {
    var b := SetFlag(buf, flag);
    assert b[..|b| - 1] == buf[..|b| - 1];
    if length >= 2 {
      assert ByteAt(b, pos, other) == ByteAt(buf, pos, beyond)
        && ByteAt(b, pos + 1, other) == ByteAt(buf, pos + 1, beyond);
      SameSlices(buf, b, |buf| - 1);
    }
  }

  lemma {:induction false} SameSlices(a: seq<byte>, b: seq<byte>, n: nat)
    requires |a| == |b| && n <= |a| && a[..n] == b[..n]
    ensures forall i, j {:trigger a[i..j]} {:trigger b[i..j]} :: 0 <= i <= j <= n ==> a[i..j] == b[i..j]
  {
    forall i, j | 0 <= i <= j <= n ensures a[i..j] == b[i..j] {
      assert a[i..j] == a[..n][i..j] && b[i..j] == b[..n][i..j];
    }
  }

  /** A resent message: the same bytes with the DUP bit set. */
  function WithDupByte(buf: seq<byte>): seq<byte>
    requires buf != []
  {
    buf[0 := HeaderByte(ParseHeader(buf[0]).(dup := true))]
  }

  lemma {:induction false} ParseDup(buf: seq<byte>, beyond: byte)
    requires Framed(buf)
    ensures Framed(WithDupByte(buf))
    ensures Parse(WithDupByte(buf), beyond) ==
            match Parse(buf, beyond) case None => None case Some(p) => Some(p.(dup := true))
  {
    var b, h, f := WithDupByte(buf), ParseHeader(buf[0]), Field0(buf[1..]).value;
    assert b[1..] == buf[1..];
    HeaderRoundTrip(h.(dup := true), 0);
    FramedField(buf, b, beyond);
    ParseBodyDup(buf, b, h, 1 + f.size, f.length, beyond);
  }

  lemma {:induction false} ParseBodyDup(buf: seq<byte>, b: seq<byte>, h: Header, pos: nat, length: nat, beyond: byte)
    requires |buf| == |b| >= 2 && b[1..] == buf[1..] && pos >= 1
    ensures ParseBody(b, h.(dup := true), pos, length, beyond) ==
            match ParseBody(buf, h, pos, length, beyond) case None => None case Some(p) => Some(p.(dup := true))
  {
    assert forall i :: 1 <= i < |b| ==> b[i] == buf[1..][i - 1] && buf[i] == buf[1..][i - 1];
    forall i, j | 1 <= i <= j <= |b| ensures b[i..j] == buf[i..j] {
      assert b[i..j] == b[1..][i - 1..j - 1] && buf[i..j] == buf[1..][i - 1..j - 1];
    }
  }

  // ----- The invariant --------------------------------------------------------------------------

  /** Entries stand in the order of their arrival. */
  ghost predicate InOrder(q: seq<Rpq>, arrivals: nat) {
    && (forall i {:trigger q[i]} :: 0 <= i < |q| ==> q[i].uid < arrivals)
    && (forall i, j :: 0 <= i < j < |q| ==> q[i].uid < q[j].uid)
  }

  /** Every index value is an unreleased QoS 2 entry of the list with that wire id. */
  ghost predicate HashOk(q: seq<Rpq>, hash: map<u16, nat>) {
    forall w :: w in hash ==> HashedAt(q, w, hash[w])
  }

  ghost predicate HashedAt(q: seq<Rpq>, w: u16, uid: nat) {
    exists k :: 0 <= k < |q| && q[k].uid == uid && Indexed(q[k].pub) && q[k].pub.id == w
  }

  /** Flags are 0 or 1, and only QoS 2 publications wait. */
  predicate FlagOk(p: Pub) {
    p.flag <= RELEASED && (p.qos < 2 ==> p.flag == RELEASED)
  }

  predicate IdOk(attached: bool, next: nat, e: Rpq) {
    if attached && e.pub.qos > 0 then 0 < e.rcvId <= next else e.rcvId == 0
  }

  ghost predicate EntriesOk(q: seq<Rpq>, attached: bool, next: nat) {
    forall i {:trigger q[i]} :: 0 <= i < |q| ==> FlagOk(q[i].pub) && IdOk(attached, next, q[i])
  }

  /** Receive ids tell entries apart, except for the id 0 of entries that have none. */
  ghost predicate DistinctRcv(q: seq<Rpq>) {
    forall i, j :: 0 <= i < j < |q| && q[i].rcvId == q[j].rcvId ==> q[i].rcvId == 0
  }

  ghost predicate InInv(c: InConn) {
    InOrder(c.q, c.arrivals) && HashOk(c.q, c.hash) && EntriesOk(c.q, c.attached, c.nextRcvId) && DistinctRcv(c.q)
  }

  lemma {:induction false} HashedAppend(q: seq<Rpq>, e: Rpq, hash: map<u16, nat>)
    requires HashOk(q, hash)
    ensures HashOk(q + [e], hash)
    ensures Indexed(e.pub) ==> HashOk(q + [e], hash[e.pub.id := e.uid])
  {
    var r := q + [e];
    forall w | w in hash ensures HashedAt(r, w, hash[w]) {
      assert HashedAt(q, w, hash[w]);
      var k :| 0 <= k < |q| && q[k].uid == hash[w] && Indexed(q[k].pub) && q[k].pub.id == w;
      assert r[k] == q[k];
    }
    assert r[|q|] == e;
    if Indexed(e.pub) { assert HashedAt(r, e.pub.id, e.uid); }
  }

  /** A publication as decoded from a buffer whose flag byte was just set. */
  lemma {:induction false} ParsedFlag(buf: seq<byte>, beyond: byte)
    requires buf != []
    ensures Parse(buf, beyond).Some? ==>
              && Parse(buf, beyond).value.flag == buf[|buf| - 1]
              && Parse(buf, beyond).value.qos == QosLevel(ParseHeader(buf[0]))
  {
  }

  lemma {:induction false} FlaggedOk(buf: seq<byte>, beyond: byte)
    requires buf != [] && Parse(Flagged(buf), beyond).Some? && |buf| > 1
    ensures FlagOk(Parse(Flagged(buf), beyond).value)
    ensures var p := Parse(Flagged(buf), beyond).value; p.qos == 2 <==> Indexed(p)
  {
    ParsedFlag(Flagged(buf), beyond);
  }

  lemma {:induction false} RespondOnly(c: InConn, p: Pub, origin: nat, ok: bool)
    ensures var d := Respond(c, p, origin, ok); d == c.(sock := d.sock, acks := d.acks)
  {
  }

  lemma {:induction false} EnlistKeeps(c: InConn, e: Rpq, next: nat)
    requires InInv(c) && c.nextRcvId <= next && FlagOk(e.pub) && IdOk(c.attached, next, e) && e.uid == c.arrivals
    requires forall i :: 0 <= i < |c.q| && c.q[i].rcvId == e.rcvId ==> e.rcvId == 0
    ensures InInv(Enlist(c, e).(nextRcvId := next))
  {
    var d := Enlist(c, e).(nextRcvId := next);
    HashedAppend(c.q, e, c.hash);
    forall i | 0 <= i < |d.q|
      ensures FlagOk(d.q[i].pub) && IdOk(d.attached, d.nextRcvId, d.q[i]) && d.q[i].uid < d.arrivals
    {
      if i < |c.q| { assert d.q[i] == c.q[i]; }
    }
  }

  lemma {:induction false} TakeKeeps(c: InConn, bytes: seq<byte>, p: Pub, origin: nat, add: bool, ok: bool)
    requires InInv(c) && c.nextRcvId < MAX_RCVID && FlagOk(p)
    ensures InInv(Take(c, bytes, p, origin, add, ok))
  {
    var e := NewEntry(c, p, origin);
    var next := if Persisted(c, p) then e.rcvId else c.nextRcvId;
    assert forall i :: 0 <= i < |c.q| ==> IdOk(c.attached, c.nextRcvId, c.q[i]);
    EnlistKeeps(c, e, next);
    if Persisted(c, p) && !add {
      var d := Take(c, bytes, p, origin, add, ok);
      assert forall w :: w in d.hash ==> w in c.hash && d.hash[w] == c.hash[w];
    } else {
      var c1 := Enlist(c, e).(nextRcvId := next, rcvd := Take(c, bytes, p, origin, add, ok).rcvd);
      RespondOnly(c1, p, origin, ok);
    }
  }

  /** A received PUBLISH keeps the invariant, whatever it says and whatever the store answers. */
  lemma {:induction false} PublishKeeps(c: InConn, buf: seq<byte>, beyond: byte, origin: nat, add: bool, ok: bool)
    requires InInv(c) && |buf| > 1 && c.nextRcvId < MAX_RCVID
    ensures InInv(OnPublish(c, buf, beyond, origin, add, ok))
  {
    hide Parse, InInv, Take;
    if Parse(Flagged(buf), beyond).Some? {
      FlaggedOk(buf, beyond);
      TakeKeeps(c, Flagged(buf), Parse(Flagged(buf), beyond).value, origin, add, ok);
    }
  }

  /** The entry an index value stands for. */
  lemma {:induction false} HashPlace(c: InConn, w: u16) returns (k: nat)
    requires InInv(c) && w in c.hash
    ensures k == PlaceOf(c.q, c.hash[w], 0) && k < |c.q| && c.q[k].uid == c.hash[w] && Indexed(c.q[k].pub)
            && c.q[k].pub.id == w
  {
    assert HashedAt(c.q, w, c.hash[w]);
    k :| 0 <= k < |c.q| && c.q[k].uid == c.hash[w] && Indexed(c.q[k].pub) && c.q[k].pub.id == w;
    PlaceUnique(c.q, c.arrivals, k);
  }

  lemma {:induction false} PlaceUnique(q: seq<Rpq>, arrivals: nat, k: nat)
    requires InOrder(q, arrivals) && k < |q|
    ensures PlaceOf(q, q[k].uid, 0) == k
  {
  }

  /** Two wire ids never share an entry. */
  lemma {:induction false} HashApart(c: InConn, v: u16, w: u16)
    requires InInv(c) && v in c.hash && w in c.hash && c.hash[v] == c.hash[w]
    ensures v == w
  {
    var j := HashPlace(c, v);
    var k := HashPlace(c, w);
  }

  /** The entry that wire id `id` indexes is released. */
  function Release(c: InConn, id: u16, k: nat): InConn
    requires k < |c.q|
  {
    c.(q := c.q[k := WithFlag(c.q[k], RELEASED)], hash := c.hash - {id})
  }

  lemma {:induction false} ReleaseKeeps(c: InConn, id: u16)
    requires InInv(c) && id in c.hash
    ensures PlaceOf(c.q, c.hash[id], 0) < |c.q| && InInv(Release(c, id, PlaceOf(c.q, c.hash[id], 0)))
  {
    var k := HashPlace(c, id);
    var d := Release(c, id, k);
    forall i | 0 <= i < |d.q| ensures FlagOk(d.q[i].pub) && IdOk(d.attached, d.nextRcvId, d.q[i])
      && d.q[i].uid == c.q[i].uid && d.q[i].rcvId == c.q[i].rcvId {
      assert FlagOk(c.q[i].pub) && IdOk(c.attached, c.nextRcvId, c.q[i]);
    }
    forall w | w in d.hash ensures HashedAt(d.q, w, d.hash[w]) {
      var j := HashPlace(c, w);
      if j == k { HashApart(c, w, id); }
      assert d.q[j] == c.q[j];
    }
  }

  /** A received PUBREL keeps the invariant. */
  lemma {:induction false} PubrelKeeps(c: InConn, id: u16, origin: nat, upd: UpdResult, ok: bool)
    requires InInv(c)
    ensures InInv(OnPubrel(c, id, origin, upd, ok))
  {
    hide HashOk, EntriesOk, InOrder, DistinctRcv, PlaceOf;
    if id in c.hash { ReleaseKeeps(c, id); }
  }

  lemma {:induction false} DropKeeps(q: seq<Rpq>, k: nat, arrivals: nat, attached: bool, next: nat)
    requires k < |q| && InOrder(q, arrivals) && EntriesOk(q, attached, next) && DistinctRcv(q)
    ensures InOrder(Drop(q, k), arrivals) && EntriesOk(Drop(q, k), attached, next) && DistinctRcv(Drop(q, k))
  {
    hide FlagOk, IdOk;
    assert forall i :: 0 <= i < |Drop(q, k)| ==> Drop(q, k)[i] == q[if i < k then i else i + 1];
  }

  lemma {:induction false} DropHashed(q: seq<Rpq>, hash: map<u16, nat>, k: nat)
    requires HashOk(q, hash) && k < |q| && q[k].pub.flag != 0
    ensures HashOk(Drop(q, k), hash)
  {
    forall w | w in hash ensures HashedAt(Drop(q, k), w, hash[w]) {
      assert HashedAt(q, w, hash[w]);
      var j :| 0 <= j < |q| && q[j].uid == hash[w] && Indexed(q[j].pub) && q[j].pub.id == w;
      assert Drop(q, k)[if j < k then j else j - 1] == q[j];
    }
  }

  /** Deleting a released entry keeps the invariant. */
  lemma {:induction false} AcceptKeeps(c: InConn, rcvId: nat, del: bool)
    requires InInv(c)
    requires var k := FirstRcv(c.q, rcvId, 0); k < |c.q| ==> c.q[k].pub.flag != 0
    ensures InInv(Accept(c, rcvId, del))
  {
    hide InOrder, EntriesOk, DistinctRcv, HashOk;
    var k := FirstRcv(c.q, rcvId, 0);
    if k < |c.q| {
      DropKeeps(c.q, k, c.arrivals, c.attached, c.nextRcvId);
      DropHashed(c.q, c.hash, k);
    }
  }

  predicate Unhashed(c: InConn, k: nat)
    requires k < |c.q|
  {
    forall w :: w in c.hash ==> c.hash[w] != c.q[k].uid
  }

  /** The index leads to no entry that is released. */
  lemma {:induction false} ReleasedUnhashed(c: InConn, k: nat)
    requires InInv(c) && k < |c.q| && c.q[k].pub.flag != 0
    ensures Unhashed(c, k)
  {
    hide EntriesOk, DistinctRcv;
    forall w | w in c.hash ensures c.hash[w] != c.q[k].uid { assert HashedAt(c.q, w, c.hash[w]); }
  }

  /** Deleting any entry keeps the invariant exactly if the index does not lead to it; otherwise the index
      is left with an entry that is gone. */
  lemma {:induction false} AcceptKeepsIff(c: InConn, rcvId: nat, del: bool)
    requires InInv(c) && FirstRcv(c.q, rcvId, 0) < |c.q|
    ensures InInv(Accept(c, rcvId, del)) <==> Unhashed(c, FirstRcv(c.q, rcvId, 0))
  {
    hide EntriesOk, DistinctRcv;
    var k := FirstRcv(c.q, rcvId, 0);
    DropKeeps(c.q, k, c.arrivals, c.attached, c.nextRcvId);
    DropUnhashed(c.q, c.hash, k, c.arrivals);
  }

  lemma {:induction false} DropUnhashed(q: seq<Rpq>, hash: map<u16, nat>, k: nat, arrivals: nat)
    requires HashOk(q, hash) && k < |q| && InOrder(q, arrivals)
    ensures HashOk(Drop(q, k), hash) <==> forall w :: w in hash ==> hash[w] != q[k].uid
  {
    assert forall i :: 0 <= i < |Drop(q, k)| ==> Drop(q, k)[i] == q[if i < k then i else i + 1];
    forall w | w in hash ensures HashedAt(Drop(q, k), w, hash[w]) <==> hash[w] != q[k].uid {
      assert HashedAt(q, w, hash[w]);
      var j :| 0 <= j < |q| && q[j].uid == hash[w] && Indexed(q[j].pub) && q[j].pub.id == w;
      if j != k { assert Drop(q, k)[if j < k then j else j - 1] == q[j]; }
    }
  }

  // ----- What is offered and what is deleted ----------------------------------------------------

  lemma {:induction false} ReadyAppend(q: seq<Rpq>, e: Rpq)
    ensures Ready(q + [e]) == Ready(q) + (if e.pub.flag == RELEASED then 1 else 0)
  {
    assert (q + [e])[..|q|] == q;
  }

  lemma {:induction false} ReadyConcat(a: seq<Rpq>, b: seq<Rpq>)
    ensures Ready(a + b) == Ready(a) + Ready(b)
  {
    if b == [] {
      assert a + b == a;
    } else {
      assert (a + b)[..|a + b| - 1] == a + b[..|b| - 1];
      ReadyConcat(a, b[..|b| - 1]);
    }
  }

  lemma {:induction false} ReadyOne(e: Rpq)
    ensures Ready([e]) == if e.pub.flag == RELEASED then 1 else 0
  {
    assert [e][..0] == [];
  }

  lemma {:induction false} ReadyDrop(q: seq<Rpq>, k: nat)
    requires k < |q|
    ensures Ready(q) == Ready(Drop(q, k)) + (if q[k].pub.flag == RELEASED then 1 else 0)
  {
    ReadyConcat(q[..k], q[k + 1..]);
    ReadyConcat(q[..k], [q[k]]);
    ReadyConcat(q[..k] + [q[k]], q[k + 1..]);
    ReadyOne(q[k]);
    assert q == q[..k] + [q[k]] + q[k + 1..];
  }

  lemma {:induction false} ReadyUpdate(q: seq<Rpq>, k: nat, e: Rpq)
    requires k < |q|
    ensures Ready(q[k := e]) == Ready(q) - Ready([q[k]]) + Ready([e])
  {
    ReadyDrop(q, k);
    ReadyDrop(q[k := e], k);
    ReadyOne(q[k]);
    ReadyOne(e);
    assert Drop(q[k := e], k) == Drop(q, k);
  }

  lemma {:induction false} ReadyPositive(q: seq<Rpq>)
    ensures Ready(q) > 0 <==> exists i :: 0 <= i < |q| && q[i].pub.flag == RELEASED
  {
    if q != [] {
      var f := q[..|q| - 1];
      ReadyPositive(f);
      if i :| 0 <= i < |f| && f[i].pub.flag == RELEASED { assert q[i].pub.flag == RELEASED; }
      if i :| 0 <= i < |q| && q[i].pub.flag == RELEASED && i < |f| { assert f[i].pub.flag == RELEASED; }
    }
  }

  /** A receive request is answered with a publication exactly if one is ready: the first one. It is
      told that there are more exactly if another one is ready. */
  lemma {:induction false} OfferIsFirstReady(c: InConn)
    requires InInv(c)
    ensures OfferOf(c.q).NoPubs? <==> Ready(c.q) == 0
    ensures var k := FirstReady(c.q, 0); k < |c.q| ==>
              && OfferOf(c.q) == Offered(c.q[k].rcvId, c.q[k].pub, Ready(c.q) > 1) && c.q[k].pub.flag == RELEASED
              && (Ready(c.q) > 1 <==> exists j :: 0 <= j < |c.q| && j != k && c.q[j].pub.flag == RELEASED)
  {
    hide Ready;
    var k := FirstReady(c.q, 0);
    NoneReady(c);
    if k < |c.q| {
      assert FlagOk(c.q[k].pub);
      ReadyDrop(c.q, k);
      AnotherReady(c.q, k);
    }
  }

  lemma {:induction false} NoneReady(c: InConn)
    requires InInv(c)
    ensures FirstReady(c.q, 0) == |c.q| <==> Ready(c.q) == 0
  {
    hide Ready;
    var k := FirstReady(c.q, 0);
    ReadyPositive(c.q);
    if k < |c.q| { assert FlagOk(c.q[k].pub); }
  }

  lemma {:induction false} AnotherReady(q: seq<Rpq>, k: nat)
    requires k < |q|
    ensures Ready(Drop(q, k)) > 0 <==> exists j :: 0 <= j < |q| && j != k && q[j].pub.flag == RELEASED
  {
    hide Ready;
    var d := Drop(q, k);
    ReadyPositive(d);
    if j :| 0 <= j < |q| && j != k && q[j].pub.flag == RELEASED {
      assert d[if j < k then j else j - 1] == q[j];
    }
    if i :| 0 <= i < |d| && d[i].pub.flag == RELEASED {
      assert d[i] == q[if i < k then i else i + 1];
    }
  }

  /** The entry found by the offered receive id is the offered entry, exactly if a store is attached or
      the offered entry heads the queue: without a store all receive ids are 0, and the deletion takes
      the head of the queue, ready or not. */
  lemma {:induction false} OfferedIsFoundIff(c: InConn)
    requires InInv(c) && FirstReady(c.q, 0) < |c.q|
    ensures var k := FirstReady(c.q, 0);
      FirstRcv(c.q, c.q[k].rcvId, 0) == k <==> c.attached || c.q[0].pub.flag != 0
  {
    var k := FirstReady(c.q, 0);
    var r := FirstRcv(c.q, c.q[k].rcvId, 0);
    assert r <= k;
    assert FlagOk(c.q[r].pub) && IdOk(c.attached, c.nextRcvId, c.q[r]);
    assert FlagOk(c.q[k].pub) && IdOk(c.attached, c.nextRcvId, c.q[k]);
    if !c.attached {
      assert IdOk(c.attached, c.nextRcvId, c.q[0]);
    }
  }

  /** What receiving can do to the queue: it raises flags and appends. */
  ghost predicate Grows(q: seq<Rpq>, r: seq<Rpq>) {
    |q| <= |r| && forall i {:trigger r[i]} {:trigger q[i]} :: 0 <= i < |q| ==>
      r[i] == q[i] || r[i] == WithFlag(q[i], RELEASED)
  }

  /** A message from the broker. */
  datatype InEvent =
    | PublishIn(buf: seq<byte>, origin: nat, add: bool, ok: bool)
    | PubrelIn(id: u16, origin: nat, upd: UpdResult, ok: bool)
    | OtherIn

  function Receive(c: InConn, e: InEvent): InConn
    requires e.PublishIn? ==> e.buf != []
  {
    match e
    case PublishIn(buf, origin, add, ok) => OnPublish(c, buf, 0, origin, add, ok)
    case PubrelIn(id, origin, upd, ok) => OnPubrel(c, id, origin, upd, ok)
    case OtherIn => c
  }

  function ReceiveAll(c: InConn, es: seq<InEvent>): InConn
    requires forall i :: 0 <= i < |es| && es[i].PublishIn? ==> es[i].buf != []
    decreases |es|
  {
    if es == [] then c else ReceiveAll(Receive(c, es[0]), es[1..])
  }

  lemma {:induction false} ReceiveGrows(c: InConn, e: InEvent)
    requires e.PublishIn? ==> e.buf != []
    ensures Grows(c.q, Receive(c, e).q) && Receive(c, e).attached == c.attached
  {
    hide Parse, OnPublish, OnPubrel;
    match e
    case PublishIn(buf, origin, add, ok) => PublishGrows(c, buf, origin, add, ok);
    case PubrelIn(id, origin, upd, ok) => PubrelGrows(c, id, origin, upd, ok);
    case OtherIn =>
  }

  lemma {:induction false} PublishGrows(c: InConn, buf: seq<byte>, origin: nat, add: bool, ok: bool)
    requires buf != []
    ensures var d := OnPublish(c, buf, 0, origin, add, ok); Grows(c.q, d.q) && d.attached == c.attached
  {
    hide Parse, IsDuplicate;
  }

  lemma {:induction false} PubrelGrows(c: InConn, id: u16, origin: nat, upd: UpdResult, ok: bool)
    ensures var d := OnPubrel(c, id, origin, upd, ok); Grows(c.q, d.q) && d.attached == c.attached
  {
    hide PlaceOf, SetReleased;
  }

  lemma {:induction false} ReceiveAllGrows(c: InConn, es: seq<InEvent>)
    requires forall i :: 0 <= i < |es| && es[i].PublishIn? ==> es[i].buf != []
    ensures Grows(c.q, ReceiveAll(c, es).q) && ReceiveAll(c, es).attached == c.attached
    decreases |es|
  {
    hide Receive;
    if es != [] {
      ReceiveGrows(c, es[0]);
      ReceiveAllGrows(Receive(c, es[0]), es[1..]);
    }
  }

  /** Accept deletes exactly what was offered: with a store attached, whatever arrives between the offer
      and the acknowledgement, the entry deleted is the offered one and no other entry goes. */
  lemma {:induction false} AcceptDeletesOffered(c: InConn, es: seq<InEvent>, del: bool)
    requires InInv(c) && c.attached && FirstReady(c.q, 0) < |c.q|
    requires forall i :: 0 <= i < |es| && es[i].PublishIn? ==> es[i].buf != []
    ensures var k := FirstReady(c.q, 0);
      var d := ReceiveAll(c, es);
      && k < |d.q| && d.q[k] == c.q[k]
      && Accept(d, c.q[k].rcvId, del).q == d.q[..k] + d.q[k + 1..]
      && Accept(d, c.q[k].rcvId, del).rcvd
         == if c.q[k].pub.qos > 0 && del then d.rcvd - {c.q[k].rcvId} else d.rcvd
  {
    hide ReceiveAll;
    var k, d := FirstReady(c.q, 0), ReceiveAll(c, es);
    OfferedIsFoundIff(c);
    ReceiveAllGrows(c, es);
    assert FlagOk(c.q[k].pub);
    assert d.q[k] == c.q[k];
    assert forall i :: 0 <= i < k ==> d.q[i].rcvId == c.q[i].rcvId;
    assert FirstRcv(d.q, c.q[k].rcvId, 0) == k;
  }

  // ----- Acknowledgements follow the store ------------------------------------------------------

  /** PUBREC and PUBACK are sent only for a message that the store, if there is one, has taken. */
  lemma {:induction false} AckAfterAdd(c: InConn, buf: seq<byte>, beyond: byte, origin: nat, add: bool, ok: bool)
    requires buf != []
    ensures var d := OnPublish(c, buf, beyond, origin, add, ok);
      d.acks != c.acks ==>
        && d.acks == c.acks + [d.acks[|c.acks|]] && !d.acks[|c.acks|].kind.Pubcomp?
        && |d.q| == |c.q| + 1
        && (c.attached ==> add && d.rcvd == c.rcvd[d.q[|c.q|].rcvId := Received(Flagged(buf), origin)])
  {
    hide Parse;
  }

  /** PUBCOMP is sent only if nothing waited under the id, or it is released now, in the store too. */
  lemma {:induction false} AckAfterUpdate(c: InConn, id: u16, origin: nat, upd: UpdResult, ok: bool)
    requires InInv(c)
    ensures var d := OnPubrel(c, id, origin, upd, ok);
      d.acks != c.acks ==>
        && d.acks == c.acks + [Ack(Pubcomp, id, origin)]
        && (id in c.hash ==>
              var k := PlaceOf(c.q, c.hash[id], 0);
              && k < |c.q| && d.q == c.q[k := WithFlag(c.q[k], RELEASED)] && id !in d.hash
              && (c.attached ==> upd.Set? && d.rcvd == SetReleased(c.rcvd, c.q[k].rcvId, Set)))
  {
    if id in c.hash {
      var k := HashPlace(c, id);
    }
  }

  // ----- Receive ids ----------------------------------------------------------------------------

  function RcvAfter(id: nat, n: nat): nat {
    if n == 0 then id else NextRcvId(RcvAfter(id, n - 1))
  }

  /** Receive ids run through 1 to the largest 32-bit number and start over. */
  lemma {:induction false} RcvAfterClosed(n: nat)
    ensures RcvAfter(0, n) == if n == 0 then 0 else (n - 1) % 0xFFFF_FFFF + 1
  {
    if n > 1 {
      RcvAfterClosed(n - 1);
      RcvSuccessor(n - 2);
    } else if n == 1 {
      assert RcvAfter(0, 0) == 0;
    }
  }

  lemma {:induction false} RcvSuccessor(a: nat)
    ensures (a + 1) % MAX_RCVID == if a % MAX_RCVID == MAX_RCVID - 1 then 0 else a % MAX_RCVID + 1
  {
  }

  // ----- Which PUBLISH is answered, and how -----------------------------------------------------

  /** The QoS of a PUBLISH in its first byte: 2 if bit 2 is set, otherwise 1 if bit 1 is. */
  function WireQos(first: byte): nat {
    if first / 4 % 2 == 1 then 2 else if first / 2 % 2 == 1 then 1 else 0
  }

  /** Where a message id would stand: behind the type byte, n bytes of length field and the topic. */
  function IdPlace(buf: seq<byte>, n: nat): nat
    requires 2 + n < |buf|
  {
    3 + n + 256 * buf[1 + n] as nat + buf[2 + n] as nat
  }

  /** What a decoded publication is, byte by byte. */
  lemma {:induction false} DecodedAs(buf: seq<byte>, beyond: byte)
    requires buf != [] && Parse(buf, beyond).Some?
    ensures Decode(buf[1..], beyond).Some?
    ensures var p, n := Parse(buf, beyond).value, Decode(buf[1..], beyond).value.size;
      && p.qos == WireQos(buf[0]) && p.dup == (buf[0] / 8 % 2 == 1) && p.retain == (buf[0] % 2 == 1)
      && 2 + n < |buf| && IdPlace(buf, n) <= |buf|
      && p.topic == buf[3 + n..IdPlace(buf, n)] && p.flag == buf[|buf| - 1]
      && (p.qos > 0 ==>
            var at := IdPlace(buf, n); at + 2 <= |buf| && p.id == 256 * buf[at] as int + buf[at + 1] as int)
  {
    hide Decode;
    QosBits(buf[0]);
    var n := Decode(buf[1..], beyond).value.size;
    assert 2 + n < |buf|;
    assert ByteAt(buf, 1 + n, beyond) == buf[1 + n] && ByteAt(buf, 2 + n, beyond) == buf[2 + n];
  }

  lemma {:induction false} QosBits(b: byte)
    ensures QosLevel(ParseHeader(b)) == WireQos(b)
  {
    TwoBits(b);
  }

  /** The bytes of a received PUBLISH with its flag: 0 while it waits for a release, which is for QoS 2. */
  function WithArrivalFlag(buf: seq<byte>): seq<byte>
    requires buf != []
  {
    buf[|buf| - 1 := if WireQos(buf[0]) == 2 then 0 else 1]
  }

  /** A resent QoS 2 copy of a message whose id the index has. */
  predicate WaitsAlready(c: InConn, first: byte, id: u16) {
    WireQos(first) == 2 && first / 8 % 2 == 1 && id in c.hash
  }

  /** Every received PUBLISH is answered as it must be: one that decodes, has QoS 1 or 2, is no copy of a
      waiting message and is taken by the store, if there is one, gets exactly one acknowledgement if the
      socket takes it, PUBACK for QoS 1 and PUBREC for QoS 2, with the id in its bytes; no other PUBLISH gets
      any. */
  lemma {:induction false} PublishAnswered(c: InConn, buf: seq<byte>, beyond: byte, origin: nat, add: bool, ok: bool)
    requires buf != []
    ensures var d, b := OnPublish(c, buf, beyond, origin, add, ok), WithArrivalFlag(buf);
      if Parse(b, beyond).None? || WireQos(buf[0]) == 0 || (c.attached && !add) then
        d.acks == c.acks && d.sock == c.sock
      else
        && Decode(b[1..], beyond).Some?
        && var n := Decode(b[1..], beyond).value.size;
           && 2 + n < |b| && IdPlace(b, n) + 2 <= |b|
           && var id := 256 * b[IdPlace(b, n)] as int + b[IdPlace(b, n) + 1] as int;
              && d.sock == (c.sock && (ok || WaitsAlready(c, buf[0], id)))
              && d.acks == c.acks + if !WaitsAlready(c, buf[0], id) && c.sock && ok
                                 then [Ack(if WireQos(buf[0]) == 2 then Pubrec else Puback, id, origin)] else []
  {
    var b := WithArrivalFlag(buf);
    QosBits(buf[0]);
    assert c.acks + [] == c.acks;
    assert b == Flagged(buf);
    if Parse(b, beyond).Some? {
      DecodedAs(b, beyond);
      assert b[0] == buf[0];
      var p, n := Parse(b, beyond).value, Decode(b[1..], beyond).value.size;
      hide Parse, Decode, WireQos, OnPublish, IdPlace, Flagged;
      assert b[|b| - 1] == if WireQos(buf[0]) == 2 then 0 else 1;
      TakeAnswered(c, b, p, origin, add, ok);
      OnPublishIs(c, buf, beyond, origin, add, ok);
    }
  }

  lemma {:induction false} OnPublishIs(c: InConn, buf: seq<byte>, beyond: byte, origin: nat, add: bool, ok: bool)
    requires buf != [] && Parse(Flagged(buf), beyond).Some?
    ensures var p := Parse(Flagged(buf), beyond).value;
      OnPublish(c, buf, beyond, origin, add, ok) ==
      if p.qos == 2 && p.flag == 0 && p.dup && p.id in c.hash then c else Take(c, Flagged(buf), p, origin, add, ok)
  {
    hide Parse, Take;
  }

  lemma {:induction false} TakeAnswered(c: InConn, b: seq<byte>, p: Pub, origin: nat, add: bool, ok: bool)
    requires p.qos <= 2
    ensures Take(c, b, p, origin, add, ok).sock == (c.sock && (ok || p.qos == 0 || (c.attached && !add)))
    ensures Take(c, b, p, origin, add, ok).acks ==
            c.acks + if p.qos > 0 && (c.attached ==> add) && c.sock && ok
                     then [Ack(if p.qos == 2 then Pubrec else Puback, p.id, origin)] else []
  {
  }

  /** Every received PUBREL gets exactly one PUBCOMP with its id if the socket takes it, unless a publication
      waits under the id and the store could not be told that it is released. */
  lemma {:induction false} PubrelAnswered(c: InConn, id: u16, origin: nat, upd: UpdResult, ok: bool)
    requires InInv(c)
    ensures OnPubrel(c, id, origin, upd, ok).acks ==
            c.acks + if c.sock && ok && !(id in c.hash && c.attached && !upd.Set?) then [Ack(Pubcomp, id, origin)]
              else []
  {
    if id in c.hash { var k := HashPlace(c, id); }
  }
}
