/** The inbound half of a connection handle as the library keeps it: a linked queue of received
    publications with a tail pointer and counters, a hash index of the unreleased QoS 2 ones, the store
    and the socket. Every method computes the function of the same purpose in `Inbound`. */
module InboundEngine {
  import opened Bytes
  import opened Wrappers
  import opened Links
  import opened HashTables
  import opened Inbound
  import opened InboundFacts

  type RNode = Node<Rpq>

  // ----- The index, on values -------------------------------------------------------------------

  /** The index maps wire id w to the node of the entry with this uid, which waits under w. */
  ghost predicate PointsAt(model: map<short, RNode>, nodes: seq<RNode>, q: seq<Rpq>, w: u16, uid: nat)
    requires |nodes| == |q|
  {
    var k := PlaceOf(q, uid, 0);
    k < |q| && ToShort(w) in model && model[ToShort(w)] == nodes[k] && Indexed(q[k].pub) && q[k].pub.id == w
  }

  ghost predicate Points(model: map<short, RNode>, nodes: seq<RNode>, q: seq<Rpq>, hash: map<u16, nat>) {
    && |nodes| == |q|
    && (forall w: u16 :: ToShort(w) in model ==> w in hash)
    && (forall w :: w in hash ==> PointsAt(model, nodes, q, w, hash[w]))
  }

  lemma {:induction false} PlaceAppend(q: seq<Rpq>, e: Rpq, uid: nat, i: nat)
    requires i <= |q| && PlaceOf(q, uid, i) < |q|
    ensures PlaceOf(q + [e], uid, i) == PlaceOf(q, uid, i)
    decreases |q| - i
  {
    assert (q + [e])[i] == q[i];
    if q[i].uid != uid { PlaceAppend(q, e, uid, i + 1); }
  }

  lemma {:induction false} PointsAppend(model: map<short, RNode>, nodes: seq<RNode>, q: seq<Rpq>, hash: map<u16, nat>,
                                        n: RNode, e: Rpq)
    requires Points(model, nodes, q, hash)
    ensures Points(model, nodes + [n], q + [e], hash)
  {
    hide PlaceOf, Indexed;
    forall w | w in hash ensures PointsAt(model, nodes + [n], q + [e], w, hash[w]) {
      assert PointsAt(model, nodes, q, w, hash[w]);
      PlaceAppend(q, e, hash[w], 0);
    }
  }

  /** The last entry is indexed. */
  lemma {:induction false} PointsAdd(model: map<short, RNode>, nodes: seq<RNode>, q: seq<Rpq>, hash: map<u16, nat>,
                                     arrivals: nat)
    requires Points(model, nodes, q, hash) && q != [] && InOrder(q, arrivals) && Indexed(q[|q| - 1].pub)
    ensures var e := q[|q| - 1]; Points(With(model, ToShort(e.pub.id), nodes[|q| - 1]), nodes, q,
            hash[e.pub.id := e.uid])
  {
    hide PlaceOf, Indexed;
    var e := q[|q| - 1];
    var m1 := With(model, ToShort(e.pub.id), nodes[|q| - 1]);
    PlaceUnique(q, arrivals, |q| - 1);
    forall w: u16
      ensures (ToShort(w) in m1 ==> w in hash[e.pub.id := e.uid]) && (ToShort(w) == ToShort(e.pub.id) ==> w == e.pub.id)
    {
      ToShortInjective(w, e.pub.id);
    }
    forall w | w in hash && w != e.pub.id ensures PointsAt(m1, nodes, q, w, hash[w]) {
      assert PointsAt(model, nodes, q, w, hash[w]);
    }
  }

  lemma {:induction false} PointsDel(model: map<short, RNode>, nodes: seq<RNode>, q: seq<Rpq>, hash: map<u16, nat>,
                                     id: u16)
    requires Points(model, nodes, q, hash)
    ensures Points(model - {ToShort(id)}, nodes, q, hash - {id})
  {
    hide PlaceOf, Indexed;
    var m1 := model - {ToShort(id)};
    forall w: u16 ensures ToShort(w) == ToShort(id) ==> w == id { ToShortInjective(w, id); }
    forall w | w in hash && w != id ensures PointsAt(m1, nodes, q, w, hash[w]) {
      assert PointsAt(model, nodes, q, w, hash[w]);
    }
  }

  lemma {:induction false} PlaceUpdate(q: seq<Rpq>, k: nat, e: Rpq, uid: nat, i: nat)
    requires k < |q| && e.uid == q[k].uid && i <= |q|
    ensures PlaceOf(q[k := e], uid, i) == PlaceOf(q, uid, i)
    decreases |q| - i
  {
    if i < |q| && q[i].uid != uid { PlaceUpdate(q, k, e, uid, i + 1); }
  }

  /** An entry changes that the index does not lead to, or nothing the index relies on changes. */
  lemma {:induction false} PointsUpdate(model: map<short, RNode>, nodes: seq<RNode>, q: seq<Rpq>, hash: map<u16, nat>,
                                        k: nat, e: Rpq)
    requires Points(model, nodes, q, hash) && k < |q| && e.uid == q[k].uid
    requires e.pub == q[k].pub || (forall w :: w in hash ==> hash[w] != e.uid)
    ensures Points(model, nodes, q[k := e], hash)
  {
    hide PlaceOf, Indexed;
    forall w | w in hash ensures PointsAt(model, nodes, q[k := e], w, hash[w]) {
      assert PointsAt(model, nodes, q, w, hash[w]);
      PlaceUpdate(q, k, e, hash[w], 0);
    }
  }

  lemma {:induction false} OrderDrop(q: seq<Rpq>, k: nat, arrivals: nat)
    requires InOrder(q, arrivals) && k < |q|
    ensures InOrder(Drop(q, k), arrivals)
  {
    assert forall i :: 0 <= i < |Drop(q, k)| ==> Drop(q, k)[i] == q[if i < k then i else i + 1];
  }

  /** An entry goes that the index does not lead to. */
  lemma {:induction false} PointsDrop(model: map<short, RNode>, nodes: seq<RNode>, q: seq<Rpq>, hash: map<u16, nat>,
                                      k: nat, arrivals: nat)
    requires Points(model, nodes, q, hash) && k < |q| && InOrder(q, arrivals)
    requires forall w :: w in hash ==> hash[w] != q[k].uid
    ensures Points(model, Drop(nodes, k), Drop(q, k), hash)
  {
    hide PlaceOf, Indexed;
    OrderDrop(q, k, arrivals);
    forall w | w in hash ensures PointsAt(model, Drop(nodes, k), Drop(q, k), w, hash[w]) {
      assert PointsAt(model, nodes, q, w, hash[w]);
      var j := PlaceOf(q, hash[w], 0);
      var i := if j < k then j else j - 1;
      assert Drop(q, k)[i] == q[j] && Drop(nodes, k)[i] == nodes[j];
      PlaceUnique(Drop(q, k), arrivals, i);
    }
  }

  /** Where the index leads. */
  lemma {:induction false} PointsFinds(model: map<short, RNode>, nodes: seq<RNode>, q: seq<Rpq>, hash: map<u16, nat>,
                                       id: u16)
    requires Points(model, nodes, q, hash)
    ensures ToShort(id) in model <==> id in hash
    ensures id in hash ==> var k := PlaceOf(q, hash[id], 0);
              k < |q| && model[ToShort(id)] == nodes[k] && q[k].uid == hash[id] && Indexed(q[k].pub)
                && q[k].pub.id == id
  {
    if id in hash { assert PointsAt(model, nodes, q, id, hash[id]); }
  }

  /** Without its wire id, an entry is not led to. */
  lemma {:induction false} OtherIds(model: map<short, RNode>, nodes: seq<RNode>, q: seq<Rpq>, hash: map<u16, nat>,
                                    k: nat, arrivals: nat)
    requires Points(model, nodes, q, hash) && k < |q| && InOrder(q, arrivals)
    ensures forall w :: w in hash && w != q[k].pub.id ==> hash[w] != q[k].uid
  {
    PlaceUnique(q, arrivals, k);
    hide PlaceOf, Indexed;
    forall w | w in hash && w != q[k].pub.id
      ensures hash[w] != q[k].uid
    {
      assert PointsAt(model, nodes, q, w, hash[w]);
    }
  }

  lemma {:induction false} InTotalAppend(q: seq<Rpq>, e: Rpq)
    ensures InTotal(q + [e]) == InTotal(q) + RPQ_SIZE + PubSize(e.pub)
  {
    assert (q + [e])[..|q|] == q;
  }

  lemma {:induction false} InTotalConcat(a: seq<Rpq>, b: seq<Rpq>)
    ensures InTotal(a + b) == InTotal(a) + InTotal(b)
  {
    if b == [] {
      assert a + b == a;
    } else {
      assert (a + b)[..|a + b| - 1] == a + b[..|b| - 1];
      InTotalConcat(a, b[..|b| - 1]);
    }
  }

  lemma {:induction false} InTotalDrop(q: seq<Rpq>, k: nat)
    requires k < |q|
    ensures InTotal(q) == InTotal(Drop(q, k)) + RPQ_SIZE + PubSize(q[k].pub)
  {
    InTotalConcat(q[..k], q[k + 1..]);
    InTotalConcat(q[..k], [q[k]]);
    InTotalConcat(q[..k] + [q[k]], q[k + 1..]);
    assert [q[k]][..0] == [];
    assert q == q[..k] + [q[k]] + q[k + 1..];
  }

  lemma {:induction false} InTotalUpdate(q: seq<Rpq>, k: nat, e: Rpq)
    requires k < |q| && PubSize(e.pub) == PubSize(q[k].pub)
    ensures InTotal(q[k := e]) == InTotal(q)
  {
    InTotalDrop(q, k);
    InTotalDrop(q[k := e], k);
    assert Drop(q[k := e], k) == Drop(q, k);
  }

  // ----- INPUTQ ---------------------------------------------------------------------------------

  /** The queue of received publications with its tail pointer, index and counters. */
  class InputQ {
    const list: LinkedQueue<Rpq>
    const rpHash: HashTable<RNode>
    var rtpEntries: int
    var numBytesQueued: int
    /** The index as the specification sees it. */
    ghost var hash: map<u16, nat>
    /** The number of publications ever queued: the history stamp of the next one. */
    var arrivals: nat
    ghost var Repr: set<object>

    /** List, counters and index are each well formed, and list and index share no object. */
    ghost predicate Separate()
      reads this, Repr
    {
      && this in Repr && list in Repr && rpHash in Repr && rpHash.Repr <= Repr
      && this !in rpHash.Repr && list !in rpHash.Repr
      && Owned(list.nodes, Repr, rpHash.Repr)
      && list.Valid() && rpHash.Valid() && InOrder(list.contents, arrivals)
      && rtpEntries == Ready(list.contents) && numBytesQueued == InTotal(list.contents)
    }

    ghost predicate Valid()
      reads this, Repr
    {
      Separate() && Points(rpHash.model, list.nodes, list.contents, hash)
    }

    ghost function Contents(): seq<Rpq>
      reads list
    {
      list.contents
    }

    constructor ()
      ensures Valid() && fresh(Repr) && Contents() == [] && hash == map[] && arrivals == 0
    {
      hide HashTable.Valid;
      list := new LinkedQueue();
      rpHash := new HashTable(16);
      rtpEntries, numBytesQueued, hash, arrivals := 0, 0, map[], 0;
      new;
      Repr := {this, list, rpHash} + rpHash.Repr;
    }

    /** mspAddRPMToList. */
    method AddRPM(e: Rpq) returns (n: RNode)
      requires Valid() && e.uid == arrivals
      modifies Repr
      ensures Valid() && fresh(Repr - old(Repr)) && arrivals == old(arrivals) + 1 && hash == old(hash)
      ensures Contents() == old(Contents()) + [e] && list.nodes == old(list.nodes) + [n] && n.val == e && n in Repr
    {
      hide HashTable.Valid, LinkedQueue.Valid, Points, Ready, InTotal;
      n := new Node(e);
      PointsAppend(rpHash.model, list.nodes, list.contents, hash, n, e);
      ReadyAppend(list.contents, e);
      InTotalAppend(list.contents, e);
      list.Append(n);
      if e.pub.flag == RELEASED {
        rtpEntries := rtpEntries + 1;
      }
      numBytesQueued, arrivals, Repr := numBytesQueued + RPQ_SIZE + PubSize(e.pub), arrivals + 1, Repr + {n};
    }

    /** mspAddToHash for the publication just queued. */
    method AddToIndex(n: RNode)
      requires Valid() && list.nodes != [] && list.nodes[|list.nodes| - 1] == n && Indexed(n.val.pub)
      modifies Repr
      ensures Valid() && fresh(Repr - old(Repr)) && arrivals == old(arrivals)
              && hash == old(hash)[n.val.pub.id := n.val.uid]
      ensures Contents() == old(Contents()) && list.nodes == old(list.nodes) && n.val == old(n.val)
    {
      hide HashTable.Valid, Points, Ready, InTotal;
      PointsAdd(rpHash.model, list.nodes, list.contents, hash, arrivals);
      rpHash.Add(ToShort(n.val.pub.id), n);
      hash, Repr := hash[n.val.pub.id := n.val.uid], Repr + rpHash.Repr;
    }

    /** mspDelFromHash. */
    method RemoveFromIndex(id: u16)
      requires Separate() && Points(rpHash.model - {ToShort(id)}, list.nodes, list.contents, hash - {id})
      modifies rpHash.Repr, this`hash
      ensures Valid() && hash == old(hash) - {id} && arrivals == old(arrivals)
      ensures Contents() == old(Contents()) && list.nodes == old(list.nodes) && Repr == old(Repr)
    {
      hide HashTable.Valid, Points, Ready, InTotal;
      rpHash.Delete(ToShort(id));
      hash := hash - {id};
    }

    /** mspDeleteRPMFromList, for an entry the index does not lead to. */
    method DeleteRPM(n: RNode, ghost k: nat)
      requires Valid() && k < |list.nodes| && list.nodes[k] == n
      requires forall w :: w in hash ==> hash[w] != Contents()[k].uid
      modifies list, list.nodes, this`rtpEntries, this`numBytesQueued
      ensures Valid() && Contents() == Drop(old(Contents()), k) && list.nodes == Drop(old(list.nodes), k)
    {
      hide HashTable.Valid, Points, Ready, InTotal, InOrder;
      PointsDrop(rpHash.model, list.nodes, list.contents, hash, k, arrivals);
      OrderDrop(list.contents, k, arrivals);
      ReadyDrop(list.contents, k);
      InTotalDrop(list.contents, k);
      OwnedDrop(list.nodes, k, Repr, rpHash.Repr);
      assert n.val == list.contents[k];
      list.Unlink(n, k);
      if n.val.pub.flag == RELEASED {
        rtpEntries := rtpEntries - 1;
      }
      numBytesQueued := numBytesQueued - (PubSize(n.val.pub) + RPQ_SIZE);
    }

    /** Writes the receive id into a queued entry. */
    method SetRcvId(n: RNode, rcvId: nat, ghost k: nat)
      requires Valid() && k < |list.nodes| && list.nodes[k] == n
      modifies n`val, list`contents
      ensures Valid() && n.val == old(n.val).(rcvId := rcvId) && Contents() == old(Contents())[k := n.val]
    {
      hide HashTable.Valid, Points, Ready, InTotal;
      ghost var e := n.val.(rcvId := rcvId);
      PointsUpdate(rpHash.model, list.nodes, list.contents, hash, k, e);
      ReadyUpdate(list.contents, k, e);
      ReadyOne(n.val);
      ReadyOne(e);
      InTotalUpdate(list.contents, k, e);
      list.Set(n, n.val.(rcvId := rcvId), k);
    }

    /** Marks the entry that wire id `id` indexes as released and counts it; the index is still to lose
        the id. */
    method SetReady(n: RNode, id: u16, ghost k: nat)
      requires Valid() && k < |list.nodes| && list.nodes[k] == n && Indexed(n.val.pub) && n.val.pub.id == id
      modifies n`val, list`contents, this`rtpEntries
      ensures Separate() && Points(rpHash.model - {ToShort(id)}, list.nodes, list.contents, hash - {id})
      ensures Contents() == old(Contents())[k := WithFlag(old(Contents())[k], RELEASED)]
    {
      hide HashTable.Valid, Points, Ready, InTotal;
      ghost var e := WithFlag(n.val, RELEASED);
      OtherIds(rpHash.model, list.nodes, list.contents, hash, k, arrivals);
      PointsDel(rpHash.model, list.nodes, list.contents, hash, id);
      PointsUpdate(rpHash.model - {ToShort(id)}, list.nodes, list.contents, hash - {id}, k, e);
      ReadyUpdate(list.contents, k, e);
      ReadyOne(n.val);
      ReadyOne(e);
      InTotalUpdate(list.contents, k, e);
      list.Set(n, WithFlag(n.val, RELEASED), k);
      rtpEntries := rtpEntries + 1;
    }

    /** The rollback of the entry just queued: its wire id leaves the index, then the entry the queue. */
    method Discard(n: RNode, ghost k: nat)
      requires Valid() && k < |list.nodes| && list.nodes[k] == n
      modifies Repr
      ensures Valid() && Repr == old(Repr) && hash == old(hash) - {old(n.val.pub.id)} && arrivals == old(arrivals)
      ensures Contents() == Drop(old(Contents()), k)
    {
      hide HashTable.Valid, Points, Ready, InTotal, InOrder;
      assert n.val == list.contents[k];
      OtherIds(rpHash.model, list.nodes, list.contents, hash, k, arrivals);
      PointsDel(rpHash.model, list.nodes, list.contents, hash, n.val.pub.id);
      RemoveFromIndex(n.val.pub.id);
      DeleteRPM(n, k);
    }

    /** The release of the entry that wire id `id` indexes. */
    method Let(n: RNode, id: u16, ghost k: nat)
      requires Valid() && k < |list.nodes| && list.nodes[k] == n && Indexed(n.val.pub) && n.val.pub.id == id
      modifies Repr
      ensures Valid() && Repr == old(Repr) && hash == old(hash) - {id} && arrivals == old(arrivals)
      ensures Contents() == old(Contents())[k := WithFlag(old(Contents())[k], RELEASED)]
    {
      hide HashTable.Valid, Points, Ready, InTotal, InOrder;
      SetReady(n, id, k);
      RemoveFromIndex(id);
    }

    /** Takes an entry the index does not lead to off the queue. */
    method Dismiss(n: RNode, ghost k: nat)
      requires Valid() && k < |list.nodes| && list.nodes[k] == n
      requires forall w :: w in hash ==> hash[w] != Contents()[k].uid
      modifies Repr
      ensures Valid() && Repr == old(Repr) && hash == old(hash) && arrivals == old(arrivals)
      ensures Contents() == Drop(old(Contents()), k)
    {
      hide HashTable.Valid, Points, Ready, InTotal, InOrder;
      DeleteRPM(n, k);
    }

    /** mspReadFromHash for a wire id. */
    method Find(id: u16) returns (n: Option<RNode>, ghost k: nat)
      requires Valid()
      ensures n.Some? <==> id in hash
      ensures n.Some? ==>
                k == PlaceOf(Contents(), hash[id], 0) && k < |list.nodes| == |Contents()| && list.nodes[k] == n.value
      ensures n.Some? ==> n.value.val == Contents()[k] && Indexed(n.value.val.pub) && n.value.val.pub.id == id
    {
      PointsFinds(rpHash.model, list.nodes, list.contents, hash, id);
      n := rpHash.Read(ToShort(id));
      k := if id in hash then PlaceOf(list.contents, hash[id], 0) else 0;
    }

    /** The list walk of mspSendRcvPubResponse, and its answer. */
    method MakeOffer() returns (r: Offer)
      requires Valid()
      ensures r == OfferOf(Contents())
    {
      hide HashTable.Valid, Points, Ready, InTotal, InOrder;
      var n, i := list.first, 0;
      while n != null && n.val.pub.flag == 0
        invariant 0 <= i <= |list.nodes| && n == At(list.nodes, i)
                  && FirstReady(Contents(), 0) == FirstReady(Contents(), i)
        decreases |list.nodes| - i
      {
        assert list.nodes[i].next == n.next && list.contents[i] == n.val;
        n, i := n.next, i + 1;
      }
      if n == null {
        return NoPubs;
      }
      assert list.contents[i] == n.val;
      return Offered(n.val.rcvId, n.val.pub, rtpEntries > 1);
    }

    /** The list walk of mspDeletePublication. */
    method FindRcv(rcvId: nat) returns (n: Node?<Rpq>, ghost k: nat)
      requires Valid()
      ensures k == FirstRcv(Contents(), rcvId, 0) && |list.nodes| == |Contents()| && n == At(list.nodes, k)
      ensures n != null ==> n.val == Contents()[k]
    {
      hide HashTable.Valid, Points, Ready, InTotal, InOrder;
      n, k := list.first, 0;
      while n != null && n.val.rcvId != rcvId
        invariant 0 <= k <= |list.nodes| && n == At(list.nodes, k)
                  && FirstRcv(Contents(), rcvId, 0) == FirstRcv(Contents(), rcvId, k)
        decreases |list.nodes| - k
      {
        assert list.nodes[k].next == n.next && list.contents[k] == n.val;
        n, k := n.next, k + 1;
      }
      if n != null { assert list.contents[k] == n.val; }
    }
  }

  // ----- The handle -----------------------------------------------------------------------------

  class InHandle {
    const inQ: InputQ
    var attached: bool
    var rcvd: map<nat, Received>
    var sock: bool
    var nextRcvId: nat
    ghost var acks: seq<Ack>

    ghost predicate Valid()
      reads this, inQ, inQ.Repr
    {
      this !in inQ.Repr && inQ.Valid()
    }

    ghost function Abs(): InConn
      reads this, inQ, inQ.list
    {
      InConn(inQ.Contents(), inQ.hash, attached, rcvd, sock, acks, nextRcvId, inQ.arrivals)
    }

    constructor (attached: bool, rcvd: map<nat, Received>)
      ensures Valid() && fresh(inQ.Repr) && Abs() == InConn([], map[], attached, rcvd, false, [], 0, 0)
    {
      inQ := new InputQ();
      this.attached, this.rcvd, sock, nextRcvId, acks := attached, rcvd, false, 0, [];
    }

    /** mspSendScadaMessage for an acknowledgement, which is never queued. */
    method WriteAck(a: Ack, writeOk: bool)
      requires Valid()
      modifies this`acks, this`sock
      ensures Valid() && Abs() == SendAck(old(Abs()), a, writeOk)
    {
      hide InputQ.Valid;
      if sock {
        if writeOk {
          acks := acks + [a];
        } else {
          sock := false;
        }
      }
    }

    /** mspSendPublishResponse. */
    method SendPublishResponse(p: Pub, origin: nat, writeOk: bool)
      requires Valid()
      modifies this`acks, this`sock
      ensures Valid() && Abs() == Respond(old(Abs()), p, origin, writeOk)
    {
      hide InputQ.Valid;
      if p.qos == 2 {
        WriteAck(Ack(Pubrec, p.id, origin), writeOk);
      } else if p.qos == 1 {
        WriteAck(Ack(Puback, p.id, origin), writeOk);
      }
    }

    /** The queueing part of mspStorePublication, for a publication that is no waiting duplicate. */
    method Queue(p: Pub, rcvId: nat, origin: nat) returns (n: RNode)
      requires Valid()
      modifies inQ, inQ.Repr
      ensures Valid() && fresh(inQ.Repr - old(inQ.Repr))
      ensures Abs() == Enlist(old(Abs()), Rpq(p, rcvId, old(inQ.arrivals), origin))
      ensures |inQ.list.nodes| == |inQ.Contents()| && inQ.list.nodes[|inQ.Contents()| - 1] == n && n in inQ.Repr
      ensures n.val == inQ.Contents()[|inQ.Contents()| - 1]
    {
      hide HashTable.Valid, Ready, InTotal;
      n := inQ.AddRPM(Rpq(p, rcvId, inQ.arrivals, origin));
      if Indexed(p) {
        inQ.AddToIndex(n);
      }
    }

    /** The store's part of a received PUBLISH: number the entry just queued, persist it, and roll back if
        the store refuses. */
    method PersistNew(n: RNode, bytes: seq<byte>, add: bool) returns (ok: bool)
      requires Valid() && |inQ.list.nodes| == |inQ.Contents()| > 0 && inQ.list.nodes[|inQ.Contents()| - 1] == n
      requires n.val == inQ.Contents()[|inQ.Contents()| - 1]
      modifies this`nextRcvId, this`rcvd, inQ, inQ.Repr
      ensures Valid() && fresh(inQ.Repr - old(inQ.Repr)) && ok == add
      ensures var c, q, e := old(Abs()), old(inQ.Contents()), old(n.val).(rcvId := NextRcvId(old(nextRcvId)));
        Abs() == if add then c.(nextRcvId := e.rcvId, q := q[..|q| - 1] + [e],
          rcvd := c.rcvd[e.rcvId := Received(bytes, e.origin)])
                 else c.(nextRcvId := e.rcvId, q := q[..|q| - 1], hash := c.hash - {e.pub.id})
    {
      hide HashTable.Valid, LinkedQueue.Valid, Ready, InTotal, Points, InOrder;
      ghost var q, k := inQ.Contents(), |inQ.Contents()| - 1;
      nextRcvId := NextRcvId(nextRcvId);
      inQ.SetRcvId(n, nextRcvId, k);
      assert q[k := n.val] == q[..k] + [n.val];
      ok := add;
      if add {
        rcvd := rcvd[nextRcvId := Received(bytes, n.val.origin)];
      } else {
        inQ.Discard(n, k);
        assert Drop(q[k := n.val], k) == q[..k];
      }
    }

    /** The PUBLISH case of mspReceiveScadaMessage. */
    method ReceivePublish(buf: seq<byte>, beyond: byte, origin: nat, add: bool, writeOk: bool)
      requires Valid() && buf != []
      modifies this, inQ, inQ.Repr
      ensures Valid() && fresh(inQ.Repr - old(inQ.Repr))
      ensures Abs() == OnPublish(old(Abs()), buf, beyond, origin, add, writeOk)
    {
      hide InputQ.Valid, Parse;
      var parsed := Parse(Flagged(buf), beyond);
      if parsed.None? {
        return;
      }
      var p := parsed.value;
      if Indexed(p) && p.dup {
        ghost var k;
        var waiting;
        waiting, k := inQ.Find(p.id);
        if waiting.Some? {
          return;
        }
      }
      TakePublish(Flagged(buf), p, origin, add, writeOk);
    }

    /** A decoded PUBLISH that is no duplicate. */
    method TakePublish(bytes: seq<byte>, p: Pub, origin: nat, add: bool, writeOk: bool)
      requires Valid()
      modifies this, inQ, inQ.Repr
      ensures Valid() && fresh(inQ.Repr - old(inQ.Repr))
      ensures Abs() == Take(old(Abs()), bytes, p, origin, add, writeOk)
    {
      hide InputQ.Valid, Respond;
      ghost var c := Abs();
      var n := Queue(p, 0, origin);
      var ok := true;
      if p.qos != 0 && attached {
        ok := PersistNew(n, bytes, add);
      }
      TakeIsQueuePersist(c, bytes, p, origin, add, writeOk);
      if ok {
        SendPublishResponse(p, origin, writeOk);
      }
    }

    /** The PUBREL case of mspReceiveScadaMessage. */
    method ReceivePubrel(id: u16, origin: nat, upd: UpdResult, writeOk: bool)
      requires Valid()
      modifies this, inQ, inQ.Repr
      ensures Valid() && inQ.Repr == old(inQ.Repr)
      ensures Abs() == OnPubrel(old(Abs()), id, origin, upd, writeOk)
    {
      hide InputQ.Valid, SendAck, SetReleased;
      var ok := true;
      ghost var k;
      var n;
      n, k := inQ.Find(id);
      if n.Some? {
        if attached {
          rcvd := SetReleased(rcvd, n.value.val.rcvId, upd);
          ok := upd.Set?;
        }
        if ok {
          inQ.Let(n.value, id, k);
        }
      }
      if ok {
        WriteAck(Ack(Pubcomp, id, origin), writeOk);
      }
    }

    /** mspDeletePublication. The index must not lead to the entry found, or it would be left with freed
        memory; with a store attached, or while the head of the queue is ready, the receive id of an offer
        never finds such an entry. */
    method DeletePublication(rcvId: nat, del: bool)
      requires Valid()
      requires var k := FirstRcv(inQ.Contents(), rcvId, 0); k < |inQ.Contents()| ==> Unhashed(Abs(), k)
      modifies this`rcvd, inQ, inQ.Repr
      ensures Valid() && inQ.Repr == old(inQ.Repr)
      ensures Abs() == Accept(old(Abs()), rcvId, del)
    {
      hide InputQ.Valid;
      ghost var k;
      var n;
      n, k := inQ.FindRcv(rcvId);
      if n != null {
        if n.val.pub.qos != 0 && attached && del {
          rcvd := rcvd - {n.val.rcvId};
        }
        inQ.Dismiss(n, k);
      }
    }

    /** One message of the reload loop. */
    method ReloadMessage(key: nat, v: Received) returns (ok: bool)
      requires Valid() && v.bytes != []
      modifies this, inQ, inQ.Repr
      ensures Valid() && fresh(inQ.Repr - old(inQ.Repr))
      ensures (Abs(), ok) == ReloadStep(old(Abs()), key, v)
    {
      hide InputQ.Valid, Parse;
      if key > nextRcvId {
        nextRcvId := key;
      }
      var parsed := Parse(v.bytes, 0);
      if parsed.None? {
        return false;
      }
      var p := parsed.value;
      if Indexed(p) && p.dup {
        ghost var k;
        var waiting;
        waiting, k := inQ.Find(p.id);
        if waiting.Some? {
          return false;
        }
      }
      var n := Queue(p, key, v.origin);
      return true;
    }

    /** The inbound part of a connect without clean start. */
    method Connect(msgs: seq<(nat, Received)>) returns (ok: bool)
      requires Valid() && forall i :: 0 <= i < |msgs| ==> msgs[i].1.bytes != []
      modifies this, inQ, inQ.Repr
      ensures Valid() && fresh(inQ.Repr - old(inQ.Repr))
      ensures (Abs(), ok) == ReloadFrom(old(Abs()), msgs, 0)
    {
      hide InputQ.Valid, ReloadStep;
      ghost var c := Abs();
      ok := true;
      for i := 0 to |msgs|
        invariant Valid() && fresh(inQ.Repr - old(inQ.Repr))
        invariant var (d, rest) := ReloadFrom(Abs(), msgs, i); ReloadFrom(c, msgs, 0) == (d, ok && rest)
      {
        var loaded := ReloadMessage(msgs[i].0, msgs[i].1);
        ok := ok && loaded;
      }
    }
  }

  /** Take, as queueing followed by numbering and persisting. */
  lemma {:induction false} TakeIsQueuePersist(c: InConn, bytes: seq<byte>, p: Pub, origin: nat, add: bool,
                                              writeOk: bool)
    ensures var c1 := Enlist(c, Rpq(p, 0, c.arrivals, origin));
      var q, e := c1.q, NewEntry(c, p, origin);
      Take(c, bytes, p, origin, add, writeOk) ==
        if !Persisted(c, p) then Respond(c1, p, origin, writeOk)
        else if add then Respond(c1.(nextRcvId := e.rcvId, q := q[..|q| - 1] + [e],
          rcvd := c1.rcvd[e.rcvId := Received(bytes, e.origin)]), p, origin, writeOk)
        else c1.(nextRcvId := e.rcvId, q := q[..|q| - 1], hash := c1.hash - {e.pub.id})
  {
    var q := Enlist(c, Rpq(p, 0, c.arrivals, origin)).q;
    assert q[..|q| - 1] == c.q;
  }
}
