/** The outbound half of a connection handle as the library keeps it: a linked in-progress queue
    with a tail pointer and counters, a hash index into it, the store and the socket. Every method
    computes the function of the same purpose in `Outbound`. */
module OutboundEngine {
  import opened Bytes
  import opened Wrappers
  import opened SentStores
  import opened Links
  import opened HashTables
  import opened Outbound
  import opened QueueFacts
  import opened WireIds

  // ----- The index, on values -------------------------------------------------------------------

  /** What the index should hold for these nodes with these entries: each node under its id. */
  ghost function Slots(nodes: seq<Node<Entry>>, q: seq<Entry>): (s: seq<Slot<Node<Entry>>>)
    requires |nodes| == |q|
    ensures |s| == |q| && forall i {:trigger s[i]} :: 0 <= i < |q| ==> s[i] == Slot(ToShort(q[i].id), nodes[i])
  {
    seq(|q|, i requires 0 <= i < |q| => Slot(ToShort(q[i].id), nodes[i]))
  }

  ghost predicate Indexes(model: map<short, Node<Entry>>, nodes: seq<Node<Entry>>, q: seq<Entry>) {
    |nodes| == |q| && DistinctSlots(Slots(nodes, q)) && model == MapOf(Slots(nodes, q))
  }

  lemma {:induction false} IndexAt(model: map<short, Node<Entry>>, nodes: seq<Node<Entry>>, q: seq<Entry>, i: nat)
    requires Indexes(model, nodes, q) && i < |q|
    ensures ToShort(q[i].id) in model && model[ToShort(q[i].id)] == nodes[i]
  {
    MapOfAt(Slots(nodes, q), i);
  }

  lemma {:induction false} IndexIds(model: map<short, Node<Entry>>, nodes: seq<Node<Entry>>, q: seq<Entry>)
    requires Indexes(model, nodes, q)
    ensures DistinctIds(q)
    ensures forall id: u16 :: HasId(q, id) <==> ToShort(id) in model
  {
    var slots := Slots(nodes, q);
    forall i, j | 0 <= i < j < |q| ensures q[i].id != q[j].id {
      SlotsDiffer(slots, i, j);
    }
    forall id: u16 ensures HasId(q, id) <==> ToShort(id) in model {
      MapOfKeys(slots, ToShort(id));
      if i :| 0 <= i < |q| && q[i].id == id {
        assert slots[i].key == ToShort(id);
      }
      if i :| 0 <= i < |slots| && slots[i].key == ToShort(id) {
        ToShortInjective(q[i].id, id);
      }
    }
  }

  /** The place of the entry the index finds. */
  lemma {:induction false} IndexFinds(model: map<short, Node<Entry>>, nodes: seq<Node<Entry>>, q: seq<Entry>, id: u16)
    returns (k: nat)
    requires Indexes(model, nodes, q) && ToShort(id) in model
    ensures k < |q| && q[k].id == id && nodes[k] == model[ToShort(id)] && Without(q, id) == Drop(q, k)
  {
    IndexIds(model, nodes, q);
    assert HasId(q, id);
    k :| 0 <= k < |q| && q[k].id == id;
    IndexAt(model, nodes, q, k);
    WithoutAt(q, k);
  }

  lemma {:induction false} IndexMisses(model: map<short, Node<Entry>>, nodes: seq<Node<Entry>>, q: seq<Entry>, id: u16)
    requires Indexes(model, nodes, q) && ToShort(id) !in model
    ensures Without(q, id) == q
  {
    IndexIds(model, nodes, q);
    WithoutAbsent(q, id);
  }

  /** Dropping the k-th entry and its key. */
  lemma {:induction false} IndexDrop(model: map<short, Node<Entry>>, nodes: seq<Node<Entry>>, q: seq<Entry>, k: nat)
    requires Indexes(model, nodes, q) && k < |q|
    ensures Indexes(model - {ToShort(q[k].id)}, Drop(nodes, k), Drop(q, k))
  {
    var slots := Slots(nodes, q);
    MapOfAt(slots, k);
    assert Slots(Drop(nodes, k), Drop(q, k)) == Drop(slots, k);
  }

  /** Appending an entry whose id is new. */
  lemma {:induction false} IndexAppend(model: map<short, Node<Entry>>, nodes: seq<Node<Entry>>, q: seq<Entry>,
                                       n: Node<Entry>, e: Entry)
    requires Indexes(model, nodes, q) && ToShort(e.id) !in model
    ensures Indexes(With(model, ToShort(e.id), n), nodes + [n], q + [e])
  {
    var slots, x := Slots(nodes, q), Slot(ToShort(e.id), n);
    assert Slots(nodes + [n], q + [e]) == slots + [x];
    MapOfAppend(slots, x);
  }

  /** What appending e does to queue and index when an older entry, the k-th, has its id and goes. */
  lemma {:induction false} IndexReplace(model: map<short, Node<Entry>>, nodes: seq<Node<Entry>>, q: seq<Entry>, k: nat,
                                        n: Node<Entry>, e: Entry)
    requires Indexes(model, nodes, q) && k < |q| && q[k].id == e.id
    ensures Drop(q + [e], k) == Drop(q, k) + [e]
    ensures Indexes(With(model, ToShort(e.id), n), Drop(nodes + [n], k), Drop(q + [e], k))
  {
    IndexDrop(model, nodes, q, k);
    IndexAppend(model - {ToShort(e.id)}, Drop(nodes, k), Drop(q, k), n, e);
    DeleteThenPut(model, ToShort(e.id), n);
    assert Drop(nodes + [n], k) == Drop(nodes, k) + [n] && Drop(q + [e], k) == Drop(q, k) + [e];
  }

  // ----- OUTPUTQ --------------------------------------------------------------------------------

  /** The in-progress queue with its tail pointer, index and counters. */
  class OutputQ {
    const list: LinkedQueue<Entry>
    const ipHash: HashTable<Node<Entry>>
    var ipEntries: int
    var numBytesQueued: int
    /** Every object the queue owns or owned. */
    ghost var Repr: set<object>

    /** List, counters and index are each well formed, and list and index share no object. */
    ghost predicate Separate()
      reads this, Repr
    {
      && this in Repr && list in Repr && ipHash in Repr && ipHash.Repr <= Repr
      && this !in ipHash.Repr && list !in ipHash.Repr
      && Owned(list.nodes, Repr, ipHash.Repr)
      && list.Valid() && ipHash.Valid()
      && ipEntries == |list.nodes| && numBytesQueued == Total(list.contents)
    }

    ghost predicate Valid()
      reads this, Repr
    {
      Separate() && Indexes(ipHash.model, list.nodes, list.contents)
    }

    ghost function Contents(): seq<Entry>
      reads list
    {
      list.contents
    }

    constructor ()
      ensures Valid() && fresh(Repr) && Contents() == []
    {
      hide HashTable.Valid;
      list := new LinkedQueue();
      ipHash := new HashTable(16);
      ipEntries, numBytesQueued := 0, 0;
      new;
      Repr := {this, list, ipHash} + ipHash.Repr;
    }

    /** Queue and index agree: distinct ids, the index maps exactly the queued ids to their entries,
        and the counters count. */
    lemma {:induction false} QueueAgrees()
      requires Valid()
      ensures DistinctIds(Contents())
      ensures forall i :: 0 <= i < |Contents()| ==> ipHash.Entry(ToShort(Contents()[i].id)) == Some(list.nodes[i])
      ensures forall id: u16 :: HasId(Contents(), id) <==> ToShort(id) in ipHash.model
      ensures ipEntries == |Contents()| && numBytesQueued == Total(Contents())
    {
      IndexIds(ipHash.model, list.nodes, Contents());
      forall i | 0 <= i < |Contents()| ensures ipHash.Entry(ToShort(Contents()[i].id)) == Some(list.nodes[i]) {
        IndexAt(ipHash.model, list.nodes, Contents(), i);
      }
    }

    /** The byte cap of the queue. */
    method IsFull(data: Message) returns (full: bool)
      requires Valid()
      ensures full == (Total(Contents()) + data.Size() + IPQ_SIZE > MAX_OUTQ)
    {
      full := numBytesQueued + data.Size() + IPQ_SIZE > MAX_OUTQ;
    }

    /** Node n was just appended to nodes and contents, and the index does not know it yet. */
    ghost predicate Appended(n: Node<Entry>, nodes: seq<Node<Entry>>, q: seq<Entry>)
      reads this, Repr, n
    {
      Separate() && list.nodes == nodes + [n] && Contents() == q + [n.val] && Indexes(ipHash.model, nodes, q)
    }

    /** mspAddIPMToList: append at the tail, so that retries go out in the order sent. */
    method AddIPM(data: Message, id: u16, origin: nat) returns (n: Node<Entry>)
      requires Valid()
      modifies Repr
      ensures Appended(n, old(list.nodes), old(Contents())) && n.val == Entry(id, data, InProgress, origin)
      ensures fresh(n) && fresh(Repr - old(Repr))
    {
      hide Indexes, Total, HashTable.Valid, LinkedQueue.Valid;
      n := new Node(Entry(id, data, InProgress, origin));
      TotalAppend(list.contents, n.val);
      list.Append(n);
      ipEntries, numBytesQueued := ipEntries + 1, numBytesQueued + IPQ_SIZE + data.Size();
      Repr := Repr + {n};
    }

    /** mspDeleteIPMFromList. */
    method DeleteIPM(n: Node<Entry>, ghost k: nat)
      requires Separate() && k < |list.nodes| && list.nodes[k] == n
      modifies this`ipEntries, this`numBytesQueued, list, list.nodes
      ensures Separate() && list.nodes == Drop(old(list.nodes), k) && Contents() == Drop(old(Contents()), k)
    {
      hide Indexes, Total, HashTable.Valid;
      TotalRemove(list.contents, k);
      OwnedDrop(list.nodes, k, Repr, ipHash.Repr);
      list.Unlink(n, k);
      ipEntries, numBytesQueued := ipEntries - 1, numBytesQueued - (n.val.data.Size() + IPQ_SIZE);
    }

    /** Changes the entry of node n, the k-th, to one of the same size. */
    method SetEntry(n: Node<Entry>, e: Entry, ghost k: nat)
      requires Separate() && k < |list.nodes| && list.nodes[k] == n && e.data.Size() == n.val.data.Size()
      modifies n`val, list`contents
      ensures Separate() && n.val == e && Contents() == old(Contents())[k := e]
    {
      hide Indexes, Total, HashTable.Valid;
      TotalUpdate(list.contents, k, e);
      list.Set(n, e, k);
    }

    /** mspAddToHash. */
    method AddToIndex(key: short, n: Node<Entry>)
      requires Separate() && Indexes(With(ipHash.model, key, n), list.nodes, Contents())
      modifies this`Repr, ipHash.Repr
      ensures Valid() && Contents() == old(Contents()) && fresh(Repr - old(Repr))
    {
      ipHash.Add(key, n);
      Repr := Repr + ipHash.Repr;
    }

    /** mspDelFromHash. */
    method RemoveFromIndex(key: short)
      requires Separate()
      modifies ipHash.Repr
      ensures Separate() && ipHash.model == old(ipHash.model) - {key} && Contents() == old(Contents())
    {
      ipHash.Delete(key);
    }

    /** Takes the older entry m with the id of the one just appended off the queue. */
    method DropOlder(m: Node<Entry>, n: Node<Entry>, ghost front: seq<Node<Entry>>, ghost q: seq<Entry>, ghost k: nat)
      requires Appended(n, front, q) && k < |q| && q[k].id == n.val.id && front[k] == m
      modifies this`ipEntries, this`numBytesQueued, list, list.nodes
      ensures Separate() && n.val == old(n.val) && Contents() == Drop(q, k) + [n.val]
      ensures Indexes(With(ipHash.model, ToShort(n.val.id), n), list.nodes, Contents())
    {
      hide HashTable.Valid;
      ghost var e := n.val;
      IndexReplace(ipHash.model, front, q, k, n, e);
      DeleteIPM(m, k);
      assert list.nodes[|front| - 1] == n && Contents()[|front| - 1] == e;
    }

    /** Takes the older entry with the id of the one just appended, if there is one, off the queue. */
    method DropAnyOlder(n: Node<Entry>, ghost front: seq<Node<Entry>>, ghost q: seq<Entry>)
      requires Appended(n, front, q)
      modifies this`ipEntries, this`numBytesQueued, list, list.nodes
      ensures Separate() && n.val == old(n.val)
      ensures Contents() == Without(q, n.val.id) + [n.val]
      ensures Indexes(With(ipHash.model, ToShort(n.val.id), n), list.nodes, Contents())
    {
      var older := ipHash.Read(ToShort(n.val.id));
      if older.None? {
        IndexMisses(ipHash.model, front, q, n.val.id);
        IndexAppend(ipHash.model, front, q, n, n.val);
      } else {
        ghost var k := IndexFinds(ipHash.model, front, q, n.val.id);
        DropOlder(older.value, n, front, q, k);
      }
    }

    /** The entry just appended stays, in place of an older one with its id; when it is being
        reloaded it is at once due for retry. */
    method Keep(n: Node<Entry>, init: bool, ghost front: seq<Node<Entry>>, ghost q: seq<Entry>)
      requires Appended(n, front, q)
      modifies this, list, list.nodes, ipHash.Repr
      ensures Valid() && fresh(Repr - old(Repr))
      ensures var e := if init then old(n.val).(status := Retrying) else old(n.val);
              Contents() == Without(q, e.id) + [e]
    {
      hide Indexes, Total, HashTable.Valid, Without;
      if init {
        SetEntry(n, n.val.(status := Retrying), |front|);
      }
      DropAnyOlder(n, front, q);
      AddToIndex(ToShort(n.val.id), n);
    }

    /** The store refused the entry just appended: it goes again. */
    method Rollback(n: Node<Entry>, ghost front: seq<Node<Entry>>, ghost q: seq<Entry>)
      requires Appended(n, front, q)
      modifies this`ipEntries, this`numBytesQueued, list, list.nodes
      ensures Valid() && Contents() == q
    {
      DeleteIPM(n, |front|);
      assert list.nodes == front && Contents() == q;
    }

    /** What the store's answer means for the entry just appended. */
    method Settle(n: Node<Entry>, init: bool, stored: bool, ghost front: seq<Node<Entry>>, ghost q: seq<Entry>)
      requires Appended(n, front, q)
      modifies Repr
      ensures Valid() && fresh(Repr - old(Repr))
      ensures var e := if init then old(n.val).(status := Retrying) else old(n.val);
              Contents() == if stored then Without(q, e.id) + [e] else q
    {
      hide Indexes, Total, HashTable.Valid, Without;
      if stored {
        Keep(n, init, front, q);
      } else {
        Rollback(n, front, q);
      }
    }

    /** Takes node m, the k-th, out of index and queue. */
    method RemoveNode(m: Node<Entry>, ghost k: nat)
      requires Valid() && k < |list.nodes| && list.nodes[k] == m
      modifies Repr
      ensures Valid() && Repr == old(Repr) && Contents() == Drop(old(Contents()), k)
    {
      IndexDrop(ipHash.model, list.nodes, Contents(), k);
      RemoveFromIndex(ToShort(m.val.id));
      DeleteIPM(m, k);
    }

    /** Takes the entry with this id out of index and queue, if there is one. */
    method Remove(id: u16)
      requires Valid()
      modifies Repr
      ensures Valid() && Repr == old(Repr) && Contents() == Without(old(Contents()), id)
    {
      var e := ipHash.Read(ToShort(id));
      if e.Some? {
        ghost var k := IndexFinds(ipHash.model, list.nodes, Contents(), id);
        RemoveNode(e.value, k);
      } else {
        IndexMisses(ipHash.model, list.nodes, Contents(), id);
      }
    }

    /** mspSendGetStatusResponse. */
    method GetStatus(handle: int) returns (r: MsgStatus)
      requires Valid()
      ensures r == StatusOf(Contents(), handle)
    {
      if !(0 < handle <= MAX_MSGS) {
        return HandleError;
      }
      QueueAgrees();
      var e := ipHash.Read(ToShort(handle));
      if e.None? {
        r := Delivered;
      } else {
        ghost var k := IndexFinds(ipHash.model, list.nodes, Contents(), handle);
        StatusAt(Contents(), k);
        r := Pending(e.value.val.status);
      }
    }
  }

  lemma {:induction false} StatusAt(q: seq<Entry>, k: nat)
    requires DistinctIds(q) && k < |q| && q[k].id > 0
    ensures StatusOf(q, q[k].id) == Pending(q[k].status)
  {
    if k < |q| - 1 {
      assert q[|q| - 1].id != q[k].id && Front(q)[k] == q[k];
      StatusAt(Front(q), k);
    }
  }

  // ----- The handle -----------------------------------------------------------------------------

  class Handle {
    const outQ: OutputQ
    var attached: bool
    var store: Store<nat, Stored>
    var sock: bool
    var nextMsgId: u16
    ghost var wire: seq<Packet>

    ghost predicate Valid()
      reads this, outQ, outQ.Repr
    {
      this !in outQ.Repr && outQ.Valid()
    }

    ghost function Abs(): Conn
      requires Valid()
      reads this, outQ, outQ.Repr
    {
      Conn(outQ.Contents(), attached, store, sock, wire, nextMsgId)
    }

    constructor (attached: bool, store: Store<nat, Stored>)
      ensures Valid() && fresh(outQ.Repr) && Abs() == Conn([], attached, store, false, [], 0)
    {
      outQ := new OutputQ();
      this.attached, this.store, sock, nextMsgId, wire := attached, store, false, 0, [];
    }

    /** addSentMessage or updSentMessage, unless the message comes from the store. */
    method Persist(e: Entry, init: bool, put: PutResult) returns (ok: bool)
      modifies this`store
      ensures ok == !(!init && attached && put.Refused?)
      ensures store == if ok then Persisted(old(store), attached, e, init, put) else old(store)
    {
      ok := true;
      if !init && attached {
        store := Put(store, e.id, Stored(e.data, e.origin), put);
        ok := !put.Refused?;
      }
    }

    /** The queueing half of mspSendScadaMessage: append, persist, then roll back or replace. */
    method Enqueue(e: Entry, init: bool, put: PutResult) returns (rc: Rc)
      requires Valid() && IsStored(e.data) && e.status == (if init then Retrying else InProgress)
      modifies this`store, outQ, outQ.Repr
      ensures Valid() && rc == Admit(old(Abs()), e.data, init, put) && fresh(outQ.Repr - old(outQ.Repr))
      ensures Abs() == if rc.Ok? then Queued(old(Abs()), e, init, put) else old(Abs())
    {
      hide OutputQ.Valid, OutputQ.Appended;
      var full := outQ.IsFull(e.data);
      if full {
        rc := OutOfMemory;
        return;
      }
      ghost var c, nodes := Abs(), outQ.list.nodes;
      var n := outQ.AddIPM(e.data, e.id, e.origin);
      var stored := Persist(e, init, put);
      outQ.Settle(n, init, stored, nodes, c.q);
      rc := if stored then Rc.Ok else PersistenceFailed;
    }

    /** The tail of mspSendScadaMessage: write if there is a socket, drop the socket on an error. */
    method TcpWrite(p: Packet, writeOk: bool) returns (rc: Rc)
      requires Valid()
      modifies this`wire, this`sock
      ensures Valid() && (Abs(), rc) == Write(old(Abs()), p, writeOk)
    {
      if !sock {
        rc := NotSent;
      } else if writeOk {
        wire := wire + [p];
        rc := Rc.Ok;
      } else {
        sock := false;
        rc := NotSent;
      }
    }

    /** mspSendScadaMessage for a message that is not on the queue yet. */
    method SendScadaMessage(data: Message, id: u16, origin: nat, init: bool, put: PutResult, writeOk: bool)
      returns (rc: Rc)
      requires Valid()
      modifies this, outQ, outQ.Repr
      ensures Valid() && (Abs(), rc) == Send(old(Abs()), data, id, origin, init, put, writeOk)
              && fresh(outQ.Repr - old(outQ.Repr))
    {
      hide OutputQ.Valid, Admit, Queued;
      var e := Entry(id, data, if init then Retrying else InProgress, origin);
      rc := Rc.Ok;
      if IsStored(data) {
        rc := Enqueue(e, init, put);
      }
      if rc.Ok? {
        rc := TcpWrite(PacketOf(e), writeOk);
      }
    }

    /** A publish, subscribe or unsubscribe request. */
    method Request(broken: bool, msg: Option<Message>, origin: nat, put: PutResult, writeOk: bool) returns (rc: Rc)
      requires Valid()
      modifies this, outQ, outQ.Repr
      ensures Valid() && (Abs(), rc) == ApiRequest(old(Abs()), broken, msg, origin, put, writeOk)
      ensures fresh(outQ.Repr - old(outQ.Repr))
    {
      hide OutputQ.Valid;
      if broken {
        return ConnectionBroken;
      }
      rc := NotBuilt;
      if msg.Some? {
        rc := SendScadaMessage(msg.value, nextMsgId, origin, false, put, writeOk);
      }
      nextMsgId := NextMsgId(nextMsgId);
    }

    /** The PUBREC case of mspReceiveScadaMessage: queue and send the PUBREL. */
    method ReceivePubrec(id: u16, origin: nat, put: PutResult, writeOk: bool) returns (rc: Rc)
      requires Valid()
      modifies this, outQ, outQ.Repr
      ensures Valid() && (Abs(), rc) == OnPubrec(old(Abs()), id, origin, put, writeOk)
      ensures rc.Ok? ==> |wire| == |old(wire)| + 1 && ToBytes(wire[|old(wire)|].data) == [0x62, 2, id / 256, id % 256]
      ensures fresh(outQ.Repr - old(outQ.Repr))
    {
      PubrelBytes(id);
      rc := SendScadaMessage(PubrelMessage(id), id, origin, false, put, writeOk);
    }

    /** The PUBACK, PUBCOMP, SUBACK and UNSUBACK cases of mspReceiveScadaMessage. */
    method ReceiveAck(id: u16, del: DelResult)
      requires Valid()
      modifies this`store, outQ, outQ.Repr
      ensures Valid() && Abs() == OnAck(old(Abs()), id, del) && outQ.Repr == old(outQ.Repr)
    {
      outQ.Remove(id);
      if attached {
        store := store.Delete(DelKey(id), del);
      }
    }

    /** One entry of the retry pass: resend it with DUP, or mark it for the next pass. */
    method RetryEntry(n: Node<Entry>, writeOk: bool, ghost k: nat)
      requires Valid() && k < |outQ.list.nodes| && outQ.list.nodes[k] == n
      modifies n`val, outQ.list`contents, this`wire, this`sock
      ensures Valid() && Abs() == RetryStep(old(Abs()), k, writeOk)
    {
      hide HashTable.Valid, Total;
      ghost var nodes, q := outQ.list.nodes, outQ.Contents();
      var due := n.val.status.Retrying?;
      outQ.SetEntry(n, Retried(n.val), k);
      assert Slots(nodes, outQ.Contents()) == Slots(nodes, q);
      if due {
        var rc := TcpWrite(PacketOf(n.val), writeOk);
      }
    }

    /** The retry pass that began in c0 stands at node cur, the i-th. */
    ghost predicate Passing(c0: Conn, writes: seq<bool>, cur: Node?<Entry>, i: nat)
      reads this, outQ, outQ.Repr
      requires |c0.q| == |writes|
    {
      && Valid() && i <= |writes| == |Abs().q| && cur == At(outQ.list.nodes, i)
      && RetryFrom(c0, 0, writes) == RetryFrom(Abs(), i, writes)
    }

    /** One round of the retry pass. */
    method RetryNext(cur: Node<Entry>, writeOk: bool, ghost c0: Conn, ghost writes: seq<bool>, ghost i: nat)
      returns (next: Node?<Entry>)
      requires |c0.q| == |writes| && Passing(c0, writes, cur, i) && i < |writes| && writeOk == writes[i]
      modifies outQ.list.nodes, outQ.list`contents, this`wire, this`sock
      ensures Passing(c0, writes, next, i + 1) && outQ.list.nodes == old(outQ.list.nodes)
    {
      next := cur.next;
      RetryEntry(cur, writeOk, i);
    }

    /** The retry pass of mspHandleClientConnection. */
    method RetryPass(writes: seq<bool>)
      requires Valid() && |writes| == |Abs().q|
      modifies outQ.list.nodes, outQ.list`contents, this`wire, this`sock
      ensures Valid() && Abs() == Retry(old(Abs()), writes)
    {
      ghost var c0, nodes := Abs(), outQ.list.nodes;
      var cur, i := outQ.list.first, 0;
      while cur != null
        invariant i <= |writes| && Passing(c0, writes, cur, i) && outQ.list.nodes == nodes
        decreases |writes| - i
      {
        cur := RetryNext(cur, writes[i], c0, writes, i);
        i := i + 1;
      }
    }

    /** The outbound part of mspResetHconn: everything in memory goes, the store stays. */
    method Reset()
      requires Valid()
      modifies this, outQ, outQ.Repr
      ensures Valid() && Abs() == Fresh(old(Abs())) && outQ.Repr == old(outQ.Repr)
    {
      hide HashTable.Valid, Total;
      ghost var c0 := Abs();
      while outQ.list.first != null
        invariant Valid() && outQ.Repr == old(outQ.Repr) && Abs() == c0.(q := Abs().q)
        decreases |outQ.list.nodes|
      {
        outQ.RemoveNode(outQ.list.first, 0);
      }
      sock, nextMsgId := false, 0;
    }

    /** One message of the reload loop. */
    method ReloadMessage(key: nat, v: Stored)
      requires Valid()
      modifies this, outQ, outQ.Repr
      ensures Valid() && Abs() == ReloadStep(old(Abs()), key, v) && fresh(outQ.Repr - old(outQ.Repr))
    {
      if key > nextMsgId {
        nextMsgId := IdOfKey(key);
      }
      var rc := SendScadaMessage(v.data, IdOfKey(key), v.origin, true, Written, false);
    }

    /** The outbound part of a connect without clean start: reload what the store lists. */
    method Connect(msgs: seq<(nat, Stored)>)
      requires Valid()
      modifies this, outQ, outQ.Repr
      ensures Valid() && Abs() == Reload(old(Abs()), msgs) && fresh(outQ.Repr - old(outQ.Repr))
    {
      hide OutputQ.Valid, ReloadStep;
      ghost var c0 := Fresh(Abs());
      Reset();
      for i := 0 to |msgs|
        invariant Valid() && fresh(outQ.Repr - old(outQ.Repr))
        invariant ReloadFrom(c0, msgs, 0) == ReloadFrom(Abs(), msgs, i)
      {
        ReloadMessage(msgs[i].0, msgs[i].1);
      }
      nextMsgId := NextMsgId(nextMsgId);
    }
  }
}
