/** Facts about the queue functions of `Outbound`, shared by the engine and the protocol proofs. */
module QueueFacts {
  import opened Bytes
  import opened SentStores
  import opened Outbound

  lemma {:induction false} WithoutDrops(q: seq<Entry>, id: u16)
    ensures !HasId(Without(q, id), id)
    ensures forall e :: e in Without(q, id) <==> e in q && e.id != id
    ensures DistinctIds(q) ==> DistinctIds(Without(q, id))
    ensures |Without(q, id)| <= |q|
  {
    if q != [] {
      hide Front;
      var f, r := Front(q), Without(Front(q), id);
      FrontAt(q);
      WithoutDrops(f, id);
      if DistinctIds(q) {
        assert DistinctIds(f);
        forall i | 0 <= i < |r| ensures r[i].id != q[|q| - 1].id { assert r[i] in f; }
      }
    }
  }

  lemma {:induction false} FrontAt(q: seq<Entry>)
    requires q != []
    ensures q == Front(q) + [q[|q| - 1]] && forall i :: 0 <= i < |Front(q)| ==> Front(q)[i] == q[i]
  {
  }

  lemma {:induction false} WithoutAbsent(q: seq<Entry>, id: u16)
    requires !HasId(q, id)
    ensures Without(q, id) == q
  {
    if q != [] {
      hide Front;
      FrontAt(q);
      assert !HasId(Front(q), id);
      WithoutAbsent(Front(q), id);
    }
  }

  /** With distinct ids, `Without` takes out exactly the one entry. */
  lemma {:induction false} WithoutAt(q: seq<Entry>, k: nat)
    requires k < |q| && DistinctIds(q)
    ensures Without(q, q[k].id) == q[..k] + q[k + 1..]
  {
    var f, n := Front(q), |q| - 1;
    if k == n {
      forall i | 0 <= i < n ensures f[i].id != q[k].id { assert f[i] == q[i]; }
      WithoutAbsent(f, q[k].id);
      assert q[..k] + q[k + 1..] == f;
    } else {
      WithoutAt(f, k);
      assert f[k] == q[k] && q[n].id != q[k].id;
      assert (f[..k] + f[k + 1..]) + [q[n]] == q[..k] + q[k + 1..];
    }
  }

  lemma {:induction false} TotalConcat(a: seq<Entry>, b: seq<Entry>)
    ensures Total(a + b) == Total(a) + Total(b)
  {
    if b == [] {
      assert a + b == a;
    } else {
      assert Front(a + b) == a + Front(b);
      TotalConcat(a, Front(b));
    }
  }

  lemma {:induction false} TotalOne(e: Entry)
    ensures Total([e]) == IPQ_SIZE + e.data.Size()
  {
    assert Front([e]) == [];
  }

  lemma {:induction false} TotalAppend(q: seq<Entry>, e: Entry)
    ensures Total(q + [e]) == Total(q) + IPQ_SIZE + e.data.Size()
  {
    assert Front(q + [e]) == q;
  }

  lemma {:induction false} TotalRemove(q: seq<Entry>, k: nat)
    requires k < |q|
    ensures Total(q[..k] + q[k + 1..]) == Total(q) - IPQ_SIZE - q[k].data.Size()
  {
    TotalConcat(q[..k], q[k + 1..]);
    TotalConcat(q[..k], [q[k]]);
    TotalConcat(q[..k] + [q[k]], q[k + 1..]);
    TotalOne(q[k]);
    assert q == q[..k] + [q[k]] + q[k + 1..];
  }

  lemma {:induction false} TotalUpdate(q: seq<Entry>, i: nat, e: Entry)
    requires i < |q| && e.data.Size() == q[i].data.Size()
    ensures Total(q[i := e]) == Total(q)
  {
    TotalRemove(q, i);
    TotalRemove(q[i := e], i);
    assert q[i := e][..i] + q[i := e][i + 1..] == q[..i] + q[i + 1..];
  }

  lemma {:induction false} TotalWithout(q: seq<Entry>, id: u16)
    ensures Total(Without(q, id)) <= Total(q)
  {
    if q != [] {
      TotalWithout(Front(q), id);
      TotalAppend(Without(Front(q), id), q[|q| - 1]);
    }
  }

  lemma {:induction false} AddKeyRoundTrip(id: u16)
    ensures IdOfKey(AddKey(id)) == id
    ensures AddKey(id) < ULONG
  {
  }

  /** The keys of add and delete agree exactly for the ids that fit a signed short. */
  lemma {:induction false} KeysAgreeIff(id: u16)
    ensures AddKey(id) == DelKey(id) <==> id <= 32767
    ensures id > 32767 ==> forall other: u16 :: AddKey(other) != DelKey(id)
  {
  }

  lemma {:induction false} PutView(store: Store<nat, Stored>, id: u16, v: Stored, put: PutResult)
    requires !put.Refused? && (IsRel(v.data) || AddKey(id) !in store.upd)
    ensures Put(store, id, v, put).View() == store.View()[AddKey(id) := v]
  {
  }

  lemma {:induction false} DeleteView(store: Store<nat, Stored>, key: nat, del: DelResult)
    ensures var v := store.Delete(key, del).View(); v == store.View() || v == store.View() - {key}
  {
  }

  /** What every step of a retry pass keeps, the pass keeps. */
  lemma {:induction false} RetryInduction(p: Conn -> bool, c: Conn, i: nat, writes: seq<bool>)
    requires p(c) && i <= |c.q| == |writes|
    requires forall d, j: nat, ok :: p(d) && j < |d.q| ==> p(RetryStep(d, j, ok))
    ensures p(RetryFrom(c, i, writes))
    decreases |c.q| - i
  {
    if i < |c.q| {
      RetryInduction(p, RetryStep(c, i, writes[i]), i + 1, writes);
    }
  }
}
