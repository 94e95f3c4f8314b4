/** The persistence store for sent messages, as its clients see it.

    A key has at most one plain entry (the PUBLISH, written by addSentMessage) and at most one
    updated entry (the PUBREL, written by updSentMessage). What a reload yields is `View`. */
module SentStores {
  /** How a call that writes ends: refused, written, or written while the entry it replaces could
      not be removed (updSentMessage ignores a failing unlink; a crash can also fall there). */
  datatype PutResult = Refused | Written | WrittenOldKept

  /** How far delSentMessage gets: it removes the plain entry first, then the updated one. */
  datatype DelResult = NothingRemoved | PlainRemoved | BothRemoved

  datatype Store<K(==), V> = Store(plain: map<K, V>, upd: map<K, V>) {
    function View(): map<K, V> {
      plain + upd
    }

    function Add(k: K, v: V, put: PutResult): Store<K, V> {
      if put.Refused? then this else Store(plain[k := v], upd)
    }

    function Update(k: K, v: V, put: PutResult): Store<K, V> {
      match put
      case Refused => this
      case Written => Store(plain - {k}, upd[k := v])
      case WrittenOldKept => Store(plain, upd[k := v])
    }

    function Delete(k: K, del: DelResult): Store<K, V> {
      match del
      case NothingRemoved => this
      case PlainRemoved => Store(plain - {k}, upd)
      case BothRemoved => Store(plain - {k}, upd - {k})
    }
  }

  predicate DistinctKeys<K(==), V>(msgs: seq<(K, V)>) {
    forall i, j :: 0 <= i < j < |msgs| ==> msgs[i].0 != msgs[j].0
  }

  /** The listing holds each stored message once, in any order. */
  predicate Lists<K(==), V(==)>(msgs: seq<(K, V)>, view: map<K, V>) {
    && (forall i :: 0 <= i < |msgs| ==> msgs[i].0 in view && view[msgs[i].0] == msgs[i].1)
    && DistinctKeys(msgs)
    && (forall k :: k in view ==> exists i :: 0 <= i < |msgs| && msgs[i].0 == k)
  }

  lemma {:induction false} ListsAppend<K, V>(msgs: seq<(K, V)>, view: map<K, V>, k: K, v: V)
    requires Lists(msgs, view) && k !in view
    ensures Lists(msgs + [(k, v)], view[k := v])
  {
    var m, view1 := msgs + [(k, v)], view[k := v];
    assert m[|msgs|] == (k, v);
    forall l | l in view1 ensures exists i :: 0 <= i < |m| && m[i].0 == l {
      if l != k {
        var i :| 0 <= i < |msgs| && msgs[i].0 == l;
        assert m[i].0 == l;
      }
    }
  }

  lemma {:induction false} ListsReplace<K, V>(msgs: seq<(K, V)>, view: map<K, V>, j: nat, v: V)
    requires Lists(msgs, view) && j < |msgs|
    ensures Lists(msgs[j := (msgs[j].0, v)], view[msgs[j].0 := v])
  {
    var k := msgs[j].0;
    var m, view1 := msgs[j := (k, v)], view[k := v];
    assert forall i :: 0 <= i < |m| ==> m[i].0 == msgs[i].0;
    forall l | l in view1 ensures exists i :: 0 <= i < |m| && m[i].0 == l {
      var i :| 0 <= i < |msgs| && msgs[i].0 == l;
      assert m[i].0 == l;
    }
  }
}
