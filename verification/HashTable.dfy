/** The chained hash table that indexes queue entries by 16-bit message id. */
module HashTables {
  import opened Links
  import opened Wrappers

  /** The C type of the key; callers pass an unsigned short, which keeps its bits. */
  type short = n: int | -0x8000 <= n < 0x8000

  function ToShort(id: int): (k: short)
    requires 0 <= id < 0x1_0000
  {
    if id < 0x8000 then id else id - 0x1_0000
  }

  lemma {:induction false} ToShortInjective(a: int, b: int)
    requires 0 <= a < 0x1_0000 && 0 <= b < 0x1_0000
    ensures ToShort(a) == ToShort(b) <==> a == b
  {
  }

  /** A byte of the key as a signed char. */
  function SignedByte(b: int): int
    requires 0 <= b < 0x100
  {
    if b < 0x80 then b else b - 0x100
  }

  /** The key's two bytes as they lie in memory, low byte first. */
  function KeyBytes(key: short): seq<int> {
    var u: nat := if key < 0 then key + 0x1_0000 else key;
    [SignedByte(u % 0x100), SignedByte(u / 0x100)]
  }

  function HashSum(bytes: seq<int>): int {
    if bytes == [] then 0 else 131 * HashSum(bytes[..|bytes| - 1]) + bytes[|bytes| - 1]
  }

  function Abs(n: int): nat {
    if n < 0 then -n else n
  }

  function HashCode(key: short, nKeys: nat): (h: nat)
    requires nKeys > 0
    ensures h < nKeys
  {
    Abs(HashSum(KeyBytes(key))) % nKeys
  }

  /** The hash of a 16-bit id, from its two bytes as signed numbers, the low one first. */
  lemma {:induction false} HashCodeIs(id: int, nKeys: nat)
    requires 0 <= id < 0x1_0000 && nKeys > 0
    ensures var lo, hi := id % 0x100, id / 0x100;
      var sum := 131 * (if lo < 128 then lo else lo - 256) + (if hi < 128 then hi else hi - 256);
      HashCode(ToShort(id), nKeys) == (if sum < 0 then -sum else sum) % nKeys
  {
    var bytes := KeyBytes(ToShort(id));
    assert bytes[..1][..0] == [] && bytes[..2] == bytes;
    assert HashSum(bytes[..1]) == bytes[0];
    assert HashSum(bytes) == 131 * HashSum(bytes[..1]) + bytes[1];
  }

  /** mspCalcHashCode. */
  method CalcHashCode(key: short, nKeys: nat) returns (h: nat)
    requires nKeys > 0
    ensures h == HashCode(key, nKeys) && h < nKeys
  {
    var bytes := KeyBytes(key);
    var hc := 0;
    for j := 0 to |bytes|
      invariant hc == HashSum(bytes[..j])
    {
      hc := 131 * hc + bytes[j];
      assert bytes[..j + 1][..j] == bytes[..j];
    }
    assert bytes[..|bytes|] == bytes;
    h := Abs(hc) % nKeys;
  }

  /** What a chain node holds. */
  datatype Slot<V> = Slot(key: short, data: V)

  // ----- Chains as values -----------------------------------------------------------------------

  ghost function Body<V>(s: seq<Slot<V>>): seq<Slot<V>>
    requires s != []
  {
    s[..|s| - 1]
  }

  /** The map a chain stands for. */
  ghost function MapOf<V>(s: seq<Slot<V>>): map<short, V> {
    if s == [] then map[] else With(MapOf(Body(s)), s[|s| - 1].key, s[|s| - 1].data)
  }

  ghost predicate DistinctSlots<V>(s: seq<Slot<V>>) {
    s == [] || (s[|s| - 1].key !in MapOf(Body(s)) && DistinctSlots(Body(s)))
  }

  lemma {:induction false} MapOfKeys<V>(s: seq<Slot<V>>, k: short)
    ensures k in MapOf(s) <==> exists i :: 0 <= i < |s| && s[i].key == k
  {
    if s != [] {
      MapOfKeys(Body(s), k);
      if k in MapOf(Body(s)) {
        var i :| 0 <= i < |Body(s)| && Body(s)[i].key == k;
        assert s[i].key == k;
      }
      if i :| 0 <= i < |s| && s[i].key == k && i < |s| - 1 {
        assert Body(s)[i].key == k;
      }
    }
  }

  /** A slot of a chain with distinct keys is the one its key finds; taking it out takes out its key. */
  lemma {:induction false} MapOfAt<V>(s: seq<Slot<V>>, i: nat)
    requires DistinctSlots(s) && i < |s|
    ensures s[i].key in MapOf(s) && MapOf(s)[s[i].key] == s[i].data
    ensures MapOf(Drop(s, i)) == MapOf(s) - {s[i].key} && DistinctSlots(Drop(s, i))
  {
    var b, x := Body(s), s[|s| - 1];
    if i == |s| - 1 {
      assert Drop(s, i) == b;
      assert MapOf(b) == MapOf(s) - {x.key};
    } else {
      assert b[i] == s[i];
      MapOfAt(b, i);
      assert Drop(s, i) == Drop(b, i) + [x];
      assert Body(Drop(s, i)) == Drop(b, i);
      assert With(MapOf(b), x.key, x.data) - {s[i].key} == With(MapOf(b) - {s[i].key}, x.key, x.data);
    }
  }

  lemma {:induction false} SlotsDiffer<V>(s: seq<Slot<V>>, i: nat, j: nat)
    requires DistinctSlots(s) && i < j < |s|
    ensures s[i].key != s[j].key
  {
    if j == |s| - 1 {
      MapOfKeys(Body(s), s[j].key);
      assert Body(s)[i].key == s[i].key;
    } else {
      SlotsDiffer(Body(s), i, j);
    }
  }

  lemma {:induction false} MapOfAppend<V>(s: seq<Slot<V>>, x: Slot<V>)
    requires DistinctSlots(s) && x.key !in MapOf(s)
    ensures MapOf(s + [x]) == With(MapOf(s), x.key, x.data) && DistinctSlots(s + [x])
  {
    assert Body(s + [x]) == s;
  }

  lemma {:induction false} MapOfPrepend<V>(x: Slot<V>, s: seq<Slot<V>>)
    requires DistinctSlots(s) && x.key !in MapOf(s)
    ensures MapOf([x] + s) == With(MapOf(s), x.key, x.data) && DistinctSlots([x] + s)
  {
    if s == [] {
      assert Body([x] + s) == [];
    } else {
      assert Body([x] + s) == [x] + Body(s);
      MapOfPrepend(x, Body(s));
    }
  }

  function With<V>(m: map<short, V>, key: short, data: V): map<short, V> {
    m[key := data]
  }

  /** One bucket: a chain of slots with distinct keys. */
  class Chain<V> {
    var first: Node?<Slot<V>>
    ghost var nodes: seq<Node<Slot<V>>>
    ghost var slots: seq<Slot<V>>

    ghost predicate Valid()
      reads this, nodes
    {
      first == First(nodes) && Linked(nodes) && Hold(nodes, slots) && DistinctSlots(slots)
    }

    constructor ()
      ensures Valid() && nodes == [] && slots == []
    {
      first, nodes, slots := null, [], [];
    }

    /** mspGetHashEntry, and the search in mspReadFromHash and mspDelFromHash. */
    method Find(key: short) returns (r: Node?<Slot<V>>, ghost i: nat)
      requires Valid()
      ensures r == null <==> key !in MapOf(slots)
      ensures r != null ==> i < |nodes| && nodes[i] == r && slots[i] == r.val && r.val.key == key
      ensures r != null ==> MapOf(slots)[key] == r.val.data
    {
      r, i := first, 0;
      while r != null && r.val.key != key
        invariant i <= |nodes|
        invariant r == if i < |nodes| then nodes[i] else null
        invariant forall j :: 0 <= j < i ==> slots[j].key != key
        decreases |nodes| - i
      {
        assert nodes[i].next == r.next && slots[i] == r.val;
        r, i := r.next, i + 1;
      }
      MapOfKeys(slots, key);
      if r != null {
        assert slots[i] == r.val;
        MapOfAt(slots, i);
      }
    }

    /** Takes slot n, the i-th, out of the chain. */
    method Unlink(n: Node<Slot<V>>, ghost i: nat)
      requires Valid() && i < |nodes| && nodes[i] == n
      modifies this, nodes
      ensures Valid() && slots == Drop(old(slots), i) && nodes == Drop(old(nodes), i)
    {
      hide MapOf, DistinctSlots;
      MapOfAt(slots, i);
      var prev, next := Detach(n, nodes, i);
      if prev == null {
        first := next;
      }
      nodes, slots := Drop(nodes, i), Drop(slots, i);
    }

    /** mspDelFromHash, within the bucket. */
    method Delete(key: short)
      requires Valid()
      modifies this, nodes
      ensures Valid() && MapOf(slots) == MapOf(old(slots)) - {key}
      ensures forall n :: n in nodes ==> n in old(nodes)
    {
      ghost var i;
      var n;
      n, i := Find(key);
      if n == null {
        assert MapOf(slots) == MapOf(slots) - {key};
      } else {
        MapOfAt(slots, i);
        Unlink(n, i);
      }
    }

    /** The second half of mspAddToHash: a new entry in front of the chain. */
    method Prepend(key: short, data: V)
      requires Valid() && key !in MapOf(slots)
      modifies this, nodes
      ensures Valid() && MapOf(slots) == With(MapOf(old(slots)), key, data)
      ensures forall n :: n in nodes ==> n in old(nodes) || fresh(n)
    {
      hide MapOf, DistinctSlots;
      var x := Slot(key, data);
      MapOfPrepend(x, slots);
      var n := new Node(x);
      LinkFirst(n, first, nodes);
      first, nodes, slots := n, [n] + nodes, [x] + slots;
    }
  }

  // ----- The table ------------------------------------------------------------------------------

  /** Bucket h holds what the model holds for the keys that hash to h, and nothing else. */
  ghost predicate Splits<V>(maps: seq<map<short, V>>, model: map<short, V>)
    requires maps != []
  {
    && (forall k :: k in model ==> k in maps[HashCode(k, |maps|)] && maps[HashCode(k, |maps|)][k] == model[k])
    && (forall h, k :: 0 <= h < |maps| && k in maps[h] ==> HashCode(k, |maps|) == h && k in model)
  }

  lemma {:induction false} SplitsDelete<V>(maps: seq<map<short, V>>, model: map<short, V>, key: short)
    requires maps != [] && Splits(maps, model)
    ensures var h := HashCode(key, |maps|); Splits(maps[h := maps[h] - {key}], model - {key})
  {
  }

  lemma {:induction false} SplitsAdd<V>(maps: seq<map<short, V>>, model: map<short, V>, key: short, data: V)
    requires maps != [] && Splits(maps, model)
    ensures var h := HashCode(key, |maps|); Splits(maps[h := With(maps[h], key, data)], With(model, key, data))
  {
  }

  lemma {:induction false} DeleteThenPut<V>(m: map<short, V>, key: short, data: V)
    ensures With(m - {key}, key, data) == With(m, key, data)
  {
  }

  method EmptyChains<V>(n: nat) returns (made: seq<Chain<V>>)
    ensures |made| == n
    ensures forall h :: 0 <= h < n ==> fresh(made[h]) && made[h].Valid() && made[h].nodes == [] && made[h].slots == []
    ensures forall g, h :: 0 <= g < h < n ==> made[g] != made[h]
  {
    made := [];
    while |made| < n
      invariant |made| <= n
      invariant forall h :: 0 <= h < |made| ==>
                  fresh(made[h]) && made[h].Valid() && made[h].nodes == [] && made[h].slots == []
      invariant forall g, h :: 0 <= g < h < |made| ==> made[g] != made[h]
    {
      var c := new Chain<V>();
      made := made + [c];
    }
  }

  class HashTable<V> {
    const nKeys: nat
    const chains: seq<Chain<V>>
    ghost var maps: seq<map<short, V>>
    ghost var model: map<short, V>
    ghost var Repr: set<object>

    /** Buckets are separate, and together they stand for the model. */
    ghost predicate Valid()
      reads this, Repr
    {
      && this in Repr && nKeys == |chains| == |maps| && nKeys > 0
      && (forall h :: 0 <= h < nKeys ==> chains[h] in Repr)
      && (forall h, i :: 0 <= h < nKeys && 0 <= i < |chains[h].nodes| ==> chains[h].nodes[i] in Repr)
      && (forall g, h :: 0 <= g < nKeys && 0 <= h < nKeys && g != h ==> Apart(chains[g], chains[h]))
      && (forall h :: 0 <= h < nKeys ==> chains[h].Valid() && MapOf(chains[h].slots) == maps[h])
      && Splits(maps, model)
    }

    /** What a lookup finds. */
    ghost function Entry(key: short): Option<V>
      reads this
    {
      if key in model then Some(model[key]) else None
    }

    /** mspInitHash. */
    constructor (nKeys: nat)
      requires nKeys > 0
      ensures Valid() && model == map[] && this.nKeys == nKeys && fresh(Repr)
    {
      hide HashCode, DistinctSlots, Chain.Valid;
      var made := EmptyChains(nKeys);
      this.nKeys, chains, model, Repr := nKeys, made, map[], {this} + (set c: object | c in made);
      maps := seq(nKeys, _ => map[]);
    }

    /** mspReadFromHash, and mspGetHashEntry as far as its callers use it. */
    method Read(key: short) returns (r: Option<V>)
      requires Valid()
      ensures r == Entry(key)
    {
      var h := CalcHashCode(key, nKeys);
      ghost var i;
      var n;
      n, i := chains[h].Find(key);
      r := if n == null then None else Some(n.val.data);
    }

    /** After a change to one chain that only drops nodes or adds new ones, the table is whole if
        the chain is, and the models were changed alike. */
    twostate lemma Reassembled(h: nat)
      requires old(Valid()) && h < nKeys
      requires forall n :: n in chains[h].nodes ==> n in Repr && (n in old(chains[h].nodes) || fresh(n))
      requires old(Repr) <= Repr
      requires forall o :: o in old(Repr) && o != this && o != chains[h] && o !in old(chains[h].nodes) ==> unchanged(o)
      requires chains[h].Valid()
      requires |maps| == nKeys && maps == old(maps)[h := MapOf(chains[h].slots)] && Splits(maps, model)
      ensures Valid()
    {
      hide HashCode, Splits, MapOf, DistinctSlots;
      forall g | 0 <= g < nKeys && g != h
        ensures chains[g].Valid() && MapOf(chains[g].slots) == maps[g] && unchanged(chains[g])
      {
        assert old(Apart(chains[g], chains[h]));
        forall i | 0 <= i < |chains[g].nodes| ensures unchanged(chains[g].nodes[i]) {
          assert chains[g].nodes[i] in old(chains[g].nodes);
        }
        assert old(chains[g].Valid() && MapOf(chains[g].slots) == maps[g]);
      }
      forall f, g | 0 <= f < nKeys && 0 <= g < nKeys && f != g ensures Apart(chains[f], chains[g]) {
        assert old(Apart(chains[f], chains[g]));
      }
    }

    /** mspDelFromHash. */
    method Delete(key: short)
      requires Valid()
      modifies Repr
      ensures Valid() && model == old(model) - {key} && Repr == old(Repr)
    {
      var h := CalcHashCode(key, nKeys);
      SplitsDelete(maps, model, key);
      chains[h].Delete(key);
      maps, model := maps[h := maps[h] - {key}], model - {key};
      Reassembled(h);
    }

    /** mspAddToHash. */
    method Add(key: short, data: V)
      requires Valid()
      modifies Repr
      ensures Valid() && model == With(old(model), key, data) && fresh(Repr - old(Repr))
    {
      ghost var before := model;
      Delete(key);
      Prepend(key, data);
      DeleteThenPut(before, key, data);
    }

    method Prepend(key: short, data: V)
      requires Valid() && key !in model
      modifies Repr
      ensures Valid() && model == With(old(model), key, data) && fresh(Repr - old(Repr))
    {
      hide HashCode, Chain.Valid, MapOf;
      var h := CalcHashCode(key, nKeys);
      SplitsAdd(maps, model, key, data);
      chains[h].Prepend(key, data);
      maps, model := maps[h := With(maps[h], key, data)], With(model, key, data);
      Repr := Repr + (set n: object | n in chains[h].nodes);
      Reassembled(h);
    }
  }

  ghost predicate Apart<V>(a: Chain<V>, b: Chain<V>)
    reads a, b
  {
    a != b && forall n :: n in a.nodes ==> n !in b.nodes
  }
}
