/** Doubly linked nodes: the shape shared by the in-progress queue, the received queue and the hash
    chains, with the pointer surgery they all do. */
module Links {
  class Node<T> {
    var val: T
    var next: Node?<T>
    var prev: Node?<T>

    constructor (val: T)
      ensures this.val == val && next == null && prev == null
    {
      this.val, next, prev := val, null, null;
    }
  }

  function First<T>(s: seq<Node<T>>): Node?<T> {
    if s == [] then null else s[0]
  }

  function Last<T>(s: seq<Node<T>>): Node?<T> {
    if s == [] then null else s[|s| - 1]
  }

  /** The i-th node, or the end of the list. */
  function At<T>(s: seq<Node<T>>, i: nat): Node?<T> {
    if i < |s| then s[i] else null
  }

  /** The nodes of s, linked in that order in both directions. */
  ghost predicate Linked<T>(s: seq<Node<T>>)
    reads s
  {
    && (forall i {:trigger s[i].next} :: 0 <= i < |s| ==> s[i].next == if i + 1 < |s| then s[i + 1] else null)
    && (forall i {:trigger s[i].prev} :: 0 <= i < |s| ==> s[i].prev == if i > 0 then s[i - 1] else null)
  }

  /** No node can stand at two places of a list that ends. */
  lemma {:induction false} PlacesDiffer<T>(s: seq<Node<T>>, i: nat, j: nat)
    requires Linked(s) && i < j < |s|
    ensures s[i] != s[j]
    decreases |s| - j
  {
    assert s[i].next == s[i + 1];
    if j + 1 < |s| {
      assert s[j].next == s[j + 1];
      PlacesDiffer(s, i + 1, j + 1);
    } else {
      assert s[j].next == null;
    }
  }

  lemma {:induction false} Differs<T>(s: seq<Node<T>>, i: nat)
    requires Linked(s) && i < |s|
    ensures forall j :: 0 <= j < |s| && j != i ==> s[j] != s[i]
  {
    forall j | 0 <= j < |s| && j != i ensures s[j] != s[i] {
      if i < j { PlacesDiffer(s, i, j); } else { PlacesDiffer(s, j, i); }
    }
  }

  function Drop<T>(s: seq<T>, i: nat): seq<T>
    requires i < |s|
  {
    s[..i] + s[i + 1..]
  }

  /** All the nodes are in one set of objects and none is in the other. */
  ghost predicate Owned<T>(nodes: seq<Node<T>>, repr: set<object>, others: set<object>) {
    forall i {:trigger nodes[i]} :: 0 <= i < |nodes| ==> nodes[i] in repr && nodes[i] !in others
  }

  lemma {:induction false} OwnedDrop<T>(nodes: seq<Node<T>>, k: nat, repr: set<object>, others: set<object>)
    requires Owned(nodes, repr, others) && k < |nodes|
    ensures Owned(Drop(nodes, k), repr, others)
  {
    var t := Drop(nodes, k);
    forall i | 0 <= i < |t| ensures t[i] in repr && t[i] !in others {
      assert t[i] == nodes[if i < k then i else i + 1];
    }
  }

  /** The values the nodes hold, in order. */
  ghost predicate Hold<T>(s: seq<Node<T>>, v: seq<T>)
    reads s
  {
    |v| == |s| && forall i {:trigger v[i]} {:trigger s[i]} :: 0 <= i < |s| ==> v[i] == s[i].val
  }

  /** Takes node n, the i-th of s, out of its list; the caller adjusts its end pointers. */
  method Detach<T>(n: Node<T>, ghost s: seq<Node<T>>, ghost i: nat) returns (prev: Node?<T>, next: Node?<T>)
    requires Linked(s) && i < |s| && s[i] == n
    modifies s
    ensures Linked(Drop(s, i))
    ensures prev == (if i > 0 then s[i - 1] else null) && next == (if i + 1 < |s| then s[i + 1] else null)
    ensures forall m :: m in s ==> m.val == old(m.val)
  {
    prev, next := n.prev, n.next;
    if i > 0 { Differs(s, i - 1); }
    if i + 1 < |s| { Differs(s, i + 1); }
    assert s[i].prev == n.prev && s[i].next == n.next;
    if prev != null {
      prev.next := next;
    }
    if next != null {
      next.prev := prev;
    }
    ghost var t := Drop(s, i);
    assert forall j :: 0 <= j < |t| ==> t[j] == s[if j < i then j else j + 1];
  }

  /** Links a new node behind the last one of s. */
  method LinkLast<T>(n: Node<T>, last: Node?<T>, ghost s: seq<Node<T>>)
    requires Linked(s) && last == Last(s) && n !in s
    modifies n, s
    ensures Linked(s + [n])
    ensures n.val == old(n.val) && forall m :: m in s ==> m.val == old(m.val)
  {
    if s != [] { Differs(s, |s| - 1); }
    n.next, n.prev := null, last;
    if last != null {
      last.next := n;
    }
    ghost var t := s + [n];
    assert forall j :: 0 <= j < |s| ==> t[j] == s[j];
  }

  /** Links a new node in front of the first one of s. */
  method LinkFirst<T>(n: Node<T>, first: Node?<T>, ghost s: seq<Node<T>>)
    requires Linked(s) && first == First(s) && n !in s
    modifies n, s
    ensures Linked([n] + s)
    ensures n.val == old(n.val) && forall m :: m in s ==> m.val == old(m.val)
  {
    if s != [] { Differs(s, 0); }
    n.next, n.prev := first, null;
    if first != null {
      first.prev := n;
    }
    ghost var t := [n] + s;
    assert forall j :: 0 < j < |t| ==> t[j] == s[j - 1];
  }

  /** A queue of linked nodes with a tail pointer. */
  class LinkedQueue<T> {
    var first: Node?<T>
    var last: Node?<T>
    ghost var nodes: seq<Node<T>>
    ghost var contents: seq<T>

    ghost predicate Valid()
      reads this, nodes
    {
      Linked(nodes) && first == First(nodes) && last == Last(nodes) && Hold(nodes, contents)
    }

    constructor ()
      ensures Valid() && nodes == [] && contents == []
    {
      first, last, nodes, contents := null, null, [], [];
    }

    /** Adds a node at the tail. */
    method Append(n: Node<T>)
      requires Valid() && n !in nodes
      modifies this, n, nodes
      ensures Valid() && nodes == old(nodes) + [n] && n.val == old(n.val)
      ensures contents == old(contents) + [n.val]
    {
      LinkLast(n, last, nodes);
      if first == null {
        first := n;
      }
      last, nodes, contents := n, nodes + [n], contents + [n.val];
    }

    /** Takes node n, the i-th, out of the queue. */
    method Unlink(n: Node<T>, ghost i: nat)
      requires Valid() && i < |nodes| && nodes[i] == n
      modifies this, nodes
      ensures Valid() && nodes == Drop(old(nodes), i)
      ensures contents == Drop(old(contents), i) && n.val == old(n.val)
    {
      var prev, next := Detach(n, nodes, i);
      if prev == null {
        first := next;
      }
      if next == null {
        last := prev;
      }
      nodes, contents := Drop(nodes, i), Drop(contents, i);
    }

    /** Changes the value of node n, the i-th. */
    method Set(n: Node<T>, v: T, ghost i: nat)
      requires Valid() && i < |nodes| && nodes[i] == n
      modifies this`contents, n`val
      ensures Valid() && contents == old(contents)[i := v] && n.val == v
    {
      Differs(nodes, i);
      n.val, contents := v, contents[i := v];
    }
  }
}
