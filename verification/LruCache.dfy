/** The cache of null/lru_cache.h: a circular doubly linked list, as std::list is one, and a
    map from keys to its nodes, both changed in place. It is proved to follow the recency
    list of LruSpec call by call, each key keeping its node.

    Assumption: clients do not write through the pointer that `get` returns. */
module LruCache {
  import opened Collections
  import opened LruSpec

  /** A list node; the list's own root has no data. */
  class Node<K, V> {
    var data: Option<(K, V)>
    var prev: Node<K, V>
    var next: Node<K, V>

    constructor (data: Option<(K, V)>)
      ensures this.data == data && prev == this && next == this
    {
      this.data := data;
      prev, next := this, this;
    }
  }

  /** The ring, from its root round to the root again. */
  ghost function Round<K, V>(root: Node<K, V>, nodes: seq<Node<K, V>>): seq<Node<K, V>> {
    [root] + nodes + [root]
  }

  ghost predicate DistinctNodes<K, V>(root: Node<K, V>, nodes: seq<Node<K, V>>) {
    root !in nodes && forall i, j :: 0 <= i < j < |nodes| ==> nodes[i] != nodes[j]
  }

  /** Neighbours on the way round point at each other. */
  ghost predicate Chained<K, V>(c: seq<Node<K, V>>)
    reads c
  {
    && (forall i :: 0 <= i < |c| - 1 ==> c[i].next == c[i + 1])
    && (forall i :: 0 < i < |c| ==> c[i].prev == c[i - 1])
  }

  ghost predicate Linked<K, V>(root: Node<K, V>, nodes: seq<Node<K, V>>)
    reads root, nodes
  {
    DistinctNodes(root, nodes) && Chained(Round(root, nodes))
  }

  ghost function Removed<T>(s: seq<T>, i: nat): seq<T>
    requires i < |s|
  {
    s[..i] + s[i + 1..]
  }

  /** Takes the i-th node out of the ring. */
  method Unlink<K, V>(root: Node<K, V>, ghost nodes: seq<Node<K, V>>, node: Node<K, V>, ghost i: nat)
    requires Linked(root, nodes) && i < |nodes| && nodes[i] == node
    modifies root, nodes
    ensures Linked(root, Removed(nodes, i))
    ensures forall x :: x in nodes || x == root ==> x.data == old(x.data)
  {
    ghost var c := Round(root, nodes);
    ghost var c' := Round(root, Removed(nodes, i));
    assert c[i] == node.prev && c[i + 1] == node && c[i + 2] == node.next;
    node.prev.next := node.next;
    node.next.prev := node.prev;
    assert forall j :: 0 <= j < |c'| ==> c'[j] == c[if j <= i then j else j + 1];
    forall j | 0 <= j < |c'| - 1 ensures c'[j].next == c'[j + 1] {
    }
    forall j | 0 < j < |c'| ensures c'[j].prev == c'[j - 1] {
    }
  }

  /** Puts a node outside the ring at its front. */
  method LinkFront<K, V>(root: Node<K, V>, ghost nodes: seq<Node<K, V>>, node: Node<K, V>)
    requires Linked(root, nodes) && node != root && node !in nodes
    modifies root, nodes, node
    ensures Linked(root, [node] + nodes)
    ensures forall x :: x in nodes || x == root || x == node ==> x.data == old(x.data)
  {
    ghost var c := Round(root, nodes);
    ghost var c' := Round(root, [node] + nodes);
    assert c[0] == root && c[1] == root.next;
    node.next := root.next;
    node.prev := root;
    root.next.prev := node;
    root.next := node;
    assert forall j :: 0 <= j < |c'| ==> c'[j] == if j == 0 then root else if j == 1 then node else c[j - 1];
    forall j | 0 <= j < |c'| - 1 ensures c'[j].next == c'[j + 1] {
      assert j > 1 ==> c[j - 1] == nodes[j - 2];
    }
    forall j | 0 < j < |c'| ensures c'[j].prev == c'[j - 1] {
      assert 1 < j < |c'| - 1 ==> c[j - 1] == nodes[j - 2];
    }
  }

  /** Takes the i-th node out and puts it in front. */
  method Splice<K, V>(root: Node<K, V>, ghost nodes: seq<Node<K, V>>, node: Node<K, V>, ghost i: nat)
    requires Linked(root, nodes) && i < |nodes| && nodes[i] == node
    modifies root, nodes
    ensures Linked(root, [node] + Removed(nodes, i))
    ensures forall j :: 0 <= j < |nodes| ==> nodes[j].data == old(nodes[j].data)
  {
    OutsideRemoved(root, nodes, i);
    AllRemain(nodes, i);
    ghost var rest := Removed(nodes, i);
    hide Linked, Removed;
    Unlink(root, nodes, node, i);
    LinkFront(root, rest, node);
  }

  lemma AllRemain<T>(s: seq<T>, i: nat)
    requires i < |s|
    ensures forall x :: x in s ==> x == s[i] || x in Removed(s, i)
  {
    forall x | x in s && x != s[i] ensures x in Removed(s, i) {
      var j :| 0 <= j < |s| && s[j] == x;
      assert Removed(s, i)[if j < i then j else j - 1] == x;
    }
  }

  /** The map sends each cached key to the node at that key's place in the list. Nodes are
      compared by identity here, whatever they hold. */
  ghost predicate Indexed<K, V>(index: map<K, Node<K, V>>, nodes: seq<Node<K, V>>, entries: seq<(K, V)>) {
    && |nodes| == |entries|
    && (forall i :: 0 <= i < |nodes| ==> entries[i].0 in index && index[entries[i].0] == nodes[i])
    && (forall k :: k in index ==> k in Keys(entries))
  }

  lemma IndexedMove<K, V>(index: map<K, Node<K, V>>, nodes: seq<Node<K, V>>, entries: seq<(K, V)>, i: nat, e: (K, V))
    requires Indexed(index, nodes, entries) && i < |nodes| && e.0 == entries[i].0
    ensures Indexed(index, [nodes[i]] + Removed(nodes, i), [e] + Removed(entries, i))
  {
    KeysMoved(entries, i, e);
    hide Keys;
  }

  lemma IndexedEvict<K, V>(index: map<K, Node<K, V>>, nodes: seq<Node<K, V>>, entries: seq<(K, V)>)
    requires Indexed(index, nodes, entries) && nodes != [] && Distinct(Keys(entries))
    ensures
      var n := |nodes| - 1;
      Indexed(index - {entries[n].0}, nodes[..n], entries[..n])
  {
    var n := |nodes| - 1;
    forall i | 0 <= i < n ensures entries[i].0 != entries[n].0 {
      assert Keys(entries)[i] != Keys(entries)[n];
    }
    forall k | k in index && k != entries[n].0 ensures k in Keys(entries[..n]) {
      var i :| 0 <= i < |Keys(entries)| && Keys(entries)[i] == k;
      assert Keys(entries[..n])[i] == k;
    }
  }

  lemma IndexedAdd<K, V>(index: map<K, Node<K, V>>, nodes: seq<Node<K, V>>, entries: seq<(K, V)>, node: Node<K, V>, e: (K, V))
    requires Indexed(index, nodes, entries) && e.0 !in index
    ensures Indexed(index[e.0 := node], [node] + nodes, [e] + entries)
  {
    KeysCons(e.0, e.1, entries);
    hide Keys;
  }

  /** The position of a cached key. */
  lemma Position<K, V>(index: map<K, Node<K, V>>, nodes: seq<Node<K, V>>, entries: seq<(K, V)>, k: K) returns (i: nat)
    requires Indexed(index, nodes, entries) && k in index
    ensures i < |nodes| && entries[i].0 == k && index[k] == nodes[i]
  {
    i :| 0 <= i < |Keys(entries)| && Keys(entries)[i] == k;
  }

  lemma IndexedIffFound<K, V>(index: map<K, Node<K, V>>, nodes: seq<Node<K, V>>, entries: seq<(K, V)>, k: K)
    requires Indexed(index, nodes, entries)
    ensures k in index <==> Find(entries, k).Some?
  {
    FindInKeys(entries, k);
    if k in Keys(entries) {
      var i :| 0 <= i < |Keys(entries)| && Keys(entries)[i] == k;
      assert entries[i].0 in index;
    }
  }

  /** The nodes hold the entries, in order. */
  ghost predicate Holds<K, V>(nodes: seq<Node<K, V>>, entries: seq<(K, V)>)
    reads nodes
  {
    |nodes| == |entries| && forall i :: 0 <= i < |nodes| ==> nodes[i].data == Some(entries[i])
  }

  datatype Creation<K, V> = Created(cache: LruCache<K, V>) | InvalidArgument

  class LruCache<K(==), V> {
    const capacity: nat
    const root: Node<K, V>
    var size: nat
    var index: map<K, Node<K, V>>
    ghost var nodes: seq<Node<K, V>>       // front to back
    ghost var entries: seq<(K, V)>         // what they hold
    ghost var trace: seq<Op<K, V>>         // the calls so far

    ghost predicate ListCurrent()
      reads this, root, nodes
    {
      Linked(root, nodes) && Holds(nodes, entries) && Indexed(index, nodes, entries) && size == |nodes|
    }

    ghost predicate Valid()
      reads this, root, nodes
    {
      && ListCurrent()
      && capacity > 0
      && entries == Run(capacity, trace)
    }

    constructor (capacity: nat)
      requires capacity > 0
      ensures Valid() && trace == [] && this.capacity == capacity
      ensures fresh(root) && nodes == []
    {
      this.capacity := capacity;
      root := new Node(None);
      size, index := 0, map[];
      nodes, entries, trace := [], [], [];
    }

    /** The constructor as a client meets it: capacity 0 is refused. */
    static method Make(capacity: nat) returns (r: Creation<K, V>)
      ensures r.InvalidArgument? <==> capacity == 0
      ensures r.Created? ==> fresh(r.cache) && r.cache.Valid() && r.cache.trace == [] && r.cache.capacity == capacity
    {
      if capacity == 0 {
        return InvalidArgument;
      }
      var cache := new LruCache(capacity);
      r := Created(cache);
    }

    /** splice of one node to the front; its data may just have been rewritten to `e`. */
    method MoveToFront(node: Node<K, V>, ghost i: nat, ghost e: (K, V))
      requires Linked(root, nodes) && Indexed(index, nodes, entries) && size == |nodes|
      requires i < |nodes| && nodes[i] == node && node.data == Some(e) && e.0 == entries[i].0
      requires forall j :: 0 <= j < |nodes| && j != i ==> nodes[j].data == Some(entries[j])
      modifies this`nodes, this`entries, root, nodes
      ensures ListCurrent()
      ensures nodes == [node] + Removed(old(nodes), i)
      ensures entries == [e] + Removed(old(entries), i)
    {
      IndexedMove(index, nodes, entries, i, e);
      MovedAt(nodes, entries, i, e);
      hide Indexed, Linked, Removed;
      Splice(root, nodes, node, i);
      nodes, entries := [node] + Removed(nodes, i), [e] + Removed(entries, i);
    }

    /** get: null on a miss; on a hit the node of `k`, moved to the front. */
    method Get(k: K) returns (r: Node?<K, V>)
      requires Valid()
      modifies this`nodes, this`entries, this`trace, root, nodes
      ensures Valid() && trace == old(trace) + [Op.Get(k)]
      ensures entries == AfterGet(old(entries), k)
      ensures index == old(index) && forall n :: n in nodes <==> n in old(nodes)
      ensures r == null <==> Find(old(entries), k).None?
      ensures r != null ==> k in index && r == index[k] && r.data == Some((k, Find(old(entries), k).value))
    {
      hide Linked, Indexed, Run, Without, Find, Distinct, Holds;
      RunIsDistinct(capacity, trace);
      RunSnoc(capacity, trace, Op.Get(k));
      IndexedIffFound(index, nodes, entries, k);
      if k !in index {
        r := null;
      } else {
        r := index[k];
        SpliceToFront(r, k);
      }
      trace := trace + [Op.Get(k)];
    }

    /** The splice of a hit, by key. */
    method SpliceToFront(node: Node<K, V>, k: K)
      requires ListCurrent() && Distinct(Keys(entries)) && k in index && node == index[k]
      modifies this`nodes, this`entries, root, nodes
      ensures ListCurrent() && forall n :: n in nodes <==> n in old(nodes)
      ensures Find(old(entries), k).Some? && node.data == Some((k, Find(old(entries), k).value))
      ensures entries == [(k, Find(old(entries), k).value)] + Without(old(entries), k)
    {
      ghost var i := Position(index, nodes, entries, k);
      EntryAt(entries, i);
      OthersStay(nodes, i);
      hide Linked, Indexed, Without, Find, Distinct, Keys;
      MoveToFront(node, i, entries[i]);
    }

    /** pop_back, and the key's entry in the map. */
    method EvictBack()
      requires ListCurrent() && nodes != [] && Distinct(Keys(entries))
      modifies this`nodes, this`entries, this`size, this`index, root, nodes
      ensures ListCurrent()
      ensures nodes == old(nodes)[..|old(nodes)| - 1] && entries == old(entries)[..|old(entries)| - 1]
      ensures index == old(index) - {old(entries)[|old(entries)| - 1].0}
    {
      hide Indexed, Linked, Distinct, Keys;
      ghost var n := |nodes| - 1;
      LastNode(root, nodes);
      IndexedEvict(index, nodes, entries);
      assert Removed(nodes, n) == nodes[..n];
      hide Removed;
      var back := root.prev;
      index := index - {back.data.value.0};
      size := size - 1;
      Unlink(root, nodes, back, n);
      nodes, entries := nodes[..n], entries[..n];
    }

    /** push_front of a new node, and its entry in the map. */
    method AddFront(k: K, v: V)
      requires ListCurrent() && k !in index
      modifies this`nodes, this`entries, this`size, this`index, root, nodes
      ensures ListCurrent()
      ensures entries == [(k, v)] + old(entries)
      ensures |nodes| > 0 && fresh(nodes[0]) && nodes[1..] == old(nodes) && index == old(index)[k := nodes[0]]
    {
      hide Indexed, Linked;
      var node := new Node(Some((k, v)));
      IndexedAdd(index, nodes, entries, node, (k, v));
      LinkFront(root, nodes, node);
      size := size + 1;
      index := index[k := node];
      nodes, entries := [node] + nodes, [(k, v)] + entries;
    }

    /** put: rewrites the value in place and moves the node to the front, or evicts the
        back if the cache is full and adds a new node in front. */
    method Put(k: K, v: V)
      requires Valid()
      modifies this`nodes, this`entries, this`trace, this`size, this`index, root, nodes
      ensures Valid() && trace == old(trace) + [Op.Put(k, v)]
      ensures entries == AfterPut(capacity, old(entries), k, v)
      ensures forall i :: 0 <= i < |nodes| ==> nodes[i] in old(nodes) || fresh(nodes[i])
      ensures forall key :: key in old(index) && key in index ==> index[key] == old(index)[key]
      ensures forall key :: key !in old(index) && key in index ==> fresh(index[key])
      ensures k in old(index) ==> index == old(index)
      ensures k in index
    {
      hide Linked, Indexed, Run, Without, Find, Distinct, Holds, Keys;
      RunIsDistinct(capacity, trace);
      RunSnoc(capacity, trace, Op.Put(k, v));
      IndexedIffFound(index, nodes, entries, k);
      if k in index {
        PutExisting(k, v);
      } else {
        SizeIsLength();
        PutNew(k, v);
      }
      trace := trace + [Op.Put(k, v)];
    }

    lemma SizeIsLength()
      requires ListCurrent()
      ensures size == |entries|
    {
    }

    method PutExisting(k: K, v: V)
      requires ListCurrent() && Distinct(Keys(entries)) && k in index
      modifies this`nodes, this`entries, root, nodes
      ensures ListCurrent() && forall n :: n in nodes <==> n in old(nodes)
      ensures entries == [(k, v)] + Without(old(entries), k)
    {
      var node := index[k];
      ghost var i := Position(index, nodes, entries, k);
      EntryAt(entries, i);
      OthersStay(nodes, i);
      hide Linked, Indexed, Without, Find, Distinct, Keys;
      RewriteData(node, i, (k, v));
      MoveToFront(node, i, (k, v));
    }

    method PutNew(k: K, v: V)
      requires ListCurrent() && Distinct(Keys(entries)) && k !in index && capacity > 0
      modifies this`nodes, this`entries, this`size, this`index, root, nodes
      ensures ListCurrent()
      ensures entries ==
        [(k, v)] + (if |old(entries)| >= capacity then old(entries)[..|old(entries)| - 1] else old(entries))
      ensures forall i :: 0 <= i < |nodes| ==> nodes[i] in old(nodes) || fresh(nodes[i])
      ensures forall key :: key in old(index) && key in index ==> index[key] == old(index)[key]
      ensures forall key :: key !in old(index) && key in index ==> fresh(index[key])
      ensures k in index
    {
      hide Linked, Indexed, Distinct, Keys;
      if size >= capacity {
        EvictBack();
      }
      AddFront(k, v);
      assert nodes == [nodes[0]] + nodes[1..];
    }

    /** Any further trace of calls. The node of a cached key is still there afterwards, the
        same node, exactly when at no point `capacity` distinct other keys had been touched
        since the last touch of that key; otherwise it was destroyed on the way. */
    method Replay(ops: seq<Op<K, V>>, k: K)
      requires Valid()
      modifies this, root, nodes
      ensures Valid() && trace == old(trace) + ops
      ensures forall i :: 0 <= i < |nodes| ==> nodes[i] in old(nodes) || fresh(nodes[i])
      ensures k in old(index) && NeverCrowdedOut(capacity, old(trace), ops, k) ==>
        k in index && index[k] == old(index)[k]
      ensures k in old(index) && !NeverCrowdedOut(capacity, old(trace), ops, k) && k in index ==>
        fresh(index[k])
    {
      hide Linked, Indexed, Run, Holds, AfterGet, AfterPut, NeverCrowdedOut, Touches, Before;
      ghost var start := trace;
      if k in index {
        CachedIsTouched(index, nodes, entries, capacity, start, k);
      }
      if ops == [] {
        assert start + ops == start;
        NeverCrowdedAtFirst(capacity, start, k);
      } else {
        var init := ops[..|ops| - 1];
        Replay(init, k);
        Call(ops[|ops| - 1]);
        assert start + ops == start + init + [ops[|ops| - 1]];
        if k in old(index) {
          IndexedIffNotCrowded(index, nodes, entries, capacity, start, ops, k);
          NeverCrowdedOutSnoc(capacity, start, ops, k);
        }
      }
    }

    method Call(op: Op<K, V>)
      requires Valid()
      modifies this, root, nodes
      ensures Valid() && trace == old(trace) + [op]
      ensures forall i :: 0 <= i < |nodes| ==> nodes[i] in old(nodes) || fresh(nodes[i])
      ensures forall key :: key in old(index) && key in index ==> index[key] == old(index)[key]
      ensures forall key :: key !in old(index) && key in index ==> fresh(index[key])
    {
      hide Linked, Indexed, Run, Holds, AfterGet, AfterPut;
      match op
      case Get(k) => var _ := Get(k);
      case Put(k, v) => Put(k, v);
    }

    /** Assignment through the iterator. */
    method RewriteData(node: Node<K, V>, ghost i: nat, e: (K, V))
      requires Linked(root, nodes) && i < |nodes| && nodes[i] == node
      requires Holds(nodes, entries)
      modifies node`data
      ensures Linked(root, nodes) && node.data == Some(e)
      ensures forall j :: 0 <= j < |nodes| && j != i ==> nodes[j].data == Some(entries[j])
    {
      node.data := Some(e);
    }
  }

  lemma CachedIsTouched<K, V>(index: map<K, Node<K, V>>, nodes: seq<Node<K, V>>, entries: seq<(K, V)>,
      capacity: nat, trace: seq<Op<K, V>>, k: K)
    requires Indexed(index, nodes, entries) && capacity > 0 && entries == Run(capacity, trace) && k in index
    ensures k in Touches(capacity, trace) && |Before(Touches(capacity, trace), k)| < capacity
  {
    IndexedIffFound(index, nodes, entries, k);
    CachedIffFewTouchedSince(capacity, trace, k);
  }

  lemma NeverCrowdedAtFirst<K, V>(capacity: nat, trace: seq<Op<K, V>>, k: K)
    ensures NeverCrowdedOut(capacity, trace, [], k) <==> |Before(Touches(capacity, trace), k)| < capacity
  {
    assert trace + [] == trace;
    var none: seq<Op<K, V>> := [];
    assert trace + none[..0] == trace;
  }

  lemma IndexedIffNotCrowded<K, V>(index: map<K, Node<K, V>>, nodes: seq<Node<K, V>>, entries: seq<(K, V)>,
      capacity: nat, start: seq<Op<K, V>>, ops: seq<Op<K, V>>, k: K)
    requires Indexed(index, nodes, entries) && capacity > 0 && entries == Run(capacity, start + ops)
    requires k in Touches(capacity, start)
    ensures k in index <==> |Before(Touches(capacity, start + ops), k)| < capacity
  {
    TouchesGrow(capacity, start, ops, k);
    IndexedIffFound(index, nodes, entries, k);
    CachedIffFewTouchedSince(capacity, start + ops, k);
  }

  lemma LastNode<K, V>(root: Node<K, V>, nodes: seq<Node<K, V>>)
    requires Linked(root, nodes) && nodes != []
    ensures root.prev == nodes[|nodes| - 1]
  {
    var c := Round(root, nodes);
    assert c[|c| - 1] == root && c[|c| - 2] == nodes[|nodes| - 1];
  }

  lemma MovedAt<A, B>(a: seq<A>, b: seq<B>, i: nat, e: B)
    requires |a| == |b| && i < |a|
    ensures |Removed(a, i)| == |Removed(b, i)| == |a| - 1
    ensures forall j :: 0 < j < |a| ==>
      var k := if j <= i then j - 1 else j;
      ([a[i]] + Removed(a, i))[j] == a[k] && ([e] + Removed(b, i))[j] == b[k]
  {
  }

  lemma OutsideRemoved<K, V>(root: Node<K, V>, nodes: seq<Node<K, V>>, i: nat)
    requires Linked(root, nodes) && i < |nodes|
    ensures nodes[i] != root && nodes[i] !in Removed(nodes, i)
    ensures forall x :: x in Removed(nodes, i) ==> x in nodes
  {
  }

  /** Taking a node out and putting it in front keeps which nodes there are. */
  lemma OthersStay<T>(s: seq<T>, i: nat)
    requires i < |s|
    ensures forall x :: x in s <==> x in [s[i]] + Removed(s, i)
    ensures (forall j, k :: 0 <= j < k < |s| ==> s[j] != s[k]) ==> s[i] !in Removed(s, i)
  {
    forall x | x in s ensures x in [s[i]] + Removed(s, i) {
      var j :| 0 <= j < |s| && s[j] == x;
      if j != i {
        assert Removed(s, i)[if j < i then j else j - 1] == x;
      }
    }
  }

  /** Moving an entry keeps which keys there are. */
  lemma KeysMoved<K, V>(es: seq<(K, V)>, i: nat, e: (K, V))
    requires i < |es| && e.0 == es[i].0
    ensures forall k :: k in Keys(es) <==> k in Keys([e] + Removed(es, i))
  {
    var moved := [e] + Removed(es, i);
    forall j | 0 <= j < |es| ensures Keys(es)[j] in Keys(moved) {
      assert Keys(moved)[if j < i then j + 1 else if j == i then 0 else j] == Keys(es)[j];
    }
    forall j | 0 <= j < |moved| ensures Keys(moved)[j] in Keys(es) {
      assert Keys(moved)[j] == Keys(es)[if j == 0 then i else if j <= i then j - 1 else j];
    }
  }
}
