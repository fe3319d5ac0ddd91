/** The LRU set of user keys (src/lru.c) at pointer level: a circular doubly linked list whose nodes are
    also reachable from a hash, built from the CDL macros of third-party/include/utlist.h.
    The uthash table is modelled as a map from key to node. */
module Lru {
  import opened LruSpec

  class Node<K> {
    var key: K
    var next: Node?<K>
    var prev: Node?<K>

    constructor (key: K)
      ensures this.key == key
    {
      this.key := key;
      next, prev := null, null;
    }
  }

  function Succ(i: nat, n: nat): nat
    requires i < n
  {
    if i + 1 == n then 0 else i + 1
  }

  function Pred(i: nat, n: nat): nat
    requires i < n
  {
    if i == 0 then n - 1 else i - 1
  }

  /** `nodes` are distinct objects, all from the footprint `repr`. */
  ghost predicate Listed<K>(nodes: seq<Node<K>>, repr: set<Node<K>>) {
    && (forall i :: 0 <= i < |nodes| ==> nodes[i] in repr)
    && (forall i, j :: 0 <= i < j < |nodes| ==> nodes[i] != nodes[j])
  }

  /** `head` enters a well-formed ring that visits exactly `nodes`, in order. */
  ghost predicate Ring<K>(head: Node?<K>, nodes: seq<Node<K>>, repr: set<Node<K>>)
    reads repr`next, repr`prev
  {
    && Listed(nodes, repr)
    && head == (if nodes == [] then null else nodes[0])
    && (forall i {:trigger nodes[i].next} :: 0 <= i < |nodes| ==> nodes[i].next == nodes[Succ(i, |nodes|)])
    && (forall i {:trigger nodes[i].prev} :: 0 <= i < |nodes| ==> nodes[i].prev == nodes[Pred(i, |nodes|)])
  }

  ghost function Without<T>(s: seq<T>, i: nat): seq<T>
    requires i < |s|
  {
    s[..i] + s[i + 1..]
  }

  /** Bridging the neighbours of place `i` leaves a ring of the other nodes. */
  lemma {:induction false} RingCloses<K>(nodes: seq<Node<K>>, i: nat, head': Node<K>, repr: set<Node<K>>)
    requires Listed(nodes, repr) && i < |nodes| && |nodes| > 1
    requires head' == nodes[if i == 0 then 1 else 0]
    requires forall j {:trigger nodes[j].next} ::
               0 <= j < |nodes| && j != Pred(i, |nodes|) ==> nodes[j].next == nodes[Succ(j, |nodes|)]
    requires forall j {:trigger nodes[j].prev} ::
               0 <= j < |nodes| && j != Succ(i, |nodes|) ==> nodes[j].prev == nodes[Pred(j, |nodes|)]
    requires nodes[Pred(i, |nodes|)].next == nodes[Succ(i, |nodes|)]
    requires nodes[Succ(i, |nodes|)].prev == nodes[Pred(i, |nodes|)]
    ensures Ring(head', Without(nodes, i), repr)
  {
    var n, rest := |nodes|, Without(nodes, i);
    WithoutAt(nodes, i);
    ListedWithout(nodes, i, repr);
    forall k | 0 <= k < |rest| ensures rest[k].next == rest[Succ(k, n - 1)] {
      PlacesBridge(k, i, n);
    }
    forall k | 0 <= k < |rest| ensures rest[k].prev == rest[Pred(k, n - 1)] {
      PlacesBridge(k, i, n);
    }
  }

  lemma {:induction false} WithoutAt<T>(s: seq<T>, i: nat)
    requires i < |s|
    ensures |Without(s, i)| == |s| - 1 && forall k :: 0 <= k < |s| - 1 ==> Without(s, i)[k] == s[Place(k, i)]
  {
  }

  lemma {:induction false} ListedWithout<K>(nodes: seq<Node<K>>, i: nat, repr: set<Node<K>>)
    requires Listed(nodes, repr) && i < |nodes|
    ensures Listed(Without(nodes, i), repr)
  {
    WithoutAt(nodes, i);
  }

  /** Where place `k` was before place `i` was taken out. */
  function Place(k: nat, i: nat): nat {
    if k < i then k else k + 1
  }

  lemma {:induction false} PlacesBridge(k: nat, i: nat, n: nat)
    requires i < n && k < n - 1
    ensures var p := Place(k, i);
      && Place(Succ(k, n - 1), i) == (if Succ(p, n) == i then Succ(i, n) else Succ(p, n))
        && (Succ(p, n) == i <==> p == Pred(i, n))
      && Place(Pred(k, n - 1), i) == (if Pred(p, n) == i then Pred(i, n) else Pred(p, n))
        && (Pred(p, n) == i <==> p == Succ(i, n))
  {
  }

  /** CDL_DELETE2; `i` is the place of `del` in the ring. */
  method CdlDelete<K>(head: Node<K>, del: Node<K>, ghost nodes: seq<Node<K>>, ghost i: nat, ghost repr: set<Node<K>>)
    returns (head': Node?<K>)
    requires Ring(head, nodes, repr) && i < |nodes| && nodes[i] == del
    modifies repr`next, repr`prev
    ensures Ring(head', Without(nodes, i), repr)
  {
    ghost var n, p, q := |nodes|, Pred(i, |nodes|), Succ(i, |nodes|);
    assert del.next == nodes[q] && del.prev == nodes[p];
    assert head.next == nodes[Succ(0, n)];
    if head == del && head.next == head {
      assert n == 1;
      head' := null;
    } else {
      assert n > 1;
      del.next.prev := del.prev;
      del.prev.next := del.next;
      head' := if del == head then del.next else head;
      assert forall j {:trigger nodes[j].next} :: 0 <= j < n && j != p ==> nodes[j].next == nodes[Succ(j, n)];
      assert forall j {:trigger nodes[j].prev} :: 0 <= j < n && j != q ==> nodes[j].prev == nodes[Pred(j, n)];
      RingCloses(nodes, i, head', repr);
    }
  }

  /** CDL_PREPEND2 of a node outside the ring. */
  method CdlPrepend<K>(head: Node?<K>, add: Node<K>, ghost nodes: seq<Node<K>>, ghost repr: set<Node<K>>)
    returns (head': Node<K>)
    requires Ring(head, nodes, repr) && add in repr && forall i :: 0 <= i < |nodes| ==> nodes[i] != add
    modifies repr`next, repr`prev
    ensures Ring(head', [add] + nodes, repr)
  {
    ghost var all := [add] + nodes;
    if head != null {
      assert head.prev == nodes[|nodes| - 1];
      add.prev := head.prev;
      add.next := head;
      head.prev := add;
      add.prev.next := add;
      forall k | 0 <= k < |all|
        ensures all[k].next == all[Succ(k, |all|)] && all[k].prev == all[Pred(k, |all|)]
      {
        if k > 0 { assert all[k] == nodes[k - 1]; }
      }
    } else {
      add.prev := add;
      add.next := add;
    }
    head' := add;
  }

  /** The two macros LDLRUInsert runs on a node that is already listed. */
  method MoveToFront<K>(head: Node<K>, node: Node<K>, ghost nodes: seq<Node<K>>, ghost i: nat, ghost repr: set<Node<K>>)
    returns (head': Node<K>)
    requires Ring(head, nodes, repr) && i < |nodes| && nodes[i] == node
    modifies repr`next, repr`prev
    ensures Ring(head', [node] + Without(nodes, i), repr)
  {
    var rest := CdlDelete(head, node, nodes, i, repr);
    head' := CdlPrepend(rest, node, Without(nodes, i), repr);
  }

  /** The hash maps exactly the listed keys, each to the node at the same place. */
  ghost predicate Indexed<K>(hash: map<K, Node<K>>, nodes: seq<Node<K>>, keys: seq<K>) {
    && |keys| == |nodes|
    && (forall i :: 0 <= i < |keys| ==> keys[i] in hash && hash[keys[i]] == nodes[i])
    && (forall k :: k in hash ==> k in keys)
  }

  /** Every listed node carries its own key. */
  ghost predicate Keyed<K>(nodes: seq<Node<K>>, keys: seq<K>, repr: set<Node<K>>)
    requires |keys| == |nodes| && Listed(nodes, repr)
    reads repr`key
  {
    forall i :: 0 <= i < |nodes| ==> nodes[i].key == keys[i]
  }

  lemma {:induction false} DropListed<K>(
    hash: map<K, Node<K>>, nodes: seq<Node<K>>, keys: seq<K>, repr: set<Node<K>>, i: nat)
    requires Indexed(hash, nodes, keys) && Listed(nodes, repr) && i < |nodes|
    ensures Drop(keys, keys[i]) == Without(keys, i)
  {
    forall j | 0 <= j < i ensures keys[j] != keys[i] {
      assert hash[keys[j]] == nodes[j] && hash[keys[i]] == nodes[i];
    }
    DropByPosition(keys, i);
  }

  lemma {:induction false} IndexedAfterMove<K>(hash: map<K, Node<K>>, nodes: seq<Node<K>>, keys: seq<K>, i: nat)
    requires Indexed(hash, nodes, keys) && i < |nodes|
    ensures Indexed(hash, [nodes[i]] + Without(nodes, i), [keys[i]] + Without(keys, i))
  {
  }

  lemma {:induction false} KeyedAfterMove<K>(nodes: seq<Node<K>>, keys: seq<K>, i: nat, repr: set<Node<K>>)
    requires |keys| == |nodes| && Listed(nodes, repr) && Keyed(nodes, keys, repr) && i < |nodes|
    ensures Listed([nodes[i]] + Without(nodes, i), repr)
    ensures Keyed([nodes[i]] + Without(nodes, i), [keys[i]] + Without(keys, i), repr)
  {
  }

  lemma {:induction false} IndexedWithoutLast<K>(
    hash: map<K, Node<K>>, nodes: seq<Node<K>>, keys: seq<K>, repr: set<Node<K>>, last: nat)
    requires Indexed(hash, nodes, keys) && Listed(nodes, repr) && last + 1 == |nodes|
    ensures Indexed(hash - {keys[last]}, nodes[..last], keys[..last]) && Listed(nodes[..last], repr)
    ensures Without(nodes, last) == nodes[..last]
  {
    forall i | 0 <= i < last ensures keys[i] != keys[last] {
      assert hash[keys[i]] == nodes[i] && hash[keys[last]] == nodes[last];
    }
    assert keys == keys[..last] + [keys[last]];
  }

  lemma {:induction false} KeyedWithoutLast<K>(nodes: seq<Node<K>>, keys: seq<K>, repr: set<Node<K>>, last: nat)
    requires |keys| == |nodes| == last + 1 && Listed(nodes, repr) && Keyed(nodes, keys, repr)
    ensures Listed(nodes[..last], repr) && Keyed(nodes[..last], keys[..last], repr)
  {
  }

  lemma {:induction false} KeyedWithFirst<K>(
    nodes: seq<Node<K>>, keys: seq<K>, repr: set<Node<K>>, node: Node<K>, key: K)
    requires |keys| == |nodes| && Listed(nodes, repr) && Keyed(nodes, keys, repr) && Listed([node] + nodes, repr)
      && node.key == key
    ensures Keyed([node] + nodes, [key] + keys, repr)
  {
  }

  lemma {:induction false} IndexedWithFirst<K>(
    hash: map<K, Node<K>>, nodes: seq<Node<K>>, keys: seq<K>, repr: set<Node<K>>, node: Node<K>, key: K)
    requires Indexed(hash, nodes, keys) && Listed(nodes, repr) && node in repr && key !in hash
    requires forall i :: 0 <= i < |nodes| ==> nodes[i] != node
    ensures Indexed(hash[key := node], [node] + nodes, [key] + keys) && Listed([node] + nodes, repr)
  {
    forall i | 0 <= i < |keys| ensures keys[i] != key {
      assert keys[i] in hash;
    }
  }

  /** LDLRUInsert when the key is present: the hash stays as it is. */
  method MoveListed<K>(head: Node<K>, node: Node<K>, ghost nodes: seq<Node<K>>, ghost keys: seq<K>, ghost i: nat,
                       ghost hash: map<K, Node<K>>, ghost repr: set<Node<K>>)
    returns (head': Node<K>)
    requires Ring(head, nodes, repr) && i < |nodes| && nodes[i] == node
    requires Indexed(hash, nodes, keys) && Keyed(nodes, keys, repr)
    modifies repr`next, repr`prev
    ensures Ring(head', [node] + Without(nodes, i), repr)
    ensures Indexed(hash, [node] + Without(nodes, i), [keys[i]] + Without(keys, i))
    ensures Keyed([node] + Without(nodes, i), [keys[i]] + Without(keys, i), repr)
  {
    IndexedAfterMove(hash, nodes, keys, i);
    KeyedAfterMove(nodes, keys, i, repr);
    head' := MoveToFront(head, node, nodes, i, repr);
  }

  /** LDLRUInsert when the key is absent and the list is full: the last node leaves hash and ring. */
  method UnhookLast<K>(
    list: Node<K>, hash: map<K, Node<K>>, ghost nodes: seq<Node<K>>, ghost keys: seq<K>, ghost repr: set<Node<K>>)
    returns (node: Node<K>, list': Node?<K>, hash': map<K, Node<K>>)
    requires Ring(list, nodes, repr) && nodes != [] && Indexed(hash, nodes, keys) && Keyed(nodes, keys, repr)
    modifies repr`next, repr`prev
    ensures var last := |nodes| - 1;
      && node == nodes[last] && Ring(list', nodes[..last], repr)
      && Indexed(hash', nodes[..last], keys[..last]) && Keyed(nodes[..last], keys[..last], repr)
  {
    ghost var last := |nodes| - 1;
    node := list.prev;
    assert node == nodes[last] && node.key == keys[last];
    IndexedWithoutLast(hash, nodes, keys, repr, last);
    KeyedWithoutLast(nodes, keys, repr, last);
    hash' := hash - {node.key};
    list' := CdlDelete(list, node, nodes, last, repr);
  }

  /** LDLRUInsert, last part of the absent branch: key the node, put it in front, add it to the hash. */
  method HookFirst<K>(list: Node?<K>, hash: map<K, Node<K>>, node: Node<K>, key: K,
                      ghost nodes: seq<Node<K>>, ghost keys: seq<K>, ghost repr: set<Node<K>>)
    returns (list': Node<K>, hash': map<K, Node<K>>)
    requires Ring(list, nodes, repr) && Indexed(hash, nodes, keys) && Keyed(nodes, keys, repr)
    requires node in repr && (forall i :: 0 <= i < |nodes| ==> nodes[i] != node) && key !in hash
    modifies repr
    ensures Ring(list', [node] + nodes, repr) && Indexed(hash', [node] + nodes, [key] + keys)
    ensures Keyed([node] + nodes, [key] + keys, repr)
  {
    IndexedWithFirst(hash, nodes, keys, repr, node, key);
    node.key := key;
    KeyedWithFirst(nodes, keys, repr, node, key);
    list' := CdlPrepend(list, node, nodes, repr);
    hash' := hash[key := node];
  }

  class Set<K(==)> {
    var elements: nat
    const capacity: nat
    var list: Node?<K>
    var hash: map<K, Node<K>>
    ghost var nodes: seq<Node<K>>
    ghost var Repr: set<Node<K>>
    /** The keys, most recent first. */
    ghost var Contents: seq<K>

    ghost predicate Valid()
      reads this, Repr
    {
      && Ring(list, nodes, Repr)
      && elements == |nodes| <= capacity
      && Indexed(hash, nodes, Contents)
      && Keyed(nodes, Contents, Repr)
    }

    constructor (capacity: nat)
      ensures Valid() && Contents == [] && this.capacity == capacity && Repr == {}
    {
      elements := 0;
      this.capacity := capacity;
      list := null;
      hash := map[];
      nodes, Contents, Repr := [], [], {};
    }

    /** LDLRUInsert when the key is present: unlink its node and put it in front. */
    method Touch(node: Node<K>, ghost i: nat)
      requires Valid() && i < |nodes| && nodes[i] == node
      modifies this`list, this`nodes, this`Contents, Repr`next, Repr`prev
      ensures Valid()
      ensures Contents == [old(Contents)[i]] + Without(old(Contents), i)
    {
      ghost var ns, ks := nodes, Contents;
      nodes, Contents := [node] + Without(ns, i), [ks[i]] + Without(ks, i);
      list := MoveListed(list, node, ns, ks, i, hash, Repr);
    }

    /** LDLRUInsert when the key is absent and the list is full: the last node is unhooked and reused. */
    method Evict() returns (node: Node<K>)
      requires Valid() && elements == capacity != 0
      modifies this`list, this`hash, this`nodes, this`Contents, Repr`next, Repr`prev
      ensures Ring(list, nodes, Repr) && node in Repr
      ensures nodes == old(nodes)[..|old(nodes)| - 1] && node == old(nodes)[|old(nodes)| - 1]
      ensures Contents == old(Contents)[..|old(Contents)| - 1]
      ensures Indexed(hash, nodes, Contents) && Keyed(nodes, Contents, Repr)
    {
      ghost var ns, ks, last := nodes, Contents, |nodes| - 1;
      nodes, Contents := ns[..last], ks[..last];
      node, list, hash := UnhookLast(list, hash, ns, ks, Repr);
    }

    /** LDLRUInsert, last part of the absent branch. */
    method Push(node: Node<K>, key: K)
      requires Ring(list, nodes, Repr) && Indexed(hash, nodes, Contents) && Keyed(nodes, Contents, Repr)
      requires elements == |nodes| + 1 <= capacity
      requires node in Repr && (forall i :: 0 <= i < |nodes| ==> nodes[i] != node) && key !in hash
      modifies this`list, this`hash, this`nodes, this`Contents, Repr
      ensures Valid()
      ensures Contents == [key] + old(Contents)
    {
      ghost var ns, ks := nodes, Contents;
      nodes, Contents := [node] + ns, [key] + ks;
      list, hash := HookFirst(list, hash, node, key, ns, ks, Repr);
    }

    /** LDLRUInsert when the key is absent. */
    method InsertAbsent(key: K)
      requires Valid() && capacity > 0 && key !in hash
      modifies this, Repr
      ensures Valid() && fresh(Repr - old(Repr))
      ensures Contents == [key] + if |old(Contents)| == capacity then old(Contents)[..capacity - 1] else old(Contents)
    {
      var node;
      if elements == capacity {
        node := Evict();
      } else {
        node := Grow(key);
      }
      Push(node, key);
    }

    /** LDLRUInsert when the key is absent and there is room: a new node. */
    method Grow(key: K) returns (node: Node<K>)
      requires Valid() && elements < capacity
      modifies this`elements, this`Repr
      ensures Repr == old(Repr) + {node} && fresh(node) && elements == old(elements) + 1
      ensures Ring(list, nodes, Repr) && Indexed(hash, nodes, Contents) && Keyed(nodes, Contents, Repr)
      ensures forall i :: 0 <= i < |nodes| ==> nodes[i] != node
    {
      node := new Node(key);
      elements := elements + 1;
      Repr := Repr + {node};
    }

    /** LDLRUInsert. */
    method Insert(key: K) returns (answer: Answer)
      requires Valid()
      modifies this, Repr
      ensures Valid() && fresh(Repr - old(Repr))
      ensures Contents == Inserted(old(Contents), capacity, key)
      ensures answer == AnswerTo(old(Contents), capacity, key)
    {
      if capacity == 0 {
        return New;
      }
      if key in hash {
        ghost var i :| 0 <= i < |Contents| && Contents[i] == key;
        MoveToFrontSpec(hash, nodes, Contents, Repr, i, capacity);
        Touch(hash[key], i);
        answer := Existed;
      } else {
        AbsentSpec(hash, nodes, Contents, key, capacity);
        InsertAbsent(key);
        answer := New;
      }
    }

    /** LDLRUClear: empty the hash, then delete the nodes while walking the ring. */
    method Clear()
      requires Valid()
      modifies this, Repr
      ensures Valid() && Contents == [] && fresh(Repr - old(Repr))
    {
      while hash != map[]
        modifies this`hash
        decreases |hash|
      {
        var k :| k in hash;
        hash := hash - {k};
      }
      DeleteAll();
      elements := 0;
      list := null;
      hash := map[];
      nodes, Contents := [], [];
    }

    /** The CDL_FOREACH_SAFE2 loop: `last` stops the walk, `following` survives the deletion of `iter`. */
    method DeleteAll()
      requires Ring(list, nodes, Repr)
      modifies this`list, Repr`next, Repr`prev
      ensures list == null
    {
      var iter := list;
      var last := if list != null then list.prev else null;
      ghost var k := 0;
      while iter != null
        invariant 0 <= k <= |nodes|
        invariant Ring(list, nodes[k..], Repr) && iter == list
        invariant k < |nodes| ==> last == nodes[|nodes| - 1]
        decreases |nodes| - k
      {
        var following := iter.next;
        assert iter == nodes[k..][0] && (k + 1 < |nodes| ==> following == nodes[k + 1]);
        list := CdlDelete(list, iter, nodes[k..], 0, Repr);
        assert Without(nodes[k..], 0) == nodes[k + 1..];
        iter := if iter == last then null else following;
        k := k + 1;
      }
    }
  }

  lemma {:induction false} MoveToFrontSpec<K>(
    hash: map<K, Node<K>>, nodes: seq<Node<K>>, keys: seq<K>, repr: set<Node<K>>, i: nat, capacity: nat)
    requires Indexed(hash, nodes, keys) && Listed(nodes, repr) && i < |nodes| && capacity > 0
    ensures Inserted(keys, capacity, keys[i]) == [keys[i]] + Without(keys, i)
    ensures AnswerTo(keys, capacity, keys[i]) == Existed
  {
    DropListed(hash, nodes, keys, repr, i);
  }

  lemma {:induction false} AbsentSpec<K>(hash: map<K, Node<K>>, nodes: seq<Node<K>>, keys: seq<K>, k: K, capacity: nat)
    requires Indexed(hash, nodes, keys) && k !in hash && |nodes| <= capacity && capacity > 0
    ensures Inserted(keys, capacity, k) == [k] + if |keys| == capacity then keys[..capacity - 1] else keys
    ensures AnswerTo(keys, capacity, k) == New
  {
    assert k !in keys;
    if |keys| == capacity { CutByPosition(keys, capacity - 1); }
  }
}
