/** What src/lru.c computes: a duplicate-free list of keys, most recent first, and the law that decides its
    answers from the history of calls alone. */
module LruSpec {
  import opened Basics

  datatype Op<K> = Insert(key: K) | Clear
  datatype Answer = New | Existed

  ghost predicate NoDuplicates<K>(keys: seq<K>) {
    keys == [] || (keys[0] !in keys[1..] && NoDuplicates(keys[1..]))
  }

  /** `keys` without `k`. */
  function Drop<K(==)>(keys: seq<K>, k: K): seq<K> {
    if keys == [] then []
    else if keys[0] == k then keys[1..]
    else [keys[0]] + Drop(keys[1..], k)
  }

  /** The first `n` keys, or all of them when there are fewer. */
  function Cut<K>(keys: seq<K>, n: nat): seq<K> {
    if keys == [] || n == 0 then [] else [keys[0]] + Cut(keys[1..], n - 1)
  }

  /** LDLRUInsert on the list: move to front, or push and evict the last key when full. */
  function Inserted<K(==)>(keys: seq<K>, capacity: nat, k: K): seq<K> {
    if capacity == 0 then keys
    else if k in keys then [k] + Drop(keys, k)
    else if |keys| == capacity then [k] + Cut(keys, capacity - 1)
    else [k] + keys
  }

  function AnswerTo<K(==)>(keys: seq<K>, capacity: nat, k: K): Answer {
    if capacity != 0 && k in keys then Existed else New
  }

  /** The list after a whole history of calls. */
  function After<K(==)>(capacity: nat, ops: seq<Op<K>>): seq<K> {
    if ops == [] then []
    else match ops[|ops| - 1]
      case Clear => []
      case Insert(k) => Inserted(After(capacity, ops[..|ops| - 1]), capacity, k)
  }

  // ---------- the history law ----------

  /** `p` is the latest insertion of `k`, and nothing has been cleared since. */
  predicate LatestInsertion<K(==)>(ops: seq<Op<K>>, k: K, p: nat) {
    p < |ops| && ops[p] == Insert(k) && forall q :: p < q < |ops| ==> ops[q] != Insert(k) && ops[q] != Clear
  }

  /** The distinct keys inserted after position `p`. */
  function KeysAfter<K(==)>(ops: seq<Op<K>>, p: nat): set<K> {
    set q | p < q < |ops| && ops[q].Insert? :: ops[q].key
  }

  /** All distinct keys since the last clear, most recent first, with no capacity limit. */
  function Recency<K(==)>(ops: seq<Op<K>>): seq<K> {
    if ops == [] then []
    else match ops[|ops| - 1]
      case Clear => []
      case Insert(k) => [k] + Drop(Recency(ops[..|ops| - 1]), k)
  }

  /** The keys in front of `k`. */
  function Ahead<K(==)>(keys: seq<K>, k: K): set<K> {
    if keys == [] || keys[0] == k then {} else {keys[0]} + Ahead(keys[1..], k)
  }

  lemma {:induction false} DropMembers<K>(keys: seq<K>, k: K)
    requires NoDuplicates(keys)
    ensures NoDuplicates(Drop(keys, k))
    ensures forall x :: x in Drop(keys, k) <==> x in keys && x != k
    ensures |Drop(keys, k)| == |keys| - (if k in keys then 1 else 0)
  {
    if keys != [] {
      DropMembers(keys[1..], k);
    }
  }

  lemma {:induction false} RecencyIsDistinct<K>(ops: seq<Op<K>>)
    ensures NoDuplicates(Recency(ops))
  {
    if ops != [] {
      var before := ops[..|ops| - 1];
      RecencyIsDistinct(before);
      if ops[|ops| - 1].Insert? {
        DropMembers(Recency(before), ops[|ops| - 1].key);
        assert Recency(ops)[1..] == Drop(Recency(before), ops[|ops| - 1].key);
      }
    }
  }

  lemma {:induction false} CutLength<K>(keys: seq<K>, n: nat)
    ensures |Cut(keys, n)| == if |keys| <= n then |keys| else n
    ensures |keys| <= n ==> Cut(keys, n) == keys
    ensures forall x :: x in Cut(keys, n) ==> x in keys
    ensures forall m: nat :: m <= n ==> Cut(Cut(keys, n), m) == Cut(keys, m)
  {
    if keys != [] && n != 0 {
      CutLength(keys[1..], n - 1);
      var cut := Cut(keys, n);
      assert cut[1..] == Cut(keys[1..], n - 1);
      forall m: nat | m <= n ensures Cut(cut, m) == Cut(keys, m) {
        if m > 0 { assert Cut(cut[1..], m - 1) == Cut(keys[1..], m - 1); }
      }
    }
  }

  /** Dropping a visible key commutes with the cut; dropping a hidden one does not show. */
  lemma {:induction false} DropUnderCut<K>(keys: seq<K>, n: nat, k: K)
    requires NoDuplicates(keys) && n >= 1
    ensures k in Cut(keys, n) ==> Drop(Cut(keys, n), k) == Cut(Drop(keys, k), n - 1)
    ensures k !in Cut(keys, n) ==> Cut(keys, n - 1) == Cut(Drop(keys, k), n - 1)
  {
    if keys != [] {
      var cut := Cut(keys, n);
      assert cut[1..] == Cut(keys[1..], n - 1);
      if keys[0] != k {
        assert Drop(keys, k)[1..] == Drop(keys[1..], k);
        if n > 1 { DropUnderCut(keys[1..], n - 1, k); }
      }
    }
  }

  /** One call commutes with cutting the recency list at the capacity. */
  lemma {:induction false} InsertUnderCut<K>(keys: seq<K>, capacity: nat, k: K)
    requires NoDuplicates(keys) && capacity >= 1
    ensures Inserted(Cut(keys, capacity), capacity, k) == Cut([k] + Drop(keys, k), capacity)
  {
    var cut, rest := Cut(keys, capacity), Drop(keys, k);
    DropUnderCut(keys, capacity, k);
    CutLength(keys, capacity);
    assert Cut([k] + rest, capacity) == [k] + Cut(rest, capacity - 1) by { assert ([k] + rest)[1..] == rest; }
    if k !in cut && |cut| < capacity {
      CutLength(keys, capacity - 1);
    }
  }

  /** The capacity only ever hides the tail of the recency list. */
  lemma {:induction false} CapacityCutsRecency<K>(capacity: nat, ops: seq<Op<K>>)
    requires capacity >= 1
    ensures After(capacity, ops) == Cut(Recency(ops), capacity)
  {
    if ops != [] {
      var before := ops[..|ops| - 1];
      CapacityCutsRecency(capacity, before);
      RecencyIsDistinct(before);
      if ops[|ops| - 1].Insert? {
        InsertUnderCut(Recency(before), capacity, ops[|ops| - 1].key);
      }
    }
  }

  lemma {:induction false} AheadUnderDrop<K>(keys: seq<K>, j: K, k: K)
    requires NoDuplicates(keys) && j != k
    ensures Ahead(Drop(keys, j), k) == Ahead(keys, k) - {j}
    ensures Ahead(keys, k) <= set x | x in keys
  {
    if keys != [] {
      AheadUnderDrop(keys[1..], j, k);
      if keys[0] != j {
        assert Drop(keys, j)[1..] == Drop(keys[1..], j);
      }
    }
  }

  /** A key survives the cut exactly when fewer than `n` keys are in front of it. */
  lemma {:induction false} VisibleIff<K>(keys: seq<K>, n: nat, k: K)
    requires NoDuplicates(keys)
    ensures k in Cut(keys, n) <==> k in keys && |Ahead(keys, k)| < n
    ensures Ahead(keys, k) <= set x | x in keys
  {
    if keys != [] && keys[0] != k {
      VisibleIff(keys[1..], if n == 0 then 0 else n - 1, k);
      assert keys[0] !in Ahead(keys[1..], k);
    }
  }

  lemma {:induction false} KeysAfterGrow<K>(before: seq<Op<K>>, j: K, p: nat)
    requires p < |before|
    ensures KeysAfter(before + [Insert(j)], p) == KeysAfter(before, p) + {j}
  {
    var ops := before + [Insert(j)];
    assert ops[|before|].Insert? && ops[|before|].key == j;
    forall x | x in KeysAfter(before, p) ensures x in KeysAfter(ops, p) {
      var q :| p < q < |before| && before[q].Insert? && before[q].key == x;
      assert ops[q] == before[q];
    }
  }

  /** The keys in front of `k` are the distinct other keys inserted since. */
  lemma {:induction false} AheadIsKeysAfter<K>(ops: seq<Op<K>>, k: K, p: nat)
    requires LatestInsertion(ops, k, p)
    ensures k in Recency(ops) && Ahead(Recency(ops), k) == KeysAfter(ops, p)
  {
    var n := |ops| - 1;
    var before, j := ops[..n], ops[n].key;
    var old' := Recency(before);
    assert ops == before + [Insert(j)];
    assert Recency(ops) == [j] + Drop(old', j);
    if p < n {
      assert LatestInsertion(before, k, p);
      AheadIsKeysAfter(before, k, p);
      RecencyIsDistinct(before);
      AheadAfterPush(old', j, k);
      KeysAfterGrow(before, j, p);
    } else {
      assert KeysAfter(ops, p) == {};
    }
  }

  lemma {:induction false} AheadAfterPush<K>(keys: seq<K>, j: K, k: K)
    requires NoDuplicates(keys) && j != k && k in keys
    ensures k in [j] + Drop(keys, j)
    ensures Ahead([j] + Drop(keys, j), k) == Ahead(keys, k) + {j}
  {
    DropMembers(keys, j);
    AheadUnderDrop(keys, j, k);
    TailOfCons(j, Drop(keys, j));
  }

  lemma {:induction false} RecencyHasInsertion<K>(ops: seq<Op<K>>, k: K) returns (p: nat)
    requires k in Recency(ops)
    ensures LatestInsertion(ops, k, p)
  {
    var n := |ops| - 1;
    var before, j := ops[..n], ops[n].key;
    if j == k {
      p := n;
    } else {
      var rest := Drop(Recency(before), j);
      assert Recency(ops) == [j] + rest;
      assert k in rest;
      assert k in Recency(before) by {
        RecencyIsDistinct(before);
        DropMembers(Recency(before), j);
      }
      p := RecencyHasInsertion(before, k);
      assert forall q :: p < q < n ==> ops[q] == before[q];
    }
  }

  /** Stack-distance law. For capacity at least 1, a key is answered EXISTED exactly when it was inserted since the
      last clear and fewer than `capacity` distinct other keys have been inserted since its latest insertion. */
  lemma {:induction false} StackDistanceLaw<K>(capacity: nat, ops: seq<Op<K>>, k: K)
    requires capacity >= 1
    ensures AnswerTo(After(capacity, ops), capacity, k) == Existed
      <==> exists p :: LatestInsertion(ops, k, p) && |KeysAfter(ops, p)| < capacity
  {
    CapacityCutsRecency(capacity, ops);
    RecencyIsDistinct(ops);
    VisibleIff(Recency(ops), capacity, k);
    if k in Recency(ops) {
      var p := RecencyHasInsertion(ops, k);
      AheadIsKeysAfter(ops, k, p);
    }
    forall p | LatestInsertion(ops, k, p)
      ensures k in Recency(ops) && Ahead(Recency(ops), k) == KeysAfter(ops, p)
    {
      AheadIsKeysAfter(ops, k, p);
    }
  }

  /** A clear forgets everything before it. */
  lemma {:induction false} ClearForgets<K>(capacity: nat, before: seq<Op<K>>, window: seq<Op<K>>)
    requires before == [] || before[|before| - 1] == Clear
    ensures After(capacity, before + window) == After(capacity, window)
    decreases |window|
  {
    if window == [] {
      assert before + window == before;
    } else {
      var n := |window| - 1;
      var ops := before + window;
      ClearForgets(capacity, before, window[..n]);
      assert ops[..|ops| - 1] == before + window[..n] && ops[|ops| - 1] == window[n];
    }
  }

  predicate AllInserts<K>(ops: seq<Op<K>>) {
    forall q :: 0 <= q < |ops| ==> ops[q].Insert?
  }

  function KeysOf<K(==)>(ops: seq<Op<K>>): set<K> {
    set q | 0 <= q < |ops| && ops[q].Insert? :: ops[q].key
  }

  /** One window, opened by a clear or by construction: while its distinct keys fit the capacity, a key is answered NEW
      exactly at its first insertion in the window. */
  lemma {:induction false} OneNewAnswerPerWindow<K>(capacity: nat, before: seq<Op<K>>, window: seq<Op<K>>, p: nat)
    requires before == [] || before[|before| - 1] == Clear
    requires AllInserts(window) && |KeysOf(window)| <= capacity && p < |window|
    ensures AnswerTo(After(capacity, before + window[..p]), capacity, window[p].key) == New
      <==> forall q :: 0 <= q < p ==> window[q] != window[p]
  {
    ClearForgets(capacity, before, window[..p]);
    var users := KeysOf(window);
    var k, past := window[p].key, window[..p];
    assert k in users;
    StackDistanceLaw(capacity, past, k);
    if q :| 0 <= q < p && window[q] == window[p] {
      var last := LastOccurrence(past, k, q);
      assert KeysAfter(past, last) <= users - {k};
      SubsetSize(KeysAfter(past, last), users - {k});
    } else {
      assert forall q :: !LatestInsertion(past, k, q);
    }
  }

  lemma {:induction false} LastOccurrence<K>(ops: seq<Op<K>>, k: K, q: nat) returns (p: nat)
    requires q < |ops| && ops[q] == Insert(k) && forall i :: 0 <= i < |ops| ==> ops[i] != Clear
    ensures LatestInsertion(ops, k, p)
    decreases |ops| - q
  {
    if later :| q < later < |ops| && ops[later] == Insert(k) {
      p := LastOccurrence(ops, k, later);
    } else {
      p := q;
    }
  }

  // ---------- the same operations by position, as the linked list performs them ----------

  lemma {:induction false} CutByPosition<K>(keys: seq<K>, n: nat)
    requires n <= |keys|
    ensures Cut(keys, n) == keys[..n]
  {
    if n > 0 {
      CutByPosition(keys[1..], n - 1);
      assert keys[..n] == [keys[0]] + keys[1..][..n - 1];
    }
  }

  lemma {:induction false} DropByPosition<K>(keys: seq<K>, i: nat)
    requires i < |keys| && forall j :: 0 <= j < i ==> keys[j] != keys[i]
    ensures Drop(keys, keys[i]) == keys[..i] + keys[i + 1..]
  {
    if i > 0 {
      var tail := keys[1..];
      assert keys[i] == tail[i - 1] && forall j :: 0 <= j < i - 1 ==> tail[j] == keys[j + 1];
      DropByPosition(tail, i - 1);
      assert keys[..i] == [keys[0]] + tail[..i - 1];
      assert keys[i + 1..] == tail[i..];
    }
  }
}
