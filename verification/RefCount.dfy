/** Reference counting of cached values (src/store.c) under any interleaving of readers and writers. One step
    is what one thread does between two lock operations: the read/write lock of the cache, or the mutex of one
    counted value. Beside each count the model records who owns the references, so that the count can be
    compared with them. */
module RefCount {
  import opened Basics

  type ThreadId = nat
  type ValueId = nat
  type Slot = nat

  /** struct LDJSONRC. `holders` are the threads handed a reference they have not given back, `cached` the cache slot
      that owns one, `doomer` the thread that took the count to zero and has yet to destroy the value, `destroyed` the
      number of destructions. */
  datatype Value = Value(
    count: nat,
    holders: multiset<ThreadId>,
    cached: Option<Slot>,
    doomer: Option<ThreadId>,
    destroyed: nat)

  /** Where a thread stands. Doomed: it left the mutex of a value with count zero, the destruction is next.
      Dropping: a writer gave up the cache's reference of `slot` and has not unlinked the item yet. */
  datatype Phase =
    | Idle
    | ReadLocked(slot: Slot)
    | Found(value: ValueId)
    | ReadDone
    | Doomed(value: ValueId)
    | WriteLocked
    | Dropping(slot: Slot, value: ValueId, pending: bool)

  /** `writer` holds the cache's write lock; the threads in a reading phase hold its read lock. */
  datatype State = State(
    values: map<ValueId, Value>,
    cache: map<Slot, ValueId>,
    threads: map<ThreadId, Phase>,
    writer: Option<ThreadId>)

  datatype Step =
    | Spawn(t: ThreadId)
    | ReadLock(t: ThreadId, slot: Slot)
    | Lookup(t: ThreadId)
    | Skip(t: ThreadId)
    | Increment(t: ThreadId)
    | ReadUnlock(t: ThreadId)
    | Release(t: ThreadId, v: ValueId)
    | Destroy(t: ThreadId)
    | WriteLock(t: ThreadId)
    | Create(t: ThreadId, v: ValueId)
    | Link(t: ThreadId, v: ValueId, slot: Slot)
    | Drop(t: ThreadId, slot: Slot)
    | DestroyDropped(t: ThreadId)
    | Unlink(t: ThreadId)
    | WriteUnlock(t: ThreadId)

  predicate Reads(p: Phase) {
    p.ReadLocked? || p.Found? || p.ReadDone?
  }

  predicate Writes(p: Phase) {
    p.WriteLocked? || p.Dropping?
  }

  predicate Enabled(s: State, step: Step) {
    if step.Spawn? then step.t !in s.threads
    else if step.t !in s.threads then false
    else
      var p := s.threads[step.t];
      match step
      case Spawn(_) => false
      case ReadLock(_, _) => p.Idle? && s.writer == None
      case Lookup(_) => p.ReadLocked?
      case Skip(_) => p.Found?
      case Increment(_) => p.Found? && p.value in s.values
      case ReadUnlock(_) => p.ReadDone?
      case Release(t, v) => p.Idle? && v in s.values && t in s.values[v].holders
      case Destroy(_) => p.Doomed? && p.value in s.values
      case WriteLock(_) => p.Idle? && s.writer == None && forall t :: t in s.threads ==> !Reads(s.threads[t])
      case Create(_, v) => (p.Idle? || p.WriteLocked?) && v !in s.values
      case Link(t, v, slot) =>
        && p.WriteLocked?
        && v in s.values && t in s.values[v].holders && s.values[v].cached == None
        && slot !in s.cache
      case Drop(_, slot) => p.WriteLocked? && slot in s.cache && s.cache[slot] in s.values
      case DestroyDropped(_) => p.Dropping? && p.pending && p.value in s.values
      case Unlink(_) => p.Dropping? && !p.pending
      case WriteUnlock(_) => p.WriteLocked?
  }

  /** `count--`; the source asserts that the count is positive, which CountIsPositive proves. */
  function Less(count: nat): nat {
    if count == 0 then 0 else count - 1
  }

  function Moved(s: State, t: ThreadId, p: Phase): State {
    s.(threads := s.threads[t := p])
  }

  /** LDJSONRCIncrement by a reader under the read lock. */
  function Incremented(s: State, t: ThreadId, v: ValueId): State
    requires v in s.values
  {
    var val := s.values[v];
    Moved(s, t, ReadDone).(values := s.values[v := val.(count := val.count + 1, holders := val.holders + multiset{t})])
  }

  function DoomedBy(count: nat, t: ThreadId): Option<ThreadId> {
    if count == 0 then Some(t) else None
  }

  /** LDJSONRCDecrement by a holder, up to leaving the mutex. */
  function Released(s: State, t: ThreadId, v: ValueId): State
    requires v in s.values
  {
    var val := s.values[v];
    var count := Less(val.count);
    Moved(s, t, if count == 0 then Doomed(v) else Idle)
      .(values := s.values[v := val.(count := count, holders := val.holders - multiset{t},
        doomer := DoomedBy(count, t))])
  }

  /** destroyJSONRC, after which the thread goes on in phase `p`. */
  function Destroyed(s: State, t: ThreadId, p: Phase, v: ValueId): State
    requires v in s.values
  {
    var val := s.values[v];
    Moved(s, t, p).(values := s.values[v := val.(doomer := None, destroyed := val.destroyed + 1)])
  }

  /** A fresh value becomes the item of a free slot. */
  function Linked(s: State, t: ThreadId, v: ValueId, slot: Slot): State
    requires v in s.values
  {
    var val := s.values[v];
    s.(cache := s.cache[slot := v],
       values := s.values[v := val.(holders := val.holders - multiset{t}, cached := Some(slot))])
  }

  /** deleteAndRemoveCacheItem, up to leaving the value's mutex. */
  function Dropped(s: State, t: ThreadId, slot: Slot): State
    requires slot in s.cache && s.cache[slot] in s.values
  {
    var v := s.cache[slot];
    var val := s.values[v];
    var count := Less(val.count);
    Moved(s, t, Dropping(slot, v, count == 0))
      .(values := s.values[v := val.(count := count, cached := None, doomer := DoomedBy(count, t))])
  }

  function Next(s: State, step: Step): State
    requires Enabled(s, step)
  {
    var t := step.t;
    match step
    case Spawn(_) => Moved(s, t, Idle)
    case ReadLock(_, slot) => Moved(s, t, ReadLocked(slot))
    case Lookup(_) =>
      var slot := s.threads[t].slot;
      Moved(s, t, if slot in s.cache then Found(s.cache[slot]) else ReadDone)
    case Skip(_) => Moved(s, t, ReadDone)
    case Increment(_) => Incremented(s, t, s.threads[t].value)
    case ReadUnlock(_) => Moved(s, t, Idle)
    case Release(_, v) => Released(s, t, v)
    case Destroy(_) => Destroyed(s, t, Idle, s.threads[t].value)
    case WriteLock(_) => Moved(s, t, WriteLocked).(writer := Some(t))
    case Create(_, v) => s.(values := s.values[v := Value(1, multiset{t}, None, None, 0)])
    case Link(_, v, slot) => Linked(s, t, v, slot)
    case Drop(_, slot) => Dropped(s, t, slot)
    case DestroyDropped(_) => Destroyed(s, t, s.threads[t].(pending := false), s.threads[t].value)
    case Unlink(_) => Moved(s, t, WriteLocked).(cache := s.cache - {s.threads[t].slot})
    case WriteUnlock(_) => Moved(s, t, Idle).(writer := None)
  }

  const EMPTY := State(map[], map[], map[], None)

  predicate ValidRun(s: State, steps: seq<Step>)
    decreases |steps|
  {
    steps != [] ==> Enabled(s, steps[0]) && ValidRun(Next(s, steps[0]), steps[1..])
  }

  function After(s: State, steps: seq<Step>): State
    requires ValidRun(s, steps)
    decreases |steps|
  {
    if steps == [] then s else After(Next(s, steps[0]), steps[1..])
  }

  ghost predicate Reachable(s: State) {
    exists steps :: ValidRun(EMPTY, steps) && After(EMPTY, steps) == s
  }

  // ---------- invariant ----------

  predicate ThreadOk(s: State, t: ThreadId, p: Phase) {
    && (Writes(p) <==> s.writer == Some(t))
    && (Reads(p) ==> s.writer == None)
    && (p.Found? ==> p.value in s.values && s.values[p.value].cached.Some?)
    && (p.Doomed? ==> p.value in s.values && s.values[p.value].doomer == Some(t))
    && (p.Dropping? ==>
          && p.slot in s.cache && s.cache[p.slot] == p.value
          && p.value in s.values && s.values[p.value].cached == None
          && (p.pending ==> s.values[p.value].doomer == Some(t)))
  }

  /** The thread must still destroy `v`. */
  predicate Dooms(p: Phase, v: ValueId) {
    (p.Doomed? || (p.Dropping? && p.pending)) && p.value == v
  }

  predicate DroppingSlot(s: State, a: Slot) {
    && s.writer.Some? && s.writer.value in s.threads
    && s.threads[s.writer.value].Dropping? && s.threads[s.writer.value].slot == a
  }

  /** The cache owns the value of a slot unless the writer is giving it up. */
  predicate SlotOk(s: State, a: Slot, v: ValueId) {
    v in s.values && (s.values[v].cached == Some(a) || DroppingSlot(s, a))
  }

  /** The count is the number of owned references; the value dies once, by the one thread that is about to
      destroy it. */
  predicate ValueOk(s: State, v: ValueId, val: Value) {
    && val.count == (if val.cached.Some? then 1 else 0) + |val.holders|
    && (val.cached.Some? ==> val.cached.value in s.cache && s.cache[val.cached.value] == v)
    && val.destroyed <= 1
    && (val.count > 0 ==> val.destroyed == 0 && val.doomer == None)
    && (val.count == 0 ==> (val.destroyed == 0 <==> val.doomer.Some?))
    && (val.doomer.Some? ==> val.doomer.value in s.threads && Dooms(s.threads[val.doomer.value], v))
  }

  predicate Inv(s: State) {
    && (forall t :: t in s.threads ==> ThreadOk(s, t, s.threads[t]))
    && (forall a :: a in s.cache ==> SlotOk(s, a, s.cache[a]))
    && (forall v :: v in s.values ==> ValueOk(s, v, s.values[v]))
    && (s.writer.Some? ==> s.writer.value in s.threads)
  }

  lemma {:induction false} QuietMoveKeepsInv(s: State, t: ThreadId, p: Phase)
    requires Inv(s) && ThreadOk(s, t, p)
    requires t in s.threads ==> !s.threads[t].Doomed? && !s.threads[t].Dropping?
    ensures Inv(Moved(s, t, p))
  {
  }

  lemma {:induction false} IncrementKeepsInv(s: State, t: ThreadId)
    requires Inv(s) && t in s.threads && s.threads[t].Found?
    ensures Inv(Incremented(s, t, s.threads[t].value))
  {
    var v := s.threads[t].value;
    var s' := Incremented(s, t, v);
    assert ThreadOk(s, t, s.threads[t]);
    forall x | x in s'.values ensures ValueOk(s', x, s'.values[x]) {
      assert ValueOk(s, x, s.values[x]);
    }
    forall a | a in s'.cache ensures SlotOk(s', a, s'.cache[a]) {
      assert SlotOk(s, a, s.cache[a]);
    }
    forall u | u in s'.threads ensures ThreadOk(s', u, s'.threads[u]) {
      assert ThreadOk(s, u, s.threads[u]);
    }
  }

  lemma {:induction false} OnlyDoomer(s: State, v: ValueId)
    requires Inv(s) && v in s.values
    ensures forall u :: u in s.threads && Dooms(s.threads[u], v) ==> s.values[v].doomer == Some(u)
  {
  }

  lemma {:induction false} ReleaseKeepsValues(s: State, t: ThreadId, v: ValueId)
    requires Inv(s) && t in s.threads && s.threads[t].Idle? && v in s.values && t in s.values[v].holders
    ensures forall x :: x in s.values ==> ValueOk(Released(s, t, v), x, Released(s, t, v).values[x])
  {
    var s', val := Released(s, t, v), s.values[v];
    assert ValueOk(s, v, val) && |val.holders - multiset{t}| == |val.holders| - 1;
    assert ValueOk(s', v, s'.values[v]);
    forall x | x in s.values && x != v ensures ValueOk(s', x, s'.values[x]) {
      assert ValueOk(s, x, s.values[x]);
    }
  }

  lemma {:induction false} ReleaseKeepsThreads(s: State, t: ThreadId, v: ValueId)
    requires Inv(s) && t in s.threads && s.threads[t].Idle? && v in s.values && t in s.values[v].holders
    ensures forall u :: u in s.threads ==> ThreadOk(Released(s, t, v), u, Released(s, t, v).threads[u])
  {
  }

  lemma {:induction false} ReleaseKeepsInv(s: State, t: ThreadId, v: ValueId)
    requires Inv(s) && t in s.threads && s.threads[t].Idle? && v in s.values && t in s.values[v].holders
    ensures Inv(Released(s, t, v))
  {
    var s' := Released(s, t, v);
    assert s'.threads.Keys == s.threads.Keys && s'.values.Keys == s.values.Keys && s'.cache == s.cache;
    forall a | a in s.cache ensures SlotOk(s', a, s.cache[a]) {
      assert SlotOk(s, a, s.cache[a]) && ThreadOk(s, t, s.threads[t]);
    }
    ReleaseKeepsValues(s, t, v);
    ReleaseKeepsThreads(s, t, v);
  }

  /** A thread that holds the last trace of a value, and what it does next. */
  ghost predicate AboutToDestroy(s: State, t: ThreadId, p: Phase, v: ValueId) {
    && Inv(s) && t in s.threads && Dooms(s.threads[t], v) && v in s.values
    && p == if s.threads[t].Doomed? then Idle else s.threads[t].(pending := false)
  }

  lemma {:induction false} DestroyKeepsValues(s: State, t: ThreadId, p: Phase, v: ValueId)
    requires AboutToDestroy(s, t, p, v)
    ensures var s' := Destroyed(s, t, p, v); forall x :: x in s'.values ==> ValueOk(s', x, s'.values[x])
  {
    var s' := Destroyed(s, t, p, v);
    assert ThreadOk(s, t, s.threads[t]);
    forall x | x in s'.values ensures ValueOk(s', x, s'.values[x]) {
      assert ValueOk(s, x, s.values[x]);
    }
  }

  lemma {:induction false} DestroyKeepsSlots(s: State, t: ThreadId, p: Phase, v: ValueId)
    requires AboutToDestroy(s, t, p, v)
    ensures var s' := Destroyed(s, t, p, v); forall a :: a in s'.cache ==> SlotOk(s', a, s'.cache[a])
  {
    var s' := Destroyed(s, t, p, v);
    assert ThreadOk(s, t, s.threads[t]) && ValueOk(s, v, s.values[v]);
    forall a | a in s'.cache ensures SlotOk(s', a, s'.cache[a]) {
      assert SlotOk(s, a, s.cache[a]);
    }
  }

  lemma {:induction false} DestroyKeepsThreads(s: State, t: ThreadId, p: Phase, v: ValueId)
    requires AboutToDestroy(s, t, p, v)
    ensures var s' := Destroyed(s, t, p, v); forall u :: u in s'.threads ==> ThreadOk(s', u, s'.threads[u])
  {
    var s' := Destroyed(s, t, p, v);
    assert ThreadOk(s, t, s.threads[t]) && ValueOk(s, v, s.values[v]);
    OnlyDoomer(s, v);
    forall u | u in s'.threads ensures ThreadOk(s', u, s'.threads[u]) {
      assert ThreadOk(s, u, s.threads[u]);
    }
  }

  lemma {:induction false} DestroyKeepsInv(s: State, t: ThreadId, p: Phase, v: ValueId)
    requires AboutToDestroy(s, t, p, v)
    ensures Inv(Destroyed(s, t, p, v))
  {
    DestroyKeepsValues(s, t, p, v);
    DestroyKeepsSlots(s, t, p, v);
    DestroyKeepsThreads(s, t, p, v);
  }

  lemma {:induction false} CreateKeepsInv(s: State, t: ThreadId, v: ValueId)
    requires Inv(s) && v !in s.values
    ensures Inv(s.(values := s.values[v := Value(1, multiset{t}, None, None, 0)]))
  {
    var s' := s.(values := s.values[v := Value(1, multiset{t}, None, None, 0)]);
    forall x | x in s'.values ensures ValueOk(s', x, s'.values[x]) {
      if x != v { assert ValueOk(s, x, s.values[x]); }
    }
    forall a | a in s'.cache ensures SlotOk(s', a, s'.cache[a]) {
      assert SlotOk(s, a, s.cache[a]);
    }
    forall u | u in s'.threads ensures ThreadOk(s', u, s'.threads[u]) {
      assert ThreadOk(s, u, s.threads[u]);
    }
  }

  lemma {:induction false} LinkKeepsInv(s: State, t: ThreadId, v: ValueId, slot: Slot)
    requires Inv(s) && t in s.threads && s.threads[t].WriteLocked?
    requires v in s.values && t in s.values[v].holders && s.values[v].cached == None && slot !in s.cache
    ensures Inv(Linked(s, t, v, slot))
  {
    var s' := Linked(s, t, v, slot);
    assert ThreadOk(s, t, s.threads[t]);
    forall x | x in s'.values ensures ValueOk(s', x, s'.values[x]) {
      assert ValueOk(s, x, s.values[x]);
    }
    forall a | a in s'.cache ensures SlotOk(s', a, s'.cache[a]) {
      if a != slot { assert SlotOk(s, a, s.cache[a]); }
    }
    forall u | u in s'.threads ensures ThreadOk(s', u, s'.threads[u]) {
      assert ThreadOk(s, u, s.threads[u]);
    }
  }

  lemma {:induction false} DropKeepsInv(s: State, t: ThreadId, slot: Slot)
    requires Inv(s) && t in s.threads && s.threads[t].WriteLocked? && slot in s.cache && s.cache[slot] in s.values
    ensures Inv(Dropped(s, t, slot))
  {
    var s', v := Dropped(s, t, slot), s.cache[slot];
    assert ThreadOk(s, t, s.threads[t]) && SlotOk(s, slot, v) && ValueOk(s, v, s.values[v]);
    forall x | x in s'.values ensures ValueOk(s', x, s'.values[x]) {
      assert ValueOk(s, x, s.values[x]);
    }
    forall a | a in s'.cache ensures SlotOk(s', a, s'.cache[a]) {
      assert SlotOk(s, a, s.cache[a]);
    }
    forall u | u in s'.threads ensures ThreadOk(s', u, s'.threads[u]) {
      assert ThreadOk(s, u, s.threads[u]);
    }
  }

  lemma {:induction false} UnlinkKeepsInv(s: State, t: ThreadId)
    requires Inv(s) && t in s.threads && s.threads[t].Dropping? && !s.threads[t].pending
    ensures Inv(Moved(s, t, WriteLocked).(cache := s.cache - {s.threads[t].slot}))
  {
  }

  lemma {:induction false} WriteLockKeepsInv(s: State, t: ThreadId)
    requires Inv(s) && t in s.threads && s.threads[t].Idle? && s.writer == None
    requires forall u :: u in s.threads ==> !Reads(s.threads[u])
    ensures Inv(Moved(s, t, WriteLocked).(writer := Some(t)))
  {
  }

  lemma {:induction false} WriteUnlockKeepsInv(s: State, t: ThreadId)
    requires Inv(s) && t in s.threads && s.threads[t].WriteLocked?
    ensures Inv(Moved(s, t, Idle).(writer := None))
  {
  }

  lemma {:induction false} StepKeepsInv(s: State, step: Step)
    requires Inv(s) && Enabled(s, step)
    ensures Inv(Next(s, step))
  {
    var t := step.t;
    assert t in s.threads ==> ThreadOk(s, t, s.threads[t]);
    match step
    case Spawn(_) => QuietMoveKeepsInv(s, t, Idle);
    case ReadLock(_, slot) => QuietMoveKeepsInv(s, t, ReadLocked(slot));
    case Lookup(_) =>
      var slot := s.threads[t].slot;
      if slot in s.cache {
        assert SlotOk(s, slot, s.cache[slot]);
        QuietMoveKeepsInv(s, t, Found(s.cache[slot]));
      } else {
        QuietMoveKeepsInv(s, t, ReadDone);
      }
    case Skip(_) => QuietMoveKeepsInv(s, t, ReadDone);
    case Increment(_) => IncrementKeepsInv(s, t);
    case ReadUnlock(_) => QuietMoveKeepsInv(s, t, Idle);
    case Release(_, v) => ReleaseKeepsInv(s, t, v);
    case Destroy(_) => DestroyKeepsInv(s, t, Idle, s.threads[t].value);
    case WriteLock(_) => WriteLockKeepsInv(s, t);
    case Create(_, v) => CreateKeepsInv(s, t, v);
    case Link(_, v, slot) => LinkKeepsInv(s, t, v, slot);
    case Drop(_, slot) => DropKeepsInv(s, t, slot);
    case DestroyDropped(_) => DestroyKeepsInv(s, t, s.threads[t].(pending := false), s.threads[t].value);
    case Unlink(_) => UnlinkKeepsInv(s, t);
    case WriteUnlock(_) => WriteUnlockKeepsInv(s, t);
  }

  lemma {:induction false} EveryRunKeepsInv(s: State, steps: seq<Step>)
    requires Inv(s) && ValidRun(s, steps)
    ensures Inv(After(s, steps))
    decreases |steps|
  {
    if steps != [] {
      StepKeepsInv(s, steps[0]);
      EveryRunKeepsInv(Next(s, steps[0]), steps[1..]);
    }
  }

  lemma {:induction false} ReachableIsInv(s: State)
    requires Reachable(s)
    ensures Inv(s)
  {
    var steps :| ValidRun(EMPTY, steps) && After(EMPTY, steps) == s;
    EveryRunKeepsInv(EMPTY, steps);
  }

  // ---------- what every run guarantees ----------

  /** The cache itself owns a reference: a slot holds the value and no writer is giving it up. */
  predicate OwnedByCache(s: State, v: ValueId) {
    exists a :: a in s.cache && s.cache[a] == v && !DroppingSlot(s, a)
  }

  /** Each count is the one reference of the cache, if it has it, plus the references handed out and not returned. */
  lemma {:induction false} CountsAreExact(s: State, v: ValueId)
    requires Reachable(s) && v in s.values
    ensures s.values[v].count == (if OwnedByCache(s, v) then 1 else 0) + |s.values[v].holders|
  {
    ReachableIsInv(s);
    assert ValueOk(s, v, s.values[v]);
    if OwnedByCache(s, v) {
      var a :| a in s.cache && s.cache[a] == v && !DroppingSlot(s, a);
      assert SlotOk(s, a, v);
    }
  }

  /** Nobody can reach a destroyed value: not a holder, not a reader that just looked it up, not the cache. */
  lemma {:induction false} NoUseAfterDestroy(s: State, v: ValueId, t: ThreadId)
    requires Reachable(s) && v in s.values
    requires t in s.values[v].holders || (t in s.threads && s.threads[t] == Found(v)) || OwnedByCache(s, v)
    ensures s.values[v].destroyed == 0
  {
    ReachableIsInv(s);
    CountsAreExact(s, v);
    assert ValueOk(s, v, s.values[v]);
    if t in s.threads { assert ThreadOk(s, t, s.threads[t]); }
  }

  /** The assertion in LDJSONRCDecrement never fails: a count is positive whenever it is about to be decremented. */
  lemma {:induction false} CountIsPositive(s: State, step: Step)
    requires Reachable(s) && Enabled(s, step)
    ensures step.Release? ==> s.values[step.v].count > 0
    ensures step.Drop? ==> s.values[s.cache[step.slot]].count > 0
  {
    ReachableIsInv(s);
    if step.Release? {
      assert ValueOk(s, step.v, s.values[step.v]);
    } else if step.Drop? {
      var v := s.cache[step.slot];
      assert SlotOk(s, step.slot, v) && ValueOk(s, v, s.values[v]);
      assert ThreadOk(s, step.t, s.threads[step.t]);
    }
  }

  /** Never destroyed twice; and once every thread is idle, a value is destroyed exactly when nobody owns it. */
  lemma {:induction false} DestroyedExactlyOnce(s: State, v: ValueId)
    requires Reachable(s) && v in s.values
    ensures s.values[v].destroyed <= 1
    ensures (forall t :: t in s.threads ==> s.threads[t].Idle?) ==>
      (s.values[v].destroyed == 1 <==> !OwnedByCache(s, v) && s.values[v].holders == multiset{})
  {
    ReachableIsInv(s);
    CountsAreExact(s, v);
    assert ValueOk(s, v, s.values[v]);
  }

  // ---------- progress ----------

  /** How many steps a thread has still to make before it is idle. */
  function Left(p: Phase): nat {
    match p
    case Idle => 0
    case ReadLocked(_) => 3
    case Found(_) => 2
    case ReadDone => 1
    case Doomed(_) => 1
    case WriteLocked => 1
    case Dropping(_, _, pending) => if pending then 3 else 2
  }

  /** Whatever the others are doing, a thread in the middle of a call can go on, and is nearer its end then. */
  lemma {:induction false} NeverStuck(s: State, t: ThreadId) returns (step: Step)
    requires Reachable(s) && t in s.threads && !s.threads[t].Idle?
    ensures step.t == t && Enabled(s, step)
    ensures t in Next(s, step).threads && Left(Next(s, step).threads[t]) < Left(s.threads[t])
  {
    ReachableIsInv(s);
    assert ThreadOk(s, t, s.threads[t]);
    match s.threads[t] {
      case ReadLocked(_) => step := Lookup(t);
      case Found(_) => step := Increment(t);
      case ReadDone => step := ReadUnlock(t);
      case Doomed(_) => step := Destroy(t);
      case WriteLocked => step := WriteUnlock(t);
      case Dropping(_, _, pending) => step := if pending then DestroyDropped(t) else Unlink(t);
    }
  }

  lemma {:induction false} StepThen(s: State, step: Step, rest: seq<Step>)
    requires Enabled(s, step) && ValidRun(Next(s, step), rest)
    ensures ValidRun(s, [step] + rest) && After(s, [step] + rest) == After(Next(s, step), rest)
  {
    TailOfCons(step, rest);
  }

  function ReadSteps(t: ThreadId, slot: Slot): seq<Step> {
    [ReadLock(t, slot)] + ([Lookup(t)] + ([Increment(t)] + ([ReadUnlock(t)] + [])))
  }

  /** An undisturbed read of a slot hands its reader one more reference to the value cached there, and changes
      nothing else. */
  lemma {:induction false} ReadGetsTheCached(s: State, t: ThreadId, slot: Slot)
    requires Reachable(s) && t in s.threads && s.threads[t].Idle? && s.writer == None && slot in s.cache
    ensures ValidRun(s, ReadSteps(t, slot))
    ensures var v, s' := s.cache[slot], After(s, ReadSteps(t, slot));
      && v in s.values && s'.cache == s.cache && s'.threads == s.threads && s'.writer == None
      && s'.values == s.values[v :=
           s.values[v].(count := s.values[v].count + 1, holders := s.values[v].holders + multiset{t})]
  {
    ReachableIsInv(s);
    assert SlotOk(s, slot, s.cache[slot]);
    var s1 := Next(s, ReadLock(t, slot));
    var s2 := Next(s1, Lookup(t));
    var s3 := Next(s2, Increment(t));
    var s4 := Next(s3, ReadUnlock(t));
    StepThen(s3, ReadUnlock(t), []);
    StepThen(s2, Increment(t), [ReadUnlock(t)] + []);
    StepThen(s1, Lookup(t), [Increment(t)] + ([ReadUnlock(t)] + []));
    StepThen(s, ReadLock(t, slot), [Lookup(t)] + ([Increment(t)] + ([ReadUnlock(t)] + [])));
    assert s4.threads == s.threads;
  }

  function PutSteps(t: ThreadId, v: ValueId, slot: Slot): seq<Step> {
    [WriteLock(t)] + ([Link(t, v, slot)] + ([WriteUnlock(t)] + []))
  }

  /** An undisturbed write gives the writer's reference to the cache, under the slot, and changes nothing else. */
  lemma {:induction false} PutIsCached(s: State, t: ThreadId, v: ValueId, slot: Slot)
    requires t in s.threads && s.writer == None && forall u :: u in s.threads ==> s.threads[u].Idle?
    requires v in s.values && t in s.values[v].holders && s.values[v].cached == None && slot !in s.cache
    ensures ValidRun(s, PutSteps(t, v, slot))
    ensures var s' := After(s, PutSteps(t, v, slot));
      && s'.cache == s.cache[slot := v] && s'.threads == s.threads && s'.writer == None
      && s'.values == s.values[v :=
           s.values[v].(holders := s.values[v].holders - multiset{t}, cached := Some(slot))]
  {
    var s1 := Next(s, WriteLock(t));
    var s2 := Next(s1, Link(t, v, slot));
    var s3 := Next(s2, WriteUnlock(t));
    StepThen(s2, WriteUnlock(t), []);
    StepThen(s1, Link(t, v, slot), [WriteUnlock(t)] + []);
    StepThen(s, WriteLock(t), [Link(t, v, slot)] + ([WriteUnlock(t)] + []));
    assert s3.threads == s.threads;
  }
}
