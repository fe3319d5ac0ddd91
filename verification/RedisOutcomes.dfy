/** What an ended call of the Redis store answered and did, read off the hashes of the sequential history. */
module RedisOutcomes {
  import opened Basics
  import opened RedisUpsert

  lemma {:induction false} Entered(s: State, i: nat)
    requires Reachable(s) && i < |s.log|
    ensures Legal(Replay(s.log[..i]), s.log[i]) && Replay(s.log[..i + 1]) == Effect(Replay(s.log[..i]), s.log[i])
  {
    RefinesAtomicCalls(s);
    assert s.log[..i + 1][..i] == s.log[..i];
  }

  /** In every reachable state, each upsert of the log answered by what was stored at its key: Skipped for a live
      item of the same or a higher version, Failed for an unreadable one, Wrote otherwise. */
  lemma {:induction false} UpsertOutcomes(s: State, i: nat)
    requires Reachable(s) && i < |s.log| && s.log[i].call.Upsert?
    ensures
      var u, outcome := s.log[i].call, s.log[i].outcome;
      var hash := Hash(Replay(s.log[..i]), u.kind);
      && (outcome == Skipped <==>
           u.key in hash && hash[u.key].Feature? && !hash[u.key].deleted && hash[u.key].version >= u.version)
      && (outcome == Failed <==> u.key in hash && hash[u.key].Unparsable?)
  {
    Entered(s, i);
  }

  /** It wrote its own version, deletion mark and body under its own key if it answered Wrote, and nothing else. */
  lemma {:induction false} UpsertEffects(s: State, i: nat)
    requires Reachable(s) && i < |s.log| && s.log[i].call.Upsert?
    ensures
      var u, before, after := s.log[i].call, Replay(s.log[..i]), Replay(s.log[..i + 1]);
      if s.log[i].outcome != Wrote then after == before
      else WritesOnly(before, after, u.kind, u.key, Feature(u.version, u.deleted, u.body))
  {
    Entered(s, i);
    SingletonTransaction(Replay(s.log[..i]), Commands(s.log[i].call)[0]);
  }

  ghost predicate WritesOnly(before: Database, after: Database, kind: Kind, key: Key, value: Stored) {
    && after.inited == before.inited
    && Hash(after, kind) == Hash(before, kind)[key := value]
    && forall other :: other != kind ==> Hash(after, other) == Hash(before, other)
  }

  // ---------- initialisation ----------

  lemma {:induction false} ApplyBoth(db: Database, first: seq<Command>, second: seq<Command>)
    ensures ApplyAll(db, first + second) == ApplyAll(ApplyAll(db, first), second)
    decreases |second|
  {
    if second == [] {
      EmptyEnds(first);
    } else {
      var n := |second| - 1;
      ApplyBoth(db, first, second[..n]);
      assert (first + second)[..|first| + n] == first + second[..n];
    }
  }

  /** The last item under its key. */
  predicate LastUnderKey(items: seq<Item>, j: int) {
    0 <= j < |items| && forall k :: j < k < |items| ==> items[k].key != items[j].key
  }

  predicate Named(items: seq<Item>, key: Key) {
    exists j :: 0 <= j < |items| && items[j].key == key
  }

  /** The hash holds exactly the keys of the items, each with its last value. */
  ghost predicate HoldsItems(hash: map<Key, Stored>, items: seq<Item>) {
    && (forall key :: key in hash <==> Named(items, key))
    && forall j :: LastUnderKey(items, j) ==> items[j].key in hash && hash[items[j].key] == items[j].value
  }

  lemma {:induction false} OneMoreItem(hash: map<Key, Stored>, items: seq<Item>, item: Item)
    requires HoldsItems(hash, items)
    ensures HoldsItems(hash[item.key := item.value], items + [item])
  {
    var items', hash' := items + [item], hash[item.key := item.value];
    forall key ensures Named(items', key) <==> Named(items, key) || key == item.key {
      if j :| 0 <= j < |items| && items[j].key == key { assert items'[j].key == key; }
      assert items'[|items|] == item;
    }
    forall j | LastUnderKey(items', j) ensures items'[j].key in hash' && hash'[items'[j].key] == items'[j].value {
      if j < |items| {
        assert items'[|items|].key != items'[j].key;
        forall k | j < k < |items| ensures items[k].key != items[j].key { assert items'[k] == items[k]; }
        assert LastUnderKey(items, j);
      }
    }
  }

  lemma {:induction false} SetsFill(db: Database, kind: Kind, items: seq<Item>)
    requires Hash(db, kind) == map[]
    ensures var db' := ApplyAll(db, Sets(kind, items));
      && HoldsItems(Hash(db', kind), items)
      && forall other :: other != kind ==> Hash(db', other) == Hash(db, other)
    decreases |items|
  {
    if items != [] {
      var n := |items| - 1;
      var item, sets := items[n], Sets(kind, items[..n]);
      SetsFill(db, kind, items[..n]);
      ApplyBoth(db, sets, [HSet(kind, item.key, item.value)]);
      SingletonTransaction(ApplyAll(db, sets), HSet(kind, item.key, item.value));
      OneMoreItem(Hash(ApplyAll(db, sets), kind), items[..n], item);
      assert items[..n] + [item] == items;
    }
  }

  predicate LastOfKind(collections: seq<Collection>, kind: Kind, i: int) {
    0 <= i < |collections| && collections[i].kind == kind
      && forall j :: i < j < |collections| ==> collections[j].kind != kind
  }

  predicate Filled(collections: seq<Collection>, kind: Kind) {
    exists i :: 0 <= i < |collections| && collections[i].kind == kind
  }

  /** A hash no collection names is as before; any other holds exactly the items of the last that does. */
  ghost predicate Replaced(
    before: map<Key, Stored>, after: map<Key, Stored>, collections: seq<Collection>, kind: Kind) {
    && (!Filled(collections, kind) ==> after == before)
    && forall i :: LastOfKind(collections, kind, i) ==> HoldsItems(after, collections[i].items)
  }

  lemma {:induction false} OneMoreCollection(
    before: map<Key, Stored>, middle: map<Key, Stored>, after: map<Key, Stored>,
    collections: seq<Collection>, last: Collection, kind: Kind)
    requires Replaced(before, middle, collections, kind)
    requires if last.kind == kind then HoldsItems(after, last.items) else after == middle
    ensures Replaced(before, after, collections + [last], kind)
  {
    var all := collections + [last];
    assert all[|collections|] == last;
    if i :| 0 <= i < |collections| && collections[i].kind == kind { assert all[i].kind == kind; }
    forall i | LastOfKind(all, kind, i) ensures HoldsItems(after, all[i].items) {
      if i < |collections| {
        assert all[|collections|].kind != kind;
        forall j | i < j < |collections| ensures collections[j].kind != kind { assert all[j] == collections[j]; }
        assert LastOfKind(collections, kind, i);
      }
    }
  }

  lemma {:induction false} OneFilled(db: Database, c: Collection)
    ensures var db' := ApplyAll(db, [Del(c.kind)] + Sets(c.kind, c.items));
      && HoldsItems(Hash(db', c.kind), c.items)
      && forall other :: other != c.kind ==> Hash(db', other) == Hash(db, other)
  {
    ApplyBoth(db, [Del(c.kind)], Sets(c.kind, c.items));
    SingletonTransaction(db, Del(c.kind));
    SetsFill(Apply(db, Del(c.kind)), c.kind, c.items);
  }

  lemma {:induction false} FillsUnfold(db: Database, collections: seq<Collection>)
    requires collections != []
    ensures var past, last := collections[..|collections| - 1], collections[|collections| - 1];
      && collections == past + [last]
      && ApplyAll(db, Fills(collections)) ==
           ApplyAll(ApplyAll(db, Fills(past)), [Del(last.kind)] + Sets(last.kind, last.items))
  {
    var past, last := collections[..|collections| - 1], collections[|collections| - 1];
    ApplyBoth(db, Fills(past), [Del(last.kind)] + Sets(last.kind, last.items));
  }

  lemma {:induction false} FillsFill(db: Database, collections: seq<Collection>, kind: Kind)
    ensures Replaced(Hash(db, kind), Hash(ApplyAll(db, Fills(collections)), kind), collections, kind)
    decreases |collections|
  {
    if collections != [] {
      var past, last := collections[..|collections| - 1], collections[|collections| - 1];
      var middle, after := ApplyAll(db, Fills(past)), ApplyAll(db, Fills(collections));
      FillsFill(db, past, kind);
      FillsUnfold(db, collections);
      OneFilled(middle, last);
      OneMoreCollection(Hash(db, kind), Hash(middle, kind), Hash(after, kind), past, last, kind);
    }
  }

  lemma {:induction false} SetInitedLast(db: Database, cmds: seq<Command>)
    ensures var db' := ApplyAll(db, cmds + [SetInited]); db'.inited && db'.hashes == ApplyAll(db, cmds).hashes
  {
    ApplyBoth(db, cmds, [SetInited]);
    SingletonTransaction(ApplyAll(db, cmds), SetInited);
  }

  /** In every reachable state, each initialisation of the log that wrote set the marker and replaced exactly the
      hashes of its collections by their items; one that failed changed nothing. */
  lemma {:induction false} InitOutcomes(s: State, i: nat, kind: Kind)
    requires Reachable(s) && i < |s.log| && s.log[i].call.Init?
    ensures
      var before, after, collections := Replay(s.log[..i]), Replay(s.log[..i + 1]), s.log[i].call.collections;
      && s.log[i].outcome != Skipped && (s.log[i].outcome == Failed ==> after == before)
      && (s.log[i].outcome == Wrote ==>
           after.inited && Replaced(Hash(before, kind), Hash(after, kind), collections, kind))
  {
    Entered(s, i);
    var before, collections := Replay(s.log[..i]), s.log[i].call.collections;
    SetInitedLast(before, Fills(collections));
    FillsFill(before, collections, kind);
  }

  /** Watches and marks of a connection last until its next EXEC, whatever happens in between, and no longer. */
  lemma {:induction false} WatchesLast(s: State, step: Step, c: ConnId)
    requires Enabled(s, step) && c in s.conns
    ensures
      var before, after := s.conns[c], Next(s, step).conns;
      && c in after
      && if step.Exec? && step.c == c then after[c].watched == {} && !after[c].dirty
         else before.watched <= after[c].watched && (before.dirty ==> after[c].dirty)
    ensures step == Watch(c) ==> Next(s, step).conns[c].watched == s.conns[c].watched + {s.conns[c].phase.call.kind}
  {
  }

  // ---------- progress ----------

  lemma {:induction false} UnsignalledStays(db: Database, cmds: seq<Command>, kind: Kind)
    requires forall cmd :: cmd in cmds && (cmd.HSet? || cmd.Del?) ==> cmd.kind != kind
    ensures Hash(ApplyAll(db, cmds), kind) == Hash(db, kind)
    decreases |cmds|
  {
    if cmds != [] {
      UnsignalledStays(db, cmds[..|cmds| - 1], kind);
      assert cmds[|cmds| - 1] in cmds;
    }
  }

  lemma {:induction false} SignalledTouches(db: Database, cmds: seq<Command>)
    ensures Touches(db, cmds, Signalled(db, cmds))
  {
    forall kind | kind in db.hashes && kind !in Signalled(db, cmds)
      ensures Hash(ApplyAll(db, cmds), kind) == Hash(db, kind) {
      UnsignalledStays(db, cmds, kind);
    }
  }

  /** Whatever the others are doing, a connection in the middle of a call can issue its next command. */
  lemma {:induction false} NeverStuck(s: State, c: ConnId) returns (step: Step)
    requires Reachable(s) && c in s.conns && !s.conns[c].phase.Idle?
    ensures !step.Open? && step.c == c && Enabled(s, step)
  {
    var steps :| ValidRun(EMPTY, steps) && After(EMPTY, steps) == s;
    EveryRunIsSequential(EMPTY, steps);
    assert PhaseInv(s.db, s.conns[c]);
    match s.conns[c].phase {
      case Start(call) => step := if call.Upsert? then Watch(c) else Multi(c);
      case Watching(_) => step := Read(c);
      case Chosen(_) => step := Multi(c);
      case InMulti(_, queued, todo) =>
        SignalledTouches(s.db, queued);
        step := if todo == [] then Exec(c, Signalled(s.db, queued)) else Enqueue(c);
    }
  }
}
