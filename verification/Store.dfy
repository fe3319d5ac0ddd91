/** The feature store object of src/store.c without a backend: one table of string keys holds both the per-key entries
    (`<kind>:<key>`) and the index objects (`all:<kind>`). Values are immutable once cached, so reference counts are
    left to module RefCount. */
module Store {
  import opened StoreSpec
  import opened Basics

  datatype Cached = FeatureValue(feature: Feature) | IndexValue(all: map<string, Feature>)

  datatype FeatureSet = FeatureSet(kind: string, features: seq<Feature>)

  /** featureStoreCacheKey. */
  function CacheKey(kind: string, key: string): string {
    kind + ":" + key
  }

  /** featureStoreAllCacheKey. */
  function AllCacheKey(kind: string): string {
    "all:" + kind
  }

  /** Kinds whose cache keys cannot collide; `features` and `segments` are such kinds. */
  predicate GoodKind(kind: string) {
    ':' !in kind && kind != "all"
  }

  lemma {:induction false} ServedKindsAreGood()
    ensures GoodKind("features") && GoodKind("segments")
  {
  }

  /** A kind named `all` would share its entries' slots with other kinds' index objects. */
  lemma {:induction false} KindAllCollides(kind: string)
    ensures CacheKey("all", kind) == AllCacheKey(kind)
  {
  }

  lemma {:induction false} CacheKeyInjective(kind: string, key: string, kind': string, key': string)
    requires ':' !in kind && ':' !in kind' && CacheKey(kind, key) == CacheKey(kind', key')
    ensures kind == kind' && key == key'
  {
    var s, s' := CacheKey(kind, key), CacheKey(kind', key');
    assert s[|kind|] == ':' && s'[|kind'|] == ':';
    assert forall i :: 0 <= i < |kind| ==> s[i] == kind[i] && s[i] != ':';
    assert forall i :: 0 <= i < |kind'| ==> s'[i] == kind'[i] && s'[i] != ':';
    assert |kind| == |kind'|;
    assert s[..|kind|] == kind && s'[..|kind|] == kind';
    assert s[|kind| + 1..] == key && s'[|kind| + 1..] == key';
  }

  lemma {:induction false} AllKeyIsNoCacheKey(kind: string, key: string, other: string)
    requires GoodKind(kind)
    ensures CacheKey(kind, key) != AllCacheKey(other)
  {
    if CacheKey(kind, key) == AllCacheKey(other) {
      KindAllCollides(other);
      CacheKeyInjective(kind, key, "all", other);
    }
  }

  lemma {:induction false} AllKeyInjective(kind: string, other: string)
    requires AllCacheKey(kind) == AllCacheKey(other)
    ensures kind == other
  {
    assert AllCacheKey(kind)[4..] == kind && AllCacheKey(other)[4..] == other;
  }

  /** The table holds the entries and index objects of the view under their cache keys. */
  ghost predicate Holds(items: map<string, Cached>, v: View) {
    && (forall kind, key :: GoodKind(kind) ==>
          (CacheKey(kind, key) in items <==> Id(kind, key) in v.entries))
    && (forall kind, key :: GoodKind(kind) && Id(kind, key) in v.entries ==>
          CacheKey(kind, key) in items && items[CacheKey(kind, key)] == FeatureValue(v.entries[Id(kind, key)]))
    && (forall kind :: GoodKind(kind) ==> (AllCacheKey(kind) in items <==> kind in v.index))
    && (forall kind :: GoodKind(kind) && kind in v.index ==>
          AllCacheKey(kind) in items && items[AllCacheKey(kind)] == IndexValue(v.index[kind]))
  }

  lemma {:induction false} SetEntry(items: map<string, Cached>, v: View, kind: string, f: Feature)
    requires Holds(items, v) && GoodKind(kind)
    ensures Holds(items[CacheKey(kind, f.key) := FeatureValue(f)], v.(entries := v.entries[Id(kind, f.key) := f]))
  {
    forall kind', key' | GoodKind(kind') && CacheKey(kind', key') == CacheKey(kind, f.key)
      ensures kind' == kind && key' == f.key
    {
      CacheKeyInjective(kind', key', kind, f.key);
    }
    forall other ensures CacheKey(kind, f.key) != AllCacheKey(other) {
      AllKeyIsNoCacheKey(kind, f.key, other);
    }
  }

  lemma {:induction false} SetIndex(items: map<string, Cached>, v: View, kind: string, all: map<string, Feature>)
    requires Holds(items, v) && GoodKind(kind)
    ensures Holds(items[AllCacheKey(kind) := IndexValue(all)], v.(index := v.index[kind := all]))
  {
    forall other | AllCacheKey(other) == AllCacheKey(kind) ensures other == kind {
      AllKeyInjective(other, kind);
    }
    forall kind', key' | GoodKind(kind') ensures CacheKey(kind', key') != AllCacheKey(kind) {
      AllKeyIsNoCacheKey(kind', key', kind);
    }
  }

  function UpdatesOf(kind: string, features: seq<Feature>): seq<Update> {
    if features == [] then []
    else UpdatesOf(kind, features[..|features| - 1]) + [Update(kind, features[|features| - 1])]
  }

  lemma {:induction false} UpdatesGrow(v: View, kind: string, features: seq<Feature>, i: nat)
    requires i < |features|
    ensures Applied(v, UpdatesOf(kind, features[..i + 1]))
         == Upserted(Applied(v, UpdatesOf(kind, features[..i])), Update(kind, features[i]))
  {
    assert features[..i + 1][..i] == features[..i];
    var before := UpdatesOf(kind, features[..i]);
    assert (before + [Update(kind, features[i])])[..|before|] == before;
  }

  /** Everything an init feeds to the cache, in order. */
  function UpdatesOfSets(sets: seq<FeatureSet>): seq<Update> {
    if sets == [] then []
    else UpdatesOfSets(sets[..|sets| - 1]) + UpdatesOf(sets[|sets| - 1].kind, sets[|sets| - 1].features)
  }

  lemma {:induction false} SetsGrow(sets: seq<FeatureSet>, i: nat)
    requires i < |sets|
    ensures Applied(EMPTY, UpdatesOfSets(sets[..i + 1]))
         == Applied(Applied(EMPTY, UpdatesOfSets(sets[..i])), UpdatesOf(sets[i].kind, sets[i].features))
  {
    assert sets[..i + 1][..i] == sets[..i];
    AppliedConcat(EMPTY, UpdatesOfSets(sets[..i]), UpdatesOf(sets[i].kind, sets[i].features));
  }

  class MemoryStore {
    var items: map<string, Cached>
    var initialized: bool
    ghost var view: View

    /** Includes index agreement: `all:<kind>` is exactly the live entries, and absent only if there are none. */
    ghost predicate Valid()
      reads this
    {
      Holds(items, view) && Agrees(view) && OwnKeys(view)
    }

    /** LDStoreNew. */
    constructor ()
      ensures Valid() && view == EMPTY && !initialized
    {
      items, initialized := map[], false;
      view := EMPTY;
    }

    /** upsertMemory. */
    method UpsertMemory(kind: string, replacement: Feature)
      requires Valid() && GoodKind(kind)
      modifies this`items, this`view
      ensures Valid() && view == Upserted(old(view), Update(kind, replacement))
    {
      ghost var u := Update(kind, replacement);
      UpsertKeepsAgreement(view, u);
      var cacheKey, allCacheKey := CacheKey(kind, replacement.key), AllCacheKey(kind);
      if cacheKey in items && items[cacheKey].FeatureValue? && items[cacheKey].feature.version >= replacement.version {
        assert !Accepts(view.entries, u);
        return;
      }
      assert Accepts(view.entries, u);
      ghost var index := Reindexed(view.index, u);
      if allCacheKey in items && items[allCacheKey].IndexValue? {
        var all := items[allCacheKey].all;
        all := if replacement.deleted then all - {replacement.key} else all[replacement.key := replacement];
        SetIndex(items, view, kind, all);
        items := items[allCacheKey := IndexValue(all)];
      } else if !replacement.deleted {
        SetIndex(items, view, kind, map[replacement.key := replacement]);
        items := items[allCacheKey := IndexValue(map[replacement.key := replacement])];
      }
      view := view.(index := index);
      SetEntry(items, view, kind, replacement);
      items := items[cacheKey := FeatureValue(replacement)];
      view := view.(entries := view.entries[Id(kind, replacement.key) := replacement]);
    }

    /** filterAndCacheItems, as LDStoreInit calls it. */
    method FilterAndCacheItems(kind: string, features: seq<Feature>)
      requires Valid() && GoodKind(kind)
      modifies this`items, this`view
      ensures Valid() && view == Applied(old(view), UpdatesOf(kind, features))
    {
      var i := 0;
      while i < |features|
        invariant i <= |features|
        invariant Valid() && view == Applied(old(view), UpdatesOf(kind, features[..i]))
      {
        UpdatesGrow(old(view), kind, features, i);
        UpsertMemory(kind, features[i]);
        i := i + 1;
      }
      assert features[..i] == features;
    }

    /** memoryCacheFlush. */
    method MemoryCacheFlush()
      modifies this`items, this`view
      ensures Valid() && view == EMPTY
    {
      while items != map[]
        modifies this`items
        decreases |items|
      {
        var k :| k in items;
        items := items - {k};
      }
      view := EMPTY;
    }

    /** LDStoreInit and memoryInit: flush, then cache every set. */
    method Init(sets: seq<FeatureSet>) returns (ok: bool)
      requires forall i :: 0 <= i < |sets| ==> GoodKind(sets[i].kind)
      modifies this
      ensures Valid() && ok && initialized && view == Applied(EMPTY, UpdatesOfSets(sets))
    {
      MemoryCacheFlush();
      CacheSets(sets);
      initialized := true;
      ok := true;
    }

    /** The loop of memoryInit over the freshly flushed cache. */
    method CacheSets(sets: seq<FeatureSet>)
      requires Valid() && view == EMPTY
      requires forall i :: 0 <= i < |sets| ==> GoodKind(sets[i].kind)
      modifies this`items, this`view
      ensures Valid() && view == Applied(EMPTY, UpdatesOfSets(sets))
    {
      var i := 0;
      while i < |sets|
        invariant i <= |sets|
        invariant Valid() && view == Applied(EMPTY, UpdatesOfSets(sets[..i]))
      {
        SetsGrow(sets, i);
        FilterAndCacheItems(sets[i].kind, sets[i].features);
        i := i + 1;
      }
      assert sets[..i] == sets;
    }

    /** LDStoreUpsert; None stands for JSON that fails LDi_validateFeature. */
    method Upsert(kind: string, feature: Option<Feature>) returns (ok: bool)
      requires Valid() && GoodKind(kind)
      modifies this`items, this`view
      ensures Valid() && ok == feature.Some?
      ensures view == if feature.Some? then Upserted(old(view), Update(kind, feature.value)) else old(view)
    {
      if feature == None {
        return false;
      }
      UpsertMemory(kind, feature.value);
      ok := true;
    }

    /** LDStoreRemove: an upsert of a tombstone of exactly this version. */
    method Remove(kind: string, key: string, version: nat) returns (ok: bool)
      requires Valid() && GoodKind(kind)
      modifies this`items, this`view
      ensures Valid() && ok && view == Upserted(old(view), Update(kind, Tombstone(key, version)))
      ensures RemovedAt(old(view.entries), view.entries, Id(kind, key), version)
    {
      RemovalLeavesItsVersion(view, kind, key, version);
      UpsertMemory(kind, Tombstone(key, version));
      ok := true;
    }

    /** LDStoreGet: tombstones read as missing. */
    method Get(kind: string, key: string) returns (result: Option<Feature>)
      requires Valid() && GoodKind(kind)
      ensures result.Some? <==> key in LiveOf(view.entries, kind)
      ensures result.Some? ==> result.value == LiveOf(view.entries, kind)[key]
    {
      var cacheKey := CacheKey(kind, key);
      if cacheKey in items && items[cacheKey].FeatureValue? && !items[cacheKey].feature.deleted {
        result := Some(items[cacheKey].feature);
        assert Id(kind, key) in view.entries;
      } else {
        result := None;
        assert forall id :: id in view.entries && id == Id(kind, key) ==> view.entries[id].deleted;
      }
    }

    /** LDStoreAll: the cached object; None, which callers see as a null result, only when nothing is live. */
    method All(kind: string) returns (result: Option<map<string, Feature>>)
      requires Valid() && GoodKind(kind)
      ensures result.Some? ==> result.value == LiveOf(view.entries, kind)
      ensures result == None ==> LiveOf(view.entries, kind) == map[]
    {
      var cacheKey := AllCacheKey(kind);
      assert LiveOf(view.entries, kind) == if kind in view.index then view.index[kind] else map[];
      if cacheKey in items && items[cacheKey].IndexValue? {
        result := Some(items[cacheKey].all);
      } else {
        result := None;
      }
    }
  }

  /** LDStoreRemove, LDStoreUpsert and LDStoreGet in a row: after a removal that was newer than what was stored, an
      upsert is what readers get exactly if it is live and newer than the removal. */
  method RemoveUpsertGet(store: MemoryStore, kind: string, version: nat, feature: Feature)
    returns (result: Option<Feature>)
    requires store.Valid() && GoodKind(kind)
    modifies store
    ensures store.Valid()
    ensures var id := Id(kind, feature.key);
      id !in old(store.view.entries) || old(store.view.entries)[id].version < version ==>
        result == if !feature.deleted && feature.version > version then Some(feature) else None
  {
    var id := Id(kind, feature.key);
    if id in store.view.entries ==> store.view.entries[id].version < version {
      UpsertAfterRemoval(store.view, kind, version, feature);
    }
    var removed := store.Remove(kind, feature.key, version);
    var stored := store.Upsert(kind, Some(feature));
    result := store.Get(kind, feature.key);
  }
}
