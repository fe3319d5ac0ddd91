/** The versioned feature store of src/store.c, no-backend mode: per-key entries with newest-version-wins, and the
    derived `all:<kind>` object. Here the two parts are separate maps; module Store keeps them in one table. */
module StoreSpec {

  datatype Feature = Feature(key: string, version: nat, deleted: bool, body: string)
  datatype Id = Id(kind: string, key: string)

  /** `index[kind]` is the object cached under `all:<kind>`; a kind without one is missing from the map. */
  datatype View = View(entries: map<Id, Feature>, index: map<string, map<string, Feature>>)

  /** An upsert, or a removal carrying its tombstone. */
  datatype Update = Update(kind: string, feature: Feature)

  const EMPTY := View(map[], map[])

  function IdOf(u: Update): Id {
    Id(u.kind, u.feature.key)
  }

  /** The update is newer than what is stored. */
  predicate Accepts(entries: map<Id, Feature>, u: Update) {
    IdOf(u) in entries ==> entries[IdOf(u)].version < u.feature.version
  }

  /** The `all:<kind>` object after an accepted update. */
  function Reindexed(index: map<string, map<string, Feature>>, u: Update): map<string, map<string, Feature>> {
    if u.kind in index then
      index[u.kind := if u.feature.deleted then index[u.kind] - {u.feature.key}
                      else index[u.kind][u.feature.key := u.feature]]
    else if u.feature.deleted then index
    else index[u.kind := map[u.feature.key := u.feature]]
  }

  /** upsertMemory. */
  function Upserted(v: View, u: Update): View {
    if Accepts(v.entries, u) then View(v.entries[IdOf(u) := u.feature], Reindexed(v.index, u)) else v
  }

  function Applied(v: View, batch: seq<Update>): View {
    if batch == [] then v else Upserted(Applied(v, batch[..|batch| - 1]), batch[|batch| - 1])
  }

  function Tombstone(key: string, version: nat): Feature {
    Feature(key, version, true, "")
  }

  // ---------- index agreement ----------

  function LiveOf(entries: map<Id, Feature>, kind: string): map<string, Feature> {
    map id | id in entries && id.kind == kind && !entries[id].deleted :: id.key := entries[id]
  }

  /** Every index object is exactly the live entries of its kind; a kind without one has no live entry. */
  ghost predicate Agrees(v: View) {
    forall kind :: LiveOf(v.entries, kind) == if kind in v.index then v.index[kind] else map[]
  }

  ghost predicate OwnKeys(v: View) {
    forall id :: id in v.entries ==> v.entries[id].key == id.key
  }

  lemma {:induction false} LiveAfter(entries: map<Id, Feature>, u: Update, kind: string)
    ensures LiveOf(entries[IdOf(u) := u.feature], kind)
         == if kind != u.kind then LiveOf(entries, kind)
            else if u.feature.deleted then LiveOf(entries, kind) - {u.feature.key}
            else LiveOf(entries, kind)[u.feature.key := u.feature]
  {
  }

  lemma {:induction false} LiveEntry(entries: map<Id, Feature>, kind: string, key: string)
    ensures var id := Id(kind, key);
      && (key in LiveOf(entries, kind) <==> id in entries && !entries[id].deleted)
      && (key in LiveOf(entries, kind) ==> LiveOf(entries, kind)[key] == entries[id])
  {
  }

  /** A key that was missing or older is afterwards deleted at exactly this version; else nothing has changed. */
  ghost predicate RemovedAt(before: map<Id, Feature>, after: map<Id, Feature>, id: Id, version: nat) {
    if id in before && before[id].version >= version then after == before
    else
      && id in after && after[id].deleted && after[id].key == id.key && after[id].version == version
      && forall other :: other != id ==>
           (other in after <==> other in before) && (other in before ==> after[other] == before[other])
  }

  lemma {:induction false} RemovalLeavesItsVersion(v: View, kind: string, key: string, version: nat)
    ensures RemovedAt(v.entries, Upserted(v, Update(kind, Tombstone(key, version))).entries, Id(kind, key), version)
  {
  }

  /** After a removal newer than what was stored, readers get an upsert exactly if it is live and newer still. */
  lemma {:induction false} UpsertAfterRemoval(v: View, kind: string, version: nat, f: Feature)
    requires Id(kind, f.key) in v.entries ==> v.entries[Id(kind, f.key)].version < version
    ensures
      var removed := Upserted(v, Update(kind, Tombstone(f.key, version)));
      var live := LiveOf(Upserted(removed, Update(kind, f)).entries, kind);
      && (f.key in live <==> !f.deleted && f.version > version)
      && (f.key in live ==> live[f.key] == f)
  {
    var removed := Upserted(v, Update(kind, Tombstone(f.key, version)));
    LiveEntry(Upserted(removed, Update(kind, f)).entries, kind, f.key);
  }

  lemma {:induction false} UpsertKeepsAgreement(v: View, u: Update)
    requires Agrees(v) && OwnKeys(v)
    ensures Agrees(Upserted(v, u)) && OwnKeys(Upserted(v, u))
  {
    if Accepts(v.entries, u) {
      var v' := Upserted(v, u);
      forall kind ensures LiveOf(v'.entries, kind) == if kind in v'.index then v'.index[kind] else map[] {
        LiveAfter(v.entries, u, kind);
        assert LiveOf(v.entries, kind) == if kind in v.index then v.index[kind] else map[];
      }
    }
  }

  lemma {:induction false} BatchKeepsAgreement(v: View, batch: seq<Update>)
    requires Agrees(v) && OwnKeys(v)
    ensures Agrees(Applied(v, batch)) && OwnKeys(Applied(v, batch))
  {
    if batch != [] {
      BatchKeepsAgreement(v, batch[..|batch| - 1]);
      UpsertKeepsAgreement(Applied(v, batch[..|batch| - 1]), batch[|batch| - 1]);
    }
  }

  // ---------- convergence ----------

  /** `f` is what a key ends with: the stored entry unless some update is strictly newer, else a newest update. */
  predicate Winner(v: View, batch: seq<Update>, id: Id, f: Feature) {
    && (id in v.entries ==> v.entries[id].version <= f.version)
    && (forall u :: u in batch && IdOf(u) == id ==> u.feature.version <= f.version)
    && ((id in v.entries && f == v.entries[id])
        || (Update(id.kind, f) in batch && f.key == id.key && (id in v.entries ==> v.entries[id].version < f.version)))
  }

  predicate Touched(v: View, batch: seq<Update>, id: Id) {
    id in v.entries || exists u :: u in batch && IdOf(u) == id
  }

  /** Whatever the order: each key ends with its maximum-version update, and keys without one are untouched. */
  lemma {:induction false} NewestWins(v: View, batch: seq<Update>, id: Id)
    ensures id in Applied(v, batch).entries <==> Touched(v, batch, id)
    ensures id in Applied(v, batch).entries ==> Winner(v, batch, id, Applied(v, batch).entries[id])
  {
    if batch != [] {
      var n := |batch| - 1;
      var before, u := batch[..n], batch[n];
      NewestWins(v, before, id);
      assert batch == before + [u];
    }
  }

  /** Two updates to one key with one version are the same update. */
  ghost predicate Coherent(batch: seq<Update>) {
    forall u, w :: u in batch && w in batch && IdOf(u) == IdOf(w) && u.feature.version == w.feature.version ==> u == w
  }

  /** The same updates, in any order and with any repetition. */
  ghost predicate SameUpdates(a: seq<Update>, b: seq<Update>) {
    forall u :: u in a <==> u in b
  }

  lemma {:induction false} EntriesConverge(v: View, a: seq<Update>, b: seq<Update>)
    requires Coherent(a) && SameUpdates(a, b)
    ensures Applied(v, a).entries == Applied(v, b).entries
  {
    var x, y := Applied(v, a).entries, Applied(v, b).entries;
    forall id ensures id in x <==> id in y {
      NewestWins(v, a, id);
      NewestWins(v, b, id);
    }
    forall id | id in x ensures x[id] == y[id] {
      NewestWins(v, a, id);
      NewestWins(v, b, id);
    }
  }

  // ---------- when the index converges too ----------

  /** An update that would create the index object of its kind if it came first. */
  predicate Reviving(v: View, u: Update) {
    !u.feature.deleted && Accepts(v.entries, u)
  }

  predicate NewestInBatch(batch: seq<Update>, u: Update) {
    forall w :: w in batch && IdOf(w) == IdOf(u) ==> w.feature.version <= u.feature.version
  }

  /** The index object of `kind` exists already, or some live update of it survives the batch, or no live update of it
      is newer than the store. */
  ghost predicate Settled(v: View, batch: seq<Update>, kind: string) {
    || kind in v.index
    || (exists u :: u in batch && u.kind == kind && Reviving(v, u) && NewestInBatch(batch, u))
    || (forall u :: u in batch && u.kind == kind ==> !Reviving(v, u))
  }

  lemma {:induction false} IndexPersists(v: View, batch: seq<Update>, n: nat, kind: string)
    requires n <= |batch| && kind in Applied(v, batch[..n]).index
    ensures kind in Applied(v, batch).index
    decreases |batch|
  {
    if n == |batch| {
      assert batch[..n] == batch;
    } else {
      var before := batch[..|batch| - 1];
      assert before[..n] == batch[..n];
      IndexPersists(v, before, n, kind);
    }
  }

  lemma {:induction false} VersionsNeverDrop(v: View, batch: seq<Update>, id: Id)
    requires id in v.entries
    ensures id in Applied(v, batch).entries && Applied(v, batch).entries[id].version >= v.entries[id].version
  {
    if batch != [] {
      VersionsNeverDrop(v, batch[..|batch| - 1], id);
    }
  }

  lemma {:induction false} AppliedConcat(v: View, a: seq<Update>, b: seq<Update>)
    ensures Applied(v, a + b) == Applied(Applied(v, a), b)
  {
    if b == [] {
      assert a + b == a;
    } else {
      var n := |b| - 1;
      assert (a + b)[..|a| + n] == a + b[..n];
      AppliedConcat(v, a, b[..n]);
    }
  }

  lemma {:induction false} NoRevivalNoIndex(v: View, batch: seq<Update>, kind: string)
    requires kind !in v.index && forall u :: u in batch && u.kind == kind ==> !Reviving(v, u)
    ensures kind !in Applied(v, batch).index
  {
    if batch != [] {
      var n := |batch| - 1;
      var before, u := batch[..n], batch[n];
      assert batch == before + [u];
      NoRevivalNoIndex(v, before, kind);
      if u.kind == kind && !u.feature.deleted {
        assert u in batch && IdOf(u) in v.entries;
        VersionsNeverDrop(v, before, IdOf(u));
      }
    }
  }

  lemma {:induction false} SurvivorKeepsIndex(v: View, batch: seq<Update>, u: Update)
    requires Agrees(v) && OwnKeys(v) && Coherent(batch)
    requires u in batch && Reviving(v, u) && NewestInBatch(batch, u)
    ensures u.kind in Applied(v, batch).index
  {
    var v', id := Applied(v, batch), IdOf(u);
    NewestWins(v, batch, id);
    assert v'.entries[id] == u.feature;
    BatchKeepsAgreement(v, batch);
    assert id.key in LiveOf(v'.entries, u.kind);
  }

  lemma {:induction false} IndexPresence(v: View, a: seq<Update>, kind: string)
    requires Agrees(v) && OwnKeys(v) && Coherent(a) && Settled(v, a, kind)
    ensures kind in Applied(v, a).index <==> kind in v.index || exists u :: u in a && u.kind == kind && Reviving(v, u)
  {
    if kind in v.index {
      assert Applied(v, a[..0]) == v;
      IndexPersists(v, a, 0, kind);
    } else if u :| u in a && u.kind == kind && Reviving(v, u) && NewestInBatch(a, u) {
      SurvivorKeepsIndex(v, a, u);
    } else {
      NoRevivalNoIndex(v, a, kind);
    }
  }

  /** If every kind is settled, any order and repetition of the batch gives the very same store. */
  lemma {:induction false} StoresConverge(v: View, a: seq<Update>, b: seq<Update>)
    requires Agrees(v) && OwnKeys(v) && Coherent(a) && SameUpdates(a, b)
    requires forall kind :: Settled(v, a, kind)
    ensures Applied(v, a) == Applied(v, b)
  {
    EntriesConverge(v, a, b);
    BatchKeepsAgreement(v, a);
    BatchKeepsAgreement(v, b);
    forall kind ensures kind in Applied(v, a).index <==> kind in Applied(v, b).index {
      PresenceConverges(v, a, b, kind);
    }
    AgreementFixesIndex(Applied(v, a), Applied(v, b));
  }

  lemma {:induction false} PresenceConverges(v: View, a: seq<Update>, b: seq<Update>, kind: string)
    requires Agrees(v) && OwnKeys(v) && Coherent(a) && SameUpdates(a, b) && Settled(v, a, kind)
    ensures kind in Applied(v, a).index <==> kind in Applied(v, b).index
  {
    SettledIsOrderFree(v, a, b, kind);
    IndexPresence(v, a, kind);
    IndexPresence(v, b, kind);
  }

  lemma {:induction false} AgreementFixesIndex(x: View, y: View)
    requires Agrees(x) && Agrees(y) && x.entries == y.entries
    requires forall kind :: kind in x.index <==> kind in y.index
    ensures x == y
  {
  }

  lemma {:induction false} SettledIsOrderFree(v: View, a: seq<Update>, b: seq<Update>, kind: string)
    requires SameUpdates(a, b) && Settled(v, a, kind)
    ensures Settled(v, b, kind)
  {
  }

  /** The updates that delete, or those that do not, in order. */
  function Those(batch: seq<Update>, deleted: bool): seq<Update> {
    if batch == [] then []
    else
      var u := batch[|batch| - 1];
      Those(batch[..|batch| - 1], deleted) + (if u.feature.deleted == deleted then [u] else [])
  }

  lemma {:induction false} ThoseOf(batch: seq<Update>, deleted: bool)
    ensures forall u :: u in Those(batch, deleted) <==> u in batch && u.feature.deleted == deleted
  {
    if batch != [] {
      var n := |batch| - 1;
      ThoseOf(batch[..n], deleted);
      assert batch == batch[..n] + [batch[n]];
    }
  }

  lemma {:induction false} ThoseAreAll(batch: seq<Update>)
    ensures multiset(Those(batch, true) + Those(batch, false)) == multiset(batch)
  {
    if batch != [] {
      var n := |batch| - 1;
      ThoseAreAll(batch[..n]);
      assert batch == batch[..n] + [batch[n]];
    }
  }

  ghost predicate Permutes(a: seq<Update>, b: seq<Update>) {
    multiset(a) == multiset(b)
  }

  lemma {:induction false} PermutationsAreSame(a: seq<Update>, b: seq<Update>)
    requires Permutes(a, b)
    ensures SameUpdates(a, b)
  {
    forall u ensures u in a <==> u in b {
      assert u in multiset(a) <==> u in multiset(b);
    }
  }

  /** After the tombstones, no live update of an unsettled kind is accepted any more. */
  lemma {:induction false} TombstonesFirst(v: View, batch: seq<Update>, u: Update)
    requires !Settled(v, batch, u.kind) && u in batch && !u.feature.deleted
    ensures !Reviving(Applied(v, Those(batch, true)), u)
  {
    var id := IdOf(u);
    ThoseOf(batch, true);
    NewestWins(v, Those(batch, true), id);
    if Accepts(v.entries, u) {
      NewestWins(v, batch, id);
      var w := Update(id.kind, Applied(v, batch).entries[id]);
      assert w in batch && IdOf(w) == id && NewestInBatch(batch, w) && Accepts(v.entries, w);
      assert w.feature.deleted by { if !w.feature.deleted { assert Reviving(v, w); } }
      assert w in Those(batch, true);
    }
  }

  /** `u` first, then the others in order. */
  lemma {:induction false} OneFirst(a: seq<Update>, u: Update) returns (b: seq<Update>)
    requires u in a
    ensures Permutes(a, b) && b != [] && b[0] == u
  {
    var i :| 0 <= i < |a| && a[i] == u;
    b := [u] + (a[..i] + a[i + 1..]);
    assert a == a[..i] + ([a[i]] + a[i + 1..]);
  }

  lemma {:induction false} RevivedFirst(v: View, b: seq<Update>, kind: string)
    requires b != [] && b[0].kind == kind && Reviving(v, b[0])
    ensures kind in Applied(v, b).index
  {
    assert b[..1] == [b[0]] && [b[0]][..0] == [];
    assert Applied(v, [b[0]]) == Upserted(Applied(v, []), b[0]);
    IndexPersists(v, b, 1, kind);
  }

  lemma {:induction false} DeletedFirst(v: View, a: seq<Update>, kind: string)
    requires !Settled(v, a, kind)
    ensures kind !in Applied(v, Those(a, true) + Those(a, false)).index
  {
    ThoseOf(a, true);
    ThoseOf(a, false);
    var v' := Applied(v, Those(a, true));
    NoRevivalNoIndex(v, Those(a, true), kind);
    forall w | w in Those(a, false) && w.kind == kind ensures !Reviving(v', w) {
      TombstonesFirst(v, a, w);
    }
    AppliedConcat(v, Those(a, true), Those(a, false));
    NoRevivalNoIndex(v', Those(a, false), kind);
  }

  /** If some kind is not settled, two orders of the batch leave different stores: one with an empty index
      object, one with none. */
  lemma {:induction false} UnsettledDiverges(
    v: View, a: seq<Update>, kind: string) returns (b1: seq<Update>, b2: seq<Update>)
    requires !Settled(v, a, kind)
    ensures Permutes(a, b1) && Permutes(a, b2)
    ensures kind in Applied(v, b1).index && kind !in Applied(v, b2).index
  {
    var u :| u in a && u.kind == kind && Reviving(v, u);
    b1 := OneFirst(a, u);
    RevivedFirst(v, b1, kind);
    b2 := Those(a, true) + Those(a, false);
    ThoseAreAll(a);
    DeletedFirst(v, a, kind);
  }

  /** Exactly when a batch converges: all its orders agree if and only if every kind is settled, and then so do
      all orders with repetitions. */
  lemma {:induction false} ConvergesIff(v: View, a: seq<Update>)
    requires Agrees(v) && OwnKeys(v) && Coherent(a)
    ensures (forall b1, b2 :: Permutes(a, b1) && Permutes(a, b2) ==> Applied(v, b1) == Applied(v, b2))
      <==> forall kind :: Settled(v, a, kind)
    ensures (forall b1, b2 :: SameUpdates(a, b1) && SameUpdates(a, b2) ==> Applied(v, b1) == Applied(v, b2))
      <==> forall kind :: Settled(v, a, kind)
  {
    if forall kind :: Settled(v, a, kind) {
      forall b1, b2 | SameUpdates(a, b1) && SameUpdates(a, b2) ensures Applied(v, b1) == Applied(v, b2) {
        StoresConverge(v, a, b1);
        StoresConverge(v, a, b2);
      }
      forall b | Permutes(a, b) ensures SameUpdates(a, b) {
        PermutationsAreSame(a, b);
      }
    } else {
      var kind :| !Settled(v, a, kind);
      var b1, b2 := UnsettledDiverges(v, a, kind);
      PermutationsAreSame(a, b1);
      PermutationsAreSame(a, b2);
    }
  }

  /** The smallest batch that does not converge: a new key, then its removal, on an empty store. */
  lemma {:induction false} EmptyIndexOrNone()
    ensures
      var put, del := Update("features", Feature("a", 1, false, "")), Update("features", Tombstone("a", 2));
      && Applied(EMPTY, [put, del]).index == map["features" := map[]]
      && Applied(EMPTY, [del, put]).index == map[]
  {
    var put, del := Update("features", Feature("a", 1, false, "")), Update("features", Tombstone("a", 2));
    assert [put, del][..1] == [put] && [del, put][..1] == [del] && [put][..0] == [] && [del][..0] == [];
    assert Applied(EMPTY, [put]) == Upserted(Applied(EMPTY, []), put);
    assert Applied(EMPTY, [del]) == Upserted(Applied(EMPTY, []), del);
  }
}
