/** Percentage rollouts (src/evaluate.c): the accumulating loop picks the share whose part of the unit interval
    holds the user's bucket, and growing a prefix of the shares keeps its users. */
module Rollout {
  import opened Basics
  import opened JsonValue
  import opened Evaluate
  import Bucketing

  /** The loop of LDi_variationIndexForUser. */
  method RollLoop(shares: seq<Json>, bucket: real, experiment: bool) returns (pick: Pick)
    requires shares != []
    ensures pick == Roll(shares, bucket, 0.0, experiment)
  {
    var i, sum, inExperiment := 0, 0.0, experiment;
    var subvariation, untracked := Null, false;
    while i < |shares|
      invariant i <= |shares| && inExperiment == experiment
      invariant i < |shares| ==> Roll(shares, bucket, 0.0, experiment) == Roll(shares[i..], bucket, sum, experiment)
      invariant i == |shares| ==>
        Roll(shares, bucket, 0.0, experiment) == Picked(subvariation, experiment && !untracked)
    {
      var share := shares[i];
      assert shares[i..][0] == share && shares[i..][1..] == shares[i + 1..];
      var weight := NotNull(share, "weight");
      if weight.None? || !weight.value.Number? {
        return Bad(Schema);
      }
      sum := sum + weight.value.n / 100000.0;
      var variation := NotNull(share, "variation");
      if variation.None? || !variation.value.Number? {
        return Bad(Schema);
      }
      subvariation, untracked := variation.value, false;
      var flag := NotNull(share, "untracked");
      if flag.Some? {
        if !flag.value.Bool? {
          return Bad(Schema);
        }
        untracked := flag.value.b;
      }
      if bucket < sum {
        if inExperiment && untracked { inExperiment := false; }
        return Picked(subvariation, inExperiment);
      }
      i := i + 1;
    }
    if inExperiment && untracked { inExperiment := false; }
    pick := Picked(subvariation, inExperiment);
  }

  // ---------- the partition ----------

  predicate AllGood(shares: seq<Json>) {
    forall i :: 0 <= i < |shares| ==> GoodShare(shares[i])
  }

  /** The cumulative weight of the first `k` shares. */
  function Prefix(shares: seq<Json>, k: nat): real
    requires AllGood(shares) && k <= |shares|
  {
    if k == 0 then 0.0 else Prefix(shares, k - 1) + Weight(shares[k - 1]) / 100000.0
  }

  ghost predicate NonNegative(shares: seq<Json>)
    requires AllGood(shares)
  {
    forall i :: 0 <= i < |shares| ==> Weight(shares[i]) >= 0.0
  }

  /** Share `s` holds the bucket; the last one also holds everything past the end. */
  ghost predicate HoldsBucket(shares: seq<Json>, bucket: real, s: int)
    requires AllGood(shares)
  {
    && 0 <= s < |shares|
    && Prefix(shares, s) <= bucket
    && (bucket < Prefix(shares, s + 1) || s == |shares| - 1)
  }

  lemma {:induction false} PrefixGrows(shares: seq<Json>, j: nat, k: nat)
    requires AllGood(shares) && NonNegative(shares) && j <= k <= |shares|
    ensures Prefix(shares, j) <= Prefix(shares, k)
  {
    if j < k {
      PrefixGrows(shares, j, k - 1);
    }
  }

  /** The loop, started in the middle, takes the first share whose cumulative weight exceeds the bucket. */
  lemma {:induction false} RollTakes(shares: seq<Json>, bucket: real, k: nat, s: nat, experiment: bool)
    requires AllGood(shares) && k <= s < |shares|
    requires forall j :: k < j <= s ==> Prefix(shares, j) <= bucket
    requires bucket < Prefix(shares, s + 1) || s == |shares| - 1
    ensures Roll(shares[k..], bucket, Prefix(shares, k), experiment) == Take(shares[s], experiment)
    decreases s - k
  {
    RollStep(shares, bucket, k, experiment);
    if k < s {
      RollTakes(shares, bucket, k + 1, s, experiment);
    }
  }

  /** One turn of the loop, at share `k`. */
  lemma {:induction false} RollStep(shares: seq<Json>, bucket: real, k: nat, experiment: bool)
    requires AllGood(shares) && k < |shares|
    ensures Roll(shares[k..], bucket, Prefix(shares, k), experiment) ==
      if bucket < Prefix(shares, k + 1) || k + 1 == |shares| then Take(shares[k], experiment)
      else Roll(shares[k + 1..], bucket, Prefix(shares, k + 1), experiment)
  {
    TailOfTail(shares, k, 1);
    PrefixUnfold(shares, k);
  }

  lemma {:induction false} PrefixUnfold(shares: seq<Json>, k: nat)
    requires AllGood(shares) && k < |shares|
    ensures Prefix(shares, k + 1) == Prefix(shares, k) + Weight(shares[k]) / 100000.0
  {
  }

  /** Every bucket lies in exactly one share, and that is the one taken. */
  lemma {:induction false} RolloutPartition(shares: seq<Json>, bucket: real, experiment: bool) returns (s: nat)
    requires shares != [] && AllGood(shares) && NonNegative(shares) && bucket >= 0.0
    ensures HoldsBucket(shares, bucket, s)
    ensures forall t :: HoldsBucket(shares, bucket, t) ==> t == s
    ensures Roll(shares, bucket, 0.0, experiment) == Take(shares[s], experiment)
  {
    s := 0;
    while s + 1 < |shares| && Prefix(shares, s + 1) <= bucket
      invariant s < |shares| && Prefix(shares, s) <= bucket
    {
      s := s + 1;
    }
    forall t | HoldsBucket(shares, bucket, t) ensures t == s {
      HolderUnique(shares, bucket, s, t);
    }
    forall j | 0 < j <= s ensures Prefix(shares, j) <= bucket {
      PrefixGrows(shares, j, s);
    }
    RollTakes(shares, bucket, 0, s, experiment);
    assert shares[0..] == shares;
  }

  lemma {:induction false} HolderUnique(shares: seq<Json>, bucket: real, s: nat, t: nat)
    requires AllGood(shares) && NonNegative(shares) && HoldsBucket(shares, bucket, s) && HoldsBucket(shares, bucket, t)
    ensures s == t
  {
    if s < t {
      PrefixGrows(shares, s + 1, t);
    } else if t < s {
      PrefixGrows(shares, t + 1, s);
    }
  }

  /** Raising the cumulative weight of the first `k` shares moves no user out of them. */
  lemma {:induction false} GrowthKeepsUsers(
    shares: seq<Json>, shares': seq<Json>, bucket: real, k: nat, s: nat, s': nat)
    requires AllGood(shares) && AllGood(shares') && NonNegative(shares) && NonNegative(shares')
    requires |shares| == |shares'| && k <= |shares| && Prefix(shares, k) <= Prefix(shares', k)
    requires HoldsBucket(shares, bucket, s) && HoldsBucket(shares', bucket, s')
    requires s < k
    ensures s' < k
  {
    if k <= s' {
      BelowIffEarlier(shares, bucket, s, k);
      BelowIffEarlier(shares', bucket, s', k);
    }
  }

  /** A bucket is below a cumulative weight exactly when it lies in one of those shares. */
  lemma {:induction false} BelowIffEarlier(shares: seq<Json>, bucket: real, s: nat, k: nat)
    requires AllGood(shares) && NonNegative(shares) && HoldsBucket(shares, bucket, s) && k < |shares|
    ensures bucket < Prefix(shares, k) <==> s < k
  {
    if s < k {
      PrefixGrows(shares, s + 1, k);
    } else {
      PrefixGrows(shares, k, s);
    }
  }

  /** A rollout fails exactly when a malformed share comes before the bucket is reached. */
  lemma {:induction false} RollFailsIff(shares: seq<Json>, bucket: real, sum: real, experiment: bool)
    requires shares != []
    ensures Roll(shares, bucket, sum, experiment).Bad? <==>
      exists k :: 0 <= k < |shares| && !GoodShare(shares[k]) && Passed(shares, bucket, sum, k)
  {
    if !GoodShare(shares[0]) {
      assert Passed(shares, bucket, sum, 0);
    } else {
      var sum' := sum + Weight(shares[0]) / 100000.0;
      if bucket < sum' || |shares| == 1 {
        forall k | 0 <= k < |shares| && !GoodShare(shares[k]) ensures !Passed(shares, bucket, sum, k) {
        }
      } else {
        var rest := shares[1..];
        RollFailsIff(rest, bucket, sum', experiment);
        if k :| 0 <= k < |rest| && !GoodShare(rest[k]) && Passed(rest, bucket, sum', k) {
          assert shares[k + 1] == rest[k] && Passed(shares, bucket, sum, k + 1);
        }
        if k :| 0 <= k < |shares| && !GoodShare(shares[k]) && Passed(shares, bucket, sum, k) {
          assert rest[k - 1] == shares[k] && Passed(rest, bucket, sum', k - 1);
        }
      }
    }
  }

  /** The loop goes past the first `k` shares: all are good and their cumulative weights stay at or below the bucket. */
  ghost predicate Passed(shares: seq<Json>, bucket: real, sum: real, k: int)
    requires 0 <= k <= |shares|
    decreases k
  {
    k == 0 || (GoodShare(shares[0]) && sum + Weight(shares[0]) / 100000.0 <= bucket
               && Passed(shares[1..], bucket, sum + Weight(shares[0]) / 100000.0, k - 1))
  }

  // ---------- the bucket is the hash ----------

  function AttributeOf(user: User, name: string): Option<Json> {
    if name in user.attributes then Some(user.attributes[name]) else None
  }

  function SecondaryOf(user: User): Option<string> {
    match AttributeOf(user, "secondary")
    case Some(Text(s)) => Some(s)
    case _ => None
  }

  /** LDi_bucketUser for a user: the hash of the attribute to bucket by. */
  function UserBucket(q: BucketQuery, percentF: real -> string): real {
    Bucketing.Bucket(AttributeOf(q.user, q.attribute), q.key, q.salt, q.seed, SecondaryOf(q.user), percentF)
  }

  /** A rollout that passes the checks of LDi_variationIndexForUser. */
  predicate IsRollout(choice: Json) {
    && NotNull(choice, "variation").None?
    && NotNull(choice, "rollout").Some?
    && var rollout := NotNull(choice, "rollout").value;
       && rollout.Object? && BucketAttribute(rollout).Some?
       && (NotNull(rollout, "kind").Some? ==> NotNull(rollout, "kind").value.Text?)
       && (NotNull(rollout, "seed").Some? ==> NotNull(rollout, "seed").value.Number?)
       && NotNull(rollout, "variations").Some? && NotNull(rollout, "variations").value.Array?
       && NotNull(rollout, "variations").value.items != []
  }

  function SharesOf(choice: Json): seq<Json>
    requires IsRollout(choice)
  {
    NotNull(NotNull(choice, "rollout").value, "variations").value.items
  }

  function QueryOf(choice: Json, user: User, key: string, salt: string): BucketQuery
    requires IsRollout(choice)
  {
    var rollout := NotNull(choice, "rollout").value;
    var seed := NotNull(rollout, "seed");
    BucketQuery(user, key, BucketAttribute(rollout).value, salt, if seed.None? then None else Some(ToInt(seed.value.n)))
  }

  /** With the hash for the bucket: a rollout of non-negative weights takes the one share that holds the user's hash. */
  lemma {:induction false} RolloutByHash(
    env: Env, choice: Json, user: User, key: string, salt: string, percentF: real -> string) returns (s: nat)
    requires IsRollout(choice) && AllGood(SharesOf(choice)) && NonNegative(SharesOf(choice))
    requires forall q :: env.bucket(q) == UserBucket(q, percentF)
    ensures HoldsBucket(SharesOf(choice), UserBucket(QueryOf(choice, user, key, salt), percentF), s)
    ensures forall t ::
      HoldsBucket(SharesOf(choice), UserBucket(QueryOf(choice, user, key, salt), percentF), t) ==> t == s
    ensures VariationIndex(env, choice, user, Some(key), Some(salt)) ==
      Take(SharesOf(choice)[s], NotNull(NotNull(choice, "rollout").value, "kind") == Some(Text("experiment")))
  {
    var q := QueryOf(choice, user, key, salt);
    Bucketing.BucketIsBounded(AttributeOf(user, q.attribute), key, salt, q.seed, SecondaryOf(user), percentF);
    var experiment := NotNull(NotNull(choice, "rollout").value, "kind") == Some(Text("experiment"));
    s := RolloutPartition(SharesOf(choice), UserBucket(q, percentF), experiment);
  }

  /** A fixed variation is picked as it stands. */
  lemma {:induction false} FixedChoice(env: Env, flag: Json, choice: Json, user: User, n: real)
    requires NotNull(flag, "key").Some? ==> NotNull(flag, "key").value.Text?
    requires NotNull(flag, "salt").Some? ==> NotNull(flag, "salt").value.Text?
    requires NotNull(choice, "variation") == Some(Number(n))
    ensures Choose(env, flag, Some(choice), user) == Picked(Number(n), false)
  {
  }

  /** `n` is `x` without its fraction. */
  predicate Truncates(x: real, n: int) {
    if x >= 0.0 then n as real <= x < (n + 1) as real else (n - 1) as real < x <= n as real
  }

  /** What a rollout hashes: the attribute it names, the user's key unless it names one, and its own seed, or else key
      and salt of the flag. The share that holds the bucket is picked. */
  lemma {:induction false} RolloutChoice(
    env: Env, flag: Json, choice: Json, user: User, key: string, salt: string, attribute: string, seed: Option<int>,
    secondary: Option<string>, percentF: real -> string) returns (s: nat)
    requires IsRollout(choice) && AllGood(SharesOf(choice)) && NonNegative(SharesOf(choice))
    requires forall q :: env.bucket(q) == UserBucket(q, percentF)
    requires NotNull(flag, "key") == Some(Text(key)) && NotNull(flag, "salt") == Some(Text(salt))
    requires NotNull(NotNull(choice, "rollout").value, "bucketBy") == Some(Text(attribute))
      || (NotNull(NotNull(choice, "rollout").value, "bucketBy") == None && attribute == "key")
    requires var given := NotNull(NotNull(choice, "rollout").value, "seed");
      if seed.None? then given.None? else given.Some? && Truncates(given.value.n, seed.value)
    requires secondary.Some? ==> "secondary" in user.attributes && user.attributes["secondary"] == Text(secondary.value)
    requires secondary.None? ==> "secondary" in user.attributes ==> !user.attributes["secondary"].Text?
    ensures var value := if attribute in user.attributes then Some(user.attributes[attribute]) else None;
      var bucket := Bucketing.Bucket(value, key, salt, seed, secondary, percentF);
      HoldsBucket(SharesOf(choice), bucket, s) && forall t :: HoldsBucket(SharesOf(choice), bucket, t) ==> t == s
    ensures Choose(env, flag, Some(choice), user) ==
      Take(SharesOf(choice)[s], NotNull(NotNull(choice, "rollout").value, "kind") == Some(Text("experiment")))
  {
    s := RolloutByHash(env, choice, user, key, salt, percentF);
    assert QueryOf(choice, user, key, salt) == BucketQuery(user, key, attribute, salt, seed);
  }
}
