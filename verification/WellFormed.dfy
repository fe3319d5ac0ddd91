/** Flag evaluation on well-formed data: no error can occur, and what clauses, segments, rules and
    prerequisites mean can be said without the order in which src/evaluate.c looks at them. */
module WellFormed {
  import opened Basics
  import opened JsonValue
  import opened Evaluate

  /** The status of a condition. */
  function Said(holds: bool): Status {
    if holds then Match else Miss
  }

  // ---------- lists of text, negation, operators ----------

  predicate AllText(items: seq<Json>) {
    forall i :: 0 <= i < |items| ==> items[i].Text?
  }

  lemma {:induction false} TextInIff(items: seq<Json>, text: string)
    requires AllText(items)
    ensures TextIn(items, text) == if Text(text) in items then Yes else No
  {
    if items != [] {
      TextInIff(items[1..], text);
      assert items == [items[0]] + items[1..];
    }
  }

  predicate GoodNegate(clause: Json) {
    NotNull(clause, "negate").Some? ==> NotNull(clause, "negate").value.Bool?
  }

  predicate Negated(clause: Json) {
    NotNull(clause, "negate") == Some(Bool(true))
  }

  lemma {:induction false} NegateIff(clause: Json, holds: bool)
    requires GoodNegate(clause)
    ensures MaybeNegate(clause, Said(holds)) == Said(holds != Negated(clause))
  {
  }

  /** The operator accepts the value with one of the clause's values. */
  ghost predicate Accepts(f: (Json, Json) -> bool, value: Json, values: seq<Json>) {
    exists i :: 0 <= i < |values| && f(value, values[i])
  }

  lemma {:induction false} MatchAnyIff(f: (Json, Json) -> bool, value: Json, values: seq<Json>)
    ensures MatchAny(f, value, values) == Said(Accepts(f, value, values))
  {
    if values != [] {
      MatchAnyIff(f, value, values[1..]);
      if f(value, values[0]) {
        assert Accepts(f, value, values);
      } else {
        assert Accepts(f, value, values) ==> Accepts(f, value, values[1..]) by {
          if i :| 0 <= i < |values| && f(value, values[i]) { assert values[1..][i - 1] == values[i]; }
        }
        if i :| 0 <= i < |values[1..]| && f(value, values[1..][i]) { assert values[i + 1] == values[1..][i]; }
      }
    }
  }

  /** The values of a clause: the elements of an array, the fields of an object, and otherwise none. */
  lemma {:induction false} ElementsInOrder(fields: seq<Field>)
    ensures |Elements(Object(fields))| == |fields|
    ensures forall i :: 0 <= i < |fields| ==> Elements(Object(fields))[i] == fields[i].value
    ensures forall items :: Elements(Array(items)) == items
    ensures forall json: Json :: !json.Object? && !json.Array? ==> Elements(json) == []
  {
    if fields != [] {
      ElementsInOrder(fields[1..]);
      assert Elements(Object(fields))[1..] == Elements(Object(fields[1..]));
    }
  }

  predicate Scalars(items: seq<Json>) {
    forall i :: 0 <= i < |items| ==> !items[i].Object? && !items[i].Array?
  }

  ghost predicate SomeAccepted(f: (Json, Json) -> bool, items: seq<Json>, values: seq<Json>) {
    exists i :: 0 <= i < |items| && Accepts(f, items[i], values)
  }

  lemma {:induction false} MatchElementsIff(f: (Json, Json) -> bool, items: seq<Json>, values: seq<Json>)
    requires Scalars(items)
    ensures MatchElements(f, items, values) == Said(SomeAccepted(f, items, values))
  {
    if items != [] {
      MatchAnyIff(f, items[0], values);
      MatchElementsIff(f, items[1..], values);
      if Accepts(f, items[0], values) {
        assert SomeAccepted(f, items, values);
      } else {
        if i :| 0 <= i < |items| && Accepts(f, items[i], values) { assert items[1..][i - 1] == items[i]; }
        if i :| 0 <= i < |items[1..]| && Accepts(f, items[1..][i], values) { assert items[i + 1] == items[1..][i]; }
      }
    }
  }

  /** A user whose list attributes hold only scalars. */
  predicate Flat(user: User) {
    forall name :: name in user.attributes && user.attributes[name].Array? ==> Scalars(user.attributes[name].items)
  }

  // ---------- clauses without segments ----------

  predicate GoodPlain(clause: Json) {
    && Lookup(clause, "attribute").Some? && Lookup(clause, "attribute").value.Text?
    && Lookup(clause, "op").Some? && Lookup(clause, "op").value.Text?
    && Lookup(clause, "values").Some? && GoodNegate(clause)
  }

  /** The attribute, or an element of it, is accepted, or negated; unknown operators and missing attributes
      never hold. */
  ghost predicate PlainHolds(env: Env, clause: Json, user: User)
    requires GoodPlain(clause)
  {
    var f, name := env.operator(Lookup(clause, "op").value.s), Lookup(clause, "attribute").value.s;
    var values := Elements(Lookup(clause, "values").value);
    && f.Some? && name in user.attributes
    && var actual := user.attributes[name];
       Negated(clause) != if actual.Array? then SomeAccepted(f.value, actual.items, values)
         else Accepts(f.value, actual, values)
  }

  lemma {:induction false} PlainClauseIff(env: Env, clause: Json, user: User)
    requires GoodPlain(clause) && Flat(user)
    ensures PlainClause(env, clause, user) == Said(PlainHolds(env, clause, user))
  {
    var f, name := env.operator(Lookup(clause, "op").value.s), Lookup(clause, "attribute").value.s;
    if f.Some? && name in user.attributes {
      var actual, values := user.attributes[name], Elements(Lookup(clause, "values").value);
      if actual.Array? {
        MatchElementsIff(f.value, actual.items, values);
        NegateIff(clause, SomeAccepted(f.value, actual.items, values));
      } else {
        MatchAnyIff(f.value, actual, values);
        NegateIff(clause, Accepts(f.value, actual, values));
      }
    }
  }

  predicate AllGoodPlain(clauses: seq<Json>) {
    forall i :: 0 <= i < |clauses| ==> GoodPlain(clauses[i])
  }

  ghost predicate AllPlainHold(env: Env, clauses: seq<Json>, user: User)
    requires AllGoodPlain(clauses)
  {
    forall i :: 0 <= i < |clauses| ==> PlainHolds(env, clauses[i], user)
  }

  lemma {:induction false} PlainClausesIff(env: Env, clauses: seq<Json>, user: User)
    requires AllGoodPlain(clauses) && Flat(user)
    ensures PlainClauses(env, clauses, user) == Said(AllPlainHold(env, clauses, user))
  {
    if clauses != [] {
      var rest := clauses[1..];
      PlainClauseIff(env, clauses[0], user);
      PlainClausesIff(env, rest, user);
      assert forall i :: 0 <= i < |rest| ==> rest[i] == clauses[i + 1];
      if PlainHolds(env, clauses[0], user) && AllPlainHold(env, rest, user) {
        forall i | 0 <= i < |clauses| ensures PlainHolds(env, clauses[i], user) {
          assert i > 0 ==> clauses[i] == rest[i - 1];
        }
      }
    }
  }

  // ---------- segments ----------

  predicate GoodSegmentRule(rule: Json) {
    && rule.Object?
    && Lookup(rule, "clauses").Some? && Lookup(rule, "clauses").value.Array?
      && AllGoodPlain(Lookup(rule, "clauses").value.items)
    && (NotNull(rule, "weight").Some? ==> NotNull(rule, "weight").value.Number? && BucketAttribute(rule).Some?)
  }

  /** All clauses hold, and the user's bucket is below the weight if there is one. */
  ghost predicate SegmentRuleHolds(env: Env, rule: Json, key: string, user: User, salt: string)
    requires GoodSegmentRule(rule)
  {
    && AllPlainHold(env, Lookup(rule, "clauses").value.items, user)
    && (NotNull(rule, "weight").Some? ==>
          env.bucket(BucketQuery(user, key, BucketAttribute(rule).value, salt, None)) < NotNull(rule,
            "weight").value.n / 100000.0)
  }

  lemma {:induction false} SegmentRuleIff(env: Env, rule: Json, key: string, user: User, salt: string)
    requires GoodSegmentRule(rule) && Flat(user)
    ensures SegmentRule(env, rule, key, user, salt) == Said(SegmentRuleHolds(env, rule, key, user, salt))
  {
    PlainClausesIff(env, Lookup(rule, "clauses").value.items, user);
  }

  predicate AllGoodSegmentRules(rules: seq<Json>) {
    forall i :: 0 <= i < |rules| ==> GoodSegmentRule(rules[i])
  }

  ghost predicate SomeSegmentRule(env: Env, rules: seq<Json>, key: string, user: User, salt: string)
    requires AllGoodSegmentRules(rules)
  {
    exists i :: 0 <= i < |rules| && SegmentRuleHolds(env, rules[i], key, user, salt)
  }

  lemma {:induction false} SegmentRulesIff(env: Env, rules: seq<Json>, key: string, user: User, salt: string)
    requires AllGoodSegmentRules(rules) && Flat(user)
    ensures SegmentRules(env, rules, key, user, salt) == Said(SomeSegmentRule(env, rules, key, user, salt))
  {
    if rules != [] {
      var rest := rules[1..];
      SegmentRuleIff(env, rules[0], key, user, salt);
      SegmentRulesIff(env, rest, key, user, salt);
      if i :| 0 < i < |rules| && SegmentRuleHolds(env, rules[i], key, user, salt) { assert rest[i - 1] == rules[i]; }
      if i :| 0 <= i < |rest| && SegmentRuleHolds(env, rest[i], key, user, salt) { assert rules[i + 1] == rest[i]; }
    }
  }

  predicate GoodNames(segment: Json, name: string) {
    NotNull(segment, name).Some? ==> NotNull(segment, name).value.Array? && AllText(NotNull(segment, name).value.items)
  }

  predicate Names(segment: Json, name: string, user: User)
    requires GoodNames(segment, name)
  {
    NotNull(segment, name).Some? && Text(user.key) in NotNull(segment, name).value.items
  }

  predicate GoodSegment(segment: Json) {
    && GoodNames(segment, "included") && GoodNames(segment, "excluded")
    && Lookup(segment, "rules").Some? && Lookup(segment, "rules").value.Array?
      && AllGoodSegmentRules(Lookup(segment, "rules").value.items)
    && Lookup(segment, "key").Some? && Lookup(segment, "key").value.Text?
    && Lookup(segment, "salt").Some? && Lookup(segment, "salt").value.Text?
  }

  /** Included; or not excluded, and some rule holds. */
  ghost predicate InSegment(env: Env, segment: Json, user: User)
    requires GoodSegment(segment)
  {
    || Names(segment, "included", user)
    || (!Names(segment, "excluded", user)
        && SomeSegmentRule(env, Lookup(segment, "rules").value.items, Lookup(segment, "key").value.s, user,
          Lookup(segment, "salt").value.s))
  }

  lemma {:induction false} SegmentIff(env: Env, segment: Json, user: User)
    requires GoodSegment(segment) && Flat(user)
    ensures SegmentMatches(env, segment, user) == Said(InSegment(env, segment, user))
  {
    if NotNull(segment, "included").Some? { TextInIff(NotNull(segment, "included").value.items, user.key); }
    if NotNull(segment, "excluded").Some? { TextInIff(NotNull(segment, "excluded").value.items, user.key); }
    SegmentRulesIff(env, Lookup(segment, "rules").value.items, Lookup(segment, "key").value.s, user,
      Lookup(segment, "salt").value.s);
  }

  ghost predicate GoodSegments(env: Env) {
    forall key :: !env.segment(key).Failed? && (env.segment(key).Found? ==> GoodSegment(env.segment(key).json))
  }

  /** The value names a stored segment that holds the user. */
  ghost predicate SegmentValue(env: Env, value: Json, user: User)
    requires GoodSegments(env)
  {
    value.Text? && env.segment(value.s).Found? && InSegment(env, env.segment(value.s).json, user)
  }

  ghost predicate SomeSegment(env: Env, values: seq<Json>, user: User)
    requires GoodSegments(env)
  {
    exists i :: 0 <= i < |values| && SegmentValue(env, values[i], user)
  }

  lemma {:induction false} AnySegmentIff(env: Env, values: seq<Json>, user: User)
    requires GoodSegments(env) && Flat(user)
    ensures AnySegment(env, values, user) == Said(SomeSegment(env, values, user))
  {
    if values != [] {
      var rest := values[1..];
      if values[0].Text? && env.segment(values[0].s).Found? { SegmentIff(env, env.segment(values[0].s).json, user); }
      AnySegmentIff(env, rest, user);
      if i :| 0 <= i < |values| && i > 0 && SegmentValue(env, values[i], user) { assert rest[i - 1] == values[i]; }
      if i :| 0 <= i < |rest| && SegmentValue(env, rest[i], user) { assert values[i + 1] == rest[i]; }
    }
  }

  // ---------- rules ----------

  predicate IsSegmentClause(clause: Json) {
    Lookup(clause, "op") == Some(Text("segmentMatch"))
  }

  predicate GoodClause(clause: Json) {
    && clause.Object?
    && if IsSegmentClause(clause)
       then Lookup(clause, "values").Some? && Lookup(clause, "values").value.Array? && GoodNegate(clause)
       else GoodPlain(clause)
  }

  ghost predicate ClauseHolds(env: Env, clause: Json, user: User)
    requires GoodClause(clause) && GoodSegments(env)
  {
    if IsSegmentClause(clause) then Negated(clause) != SomeSegment(env, Lookup(clause, "values").value.items, user)
    else PlainHolds(env, clause, user)
  }

  lemma {:induction false} ClauseIff(env: Env, clause: Json, user: User)
    requires GoodClause(clause) && GoodSegments(env) && Flat(user)
    ensures Clause(env, clause, user) == Said(ClauseHolds(env, clause, user))
  {
    if IsSegmentClause(clause) {
      AnySegmentIff(env, Lookup(clause, "values").value.items, user);
      NegateIff(clause, SomeSegment(env, Lookup(clause, "values").value.items, user));
    } else {
      PlainClauseIff(env, clause, user);
    }
  }

  predicate AllGoodClauses(clauses: seq<Json>) {
    forall i :: 0 <= i < |clauses| ==> GoodClause(clauses[i])
  }

  ghost predicate AllHold(env: Env, clauses: seq<Json>, user: User)
    requires AllGoodClauses(clauses) && GoodSegments(env)
  {
    forall i :: 0 <= i < |clauses| ==> ClauseHolds(env, clauses[i], user)
  }

  lemma {:induction false} ClausesIff(env: Env, clauses: seq<Json>, user: User)
    requires AllGoodClauses(clauses) && GoodSegments(env) && Flat(user)
    ensures Clauses(env, clauses, user) == Said(AllHold(env, clauses, user))
  {
    if clauses != [] {
      var rest := clauses[1..];
      ClauseIff(env, clauses[0], user);
      ClausesIff(env, rest, user);
      assert forall i :: 0 <= i < |rest| ==> rest[i] == clauses[i + 1];
      if ClauseHolds(env, clauses[0], user) && AllHold(env, rest, user) {
        forall i | 0 <= i < |clauses| ensures ClauseHolds(env, clauses[i], user) {
          assert i > 0 ==> clauses[i] == rest[i - 1];
        }
      }
    }
  }

  predicate GoodConditions(rule: Json) {
    && rule.Object?
    && Lookup(rule, "clauses").Some? && Lookup(rule, "clauses").value.Array?
      && AllGoodClauses(Lookup(rule, "clauses").value.items)
  }

  /** A rule matches exactly when all its clauses hold. */
  lemma {:induction false} RuleIff(env: Env, rule: Json, user: User)
    requires GoodConditions(rule) && GoodSegments(env) && Flat(user)
    ensures RuleHit(env, rule, user) == Said(AllHold(env, Lookup(rule, "clauses").value.items, user))
  {
    ClausesIff(env, Lookup(rule, "clauses").value.items, user);
  }

  // ---------- variations and rollouts ----------

  /** The number, read as an unsigned index, is that of one of the flag's variations. */
  predicate GoodIndex(flag: Json, index: Json) {
    && index.Number? && Variations(flag) != []
    && -1.0 < index.n < |Variations(flag)| as real && index.n < 4294967296.0
  }

  predicate GoodOptionalIndex(flag: Json, index: Option<Json>) {
    index == None || index == Some(Null) || GoodIndex(flag, index.value)
  }

  predicate GoodShares(flag: Json, shares: seq<Json>) {
    shares != [] && forall i :: 0 <= i < |shares| ==>
      GoodShare(shares[i]) && GoodIndex(flag, NotNull(shares[i], "variation").value)
  }

  predicate GoodRollout(flag: Json, rollout: Json) {
    && rollout.Object? && BucketAttribute(rollout).Some?
    && (NotNull(rollout, "kind").Some? ==> NotNull(rollout, "kind").value.Text?)
    && (NotNull(rollout, "seed").Some? ==> NotNull(rollout, "seed").value.Number?)
    && NotNull(rollout, "variations").Some? && NotNull(rollout, "variations").value.Array?
    && GoodShares(flag, NotNull(rollout, "variations").value.items)
  }

  /** A fixed variation, or a rollout of a flag with key and salt. */
  predicate GoodChoice(flag: Json, choice: Json) {
    && (NotNull(flag, "key").Some? ==> NotNull(flag, "key").value.Text?)
    && (NotNull(flag, "salt").Some? ==> NotNull(flag, "salt").value.Text?)
    && if NotNull(choice, "variation").Some? then GoodIndex(flag, NotNull(choice, "variation").value)
       else
         && NotNull(flag, "key").Some? && NotNull(flag, "salt").Some?
         && NotNull(choice, "rollout").Some? && GoodRollout(flag, NotNull(choice, "rollout").value)
  }

  lemma {:induction false} RollPicks(flag: Json, shares: seq<Json>, bucket: real, sum: real, experiment: bool)
    requires GoodShares(flag, shares)
    ensures var pick := Roll(shares, bucket, sum, experiment); pick.Picked? && GoodIndex(flag, pick.variation)
  {
    var sum' := sum + Weight(shares[0]) / 100000.0;
    if !(bucket < sum' || |shares| == 1) {
      RollPicks(flag, shares[1..], bucket, sum', experiment);
    }
  }

  lemma {:induction false} ChoosePicks(env: Env, flag: Json, choice: Json, user: User)
    requires GoodChoice(flag, choice)
    ensures var pick := Choose(env, flag, Some(choice), user); pick.Picked? && GoodIndex(flag, pick.variation)
  {
    if NotNull(choice, "variation").None? {
      var rollout := NotNull(choice, "rollout").value;
      var seed, key, salt := NotNull(rollout, "seed"), NotNull(flag, "key").value.s, NotNull(flag, "salt").value.s;
      var query := BucketQuery(user, key, BucketAttribute(rollout).value, salt, if seed.None? then None
        else Some(ToInt(seed.value.n)));
      RollPicks(flag, NotNull(rollout, "variations").value.items, env.bucket(query), 0.0, NotNull(rollout, "kind")
        == Some(Text("experiment")));
    }
  }

  // ---------- flags ----------

  predicate GoodTarget(flag: Json, target: Json) {
    && target.Object?
    && Lookup(target, "values").Some? && Lookup(target, "values").value.Array?
      && AllText(Lookup(target, "values").value.items)
    && GoodOptionalIndex(flag, Lookup(target, "variation"))
  }

  predicate GoodRule(flag: Json, rule: Json) {
    && GoodConditions(rule) && GoodChoice(flag, rule)
    && (NotNull(rule, "id").Some? ==> NotNull(rule, "id").value.Text?)
  }

  predicate GoodNeeds(items: seq<Json>) {
    forall i :: 0 <= i < |items| ==> NeedOf(items[i]).Some?
  }

  predicate GoodLists(flag: Json) {
    && ListOf(flag, "targets").Some? && ListOf(flag, "rules").Some? && ListOf(flag, "prerequisites").Some?
    && (forall i :: 0 <= i < |ListOf(flag, "targets").value| ==> GoodTarget(flag, ListOf(flag, "targets").value[i]))
    && (forall i :: 0 <= i < |ListOf(flag, "rules").value| ==> GoodRule(flag, ListOf(flag, "rules").value[i]))
    && GoodNeeds(ListOf(flag, "prerequisites").value)
  }

  /** A flag as the service sends it. */
  predicate GoodFlag(flag: Json) {
    && flag.Object? && EventOk(flag) && GoodLists(flag)
    && Lookup(flag, "on").Some? && Lookup(flag, "on").value.Bool?
    && GoodOptionalIndex(flag, Lookup(flag, "offVariation"))
    && Lookup(flag, "fallthrough").Some? && GoodChoice(flag, Lookup(flag, "fallthrough").value)
  }

  /** The store never fails, and all it holds is well-formed. */
  ghost predicate GoodStore(env: Env) {
    && GoodSegments(env)
    && forall key :: !env.flag(key).Failed? && (env.flag(key).Found? ==> GoodFlag(env.flag(key).json))
  }

  lemma {:induction false} TargetsAreSearched(flag: Json, targets: seq<Json>, user: User, from: nat)
    requires from <= |targets| && forall i :: 0 <= i < |targets| ==> GoodTarget(flag, targets[i])
    ensures !FirstTarget(targets, user, from).SearchError?
    decreases |targets| - from
  {
    if from < |targets| {
      TextInIff(Lookup(targets[from], "values").value.items, user.key);
      TargetsAreSearched(flag, targets, user, from + 1);
    }
  }

  lemma {:induction false} RulesAreSearched(env: Env, flag: Json, rules: seq<Json>, user: User, from: nat)
    requires GoodSegments(env) && Flat(user)
    requires from <= |rules| && forall i :: 0 <= i < |rules| ==> GoodRule(flag, rules[i])
    ensures !FirstRule(env, rules, user, from).SearchError?
    decreases |rules| - from
  {
    if from < |rules| {
      RuleIff(env, rules[from], user);
      RulesAreSearched(env, flag, rules, user, from + 1);
    }
  }

  lemma {:induction false} PicksFinish(
    env: Env, flag: Json, choice: Json, user: User, rule: Option<nat>, events: seq<Event>)
    requires GoodChoice(flag, choice)
    ensures FinishPick(flag, Choose(env, flag, Some(choice), user), rule, events).status == Match
  {
    ChoosePicks(env, flag, choice, user);
  }

  lemma {:induction false} GoodIndexAdds(flag: Json, index: Option<Json>)
    requires GoodOptionalIndex(flag, index)
    ensures !AddValue(flag, index).AddFailed?
  {
  }

  lemma {:induction false} TargetFinishes(env: Env, flag: Json, user: User, events: seq<Event>)
    requires ListOf(flag, "targets").Some? && FirstTarget(ListOf(flag, "targets").value, user, 0).At?
    requires var targets := ListOf(flag, "targets").value;
      GoodTarget(flag, targets[FirstTarget(targets, user, 0).index])
    ensures AfterPrerequisites(env, flag, user, events).status == Match
  {
    var targets := ListOf(flag, "targets").value;
    GoodIndexAdds(flag, Lookup(targets[FirstTarget(targets, user, 0).index], "variation"));
  }

  lemma {:induction false} RuleFinishes(env: Env, flag: Json, user: User, events: seq<Event>)
    requires ListOf(flag, "targets").Some? && FirstTarget(ListOf(flag, "targets").value, user, 0).Nowhere?
    requires ListOf(flag, "rules").Some? && FirstRule(env, ListOf(flag, "rules").value, user, 0).At?
    requires var rules := ListOf(flag, "rules").value; GoodRule(flag, rules[FirstRule(env, rules, user, 0).index])
    ensures AfterPrerequisites(env, flag, user, events).status == Match
  {
    var rules := ListOf(flag, "rules").value;
    var i := FirstRule(env, rules, user, 0).index;
    PicksFinish(env, flag, rules[i], user, Some(i), events);
  }

  lemma {:induction false} FallthroughFinishes(env: Env, flag: Json, user: User, events: seq<Event>)
    requires ListOf(flag, "targets").Some? && FirstTarget(ListOf(flag, "targets").value, user, 0).Nowhere?
    requires ListOf(flag, "rules").Some? && FirstRule(env, ListOf(flag, "rules").value, user, 0).Nowhere?
    requires Lookup(flag, "fallthrough").Some? && GoodChoice(flag, Lookup(flag, "fallthrough").value)
    ensures AfterPrerequisites(env, flag, user, events).status == Match
  {
    PicksFinish(env, flag, Lookup(flag, "fallthrough").value, user, None, events);
  }

  lemma {:induction false} LaterStagesSucceed(env: Env, flag: Json, user: User, events: seq<Event>)
    requires GoodSegments(env) && Flat(user) && GoodFlag(flag)
    ensures AfterPrerequisites(env, flag, user, events).status == Match
  {
    var targets, rules := ListOf(flag, "targets").value, ListOf(flag, "rules").value;
    TargetsAreSearched(flag, targets, user, 0);
    RulesAreSearched(env, flag, rules, user, 0);
    if FirstTarget(targets, user, 0).At? {
      TargetFinishes(env, flag, user, events);
    } else if FirstRule(env, rules, user, 0).At? {
      RuleFinishes(env, flag, user, events);
    } else {
      FallthroughFinishes(env, flag, user, events);
    }
  }

  /** On a well-formed store, evaluating a well-formed flag ends in a match or a miss. */
  lemma {:induction false} EvaluationSucceeds(env: Env, flag: Json, user: User, rank: string -> nat, bound: nat)
    requires Ranked(env, rank) && Below(env, Prerequisites(flag), rank, bound)
    requires GoodStore(env) && Flat(user) && GoodFlag(flag)
    ensures !IsError(Evaluate.Evaluate(env, flag, user, rank, bound).status)
    decreases bound, 1, 0
  {
    var items := Prerequisites(flag);
    assert ListOf(flag, "prerequisites").value == items;
    GoodIndexAdds(flag, Lookup(flag, "offVariation"));
    ChecksSucceed(env, KeyText(flag), items, user, rank, bound);
    LaterStagesSucceed(env, flag, user, CheckPrerequisites(env, flag, user, rank, bound).events);
  }

  lemma {:induction false} ChecksSucceed(
    env: Env, parent: Option<string>, items: seq<Json>, user: User, rank: string -> nat, bound: nat)
    requires Ranked(env, rank) && Below(env, items, rank, bound)
    requires GoodStore(env) && Flat(user) && GoodNeeds(items)
    ensures !IsError(CheckAll(env, parent, items, user, rank, bound).status)
    decreases bound, 0, |items|
  {
    if items != [] {
      CheckSucceeds(env, parent, items[0], user, rank, bound);
      ChecksSucceed(env, parent, items[1..], user, rank, bound);
    }
  }

  lemma {:induction false} CheckSucceeds(
    env: Env, parent: Option<string>, item: Json, user: User, rank: string -> nat, bound: nat)
    requires Ranked(env, rank) && Below(env, [item], rank, bound)
    requires GoodStore(env) && Flat(user) && NeedOf(item).Some?
    ensures !IsError(CheckOne(env, parent, item, user, rank, bound).status)
    decreases bound, 0, 0
  {
    var key := NeedOf(item).value.key;
    assert [item][0] == item;
    if env.flag(key).Found? {
      EvaluationSucceeds(env, env.flag(key).json, user, rank, rank(key));
    }
  }

  /** On a well-formed store prerequisites succeed if and only if each one exists, is on, matches and yields
      the required variation; otherwise the reported key is that of the first one that does not. */
  lemma {:induction false} PrerequisitesIff(
    env: Env, parent: Option<string>, items: seq<Json>, user: User, rank: string -> nat, bound: nat)
    requires Ranked(env, rank) && Below(env, items, rank, bound)
    requires GoodStore(env) && Flat(user) && GoodNeeds(items)
    ensures
      var checked := CheckAll(env, parent, items, user, rank, bound);
      && checked.status == Said(forall i :: 0 <= i < |items| ==> Satisfied(env, items[i], user, rank))
      && (checked.status == Miss ==>
        exists i :: FirstUnmet(env, items, user, rank, i) && checked.failedKey == NeedOf(items[i]).value.key)
  {
    ChecksSucceed(env, parent, items, user, rank, bound);
    ChecksBarringErrors(env, parent, items, user, rank, bound);
    var n := FirstUnsatisfied(env, items, user, rank);
    forall j | 0 <= j < n ensures Satisfied(env, items[j], user, rank) {
      SatisfiedBefore(env, items, user, rank, j);
    }
    if n < |items| {
      UnsatisfiedAt(env, items, user, rank);
      assert FirstUnmet(env, items, user, rank, n);
    }
  }

  ghost predicate FirstUnmet(env: Env, items: seq<Json>, user: User, rank: string -> nat, i: int)
    requires Ranked(env, rank) && GoodNeeds(items)
  {
    && 0 <= i < |items| && NeedOf(items[i]).Some? && !Satisfied(env, items[i], user, rank)
    && forall j :: 0 <= j < i ==> Satisfied(env, items[j], user, rank)
  }

  /** On a well-formed store every evaluation reports the first reason that applies, with the value it selects. */
  lemma {:induction false} EvaluationIsDecided(env: Env, flag: Json, user: User, rank: string -> nat, bound: nat)
    requires Ranked(env, rank) && Below(env, Prerequisites(flag), rank, bound)
    requires GoodStore(env) && Flat(user) && GoodFlag(flag)
    ensures Decided(env, flag, user, rank, bound, Evaluate.Evaluate(env, flag, user, rank, bound))
  {
    EvaluationSucceeds(env, flag, user, rank, bound);
    EvaluationFollowsOrder(env, flag, user, rank, bound);
  }

  // ---------- what an evaluation means ----------

  /** Some target lists the user. */
  ghost predicate Targeted(flag: Json, user: User)
    requires GoodFlag(flag)
  {
    exists i :: 0 <= i < |ListOf(flag, "targets").value|
      && Text(user.key) in Lookup(ListOf(flag, "targets").value[i], "values").value.items
  }

  /** All clauses of some rule hold. */
  ghost predicate Ruled(env: Env, flag: Json, user: User)
    requires GoodFlag(flag) && GoodSegments(env)
  {
    exists i :: 0 <= i < |ListOf(flag, "rules").value|
      && AllHold(env, Lookup(ListOf(flag, "rules").value[i], "clauses").value.items, user)
  }

  ghost predicate AllSatisfied(env: Env, flag: Json, user: User, rank: string -> nat)
    requires Ranked(env, rank)
  {
    forall i :: 0 <= i < |Prerequisites(flag)| ==> Satisfied(env, Prerequisites(flag)[i], user, rank)
  }

  lemma {:induction false} TargetedIff(flag: Json, user: User)
    requires GoodFlag(flag)
    ensures Targeted(flag, user) <==> FirstTarget(ListOf(flag, "targets").value, user, 0).At?
  {
    var targets := ListOf(flag, "targets").value;
    TargetsAreSearched(flag, targets, user, 0);
    forall i | 0 <= i < |targets|
      ensures TargetHit(targets[i], user) == Match <==> Text(user.key) in Lookup(targets[i], "values").value.items {
      TextInIff(Lookup(targets[i], "values").value.items, user.key);
    }
  }

  lemma {:induction false} RuledIff(env: Env, flag: Json, user: User)
    requires GoodFlag(flag) && GoodSegments(env) && Flat(user)
    ensures Ruled(env, flag, user) <==> FirstRule(env, ListOf(flag, "rules").value, user, 0).At?
  {
    var rules := ListOf(flag, "rules").value;
    RulesAreSearched(env, flag, rules, user, 0);
    forall i | 0 <= i < |rules|
      ensures RuleHit(env, rules[i], user) == Match <==> AllHold(env, Lookup(rules[i], "clauses").value.items, user) {
      RuleIff(env, rules[i], user);
    }
  }

  lemma {:induction false} LaterReason(env: Env, flag: Json, user: User, events: seq<Event>)
    requires GoodSegments(env) && Flat(user) && GoodFlag(flag)
    ensures var reason := AfterPrerequisites(env, flag, user, events).reason;
      && (reason.TargetMatch? <==> Targeted(flag, user))
      && (reason.RuleMatch? <==> !Targeted(flag, user) && Ruled(env, flag, user))
      && (reason.Fallthrough? <==> !Targeted(flag, user) && !Ruled(env, flag, user))
  {
    LaterStagesSucceed(env, flag, user, events);
    ReasonByStage(env, flag, user, events);
    TargetedIff(flag, user);
    RuledIff(env, flag, user);
    RulesAreSearched(env, flag, ListOf(flag, "rules").value, user, 0);
  }

  lemma {:induction false} OnceChecked(env: Env, flag: Json, user: User, rank: string -> nat, bound: nat)
    requires Ranked(env, rank) && Below(env, Prerequisites(flag), rank, bound) && flag.Object? && IsOn(flag)
    requires GoodOptionalIndex(flag, Lookup(flag, "offVariation"))
    ensures
      var checked, result :=
        CheckPrerequisites(env, flag, user, rank, bound), Evaluate.Evaluate(env, flag, user, rank, bound);
      && (checked.status == Match ==> result == AfterPrerequisites(env, flag, user, checked.events))
      && (checked.status == Miss ==> result.reason.PrerequisiteFailed?)
  {
    GoodIndexAdds(flag, Lookup(flag, "offVariation"));
  }

  /** What evaluating a well-formed flag that is on means: the first that applies of an unmet prerequisite, a
      target that lists the user, a rule whose clauses all hold, and the fallthrough. */
  lemma {:induction false} ReasonMeans(env: Env, flag: Json, user: User, rank: string -> nat, bound: nat)
    requires Ranked(env, rank) && Below(env, Prerequisites(flag), rank, bound)
    requires GoodStore(env) && Flat(user) && GoodFlag(flag) && IsOn(flag)
    ensures var reason, met := Evaluate.Evaluate(env, flag, user, rank, bound).reason,
      AllSatisfied(env, flag, user, rank);
      && (reason.PrerequisiteFailed? <==> !met)
      && (reason.TargetMatch? <==> met && Targeted(flag, user))
      && (reason.RuleMatch? <==> met && !Targeted(flag, user) && Ruled(env, flag, user))
      && (reason.Fallthrough? <==> met && !Targeted(flag, user) && !Ruled(env, flag, user))
  {
    var checked := CheckPrerequisites(env, flag, user, rank, bound);
    var items := Prerequisites(flag);
    assert ListOf(flag, "prerequisites").value == items;
    PrerequisitesIff(env, KeyText(flag), items, user, rank, bound);
    OnceChecked(env, flag, user, rank, bound);
    LaterReason(env, flag, user, checked.events);
  }
}
