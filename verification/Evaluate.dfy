/** Flag evaluation (src/evaluate.c): off switch, prerequisites, targets, rules, fallthrough, over JSON flags with the
    schema checks the source makes. The store, the operators and the user's bucket are parameters.
    `Abort` stands for a failed LD_ASSERT or a null dereference, both of which end the process. */
module Evaluate {
  import opened Basics
  import opened JsonValue

  datatype Status = Match | Miss | Mem | Schema | StoreFailed | Abort

  /** LDi_isEvalError; an aborted process yields no result either. */
  predicate IsError(s: Status) {
    s != Match && s != Miss
  }

  datatype User = User(key: string, attributes: map<string, Json>)

  datatype Fetch = Failed | Absent | Found(json: Json)

  /** What LDi_bucketUser hashes. */
  datatype BucketQuery = BucketQuery(user: User, key: string, attribute: string, salt: string, seed: Option<int>)

  datatype Env = Env(
    flag: string -> Fetch,
    segment: string -> Fetch,
    operator: string -> Option<(Json, Json) -> bool>,
    bucket: BucketQuery -> real)

  // ---------- values ----------

  /** Conversion of a double to unsigned int; None where C leaves it undefined. */
  function ToUnsigned(n: real): Option<nat> {
    if n <= -1.0 || n >= 4294967296.0 then None
    else if n < 0.0 then Some(0)
    else Some(n.Floor)
  }

  datatype Added = AddFailed | NoValue | Value(index: nat, json: Json)

  /** addValue: the variation an index selects. */
  function AddValue(flag: Json, index: Option<Json>): Added {
    if index == None || index == Some(Null) then NoValue
    else if !index.value.Number? then AddFailed
    else
      var variations, at := Lookup(flag, "variations"), ToUnsigned(index.value.n);
      if variations.None? || !variations.value.Array? then AddFailed
      else if at.None? || at.value >= |variations.value.items| then AddFailed
      else Value(at.value, variations.value.items[at.value])
  }

  datatype Reason =
    | Off
    | PrerequisiteFailed(key: string)
    | TargetMatch
    | RuleMatch(index: nat, inExperiment: bool)
    | Fallthrough(inExperiment: bool)
    | Unknown

  /** What LDi_evaluate leaves behind: its status, details, value and the events of evaluated prerequisites. */
  datatype Result = Result(
    status: Status,
    reason: Reason,
    variation: Option<nat>,
    value: Option<Json>,
    events: seq<Event>)

  /** A feature event for a prerequisite. */
  datatype Event = Event(
    key: string,
    variation: Option<nat>,
    value: Option<Json>,
    prereqOf: Option<string>,
    version: Option<Json>)

  function Fail(status: Status, events: seq<Event>): Result {
    Result(status, Unknown, None, None, events)
  }

  function Finish(status: Status, reason: Reason, added: Added, events: seq<Event>): Result {
    match added
    case AddFailed => Fail(Mem, events)
    case NoValue => Result(status, reason, None, None, events)
    case Value(index, json) => Result(status, reason, Some(index), Some(json), events)
  }

  // ---------- clauses and segments ----------

  datatype Hit = Yes | No | Crash

  /** LDi_textInArray; strcmp on an element that is not text dereferences null. */
  function TextIn(items: seq<Json>, text: string): Hit {
    if items == [] then No
    else if !items[0].Text? then Crash
    else if items[0].s == text then Yes
    else TextIn(items[1..], text)
  }

  function MaybeNegate(clause: Json, status: Status): Status {
    if IsError(status) then status
    else match NotNull(clause, "negate")
      case None => status
      case Some(negate) =>
        if !negate.Bool? then Schema
        else if negate.b then (if status == Match then Miss else Match)
        else status
  }

  /** matchAny; values that are not a collection have no elements. */
  function MatchAny(f: (Json, Json) -> bool, value: Json, values: seq<Json>): Status {
    if values == [] then Miss else if f(value, values[0]) then Match else MatchAny(f, value, values[1..])
  }

  function Elements(json: Json): seq<Json> {
    match json
    case Array(items) => items
    case Object(fields) => FieldValues(fields)
    case _ => []
  }

  function FieldValues(fields: seq<Field>): seq<Json> {
    if fields == [] then [] else [fields[0].value] + FieldValues(fields[1..])
  }

  /** The loop over an array-valued attribute. */
  function MatchElements(f: (Json, Json) -> bool, attribute: seq<Json>, values: seq<Json>): Status {
    if attribute == [] then Miss
    else if attribute[0].Object? || attribute[0].Array? then Schema
    else if MatchAny(f, attribute[0], values) == Match then Match
    else MatchElements(f, attribute[1..], values)
  }

  /** LDi_clauseMatchesUserNoSegments. */
  function PlainClause(env: Env, clause: Json, user: User): Status {
    var attribute, op, values := Lookup(clause, "attribute"), Lookup(clause, "op"), Lookup(clause, "values");
    if attribute.None? || !attribute.value.Text? then Schema
    else if op.None? || !op.value.Text? then Schema
    else if values.None? then Schema
    else
      var f := env.operator(op.value.s);
      if f.None? then Miss
      else if attribute.value.s !in user.attributes then Miss
      else
        var actual := user.attributes[attribute.value.s];
        if actual.Array? then MaybeNegate(clause, MatchElements(f.value, actual.items, Elements(values.value)))
        else MaybeNegate(clause, MatchAny(f.value, actual, Elements(values.value)))
  }

  function PlainClauses(env: Env, clauses: seq<Json>, user: User): Status {
    if clauses == [] then Match
    else
      var first := PlainClause(env, clauses[0], user);
      if first == Match then PlainClauses(env, clauses[1..], user) else first
  }

  function BucketAttribute(json: Json): Option<string> {
    match NotNull(json, "bucketBy")
    case None => Some("key")
    case Some(name) => if name.Text? then Some(name.s) else None
  }

  /** LDi_segmentRuleMatchUser. */
  function SegmentRule(env: Env, rule: Json, key: string, user: User, salt: string): Status {
    var clauses := Lookup(rule, "clauses");
    if clauses.None? || !clauses.value.Array? then Schema
    else
      var status := PlainClauses(env, clauses.value.items, user);
      if status != Match then status
      else match NotNull(rule, "weight")
        case None => Match
        case Some(weight) =>
          if !weight.Number? || BucketAttribute(rule).None? then Schema
          else
            var query := BucketQuery(user, key, BucketAttribute(rule).value, salt, None);
            if env.bucket(query) < weight.n / 100000.0 then Match else Miss
  }

  function SegmentRules(env: Env, rules: seq<Json>, key: string, user: User, salt: string): Status {
    if rules == [] then Miss
    else if !rules[0].Object? then Schema
    else
      var first := SegmentRule(env, rules[0], key, user, salt);
      if first == Miss then SegmentRules(env, rules[1..], key, user, salt) else first
  }

  /** LDi_segmentMatchesUser. */
  function SegmentMatches(env: Env, segment: Json, user: User): Status {
    var included, excluded := NotNull(segment, "included"), NotNull(segment, "excluded");
    if included.Some? && !included.value.Array? then Schema
    else
      var isIn := if included.Some? then TextIn(included.value.items, user.key) else No;
      if isIn == Crash then Abort
      else if isIn == Yes then Match
      else if excluded.Some? && !excluded.value.Array? then Schema
      else
        var isOut := if excluded.Some? then TextIn(excluded.value.items, user.key) else No;
        if isOut == Crash then Abort
        else if isOut == Yes then Miss
        else
          var rules, key, salt := Lookup(segment, "rules"), Lookup(segment, "key"), Lookup(segment, "salt");
          if rules.None? || !rules.value.Array? then Schema
          else if key.None? || !key.value.Text? then Schema
          else if salt.None? || !salt.value.Text? then Schema
          else SegmentRules(env, rules.value.items, key.value.s, user, salt.value.s)
  }

  /** The loop of a segmentMatch clause; values that are not text and unknown segments are passed over. */
  function AnySegment(env: Env, values: seq<Json>, user: User): Status {
    if values == [] then Miss
    else if !values[0].Text? then AnySegment(env, values[1..], user)
    else match env.segment(values[0].s)
      case Failed => StoreFailed
      case Absent => AnySegment(env, values[1..], user)
      case Found(segment) =>
        var status := SegmentMatches(env, segment, user);
        if status == Miss then AnySegment(env, values[1..], user) else status
  }

  /** LDi_clauseMatchesUser. */
  function Clause(env: Env, clause: Json, user: User): Status {
    var op := Lookup(clause, "op");
    if !clause.Object? || op.None? || !op.value.Text? then Schema
    else if op.value.s == "segmentMatch" then
      var values := Lookup(clause, "values");
      if values.None? || !values.value.Array? then Schema
      else MaybeNegate(clause, AnySegment(env, values.value.items, user))
    else PlainClause(env, clause, user)
  }

  function Clauses(env: Env, clauses: seq<Json>, user: User): Status {
    if clauses == [] then Match
    else if !clauses[0].Object? then Schema
    else
      var first := Clause(env, clauses[0], user);
      if first == Match then Clauses(env, clauses[1..], user) else first
  }

  /** LDi_ruleMatchesUser. */
  function RuleMatches(env: Env, rule: Json, user: User): Status {
    var clauses := Lookup(rule, "clauses");
    if clauses.None? || !clauses.value.Array? then Schema else Clauses(env, clauses.value.items, user)
  }

  // ---------- variation or rollout ----------

  datatype Pick = Bad(status: Status) | Picked(variation: Json, inExperiment: bool)

  /** The checks on one weighted variation of a rollout. */
  predicate GoodShare(share: Json) {
    && NotNull(share, "weight").Some? && NotNull(share, "weight").value.Number?
    && NotNull(share, "variation").Some? && NotNull(share, "variation").value.Number?
    && (NotNull(share, "untracked").Some? ==> NotNull(share, "untracked").value.Bool?)
  }

  function Weight(share: Json): real
    requires GoodShare(share)
  {
    NotNull(share, "weight").value.n
  }

  predicate Untracked(share: Json) {
    NotNull(share, "untracked") == Some(Bool(true))
  }

  /** The share is taken; an untracked share leaves the experiment. */
  function Take(share: Json, experiment: bool): Pick
    requires GoodShare(share)
  {
    Picked(NotNull(share, "variation").value, experiment && !Untracked(share))
  }

  /** The rollout loop: the first share whose cumulative weight exceeds the bucket, else the last one. */
  function Roll(shares: seq<Json>, bucket: real, sum: real, experiment: bool): (r: Pick)
    requires shares != []
    ensures r.Bad? ==> r.status == Schema
  {
    if !GoodShare(shares[0]) then Bad(Schema)
    else
      var sum' := sum + Weight(shares[0]) / 100000.0;
      if bucket < sum' || |shares| == 1 then Take(shares[0], experiment)
      else Roll(shares[1..], bucket, sum', experiment)
  }

  /** LDi_variationIndexForUser. */
  function VariationIndex(env: Env, choice: Json, user: User, key: Option<string>, salt: Option<string>): (r: Pick)
    ensures r.Bad? ==> IsError(r.status)
  {
    var variation := NotNull(choice, "variation");
    if variation.Some? then
      if variation.value.Number? then Picked(variation.value, false) else Bad(Schema)
    else if salt.None? then Bad(Abort)
    else
      var rollout := NotNull(choice, "rollout");
      if rollout.None? || !rollout.value.Object? then Bad(Schema)
      else
        var kind, shares, seed := NotNull(rollout.value, "kind"), NotNull(rollout.value, "variations"),
          NotNull(rollout.value, "seed");
        if kind.Some? && !kind.value.Text? then Bad(Schema)
        else if shares.None? || !shares.value.Array? || shares.value.items == [] then Bad(Schema)
        else if BucketAttribute(rollout.value).None? then Bad(Schema)
        else if seed.Some? && !seed.value.Number? then Bad(Schema)
        else if key.None? then Bad(Abort)
        else
          var attribute := BucketAttribute(rollout.value).value;
          var query := BucketQuery(user, key.value, attribute, salt.value,
                                   if seed.None? then None else Some(ToInt(seed.value.n)));
          Roll(shares.value.items, env.bucket(query), 0.0, kind == Some(Text("experiment")))
  }

  /** (int) of a double: truncation toward zero. */
  function ToInt(n: real): int {
    if n >= 0.0 then n.Floor else -((-n).Floor)
  }

  /** LDi_getIndexForVariationOrRollout. */
  function Choose(env: Env, flag: Json, choice: Option<Json>, user: User): (r: Pick)
    ensures r.Bad? ==> IsError(r.status)
  {
    var key, salt := NotNull(flag, "key"), NotNull(flag, "salt");
    if choice.None? then Bad(Abort)
    else if key.Some? && !key.value.Text? then Bad(Schema)
    else if salt.Some? && !salt.value.Text? then Bad(Schema)
    else VariationIndex(env, choice.value, user,
                        if key.None? then None else Some(key.value.s), if salt.None? then None else Some(salt.value.s))
  }

  // ---------- targets and rules ----------

  datatype Search = SearchError(status: Status) | At(index: nat) | Nowhere

  function TargetHit(target: Json, user: User): Status {
    var values := Lookup(target, "values");
    if !target.Object? || values.None? || !values.value.Array? then Schema
    else match TextIn(values.value.items, user.key)
      case Crash => Abort
      case Yes => Match
      case No => Miss
  }

  /** The target loop: the least target naming the user, unless an earlier one is malformed. */
  function FirstTarget(targets: seq<Json>, user: User, from: nat): (r: Search)
    requires from <= |targets|
    ensures r.At? ==> from <= r.index < |targets| && TargetHit(targets[r.index], user) == Match
    ensures r.At? ==> forall j :: from <= j < r.index ==> TargetHit(targets[j], user) == Miss
    ensures r.Nowhere? ==> forall j :: from <= j < |targets| ==> TargetHit(targets[j], user) == Miss
    ensures r.SearchError? ==> IsError(r.status)
    decreases |targets| - from
  {
    if from == |targets| then Nowhere
    else
      var status := TargetHit(targets[from], user);
      if IsError(status) then SearchError(status)
      else if status == Match then At(from)
      else FirstTarget(targets, user, from + 1)
  }

  function RuleHit(env: Env, rule: Json, user: User): Status {
    if !rule.Object? then Schema else RuleMatches(env, rule, user)
  }

  /** The rule loop: the least matching rule, unless an earlier one is malformed. */
  function FirstRule(env: Env, rules: seq<Json>, user: User, from: nat): (r: Search)
    requires from <= |rules|
    ensures r.At? ==> from <= r.index < |rules| && RuleHit(env, rules[r.index], user) == Match
    ensures r.At? ==> forall j :: from <= j < r.index ==> RuleHit(env, rules[j], user) == Miss
    ensures r.Nowhere? ==> forall j :: from <= j < |rules| ==> RuleHit(env, rules[j], user) == Miss
    ensures r.SearchError? ==> IsError(r.status)
    decreases |rules| - from
  {
    if from == |rules| then Nowhere
    else
      var status := RuleHit(env, rules[from], user);
      if IsError(status) then SearchError(status)
      else if status == Match then At(from)
      else FirstRule(env, rules, user, from + 1)
  }

  function ListOf(flag: Json, key: string): Option<seq<Json>> {
    match Lookup(flag, key)
    case None => Some([])
    case Some(json) => if json.Array? then Some(json.items) else None
  }

  /** The end of a matching rule, or of the fallthrough. */
  function FinishPick(flag: Json, pick: Pick, rule: Option<nat>, events: seq<Event>): Result {
    match pick
    case Bad(status) => Fail(status, events)
    case Picked(variation, inExperiment) =>
      var reason := if rule.Some? then RuleMatch(rule.value, inExperiment) else Fallthrough(inExperiment);
      Finish(Match, reason, AddValue(flag, Some(variation)), events)
  }

  /** LDi_evaluate once the prerequisites hold. */
  function AfterPrerequisites(env: Env, flag: Json, user: User, events: seq<Event>): Result {
    var targets := ListOf(flag, "targets");
    if targets.None? then Fail(Schema, events)
    else match FirstTarget(targets.value, user, 0)
      case SearchError(status) => Fail(status, events)
      case At(i) => Finish(Match, TargetMatch, AddValue(flag, Lookup(targets.value[i], "variation")), events)
      case Nowhere =>
        var rules := ListOf(flag, "rules");
        if rules.None? then Fail(Schema, events)
        else match FirstRule(env, rules.value, user, 0)
          case SearchError(status) => Fail(status, events)
          case At(i) =>
            var rule := rules.value[i];
            var result := FinishPick(flag, Choose(env, flag, Some(rule), user), Some(i), events);
            var id := NotNull(rule, "id");
            if !IsError(result.status) && id.Some? && !id.value.Text? then Fail(Schema, events) else result
          case Nowhere =>
            FinishPick(flag, Choose(env, flag, Lookup(flag, "fallthrough"), user), None, events)
  }

  // ---------- prerequisites ----------

  /** A well-formed prerequisite names a flag and the variation it must have. */
  datatype Need = Need(key: string, variation: real)

  function NeedOf(item: Json): Option<Need> {
    var key, variation := Lookup(item, "key"), Lookup(item, "variation");
    if !item.Object? || key.None? || !key.value.Text? then None
    else if variation.None? || !variation.value.Number? then None
    else Some(Need(key.value.s, variation.value.n))
  }

  function Prerequisites(flag: Json): seq<Json> {
    match Lookup(flag, "prerequisites")
    case Some(Array(items)) => items
    case _ => []
  }

  /** Every stored flag that `items` name ranks below `bound`. */
  ghost predicate Below(env: Env, items: seq<Json>, rank: string -> nat, bound: nat) {
    forall i :: 0 <= i < |items| && NeedOf(items[i]).Some? ==>
      env.flag(NeedOf(items[i]).value.key).Found? ==> rank(NeedOf(items[i]).value.key) < bound
  }

  /** The prerequisite graph of the store has no cycle: prerequisites rank below the flag that needs them. */
  ghost predicate Ranked(env: Env, rank: string -> nat) {
    forall key :: env.flag(key).Found? ==> Below(env, Prerequisites(env.flag(key).json), rank, rank(key))
  }

  /** The schema checks of LDi_newFeatureRequestEvent; without them it returns no event. */
  predicate EventOk(flag: Json) {
    && (NotNull(flag, "version").Some? ==> NotNull(flag, "version").value.Number?)
    && (NotNull(flag, "debugEventsUntilDate").Some? ==> NotNull(flag, "debugEventsUntilDate").value.Number?)
    && (NotNull(flag, "trackEvents").Some? ==> NotNull(flag, "trackEvents").value.Bool?)
    && (NotNull(flag, "trackEventsFallthrough").Some? ==> NotNull(flag, "trackEventsFallthrough").value.Bool?)
  }

  function KeyText(flag: Json): Option<string> {
    match Lookup(flag, "key")
    case Some(Text(key)) => Some(key)
    case _ => None
  }

  function EventFor(key: string, result: Result, parent: Option<string>, flag: Json): Event {
    Event(key, result.variation, result.value, parent, NotNull(flag, "version"))
  }

  datatype Checked = Checked(status: Status, failedKey: string, events: seq<Event>)

  /** LDi_evaluate. The rank only bounds the recursion; see RankDoesNotMatter. */
  function Evaluate(env: Env, flag: Json, user: User, ghost rank: string -> nat, ghost bound: nat): Result
    requires Ranked(env, rank) && Below(env, Prerequisites(flag), rank, bound)
    decreases bound, 2, 0
  {
    var on := Lookup(flag, "on");
    if !flag.Object? || on.None? || !on.value.Bool? then Fail(Schema, [])
    else if !on.value.b then Finish(Miss, Off, AddValue(flag, Lookup(flag, "offVariation")), [])
    else
      var checked := CheckPrerequisites(env, flag, user, rank, bound);
      if IsError(checked.status) then Fail(checked.status, checked.events)
      else if checked.status == Miss then
        Finish(Miss, PrerequisiteFailed(checked.failedKey), AddValue(flag, Lookup(flag, "offVariation")),
          checked.events)
      else AfterPrerequisites(env, flag, user, checked.events)
  }

  /** LDi_checkPrerequisites. */
  function CheckPrerequisites(env: Env, flag: Json, user: User, ghost rank: string -> nat, ghost bound: nat): Checked
    requires Ranked(env, rank) && Below(env, Prerequisites(flag), rank, bound)
    decreases bound, 1, 0
  {
    match Lookup(flag, "prerequisites")
    case None => Checked(Match, "", [])
    case Some(json) =>
      if !json.Array? then Checked(Schema, "", []) else CheckAll(env, KeyText(flag), json.items, user, rank, bound)
  }

  /** Its loop. */
  function CheckAll(
    env: Env, parent: Option<string>, items: seq<Json>, user: User, ghost rank: string -> nat, ghost bound: nat)
    : Checked
    requires Ranked(env, rank) && Below(env, items, rank, bound)
    decreases bound, 0, |items|
  {
    if items == [] then Checked(Match, "", [])
    else
      var first := CheckOne(env, parent, items[0], user, rank, bound);
      if first.status != Match then first
      else
        assert Below(env, items[1..], rank, bound);
        var rest := CheckAll(env, parent, items[1..], user, rank, bound);
        rest.(events := first.events + rest.events)
  }

  /** Its loop body: the events of the prerequisite itself come after those of its own prerequisites. */
  function CheckOne(
    env: Env, parent: Option<string>, item: Json, user: User, ghost rank: string -> nat, ghost bound: nat): Checked
    requires Ranked(env, rank) && Below(env, [item], rank, bound)
    decreases bound, 0, 0
  {
    var need := NeedOf(item);
    if need.None? then Checked(Schema, "", [])
    else
      var Need(key, variation) := need.value;
      match env.flag(key)
      case Failed => Checked(StoreFailed, key, [])
      case Absent => Checked(Miss, key, [])
      case Found(preflag) =>
        assert [item][0] == item;
        var result := Evaluate(env, preflag, user, rank, rank(key));
        if IsError(result.status) then Checked(result.status, key, [])
        else if !EventOk(preflag) then Checked(Mem, key, [])
        else
          var events := result.events + [EventFor(key, result, parent, preflag)];
          if result.status == Miss then Checked(Miss, key, events)
          else match Lookup(preflag, "on")
            case Some(Bool(on)) =>
              var met := on && result.variation.Some? && result.variation.value as real == variation;
              Checked(if met then Match else Miss, key, events)
            case _ => Checked(Schema, key, events)
  }

  // ---------- when prerequisites hold ----------

  predicate IsOn(flag: Json) {
    Lookup(flag, "on") == Some(Bool(true))
  }

  /** The prerequisite exists, is on, itself matches and yields the required variation. */
  ghost predicate Satisfied(env: Env, item: Json, user: User, rank: string -> nat)
    requires Ranked(env, rank)
  {
    && NeedOf(item).Some?
    && var Need(key, variation) := NeedOf(item).value;
       && env.flag(key).Found?
       && var preflag := env.flag(key).json;
          && IsOn(preflag)
          && var result := Evaluate(env, preflag, user, rank, rank(key));
             && result.status == Match
             && result.variation.Some? && result.variation.value as real == variation
  }

  lemma {:induction false} CheckBarringErrors(
    env: Env, parent: Option<string>, item: Json, user: User, rank: string -> nat, bound: nat)
    requires Ranked(env, rank) && Below(env, [item], rank, bound)
    requires !IsError(CheckOne(env, parent, item, user, rank, bound).status)
    ensures NeedOf(item).Some? && CheckOne(env, parent, item, user, rank, bound).failedKey == NeedOf(item).value.key
    ensures CheckOne(env, parent, item, user, rank, bound).status == Match <==> Satisfied(env, item, user, rank)
  {
    assert [item][0] == item;
  }

  /** The last event of a prerequisite that was evaluated says its key, what it yielded, for whom, and its version. */
  lemma {:induction false} PrerequisiteEvent(
    env: Env, parent: Option<string>, item: Json, user: User, rank: string -> nat, bound: nat)
    requires Ranked(env, rank) && Below(env, [item], rank, bound)
    requires NeedOf(item).Some? && env.flag(NeedOf(item).value.key).Found?
    requires EventOk(env.flag(NeedOf(item).value.key).json)
    ensures var key := NeedOf(item).value.key;
      var preflag := env.flag(key).json;
      var result := Evaluate(env, preflag, user, rank, rank(key));
      !IsError(result.status) ==>
        CheckOne(env, parent, item, user, rank, bound).events ==
          result.events + [Event(key, result.variation, result.value, parent, NotNull(preflag, "version"))]
  {
    assert [item][0] == item;
  }

  /** The place of the first prerequisite that is not satisfied, or the number of prerequisites. */
  ghost function FirstUnsatisfied(env: Env, items: seq<Json>, user: User, rank: string -> nat): (i: nat)
    requires Ranked(env, rank)
    ensures i <= |items|
  {
    if items == [] || !Satisfied(env, items[0], user, rank) then 0
    else 1 + FirstUnsatisfied(env, items[1..], user, rank)
  }

  lemma {:induction false} UnsatisfiedAt(env: Env, items: seq<Json>, user: User, rank: string -> nat)
    requires Ranked(env, rank) && FirstUnsatisfied(env, items, user, rank) < |items|
    ensures !Satisfied(env, items[FirstUnsatisfied(env, items, user, rank)], user, rank)
  {
    if Satisfied(env, items[0], user, rank) {
      UnsatisfiedAt(env, items[1..], user, rank);
    }
  }

  lemma {:induction false} SatisfiedBefore(env: Env, items: seq<Json>, user: User, rank: string -> nat, j: nat)
    requires Ranked(env, rank) && j < FirstUnsatisfied(env, items, user, rank)
    ensures Satisfied(env, items[j], user, rank)
  {
    if j > 0 {
      SatisfiedBefore(env, items[1..], user, rank, j - 1);
    }
  }

  /** Barring errors: prerequisites succeed if and only if every one is satisfied; otherwise the reported key is that of
      the first one that is not. Module WellFormed says when there are none. */
  lemma {:induction false} ChecksBarringErrors(
    env: Env, parent: Option<string>, items: seq<Json>, user: User, rank: string -> nat, bound: nat)
    requires Ranked(env, rank) && Below(env, items, rank, bound)
    requires !IsError(CheckAll(env, parent, items, user, rank, bound).status)
    ensures
      var checked, i := CheckAll(env, parent, items, user, rank, bound), FirstUnsatisfied(env, items, user, rank);
      && (checked.status == Match <==> i == |items|)
      && (i < |items| ==> NeedOf(items[i]).Some? && NeedOf(items[i]).value.key == checked.failedKey)
    decreases |items|
  {
    if items != [] {
      CheckBarringErrors(env, parent, items[0], user, rank, bound);
      if CheckOne(env, parent, items[0], user, rank, bound).status == Match {
        ChecksBarringErrors(env, parent, items[1..], user, rank, bound);
      }
    }
  }

  // ---------- the events are the post-order of the visited tree ----------

  datatype Tree = Tree(children: seq<Tree>, event: Event)

  function PostOrder(forest: seq<Tree>): seq<Event> {
    if forest == [] then [] else PostOrder(forest[0].children) + [forest[0].event] + PostOrder(forest[1..])
  }

  /** The prerequisites a flag visits, each with the prerequisites it visits in turn: all up to and including the first
      that is not satisfied. A prerequisite that is missing or cannot be evaluated is not visited. */
  ghost function Visited(env: Env, flag: Json, user: User, rank: string -> nat, bound: nat): seq<Tree>
    requires Ranked(env, rank) && Below(env, Prerequisites(flag), rank, bound)
    decreases bound, 1, 0
  {
    if IsOn(flag) then VisitedFrom(env, KeyText(flag), Prerequisites(flag), user, rank, bound) else []
  }

  /** The prerequisite is fetched and evaluated without an error. */
  ghost predicate IsVisited(env: Env, item: Json, user: User, rank: string -> nat)
    requires Ranked(env, rank)
  {
    && NeedOf(item).Some?
    && var key := NeedOf(item).value.key;
       && env.flag(key).Found?
       && !IsError(Evaluate(env, env.flag(key).json, user, rank, rank(key)).status)
       && EventOk(env.flag(key).json)
  }

  ghost function TreeOf(env: Env, parent: Option<string>, item: Json, user: User, rank: string -> nat, bound: nat): Tree
    requires Ranked(env, rank) && Below(env, [item], rank, bound) && IsVisited(env, item, user, rank)
    decreases bound, 0, 0
  {
    var key := NeedOf(item).value.key;
    var preflag := env.flag(key).json;
    assert [item][0] == item;
    Tree(Visited(env, preflag, user, rank, rank(key)),
         EventFor(key, Evaluate(env, preflag, user, rank, rank(key)), parent, preflag))
  }

  ghost function VisitedFrom(
    env: Env, parent: Option<string>, items: seq<Json>, user: User, rank: string -> nat, bound: nat): seq<Tree>
    requires Ranked(env, rank) && Below(env, items, rank, bound)
    decreases bound, 0, |items|
  {
    if items == [] || !IsVisited(env, items[0], user, rank) then []
    else
      assert Below(env, items[1..], rank, bound);
      [TreeOf(env, parent, items[0], user, rank, bound)]
      + (if Satisfied(env, items[0], user, rank) then VisitedFrom(env, parent, items[1..], user, rank, bound) else [])
  }

  lemma {:induction false} PostOrderCons(tree: Tree, rest: seq<Tree>)
    ensures PostOrder([tree] + rest) == (PostOrder(tree.children) + [tree.event]) + PostOrder(rest)
  {
    TailOfCons(tree, rest);
  }

  lemma {:induction false} PostOrderOne(tree: Tree)
    ensures PostOrder([tree]) == PostOrder(tree.children) + [tree.event]
  {
    PostOrderCons(tree, []);
    EmptyEnds([tree]);
    EmptyEnds(PostOrder(tree.children) + [tree.event]);
  }

  lemma {:induction false} EventsArePostOrder(env: Env, flag: Json, user: User, rank: string -> nat, bound: nat)
    requires Ranked(env, rank) && Below(env, Prerequisites(flag), rank, bound)
    ensures Evaluate(env, flag, user, rank, bound).events == PostOrder(Visited(env, flag, user, rank, bound))
    decreases bound, 1, 0
  {
    if flag.Object? && IsOn(flag) && Lookup(flag, "prerequisites").Some? && Lookup(flag, "prerequisites").value.Array? {
      CheckedEvents(env, KeyText(flag), Prerequisites(flag), user, rank, bound);
    }
    var checked := CheckPrerequisites(env, flag, user, rank, bound);
    LaterStagesKeepEvents(env, flag, user, checked.events);
  }

  lemma {:induction false} LaterStagesKeepEvents(env: Env, flag: Json, user: User, events: seq<Event>)
    ensures AfterPrerequisites(env, flag, user, events).events == events
  {
  }

  lemma {:induction false} CheckOneEvents(
    env: Env, parent: Option<string>, item: Json, user: User, rank: string -> nat, bound: nat)
    requires Ranked(env, rank) && Below(env, [item], rank, bound)
    ensures CheckOne(env, parent, item, user, rank, bound).events
         == if IsVisited(env, item, user, rank) then PostOrder([TreeOf(env, parent, item, user, rank, bound)]) else []
    decreases bound, 0, 0
  {
    assert [item][0] == item;
    if IsVisited(env, item, user, rank) {
      var key := NeedOf(item).value.key;
      EventsArePostOrder(env, env.flag(key).json, user, rank, rank(key));
      PostOrderOne(TreeOf(env, parent, item, user, rank, bound));
    }
  }

  lemma {:induction false} CheckOneMatches(
    env: Env, parent: Option<string>, item: Json, user: User, rank: string -> nat, bound: nat)
    requires Ranked(env, rank) && Below(env, [item], rank, bound)
    ensures CheckOne(env, parent, item, user, rank, bound).status == Match
       <==> IsVisited(env, item, user, rank) && Satisfied(env, item, user, rank)
  {
    assert [item][0] == item;
  }

  lemma {:induction false} CheckedEvents(
    env: Env, parent: Option<string>, items: seq<Json>, user: User, rank: string -> nat, bound: nat)
    requires Ranked(env, rank) && Below(env, items, rank, bound)
    ensures CheckAll(env, parent, items, user, rank, bound).events
         == PostOrder(VisitedFrom(env, parent, items, user, rank, bound))
    decreases bound, 0, |items|
  {
    if items != [] {
      CheckOneEvents(env, parent, items[0], user, rank, bound);
      CheckOneMatches(env, parent, items[0], user, rank, bound);
      if IsVisited(env, items[0], user, rank) {
        var tree := TreeOf(env, parent, items[0], user, rank, bound);
        if Satisfied(env, items[0], user, rank) {
          CheckedEvents(env, parent, items[1..], user, rank, bound);
          PostOrderThen(tree, VisitedFrom(env, parent, items[1..], user, rank, bound));
        } else {
          EmptyEnds([tree]);
        }
      }
    }
  }

  lemma {:induction false} PostOrderThen(tree: Tree, rest: seq<Tree>)
    ensures PostOrder([tree] + rest) == PostOrder([tree]) + PostOrder(rest)
  {
    PostOrderCons(tree, rest);
    PostOrderOne(tree);
  }

  // ---------- the declarative order ----------

  ghost predicate DecidedByTarget(flag: Json, user: User, result: Result) {
    && result.status == Match
    && exists i ::
         LeastTarget(flag, user, i) && Selects(flag, Lookup(ListOf(flag, "targets").value[i], "variation"), result)
  }

  ghost predicate DecidedByRule(env: Env, flag: Json, user: User, i: nat, inExperiment: bool, result: Result) {
    && result.status == Match && NoTarget(flag, user) && LeastRule(env, flag, user, i)
    && Chosen(flag, Choose(env, flag, Some(ListOf(flag, "rules").value[i]), user), inExperiment, result)
  }

  ghost predicate DecidedByFallthrough(env: Env, flag: Json, user: User, inExperiment: bool, result: Result) {
    && result.status == Match && NoTarget(flag, user) && NoRule(env, flag, user)
    && Chosen(flag, Choose(env, flag, Lookup(flag, "fallthrough"), user), inExperiment, result)
  }

  /** The decision the details report is the first that applies: off, failed prerequisite, least target naming the user,
      least matching rule, fallthrough. */
  ghost predicate Decided(env: Env, flag: Json, user: User, rank: string -> nat, bound: nat, result: Result)
    requires Ranked(env, rank) && Below(env, Prerequisites(flag), rank, bound)
  {
    var checked := CheckPrerequisites(env, flag, user, rank, bound);
    match result.reason
    case Off => Lookup(flag, "on") == Some(Bool(false)) && result.status == Miss
      && Selects(flag, Lookup(flag, "offVariation"), result)
    case PrerequisiteFailed(key) =>
      && IsOn(flag) && checked.status == Miss && key == checked.failedKey
      && result.status == Miss && Selects(flag, Lookup(flag, "offVariation"), result)
    case TargetMatch => IsOn(flag) && checked.status == Match && DecidedByTarget(flag, user, result)
    case RuleMatch(i, inExperiment) =>
      IsOn(flag) && checked.status == Match && DecidedByRule(env, flag, user, i, inExperiment, result)
    case Fallthrough(inExperiment) =>
      IsOn(flag) && checked.status == Match && DecidedByFallthrough(env, flag, user, inExperiment, result)
    case Unknown => false
  }

  function Variations(flag: Json): seq<Json> {
    match Lookup(flag, "variations")
    case Some(Array(items)) => items
    case _ => []
  }

  /** A number read as an unsigned index: its whole part, or zero just below zero. */
  predicate Indexes(n: real, k: nat) {
    k < 0x1_0000_0000 && (k as real <= n < (k + 1) as real || (k == 0 && -1.0 < n < 0.0))
  }

  /** The result carries the variation at the index, counted from zero, or none for a missing or null index. */
  predicate Selects(flag: Json, index: Option<Json>, result: Result) {
    if index == None || index == Some(Null) then result.variation == None && result.value == None
    else
      && index.value.Number? && result.variation.Some? && Indexes(index.value.n, result.variation.value)
      && result.variation.value < |Variations(flag)|
      && result.value == Some(Variations(flag)[result.variation.value])
  }

  /** The index k serves variation k, counted from zero, and a missing or null one serves none. */
  ghost predicate Serves(flag: Json, index: Option<Json>, result: Result) {
    && (index == None || index == Some(Null) ==> result.variation == None && result.value == None)
    && forall k: nat :: index == Some(Number(k as real)) ==>
         k < |Variations(flag)| && result.variation == Some(k) && result.value == Some(Variations(flag)[k])
  }

  lemma {:induction false} SelectedIsServed(flag: Json, index: Option<Json>, result: Result)
    requires Selects(flag, index, result)
    ensures Serves(flag, index, result)
  {
    forall k: nat | index == Some(Number(k as real))
      ensures k < |Variations(flag)| && result.variation == Some(k) && result.value == Some(Variations(flag)[k]) {
      assert Indexes(k as real, result.variation.value);
    }
  }

  predicate Chosen(flag: Json, pick: Pick, inExperiment: bool, result: Result) {
    pick.Picked? && pick.inExperiment == inExperiment && Selects(flag, Some(pick.variation), result)
  }

  ghost predicate LeastTarget(flag: Json, user: User, i: int) {
    && ListOf(flag, "targets").Some?
    && var targets := ListOf(flag, "targets").value;
       0 <= i < |targets| && TargetHit(targets[i], user) == Match
       && forall j :: 0 <= j < i ==> TargetHit(targets[j], user) == Miss
  }

  ghost predicate NoTarget(flag: Json, user: User) {
    && ListOf(flag, "targets").Some?
    && var targets := ListOf(flag, "targets").value;
       forall j :: 0 <= j < |targets| ==> TargetHit(targets[j], user) == Miss
  }

  ghost predicate LeastRule(env: Env, flag: Json, user: User, i: int) {
    && ListOf(flag, "rules").Some?
    && var rules := ListOf(flag, "rules").value;
       0 <= i < |rules| && RuleHit(env, rules[i], user) == Match
       && forall j :: 0 <= j < i ==> RuleHit(env, rules[j], user) == Miss
  }

  ghost predicate NoRule(env: Env, flag: Json, user: User) {
    && ListOf(flag, "rules").Some?
    && var rules := ListOf(flag, "rules").value;
       forall j :: 0 <= j < |rules| ==> RuleHit(env, rules[j], user) == Miss
  }

  lemma {:induction false} TargetsInOrder(env: Env, flag: Json, user: User, events: seq<Event>)
    requires ListOf(flag, "targets").Some? && FirstTarget(ListOf(flag, "targets").value, user, 0).At?
    requires !IsError(AfterPrerequisites(env, flag, user, events).status)
    ensures AfterPrerequisites(env, flag, user, events).reason == TargetMatch
    ensures DecidedByTarget(flag, user, AfterPrerequisites(env, flag, user, events))
  {
    assert LeastTarget(flag, user, FirstTarget(ListOf(flag, "targets").value, user, 0).index);
  }

  lemma {:induction false} RulesInOrder(env: Env, flag: Json, user: User, result: Result)
    requires NoTarget(flag, user) && !IsError(result.status)
    requires ListOf(flag, "rules").Some? && FirstRule(env, ListOf(flag, "rules").value, user, 0).At?
    requires var i := FirstRule(env, ListOf(flag, "rules").value, user, 0).index;
      result == FinishPick(flag, Choose(env, flag, Some(ListOf(flag, "rules").value[i]), user), Some(i), result.events)
    ensures result.reason.RuleMatch?
      && DecidedByRule(env, flag, user, result.reason.index, result.reason.inExperiment, result)
  {
    assert LeastRule(env, flag, user, FirstRule(env, ListOf(flag, "rules").value, user, 0).index);
  }

  lemma {:induction false} FallthroughInOrder(env: Env, flag: Json, user: User, result: Result)
    requires NoTarget(flag, user) && !IsError(result.status)
    requires ListOf(flag, "rules").Some? && FirstRule(env, ListOf(flag, "rules").value, user, 0).Nowhere?
    requires result == FinishPick(flag, Choose(env, flag, Lookup(flag, "fallthrough"), user), None, result.events)
    ensures result.reason.Fallthrough?
      && DecidedByFallthrough(env, flag, user, result.reason.inExperiment, result)
  {
    assert NoRule(env, flag, user);
  }

  /** On every non-error result the reported reason is the first in the declared order that applies, and the value is
      the one that reason selects. */
  lemma {:induction false} EvaluationFollowsOrder(env: Env, flag: Json, user: User, rank: string -> nat, bound: nat)
    requires Ranked(env, rank) && Below(env, Prerequisites(flag), rank, bound)
    requires !IsError(Evaluate(env, flag, user, rank, bound).status)
    ensures Decided(env, flag, user, rank, bound, Evaluate(env, flag, user, rank, bound))
  {
    var checked := CheckPrerequisites(env, flag, user, rank, bound);
    if IsOn(flag) && checked.status == Match {
      LaterStagesInOrder(env, flag, user, rank, bound, checked.events);
    }
  }

  lemma {:induction false} NoTargetInOrder(env: Env, flag: Json, user: User, events: seq<Event>)
    requires ListOf(flag, "targets").Some? && FirstTarget(ListOf(flag, "targets").value, user, 0).Nowhere?
    requires !IsError(AfterPrerequisites(env, flag, user, events).status)
    ensures var result := AfterPrerequisites(env, flag, user, events);
      match result.reason
      case RuleMatch(i, inExperiment) => DecidedByRule(env, flag, user, i, inExperiment, result)
      case Fallthrough(inExperiment) => DecidedByFallthrough(env, flag, user, inExperiment, result)
      case _ => false
  {
    var result := AfterPrerequisites(env, flag, user, events);
    if FirstRule(env, ListOf(flag, "rules").value, user, 0).At? {
      RulesInOrder(env, flag, user, result);
    } else {
      FallthroughInOrder(env, flag, user, result);
    }
  }

  lemma {:induction false} LaterStagesInOrder(
    env: Env, flag: Json, user: User, rank: string -> nat, bound: nat, events: seq<Event>)
    requires Ranked(env, rank) && Below(env, Prerequisites(flag), rank, bound)
    requires IsOn(flag) && CheckPrerequisites(env, flag, user, rank, bound).status == Match
    requires !IsError(AfterPrerequisites(env, flag, user, events).status)
    ensures Decided(env, flag, user, rank, bound, AfterPrerequisites(env, flag, user, events))
  {
    if FirstTarget(ListOf(flag, "targets").value, user, 0).At? {
      TargetsInOrder(env, flag, user, events);
    } else {
      NoTargetInOrder(env, flag, user, events);
    }
  }

  /** Which stage gives the reason. */
  lemma {:induction false} ReasonByStage(env: Env, flag: Json, user: User, events: seq<Event>)
    requires !IsError(AfterPrerequisites(env, flag, user, events).status)
    ensures ListOf(flag, "targets").Some?
    ensures var reason := AfterPrerequisites(env, flag, user, events).reason;
      var target := FirstTarget(ListOf(flag, "targets").value, user, 0);
      && (reason.TargetMatch? <==> target.At?)
      && (target.Nowhere? ==>
            && ListOf(flag, "rules").Some?
            && (reason.RuleMatch? <==> FirstRule(env, ListOf(flag, "rules").value, user, 0).At?)
            && (reason.Fallthrough? <==> FirstRule(env, ListOf(flag, "rules").value, user, 0).Nowhere?))
      && (target.At? || target.Nowhere?)
  {
  }

  /** The index the reported reason goes by. */
  ghost predicate GoesBy(env: Env, flag: Json, user: User, reason: Reason, index: Option<Json>) {
    match reason
    case Off => index == Lookup(flag, "offVariation")
    case PrerequisiteFailed(_) => index == Lookup(flag, "offVariation")
    case TargetMatch =>
      exists i :: LeastTarget(flag, user, i) && index == Lookup(ListOf(flag, "targets").value[i], "variation")
    case RuleMatch(i, inExperiment) =>
      && index.Some? && LeastRule(env, flag, user, i)
      && Choose(env, flag, Some(ListOf(flag, "rules").value[i]), user) == Picked(index.value, inExperiment)
    case Fallthrough(inExperiment) =>
      && index.Some?
      && Choose(env, flag, Lookup(flag, "fallthrough"), user) == Picked(index.value, inExperiment)
    case Unknown => false
  }

  /** Whatever the reason, its index k serves variation k, counted from zero, and a missing or null one serves none. */
  lemma {:induction false} ServedVariation(env: Env, flag: Json, user: User, rank: string -> nat, bound: nat)
    returns (index: Option<Json>)
    requires Ranked(env, rank) && Below(env, Prerequisites(flag), rank, bound)
    requires !IsError(Evaluate(env, flag, user, rank, bound).status)
    ensures GoesBy(env, flag, user, Evaluate(env, flag, user, rank, bound).reason, index)
    ensures Serves(flag, index, Evaluate(env, flag, user, rank, bound))
  {
    var result := Evaluate(env, flag, user, rank, bound);
    EvaluationFollowsOrder(env, flag, user, rank, bound);
    match result.reason {
      case TargetMatch =>
        var i :| LeastTarget(flag, user, i)
          && Selects(flag, Lookup(ListOf(flag, "targets").value[i], "variation"), result);
        index := Lookup(ListOf(flag, "targets").value[i], "variation");
      case RuleMatch(i, _) =>
        index := Some(Choose(env, flag, Some(ListOf(flag, "rules").value[i]), user).variation);
      case Fallthrough(_) => index := Some(Choose(env, flag, Lookup(flag, "fallthrough"), user).variation);
      case _ => index := Lookup(flag, "offVariation");
    }
    SelectedIsServed(flag, index, result);
  }

  /** The details and the value agree: a variation index always comes with the value it selects, no index with none. */
  lemma {:induction false} ValueIsTheVariation(env: Env, flag: Json, user: User, rank: string -> nat, bound: nat)
    requires Ranked(env, rank) && Below(env, Prerequisites(flag), rank, bound)
    requires !IsError(Evaluate(env, flag, user, rank, bound).status)
    ensures
      var result := Evaluate(env, flag, user, rank, bound);
      && (result.variation.None? ==> result.value.None?)
      && (result.variation.Some? ==>
            && Lookup(flag, "variations").Some? && Lookup(flag, "variations").value.Array?
            && result.variation.value < |Lookup(flag, "variations").value.items|
            && result.value == Some(Lookup(flag, "variations").value.items[result.variation.value]))
  {
    EvaluationFollowsOrder(env, flag, user, rank, bound);
  }

  /** The rank is only a witness of termination: any two give the same evaluation. */
  lemma {:induction false} RankDoesNotMatter(
    env: Env, flag: Json, user: User, rank: string -> nat, bound: nat, rank': string -> nat, bound': nat)
    requires Ranked(env, rank) && Below(env, Prerequisites(flag), rank, bound)
    requires Ranked(env, rank') && Below(env, Prerequisites(flag), rank', bound')
    ensures Evaluate(env, flag, user, rank, bound) == Evaluate(env, flag, user, rank', bound')
    decreases bound, 1, 0
  {
    RankDoesNotMatterToChecks(env, KeyText(flag), Prerequisites(flag), user, rank, bound, rank', bound');
  }

  lemma {:induction false} RankDoesNotMatterToChecks(
    env: Env, parent: Option<string>, items: seq<Json>, user: User,
    rank: string -> nat, bound: nat, rank': string -> nat, bound': nat)
    requires Ranked(env, rank) && Below(env, items, rank, bound)
    requires Ranked(env, rank') && Below(env, items, rank', bound')
    ensures CheckAll(env, parent, items, user, rank, bound) == CheckAll(env, parent, items, user, rank', bound')
    decreases bound, 0, |items|
  {
    if items != [] {
      RankDoesNotMatterToOne(env, parent, items[0], user, rank, bound, rank', bound');
      RankDoesNotMatterToChecks(env, parent, items[1..], user, rank, bound, rank', bound');
    }
  }

  lemma {:induction false} RankDoesNotMatterToOne(
    env: Env, parent: Option<string>, item: Json, user: User,
    rank: string -> nat, bound: nat, rank': string -> nat, bound': nat)
    requires Ranked(env, rank) && Below(env, [item], rank, bound)
    requires Ranked(env, rank') && Below(env, [item], rank', bound')
    ensures CheckOne(env, parent, item, user, rank, bound) == CheckOne(env, parent, item, user, rank', bound')
    decreases bound, 0, 0
  {
    assert [item][0] == item;
    if NeedOf(item).Some? && env.flag(NeedOf(item).value.key).Found? {
      var key := NeedOf(item).value.key;
      RankDoesNotMatter(env, env.flag(key).json, user, rank, rank(key), rank', rank'(key));
    }
  }
}
