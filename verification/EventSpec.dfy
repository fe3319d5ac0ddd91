/** Analytics events before they are sent (src/event_processor.c): a bounded queue, summary counters kept as
    JSON objects, and the bundle that empties both. */
module EventSpec {
  import opened Basics
  import opened JsonValue
  import opened JsonText
  import JsonRoundTrip
  import LruSpec

  /** Variations are unsigned int; versions are numbers that print_number writes as plain digits. */
  type Variation = n: nat | n < 0x1_0000_0000
  type FlagVersion = n: int | -1_000_000_000_000_000 < n < 1_000_000_000_000_000

  /** A feature request event. `track` is whether it is sent in full: trackEvents, or in an experiment. Until
      `until` a debug copy is asked for; `converts` is whether memory lets convertToDebug make one. */
  datatype Request = Request(
    flag: string,
    variation: Option<Variation>,
    version: Option<FlagVersion>,
    value: Option<Json>,
    fallback: Option<Json>,
    track: bool,
    until: Option<real>,
    converts: bool)

  // ---------- summary counters ----------

  /** A counter under its key text. */
  datatype Counter = Counter(
    keytext: string,
    count: nat,
    variation: Option<Variation>,
    version: Option<FlagVersion>,
    value: Option<Json>,
    unknown: bool)

  datatype Feature = Feature(flag: string, fallback: Option<Json>, counters: seq<Counter>)

  function NumberField(name: string, n: Option<int>): seq<Field> {
    if n.None? then [] else [Field(name, Number(n.value as real))]
  }

  function SummaryObject(variation: Option<int>, version: Option<int>): Json {
    Object(NumberField("variation", variation) + NumberField("version", version))
  }

  /** LDi_makeSummaryKey. */
  function KeyText(variation: Option<Variation>, version: Option<FlagVersion>): string {
    SummaryObjectPrintable(variation, version);
    Print(SummaryObject(variation, version))
  }

  lemma {:induction false} SummaryObjectPrintable(variation: Option<Variation>, version: Option<FlagVersion>)
    ensures Printable(SummaryObject(variation, version))
    ensures JsonRoundTrip.Depth(SummaryObject(variation, version)) <= 2
  {
    var fields := NumberField("variation", variation) + NumberField("version", version);
    assert |fields| <= 2;
    assert forall i :: 0 <= i < |fields| ==> GoodNumber(fields[i]);
    NumberFieldsPrintable(fields);
  }

  predicate GoodNumber(field: Field) {
    field.value.Number? && Whole(field.value.n) && NulFree(field.key)
  }

  lemma {:induction false} NumberFieldsPrintable(fields: seq<Field>)
    requires forall i :: 0 <= i < |fields| ==> GoodNumber(fields[i])
    ensures FieldsPrintable(fields) && JsonRoundTrip.FieldsDepth(fields) == 0
  {
    if fields != [] {
      NumberFieldsPrintable(fields[1..]);
    }
  }

  lemma {:induction false} SummaryObjectInjective(v: Option<int>, w: Option<int>, v': Option<int>, w': Option<int>)
    requires SummaryObject(v, w) == SummaryObject(v', w')
    ensures v == v' && w == w'
  {
    Looked(v, w);
    Looked(v', w');
  }

  lemma {:induction false} Looked(v: Option<int>, w: Option<int>)
    ensures Lookup(SummaryObject(v, w), "variation") == if v.None? then None else Some(Number(v.value as real))
    ensures Lookup(SummaryObject(v, w), "version") == if w.None? then None else Some(Number(w.value as real))
  {
    assert "variation"[3] != "version"[3];
    var second := NumberField("version", w);
    FindFirst("variation", v, second, "variation");
    FindFirst("variation", v, second, "version");
    FindFirst("version", w, [], "variation");
    FindFirst("version", w, [], "version");
    assert second + [] == second;
  }

  lemma {:induction false} FindFirst(name: string, n: Option<int>, rest: seq<Field>, key: string)
    ensures Find(NumberField(name, n) + rest, key) ==
      if n.Some? && name == key then Some(Number(n.value as real)) else Find(rest, key)
  {
    if n.None? {
      assert NumberField(name, n) + rest == rest;
    } else {
      assert (NumberField(name, n) + rest)[1..] == rest;
    }
  }

  /** Counters of different variations or versions never share a key. */
  lemma {:induction false} KeyTextInjective(
    v: Option<Variation>, w: Option<FlagVersion>, v': Option<Variation>, w': Option<FlagVersion>)
    requires KeyText(v, w) == KeyText(v', w')
    ensures v == v' && w == w'
  {
    SummaryObjectPrintable(v, w);
    SummaryObjectPrintable(v', w');
    JsonRoundTrip.PrintInjective(SummaryObject(v, w), SummaryObject(v', w'));
    SummaryObjectInjective(v, w, v', w');
  }

  /** The counter of a first event. */
  function NewCounter(keytext: string, e: Request, unknown: bool): Counter {
    Counter(keytext, 1, e.variation, e.version, Present(e.value), unknown)
  }

  /** LDi_notNull: null counts as missing. */
  function Present(value: Option<Json>): Option<Json> {
    if value == Some(Null) then None else value
  }

  function Bump(counters: seq<Counter>, keytext: string, e: Request, unknown: bool): seq<Counter> {
    if counters == [] then [NewCounter(keytext, e, unknown)]
    else if counters[0].keytext == keytext then [counters[0].(count := counters[0].count + 1)] + counters[1..]
    else [counters[0]] + Bump(counters[1..], keytext, e, unknown)
  }

  /** LDi_summarizeEvent on the counters. */
  function Summarize(features: seq<Feature>, e: Request, unknown: bool): seq<Feature> {
    if features == [] then [Feature(e.flag, Present(e.fallback), Bump([], KeyText(e.variation, e.version), e, unknown))]
    else if features[0].flag == e.flag then
      [features[0].(counters := Bump(features[0].counters, KeyText(e.variation, e.version), e, unknown))]
        + features[1..]
    else [features[0]] + Summarize(features[1..], e, unknown)
  }

  // ---------- the queue ----------

  /** A counter as it is sent, without its key text. */
  datatype Line = Line(
    count: nat,
    variation: Option<Variation>,
    version: Option<FlagVersion>,
    value: Option<Json>,
    unknown: bool)

  datatype Report = Report(flag: string, fallback: Option<Json>, lines: seq<Line>)

  datatype Entry =
    | Index(user: string, at: real)
    | Full(request: Request)
    | Kindless(request: Request)        // what convertToDebug leaves when it fails: the event without its kind
    | Custom(user: string, key: string)
    | Identify(user: string)
    | Alias(user: string, previous: string)
    | Summary(start: real, end: real, reports: seq<Report>)

  datatype Config = Config(capacity: nat, userKeys: nat, flushInterval: real, inlineUsers: bool)

  datatype State = State(
    events: seq<Entry>,
    features: seq<Feature>,
    start: real,
    users: seq<string>,
    lastUserFlush: real,
    serverTime: real)

  /** LDi_addEvent. */
  function Add(config: Config, events: seq<Entry>, e: Entry): seq<Entry> {
    if |events| >= config.capacity then events else events + [e]
  }

  function AddIf(config: Config, events: seq<Entry>, want: bool, e: Entry): seq<Entry> {
    if want then Add(config, events, e) else events
  }

  /** The users remembered when an event arrives: none once the flush interval has passed. */
  function Remembered(config: Config, s: State, now: real): seq<string> {
    if now > s.lastUserFlush + config.flushInterval then [] else s.users
  }

  predicate MakesIndex(config: Config, s: State, user: string, now: real) {
    !config.inlineUsers && LruSpec.AnswerTo(Remembered(config, s, now), config.userKeys, user) == LruSpec.New
  }

  /** LDi_maybeMakeIndexEvent on the remembered users. */
  function Seen(config: Config, s: State, user: string, now: real): State {
    if config.inlineUsers then s
    else s.(users := LruSpec.Inserted(Remembered(config, s, now), config.userKeys, user),
            lastUserFlush := if now > s.lastUserFlush + config.flushInterval then now else s.lastUserFlush)
  }

  function SummarizeAll(features: seq<Feature>, es: seq<Request>): seq<Feature>
    decreases |es|
  {
    if es == [] then features else SummarizeAll(Summarize(features, es[0], false), es[1..])
  }

  /** The flag asks for debug copies, by the clock and by the server's. */
  predicate DebugDue(e: Request, now: real, serverTime: real) {
    e.until.Some? && now < e.until.value && serverTime < e.until.value
  }

  /** The debug copy is queued when its conversion fails, and freed when it succeeds. */
  predicate QueuesCopy(e: Request, now: real, serverTime: real) {
    DebugDue(e, now, serverTime) && !e.converts
  }

  /** LDi_possiblyQueueEvent. */
  function PossiblyQueued(config: Config, events: seq<Entry>, e: Request, now: real, serverTime: real): seq<Entry> {
    AddIf(config, AddIf(config, events, QueuesCopy(e, now, serverTime), Kindless(e)), e.track, Full(e))
  }

  function AddTracked(config: Config, events: seq<Entry>, es: seq<Request>, now: real, serverTime: real): seq<Entry>
    decreases |es|
  {
    if es == [] then events
    else AddTracked(config, PossiblyQueued(config, events, es[0], now, serverTime), es[1..], now, serverTime)
  }

  /** LDi_processEvaluation of a flag that exists (`known`) or not, with the events of its prerequisites. */
  function Evaluated(
    config: Config, s: State, user: string, e: Request, known: bool, subs: seq<Request>, now: real): State {
    var t := Seen(config, s, user, now);
    var queued := AddIf(config, s.events, MakesIndex(config, s, user, now), Index(user, now));
    t.(start := if s.start == 0.0 then now else s.start,
       features := SummarizeAll(Summarize(s.features, e, !known), subs),
       events := AddTracked(config, if known then PossiblyQueued(config, queued, e, now, s.serverTime) else queued,
         subs, now, s.serverTime))
  }

  /** LDi_track: the custom event goes first. */
  function Tracked(config: Config, s: State, user: string, key: string, now: real): State {
    Seen(config, s, user, now).(
      events := AddIf(config, Add(config, s.events, Custom(user, key)), MakesIndex(config, s, user, now),
        Index(user, now)))
  }

  /** LDi_objectToArray. */
  function Lines(counters: seq<Counter>): seq<Line> {
    if counters == [] then []
    else
      var c := counters[0];
      [Line(c.count, c.variation, c.version, c.value, c.unknown)] + Lines(counters[1..])
  }

  /** LDi_prepareSummaryEvent. */
  function Reports(features: seq<Feature>): seq<Report> {
    if features == [] then []
    else [Report(features[0].flag, features[0].fallback, Lines(features[0].counters))] + Reports(features[1..])
  }

  /** LDi_bundleEventPayload: the queue, and the counters as one summary at its end. */
  function Payload(s: State, now: real): Option<seq<Entry>> {
    if s.events == [] && s.features == [] then None
    else if s.features == [] then Some(s.events)
    else Some(s.events + [Summary(s.start, now, Reports(s.features))])
  }

  function Emptied(s: State): State {
    s.(events := [], features := [], start := if s.features == [] then s.start else 0.0)
  }

  // ---------- runs ----------

  datatype Op =
    | Evaluation(user: string, e: Request, known: bool, subs: seq<Request>, now: real)
    | Track(user: string, key: string, now: real)
    | Put(entry: Entry)                 // LDi_identify, LDi_alias
    | Bundle(now: real)
    | SetServerTime(serverTime: real)

  datatype Trace = Trace(state: State, payloads: seq<seq<Entry>>)

  predicate ValidOp(op: Op) {
    op.Put? ==> op.entry.Identify? || op.entry.Alias?
  }

  function Bundled(t: Trace, now: real): Trace {
    match Payload(t.state, now)
    case None => t
    case Some(p) => Trace(Emptied(t.state), t.payloads + [p])
  }

  function Next(config: Config, t: Trace, op: Op): Trace {
    match op
    case Evaluation(user, e, known, subs, now) => t.(state := Evaluated(config, t.state, user, e, known, subs, now))
    case Track(user, key, now) => t.(state := Tracked(config, t.state, user, key, now))
    case Put(entry) => t.(state := t.state.(events := Add(config, t.state.events, entry)))
    case Bundle(now) => Bundled(t, now)
    case SetServerTime(serverTime) => t.(state := t.state.(serverTime := serverTime))
  }

  function Initial(now: real): State {
    State([], [], 0.0, [], now, 0.0)
  }

  function Run(config: Config, start: real, ops: seq<Op>): Trace {
    if ops == [] then Trace(Initial(start), [])
    else Next(config, Run(config, start, ops[..|ops| - 1]), ops[|ops| - 1])
  }

  // ---------- conservation ----------

  /** How often the counters of one flag count the variation and version. */
  function Tally(counters: seq<Counter>, v: Option<Variation>, w: Option<FlagVersion>): nat {
    if counters == [] then 0
    else
      var here := if counters[0].variation == v && counters[0].version == w then counters[0].count else 0;
      here + Tally(counters[1..], v, w)
  }

  /** Pending counts. */
  function Pending(features: seq<Feature>, flag: string, v: Option<Variation>, w: Option<FlagVersion>): nat {
    if features == [] then 0
    else
      var here := if features[0].flag == flag then Tally(features[0].counters, v, w) else 0;
      here + Pending(features[1..], flag, v, w)
  }

  function LineTally(lines: seq<Line>, v: Option<Variation>, w: Option<FlagVersion>): nat {
    if lines == [] then 0
    else (if lines[0].variation == v && lines[0].version == w then lines[0].count else 0) + LineTally(lines[1..], v, w)
  }

  function ReportTally(reports: seq<Report>, flag: string, v: Option<Variation>, w: Option<FlagVersion>): nat {
    if reports == [] then 0
    else
      var here := if reports[0].flag == flag then LineTally(reports[0].lines, v, w) else 0;
      here + ReportTally(reports[1..], flag, v, w)
  }

  /** The counts in a payload's summaries. */
  function PayloadTally(p: seq<Entry>, flag: string, v: Option<Variation>, w: Option<FlagVersion>): nat {
    if p == [] then 0
    else (if p[0].Summary? then ReportTally(p[0].reports, flag, v, w) else 0) + PayloadTally(p[1..], flag, v, w)
  }

  /** The counts in all payloads. */
  function Emitted(ps: seq<seq<Entry>>, flag: string, v: Option<Variation>, w: Option<FlagVersion>): nat {
    if ps == [] then 0 else Emitted(ps[..|ps| - 1], flag, v, w) + PayloadTally(ps[|ps| - 1], flag, v, w)
  }

  function One(e: Request, flag: string, v: Option<Variation>, w: Option<FlagVersion>): nat {
    if e.flag == flag && e.variation == v && e.version == w then 1 else 0
  }

  function Many(es: seq<Request>, flag: string, v: Option<Variation>, w: Option<FlagVersion>): nat {
    if es == [] then 0 else One(es[0], flag, v, w) + Many(es[1..], flag, v, w)
  }

  /** The evaluations of a run, with those of their prerequisites. */
  function Happened(ops: seq<Op>, flag: string, v: Option<Variation>, w: Option<FlagVersion>): nat {
    if ops == [] then 0
    else
      var op := ops[|ops| - 1];
      var here := if op.Evaluation? then One(op.e, flag, v, w) + Many(op.subs, flag, v, w) else 0;
      Happened(ops[..|ops| - 1], flag, v, w) + here
  }

  /** Every counter is under its own key. */
  predicate Keyed(counters: seq<Counter>) {
    counters == [] || (counters[0].keytext == KeyText(counters[0].variation, counters[0].version)
      && Keyed(counters[1..]))
  }

  predicate AllKeyed(features: seq<Feature>) {
    features == [] || (Keyed(features[0].counters) && AllKeyed(features[1..]))
  }

  lemma {:induction false} BumpCounts(
    counters: seq<Counter>, e: Request, unknown: bool, v: Option<Variation>, w: Option<FlagVersion>)
    requires Keyed(counters)
    ensures var r := Bump(counters, KeyText(e.variation, e.version), e, unknown);
      Keyed(r) && Tally(r, v, w) == Tally(counters, v, w) + (if e.variation == v && e.version == w then 1 else 0)
  {
    var key := KeyText(e.variation, e.version);
    if counters == [] {
      assert Bump(counters, key, e, unknown)[1..] == [];
    } else {
      var c, rest := counters[0], counters[1..];
      if c.keytext == key {
        KeyTextInjective(c.variation, c.version, e.variation, e.version);
        assert ([c.(count := c.count + 1)] + rest)[1..] == rest;
      } else {
        BumpCounts(rest, e, unknown, v, w);
        assert ([c] + Bump(rest, key, e, unknown))[1..] == Bump(rest, key, e, unknown);
      }
    }
  }

  lemma {:induction false} FeatureCons(
    f: Feature, rest: seq<Feature>, flag: string, v: Option<Variation>, w: Option<FlagVersion>)
    ensures AllKeyed([f] + rest) <==> Keyed(f.counters) && AllKeyed(rest)
    ensures Pending([f] + rest, flag, v, w) == (if f.flag == flag then Tally(f.counters, v, w) else 0)
      + Pending(rest, flag, v, w)
  {
    assert ([f] + rest)[1..] == rest;
  }

  /** Summarising an event adds one to exactly its own count. */
  lemma {:induction false} SummarizeCounts(features: seq<Feature>, e: Request, unknown: bool,
                                           flag: string, v: Option<Variation>, w: Option<FlagVersion>)
    requires AllKeyed(features)
    ensures var r := Summarize(features, e, unknown);
      AllKeyed(r) && r != [] && Pending(r, flag, v, w) == Pending(features, flag, v, w) + One(e, flag, v, w)
  {
    var key := KeyText(e.variation, e.version);
    if features == [] {
      BumpCounts([], e, unknown, v, w);
      var first := Feature(e.flag, Present(e.fallback), Bump([], key, e, unknown));
      FeatureCons(first, [], flag, v, w);
      assert [first] + [] == [first];
    } else {
      var f, rest := features[0], features[1..];
      if f.flag == e.flag {
        BumpCounts(f.counters, e, unknown, v, w);
        FeatureCons(f.(counters := Bump(f.counters, key, e, unknown)), rest, flag, v, w);
      } else {
        SummarizeCounts(rest, e, unknown, flag, v, w);
        FeatureCons(f, Summarize(rest, e, unknown), flag, v, w);
      }
    }
  }

  lemma {:induction false} SummarizeAllCounts(features: seq<Feature>, es: seq<Request>,
                                              flag: string, v: Option<Variation>, w: Option<FlagVersion>)
    requires AllKeyed(features)
    ensures var r := SummarizeAll(features, es);
      AllKeyed(r) && Pending(r, flag, v, w) == Pending(features, flag, v, w) + Many(es, flag, v, w)
    decreases |es|
  {
    if es != [] {
      SummarizeCounts(features, es[0], false, flag, v, w);
      SummarizeAllCounts(Summarize(features, es[0], false), es[1..], flag, v, w);
    }
  }

  lemma {:induction false} LinesKeepCounts(counters: seq<Counter>, v: Option<Variation>, w: Option<FlagVersion>)
    ensures LineTally(Lines(counters), v, w) == Tally(counters, v, w)
  {
    if counters != [] {
      LinesKeepCounts(counters[1..], v, w);
      assert Lines(counters)[1..] == Lines(counters[1..]);
    }
  }

  /** The summary reports exactly the pending counts. */
  lemma {:induction false} ReportsKeepCounts(
    features: seq<Feature>, flag: string, v: Option<Variation>, w: Option<FlagVersion>)
    ensures ReportTally(Reports(features), flag, v, w) == Pending(features, flag, v, w)
  {
    if features != [] {
      LinesKeepCounts(features[0].counters, v, w);
      ReportsKeepCounts(features[1..], flag, v, w);
      assert Reports(features)[1..] == Reports(features[1..]);
    }
  }

  predicate NoSummary(es: seq<Entry>) {
    forall i :: 0 <= i < |es| ==> !es[i].Summary?
  }

  lemma {:induction false} PlainPayload(
    es: seq<Entry>, tail: seq<Entry>, flag: string, v: Option<Variation>, w: Option<FlagVersion>)
    requires NoSummary(es)
    ensures PayloadTally(es + tail, flag, v, w) == PayloadTally(tail, flag, v, w)
  {
    if es == [] {
      assert es + tail == tail;
    } else {
      PlainPayload(es[1..], tail, flag, v, w);
      assert (es + tail)[1..] == es[1..] + tail;
    }
  }

  lemma {:induction false} PayloadCounts(
    s: State, now: real, flag: string, v: Option<Variation>, w: Option<FlagVersion>)
    requires NoSummary(s.events) && Payload(s, now).Some?
    ensures PayloadTally(Payload(s, now).value, flag, v, w) == Pending(s.features, flag, v, w)
  {
    if s.features == [] {
      PlainPayload(s.events, [], flag, v, w);
      assert s.events + [] == s.events;
    } else {
      var summary := [Summary(s.start, now, Reports(s.features))];
      PlainPayload(s.events, summary, flag, v, w);
      ReportsKeepCounts(s.features, flag, v, w);
      assert summary[1..] == [];
    }
  }

  // ---------- bounds ----------

  /** What holds of every queue. */
  predicate GoodQueue(config: Config, es: seq<Entry>) {
    |es| <= config.capacity && NoSummary(es)
  }

  /** A payload: the queue, and at most one summary, at the end. */
  predicate GoodPayload(config: Config, p: seq<Entry>) {
    p != [] && |p| <= config.capacity + 1 && NoSummary(p[..|p| - 1])
      && (|p| == config.capacity + 1 ==> p[|p| - 1].Summary?)
  }

  lemma {:induction false} AddTrackedKeeps(
    config: Config, events: seq<Entry>, es: seq<Request>, now: real, serverTime: real)
    requires GoodQueue(config, events)
    ensures GoodQueue(config, AddTracked(config, events, es, now, serverTime))
    decreases |es|
  {
    if es != [] {
      AddTrackedKeeps(config, PossiblyQueued(config, events, es[0], now, serverTime), es[1..], now, serverTime);
    }
  }

  lemma {:induction false} EvaluatedKeepsQueue(
    config: Config, s: State, user: string, e: Request, known: bool, subs: seq<Request>, now: real)
    requires GoodQueue(config, s.events)
    ensures GoodQueue(config, Evaluated(config, s, user, e, known, subs, now).events)
  {
    var queued := AddIf(config, s.events, MakesIndex(config, s, user, now), Index(user, now));
    var own := if known then PossiblyQueued(config, queued, e, now, s.serverTime) else queued;
    AddTrackedKeeps(config, own, subs, now, s.serverTime);
  }

  predicate Inv(config: Config, t: Trace) {
    && GoodQueue(config, t.state.events)
    && AllKeyed(t.state.features)
    && forall i :: 0 <= i < |t.payloads| ==> GoodPayload(config, t.payloads[i])
  }

  lemma {:induction false} PayloadIsGood(config: Config, s: State, now: real)
    requires GoodQueue(config, s.events) && Payload(s, now).Some?
    ensures GoodPayload(config, Payload(s, now).value)
  {
  }

  lemma {:induction false} NextKeepsInv(config: Config, t: Trace, op: Op)
    requires Inv(config, t) && ValidOp(op)
    ensures Inv(config, Next(config, t, op))
  {
    match op {
      case Evaluation(user, e, known, subs, now) =>
        SummarizeCounts(t.state.features, e, !known, "", None, None);
        SummarizeAllCounts(Summarize(t.state.features, e, !known), subs, "", None, None);
        EvaluatedKeepsQueue(config, t.state, user, e, known, subs, now);
      case Bundle(now) =>
        if Payload(t.state, now).Some? { PayloadIsGood(config, t.state, now); }
      case _ =>
    }
  }

  predicate ValidOps(ops: seq<Op>) {
    forall i :: 0 <= i < |ops| ==> ValidOp(ops[i])
  }

  /** The queue stays within its capacity, and every payload is at most one longer, with at most one summary, last. */
  lemma {:induction false} QueueIsBounded(config: Config, start: real, ops: seq<Op>)
    requires ValidOps(ops)
    ensures Inv(config, Run(config, start, ops))
    decreases |ops|
  {
    if ops != [] {
      var past := ops[..|ops| - 1];
      QueueIsBounded(config, start, past);
      NextKeepsInv(config, Run(config, start, past), ops[|ops| - 1]);
    }
  }

  lemma {:induction false} NextKeepsCounts(
    config: Config, t: Trace, op: Op, flag: string, v: Option<Variation>, w: Option<FlagVersion>)
    requires Inv(config, t) && ValidOp(op)
    ensures var u := Next(config, t, op);
      Emitted(u.payloads, flag, v, w) + Pending(u.state.features, flag, v, w) ==
      Emitted(t.payloads, flag, v, w) + Pending(t.state.features, flag, v, w)
        + if op.Evaluation? then One(op.e, flag, v, w) + Many(op.subs, flag, v, w) else 0
  {
    match op {
      case Evaluation(user, e, known, subs, now) =>
        SummarizeCounts(t.state.features, e, !known, flag, v, w);
        SummarizeAllCounts(Summarize(t.state.features, e, !known), subs, flag, v, w);
      case Bundle(now) =>
        var p := Payload(t.state, now);
        if p.Some? {
          PayloadCounts(t.state, now, flag, v, w);
          assert (t.payloads + [p.value])[..|t.payloads|] == t.payloads;
        }
      case _ =>
    }
  }

  /** Over any run, what the summaries report and what is pending is what was evaluated, for each flag,
      variation and version. */
  lemma {:induction false} SummaryConservation(config: Config, start: real, ops: seq<Op>,
                                               flag: string, v: Option<Variation>, w: Option<FlagVersion>)
    requires ValidOps(ops)
    ensures var t := Run(config, start, ops);
      Emitted(t.payloads, flag, v, w) + Pending(t.state.features, flag, v, w) == Happened(ops, flag, v, w)
    decreases |ops|
  {
    if ops != [] {
      var past := ops[..|ops| - 1];
      SummaryConservation(config, start, past, flag, v, w);
      QueueIsBounded(config, start, past);
      NextKeepsCounts(config, Run(config, start, past), ops[|ops| - 1], flag, v, w);
    }
  }

  // ---------- every queued event is sent once, in order ----------

  function OneIf(want: bool, e: Entry): seq<Entry> {
    if want then [e] else []
  }

  /** What one feature event offers. */
  function OfferOf(e: Request, now: real, serverTime: real): seq<Entry> {
    OneIf(QueuesCopy(e, now, serverTime), Kindless(e)) + OneIf(e.track, Full(e))
  }

  function TrackedOf(es: seq<Request>, now: real, serverTime: real): seq<Entry> {
    if es == [] then [] else OfferOf(es[0], now, serverTime) + TrackedOf(es[1..], now, serverTime)
  }

  /** What an operation offers to the queue, in order. */
  function Offered(config: Config, s: State, op: Op): seq<Entry> {
    match op
    case Evaluation(user, e, known, subs, now) =>
      var own := if known then OfferOf(e, now, s.serverTime) else [];
      OneIf(MakesIndex(config, s, user, now), Index(user, now)) + (own + TrackedOf(subs, now, s.serverTime))
    case Track(user, key, now) => [Custom(user, key)] + OneIf(MakesIndex(config, s, user, now), Index(user, now))
    case Put(entry) => [entry]
    case Bundle(_) => []
    case SetServerTime(_) => []
  }

  /** The queue filled up to its capacity; the rest is dropped. */
  function Fill(config: Config, events: seq<Entry>, es: seq<Entry>): seq<Entry>
    requires |events| <= config.capacity
  {
    var room := config.capacity - |events|;
    events + if |es| <= room then es else es[..room]
  }

  lemma {:induction false} FillTwice(config: Config, events: seq<Entry>, a: seq<Entry>, b: seq<Entry>)
    requires |events| <= config.capacity
    ensures Fill(config, Fill(config, events, a), b) == Fill(config, events, a + b)
  {
  }

  lemma {:induction false} AddIfFills(config: Config, events: seq<Entry>, want: bool, e: Entry)
    requires |events| <= config.capacity
    ensures AddIf(config, events, want, e) == Fill(config, events, OneIf(want, e))
  {
  }

  lemma {:induction false} PossiblyQueuedFills(
    config: Config, events: seq<Entry>, e: Request, now: real, serverTime: real)
    requires |events| <= config.capacity
    ensures PossiblyQueued(config, events, e, now, serverTime) == Fill(config, events, OfferOf(e, now, serverTime))
  {
    var copy := OneIf(QueuesCopy(e, now, serverTime), Kindless(e));
    AddIfFills(config, events, QueuesCopy(e, now, serverTime), Kindless(e));
    AddIfFills(config, Fill(config, events, copy), e.track, Full(e));
    FillTwice(config, events, copy, OneIf(e.track, Full(e)));
  }

  lemma {:induction false} AddTrackedFills(
    config: Config, events: seq<Entry>, es: seq<Request>, now: real, serverTime: real)
    requires |events| <= config.capacity
    ensures AddTracked(config, events, es, now, serverTime) == Fill(config, events, TrackedOf(es, now, serverTime))
    decreases |es|
  {
    if es != [] {
      var first := OfferOf(es[0], now, serverTime);
      PossiblyQueuedFills(config, events, es[0], now, serverTime);
      AddTrackedFills(config, Fill(config, events, first), es[1..], now, serverTime);
      FillTwice(config, events, first, TrackedOf(es[1..], now, serverTime));
    }
  }

  lemma {:induction false} EvaluatedFills(
    config: Config, s: State, user: string, e: Request, known: bool, subs: seq<Request>, now: real)
    requires |s.events| <= config.capacity
    ensures Evaluated(config, s, user, e, known, subs, now).events
      == Fill(config, s.events, Offered(config, s, Evaluation(user, e, known, subs, now)))
  {
    var made, server := MakesIndex(config, s, user, now), s.serverTime;
    var index, own := OneIf(made, Index(user, now)), if known then OfferOf(e, now, server) else [];
    AddIfFills(config, s.events, made, Index(user, now));
    var queued := Fill(config, s.events, index);
    PossiblyQueuedFills(config, queued, e, now, server);
    EmptyEnds(queued);
    AddTrackedFills(config, Fill(config, queued, own), subs, now, server);
    FillTwice(config, queued, own, TrackedOf(subs, now, server));
    FillTwice(config, s.events, index, own + TrackedOf(subs, now, server));
  }

  function WithoutSummary(p: seq<Entry>): seq<Entry> {
    if p != [] && p[|p| - 1].Summary? then p[..|p| - 1] else p
  }

  /** The events sent so far, payload by payload. */
  function Sent(ps: seq<seq<Entry>>): seq<Entry> {
    if ps == [] then [] else Sent(ps[..|ps| - 1]) + WithoutSummary(ps[|ps| - 1])
  }

  /** Every operation but a bundle fills the queue with what it offers; a bundle moves the queue out, whole and
      in order. */
  lemma {:induction false} EventsAreKept(config: Config, t: Trace, op: Op)
    requires Inv(config, t)
    ensures var u := Next(config, t, op);
      && (!op.Bundle? ==> u.payloads == t.payloads)
      && (!op.Bundle? ==> u.state.events == Fill(config, t.state.events, Offered(config, t.state, op)))
      && (op.Bundle? ==> u.state.events == [] && Sent(u.payloads) == Sent(t.payloads) + t.state.events)
  {
    match op {
      case Evaluation(user, e, known, subs, now) =>
        EvaluatedFills(config, t.state, user, e, known, subs, now);
      case Track(user, key, now) =>
        AddIfFills(config, t.state.events, true, Custom(user, key));
        var first := Fill(config, t.state.events, [Custom(user, key)]);
        AddIfFills(config, first, MakesIndex(config, t.state, user, now), Index(user, now));
        FillTwice(config, t.state.events, [Custom(user, key)],
          OneIf(MakesIndex(config, t.state, user, now), Index(user, now)));
      case Put(entry) => AddIfFills(config, t.state.events, true, entry);
      case Bundle(now) => BundleSends(t, now);
      case SetServerTime(_) => EmptyEnds(t.state.events);
    }
  }

  lemma {:induction false} BundleSends(t: Trace, now: real)
    requires NoSummary(t.state.events)
    ensures Bundled(t, now).state.events == [] && Sent(Bundled(t, now).payloads) == Sent(t.payloads) + t.state.events
  {
  }

  /** What an operation really adds to the queue. */
  function Added(config: Config, s: State, op: Op): seq<Entry> {
    var offered := Offered(config, s, op);
    var room := if |s.events| < config.capacity then config.capacity - |s.events| else 0;
    if |offered| <= room then offered else offered[..room]
  }

  /** Everything a run added to the queue, in order. */
  function Accepted(config: Config, start: real, ops: seq<Op>): seq<Entry> {
    if ops == [] then []
    else
      var past := ops[..|ops| - 1];
      Accepted(config, start, past) + Added(config, Run(config, start, past).state, ops[|ops| - 1])
  }

  lemma {:induction false} NextKeepsQueued(config: Config, t: Trace, op: Op)
    requires Inv(config, t)
    ensures var u := Next(config, t, op);
      Sent(u.payloads) + u.state.events == (Sent(t.payloads) + t.state.events) + Added(config, t.state, op)
  {
    EventsAreKept(config, t, op);
    var added := Added(config, t.state, op);
    if op.Bundle? {
      EmptyEnds(Sent(t.payloads) + t.state.events);
    } else {
      Regroup(Sent(t.payloads), t.state.events, added);
    }
  }

  /** Over any run: what was sent, payload by payload, and then the queue, is everything accepted, once and in order. */
  lemma {:induction false} QueuedEventsAreKept(config: Config, start: real, ops: seq<Op>)
    requires ValidOps(ops)
    ensures Sent(Run(config, start, ops).payloads) + Run(config, start, ops).state.events
      == Accepted(config, start, ops)
    decreases |ops|
  {
    if ops != [] {
      var past := ops[..|ops| - 1];
      QueuedEventsAreKept(config, start, past);
      QueueIsBounded(config, start, past);
      NextKeepsQueued(config, Run(config, start, past), ops[|ops| - 1]);
    }
  }

  // ---------- debug copies ----------

  /** A copy is offered exactly when one is due and its conversion fails. */
  lemma {:induction false} CopyOfferedIff(es: seq<Request>, now: real, serverTime: real, r: Request)
    ensures Kindless(r) in TrackedOf(es, now, serverTime) <==> r in es && QueuesCopy(r, now, serverTime)
  {
    if es != [] {
      CopyOfferedIff(es[1..], now, serverTime, r);
    }
  }

  /** An evaluation offers a copy of an event of its own exactly when one is due and its conversion fails. */
  lemma {:induction false} DebugCopyIff(
    config: Config, s: State, user: string, e: Request, known: bool, subs: seq<Request>, now: real, r: Request)
    ensures Kindless(r) in Offered(config, s, Evaluation(user, e, known, subs, now)) <==>
      ((known && r == e) || r in subs) && DebugDue(r, now, s.serverTime) && !r.converts
  {
    CopyOfferedIff(subs, now, s.serverTime, r);
  }

  /** The operation is no evaluation in which some conversion fails. */
  predicate Converts(op: Op) {
    op.Evaluation? ==> op.e.converts && forall i :: 0 <= i < |op.subs| ==> op.subs[i].converts
  }

  lemma {:induction false} NoCopyAdded(config: Config, s: State, op: Op, r: Request)
    requires ValidOp(op) && Converts(op)
    ensures Kindless(r) !in Added(config, s, op)
  {
    if op.Evaluation? {
      DebugCopyIff(config, s, op.user, op.e, op.known, op.subs, op.now, r);
    }
    assert Kindless(r) !in Offered(config, s, op);
  }

  /** While conversions succeed no debug copy is ever queued or sent, whatever dates the flags carry. */
  lemma {:induction false} DebugCopiesAreDropped(config: Config, start: real, ops: seq<Op>, r: Request)
    requires ValidOps(ops) && forall i :: 0 <= i < |ops| ==> Converts(ops[i])
    ensures var t := Run(config, start, ops);
      Kindless(r) !in Sent(t.payloads) + t.state.events && Kindless(r) !in Accepted(config, start, ops)
    decreases |ops|
  {
    QueuedEventsAreKept(config, start, ops);
    if ops != [] {
      var past := ops[..|ops| - 1];
      DebugCopiesAreDropped(config, start, past, r);
      NoCopyAdded(config, Run(config, start, past).state, ops[|ops| - 1], r);
    }
  }
}
