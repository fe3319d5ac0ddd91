/** What a summary event says, in terms of the evaluations since the last payload: which flags and counters it lists,
    how often each was counted, the value and default of the first one, and the times it spans. */
module EventSummary {
  import opened Basics
  import opened EventSpec
  import opened JsonValue

  /** An evaluation to summarise, and whether its flag is unknown. */
  datatype Hit = Hit(request: Request, unknown: bool)

  function KnownHits(es: seq<Request>): seq<Hit> {
    if es == [] then [] else KnownHits(es[..|es| - 1]) + [Hit(es[|es| - 1], false)]
  }

  /** The evaluations since the last payload was taken, in order, each before those of its prerequisites. */
  function Since(ops: seq<Op>): seq<Hit> {
    if ops == [] then []
    else
      var past, op := Since(ops[..|ops| - 1]), ops[|ops| - 1];
      match op
      case Evaluation(_, e, known, subs, _) => (past + [Hit(e, !known)]) + KnownHits(subs)
      case Bundle(_) => []
      case _ => past
  }

  /** The time of the first of them; a time of zero counts as none. */
  function FirstTime(ops: seq<Op>): real {
    if ops == [] then 0.0
    else
      var past, op := FirstTime(ops[..|ops| - 1]), ops[|ops| - 1];
      match op
      case Evaluation(_, _, _, _, now) => if past == 0.0 then now else past
      case Bundle(_) => 0.0
      case _ => past
  }

  function OfFlag(hits: seq<Hit>, flag: string): seq<Hit> {
    if hits == [] then []
    else
      var last := hits[|hits| - 1];
      OfFlag(hits[..|hits| - 1], flag) + if last.request.flag == flag then [last] else []
  }

  /** Those that yielded this variation of this version. */
  function OfCounter(hits: seq<Hit>, v: Option<Variation>, w: Option<FlagVersion>): seq<Hit> {
    if hits == [] then []
    else
      var last := hits[|hits| - 1];
      OfCounter(hits[..|hits| - 1], v, w)
        + if last.request.variation == v && last.request.version == w then [last] else []
  }

  /** A value or default as a summary shows it: null is left out. */
  function Shown(value: Option<Json>): Option<Json> {
    match value
    case None => None
    case Some(json) => if json.Null? then None else Some(json)
  }

  // ---------- what the counters hold ----------

  function FindFeature(features: seq<Feature>, flag: string): Option<Feature> {
    if features == [] then None
    else if features[0].flag == flag then Some(features[0])
    else FindFeature(features[1..], flag)
  }

  function FindCounter(counters: seq<Counter>, v: Option<Variation>, w: Option<FlagVersion>): Option<Counter> {
    if counters == [] then None
    else if counters[0].variation == v && counters[0].version == w then Some(counters[0])
    else FindCounter(counters[1..], v, w)
  }

  /** The counter of a variation and version says what these evaluations of a flag do. */
  predicate Tells(counters: seq<Counter>, hits: seq<Hit>, v: Option<Variation>, w: Option<FlagVersion>) {
    var mine := OfCounter(hits, v, w);
    match FindCounter(counters, v, w)
    case None => mine == []
    case Some(c) =>
      && mine != [] && c.count == |mine| && c.value == Shown(mine[0].request.value) && c.unknown == mine[0].unknown
      && c.variation == v && c.version == w
  }

  predicate TellsFlag(
    features: seq<Feature>, hits: seq<Hit>, flag: string, v: Option<Variation>, w: Option<FlagVersion>) {
    var mine := OfFlag(hits, flag);
    match FindFeature(features, flag)
    case None => mine == []
    case Some(f) =>
      && mine != [] && f.flag == flag && f.fallback == Shown(mine[0].request.fallback)
      && Keyed(f.counters) && Tells(f.counters, mine, v, w)
  }

  lemma {:induction false} OneMoreOfFlag(hits: seq<Hit>, h: Hit, flag: string)
    ensures OfFlag(hits + [h], flag) == OfFlag(hits, flag) + if h.request.flag == flag then [h] else []
  {
    assert (hits + [h])[..|hits|] == hits;
  }

  lemma {:induction false} OneMoreOfCounter(hits: seq<Hit>, h: Hit, v: Option<Variation>, w: Option<FlagVersion>)
    ensures OfCounter(hits + [h], v, w) ==
      OfCounter(hits, v, w) + if h.request.variation == v && h.request.version == w then [h] else []
  {
    assert (hits + [h])[..|hits|] == hits;
  }

  lemma {:induction false} FindInTail(c: Counter, rest: seq<Counter>, v: Option<Variation>, w: Option<FlagVersion>)
    ensures FindCounter([c] + rest, v, w) ==
      if c.variation == v && c.version == w then Some(c) else FindCounter(rest, v, w)
  {
    TailOfCons(c, rest);
  }

  /** Counting an event under its key changes the counter of its own variation and version and no other. */
  predicate CountsOne(counters: seq<Counter>, key: string, e: Request, unknown: bool,
                      v: Option<Variation>, w: Option<FlagVersion>) {
    var found := FindCounter(counters, v, w);
    FindCounter(Bump(counters, key, e, unknown), v, w) ==
      if e.variation != v || e.version != w then found
      else if found.None? then Some(Counter(key, 1, v, w, Shown(e.value), unknown))
      else Some(found.value.(count := found.value.count + 1))
  }

  lemma {:induction false} CountsAtHead(c: Counter, rest: seq<Counter>, key: string, e: Request, unknown: bool,
                                        v: Option<Variation>, w: Option<FlagVersion>)
    requires c.keytext == key <==> c.variation == e.variation && c.version == e.version
    requires c.keytext == key || CountsOne(rest, key, e, unknown, v, w)
    ensures CountsOne([c] + rest, key, e, unknown, v, w)
  {
    TailOfCons(c, rest);
    FindInTail(c, rest, v, w);
    if c.keytext == key {
      FindInTail(c.(count := c.count + 1), rest, v, w);
    } else {
      FindInTail(c, Bump(rest, key, e, unknown), v, w);
    }
  }

  lemma {:induction false} BumpFinds(
    counters: seq<Counter>, e: Request, unknown: bool, v: Option<Variation>, w: Option<FlagVersion>)
    requires Keyed(counters)
    ensures CountsOne(counters, KeyText(e.variation, e.version), e, unknown, v, w)
  {
    var key := KeyText(e.variation, e.version);
    if counters == [] {
      FindInTail(NewCounter(key, e, unknown), [], v, w);
      EmptyEnds([NewCounter(key, e, unknown)]);
    } else {
      var c, rest := counters[0], counters[1..];
      if c.keytext == key {
        KeyTextInjective(c.variation, c.version, e.variation, e.version);
      } else {
        BumpFinds(rest, e, unknown, v, w);
      }
      HeadAndTail(counters);
      CountsAtHead(c, rest, key, e, unknown, v, w);
    }
  }

  lemma {:induction false} BumpTells(
    counters: seq<Counter>, hits: seq<Hit>, h: Hit, v: Option<Variation>, w: Option<FlagVersion>)
    requires Keyed(counters) && Tells(counters, hits, v, w)
    ensures var e := h.request;
      var r := Bump(counters, KeyText(e.variation, e.version), e, h.unknown);
      Keyed(r) && Tells(r, hits + [h], v, w)
  {
    BumpCounts(counters, h.request, h.unknown, v, w);
    BumpFinds(counters, h.request, h.unknown, v, w);
    OneMoreOfCounter(hits, h, v, w);
  }

  lemma {:induction false} SummarizeFinds(features: seq<Feature>, e: Request, unknown: bool, flag: string)
    ensures var found, key := FindFeature(features, flag), KeyText(e.variation, e.version);
      FindFeature(Summarize(features, e, unknown), flag) ==
        if e.flag != flag then found
        else if found.None? then Some(Feature(flag, Shown(e.fallback), Bump([], key, e, unknown)))
        else Some(found.value.(counters := Bump(found.value.counters, key, e, unknown)))
  {
    if features != [] && features[0].flag != e.flag {
      SummarizeFinds(features[1..], e, unknown, flag);
      TailOfCons(features[0], Summarize(features[1..], e, unknown));
    }
  }

  lemma {:induction false} SummarizeTells(
    features: seq<Feature>, hits: seq<Hit>, h: Hit, flag: string, v: Option<Variation>, w: Option<FlagVersion>)
    requires TellsFlag(features, hits, flag, v, w)
    ensures TellsFlag(Summarize(features, h.request, h.unknown), hits + [h], flag, v, w)
  {
    SummarizeFinds(features, h.request, h.unknown, flag);
    OneMoreOfFlag(hits, h, flag);
    if h.request.flag == flag {
      var found := FindFeature(features, flag);
      BumpTells(if found.None? then [] else found.value.counters, OfFlag(hits, flag), h, v, w);
    } else {
      EmptyEnds(OfFlag(hits, flag));
    }
  }

  lemma {:induction false} SummarizeAllSnoc(features: seq<Feature>, es: seq<Request>, e: Request)
    ensures SummarizeAll(features, es + [e]) == Summarize(SummarizeAll(features, es), e, false)
    decreases |es|
  {
    if es == [] {
      EmptyEnds([e]);
    } else {
      SummarizeAllSnoc(Summarize(features, es[0], false), es[1..], e);
      assert (es + [e])[1..] == es[1..] + [e];
    }
  }

  lemma {:induction false} SummarizeAllTells(features: seq<Feature>, hits: seq<Hit>, es: seq<Request>,
                                             flag: string, v: Option<Variation>, w: Option<FlagVersion>)
    requires TellsFlag(features, hits, flag, v, w)
    ensures TellsFlag(SummarizeAll(features, es), hits + KnownHits(es), flag, v, w)
    decreases |es|
  {
    if es == [] {
      EmptyEnds(hits);
    } else {
      var past, last := es[..|es| - 1], es[|es| - 1];
      SummarizeAllTells(features, hits, past, flag, v, w);
      SummarizeAllSnoc(features, past, last);
      SummarizeTells(SummarizeAll(features, past), hits + KnownHits(past), Hit(last, false), flag, v, w);
      OneMoreKnown(hits, es);
    }
  }

  lemma {:induction false} OneMoreKnown(hits: seq<Hit>, es: seq<Request>)
    requires es != []
    ensures var past, last := es[..|es| - 1], es[|es| - 1];
      past + [last] == es && hits + KnownHits(es) == (hits + KnownHits(past)) + [Hit(last, false)]
  {
    Regroup(hits, KnownHits(es[..|es| - 1]), [Hit(es[|es| - 1], false)]);
  }

  // ---------- over runs ----------

  lemma {:induction false} NothingSince(ops: seq<Op>)
    ensures Since(ops) == [] ==> FirstTime(ops) == 0.0
  {
    if ops != [] {
      NothingSince(ops[..|ops| - 1]);
    }
  }

  /** Pending counters and their start time, for every flag, variation and version. */
  ghost predicate TellsRun(
    s: State, ops: seq<Op>, flag: string, v: Option<Variation>, w: Option<FlagVersion>) {
    && s.start == FirstTime(ops) && (s.features == [] <==> Since(ops) == [])
    && TellsFlag(s.features, Since(ops), flag, v, w)
  }

  lemma {:induction false} EvaluationTells(
    config: Config, s: State, past: seq<Op>, op: Op, flag: string, v: Option<Variation>, w: Option<FlagVersion>)
    requires TellsRun(s, past, flag, v, w) && op.Evaluation?
    ensures TellsRun(Evaluated(config, s, op.user, op.e, op.known, op.subs, op.now), past + [op], flag, v, w)
  {
    assert (past + [op])[..|past|] == past;
    var h := Hit(op.e, !op.known);
    var first := Summarize(s.features, op.e, !op.known);
    SummarizeTells(s.features, Since(past), h, flag, v, w);
    SummarizeAllTells(first, Since(past) + [h], op.subs, flag, v, w);
    StaysListed(first, op.subs);
  }

  lemma {:induction false} StaysListed(features: seq<Feature>, es: seq<Request>)
    requires features != []
    ensures SummarizeAll(features, es) != []
    decreases |es|
  {
    if es != [] {
      StaysListed(Summarize(features, es[0], false), es[1..]);
    }
  }

  /** Over any run the pending counters say what the evaluations since the last payload do. */
  lemma {:induction false} PendingTells(
    config: Config, start: real, ops: seq<Op>, flag: string, v: Option<Variation>, w: Option<FlagVersion>)
    ensures TellsRun(Run(config, start, ops).state, ops, flag, v, w)
    decreases |ops|
  {
    if ops != [] {
      var past, op := ops[..|ops| - 1], ops[|ops| - 1];
      PendingTells(config, start, past, flag, v, w);
      assert past + [op] == ops;
      if op.Evaluation? {
        EvaluationTells(config, Run(config, start, past).state, past, op, flag, v, w);
      } else {
        NothingSince(past);
      }
    }
  }

  // ---------- the summary event ----------

  function FindReport(reports: seq<Report>, flag: string): Option<Report> {
    if reports == [] then None
    else if reports[0].flag == flag then Some(reports[0])
    else FindReport(reports[1..], flag)
  }

  function FindLine(lines: seq<Line>, v: Option<Variation>, w: Option<FlagVersion>): Option<Line> {
    if lines == [] then None
    else if lines[0].variation == v && lines[0].version == w then Some(lines[0])
    else FindLine(lines[1..], v, w)
  }

  lemma {:induction false} LineOfCounter(counters: seq<Counter>, v: Option<Variation>, w: Option<FlagVersion>)
    ensures FindLine(Lines(counters), v, w) ==
      match FindCounter(counters, v, w) {
        case None => None
        case Some(c) => Some(Line(c.count, c.variation, c.version, c.value, c.unknown)) }
  {
    if counters != [] {
      LineOfCounter(counters[1..], v, w);
      assert Lines(counters)[1..] == Lines(counters[1..]);
    }
  }

  lemma {:induction false} ReportOfFeature(features: seq<Feature>, flag: string)
    ensures FindReport(Reports(features), flag) ==
      match FindFeature(features, flag) {
        case None => None
        case Some(f) => Some(Report(f.flag, f.fallback, Lines(f.counters))) }
  {
    if features != [] {
      ReportOfFeature(features[1..], flag);
      assert Reports(features)[1..] == Reports(features[1..]);
    }
  }

  /** What the reports of a summary say about a flag, variation and version. */
  ghost predicate Reported(
    reports: seq<Report>, hits: seq<Hit>, flag: string, v: Option<Variation>, w: Option<FlagVersion>) {
    var report, mine := FindReport(reports, flag), OfFlag(hits, flag);
    && (report.Some? <==> mine != [])
    && (report.Some? ==>
         && report.value.flag == flag && report.value.fallback == Shown(mine[0].request.fallback)
         && var line, counted := FindLine(report.value.lines, v, w), OfCounter(mine, v, w);
            && (line.Some? <==> counted != [])
            && (line.Some? ==>
                 line.value == Line(|counted|, v, w, Shown(counted[0].request.value), counted[0].unknown)))
  }

  /** After any run, a payload ends with a summary exactly when something was evaluated since the last one. The
      summary spans the time of the first of these evaluations and now, lists exactly their flags and counters, with
      their number, and with value and default of the first. */
  lemma {:induction false} SummaryMeans(config: Config, start: real, ops: seq<Op>, now: real,
                                        flag: string, v: Option<Variation>, w: Option<FlagVersion>)
    returns (reports: seq<Report>)
    ensures var s := Run(config, start, ops).state;
      Payload(s, now) ==
        if Since(ops) != [] then Some(s.events + [Summary(FirstTime(ops), now, reports)])
        else if s.events != [] then Some(s.events) else None
    ensures Reported(reports, Since(ops), flag, v, w)
  {
    PendingTells(config, start, ops, flag, v, w);
    var features := Run(config, start, ops).state.features;
    reports := Reports(features);
    ReportOfFeature(features, flag);
    if FindFeature(features, flag).Some? {
      LineOfCounter(FindFeature(features, flag).value.counters, v, w);
    }
  }
}
