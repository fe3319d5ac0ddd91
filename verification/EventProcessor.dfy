/** struct EventProcessor of src/event_processor.c; every method is one critical section of its lock. */
module EventProcessor {
  import opened Basics
  import opened EventSpec
  import Lru
  import LruSpec

  class Processor {
    const config: Config
    var events: seq<Entry>
    var summaryCounters: seq<Feature>
    var summaryStart: real
    const userKeys: Lru.Set<string>
    var lastUserKeyFlush: real
    var lastServerTime: real
    /** Every payload handed out. */
    ghost var payloads: seq<seq<Entry>>

    ghost predicate Valid()
      reads userKeys, userKeys.Repr
    {
      userKeys.Valid() && userKeys.capacity == config.userKeys
    }

    ghost function Value(): State
      reads this, userKeys
    {
      State(events, summaryCounters, summaryStart, userKeys.Contents, lastUserKeyFlush, lastServerTime)
    }

    ghost function History(): Trace
      reads this, userKeys
    {
      Trace(Value(), payloads)
    }

    /** LDi_newEventProcessor. */
    constructor (config: Config, now: real)
      ensures Valid() && fresh(userKeys) && fresh(userKeys.Repr)
      ensures this.config == config && History() == Run(config, now, [])
    {
      this.config := config;
      events, summaryCounters, summaryStart := [], [], 0.0;
      userKeys := new Lru.Set(config.userKeys);
      lastUserKeyFlush, lastServerTime, payloads := now, 0.0, [];
    }

    /** LDi_addEvent. */
    method AddEvent(e: Entry)
      modifies this`events
      ensures events == Add(config, old(events), e)
    {
      if |events| < config.capacity {
        events := events + [e];
      }
    }

    /** LDi_identify and LDi_alias. */
    method PutEvent(e: Entry)
      modifies this`events
      ensures History() == Next(config, old(History()), Put(e))
    {
      AddEvent(e);
    }

    /** LDi_maybeMakeIndexEvent. */
    method MaybeMakeIndexEvent(user: string, now: real) returns (index: Option<Entry>)
      requires Valid()
      modifies this`lastUserKeyFlush, userKeys, userKeys.Repr
      ensures Valid() && fresh(userKeys.Repr - old(userKeys.Repr))
      ensures Value() == Seen(config, old(Value()), user, now)
      ensures index == if MakesIndex(config, old(Value()), user, now) then Some(Index(user, now)) else None
    {
      if config.inlineUsers {
        return None;
      }
      if now > lastUserKeyFlush + config.flushInterval {
        userKeys.Clear();
        lastUserKeyFlush := now;
      }
      var answer := userKeys.Insert(user);
      index := if answer == LruSpec.Existed then None else Some(Index(user, now));
    }

    /** LDObjectLookup on the counters of a flag. */
    method FindCounter(counters: seq<Counter>, keytext: string) returns (i: nat)
      ensures i <= |counters| && (i < |counters| ==> counters[i].keytext == keytext)
      ensures forall k :: 0 <= k < i ==> counters[k].keytext != keytext
    {
      i := 0;
      while i < |counters| && counters[i].keytext != keytext
        invariant i <= |counters|
        invariant forall k :: 0 <= k < i ==> counters[k].keytext != keytext
      {
        i := i + 1;
      }
    }

    method FindFeature(flag: string) returns (i: nat)
      ensures i <= |summaryCounters| && (i < |summaryCounters| ==> summaryCounters[i].flag == flag)
      ensures forall k :: 0 <= k < i ==> summaryCounters[k].flag != flag
    {
      i := 0;
      while i < |summaryCounters| && summaryCounters[i].flag != flag
        invariant i <= |summaryCounters|
        invariant forall k :: 0 <= k < i ==> summaryCounters[k].flag != flag
      {
        i := i + 1;
      }
    }

    /** LDi_summarizeEvent: look the flag up, add it if it is new, then count the event. */
    method SummarizeEvent(e: Request, unknown: bool, now: real)
      modifies this`summaryCounters, this`summaryStart
      ensures summaryCounters == Summarize(old(summaryCounters), e, unknown)
      ensures summaryStart == if old(summaryStart) == 0.0 then now else old(summaryStart)
    {
      var keytext := KeyText(e.variation, e.version);
      if summaryStart == 0.0 {
        summaryStart := now;
      }
      var f := FindFeature(e.flag);
      SummarizeAt(summaryCounters, e, unknown, f);
      if f == |summaryCounters| {
        summaryCounters := summaryCounters + [Feature(e.flag, Present(e.fallback), [])];
      }
      var counters := summaryCounters[f].counters;
      var c := FindCounter(counters, keytext);
      BumpAt(counters, keytext, e, unknown, c);
      if c == |counters| {
        counters := counters + [NewCounter(keytext, e, unknown)];
      } else {
        counters := counters[c := counters[c].(count := counters[c].count + 1)];
      }
      summaryCounters := summaryCounters[f := summaryCounters[f].(counters := counters)];
    }

    /** LDi_setServerTime. */
    method SetServerTime(serverTime: real)
      modifies this`lastServerTime
      ensures History() == Next(config, old(History()), EventSpec.SetServerTime(serverTime))
    {
      lastServerTime := serverTime;
    }

    /** convertToDebug on a copy: the event without its kind if the new kind cannot be set. */
    method ConvertToDebug(e: Request) returns (ok: bool, copy: Entry)
      ensures ok == e.converts && (!ok ==> copy == Kindless(e))
    {
      ok, copy := e.converts, Kindless(e);
    }

    /** LDi_possiblyQueueEvent. A copy that was converted is freed. */
    method PossiblyQueueEvent(e: Request, now: real)
      modifies this`events
      ensures events == PossiblyQueued(config, old(events), e, now, lastServerTime)
    {
      if e.until.Some? && now < e.until.value && lastServerTime < e.until.value {
        var converted, copy := ConvertToDebug(e);
        if !converted {
          AddEvent(copy);
        }
      }
      if e.track {
        AddEvent(Full(e));
      }
    }

    method SummarizeEvents(es: seq<Request>, now: real)
      requires summaryStart != 0.0 || now == 0.0
      modifies this`summaryCounters, this`summaryStart
      ensures summaryCounters == SummarizeAll(old(summaryCounters), es) && summaryStart == old(summaryStart)
    {
      var i := 0;
      assert es[0..] == es;
      while i < |es|
        invariant i <= |es| && summaryStart == old(summaryStart)
        invariant SummarizeAll(old(summaryCounters), es) == SummarizeAll(summaryCounters, es[i..])
      {
        assert es[i..][0] == es[i] && es[i..][1..] == es[i + 1..];
        SummarizeEvent(es[i], false, now);
        i := i + 1;
      }
    }

    method QueueEvents(es: seq<Request>, now: real)
      modifies this`events
      ensures events == AddTracked(config, old(events), es, now, lastServerTime)
    {
      var i := 0;
      assert es[0..] == es;
      while i < |es|
        invariant i <= |es|
        invariant AddTracked(config, old(events), es, now, lastServerTime)
          == AddTracked(config, events, es[i..], now, lastServerTime)
      {
        assert es[i..][0] == es[i] && es[i..][1..] == es[i + 1..];
        PossiblyQueueEvent(es[i], now);
        i := i + 1;
      }
    }

    /** LDi_processEvaluation. There is no feature event when the flag's fields have the wrong types. */
    method ProcessEvaluation(user: string, feature: Option<Request>, known: bool, subEvents: seq<Request>, now: real)
      requires Valid()
      modifies this`events, this`summaryCounters, this`summaryStart, this`lastUserKeyFlush, userKeys, userKeys.Repr
      ensures Valid() && fresh(userKeys.Repr - old(userKeys.Repr))
      ensures History() == if feature.None? then old(History())
        else Next(config, old(History()), Evaluation(user, feature.value, known, subEvents, now))
    {
      if feature.Some? {
        ProcessFeature(user, feature.value, known, subEvents, now);
      }
    }

    /** LDi_processEvaluation once the feature event is made. */
    method ProcessFeature(user: string, e: Request, known: bool, subEvents: seq<Request>, now: real)
      requires Valid()
      modifies this`events, this`summaryCounters, this`summaryStart, this`lastUserKeyFlush, userKeys, userKeys.Repr
      ensures Valid() && fresh(userKeys.Repr - old(userKeys.Repr))
      ensures History() == Next(config, old(History()), Evaluation(user, e, known, subEvents, now))
    {
      RecordedIsEvaluated(config, Value(), user, e, known, subEvents, now);
      var index := MaybeMakeIndexEvent(user, now);
      Record(index, e, known, subEvents, now);
    }

    /** LDi_processEvaluation once the index event is made or not. */
    method Record(index: Option<Entry>, e: Request, known: bool, subEvents: seq<Request>, now: real)
      modifies this`events, this`summaryCounters, this`summaryStart
      ensures Value() == Recorded(config, old(Value()), index, e, known, subEvents, now)
    {
      SummarizeEvent(e, !known, now);
      if index.Some? {
        AddEvent(index.value);
      }
      if known {
        PossiblyQueueEvent(e, now);
      }
      SummarizeEvents(subEvents, now);
      QueueEvents(subEvents, now);
    }

    /** LDi_track. */
    method TrackEvent(user: string, key: string, now: real)
      requires Valid()
      modifies this`events, this`lastUserKeyFlush, userKeys, userKeys.Repr
      ensures Valid() && fresh(userKeys.Repr - old(userKeys.Repr))
      ensures History() == Next(config, old(History()), Track(user, key, now))
    {
      QueuedIsTracked(config, Value(), user, key, now);
      var index := MaybeMakeIndexEvent(user, now);
      QueueCustom(user, key, index);
    }

    /** LDi_track once the index event is made or not. */
    method QueueCustom(user: string, key: string, index: Option<Entry>)
      modifies this`events
      ensures Value() == Queued(config, old(Value()), user, key, index)
    {
      AddEvent(Custom(user, key));
      if index.Some? {
        AddEvent(index.value);
      }
    }

    /** LDi_prepareSummaryEvent: the counters of each flag become an array. */
    method PrepareSummaryEvent(now: real) returns (summary: Entry)
      ensures summary == Summary(summaryStart, now, Reports(summaryCounters))
    {
      var reports := [];
      var i := 0;
      assert summaryCounters[0..] == summaryCounters;
      while i < |summaryCounters|
        invariant i <= |summaryCounters|
        invariant Reports(summaryCounters) == reports + Reports(summaryCounters[i..])
      {
        var feature := summaryCounters[i];
        ReportsAt(summaryCounters, i);
        Regroup(reports, [Report(feature.flag, feature.fallback, Lines(feature.counters))],
          Reports(summaryCounters[i + 1..]));
        var lines := ObjectToArray(feature.counters);
        reports := reports + [Report(feature.flag, feature.fallback, lines)];
        i := i + 1;
      }
      summary := Summary(summaryStart, now, reports);
    }

    /** LDi_bundleEventPayload. */
    method BundleEventPayload(now: real) returns (result: Option<seq<Entry>>)
      modifies this`events, this`summaryCounters, this`summaryStart, this`payloads
      ensures result == Payload(old(Value()), now)
      ensures History() == Next(config, old(History()), Bundle(now))
    {
      if events == [] && summaryCounters == [] {
        return None;
      }
      if summaryCounters != [] {
        var summary := PrepareSummaryEvent(now);
        events := events + [summary];
        summaryStart, summaryCounters := 0.0, [];
      }
      result := Some(events);
      payloads := payloads + [events];
      events := [];
    }
  }

  lemma {:induction false} ReportsAt(features: seq<Feature>, i: nat)
    requires i < |features|
    ensures Reports(features[i..]) ==
      [Report(features[i].flag, features[i].fallback, Lines(features[i].counters))] + Reports(features[i + 1..])
  {
    assert features[i..][1..] == features[i + 1..];
  }

  /** The state once an evaluation is summarised and its events queued. */
  ghost function Recorded(
    config: Config, s: State, index: Option<Entry>, e: Request, known: bool, subs: seq<Request>, now: real): State {
    var queued := if index.Some? then Add(config, s.events, index.value) else s.events;
    s.(start := if s.start == 0.0 then now else s.start,
       features := SummarizeAll(Summarize(s.features, e, !known), subs),
       events := AddTracked(config, if known then PossiblyQueued(config, queued, e, now, s.serverTime) else queued,
         subs, now, s.serverTime))
  }

  /** The state once a custom event and an index event are queued. */
  ghost function Queued(config: Config, s: State, user: string, key: string, index: Option<Entry>): State {
    var queued := Add(config, s.events, Custom(user, key));
    s.(events := if index.Some? then Add(config, queued, index.value) else queued)
  }

  lemma {:induction false} QueuedIsTracked(config: Config, s: State, user: string, key: string, now: real)
    ensures var index := if MakesIndex(config, s, user, now) then Some(Index(user, now)) else None;
      Queued(config, Seen(config, s, user, now), user, key, index) == Tracked(config, s, user, key, now)
  {
  }

  lemma {:induction false} RecordedIsEvaluated(
    config: Config, s: State, user: string, e: Request, known: bool, subs: seq<Request>, now: real)
    ensures var index := if MakesIndex(config, s, user, now) then Some(Index(user, now)) else None;
      Recorded(config, Seen(config, s, user, now), index, e, known, subs, now)
        == Evaluated(config, s, user, e, known, subs, now)
  {
  }

  /** LDi_objectToArray. */
  method ObjectToArray(counters: seq<Counter>) returns (lines: seq<Line>)
    ensures lines == Lines(counters)
  {
    lines := [];
    var i := 0;
    assert counters[0..] == counters;
    while i < |counters|
      invariant i <= |counters|
      invariant Lines(counters) == lines + Lines(counters[i..])
    {
      var c := counters[i];
      assert counters[i..][1..] == counters[i + 1..];
      lines := lines + [Line(c.count, c.variation, c.version, c.value, c.unknown)];
      i := i + 1;
    }
  }

  /** Looking up and updating in place is what Bump does. */
  lemma {:induction false} BumpAt(counters: seq<Counter>, keytext: string, e: Request, unknown: bool, i: nat)
    requires i <= |counters| && (i < |counters| ==> counters[i].keytext == keytext)
    requires forall k :: 0 <= k < i ==> counters[k].keytext != keytext
    ensures Bump(counters, keytext, e, unknown) ==
      if i == |counters| then counters + [NewCounter(keytext, e, unknown)]
      else counters[i := counters[i].(count := counters[i].count + 1)]
  {
    if i > 0 {
      var first, rest := counters[0], counters[1..];
      BumpAt(rest, keytext, e, unknown, i - 1);
      HeadAndTail(counters);
      if i < |counters| {
        UpdateInTail(first, rest, i - 1, counters[i].(count := counters[i].count + 1));
      } else {
        Regroup([first], rest, [NewCounter(keytext, e, unknown)]);
      }
    } else if counters != [] {
      HeadAndTail(counters);
    }
  }

  lemma {:induction false} UpdateInTail<T>(first: T, rest: seq<T>, i: nat, x: T)
    requires i < |rest|
    ensures [first] + rest[i := x] == ([first] + rest)[i + 1 := x]
  {
  }

  lemma {:induction false} SummarizeAt(features: seq<Feature>, e: Request, unknown: bool, i: nat)
    requires i <= |features| && (i < |features| ==> features[i].flag == e.flag)
    requires forall k :: 0 <= k < i ==> features[k].flag != e.flag
    ensures var grown := if i == |features| then features + [Feature(e.flag, Present(e.fallback), [])] else features;
      Summarize(features, e, unknown) ==
        grown[i := grown[i].(counters := Bump(grown[i].counters, KeyText(e.variation, e.version), e, unknown))]
  {
    var added, keytext := Feature(e.flag, Present(e.fallback), []), KeyText(e.variation, e.version);
    if i > 0 {
      var first, rest := features[0], features[1..];
      var grown := if i == |features| then rest + [added] else rest;
      SummarizeAt(rest, e, unknown, i - 1);
      HeadAndTail(features);
      Regroup([first], rest, [added]);
      UpdateInTail(first, grown, i - 1, grown[i - 1].(counters := Bump(grown[i - 1].counters, keytext, e, unknown)));
    } else if features != [] {
      HeadAndTail(features);
    }
  }
}
