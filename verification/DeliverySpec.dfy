/** Sending event payloads (src/events.c): one payload at a time, a second try after a failure, then it is discarded. */
module DeliverySpec {
  import opened Basics

  /** struct AnalyticsContext. A failure time of zero stands for none. */
  datatype Context<P> = Context(active: bool, lastFlush: real, buffer: Option<P>, failureTime: nat, payloadId: string)

  datatype Fate = Pending | Delivered | Discarded | Orphaned

  /** A payload that was bundled, under which identifier, how often it was sent, and what became of it. */
  datatype Parcel<P> = Parcel(payload: P, id: string, sends: nat, fate: Fate)

  datatype Mail<P> = Mail(
    context: Context<P>,
    shouldFlush: bool,
    parcels: seq<Parcel<P>>,
    log: seq<(string, P)>)            // every request made: payload identifier and body

  /** In a poll `bundle` and `id` are used only if a payload is taken, and `ready` is whether the identifier and
      the request could be set up. */
  datatype Step<P> =
    | Poll(now: real, bundle: Option<P>, id: string, ready: bool)
    | Done(now: real, success: bool)
    | RequestFlush

  /** unsigned int addition. */
  function Deadline(failureTime: nat): nat {
    (failureTime + 1000) % 0x1_0000_0000
  }

  /** poll sends the buffered payload again, more than a second after the failure. */
  predicate WantsRetry<P>(c: Context<P>, now: real) {
    !c.active && c.failureTime != 0 && now > Deadline(c.failureTime) as real
  }

  /** poll takes a new payload. */
  predicate WantsBundle<P>(m: Mail<P>, interval: real, now: real) {
    !m.context.active && m.context.failureTime == 0 && (m.shouldFlush || now - m.context.lastFlush >= interval)
  }

  function Last<T>(s: seq<T>): T
    requires s != []
  {
    s[|s| - 1]
  }

  function Init<T>(s: seq<T>): seq<T>
    requires s != []
  {
    s[..|s| - 1]
  }

  /** The bookkeeping of the last parcel. */
  function Marked<P>(parcels: seq<Parcel<P>>, fate: Fate): seq<Parcel<P>> {
    if parcels == [] then [] else Init(parcels) + [Last(parcels).(fate := fate)]
  }

  function Resent<P>(parcels: seq<Parcel<P>>): seq<Parcel<P>> {
    if parcels == [] then [] else Init(parcels) + [Last(parcels).(sends := Last(parcels).sends + 1)]
  }

  function Retried<P>(m: Mail<P>): Mail<P> {
    var c := m.context;
    if c.buffer.None? then m
    else m.(context := c.(active := true), parcels := Resent(m.parcels), log := m.log + [(c.payloadId, c.buffer.value)])
  }

  function Taken<P>(m: Mail<P>, p: P, id: string): Mail<P> {
    m.(context := m.context.(active := true, buffer := Some(p), payloadId := id),
       parcels := m.parcels + [Parcel(p, id, 1, Pending)],
       log := m.log + [(id, p)])
  }

  /** The payload was bundled into the buffer but no request was made; nothing will send it. */
  function Stranded<P>(m: Mail<P>, p: P, id: string): Mail<P> {
    m.(context := m.context.(buffer := Some(p), payloadId := id),
       parcels := m.parcels + [Parcel(p, id, 0, Orphaned)])
  }

  /** poll. A retry that cannot be set up is left for the next poll. */
  function Polled<P>(m: Mail<P>, interval: real, now: real, bundle: Option<P>, id: string, ready: bool): Mail<P> {
    if WantsRetry(m.context, now) then (if ready then Retried(m) else m)
    else if WantsBundle(m, interval, now) && bundle.Some? then
      if ready then Taken(m, bundle.value, id) else Stranded(m, bundle.value, id)
    else m
  }

  /** resetMemory. */
  function Reset<P>(c: Context<P>): Context<P> {
    c.(buffer := None, failureTime := 0)
  }

  function Succeeded<P>(m: Mail<P>, now: real): Mail<P> {
    m.(context := Reset(m.context.(active := false, lastFlush := now)), shouldFlush := false,
      parcels := Marked(m.parcels, Delivered))
  }

  /** A second failure discards the payload. A first one sets the failure time, in whole milliseconds; if that
      is zero the failure goes unnoticed and nothing will send the payload again. */
  function FailedAt<P>(m: Mail<P>, now: real): Mail<P>
    requires now >= 0.0
  {
    var c := m.context.(active := false);
    if c.failureTime != 0 then m.(context := Reset(c), parcels := Marked(m.parcels, Discarded))
    else if now.Floor == 0 then m.(context := c, parcels := Marked(m.parcels, Orphaned))
    else m.(context := c.(failureTime := now.Floor))
  }

  /** Before it compares times for a flush, poll asserts that the clock has not gone back; done is called for an active
      request. Times are milliseconds and fit an unsigned int. */
  predicate Enabled<P>(m: Mail<P>, step: Step<P>) {
    match step
    case Poll(now, _, _, _) => !InFlight(m.context) && !m.shouldFlush ==> now >= m.context.lastFlush
    case Done(now, _) => m.context.active && 0.0 <= now < 4294967296.0
    case RequestFlush => true
  }

  function Next<P>(interval: real, m: Mail<P>, step: Step<P>): Mail<P>
    requires Enabled(m, step)
  {
    match step
    case Poll(now, bundle, id, ready) => Polled(m, interval, now, bundle, id, ready)
    case Done(now, success) => if success then Succeeded(m, now) else FailedAt(m, now)
    case RequestFlush => m.(shouldFlush := true)
  }

  function Start<P>(now: real): Mail<P> {
    Mail(Context(false, now, None, 0, ""), false, [], [])
  }

  /** Where a run ends, if every step of it was enabled. */
  function Run<P>(interval: real, start: real, steps: seq<Step<P>>): Option<Mail<P>>
    decreases |steps|
  {
    if steps == [] then Some(Start(start))
    else
      var past := Run(interval, start, Init(steps));
      if past.Some? && Enabled(past.value, Last(steps)) then Some(Next(interval, past.value, Last(steps))) else None
  }

  lemma {:induction false} RunThen<P>(interval: real, start: real, steps: seq<Step<P>>, step: Step<P>)
    requires Run(interval, start, steps).Some? && Enabled(Run(interval, start, steps).value, step)
    ensures Run(interval, start, steps + [step]) == Some(Next(interval, Run(interval, start, steps).value, step))
  {
    assert Init(steps + [step]) == steps;
  }

  // ---------- the invariant ----------

  /** The requests made for one parcel: the same identifier and body each time. */
  function Requests<P>(parcel: Parcel<P>): seq<(string, P)> {
    if parcel.sends == 0 then []
    else if parcel.sends == 1 then [(parcel.id, parcel.payload)]
    else [(parcel.id, parcel.payload), (parcel.id, parcel.payload)]
  }

  function LogOf<P>(parcels: seq<Parcel<P>>): seq<(string, P)> {
    if parcels == [] then [] else LogOf(Init(parcels)) + Requests(Last(parcels))
  }

  /** A parcel is sent once or twice and given up only after two, unless it is orphaned. */
  predicate Sound<P>(parcel: Parcel<P>) {
    && (parcel.fate == Delivered || parcel.fate == Pending ==> 1 <= parcel.sends <= 2)
    && (parcel.fate == Discarded ==> parcel.sends == 2)
    && (parcel.fate == Orphaned ==> parcel.sends <= 1)
  }

  /** A parcel whose story is over. */
  predicate Settled<P>(parcel: Parcel<P>) {
    Sound(parcel) && parcel.fate != Pending
  }

  predicate AllSettled<P>(parcels: seq<Parcel<P>>) {
    forall i :: 0 <= i < |parcels| ==> Settled(parcels[i])
  }

  predicate InFlight<P>(c: Context<P>) {
    c.active || c.failureTime != 0
  }

  /** The last parcel is the one the context holds. */
  ghost predicate Holds<P>(c: Context<P>, parcel: Parcel<P>) {
    && parcel.fate == Pending && c.buffer == Some(parcel.payload) && c.payloadId == parcel.id
    && parcel.sends == if c.active && c.failureTime != 0 then 2 else 1
  }

  ghost predicate Inv<P>(m: Mail<P>) {
    && m.log == LogOf(m.parcels)
    && if InFlight(m.context) then m.parcels != [] && AllSettled(Init(m.parcels)) && Holds(m.context, Last(m.parcels))
       else AllSettled(m.parcels)
  }

  lemma {:induction false} RetriedKeepsInv<P>(m: Mail<P>)
    requires Inv(m) && !m.context.active && m.context.failureTime != 0
    ensures Inv(Retried(m))
  {
    assert Init(Resent(m.parcels)) == Init(m.parcels);
  }

  lemma {:induction false} OneMore<P>(parcels: seq<Parcel<P>>, parcel: Parcel<P>)
    ensures Init(parcels + [parcel]) == parcels && Last(parcels + [parcel]) == parcel
    ensures LogOf(parcels + [parcel]) == LogOf(parcels) + Requests(parcel)
  {
    assert Init(parcels + [parcel]) == parcels;
  }

  lemma {:induction false} TakenKeepsInv<P>(m: Mail<P>, p: P, id: string)
    requires Inv(m) && !InFlight(m.context)
    ensures Inv(Taken(m, p, id))
  {
    OneMore(m.parcels, Parcel(p, id, 1, Pending));
  }

  lemma {:induction false} StrandedKeepsInv<P>(m: Mail<P>, p: P, id: string)
    requires Inv(m) && !InFlight(m.context)
    ensures Inv(Stranded(m, p, id))
  {
    OneMore(m.parcels, Parcel(p, id, 0, Orphaned));
    EmptyEnds(m.log);
  }

  lemma {:induction false} PolledKeepsInv<P>(
    m: Mail<P>, interval: real, now: real, bundle: Option<P>, id: string, ready: bool)
    requires Inv(m)
    ensures Inv(Polled(m, interval, now, bundle, id, ready))
  {
    if WantsRetry(m.context, now) {
      RetriedKeepsInv(m);
    } else if WantsBundle(m, interval, now) && bundle.Some? {
      TakenKeepsInv(m, bundle.value, id);
      StrandedKeepsInv(m, bundle.value, id);
    }
  }

  lemma {:induction false} MarkedKeepsLog<P>(parcels: seq<Parcel<P>>, fate: Fate)
    requires parcels != [] && AllSettled(Init(parcels)) && Sound(Last(parcels).(fate := fate)) && fate != Pending
    ensures LogOf(Marked(parcels, fate)) == LogOf(parcels) && AllSettled(Marked(parcels, fate))
  {
  }

  lemma {:induction false} DoneKeepsInv<P>(m: Mail<P>, now: real, success: bool)
    requires Inv(m) && m.context.active && now >= 0.0
    ensures Inv(if success then Succeeded(m, now) else FailedAt(m, now))
  {
    if success {
      MarkedKeepsLog(m.parcels, Delivered);
    } else if m.context.failureTime != 0 {
      MarkedKeepsLog(m.parcels, Discarded);
    } else if now.Floor == 0 {
      MarkedKeepsLog(m.parcels, Orphaned);
    }
  }

  lemma {:induction false} NextKeepsInv<P>(interval: real, m: Mail<P>, step: Step<P>)
    requires Inv(m) && Enabled(m, step)
    ensures Inv(Next(interval, m, step))
  {
    match step {
      case Poll(now, bundle, id, ready) => PolledKeepsInv(m, interval, now, bundle, id, ready);
      case Done(now, success) => DoneKeepsInv(m, now, success);
      case RequestFlush =>
    }
  }

  /** In every reachable state each parcel but a pending last one is delivered, discarded after two sends, or
      orphaned, and the requests made are exactly theirs, in order. */
  lemma {:induction false} EveryRunKeepsInv<P>(interval: real, start: real, steps: seq<Step<P>>)
    ensures Run(interval, start, steps).Some? ==> Inv(Run(interval, start, steps).value)
    decreases |steps|
  {
    if Run(interval, start, steps).Some? && steps != [] {
      EveryRunKeepsInv(interval, start, Init(steps));
      NextKeepsInv(interval, Run(interval, start, Init(steps)).value, Last(steps));
    }
  }

  function Payloads<P>(parcels: seq<Parcel<P>>): (r: seq<P>)
    ensures |r| == |parcels|
  {
    if parcels == [] then [] else Payloads(Init(parcels)) + [Last(parcels).payload]
  }

  lemma {:induction false} OneMorePayload<P>(parcels: seq<Parcel<P>>, parcel: Parcel<P>)
    ensures Payloads(parcels + [parcel]) == Payloads(parcels) + [parcel.payload]
  {
    OneMore(parcels, parcel);
  }

  lemma {:induction false} LastChanges<P>(parcels: seq<Parcel<P>>, fate: Fate)
    ensures Payloads(Marked(parcels, fate)) == Payloads(parcels) && Payloads(Resent(parcels)) == Payloads(parcels)
    ensures |Marked(parcels, fate)| == |Resent(parcels)| == |parcels|
    ensures forall i :: 0 <= i < |parcels| - 1 ==> Marked(parcels, fate)[i] == Resent(parcels)[i] == parcels[i]
  {
  }

  /** The story of settled parcels is over. */
  ghost predicate Extends<P>(m: seq<Parcel<P>>, n: seq<Parcel<P>>) {
    |m| <= |n| && forall i :: 0 <= i < |m| && m[i].fate != Pending ==> n[i] == m[i]
  }

  /** `n` holds one parcel more than `m`, with this payload, and nothing was pending. */
  ghost predicate Grows<P>(m: seq<Parcel<P>>, n: seq<Parcel<P>>, bundle: Option<P>) {
    bundle.Some? && AllSettled(m) && Payloads(n) == Payloads(m) + [bundle.value]
  }

  lemma {:induction false} RetriedAddsNone<P>(m: Mail<P>)
    requires Inv(m) && InFlight(m.context)
    ensures Extends(m.parcels, Retried(m).parcels) && Payloads(Retried(m).parcels) == Payloads(m.parcels)
  {
  }

  lemma {:induction false} TakenAddsOne<P>(m: Mail<P>, p: P, id: string)
    requires Inv(m) && !InFlight(m.context)
    ensures Extends(m.parcels, Taken(m, p, id).parcels) && Grows(m.parcels, Taken(m, p, id).parcels, Some(p))
    ensures Extends(m.parcels, Stranded(m, p, id).parcels) && Grows(m.parcels, Stranded(m, p, id).parcels, Some(p))
  {
  }

  lemma {:induction false} DoneAddsNone<P>(m: Mail<P>, now: real, success: bool)
    requires Inv(m) && m.context.active && now >= 0.0
    ensures var n := if success then Succeeded(m, now) else FailedAt(m, now);
      Extends(m.parcels, n.parcels) && Payloads(n.parcels) == Payloads(m.parcels)
  {
    LastChanges(m.parcels, if success then Delivered else if m.context.failureTime != 0 then Discarded else Orphaned);
  }

  /** A step adds at most one parcel, with the bundle it was given, and only while none is pending; no parcel
      that is settled changes. */
  lemma {:induction false} OneAtATime<P>(interval: real, m: Mail<P>, step: Step<P>)
    requires Inv(m) && Enabled(m, step)
    ensures Extends(m.parcels, Next(interval, m, step).parcels)
    ensures Payloads(Next(interval, m, step).parcels) == Payloads(m.parcels)
      || (step.Poll? && Grows(m.parcels, Next(interval, m, step).parcels, step.bundle))
  {
    match step {
      case Poll(now, bundle, id, _) =>
        if WantsRetry(m.context, now) {
          RetriedAddsNone(m);
        } else if WantsBundle(m, interval, now) && bundle.Some? {
          TakenAddsOne(m, bundle.value, id);
        }
      case Done(now, success) => DoneAddsNone(m, now, success);
      case RequestFlush =>
    }
  }

  /** The events of all parcels with the given fate; `size` counts the events of a payload. */
  function EventsOf<P>(parcels: seq<Parcel<P>>, size: P -> nat, fate: Fate): nat {
    if parcels == [] then 0
    else EventsOf(Init(parcels), size, fate) + (if Last(parcels).fate == fate then size(Last(parcels).payload) else 0)
  }

  function AllEvents<P>(payloads: seq<P>, size: P -> nat): nat {
    if payloads == [] then 0 else AllEvents(Init(payloads), size) + size(Last(payloads))
  }

  lemma {:induction false} FatesAddUp<P>(parcels: seq<Parcel<P>>, size: P -> nat)
    ensures AllEvents(Payloads(parcels), size) ==
      EventsOf(parcels, size, Delivered) + EventsOf(parcels, size, Discarded)
      + EventsOf(parcels, size, Orphaned) + EventsOf(parcels, size, Pending)
    ensures AllSettled(parcels) ==> EventsOf(parcels, size, Pending) == 0
  {
    if parcels != [] {
      FatesAddUp(Init(parcels), size);
      LastPayload(parcels);
      AllButLastSettled(parcels);
    }
  }

  lemma {:induction false} LastPayload<P>(parcels: seq<Parcel<P>>)
    requires parcels != []
    ensures Init(Payloads(parcels)) == Payloads(Init(parcels)) && Last(Payloads(parcels)) == Last(parcels).payload
  {
  }

  lemma {:induction false} AllButLastSettled<P>(parcels: seq<Parcel<P>>)
    requires parcels != []
    ensures AllSettled(parcels) ==> AllSettled(Init(parcels)) && Settled(Last(parcels))
  {
  }

  /** Every event bundled is delivered, discarded, orphaned, or in the payload in flight, and in one of them only. */
  lemma {:induction false} DeliveryConservation<P>(m: Mail<P>, size: P -> nat)
    requires Inv(m)
    ensures AllEvents(Payloads(m.parcels), size) == EventsOf(m.parcels, size, Delivered)
      + EventsOf(m.parcels, size, Discarded) + EventsOf(m.parcels, size, Orphaned)
      + (if InFlight(m.context) then size(m.context.buffer.value) else 0)
  {
    FatesAddUp(m.parcels, size);
    if InFlight(m.context) {
      FatesAddUp(Init(m.parcels), size);
    }
  }

  // ---------- two tries ----------

  /** After a first failure: nothing happens until a second has passed, then the next poll that can set up a request
      sends the same payload under the same identifier, whatever has been queued meanwhile. */
  lemma {:induction false} FailureIsRetried<P>(
    interval: real, m: Mail<P>, failed: real, now: real, bundle: Option<P>, id: string, ready: bool)
    requires Inv(m) && m.context.active && m.context.failureTime == 0 && 1.0 <= failed < 4294966296.0
    ensures
      var waiting := Next(interval, m, Done(failed, false));
      && !waiting.context.active && waiting.log == m.log
      && var polled := Next(interval, waiting, Poll(now, bundle, id, ready));
         if now > (failed.Floor + 1000) as real && ready then
           polled.context.active && polled.log == m.log + [(m.context.payloadId, m.context.buffer.value)]
         else polled == waiting
  {
  }

  /** A second failure gives the payload up, after two sends; a success settles it, after one or two. */
  lemma {:induction false} SecondAnswerSettles<P>(interval: real, m: Mail<P>, now: real, success: bool)
    requires Inv(m) && m.context.active && (success || m.context.failureTime != 0) && 0.0 <= now < 4294967296.0
    ensures
      var settled := Next(interval, m, Done(now, success));
      && settled.context.buffer.None? && !InFlight(settled.context) && settled.log == m.log
      && settled.parcels == Init(m.parcels) + [Last(m.parcels).(fate := if success then Delivered else Discarded)]
      && Last(m.parcels).sends == if m.context.failureTime == 0 then 1 else 2
  {
  }

  /** While nothing is in flight, a poll takes the bundle and sends it when a flush was asked for or is due. */
  lemma {:induction false} BundleIsSent<P>(interval: real, m: Mail<P>, now: real, p: P, id: string)
    requires Inv(m) && !InFlight(m.context)
    requires m.shouldFlush || now >= m.context.lastFlush
    ensures
      var polled := Next(interval, m, Poll(now, Some(p), id, true));
      if m.shouldFlush || now - m.context.lastFlush >= interval then
        && polled.context.active && polled.log == m.log + [(id, p)]
        && polled.parcels == m.parcels + [Parcel(p, id, 1, Pending)]
      else polled == m
  {
  }

  // ---------- orphans ----------

  /** A first failure in the first millisecond of the clock, or a new payload whose request cannot be set up. */
  predicate UnnoticedFailure<P>(interval: real, m: Mail<P>, step: Step<P>) {
    match step
    case Poll(now, bundle, _, ready) => !ready && WantsBundle(m, interval, now) && bundle.Some?
    case Done(now, success) => !success && m.context.failureTime == 0 && now < 1.0
    case RequestFlush => false
  }

  function Orphans<P>(parcels: seq<Parcel<P>>): nat {
    if parcels == [] then 0 else Orphans(Init(parcels)) + if Last(parcels).fate == Orphaned then 1 else 0
  }

  /** A payload is orphaned exactly by such a failure. */
  lemma {:induction false} OrphanedIff<P>(interval: real, m: Mail<P>, step: Step<P>)
    requires Inv(m) && Enabled(m, step)
    ensures Orphans(Next(interval, m, step).parcels)
      == Orphans(m.parcels) + if UnnoticedFailure(interval, m, step) then 1 else 0
  {
    match step {
      case Poll(now, bundle, id, _) =>
        if WantsRetry(m.context, now) {
          assert Init(Resent(m.parcels)) == Init(m.parcels);
        } else if WantsBundle(m, interval, now) && bundle.Some? {
          assert Init(m.parcels + [Parcel(bundle.value, id, 1, Pending)]) == m.parcels;
          assert Init(m.parcels + [Parcel(bundle.value, id, 0, Orphaned)]) == m.parcels;
        }
      case Done(now, success) =>
        forall fate | true ensures Init(Marked(m.parcels, fate)) == Init(m.parcels) {
        }
        assert now.Floor == 0 <==> now < 1.0;
      case RequestFlush =>
    }
  }

  /** How often that happens in a run. */
  function Unnoticed<P>(interval: real, start: real, steps: seq<Step<P>>): nat
    requires Run(interval, start, steps).Some?
    decreases |steps|
  {
    if steps == [] then 0
    else
      var here := if UnnoticedFailure(interval, Run(interval, start, Init(steps)).value, Last(steps)) then 1 else 0;
      Unnoticed(interval, start, Init(steps)) + here
  }

  /** Every payload taken is pending, delivered, or discarded after two sends, except one for each such failure. */
  lemma {:induction false} OrphansAreUnnoticedFailures<P>(interval: real, start: real, steps: seq<Step<P>>)
    requires Run(interval, start, steps).Some?
    ensures Inv(Run(interval, start, steps).value)
    ensures Orphans(Run(interval, start, steps).value.parcels) == Unnoticed(interval, start, steps)
    decreases |steps|
  {
    EveryRunKeepsInv(interval, start, steps);
    if steps != [] {
      OrphansAreUnnoticedFailures(interval, start, Init(steps));
      OrphanedIff(interval, Run(interval, start, Init(steps)).value, Last(steps));
    }
  }

  /** A run with such a failure: the next poll takes a new payload over the one still in the buffer. */
  lemma {:induction false} OrphanExample<P>(p: P, q: P, id: string, id': string)
    ensures var take, next := Poll(0.25, Some(p), id, true), Poll(0.75, Some(q), id', true);
      var steps := [RequestFlush, take, Done(0.5, false), next];
      var end := Run(5000.0, 0.0, steps);
      && end.Some? && end.value.context.buffer == Some(q)
      && end.value.parcels == [Parcel(p, id, 1, Orphaned), Parcel(q, id', 1, Pending)]
  {
    var take, fail := Poll(0.25, Some(p), id, true), Done(0.5, false);
    var next := Poll(0.75, Some(q), id', true);
    RunThen<P>(5000.0, 0.0, [], RequestFlush);
    RunThen(5000.0, 0.0, [] + [RequestFlush], take);
    RunThen(5000.0, 0.0, [] + [RequestFlush] + [take], fail);
    RunThen(5000.0, 0.0, [] + [RequestFlush] + [take] + [fail], next);
    assert [] + [RequestFlush] + [take] + [fail] + [next] == [RequestFlush, take, fail, next];
  }
}
