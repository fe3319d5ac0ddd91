/** The event processor and the sender together, from a queued event to its delivery: any interleaving of
    evaluations, custom events, flush requests, polls and responses. */
module Pipeline {
  import opened Basics
  import opened EventSpec
  import Sender = DeliverySpec

  type Batch = seq<Entry>

  datatype World = World(trace: Trace, mail: Sender.Mail<Batch>)

  /** poll reads two clocks: `now` is monotonic, `unix` dates the summary. */
  datatype Step =
    | Process(op: Op)
    | Poll(now: real, unix: real, id: string, ready: bool)
    | Done(now: real, success: bool)
    | RequestFlush

  datatype Setup = Setup(config: Config, interval: real, start: real, unix: real)

  /** What the sender does in a step, if anything. */
  function SenderStep(w: World, step: Step): Option<Sender.Step<Batch>> {
    match step
    case Process(_) => None
    case Poll(now, unix, id, ready) => Some(Sender.Poll(now, Payload(w.trace.state, unix), id, ready))
    case Done(now, success) => Some(Sender.Done(now, success))
    case RequestFlush => Some(Sender.RequestFlush)
  }

  /** What the processor does in a step, if anything: a poll bundles only when it takes a payload. */
  function ProcessorStep(setup: Setup, w: World, step: Step): Option<Op> {
    match step
    case Process(op) => Some(op)
    case Poll(now, unix, _, _) => if Sender.WantsBundle(w.mail, setup.interval, now) then Some(Bundle(unix)) else None
    case _ => None
  }

  /** Only a poll bundles. */
  predicate Enabled(w: World, step: Step) {
    && (step.Process? ==> ValidOp(step.op) && !step.op.Bundle?)
    && (SenderStep(w, step).Some? ==> Sender.Enabled(w.mail, SenderStep(w, step).value))
  }

  function After(setup: Setup, w: World, step: Step): World
    requires Enabled(w, step)
  {
    var op, send := ProcessorStep(setup, w, step), SenderStep(w, step);
    World(if op.None? then w.trace else Next(setup.config, w.trace, op.value),
          if send.None? then w.mail else Sender.Next(setup.interval, w.mail, send.value))
  }

  /** Where a run ends, if every step of it was enabled. */
  function World0(setup: Setup): World {
    World(Run(setup.config, setup.unix, []), Sender.Start(setup.start))
  }

  function Ends(setup: Setup, steps: seq<Step>): Option<World> {
    if steps == [] then Some(World0(setup))
    else
      var past, step := Ends(setup, steps[..|steps| - 1]), steps[|steps| - 1];
      if past.Some? && Enabled(past.value, step) then Some(After(setup, past.value, step)) else None
  }

  // ---------- a run is a run of each part ----------

  function Listed<T>(x: Option<T>): seq<T> {
    if x.None? then [] else [x.value]
  }

  function OpsOf(setup: Setup, steps: seq<Step>): seq<Op>
    requires Ends(setup, steps).Some?
  {
    if steps == [] then []
    else
      var past := steps[..|steps| - 1];
      var op := ProcessorStep(setup, Ends(setup, past).value, steps[|steps| - 1]);
      OpsOf(setup, past) + Listed(op)
  }

  function SendsOf(setup: Setup, steps: seq<Step>): seq<Sender.Step<Batch>>
    requires Ends(setup, steps).Some?
  {
    if steps == [] then []
    else
      var past := steps[..|steps| - 1];
      var send := SenderStep(Ends(setup, past).value, steps[|steps| - 1]);
      SendsOf(setup, past) + Listed(send)
  }

  lemma {:induction false} RunListed(config: Config, start: real, ops: seq<Op>, op: Option<Op>)
    requires ValidOps(ops) && (op.Some? ==> ValidOp(op.value))
    ensures ValidOps(ops + Listed(op))
    ensures Run(config, start, ops + Listed(op)) ==
      if op.None? then Run(config, start, ops) else Next(config, Run(config, start, ops), op.value)
  {
    if op.None? {
      assert ops + Listed(op) == ops;
    } else {
      assert (ops + Listed(op))[..|ops|] == ops;
    }
  }

  lemma {:induction false} SendListed(
    interval: real, start: real, sends: seq<Sender.Step<Batch>>, send: Option<Sender.Step<Batch>>)
    requires Sender.Run(interval, start, sends).Some?
    requires send.Some? ==> Sender.Enabled(Sender.Run(interval, start, sends).value, send.value)
    ensures var m := Sender.Run(interval, start, sends).value;
      Sender.Run(interval, start, sends + Listed(send))
        == Some(if send.None? then m else Sender.Next(interval, m, send.value))
  {
    if send.None? {
      assert sends + Listed(send) == sends;
    } else {
      Sender.RunThen(interval, start, sends, send.value);
    }
  }

  lemma {:induction false} TraceIsRun(setup: Setup, steps: seq<Step>)
    requires Ends(setup, steps).Some?
    ensures ValidOps(OpsOf(setup, steps))
    ensures Ends(setup, steps).value.trace == Run(setup.config, setup.unix, OpsOf(setup, steps))
    decreases |steps|
  {
    if steps != [] {
      var past, step := steps[..|steps| - 1], steps[|steps| - 1];
      TraceIsRun(setup, past);
      RunListed(setup.config, setup.unix, OpsOf(setup, past), ProcessorStep(setup, Ends(setup, past).value, step));
    }
  }

  lemma {:induction false} MailIsRun(setup: Setup, steps: seq<Step>)
    requires Ends(setup, steps).Some?
    ensures Sender.Run(setup.interval, setup.start, SendsOf(setup, steps)) == Some(Ends(setup, steps).value.mail)
    decreases |steps|
  {
    if steps != [] {
      var past, step := steps[..|steps| - 1], steps[|steps| - 1];
      MailIsRun(setup, past);
      SendListed(setup.interval, setup.start, SendsOf(setup, past), SenderStep(Ends(setup, past).value, step));
    }
  }

  // ---------- every payload of the processor is a parcel of the sender ----------

  lemma {:induction false} PayloadsStayLinked(setup: Setup, w: World, step: Step)
    requires Enabled(w, step) && Sender.Inv(w.mail) && Sender.Payloads(w.mail.parcels) == w.trace.payloads
    ensures Sender.Payloads(After(setup, w, step).mail.parcels) == After(setup, w, step).trace.payloads
  {
    match step {
      case Process(op) => ProcessStaysLinked(setup, w, op);
      case Poll(now, unix, id, ready) =>
        PollParts(setup, w, now, unix, id, ready);
        PollStaysLinked(setup, w, now, unix, id, ready);
      case Done(now, success) => DoneStaysLinked(setup, w, now, success);
      case RequestFlush =>
    }
  }

  lemma {:induction false} ProcessStaysLinked(setup: Setup, w: World, op: Op)
    requires Enabled(w, Process(op))
    ensures var w' := After(setup, w, Process(op)); w'.mail == w.mail && w'.trace.payloads == w.trace.payloads
  {
  }

  lemma {:induction false} DoneStaysLinked(setup: Setup, w: World, now: real, success: bool)
    requires Enabled(w, Done(now, success)) && Sender.Inv(w.mail) && Sender.Payloads(w.mail.parcels) == w.trace.payloads
    ensures var w' := After(setup, w, Done(now, success)); Sender.Payloads(w'.mail.parcels) == w'.trace.payloads
  {
    Sender.DoneAddsNone(w.mail, now, success);
  }

  /** A poll, part by part. */
  lemma {:induction false} PollParts(setup: Setup, w: World, now: real, unix: real, id: string, ready: bool)
    requires Enabled(w, Poll(now, unix, id, ready))
    ensures var wants := Sender.WantsBundle(w.mail, setup.interval, now);
      After(setup, w, Poll(now, unix, id, ready)) ==
        World(if wants then Bundled(w.trace, unix) else w.trace,
              Sender.Polled(w.mail, setup.interval, now, Payload(w.trace.state, unix), id, ready))
  {
  }

  lemma {:induction false} PollStaysLinked(setup: Setup, w: World, now: real, unix: real, id: string, ready: bool)
    requires Sender.Inv(w.mail) && Sender.Payloads(w.mail.parcels) == w.trace.payloads
    ensures var bundle := Payload(w.trace.state, unix);
      Sender.Payloads(Sender.Polled(w.mail, setup.interval, now, bundle, id, ready).parcels) ==
        (if Sender.WantsBundle(w.mail, setup.interval, now) then Bundled(w.trace, unix) else w.trace).payloads
  {
    var bundle := Payload(w.trace.state, unix);
    if Sender.WantsRetry(w.mail.context, now) {
      Sender.RetriedAddsNone(w.mail);
    } else if Sender.WantsBundle(w.mail, setup.interval, now) && bundle.Some? {
      Sender.TakenAddsOne(w.mail, bundle.value, id);
    }
  }

  lemma {:induction false} PayloadsAreLinked(setup: Setup, steps: seq<Step>)
    requires Ends(setup, steps).Some?
    ensures Sender.Inv(Ends(setup, steps).value.mail)
    ensures Sender.Payloads(Ends(setup, steps).value.mail.parcels) == Ends(setup, steps).value.trace.payloads
    decreases |steps|
  {
    MailIsRun(setup, steps);
    Sender.EveryRunKeepsInv(setup.interval, setup.start, SendsOf(setup, steps));
    if steps != [] {
      PayloadsAreLinked(setup, steps[..|steps| - 1]);
      PayloadsStayLinked(setup, Ends(setup, steps[..|steps| - 1]).value, steps[|steps| - 1]);
    }
  }

  // ---------- conservation ----------

  /** How often an event occurs in a payload, its summary apart. */
  function Occurrences(e: Entry): Batch -> nat {
    (p: Batch) => multiset(WithoutSummary(p))[e]
  }

  lemma {:induction false} SentOccurrences(ps: seq<Batch>, e: Entry)
    ensures multiset(Sent(ps))[e] == Sender.AllEvents(ps, Occurrences(e))
  {
    if ps != [] {
      SentOccurrences(ps[..|ps| - 1], e);
    }
  }

  /** What the parcels of one fate hold, by the given measure of a payload. */
  function Share(w: World, size: Batch -> nat, fate: Sender.Fate): nat {
    Sender.EventsOf(w.mail.parcels, size, fate)
  }

  function InFlight(w: World, size: Batch -> nat): nat {
    var c := w.mail.context;
    if Sender.InFlight(c) && c.buffer.Some? then size(c.buffer.value) else 0
  }

  /** Over any interleaving: every event that was accepted into the queue is in the queue, in the payload in
      flight, delivered, discarded or orphaned, as often as it was accepted and no more. */
  lemma {:induction false} EveryEventIsSomewhere(setup: Setup, steps: seq<Step>, e: Entry)
    requires Ends(setup, steps).Some?
    ensures var w, many := Ends(setup, steps).value, Occurrences(e);
      multiset(Accepted(setup.config, setup.unix, OpsOf(setup, steps)))[e] ==
        multiset(w.trace.state.events)[e] + InFlight(w, many)
        + Share(w, many, Sender.Delivered) + Share(w, many, Sender.Discarded) + Share(w, many, Sender.Orphaned)
  {
    var w := Ends(setup, steps).value;
    TraceIsRun(setup, steps);
    QueuedEventsAreKept(setup.config, setup.unix, OpsOf(setup, steps));
    PayloadsAreLinked(setup, steps);
    SentOccurrences(w.trace.payloads, e);
    Sender.DeliveryConservation(w.mail, Occurrences(e));
  }

  /** The same for the counts: every evaluation is pending, or in the summary of a payload in flight,
      delivered, discarded or orphaned. */
  lemma {:induction false} EveryEvaluationIsCounted(
    setup: Setup, steps: seq<Step>, flag: string, v: Option<Variation>, x: Option<FlagVersion>)
    requires Ends(setup, steps).Some?
    ensures var w := Ends(setup, steps).value;
      var counts := (p: Batch) => PayloadTally(p, flag, v, x);
      Happened(OpsOf(setup, steps), flag, v, x) ==
        EventSpec.Pending(w.trace.state.features, flag, v, x) + InFlight(w, counts)
        + Share(w, counts, Sender.Delivered) + Share(w, counts, Sender.Discarded) + Share(w, counts, Sender.Orphaned)
  {
    var w := Ends(setup, steps).value;
    var counts := (p: Batch) => PayloadTally(p, flag, v, x);
    TraceIsRun(setup, steps);
    SummaryConservation(setup.config, setup.unix, OpsOf(setup, steps), flag, v, x);
    PayloadsAreLinked(setup, steps);
    EmittedCounts(w.trace.payloads, counts, flag, v, x);
    Sender.DeliveryConservation(w.mail, counts);
  }

  lemma {:induction false} EmittedCounts(
    ps: seq<Batch>, counts: Batch -> nat, flag: string, v: Option<Variation>, x: Option<FlagVersion>)
    requires forall p :: counts(p) == PayloadTally(p, flag, v, x)
    ensures Emitted(ps, flag, v, x) == Sender.AllEvents(ps, counts)
  {
    if ps != [] {
      EmittedCounts(ps[..|ps| - 1], counts, flag, v, x);
    }
  }
}
