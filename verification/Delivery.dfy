/** poll, done and resetMemory of src/events.c, over the event processor they take payloads from. */
module Delivery {
  import opened Basics
  import opened DeliverySpec
  import opened EventProcessor
  import EventSpec
  import Pipeline

  type Payload = seq<EventSpec.Entry>

  class Analytics {
    const processor: Processor
    const flushInterval: real
    var active: bool
    var lastFlush: real
    var buffer: Option<Payload>
    var failureTime: nat
    var payloadId: string
    var shouldFlush: bool               // of the client
    ghost var parcels: seq<Parcel<Payload>>
    ghost var log: seq<(string, Payload)>

    ghost function Value(): Mail<Payload>
      reads this
    {
      Mail(Context(active, lastFlush, buffer, failureTime, payloadId), shouldFlush, parcels, log)
    }

    /** Processor and sender together. */
    ghost function World(): Pipeline.World
      reads this, processor, processor.userKeys
    {
      Pipeline.World(processor.History(), Value())
    }

    ghost function Setup(): Pipeline.Setup {
      Pipeline.Setup(processor.config, flushInterval, 0.0, 0.0)
    }

    /** The delivery invariant, and no payload of the processor is unaccounted for. */
    ghost predicate Valid()
      reads this, processor, processor.userKeys
    {
      Inv(Value()) && Payloads(parcels) == processor.payloads
    }

    /** LDi_constructAnalytics. */
    constructor (processor: Processor, flushInterval: real, now: real)
      requires processor.payloads == []
      ensures Valid() && Value() == Start(now) && this.processor == processor && this.flushInterval == flushInterval
    {
      this.processor, this.flushInterval := processor, flushInterval;
      active, lastFlush, buffer, failureTime, payloadId, shouldFlush := false, now, None, 0, "", false;
      parcels, log := [], [];
    }

    /** resetMemory. */
    method ResetMemory()
      modifies this`buffer, this`failureTime
      ensures Value().context == Reset(old(Value().context))
    {
      buffer := None;
      failureTime := 0;
    }

    /** done. */
    method RequestDone(now: real, responseCode: int)
      requires Valid() && Enabled(Value(), Done(now, true))
      modifies this
      ensures Valid() && Value() == Next(flushInterval, old(Value()),
        Done(now, responseCode == 200 || responseCode == 202))
    {
      var success := responseCode == 200 || responseCode == 202;
      DoneKeepsInv(Value(), now, success);
      DoneAddsNone(Value(), now, success);
      if success {
        Delivered(now);
      } else {
        Failed(now);
      }
    }

    /** done after success. */
    method Delivered(now: real)
      modifies this`active, this`shouldFlush, this`lastFlush, this`parcels, this`buffer, this`failureTime
      ensures Value() == Succeeded(old(Value()), now)
    {
      active, shouldFlush, lastFlush := false, false, now;
      parcels := Marked(parcels, Fate.Delivered);
      ResetMemory();
    }

    /** done after a failure. */
    method Failed(now: real)
      requires now >= 0.0
      modifies this`active, this`parcels, this`buffer, this`failureTime
      ensures Value() == FailedAt(old(Value()), now)
    {
      active := false;
      if failureTime != 0 {
        parcels := Marked(parcels, Discarded);
        ResetMemory();
      } else {
        failureTime := now.Floor;
        parcels := if failureTime == 0 then Marked(parcels, Orphaned) else parcels;
      }
    }

    /** The end of poll: the request carries the buffer under the payload identifier. */
    method Send() returns (request: (string, Payload))
      requires buffer.Some?
      modifies this`active, this`log
      ensures active && request == (payloadId, buffer.value) && log == old(log) + [request]
    {
      request := (payloadId, buffer.value);
      log := log + [request];
      active := true;
    }

    /** poll after a failure: the same buffer again. */
    method SendAgain() returns (request: (string, Payload))
      requires Valid() && !active && failureTime != 0
      modifies this`active, this`log, this`parcels
      ensures Value() == Retried(old(Value())) && log == old(log) + [request]
      ensures Payloads(parcels) == old(Payloads(parcels))
    {
      RetriedAddsNone(Value());
      parcels := Resent(parcels);
      request := Send();
    }

    /** poll after a failure. */
    method Retry(now: real, ready: bool) returns (request: Option<(string, Payload)>)
      requires Valid() && !active && failureTime != 0
      modifies this`active, this`log, this`parcels
      ensures Value() == if WantsRetry(old(Value()).context, now) && ready then Retried(old(Value())) else old(Value())
      ensures log == old(log) + if request.Some? then [request.value] else []
      ensures Payloads(parcels) == old(Payloads(parcels))
    {
      request := None;
      if now > Deadline(failureTime) as real && ready {
        var again := SendAgain();
        request := Some(again);
      }
    }

    /** poll with events to send: a new buffer and identifier. */
    method SendNew(events: Payload, uuid: string) returns (request: (string, Payload))
      modifies this`active, this`log, this`parcels, this`buffer, this`payloadId
      ensures Value() == Taken(old(Value()), events, uuid) && log == old(log) + [request]
      ensures Payloads(parcels) == old(Payloads(parcels)) + [events]
    {
      OneMorePayload(parcels, Parcel(events, uuid, 1, Pending));
      buffer, payloadId := Some(events), uuid;
      parcels := parcels + [Parcel(events, uuid, 1, Pending)];
      request := Send();
    }

    /** poll with events to send whose request cannot be set up. */
    method KeepUnsent(events: Payload, uuid: string)
      modifies this`parcels, this`buffer, this`payloadId
      ensures Value() == Stranded(old(Value()), events, uuid)
      ensures Payloads(parcels) == old(Payloads(parcels)) + [events]
    {
      OneMorePayload(parcels, Parcel(events, uuid, 0, Orphaned));
      buffer, payloadId := Some(events), uuid;
      parcels := parcels + [Parcel(events, uuid, 0, Orphaned)];
    }

    /** poll with events to send. */
    method TakeNew(events: Payload, uuid: string, ready: bool) returns (request: Option<(string, Payload)>)
      modifies this`active, this`log, this`parcels, this`buffer, this`payloadId
      ensures Value() == if ready then Taken(old(Value()), events, uuid) else Stranded(old(Value()), events, uuid)
      ensures Payloads(parcels) == old(Payloads(parcels)) + [events]
      ensures log == old(log) + if request.Some? then [request.value] else []
    {
      if ready {
        var first := SendNew(events, uuid);
        request := Some(first);
      } else {
        KeepUnsent(events, uuid);
        request := None;
      }
    }

    /** poll when a payload is wanted. */
    method Bundle(unix: real, uuid: string, ready: bool) returns (request: Option<(string, Payload)>)
      requires Valid() && !active && failureTime == 0
      modifies this`active, this`log, this`parcels, this`buffer, this`payloadId, processor
      ensures processor.History() == EventSpec.Bundled(old(processor.History()), unix)
      ensures Payloads(parcels) == processor.payloads
      ensures log == old(log) + if request.Some? then [request.value] else []
      ensures var events := EventSpec.Payload(old(processor.Value()), unix);
        Value() == if events.None? then old(Value())
          else if ready then Taken(old(Value()), events.value, uuid) else Stranded(old(Value()), events.value, uuid)
    {
      request := None;
      var events := processor.BundleEventPayload(unix);
      if events.Some? {
        request := TakeNew(events.value, uuid, ready);
      }
    }

    /** poll at the monotonic time `now`; `uuid` is what the identifier holds if a payload is taken, `unix` dates
        its summary, `ready` is whether identifier and request could be set up. One step of the pipeline. */
    method PollEvents(now: real, unix: real, uuid: string, ready: bool) returns (request: Option<(string, Payload)>)
      requires Valid() && Enabled(Value(), Poll(now, None, uuid, ready))
      modifies this, processor
      ensures Valid() && World() == Pipeline.After(Setup(), old(World()), Pipeline.Poll(now, unix, uuid, ready))
      ensures log == old(log) + if request.Some? then [request.value] else []
    {
      PolledKeepsInv(Value(), flushInterval, now, EventSpec.Payload(processor.Value(), unix), uuid, ready);
      Pipeline.PollParts(Setup(), World(), now, unix, uuid, ready);
      request := None;
      if active {
        return;
      }
      if failureTime != 0 {
        request := Retry(now, ready);
        return;
      }
      if !shouldFlush && now - lastFlush < flushInterval {
        return;
      }
      request := Bundle(unix, uuid, ready);
    }
  }
}
