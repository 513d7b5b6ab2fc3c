/** Start and end of a request: `start_tracer` and `shutdown_tracer` of src/core.cc, and the functions of
    src/sdk.cc that a PHP program calls in between. The module globals are the fields of one class; what the web
    server, the clock and the random generator supply are parameters, and so is the serialisation of a batch. */
module Core {
  import opened Prelude
  import opened Slots
  import opened Providers
  import opened MessageQueues
  import CurlHooks
  import SampleCounter
  import TraceContext

  datatype Config = Config(
    cliSapi: bool, cliEnabled: bool, enableCollect: bool,
    sampleRatioBased: int, maxTimeConsuming: int, attributes: seq<Pair>)

  /** The headers that come with a request; an absent one is empty. */
  datatype Incoming = Incoming(traceparent: string, baggage: string)

  ghost predicate Readable(incoming: Incoming) {
    incoming.traceparent != "" ==> TraceContext.WellFormed(incoming.traceparent)
  }

  /** The slot of a process right after `start_tracer`. */
  ghost function Started(slot: Slot, cli: bool, name: string, kind: Kind, draw: Draw, attributes: seq<Pair>,
                         incoming: Incoming, ratio: int, count: int): (r: Slot)
    requires ValidSlot(slot) && ValidDraw(draw) && Readable(incoming) && ratio != 0
    ensures Active(r)
  {
    var created := WithFirstSpan(Slots.Clean(slot, cli), name, kind, draw, attributes);
    var adopted := Slots.ParseTraceParent(created, incoming.traceparent, ratio, count);
    AddAllBaggageKeeps(adopted, TraceContext.ParseBaggage(incoming.baggage));
    Slots.ParseBaggage(adopted, incoming.baggage)
  }

  /** The batch as it is when `shutdown_tracer` decides about the export. */
  function Completed(slot: Slot, endTime: nat): (r: Slot)
    requires Active(slot)
    ensures Active(r)
  {
    Slots.OkEnd(slot, slot.first.value, endTime)
  }

  /** `opentelemetry_add_span`: a finished child span with a start time of the caller's. */
  function SpanAdded(slot: Slot, name: string, kind: Kind, draw: Draw, attributes: seq<Pair>, start: nat,
                     failure: Option<string>, endTime: nat): (r: Slot)
    requires Active(slot) && ValidDraw(draw)
    ensures Active(r)
  {
    var s := AddChild(slot, name, kind, draw, attributes);
    var i := |slot.batch.value|;
    assert s.batch.value[i] in s.batch.value;
    var t := ReplaceSpan(s, i, s.batch.value[i].(start := start));
    if failure.Some? then Slots.ErrorEnd(t, i, failure.value, endTime) else Slots.OkEnd(t, i, endTime)
  }

  /** `opentelemetry_set_sample_ratio_based`. Any other ratio than 0 and 1 applies the configured one, and only
      to a request without a `traceparent`. */
  function RatioSet(slot: Slot, ratioBased: int, hasTraceparent: bool, ratio: int, count: int): Slot
    requires ratio != 0
  {
    if ratioBased == 0 then slot.(sampled := false)
    else if ratioBased == 1 then slot.(sampled := true)
    else if !hasTraceparent && count % ratio == 0 then slot.(sampled := true)
    else slot
  }

  /** The queue after a message was offered to it, if it could be opened. */
  function AfterOffer(config: MessageQueues.Config, messages: seq<string>, message: string, opens: bool): seq<string> {
    if opens && Admit(config, messages, message) == Accepted then messages + [message] else messages
  }

  class Globals {
    const config: Config
    const queue: MessageQueue
    const curl: CurlHooks.CurlHook
    const serialize: (seq<Span>, seq<Pair>) -> string
    var provider: Provider?
    var isStartedCliTracer: bool

    ghost predicate Valid()
      reads this, provider, queue, curl
    {
      Sound() && (curl.hasProvider <==> provider != null) && (provider != null ==> provider.counter > 0)
    }

    ghost predicate Sound()
      reads this, provider, queue, curl
    {
      && config.sampleRatioBased != 0 && queue.Valid() && curl.Valid()
      && (provider != null ==> provider.cli == config.cliSapi && provider.counter >= 0)
      && (provider != null ==> forall p :: ValidSlot(provider.SlotAt(p)))
    }

    /** What the current provider, if any, holds for a process. */
    ghost function SlotAt(p: int): Slot
      reads this, provider
    {
      if provider == null then EMPTY else provider.SlotAt(p)
    }

    /** A provider is made for a request that it counts at once, so without one, and only then, the counter
        stands at 0. */
    ghost function Count(): (count: int)
      reads this, provider, queue, curl
      ensures Valid() ==> (count == 0 <==> provider == null)
    {
      if provider == null then 0 else provider.counter
    }

    /** On the command line, tracing has to be enabled and started by the program. */
    ghost predicate Switched()
      reads this
    {
      config.cliSapi ==> config.cliEnabled && isStartedCliTracer
    }

    constructor (config: Config, queue: MessageQueue, curl: CurlHooks.CurlHook,
                 serialize: (seq<Span>, seq<Pair>) -> string)
      requires config.sampleRatioBased != 0 && queue.Valid() && curl.Valid() && !curl.hasProvider
      ensures Valid() && this.config == config && this.queue == queue && this.curl == curl
      ensures this.serialize == serialize && provider == null && !isStartedCliTracer
    {
      this.config, this.queue, this.curl, this.serialize := config, queue, curl, serialize;
      provider, isStartedCliTracer := null, false;
    }

    method StartTracer(ppid: int, incoming: Incoming, kind: Kind, name: string, draw: Draw, staleRangeError: bool)
      requires Valid() && ValidDraw(draw) && Readable(incoming)
      modifies this, provider, curl
      ensures Valid() && isStartedCliTracer == old(isStartedCliTracer)
      ensures !Switched() ==> provider == old(provider) && curl.history == old(curl.history) &&
                              forall p :: SlotAt(p) == old(SlotAt(p))
      ensures curl.history == old(curl.history) <==> config.cliSapi && !(config.cliEnabled && isStartedCliTracer)
      ensures Switched() ==>
                var effective := if config.cliSapi && kind == Unspecified then Internal else kind;
                && provider != null && (old(provider) != null ==> provider == old(provider))
                && (old(provider) == null ==> fresh(provider))
                && provider.counter == SampleCounter.Next(old(Count()))
                && SlotAt(ppid) == Started(old(SlotAt(ppid)), config.cliSapi, name, effective, draw,
                                           config.attributes, incoming, config.sampleRatioBased, provider.counter)
                && (config.cliSapi ==> forall p :: p != ppid ==> SlotAt(p) == old(SlotAt(p)))
                && curl.history == old(curl.history) + [CurlHooks.Emptied]
    {
      if (config.cliSapi && !config.cliEnabled) || (config.cliSapi && config.cliEnabled && !isStartedCliTracer) {
        return;
      }
      hide Started, ValidDraw, Readable, CurlHooks.CurlHook.Valid, MessageQueue.Valid;
      curl.Empty(true);
      var effective := kind;
      if config.cliSapi {
        if kind == Unspecified {
          effective := Internal;
        }
      }
      Launch(ppid, incoming, effective, name, draw, staleRangeError);
    }

    /** Begins a request at the provider, which is created if there is none. */
    method Launch(ppid: int, incoming: Incoming, kind: Kind, name: string, draw: Draw, staleRangeError: bool)
      requires Sound() && ValidDraw(draw) && Readable(incoming)
      modifies `provider, provider
      ensures Sound() && provider != null
      ensures if old(provider) == null then fresh(provider) else provider == old(provider)
      ensures provider.counter == SampleCounter.Next(old(Count()))
      ensures SlotAt(ppid) == Started(old(SlotAt(ppid)), config.cliSapi, name, kind, draw, config.attributes, incoming,
                                      config.sampleRatioBased, provider.counter)
      ensures config.cliSapi ==> forall p :: p != ppid ==> SlotAt(p) == old(SlotAt(p))
    {
      hide Started, ValidDraw, Readable, CurlHooks.CurlHook.Valid, MessageQueue.Valid;
      EnsureProvider();
      Begin(ppid, incoming, kind, name, draw, staleRangeError);
    }

    method EnsureProvider()
      requires Sound()
      modifies `provider
      ensures Sound() && provider != null && Count() == old(Count())
      ensures old(provider) != null ==> provider == old(provider)
      ensures old(provider) == null ==> fresh(provider)
      ensures forall p :: SlotAt(p) == old(SlotAt(p))
    {
      if provider == null {
        provider := new Provider(config.cliSapi);
      }
    }

    /** The provider forgets the previous request, counts the new one and opens it. */
    method Begin(ppid: int, incoming: Incoming, kind: Kind, name: string, draw: Draw, staleRangeError: bool)
      requires provider != null && ValidSlot(provider.SlotAt(ppid)) && ValidDraw(draw) && Readable(incoming)
      requires config.sampleRatioBased != 0
      modifies provider
      ensures provider.counter == SampleCounter.Next(old(provider.counter))
      ensures provider.SlotAt(ppid) == Started(old(provider.SlotAt(ppid)), provider.cli, name, kind, draw,
                                               config.attributes, incoming, config.sampleRatioBased, provider.counter)
      ensures provider.cli ==> forall p :: p != ppid ==> provider.SlotAt(p) == old(provider.SlotAt(p))
      ensures !provider.cli ==> forall p :: provider.SlotAt(p) == provider.SlotAt(ppid)
    {
      provider.Clean(ppid);
      provider.Increase();
      Open(ppid, incoming, kind, name, draw, staleRangeError);
    }

    /** The first span, and what it takes over from the caller. */
    method Open(ppid: int, incoming: Incoming, kind: Kind, name: string, draw: Draw, staleRangeError: bool)
      requires provider != null && ValidSlot(provider.SlotAt(ppid)) && ValidDraw(draw) && Readable(incoming)
      requires config.sampleRatioBased != 0
      modifies provider
      ensures provider.OnlyAt(ppid)
      ensures Active(provider.SlotAt(ppid))
      ensures provider.SlotAt(ppid) == Slots.ParseBaggage(
                Slots.ParseTraceParent(
                  WithFirstSpan(old(provider.SlotAt(ppid)), name, kind, draw, config.attributes),
                  incoming.traceparent, config.sampleRatioBased, provider.counter),
                incoming.baggage)
    {
      var _ := provider.CreateFirstSpan(ppid, name, kind, draw, config.attributes);
      provider.ParseTraceParent(ppid, incoming.traceparent, config.sampleRatioBased, staleRangeError);
      AddAllBaggageKeeps(provider.SlotAt(ppid), TraceContext.ParseBaggage(incoming.baggage));
      provider.ParseBaggage(ppid, incoming.baggage);
    }

    /** Ends the request. The result is the batch that was offered to the queue, if any. The queue may fail to
        open. */
    method ShutdownTracer(ppid: int, endTime: nat, now: nat, opens: bool) returns (offered: Option<seq<Span>>)
      requires Valid() && (Switched() ==> provider != null)
      modifies this, provider, queue, curl
      ensures Valid() && !isStartedCliTracer
      ensures var slot := old(SlotAt(ppid));
        offered == if old(Switched()) && slot.first.Some? && config.enableCollect
                      && Sampled(Completed(slot, endTime), now, config.maxTimeConsuming)
                   then Completed(slot, endTime).batch else None
      ensures queue.messages ==
              if offered.None? then old(queue.messages)
              else AfterOffer(queue.config, old(queue.messages),
                              serialize(offered.value, old(SlotAt(ppid)).resource.value), opens)
      ensures offered.Some? ==>
                var message := serialize(offered.value, old(SlotAt(ppid)).resource.value);
                queue.messages ==
                if opens && |message| <= queue.config.maxSize && |old(queue.messages)| < queue.config.maxLength
                then old(queue.messages) + [message] else old(queue.messages)
      ensures !old(Switched()) || old(SlotAt(ppid)).first.None? ==>
                provider == old(provider) && forall p :: SlotAt(p) == old(SlotAt(p))
      ensures old(Switched()) && old(SlotAt(ppid)).first.Some? ==>
                if config.cliSapi then provider == null
                else provider == old(provider) && SlotAt(ppid) == Slots.Clean(old(SlotAt(ppid)), false)
      ensures curl.history == old(curl.history) + if old(Switched()) then [CurlHooks.Emptied] else []
      ensures curl.history == old(curl.history) <==> config.cliSapi && !(config.cliEnabled && old(isStartedCliTracer))
      ensures provider != null ==> provider.counter == old(Count())
      ensures config.cliSapi && old(Switched()) ==> (provider == null <==> old(SlotAt(ppid)).first.Some?)
    {
      offered := None;
      if config.cliSapi && (!config.cliEnabled || !isStartedCliTracer) {
        isStartedCliTracer := false;
        return;
      }
      hide CurlHooks.CurlHook.Valid, MessageQueue.Valid;
      var first := provider.FirstOneSpan(ppid);
      if first.Some? {
        offered := Finish(ppid, endTime, now, opens);
        if config.cliSapi {
          provider := null;
        }
      }
      isStartedCliTracer := false;
      curl.Empty(provider != null);
    }

    /** Ends the first span, offers the batch if it is to be collected, and forgets it. */
    method Finish(ppid: int, endTime: nat, now: nat, opens: bool) returns (offered: Option<seq<Span>>)
      requires queue.Valid() && provider != null && Active(provider.SlotAt(ppid))
      modifies provider, queue
      ensures queue.Valid() && provider.OnlyAt(ppid)
      ensures provider.SlotAt(ppid) == Slots.Clean(Completed(old(provider.SlotAt(ppid)), endTime), provider.cli)
      ensures var slot := Completed(old(provider.SlotAt(ppid)), endTime);
        && offered == (if config.enableCollect && Sampled(slot, now, config.maxTimeConsuming) then slot.batch else None)
        && queue.messages ==
           if offered.None? then old(queue.messages)
           else AfterOffer(queue.config, old(queue.messages), serialize(offered.value, slot.resource.value), opens)
    {
      hide Slots.Conversions.Millis, Slots.OkEnd, Sampled;
      offered := None;
      var first := provider.FirstOneSpan(ppid);
      provider.OkEnd(ppid, first.value, endTime);
      assert provider.SlotAt(ppid) == Completed(old(provider.SlotAt(ppid)), endTime);
      provider.GetTracer(ppid, config.attributes);
      var resource := provider.GetResource(ppid);
      if config.enableCollect {
        var sampled := provider.IsSampled(ppid, now, config.maxTimeConsuming);
        if sampled {
          offered := ExporterOpenTelemetry(ppid, resource.value, opens);
        }
      }
      provider.Clean(ppid);
    }

    /** Offers the serialised batch; a queue that does not open or does not accept it is only logged. */
    method ExporterOpenTelemetry(ppid: int, resource: seq<Pair>, opens: bool) returns (offered: Option<seq<Span>>)
      requires queue.Valid() && provider != null && provider.SlotAt(ppid).batch.Some?
      modifies queue
      ensures queue.Valid() && offered == provider.SlotAt(ppid).batch
      ensures queue.messages ==
              AfterOffer(queue.config, old(queue.messages), serialize(offered.value, resource), opens)
      ensures var message := serialize(offered.value, resource);
        queue.messages ==
        if opens && |message| <= queue.config.maxSize && |old(queue.messages)| < queue.config.maxLength
        then old(queue.messages) + [message] else old(queue.messages)
    {
      offered := provider.GetRequest(ppid);
      if opens {
        var _ := queue.TrySend(serialize(offered.value, resource));
      }
    }

    method StartCliTracer(ppid: int, incoming: Incoming, kind: Kind, name: string, draw: Draw, staleRangeError: bool)
      returns (ok: bool)
      requires Valid() && ValidDraw(draw) && Readable(incoming)
      modifies this, provider, curl
      ensures Valid()
      ensures ok <==> config.cliSapi && config.cliEnabled && !old(isStartedCliTracer)
      ensures !ok ==> provider == old(provider) && isStartedCliTracer == old(isStartedCliTracer) &&
                      curl.history == old(curl.history) && forall p :: SlotAt(p) == old(SlotAt(p))
      ensures ok ==>
                && isStartedCliTracer && provider != null && provider.counter == SampleCounter.Next(old(Count()))
                && SlotAt(ppid) == Started(old(SlotAt(ppid)), true, name,
                                           if kind == Unspecified then Internal else kind, draw, config.attributes,
                                           incoming, config.sampleRatioBased, provider.counter)
                && (if old(provider) == null then fresh(provider) else provider == old(provider))
                && (forall p :: p != ppid ==> SlotAt(p) == old(SlotAt(p)))
                && curl.history == old(curl.history) + [CurlHooks.Emptied]
    {
      if !config.cliSapi || !config.cliEnabled || isStartedCliTracer {
        return false;
      }
      isStartedCliTracer := true;
      StartTracer(ppid, incoming, kind, name, draw, staleRangeError);
      return true;
    }

    method AddSpan(ppid: int, name: string, kind: Kind, draw: Draw, start: nat, failure: Option<string>, endTime: nat)
      returns (ok: bool)
      requires Valid() && ValidDraw(draw) && (provider != null ==> Active(provider.SlotAt(ppid)))
      modifies provider
      ensures Valid()
      ensures ok <==> provider != null
      ensures ok ==>
                && provider.OnlyAt(ppid)
                && SlotAt(ppid) ==
                   SpanAdded(old(SlotAt(ppid)), name, kind, draw, config.attributes, start, failure, endTime)
    {
      hide CurlHooks.CurlHook.Valid, MessageQueue.Valid, SpanAdded;
      if provider == null {
        return false;
      }
      AddFinished(ppid, name, kind, draw, start, failure, endTime);
      return true;
    }

    /** The new span, with the start that the caller gives, is ended at once. */
    method AddFinished(ppid: int, name: string, kind: Kind, draw: Draw, start: nat, failure: Option<string>,
                       endTime: nat)
      requires provider != null && ValidDraw(draw) && Active(provider.SlotAt(ppid))
      modifies provider
      ensures provider.OnlyAt(ppid)
      ensures provider.SlotAt(ppid) ==
              SpanAdded(old(provider.SlotAt(ppid)), name, kind, draw, config.attributes, start, failure, endTime)
    {
      var i := CreateChildSpan(provider, ppid, name, kind, draw, config.attributes);
      var span := provider.GetSpan(ppid, i);
      assert span in provider.SlotAt(ppid).batch.value;
      provider.SetSpan(ppid, i, span.(start := start));
      if failure.Some? {
        provider.ErrorEnd(ppid, i, failure.value, endTime);
      } else {
        provider.OkEnd(ppid, i, endTime);
      }
    }

    /** A recorded `curl_exec` by the program. */
    method CurlExec(ppid: int, h: int, name: string, draw: Draw, now: nat, order: seq<string>,
                    response: CurlHooks.Response, errorTime: nat, endTime: nat) returns (passed: seq<string>)
      requires Valid() && provider != null && Active(provider.SlotAt(ppid)) && ValidDraw(draw)
      requires TraceContext.IterationOrder(provider.SlotAt(ppid).baggage, order)
      requires h in curl.curlHeader ==> curl.curlHeader[h].Array?
      modifies provider, curl
      ensures Valid() && provider.OnlyAt(ppid)
      ensures SlotAt(ppid) == CurlHooks.AfterRequest(old(SlotAt(ppid)), name, draw, config.attributes, response,
                                                     errorTime, endTime)
      ensures passed == CurlHooks.Base(old(curl.history), h) +
                        [CurlHooks.TraceParentLine(old(SlotAt(ppid)), draw, now, config.maxTimeConsuming),
                         CurlHooks.BAGGAGE + TraceContext.FormatBaggage(old(SlotAt(ppid)).baggage, order)]
    {
      hide CurlHooks.AfterRequest, CurlHooks.TraceParentLine, CurlHooks.CurlHook.Valid, MessageQueue.Valid;
      hide TraceContext.FormatBaggage, TraceContext.IterationOrder, CurlHooks.Base;
      RequestKeepsSlot(provider.SlotAt(ppid), name, draw, config.attributes, response, errorTime, endTime);
      passed := curl.Exec(provider, ppid, h, name, draw, config.attributes, now, config.maxTimeConsuming, order,
                          response, errorTime, endTime);
    }

    method SetSampleRatioBased(ppid: int, ratioBased: int, httpTraceparent: string)
      requires Valid()
      modifies provider
      ensures Valid()
      ensures provider != null ==>
                && provider.OnlyAt(ppid)
                && SlotAt(ppid) == RatioSet(old(SlotAt(ppid)), ratioBased, httpTraceparent != "",
                                            config.sampleRatioBased, Count())
    {
      if provider != null {
        if ratioBased == 0 {
          provider.SetSampled(ppid, false);
        } else if ratioBased == 1 {
          provider.SetSampled(ppid, true);
        } else {
          if (httpTraceparent == "" && provider.counter % config.sampleRatioBased == 0) ||
             (httpTraceparent != "" && ratioBased == 1) {
            provider.SetSampled(ppid, true);
          }
        }
      }
    }
  }

  lemma RequestKeepsSlot(slot: Slot, name: string, draw: Draw, attributes: seq<Pair>, response: CurlHooks.Response,
                         errorTime: nat, endTime: nat)
    requires Active(slot) && ValidDraw(draw)
    ensures Active(CurlHooks.AfterRequest(slot, name, draw, attributes, response, errorTime, endTime))
  {
  }
}
