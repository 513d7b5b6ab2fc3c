/** The Provider class of src/provider.cc, in both storage forms: single fields for a process that serves one
    request at a time, and maps keyed by process id for the command line. Clock readings, drawn identifiers, the
    process id and the configuration are parameters; the configured resource attributes come as a list. */
module Providers {
  import opened Prelude
  import opened Slots
  import TraceContext
  import Explode
  import Hex
  import SampleCounter

  class Provider {
    const cli: bool
    var counter: int
    var request: Option<seq<Span>>
    var resource: Option<seq<Pair>>
    var firstSpan: Option<nat>
    var isSampledFlag: bool
    var baggage: map<string, string>
    var redisException: string
    var requests: map<int, seq<Span>>
    var resources: map<int, Option<seq<Pair>>>
    var firstSpans: map<int, nat>
    var sampledMap: map<int, bool>
    var baggageMap: map<int, map<string, string>>
    var redisExceptions: map<int, string>

    /** What the provider holds for a process. */
    ghost function SlotAt(p: int): Slot
      reads this
    {
      if !cli then Slot(request, resource, firstSpan, isSampledFlag, baggage, redisException)
      else
        Slot(if p in requests then Some(requests[p]) else None,
             if p in resources then resources[p] else None,
             if p in firstSpans then Some(firstSpans[p]) else None,
             p in sampledMap && sampledMap[p],
             if p in baggageMap then baggageMap[p] else map[],
             if p in redisExceptions then redisExceptions[p] else "")
    }

    /** Nothing has changed for the other processes, nor in the counter. */
    twostate predicate OnlyAt(p: int)
      reads this
    {
      counter == old(counter) && (cli ==> forall q :: q != p ==> SlotAt(q) == old(SlotAt(q)))
    }

    constructor (cli: bool)
      ensures this.cli == cli && counter == 0 && forall p :: SlotAt(p) == EMPTY
    {
      this.cli := cli;
      counter := 0;
      request, resource, firstSpan, isSampledFlag, baggage, redisException := None, None, None, false, map[], "";
      requests, resources, firstSpans, sampledMap := map[], map[], map[], map[];
      baggageMap, redisExceptions := map[], map[];
    }

    method GetRequest(ppid: int) returns (batch: Option<seq<Span>>)
      ensures batch == SlotAt(ppid).batch
    {
      if !cli {
        return request;
      }
      if ppid in requests {
        return Some(requests[ppid]);
      }
      return None;
    }

    /** The lookup leaves a null pointer behind for a process without a resource. */
    method GetResource(ppid: int) returns (attributes: Option<seq<Pair>>)
      modifies this
      ensures SlotAt(ppid) == old(SlotAt(ppid)) && OnlyAt(ppid)
      ensures attributes == SlotAt(ppid).resource
    {
      if !cli {
        return resource;
      }
      if ppid !in resources {
        resources := resources[ppid := None];
      }
      return resources[ppid];
    }

    method GetTracer(ppid: int, attributes: seq<Pair>)
      modifies this
      ensures SlotAt(ppid) == WithTracer(old(SlotAt(ppid)), attributes) && OnlyAt(ppid)
    {
      if !cli {
        if request.None? {
          request := Some([]);
          resource := Some(attributes);
        }
      } else {
        if ppid in requests {
          return;
        }
        requests := requests[ppid := []];
        resources := resources[ppid := Some(attributes)];
      }
    }

    method FirstOneSpan(ppid: int) returns (i: Option<nat>)
      ensures i == SlotAt(ppid).first
    {
      if !cli {
        return firstSpan;
      }
      if ppid in firstSpans {
        return Some(firstSpans[ppid]);
      }
      return None;
    }

    /** Reading a span through its pointer. */
    method GetSpan(ppid: int, i: nat) returns (span: Span)
      requires SlotAt(ppid).batch.Some? && i < |SlotAt(ppid).batch.value|
      ensures span == SlotAt(ppid).batch.value[i]
    {
      span := if !cli then request.value[i] else requests[ppid][i];
    }

    /** Writing a span through its pointer. */
    method SetSpan(ppid: int, i: nat, span: Span)
      requires ValidSlot(SlotAt(ppid)) && ValidSpan(span)
      requires SlotAt(ppid).batch.Some? && i < |SlotAt(ppid).batch.value|
      modifies this
      ensures SlotAt(ppid) == ReplaceSpan(old(SlotAt(ppid)), i, span) && OnlyAt(ppid)
    {
      if !cli {
        request := Some(request.value[i := span]);
      } else {
        requests := requests[ppid := requests[ppid][i := span]];
      }
    }

    method AddSpans(ppid: int, span: Span) returns (i: nat)
      requires SlotAt(ppid).batch.Some?
      modifies this
      ensures var slot := old(SlotAt(ppid));
        SlotAt(ppid) == slot.(batch := Some(slot.batch.value + [span])) && i == |slot.batch.value|
      ensures OnlyAt(ppid)
    {
      if !cli {
        i := |request.value|;
        request := Some(request.value + [span]);
      } else {
        i := |requests[ppid]|;
        requests := requests[ppid := requests[ppid] + [span]];
      }
    }

    method CreateSpan(ppid: int, name: string, kind: Kind, draw: Draw, attributes: seq<Pair>) returns (i: nat)
      requires ValidSlot(SlotAt(ppid)) && ValidDraw(draw)
      modifies this
      ensures SlotAt(ppid) == WithSpan(old(SlotAt(ppid)), name, kind, draw, attributes) && OnlyAt(ppid)
      ensures i == |SlotAt(ppid).batch.value| - 1
    {
      GetTracer(ppid, attributes);
      var first := FirstOneSpan(ppid);
      var traceId := draw.traceId;
      if first.Some? {
        var span := GetSpan(ppid, first.value);
        traceId := span.traceId;
      }
      i := AddSpans(ppid, Span(traceId, draw.spanId, [], name, kind, draw.now, 0, Unset));
    }

    method CreateFirstSpan(ppid: int, name: string, kind: Kind, draw: Draw, attributes: seq<Pair>) returns (i: nat)
      requires ValidSlot(SlotAt(ppid)) && ValidDraw(draw)
      modifies this
      ensures SlotAt(ppid) == WithFirstSpan(old(SlotAt(ppid)), name, kind, draw, attributes) && OnlyAt(ppid)
      ensures i == |SlotAt(ppid).batch.value| - 1
    {
      i := CreateSpan(ppid, name, kind, draw, attributes);
      if !cli {
        firstSpan := Some(i);
      } else {
        firstSpans := firstSpans[ppid := i];
      }
    }

    method IsSampled(ppid: int, now: nat, maxTimeConsuming: int) returns (decision: bool)
      requires SlotAt(ppid).sampled || Active(SlotAt(ppid))
      ensures decision == Sampled(SlotAt(ppid), now, maxTimeConsuming)
      ensures var slot := SlotAt(ppid);
        Active(slot) && FirstSpan(slot).start <= now < FirstSpan(slot).start + 0x0020_0000_0000_0000 &&
        0 <= maxTimeConsuming < 0x1_0000_0000_0000_0000 ==>
          (decision <==> slot.sampled || (now - FirstSpan(slot).start) / 1_000_000 >= maxTimeConsuming)
    {
      ghost var slot := SlotAt(ppid);
      if Active(slot) && FirstSpan(slot).start <= now < FirstSpan(slot).start + 0x0020_0000_0000_0000 &&
         0 <= maxTimeConsuming < 0x1_0000_0000_0000_0000 {
        SampledMeaning(slot, now, maxTimeConsuming);
      }
      hide Slots.Conversions.Millis;
      if !cli {
        if isSampledFlag {
          return true;
        }
      } else {
        if ppid in sampledMap && sampledMap[ppid] {
          return true;
        }
      }
      var first := FirstOneSpan(ppid);
      var span := GetSpan(ppid, first.value);
      var timeConsuming := (now - span.start) % UINT64;
      return Slots.Conversions.Millis(timeConsuming) >= maxTimeConsuming % UINT64;
    }

    method SetSampled(ppid: int, sampled: bool)
      modifies this
      ensures SlotAt(ppid) == old(SlotAt(ppid)).(sampled := sampled) && OnlyAt(ppid)
    {
      if !cli {
        isSampledFlag := sampled;
      } else {
        sampledMap := sampledMap[ppid := sampled];
      }
    }

    method Clean(ppid: int)
      modifies this
      ensures SlotAt(ppid) == Slots.Clean(old(SlotAt(ppid)), cli) && OnlyAt(ppid)
    {
      if !cli {
        if request.Some? {
          firstSpan := None;
          request := None;
          isSampledFlag := false;
          baggage := map[];
          redisException := "";
        }
      } else {
        if ppid in requests {
          EraseRequest(ppid);
        }
        EraseExtras(ppid);
      }
    }

    /** The erasures for a process with a batch. */
    method EraseRequest(ppid: int)
      requires cli
      modifies `sampledMap, `firstSpans, `requests
      ensures SlotAt(ppid) == old(SlotAt(ppid)).(batch := None, first := None, sampled := false)
      ensures OnlyAt(ppid)
    {
      sampledMap := sampledMap - {ppid};
      firstSpans := firstSpans - {ppid};
      requests := requests - {ppid};
    }

    /** The erasures for every process. */
    method EraseExtras(ppid: int)
      requires cli
      modifies `baggageMap, `redisExceptions
      ensures SlotAt(ppid) == old(SlotAt(ppid)).(baggage := map[], redisException := "") && OnlyAt(ppid)
    {
      if ppid in baggageMap {
        baggageMap := baggageMap[ppid := map[]];
      }
      if ppid in redisExceptions {
        redisExceptions := redisExceptions - {ppid};
      }
    }

    method AddBaggage(ppid: int, key: string, value: string)
      requires SlotAt(ppid).resource.Some?
      modifies this
      ensures SlotAt(ppid) == Slots.AddBaggage(old(SlotAt(ppid)), key, value) && OnlyAt(ppid)
    {
      if !cli {
        baggage := baggage[key := value];
        resource := Some(resource.value + [(key, value)]);
      } else {
        if ppid !in baggageMap {
          baggageMap := baggageMap[ppid := map[]];
        }
        baggageMap := baggageMap[ppid := baggageMap[ppid][key := value]];
        resources := resources[ppid := Some(resources[ppid].value + [(key, value)])];
      }
    }

    /** The lookup creates an empty map for a process without baggage. */
    method GetBaggage(ppid: int) returns (m: map<string, string>)
      modifies this
      ensures SlotAt(ppid) == old(SlotAt(ppid)) && OnlyAt(ppid)
      ensures m == SlotAt(ppid).baggage
    {
      if !cli {
        return baggage;
      }
      if ppid !in baggageMap {
        baggageMap := baggageMap[ppid := map[]];
      }
      return baggageMap[ppid];
    }

    method ParseTraceParent(ppid: int, traceparent: string, ratio: int, staleRangeError: bool)
      requires Active(SlotAt(ppid)) && ratio != 0
      requires traceparent != "" ==> TraceContext.WellFormed(traceparent)
      modifies this
      ensures SlotAt(ppid) == Slots.ParseTraceParent(old(SlotAt(ppid)), traceparent, ratio, counter) && OnlyAt(ppid)
    {
      if traceparent != "" {
        var kv := Explode.Explode("-", traceparent);
        if |kv| == 4 {
          var first := FirstOneSpan(ppid);
          var span := GetSpan(ppid, first.value);
          assert ValidSpan(span) by { assert span == FirstSpan(SlotAt(ppid)); }
          var traceId := Hex.Decode(kv[1], staleRangeError);
          var parentId := Hex.Decode(kv[2], staleRangeError);
          assert TraceContext.ParseTraceParent(traceparent) == Some(TraceContext.FromFields(kv));
          SetSpan(ppid, first.value, span.(traceId := traceId[..TraceContext.TRACE_ID_BYTES],
                                           parentId := parentId[..TraceContext.SPAN_ID_BYTES]));
          SetSampled(ppid, kv[3] == TraceContext.SAMPLED_FLAG);
        }
      } else {
        if ratio == 1 || counter % ratio == 0 {
          SetSampled(ppid, true);
        }
      }
    }

    method ParseBaggage(ppid: int, tracebaggage: string)
      requires ValidSlot(SlotAt(ppid)) && SlotAt(ppid).resource.Some?
      modifies this
      ensures SlotAt(ppid) == Slots.ParseBaggage(old(SlotAt(ppid)), tracebaggage) && OnlyAt(ppid)
    {
      hide AddAllBaggage, TraceContext.Pairs;
      NoMorePairs(SlotAt(ppid));
      if tracebaggage != "" {
        ghost var start := SlotAt(ppid);
        var items := Explode.Explode(",", tracebaggage);
        assert items[0..] == items;
        for n := 0 to |items|
          invariant SlotAt(ppid).resource.Some? && OnlyAt(ppid)
          invariant AddAllBaggage(start, TraceContext.Pairs(items)) ==
                    AddAllBaggage(SlotAt(ppid), TraceContext.Pairs(items[n..]))
        {
          var kv := Explode.Explode("=", items[n]);
          BaggageStep(SlotAt(ppid), items, n);
          if |kv| == 2 {
            AddBaggage(ppid, kv[0], kv[1]);
          }
        }
        assert items[|items|..] == [];
        NoMorePairs(SlotAt(ppid));
      }
    }

    method FormatTraceParentHeader(ppid: int, i: nat, now: nat, maxTimeConsuming: int) returns (header: string)
      requires Active(SlotAt(ppid)) && i < |SlotAt(ppid).batch.value|
      ensures var slot := SlotAt(ppid); var span := slot.batch.value[i];
        header == TraceContext.FormatTraceParent(
          TraceContext.Parent(span.traceId, span.spanId, Sampled(slot, now, maxTimeConsuming)))
      ensures var slot := SlotAt(ppid); var span := slot.batch.value[i];
        header == "00-" + Hex.Encoded(span.traceId) + "-" + Hex.Encoded(span.spanId) +
                  if Sampled(slot, now, maxTimeConsuming) then "-01" else "-00"
    {
      var span := GetSpan(ppid, i);
      var traceId := Hex.Encode(span.traceId);
      var spanId := Hex.Encode(span.spanId);
      var sampled := IsSampled(ppid, now, maxTimeConsuming);
      header := "00-" + traceId + "-" + spanId + "-" + if sampled then "01" else "00";
      assert "00-" == "00" + "-";
    }

    /** Any iteration order of the hash map will do. */
    method FormatBaggageHeader(ppid: int, order: seq<string>) returns (header: string)
      requires TraceContext.IterationOrder(SlotAt(ppid).baggage, order)
      modifies this
      ensures SlotAt(ppid) == old(SlotAt(ppid)) && OnlyAt(ppid)
      ensures header == TraceContext.FormatBaggage(SlotAt(ppid).baggage, order)
    {
      var baggageValue := GetBaggage(ppid);
      header := TraceContext.FormatBaggageHeader(baggageValue, order);
    }

    method OkEnd(ppid: int, i: nat, now: nat)
      requires ValidSlot(SlotAt(ppid)) && SlotAt(ppid).batch.Some? && i < |SlotAt(ppid).batch.value|
      modifies this
      ensures SlotAt(ppid) == Slots.OkEnd(old(SlotAt(ppid)), i, now) && OnlyAt(ppid)
      ensures var before := old(SlotAt(ppid)).batch.value[i];
        SlotAt(ppid).batch.value[i].status == if before.status == Unset then Ok else before.status
    {
      var span := GetSpan(ppid, i);
      assert span in SlotAt(ppid).batch.value;
      if span.status == Unset {
        span := span.(status := Ok);
      }
      SetSpan(ppid, i, span.(end := now));
    }

    method ErrorEnd(ppid: int, i: nat, message: string, now: nat)
      requires ValidSlot(SlotAt(ppid)) && SlotAt(ppid).batch.Some? && i < |SlotAt(ppid).batch.value|
      modifies this
      ensures SlotAt(ppid) == Slots.ErrorEnd(old(SlotAt(ppid)), i, message, now) && OnlyAt(ppid)
    {
      var span := GetSpan(ppid, i);
      assert span in SlotAt(ppid).batch.value;
      SetSpan(ppid, i, span.(status := Error(message), end := now));
      SetSampled(ppid, true);
    }

    method Increase()
      modifies this
      ensures counter == SampleCounter.Next(old(counter))
      ensures forall p :: SlotAt(p) == old(SlotAt(p))
    {
      if counter > 10_000_000 {
        counter := 0;
      }
      counter := counter + 1;
    }

    method GetRedisException(ppid: int) returns (message: string)
      ensures message == SlotAt(ppid).redisException
    {
      if !cli {
        return redisException;
      }
      if ppid in redisExceptions && redisExceptions[ppid] != "" {
        return redisExceptions[ppid];
      }
      return "";
    }

    method SetRedisException(ppid: int, message: string)
      modifies this
      ensures SlotAt(ppid) == old(SlotAt(ppid)).(redisException := message) && OnlyAt(ppid)
    {
      if !cli {
        redisException := message;
      } else {
        redisExceptions := redisExceptions[ppid := message];
      }
    }
  }

  /** One item of the header is at most one entry. */
  lemma BaggageStep(slot: Slot, items: seq<string>, n: nat)
    requires slot.resource.Some? && n < |items|
    ensures var kv := Explode.Split("=", items[n]);
      AddAllBaggage(slot, TraceContext.Pairs(items[n..])) ==
      AddAllBaggage(if |kv| == 2 then Slots.AddBaggage(slot, kv[0], kv[1]) else slot,
                    TraceContext.Pairs(items[n + 1..]))
  {
    assert items[n..][1..] == items[n + 1..];
    var kv, rest := Explode.Split("=", items[n]), TraceContext.Pairs(items[n + 1..]);
    if |kv| == 2 {
      assert ([(kv[0], kv[1])] + rest)[1..] == rest;
    } else {
      assert [] + rest == rest;
    }
  }

  lemma NoMorePairs(slot: Slot)
    requires slot.resource.Some?
    ensures TraceContext.Pairs([]) == [] && AddAllBaggage(slot, []) == slot
  {
  }

  /** What the hooks and `opentelemetry_add_span` begin with: a new span below the first one. */
  method CreateChildSpan(provider: Provider, ppid: int, name: string, kind: Kind, draw: Draw, attributes: seq<Pair>)
    returns (i: nat)
    requires Active(provider.SlotAt(ppid)) && ValidDraw(draw)
    modifies provider
    ensures provider.SlotAt(ppid) == AddChild(old(provider.SlotAt(ppid)), name, kind, draw, attributes)
    ensures provider.OnlyAt(ppid) && i == |old(provider.SlotAt(ppid)).batch.value|
  {
    var first := provider.FirstOneSpan(ppid);
    var parent := provider.GetSpan(ppid, first.value);
    assert parent == FirstSpan(provider.SlotAt(ppid));
    i := provider.CreateSpan(ppid, name, kind, draw, attributes);
    var span := provider.GetSpan(ppid, i);
    assert span in provider.SlotAt(ppid).batch.value;
    provider.SetSpan(ppid, i, span.(parentId := parent.spanId));
  }

  // ----- runs over many processes -----

  /** An operation on the slot of a process, done by the methods of the class. */
  method Perform(provider: Provider, ppid: int, op: Operation)
    requires Can(op, provider.SlotAt(ppid))
    modifies provider
    ensures provider.SlotAt(ppid) == Do(op, old(provider.SlotAt(ppid)), provider.counter, provider.cli)
    ensures provider.OnlyAt(ppid)
  {
    match op
    case DoClean => provider.Clean(ppid);
    case DoCreateFirstSpan(name, kind, draw, attributes) =>
      var _ := provider.CreateFirstSpan(ppid, name, kind, draw, attributes);
    case DoCreateSpan(name, kind, draw, attributes) =>
      var _ := provider.CreateSpan(ppid, name, kind, draw, attributes);
    case DoSetParent(i, id) =>
      var span := provider.GetSpan(ppid, i);
      assert span in provider.SlotAt(ppid).batch.value;
      provider.SetSpan(ppid, i, span.(parentId := id));
    case DoSetSampled(b) => provider.SetSampled(ppid, b);
    case DoAddBaggage(k, v) => provider.AddBaggage(ppid, k, v);
    case DoParseTraceParent(header, ratio) => provider.ParseTraceParent(ppid, header, ratio, false);
    case DoParseBaggage(header) => provider.ParseBaggage(ppid, header);
    case DoOkEnd(i, now) => provider.OkEnd(ppid, i, now);
    case DoErrorEnd(i, message, now) => provider.ErrorEnd(ppid, i, message, now);
    case DoSetRedisException(message) => provider.SetRedisException(ppid, message);
    case DoGetBaggage => var _ := provider.GetBaggage(ppid);
    case DoFormatBaggage(order) => var _ := provider.FormatBaggageHeader(ppid, order);
  }

  /** What happens at a process: an operation on its slot, or a step of the counter that all processes share. */
  datatype Event = At(ppid: int, op: Operation) | Increased(ppid: int)

  function NextCount(count: int, event: Event): int {
    if event.Increased? then SampleCounter.Next(count) else count
  }

  function CountAfter(schedule: seq<Event>, count: int): int {
    if schedule == [] then count else CountAfter(schedule[1..], NextCount(count, schedule[0]))
  }

  /** What a schedule does at one process, and the counter that each operation finds. */
  function Projected(schedule: seq<Event>, p: int, count: int): seq<Timed> {
    if schedule == [] then []
    else
      var rest := Projected(schedule[1..], p, NextCount(count, schedule[0]));
      if schedule[0].At? && schedule[0].ppid == p then [Timed(schedule[0].op, count)] + rest else rest
  }

  lemma ProjectedHead(schedule: seq<Event>, p: int, count: int)
    requires schedule != []
    ensures var rest := Projected(schedule[1..], p, NextCount(count, schedule[0]));
      if schedule[0].At? && schedule[0].ppid == p
      then Projected(schedule, p, count) != [] && Projected(schedule, p, count)[0] == Timed(schedule[0].op, count) &&
           Projected(schedule, p, count)[1..] == rest
      else Projected(schedule, p, count) == rest
  {
  }

  method PerformOne(provider: Provider, event: Event)
    requires provider.cli && (event.At? ==> Can(event.op, provider.SlotAt(event.ppid)))
    modifies provider
    ensures provider.counter == NextCount(old(provider.counter), event)
    ensures event.At? ==>
              provider.SlotAt(event.ppid) == Do(event.op, old(provider.SlotAt(event.ppid)), old(provider.counter), true)
    ensures forall p :: event.Increased? || p != event.ppid ==> provider.SlotAt(p) == old(provider.SlotAt(p))
  {
    hide Can, Do;
    match event
    case At(ppid, op) => Perform(provider, ppid, op);
    case Increased(_) => provider.Increase();
  }

  method PerformEach(provider: Provider, schedule: seq<Event>)
    requires provider.cli
    requires forall p :: CanAll(Projected(schedule, p, provider.counter), provider.SlotAt(p), true)
    modifies provider
    ensures provider.counter == CountAfter(schedule, old(provider.counter))
    ensures forall p :: provider.SlotAt(p) ==
              DoAll(Projected(schedule, p, old(provider.counter)), old(provider.SlotAt(p)), true)
    decreases |schedule|
  {
    ghost var count := provider.counter;
    hide Can, Do, Projected, NextCount;
    if schedule == [] {
      NothingProjected(count);
    } else {
      forall p { ProjectedHead(schedule, p, count); }
      PerformOne(provider, schedule[0]);
      PerformEach(provider, schedule[1..]);
    }
  }

  /** The process-keyed form refines one single-slot form for each process: under any interleaving of the
      operations of any processes, each ends up with the slot that it would have reached alone, and, from a tidy
      slot, with the very slot that the single-slot form reaches. */
  method PerformAll(provider: Provider, schedule: seq<Event>)
    requires provider.cli
    requires forall p :: CanAll(Projected(schedule, p, provider.counter), provider.SlotAt(p), true)
    modifies provider
    ensures provider.counter == CountAfter(schedule, old(provider.counter))
    ensures forall p :: provider.SlotAt(p) ==
              DoAll(Projected(schedule, p, old(provider.counter)), old(provider.SlotAt(p)), true)
    ensures forall p :: Tidy(old(provider.SlotAt(p))) ==>
              && CanAll(Projected(schedule, p, old(provider.counter)), old(provider.SlotAt(p)), false)
              && provider.SlotAt(p) ==
                 DoAll(Projected(schedule, p, old(provider.counter)), old(provider.SlotAt(p)), false)
  {
    hide Tidy, Projected, CanAll, DoAll;
    ghost var count := provider.counter;
    PerformEach(provider, schedule);
    forall p | Tidy(old(provider.SlotAt(p)))
      ensures CanAll(Projected(schedule, p, count), old(provider.SlotAt(p)), false)
      ensures provider.SlotAt(p) == DoAll(Projected(schedule, p, count), old(provider.SlotAt(p)), false)
    {
      FormsAgree(Projected(schedule, p, count), old(provider.SlotAt(p)));
    }
  }

  lemma NothingProjected(count: int)
    ensures forall p :: Projected([], p, count) == []
  {
  }

  /** A provider that serves any processes from its construction on holds for each of them what a provider of
      the single-slot form would hold. */
  method Serve(schedule: seq<Event>) returns (provider: Provider)
    requires forall p :: CanAll(Projected(schedule, p, 0), EMPTY, true)
    ensures fresh(provider) && provider.cli && provider.counter == CountAfter(schedule, 0)
    ensures forall p :: CanAll(Projected(schedule, p, 0), EMPTY, false) &&
                        provider.SlotAt(p) == DoAll(Projected(schedule, p, 0), EMPTY, false)
  {
    provider := new Provider(true);
    PerformAll(provider, schedule);
  }

  /** The events of one process. */
  function Own(schedule: seq<Event>, p: int): seq<Event> {
    if schedule == [] then []
    else (if schedule[0].ppid == p then [schedule[0]] else []) + Own(schedule[1..], p)
  }

  /** A process that runs alone does the same operations, with the counter counting only its own requests. */
  lemma {:induction false} SameOperations(schedule: seq<Event>, p: int, a: int, b: int)
    ensures |Projected(Own(schedule, p), p, b)| == |Projected(schedule, p, a)|
    ensures forall i :: 0 <= i < |Projected(schedule, p, a)| ==>
              Projected(Own(schedule, p), p, b)[i].op == Projected(schedule, p, a)[i].op
    decreases |schedule|
  {
    if schedule != [] {
      var e := schedule[0];
      SameOperations(schedule[1..], p, NextCount(a, e), if e.ppid == p then NextCount(b, e) else b);
      if e.ppid == p {
        assert Own(schedule, p)[1..] == Own(schedule[1..], p);
      } else {
        assert Own(schedule, p) == Own(schedule[1..], p);
      }
    }
  }

  /** The other processes reach a process only through the counter: as long as the ratio rule decides alike,
      it ends in the slot that it reaches with none of them there. */
  lemma OthersMatterByRatioOnly(schedule: seq<Event>, p: int, slot: Slot, cli: bool, a: int, b: int)
    requires var mixed, alone := Projected(schedule, p, a), Projected(Own(schedule, p), p, b);
      forall i :: 0 <= i < |mixed| && i < |alone| ==> SameDecision(mixed[i].op, mixed[i].count, alone[i].count)
    ensures var mixed, alone := Projected(schedule, p, a), Projected(Own(schedule, p), p, b);
      && (CanAll(mixed, slot, cli) <==> CanAll(alone, slot, cli))
      && (CanAll(mixed, slot, cli) ==> DoAll(mixed, slot, cli) == DoAll(alone, slot, cli))
  {
    hide Projected, Own, SameDecision;
    SameOperations(schedule, p, a, b);
    OnlyRatioReadsCount(Projected(schedule, p, a), Projected(Own(schedule, p), p, b), slot, cli);
  }
}
