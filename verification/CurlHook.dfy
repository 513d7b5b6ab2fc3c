/** The header cache of src/zend_hook_curl.cc. The curl extension cannot be asked which headers a handle has, so
    the hooks keep a copy of what the program set, and each recorded request adds its two lines to it. */
module CurlHooks {
  import opened Prelude
  import opened Slots
  import opened Providers
  import TraceContext

  const CURLOPT_HTTPHEADER: int := 10023
  const HOOK_HTTPHEADER: int := 9923
  const TRACEPARENT: string := "traceparent: "
  const BAGGAGE: string := "baggage: "

  datatype Value = Array(lines: seq<string>) | Scalar(text: string)

  /** What matters of the past, for the headers of a handle. Setting them is seen when the hook copies them. */
  datatype Event =
    | HeadersSet(handle: int, value: Value, seen: bool)
    | Requested(handle: int, traceparent: string, baggage: string)
    | Closed(handle: int)
    | Emptied

  /** The copy of the headers that was made last, if it is still there. */
  function Latest(history: seq<Event>, h: int): Option<Value> {
    if history == [] then None
    else
      var before := Latest(history[..|history| - 1], h);
      match history[|history| - 1]
      case HeadersSet(g, value, seen) => if g == h && seen then Some(value) else before
      case Requested(_, _, _) => before
      case Closed(g) => if g == h then None else before
      case Emptied => None
  }

  /** The lines of the recorded requests since that copy was made. */
  function Added(history: seq<Event>, h: int): seq<string> {
    if history == [] then []
    else
      var before := Added(history[..|history| - 1], h);
      match history[|history| - 1]
      case HeadersSet(g, _, seen) => if g == h && seen then [] else before
      case Requested(g, traceparent, baggage) => if g == h then before + [traceparent, baggage] else before
      case Closed(g) => if g == h then [] else before
      case Emptied => []
  }

  /** The number of recorded requests since that copy was made. */
  function Requests(history: seq<Event>, h: int): nat {
    if history == [] then 0
    else
      var before := Requests(history[..|history| - 1], h);
      match history[|history| - 1]
      case HeadersSet(g, _, seen) => if g == h && seen then 0 else before
      case Requested(g, _, _) => if g == h then before + 1 else before
      case Closed(g) => if g == h then 0 else before
      case Emptied => 0
  }

  /** What a recorded request adds its lines to. Without a copy it starts from an empty temporary list. */
  function Base(history: seq<Event>, h: int): seq<string> {
    var latest := Latest(history, h);
    if latest.Some? && latest.value.Array? then latest.value.lines + Added(history, h) else []
  }

  /** The headers that the program has set on a handle, since it was last closed. */
  function ProgramHeaders(history: seq<Event>, h: int): seq<string> {
    if history == [] then []
    else
      var before := ProgramHeaders(history[..|history| - 1], h);
      match history[|history| - 1]
      case HeadersSet(g, value, _) => if g == h && value.Array? then value.lines else before
      case Requested(_, _, _) => before
      case Closed(g) => if g == h then [] else before
      case Emptied => before
  }

  /** Those headers were copied when they were set, and the copy is still there. */
  predicate Seen(history: seq<Event>, h: int) {
    history != [] &&
    match history[|history| - 1]
    case HeadersSet(g, value, seen) =>
      if g == h && (seen || value.Array?) then seen && value.Array? else Seen(history[..|history| - 1], h)
    case Requested(_, _, _) => Seen(history[..|history| - 1], h)
    case Closed(g) => g != h && Seen(history[..|history| - 1], h)
    case Emptied => false
  }

  /** The list that curl itself holds for a handle: the last one that it was given, by the program or a hook. */
  function ListOf(history: seq<Event>, h: int): Option<seq<string>> {
    if history == [] then None
    else
      var earlier := history[..|history| - 1];
      match history[|history| - 1]
      case HeadersSet(g, value, _) => if g == h && value.Array? then Some(value.lines) else ListOf(earlier, h)
      case Requested(g, traceparent, baggage) =>
        if g == h then Some(Base(earlier, h) + [traceparent, baggage]) else ListOf(earlier, h)
      case Closed(g) => if g == h then None else ListOf(earlier, h)
      case Emptied => ListOf(earlier, h)
  }

  predicate Concerns(e: Event, h: int) {
    e.Emptied? || e.handle == h
  }

  /** The events of one handle. */
  function Of(history: seq<Event>, h: int): seq<Event> {
    if history == [] then []
    else
      var last, before := history[|history| - 1], history[..|history| - 1];
      Of(before, h) + if Concerns(last, h) then [last] else []
  }

  /** How the remote end answered: status code 0 is a failed transfer. */
  datatype Response = Response(code: nat, message: string)

  predicate IsFailure(response: Response) {
    response.code == 0 || response.code >= 400
  }

  /** The slot once a recorded request is over. */
  function AfterRequest(slot: Slot, name: string, draw: Draw, attributes: seq<Pair>, response: Response,
                        errorTime: nat, endTime: nat): Slot
    requires Active(slot) && ValidDraw(draw)
  {
    var s := AddChild(slot, name, Client, draw, attributes);
    var i := |slot.batch.value|;
    Slots.OkEnd(if IsFailure(response) then Slots.ErrorEnd(s, i, response.message, errorTime) else s, i, endTime)
  }

  /** The `traceparent` line of a request names the span that it creates and carries the sampled bit. */
  function TraceParentLine(slot: Slot, draw: Draw, now: nat, maxTimeConsuming: int): string
    requires Active(slot)
  {
    TRACEPARENT + TraceContext.FormatTraceParent(
      TraceContext.Parent(FirstSpan(slot).traceId, draw.spanId, Sampled(slot, now, maxTimeConsuming)))
  }

  class CurlHook {
    var curlHeader: map<int, Value>
    var lists: map<int, seq<string>>
    var hasProvider: bool
    ghost var history: seq<Event>

    /** The cache holds exactly the copies that are still there, each with what was added; without a provider it
        holds none. Curl holds the lists that it was given. */
    ghost predicate Valid()
      reads this
    {
      && (!hasProvider ==> curlHeader == map[])
      && (forall h :: h in curlHeader <==> Latest(history, h).Some?)
      && (forall h :: h in curlHeader ==> curlHeader[h] == Cached(history, h))
      && (forall h :: h in lists <==> ListOf(history, h).Some?)
      && (forall h :: h in lists ==> lists[h] == ListOf(history, h).value)
    }

    constructor ()
      ensures Valid() && history == [] && !hasProvider
    {
      curlHeader, lists, hasProvider, history := map[], map[], false, [];
    }

    /** The start of a tracer, which makes a provider, empties the cache, and so does its end, which keeps the
        provider or not. Handles of the command line and their lists live on. */
    method Empty(provided: bool)
      requires Valid()
      modifies this
      ensures Valid() && history == old(history) + [Emptied] && hasProvider == provided && lists == old(lists)
    {
      curlHeader, hasProvider := map[], provided;
      history := history + [Emptied];
      EventStep(old(history), Emptied);
    }

    /** What curl itself does with the option: a header array replaces the list of the handle. */
    method OriginalSetopt(h: int, option: int, value: Value)
      modifies `lists
      ensures lists ==
              if option == CURLOPT_HTTPHEADER && value.Array? then old(lists)[h := value.lines] else old(lists)
    {
      if option == CURLOPT_HTTPHEADER && value.Array? {
        lists := lists[h := value.lines];
      }
    }

    /** The hook of `curl_setopt`, also when the hook of `curl_exec` calls it with the option of its own. */
    method SetoptHandler(h: int, option: int, value: Value)
      modifies `curlHeader, `lists
      ensures curlHeader == if hasProvider && option == CURLOPT_HTTPHEADER && value.Array?
                            then old(curlHeader)[h := value] else old(curlHeader)
      ensures var isHeader := option == CURLOPT_HTTPHEADER || (hasProvider && option == HOOK_HTTPHEADER);
        lists == if isHeader && value.Array? then old(lists)[h := value.lines] else old(lists)
    {
      if !hasProvider {
        OriginalSetopt(h, option, value);
        return;
      }
      var effective := option;
      if option == HOOK_HTTPHEADER {
        effective := CURLOPT_HTTPHEADER;
      } else if option == CURLOPT_HTTPHEADER && value.Array? {
        curlHeader := curlHeader[h := value];
      }
      OriginalSetopt(h, effective, value);
    }

    /** A call of `curl_setopt` by the program. */
    method Setopt(h: int, option: int, value: Value)
      requires Valid()
      modifies this
      ensures Valid() && hasProvider == old(hasProvider)
      ensures var isHeader := option == 10023 || (hasProvider && option == 9923);
        history == old(history) + if isHeader && value.Array?
                                  then [HeadersSet(h, value, hasProvider && option == 10023)] else []
      ensures option != 9923 ==> KeepsRegular(old(history), history)
    {
      hide Latest, Cached, ListOf, Regular;
      SetoptHandler(h, option, value);
      if (option == CURLOPT_HTTPHEADER || (hasProvider && option == HOOK_HTTPHEADER)) && value.Array? {
        ghost var event := HeadersSet(h, value, hasProvider && option == CURLOPT_HTTPHEADER);
        history := history + [event];
        EventStep(old(history), event);
        if option != HOOK_HTTPHEADER {
          RegularStep(old(history), event);
        }
      }
    }

    /** A call of `curl_setopt_array` by the program: the hook copies whatever the header option holds. */
    method SetoptArray(h: int, options: map<int, Value>)
      requires Valid()
      modifies this
      ensures Valid() && hasProvider == old(hasProvider)
      ensures history == old(history) + if 10023 in options
                                        then [HeadersSet(h, options[10023], hasProvider)] else []
      ensures 10023 in options ==> options[10023].Array? ==>
                KeepsRegular(old(history), history)
    {
      hide Latest, Cached, ListOf, Regular;
      if CURLOPT_HTTPHEADER in options {
        if hasProvider {
          curlHeader := curlHeader[h := options[CURLOPT_HTTPHEADER]];
        }
        OriginalSetopt(h, CURLOPT_HTTPHEADER, options[CURLOPT_HTTPHEADER]);
        ghost var event := HeadersSet(h, options[CURLOPT_HTTPHEADER], hasProvider);
        history := history + [event];
        EventStep(old(history), event);
        if options[CURLOPT_HTTPHEADER].Array? {
          RegularStep(old(history), event);
        }
      }
    }

    /** A request that is not recorded, for want of a provider or of an http address, goes out with the list
        that curl was given last. */
    method ExecUnrecorded(h: int) returns (passed: Option<seq<string>>)
      requires Valid()
      ensures passed == ListOf(history, h)
    {
      passed := if h in lists then Some(lists[h]) else None;
    }

    /** A recorded request: curl gets the base of the handle followed by the two lines of the new span, the
        cache keeps them only if it had the handle, and no other handle is touched. The copy must be an array,
        for the lines are appended to it in place. */
    method Exec(provider: Provider, ppid: int, h: int, name: string, draw: Draw, attributes: seq<Pair>,
                now: nat, maxTimeConsuming: int, order: seq<string>, response: Response,
                errorTime: nat, endTime: nat) returns (passed: seq<string>)
      requires Valid() && hasProvider && (h in curlHeader ==> curlHeader[h].Array?)
      requires Active(provider.SlotAt(ppid)) && ValidDraw(draw)
      requires TraceContext.IterationOrder(provider.SlotAt(ppid).baggage, order)
      modifies this, provider
      ensures Valid() && hasProvider
      ensures var slot := old(provider.SlotAt(ppid));
        var traceparent := TraceParentLine(slot, draw, now, maxTimeConsuming);
        var baggage := "baggage: " + TraceContext.FormatBaggage(slot.baggage, order);
        && passed == Base(old(history), h) + [traceparent, baggage]
        && history == old(history) + [Requested(h, traceparent, baggage)]
      ensures lists == old(lists)[h := passed]
      ensures forall g :: g != h ==> (g in curlHeader <==> g in old(curlHeader)) &&
                                     (g in curlHeader ==> curlHeader[g] == old(curlHeader)[g])
      ensures provider.SlotAt(ppid) ==
              AfterRequest(old(provider.SlotAt(ppid)), name, draw, attributes, response, errorTime, endTime)
      ensures provider.OnlyAt(ppid)
    {
      hide AfterRequest, TraceParentLine, Latest, Added, ListOf;
      hide TraceContext.FormatTraceParent, TraceContext.FormatBaggage, TraceContext.IterationOrder;
      var i, traceparent, baggage :=
        StartSpan(provider, ppid, name, draw, attributes, now, maxTimeConsuming, order);
      passed := PassHeaders(h, traceparent, baggage);
      FinishSpan(provider, ppid, i, response, errorTime, endTime);
      FinishedRequest(old(provider.SlotAt(ppid)), name, draw, attributes, response, errorTime, endTime);
    }

    /** The lines go to the copy, or to a temporary list, and from there to curl. */
    method PassHeaders(h: int, traceparent: string, baggage: string) returns (passed: seq<string>)
      requires Valid() && hasProvider && (h in curlHeader ==> curlHeader[h].Array?)
      modifies this
      ensures Valid() && hasProvider
      ensures passed == Base(old(history), h) + [traceparent, baggage]
      ensures history == old(history) + [Requested(h, traceparent, baggage)]
      ensures lists == old(lists)[h := passed]
      ensures forall g :: g != h ==> (g in curlHeader <==> g in old(curlHeader)) &&
                                     (g in curlHeader ==> curlHeader[g] == old(curlHeader)[g])
    {
      hide Latest, Added, ListOf;
      var isTemporary := h !in curlHeader;
      var option := if isTemporary then [] else curlHeader[h].lines;
      option := option + [traceparent];
      option := option + [baggage];
      if !isTemporary {
        curlHeader := curlHeader[h := Array(option)];
      }
      SetoptHandler(h, HOOK_HTTPHEADER, Array(option));
      passed := lists[h];
      history := history + [Requested(h, traceparent, baggage)];
      EventStep(old(history), Requested(h, traceparent, baggage));
    }

    /** The new span and its two header lines. */
    method StartSpan(provider: Provider, ppid: int, name: string, draw: Draw, attributes: seq<Pair>,
                     now: nat, maxTimeConsuming: int, order: seq<string>)
      returns (i: nat, traceparent: string, baggage: string)
      requires Active(provider.SlotAt(ppid)) && ValidDraw(draw)
      requires TraceContext.IterationOrder(provider.SlotAt(ppid).baggage, order)
      modifies provider
      ensures provider.SlotAt(ppid) == AddChild(old(provider.SlotAt(ppid)), name, Client, draw, attributes)
      ensures provider.OnlyAt(ppid)
      ensures i == |old(provider.SlotAt(ppid)).batch.value|
      ensures traceparent == TraceParentLine(old(provider.SlotAt(ppid)), draw, now, maxTimeConsuming)
      ensures baggage == "baggage: " + TraceContext.FormatBaggage(old(provider.SlotAt(ppid)).baggage, order)
    {
      hide TraceContext.FormatTraceParent, TraceContext.FormatBaggage, TraceContext.IterationOrder;
      hide Slots.Conversions.Millis;
      i := CreateChildSpan(provider, ppid, name, Client, draw, attributes);
      var header := provider.FormatTraceParentHeader(ppid, i, now, maxTimeConsuming);
      traceparent := TRACEPARENT + header;
      var value := provider.FormatBaggageHeader(ppid, order);
      baggage := BAGGAGE + value;
    }

    method FinishSpan(provider: Provider, ppid: int, i: nat, response: Response, errorTime: nat, endTime: nat)
      requires ValidSlot(provider.SlotAt(ppid)) && provider.SlotAt(ppid).batch.Some?
      requires i < |provider.SlotAt(ppid).batch.value|
      modifies provider
      ensures provider.OnlyAt(ppid)
      ensures provider.SlotAt(ppid) == var s := old(provider.SlotAt(ppid));
        Slots.OkEnd(if IsFailure(response) then Slots.ErrorEnd(s, i, response.message, errorTime) else s, i, endTime)
      ensures var before := old(provider.SlotAt(ppid)).batch.value[i]; var span := provider.SlotAt(ppid).batch.value[i];
        && span.end == endTime
        && span.status == (if response.code == 0 || response.code >= 400 then Error(response.message)
                           else if before.status == Unset then Ok else before.status)
    {
      if response.code == 0 {
        provider.ErrorEnd(ppid, i, response.message, errorTime);
      } else if response.code >= 400 {
        provider.ErrorEnd(ppid, i, response.message, errorTime);
      }
      provider.OkEnd(ppid, i, endTime);
    }

    method Close(h: int)
      requires Valid()
      modifies this
      ensures Valid() && hasProvider == old(hasProvider) && history == old(history) + [Closed(h)]
    {
      hide Latest, Cached, ListOf;
      if hasProvider {
        if h in curlHeader {
          curlHeader := curlHeader - {h};
        }
      }
      lists := lists - {h};
      history := history + [Closed(h)];
      EventStep(old(history), Closed(h));
    }
  }

  /** The span of a recorded request, in full: a client span below the first one, which begins when its identifiers are
      drawn and ends with the transfer. Status code 0 and codes from 400 on fail it and make the request sampled; no
      other code does. */
  lemma RequestSpan(slot: Slot, name: string, draw: Draw, attributes: seq<Pair>, response: Response,
                    errorTime: nat, endTime: nat)
    requires Active(slot) && ValidDraw(draw)
    ensures var failed := response.code == 0 || response.code >= 400;
      var span := Span(FirstSpan(slot).traceId, draw.spanId, FirstSpan(slot).spanId, name, Client, draw.now, endTime,
                       if failed then Error(response.message) else Ok);
      AfterRequest(slot, name, draw, attributes, response, errorTime, endTime) ==
      slot.(batch := Some(slot.batch.value + [span]), sampled := slot.sampled || failed)
  {
    var n := |slot.batch.value|;
    var s := AddChild(slot, name, Client, draw, attributes);
    var child := Span(FirstSpan(slot).traceId, draw.spanId, FirstSpan(slot).spanId, name, Client, draw.now, 0, Unset);
    assert s.batch.value == slot.batch.value + [child];
    var after := AfterRequest(slot, name, draw, attributes, response, errorTime, endTime).batch.value;
    assert |after| == n + 1 && after[..n] == slot.batch.value;
    assert after == after[..n] + [after[n]];
  }

  /** The line that names it, in full. */
  lemma LineText(slot: Slot, draw: Draw, now: nat, maxTimeConsuming: int)
    requires Active(slot)
    ensures TraceParentLine(slot, draw, now, maxTimeConsuming) ==
            "traceparent: 00-" + TraceContext.Hex.Encoded(FirstSpan(slot).traceId) + "-" +
            TraceContext.Hex.Encoded(draw.spanId) + if Sampled(slot, now, maxTimeConsuming) then "-01" else "-00"
  {
    hide Sampled;
    var t, s := TraceContext.Hex.Encoded(FirstSpan(slot).traceId), TraceContext.Hex.Encoded(draw.spanId);
    assert "traceparent: 00-" == TRACEPARENT + ("00" + "-");
    assert "-01" == "-" + "01" && "-00" == "-" + "00";
  }

  lemma FinishedRequest(slot: Slot, name: string, draw: Draw, attributes: seq<Pair>, response: Response,
                        errorTime: nat, endTime: nat)
    requires Active(slot) && ValidDraw(draw)
    ensures AfterRequest(slot, name, draw, attributes, response, errorTime, endTime) ==
            var s := AddChild(slot, name, Client, draw, attributes);
            var i := |slot.batch.value|;
            var t := if IsFailure(response) then Slots.ErrorEnd(s, i, response.message, errorTime) else s;
            Slots.OkEnd(t, i, endTime)
  {
  }

  /** What the cache holds for a handle with a copy. */
  function Cached(history: seq<Event>, h: int): Value {
    if Latest(history, h).Some? && !Latest(history, h).value.Array? then Latest(history, h).value
    else Array(Base(history, h))
  }

  /** One more event, and what it means for every handle. */
  lemma EventStep(history: seq<Event>, e: Event)
    ensures var after := history + [e];
      forall h ::
        && (!Concerns(e, h) ==> Latest(after, h) == Latest(history, h) && Cached(after, h) == Cached(history, h) &&
                                ListOf(after, h) == ListOf(history, h))
        && (Concerns(e, h) ==> EventEffect(history, e, h))
  {
    var after := history + [e];
    assert after[..|history|] == history;
    forall h
      ensures !Concerns(e, h) ==> Latest(after, h) == Latest(history, h) && Cached(after, h) == Cached(history, h) &&
                                  ListOf(after, h) == ListOf(history, h)
      ensures Concerns(e, h) ==> EventEffect(history, e, h)
    {
      assert Added(after, h) == Added(history, h) || Concerns(e, h);
    }
  }

  predicate EventEffect(history: seq<Event>, e: Event, h: int) {
    var after := history + [e];
    match e
    case HeadersSet(_, value, seen) =>
      && Latest(after, h) == (if seen then Some(value) else Latest(history, h))
      && Cached(after, h) == (if seen then value else Cached(history, h))
      && ListOf(after, h) == (if value.Array? then Some(value.lines) else ListOf(history, h))
    case Requested(_, traceparent, baggage) =>
      && Latest(after, h) == Latest(history, h)
      && (Latest(history, h).Some? && Latest(history, h).value.Array? ==>
            Cached(after, h) == Array(Base(history, h) + [traceparent, baggage]))
      && (Latest(history, h).None? ==> Base(history, h) == [])
      && ListOf(after, h) == Some(Base(history, h) + [traceparent, baggage])
    case Closed(_) => Latest(after, h) == None && ListOf(after, h) == None
    case Emptied => Latest(after, h) == None && ListOf(after, h) == ListOf(history, h)
  }

  /** Two lines stay in the copy for each earlier request since it was made, so it is what was copied exactly
      before the first one. */
  lemma {:induction false} LinesPileUp(history: seq<Event>, h: int)
    ensures |Added(history, h)| == 2 * Requests(history, h)
    ensures Latest(history, h).Some? && Latest(history, h).value.Array? ==>
              (Base(history, h) == Latest(history, h).value.lines <==> Requests(history, h) == 0)
  {
    if history != [] {
      LinesPileUp(history[..|history| - 1], h);
    }
    if Latest(history, h).Some? && Latest(history, h).value.Array? {
      assert |Base(history, h)| == |Latest(history, h).value.lines| + 2 * Requests(history, h);
    }
  }

  /** While the copy is of the program's last headers, the two agree. */
  lemma {:induction false} SeenIsCopied(history: seq<Event>, h: int)
    ensures Seen(history, h) ==> Latest(history, h) == Some(Array(ProgramHeaders(history, h)))
  {
    if history != [] {
      SeenIsCopied(history[..|history| - 1], h);
    }
  }

  /** What happens through the two hooked functions alone, and with arrays: headers pass the hook by only while
      nothing is copied, that is without a provider. The option that the hooks use among themselves is not for
      the program. */
  predicate Regular(history: seq<Event>, h: int) {
    history == [] ||
    var before := history[..|history| - 1];
    Regular(before, h) &&
    match history[|history| - 1]
    case HeadersSet(g, value, seen) => g == h ==> value.Array? && (seen || Latest(before, h).None?)
    case _ => true
  }

  ghost predicate KeepsRegular(before: seq<Event>, after: seq<Event>) {
    forall h :: Regular(before, h) ==> Regular(after, h)
  }

  /** Any event but an unseen array over a copy, or something else than an array. */
  lemma RegularStep(history: seq<Event>, e: Event)
    requires e.HeadersSet? ==> e.value.Array? && (e.seen || Latest(history, e.handle).None?)
    ensures KeepsRegular(history, history + [e])
  {
    assert (history + [e])[..|history|] == history;
  }

  lemma {:induction false} CopiedIsSeen(history: seq<Event>, h: int)
    requires Regular(history, h)
    ensures Latest(history, h).Some? <==> Seen(history, h)
  {
    if history != [] {
      CopiedIsSeen(history[..|history| - 1], h);
    }
  }

  /** The headers of the program are sent with a recorded request if and only if they were copied and the copy is
      still there, or there are none; and nothing but them and the two lines of the request is sent if and only
      if, moreover, no request was recorded since they were copied. */
  lemma ProgramHeadersSent(history: seq<Event>, h: int)
    requires Regular(history, h)
    ensures ProgramHeaders(history, h) <= Base(history, h) <==> Seen(history, h) || ProgramHeaders(history, h) == []
    ensures Base(history, h) == ProgramHeaders(history, h) <==>
            if Seen(history, h) then Requests(history, h) == 0 else ProgramHeaders(history, h) == []
  {
    CopiedIsSeen(history, h);
    SeenIsCopied(history, h);
    LinesPileUp(history, h);
  }

  /** Headers set before a tracer is started are lost: the first recorded request after the start replaces them
      by its own two lines. */
  lemma HeadersBeforeStart(history: seq<Event>, h: int, lines: seq<string>, seen: bool)
    ensures var after := history + [HeadersSet(h, Array(lines), seen), Emptied];
      && ListOf(after, h) == Some(lines) && ProgramHeaders(after, h) == lines
      && Base(after, h) == []
  {
    var before := history + [HeadersSet(h, Array(lines), seen)];
    var after := history + [HeadersSet(h, Array(lines), seen), Emptied];
    assert after[..|before|] == before && before[..|history|] == history;
  }

  /** Events that leave the list of a handle alone. */
  predicate LeavesList(events: seq<Event>, h: int) {
    forall e :: e in events ==> e.Emptied? || e.handle != h
  }

  /** After a recorded request curl keeps its two lines, so whatever is sent on the handle next without being
      recorded, also when another tracer has been started in between, carries the span of the earlier request. */
  lemma {:induction false} LinesStay(history: seq<Event>, h: int, traceparent: string, baggage: string,
                                     later: seq<Event>)
    requires LeavesList(later, h)
    ensures ListOf(history + [Requested(h, traceparent, baggage)] + later, h) ==
            Some(Base(history, h) + [traceparent, baggage])
    decreases |later|
  {
    var sent := history + [Requested(h, traceparent, baggage)];
    if later == [] {
      assert sent + later == sent && sent[..|history|] == history;
    } else {
      var front, last := later[..|later| - 1], later[|later| - 1];
      LinesStay(history, h, traceparent, baggage, front);
      assert (sent + later)[..|sent + later| - 1] == sent + front;
      assert last in later;
    }
  }

  lemma OfStep(history: seq<Event>, h: int)
    requires history != []
    ensures var last, before := history[|history| - 1], history[..|history| - 1];
      var own := Of(history, h);
      if Concerns(last, h) then own != [] && own[|own| - 1] == last && own[..|own| - 1] == Of(before, h)
      else own == Of(before, h)
  {
  }

  lemma {:induction false} CopyIsIndependent(history: seq<Event>, h: int)
    ensures Latest(Of(history, h), h) == Latest(history, h)
  {
    if history != [] {
      CopyIsIndependent(history[..|history| - 1], h);
      OfStep(history, h);
      hide Of;
    }
  }

  lemma {:induction false} LinesAreIndependent(history: seq<Event>, h: int)
    ensures Added(Of(history, h), h) == Added(history, h)
  {
    if history != [] {
      LinesAreIndependent(history[..|history| - 1], h);
      OfStep(history, h);
      hide Of;
    }
  }

  /** What is sent on a handle depends on nothing but the events of that handle, and the emptying of the cache. */
  lemma {:induction false} HandlesAreIndependent(history: seq<Event>, h: int)
    ensures Base(Of(history, h), h) == Base(history, h)
    ensures ListOf(Of(history, h), h) == ListOf(history, h)
  {
    CopyIsIndependent(history, h);
    LinesAreIndependent(history, h);
    if history != [] {
      HandlesAreIndependent(history[..|history| - 1], h);
      OfStep(history, h);
      hide Of, Latest, Added, Base;
    }
  }
}
