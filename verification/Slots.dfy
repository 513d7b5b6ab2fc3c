/** What a Provider of src/provider.cc holds for one process: the batch of spans of the current request with the
    state that goes with it. The class in Provider.dfy keeps one such slot in its single fields, and one for each
    process in its maps; here are the operations on a slot as functions. A pointer to a span is modelled by the
    position of the span in its batch. */
module Slots {
  import opened Prelude
  import TraceContext
  import Conversions

  type Pair = TraceContext.Pair

  datatype Kind = Unspecified | Internal | Server | Client | Producer | Consumer

  datatype Status = Unset | Ok | Error(message: string)

  /** A parent id that was never set is empty. */
  datatype Span = Span(
    traceId: seq<byte>, spanId: seq<byte>, parentId: seq<byte>,
    name: string, kind: Kind, start: nat, end: nat, status: Status)

  predicate ValidSpan(span: Span) {
    && |span.traceId| == TraceContext.TRACE_ID_BYTES
    && |span.spanId| == TraceContext.SPAN_ID_BYTES
    && (span.parentId == [] || |span.parentId| == TraceContext.SPAN_ID_BYTES)
  }

  /** The identifiers a new span draws and the clock reading it takes. */
  datatype Draw = Draw(traceId: seq<byte>, spanId: seq<byte>, now: nat)

  predicate ValidDraw(draw: Draw) {
    |draw.traceId| == TraceContext.TRACE_ID_BYTES && |draw.spanId| == TraceContext.SPAN_ID_BYTES
  }

  datatype Slot = Slot(
    batch: Option<seq<Span>>, resource: Option<seq<Pair>>, first: Option<nat>,
    sampled: bool, baggage: map<string, string>, redisException: string)

  const EMPTY: Slot := Slot(None, None, None, false, map[], "")

  predicate ValidSlot(slot: Slot) {
    && (slot.batch.Some? ==> slot.resource.Some? && forall s :: s in slot.batch.value ==> ValidSpan(s))
    && (slot.first.Some? ==> slot.batch.Some? && slot.first.value < |slot.batch.value|)
  }

  /** The spans of a request that has been started. */
  predicate Active(slot: Slot) {
    ValidSlot(slot) && slot.first.Some?
  }

  function FirstSpan(slot: Slot): (span: Span)
    requires Active(slot)
    ensures ValidSpan(span)
  {
    assert slot.batch.value[slot.first.value] in slot.batch.value;
    slot.batch.value[slot.first.value]
  }

  /** `getTracer`: the first use opens a batch and a resource with the configured attributes. */
  function WithTracer(slot: Slot, attributes: seq<Pair>): Slot {
    if slot.batch.Some? then slot else slot.(batch := Some([]), resource := Some(attributes))
  }

  function NewSpan(slot: Slot, name: string, kind: Kind, draw: Draw): (span: Span)
    requires ValidSlot(slot) && ValidDraw(draw)
    ensures ValidSpan(span)
  {
    var traceId := if slot.first.Some? then FirstSpan(slot).traceId else draw.traceId;
    Span(traceId, draw.spanId, [], name, kind, draw.now, 0, Unset)
  }

  function WithSpan(slot: Slot, name: string, kind: Kind, draw: Draw, attributes: seq<Pair>): (r: Slot)
    requires ValidSlot(slot) && ValidDraw(draw)
    ensures ValidSlot(r) && r.batch.Some? && r.batch.value != []
  {
    var s := WithTracer(slot, attributes);
    s.(batch := Some(s.batch.value + [NewSpan(slot, name, kind, draw)]))
  }

  function WithFirstSpan(slot: Slot, name: string, kind: Kind, draw: Draw, attributes: seq<Pair>): (r: Slot)
    requires ValidSlot(slot) && ValidDraw(draw)
    ensures Active(r)
  {
    var s := WithSpan(slot, name, kind, draw, attributes);
    s.(first := Some(|s.batch.value| - 1))
  }

  function ReplaceSpan(slot: Slot, i: nat, span: Span): (r: Slot)
    requires ValidSlot(slot) && slot.batch.Some? && i < |slot.batch.value| && ValidSpan(span)
    ensures ValidSlot(r)
  {
    slot.(batch := Some(slot.batch.value[i := span]))
  }

  const UINT64: nat := 0x1_0000_0000_0000_0000

  /** Unsigned milliseconds from one clock reading to another, as `isSampled` computes them. */
  function ElapsedMillis(start: nat, now: nat): int {
    Conversions.Millis((now - start) % UINT64)
  }

  /** A request that has already taken long. The threshold is compared unsigned. */
  predicate Slow(start: nat, now: nat, maxTimeConsuming: int) {
    ElapsedMillis(start, now) >= maxTimeConsuming % UINT64
  }

  /** `isSampled`: the flag, or a slow request. */
  predicate Sampled(slot: Slot, now: nat, maxTimeConsuming: int)
    requires slot.sampled || Active(slot)
  {
    slot.sampled || Slow(FirstSpan(slot).start, now, maxTimeConsuming)
  }

  /** What is slow, in plain arithmetic: a duration below 2^53 nanoseconds (104 days) is slow exactly if it has
      reached the threshold of milliseconds, and a negative threshold is never reached. */
  lemma SlowMeaning(start: nat, now: nat, maxTimeConsuming: int)
    requires start <= now && now - start < 0x0020_0000_0000_0000
    requires -0x8000_0000_0000_0000 <= maxTimeConsuming < 0x1_0000_0000_0000_0000
    ensures Slow(start, now, maxTimeConsuming) <==> 0 <= maxTimeConsuming <= (now - start) / 1_000_000
  {
    hide Conversions.Millis;
    assert (now - start) % UINT64 == now - start;
    Conversions.MillisExact(now - start);
  }

  /** So a request is sampled exactly if it is flagged or has taken that long. */
  lemma SampledMeaning(slot: Slot, now: nat, maxTimeConsuming: int)
    requires Active(slot) && FirstSpan(slot).start <= now && now - FirstSpan(slot).start < 0x0020_0000_0000_0000
    requires -0x8000_0000_0000_0000 <= maxTimeConsuming < 0x1_0000_0000_0000_0000
    ensures Sampled(slot, now, maxTimeConsuming) <==>
            slot.sampled || 0 <= maxTimeConsuming <= (now - FirstSpan(slot).start) / 1_000_000
  {
    SlowMeaning(FirstSpan(slot).start, now, maxTimeConsuming);
  }

  /** The difference of the clock readings is unsigned: a request is slow, for any threshold up to 104 days, exactly if
      it has reached the threshold or the clock has been set back to before its start. */
  lemma ClockSetBack(start: nat, now: nat, maxTimeConsuming: int)
    requires now < start + 0x0020_0000_0000_0000 && start <= now + 0xFFE0_0000_0000_0000
    requires 0 <= maxTimeConsuming <= 9_007_199_254
    ensures Slow(start, now, maxTimeConsuming) <==> now < start || (now - start) / 1_000_000 >= maxTimeConsuming
  {
    hide Conversions.Millis;
    if now < start {
      var elapsed := (now - start) % UINT64;
      assert elapsed == now - start + UINT64;
      Conversions.MillisExact(0x001F_FFFF_FFFF_FFFF);
      Conversions.MillisMonotone(0x001F_FFFF_FFFF_FFFF, elapsed);
    } else {
      SlowMeaning(start, now, maxTimeConsuming);
    }
  }

  /** A clean in the single-slot form does nothing at all without a batch. */
  function CleanFpm(slot: Slot): Slot {
    if slot.batch.Some? then Slot(None, slot.resource, None, false, map[], "") else slot
  }

  /** A clean in the process-keyed form empties the baggage and the pending exception in any case. */
  function CleanCli(slot: Slot): Slot {
    if slot.batch.Some? then Slot(None, slot.resource, None, false, map[], "")
    else slot.(baggage := map[], redisException := "")
  }

  function Clean(slot: Slot, cli: bool): Slot {
    if cli then CleanCli(slot) else CleanFpm(slot)
  }

  function AddBaggage(slot: Slot, key: string, value: string): Slot
    requires slot.resource.Some?
  {
    slot.(baggage := slot.baggage[key := value], resource := Some(slot.resource.value + [(key, value)]))
  }

  function AddAllBaggage(slot: Slot, pairs: seq<Pair>): (r: Slot)
    requires slot.resource.Some?
    ensures r.resource.Some?
    decreases |pairs|
  {
    if pairs == [] then slot else AddAllBaggage(AddBaggage(slot, pairs[0].0, pairs[0].1), pairs[1..])
  }

  ghost function ParseBaggage(slot: Slot, header: string): Slot
    requires slot.resource.Some?
  {
    AddAllBaggage(slot, TraceContext.ParseBaggage(header))
  }

  /** What the first span takes over from a caller. */
  function AdoptParent(slot: Slot, parent: TraceContext.Parent): (r: Slot)
    requires Active(slot) && TraceContext.ValidParent(parent)
    ensures Active(r)
  {
    var span := FirstSpan(slot).(traceId := parent.traceId, parentId := parent.spanId);
    ReplaceSpan(slot, slot.first.value, span).(sampled := parent.sampled)
  }

  /** Without a caller the ratio decides: every ratio-th request is sampled. C++ and Dafny agree on when a
      remainder is zero. */
  function ApplyRatio(slot: Slot, ratio: int, count: int): Slot
    requires ratio != 0
  {
    if ratio == 1 || count % ratio == 0 then slot.(sampled := true) else slot
  }

  ghost function ParseTraceParent(slot: Slot, header: string, ratio: int, count: int): (r: Slot)
    requires Active(slot) && ratio != 0
    requires header != "" ==> TraceContext.WellFormed(header)
    ensures Active(r)
  {
    if header == "" then ApplyRatio(slot, ratio, count)
    else
      match TraceContext.ParseTraceParent(header)
      case Some(parent) => AdoptParent(slot, parent)
      case None => slot
  }

  /** A header with another number of fields than four changes nothing, and leaves no decision to the ratio. */
  lemma IgnoredHeader(slot: Slot, header: string, ratio: int, count: int)
    requires Active(slot) && ratio != 0 && header != "" && |TraceContext.Explode.Split("-", header)| != 4
    ensures TraceContext.WellFormed(header) && ParseTraceParent(slot, header, ratio, count) == slot
  {
  }

  /** `okEnd` keeps a status that is already set. */
  function Ended(span: Span, now: nat): Span {
    span.(status := if span.status == Unset then Ok else span.status, end := now)
  }

  function Failed(span: Span, message: string, now: nat): Span {
    span.(status := Error(message), end := now)
  }

  function OkEnd(slot: Slot, i: nat, now: nat): Slot
    requires ValidSlot(slot) && slot.batch.Some? && i < |slot.batch.value|
  {
    assert slot.batch.value[i] in slot.batch.value;
    ReplaceSpan(slot, i, Ended(slot.batch.value[i], now))
  }

  /** An error makes the whole request sampled. */
  function ErrorEnd(slot: Slot, i: nat, message: string, now: nat): Slot
    requires ValidSlot(slot) && slot.batch.Some? && i < |slot.batch.value|
  {
    assert slot.batch.value[i] in slot.batch.value;
    ReplaceSpan(slot, i, Failed(slot.batch.value[i], message, now)).(sampled := true)
  }

  /** A failed span stays failed: the `okEnd` that follows an `errorEnd` moves its end and keeps its status. */
  lemma ErrorSurvives(slot: Slot, i: nat, message: string, a: nat, b: nat)
    requires Active(slot) && i < |slot.batch.value|
    ensures var s := OkEnd(ErrorEnd(slot, i, message, a), i, b);
      && s.sampled && |s.batch.value| == |slot.batch.value|
      && s.batch.value[i] == slot.batch.value[i].(status := Error(message), end := b)
      && forall k :: 0 <= k < |slot.batch.value| && k != i ==> s.batch.value[k] == slot.batch.value[k]
  {
  }

  /** A client span: a new span below the first one. */
  function AddChild(slot: Slot, name: string, kind: Kind, draw: Draw, attributes: seq<Pair>): (r: Slot)
    requires Active(slot) && ValidDraw(draw)
    ensures Active(r) && r.first == slot.first && |r.batch.value| == |slot.batch.value| + 1
  {
    var s := WithSpan(slot, name, kind, draw, attributes);
    var i := |s.batch.value| - 1;
    ReplaceSpan(s, i, s.batch.value[i].(parentId := FirstSpan(slot).spanId))
  }

  // ----- the two storage forms -----

  /** The operations on the slot of a process. */
  datatype Operation =
    | DoClean
    | DoCreateFirstSpan(name: string, kind: Kind, draw: Draw, attributes: seq<Pair>)
    | DoCreateSpan(name: string, kind: Kind, draw: Draw, attributes: seq<Pair>)
    | DoSetParent(i: nat, parentId: seq<byte>)
    | DoSetSampled(sampled: bool)
    | DoAddBaggage(key: string, value: string)
    | DoParseTraceParent(header: string, ratio: int)
    | DoParseBaggage(header: string)
    | DoOkEnd(i: nat, now: nat)
    | DoErrorEnd(i: nat, message: string, now: nat)
    | DoSetRedisException(message: string)
    | DoGetBaggage
    | DoFormatBaggage(order: seq<string>)

  ghost predicate HasSpan(slot: Slot, i: nat) {
    slot.batch.Some? && i < |slot.batch.value|
  }

  /** Everything but a clean and a first span takes place in a started request. */
  ghost predicate Can(op: Operation, slot: Slot) {
    ValidSlot(slot) &&
    match op
    case DoClean => true
    case DoCreateFirstSpan(_, _, draw, _) => ValidDraw(draw)
    case DoCreateSpan(_, _, draw, _) => Active(slot) && ValidDraw(draw)
    case DoSetParent(i, id) => Active(slot) && HasSpan(slot, i) && |id| == TraceContext.SPAN_ID_BYTES
    case DoParseTraceParent(header, ratio) =>
      Active(slot) && ratio != 0 && (header != "" ==> TraceContext.WellFormed(header))
    case DoOkEnd(i, _) => Active(slot) && HasSpan(slot, i)
    case DoErrorEnd(i, _, _) => Active(slot) && HasSpan(slot, i)
    case DoFormatBaggage(order) => Active(slot) && TraceContext.IterationOrder(slot.baggage, order)
    case _ => Active(slot)
  }

  function SetParent(slot: Slot, i: nat, parentId: seq<byte>): Slot
    requires ValidSlot(slot) && slot.batch.Some? && i < |slot.batch.value|
    requires |parentId| == TraceContext.SPAN_ID_BYTES
  {
    assert slot.batch.value[i] in slot.batch.value;
    ReplaceSpan(slot, i, slot.batch.value[i].(parentId := parentId))
  }

  /** The slot after an operation, in either form; count is the request counter. */
  ghost function Do(op: Operation, slot: Slot, count: int, cli: bool): Slot
    requires Can(op, slot)
  {
    match op
    case DoClean => Clean(slot, cli)
    case DoCreateFirstSpan(name, kind, draw, attributes) => WithFirstSpan(slot, name, kind, draw, attributes)
    case DoCreateSpan(name, kind, draw, attributes) => WithSpan(slot, name, kind, draw, attributes)
    case DoSetParent(i, id) => SetParent(slot, i, id)
    case DoSetSampled(b) => slot.(sampled := b)
    case DoAddBaggage(k, v) => AddBaggage(slot, k, v)
    case DoParseTraceParent(header, ratio) => ParseTraceParent(slot, header, ratio, count)
    case DoParseBaggage(header) => ParseBaggage(slot, header)
    case DoOkEnd(i, now) => OkEnd(slot, i, now)
    case DoErrorEnd(i, message, now) => ErrorEnd(slot, i, message, now)
    case DoSetRedisException(message) => slot.(redisException := message)
    case DoGetBaggage => slot
    case DoFormatBaggage(_) => slot
  }

  /** An operation with the value of the request counter that it finds. All processes share the counter. */
  datatype Timed = Timed(op: Operation, count: int)

  /** The operations can be done one after the other. */
  ghost predicate CanAll(ops: seq<Timed>, slot: Slot, cli: bool)
    decreases |ops|
  {
    ops == [] || (Can(ops[0].op, slot) && CanAll(ops[1..], Do(ops[0].op, slot, ops[0].count, cli), cli))
  }

  ghost function DoAll(ops: seq<Timed>, slot: Slot, cli: bool): Slot
    requires CanAll(ops, slot, cli)
    decreases |ops|
  {
    if ops == [] then slot else DoAll(ops[1..], Do(ops[0].op, slot, ops[0].count, cli), cli)
  }

  /** Nothing of an earlier request is left over: without a batch there is no baggage and no pending exception. */
  predicate Tidy(slot: Slot) {
    slot.batch.None? ==> slot.baggage == map[] && slot.redisException == ""
  }

  /** The two forms of a clean agree on exactly the tidy slots. */
  lemma CleansAgree(slot: Slot)
    ensures CleanFpm(slot) == CleanCli(slot) <==> Tidy(slot)
  {
  }

  lemma {:induction false} AddAllBaggageKeeps(slot: Slot, pairs: seq<Pair>)
    requires ValidSlot(slot) && slot.resource.Some?
    ensures ValidSlot(AddAllBaggage(slot, pairs))
    ensures var r := AddAllBaggage(slot, pairs);
      && r == slot.(baggage := TraceContext.Bind(slot.baggage, pairs), resource := r.resource)
      && r.resource == Some(slot.resource.value + pairs)
    decreases |pairs|
  {
    if pairs == [] {
      assert slot.resource.value + [] == slot.resource.value;
    } else {
      AddAllBaggageKeeps(AddBaggage(slot, pairs[0].0, pairs[0].1), pairs[1..]);
      assert slot.resource.value + [pairs[0]] + pairs[1..] == slot.resource.value + pairs;
    }
  }

  /** Without a batch nothing is left at all, but for the resource of the last request. */
  predicate Settled(slot: Slot) {
    slot.batch.None? ==> slot == EMPTY.(resource := slot.resource)
  }

  lemma DoKeeps(op: Operation, slot: Slot, count: int, cli: bool)
    requires Can(op, slot)
    ensures ValidSlot(Do(op, slot, count, cli))
    ensures Tidy(slot) ==> Tidy(Do(op, slot, count, cli))
    ensures Settled(slot) ==> Settled(Do(op, slot, count, cli))
  {
    if op.DoParseBaggage? {
      AddAllBaggageKeeps(slot, TraceContext.ParseBaggage(op.header));
    }
  }

  /** No operations leave baggage, an exception or a flag behind without a batch. */
  lemma {:induction false} AlwaysSettled(ops: seq<Timed>, slot: Slot, cli: bool)
    requires ValidSlot(slot) && Settled(slot) && CanAll(ops, slot, cli)
    ensures ValidSlot(DoAll(ops, slot, cli)) && Settled(DoAll(ops, slot, cli)) && Tidy(DoAll(ops, slot, cli))
    decreases |ops|
  {
    if ops != [] {
      DoKeeps(ops[0].op, slot, ops[0].count, cli);
      hide Can, Do, Settled, Tidy;
      AlwaysSettled(ops[1..], Do(ops[0].op, slot, ops[0].count, cli), cli);
    }
  }

  /** Started from a tidy slot, the process-keyed form and the single-slot form can do the same operations and
      end in the same slot. */
  lemma {:induction false} FormsAgree(ops: seq<Timed>, slot: Slot)
    requires Tidy(slot)
    ensures CanAll(ops, slot, true) <==> CanAll(ops, slot, false)
    ensures CanAll(ops, slot, true) ==> DoAll(ops, slot, true) == DoAll(ops, slot, false)
    decreases |ops|
  {
    if ops != [] && Can(ops[0].op, slot) {
      var op, count := ops[0].op, ops[0].count;
      DoKeeps(op, slot, count, true);
      CleansAgree(slot);
      assert Do(op, slot, count, true) == Do(op, slot, count, false);
      hide Can, Do;
      FormsAgree(ops[1..], Do(op, slot, count, true));
    }
  }

  /** So the two forms never differ: whatever a process does from the beginning, both end in the same slot. */
  lemma FormsNeverDiffer(ops: seq<Timed>)
    ensures CanAll(ops, EMPTY, true) <==> CanAll(ops, EMPTY, false)
    ensures CanAll(ops, EMPTY, true) ==>
              DoAll(ops, EMPTY, true) == DoAll(ops, EMPTY, false) && CleanFpm(DoAll(ops, EMPTY, true)) ==
              CleanCli(DoAll(ops, EMPTY, true))
  {
    FormsAgree(ops, EMPTY);
    if CanAll(ops, EMPTY, true) {
      AlwaysSettled(ops, EMPTY, true);
      CleansAgree(DoAll(ops, EMPTY, true));
    }
  }

  /** When a new request shows nothing of the one before it, for any slot at all. */
  lemma FreshRequest(slot: Slot, cli: bool, name: string, kind: Kind, draw: Draw, attributes: seq<Pair>)
    requires ValidSlot(slot) && ValidDraw(draw)
    ensures (WithFirstSpan(Clean(slot, cli), name, kind, draw, attributes) ==
             WithFirstSpan(EMPTY, name, kind, draw, attributes)) <==>
            (slot.batch.Some? || (!slot.sampled && (cli || Tidy(slot))))
  {
  }

  /** In either form, a request after any number of others begins exactly as the very first one does. */
  lemma EveryRequestIsFresh(ops: seq<Timed>, cli: bool, name: string, kind: Kind, draw: Draw, attributes: seq<Pair>)
    requires CanAll(ops, EMPTY, cli) && ValidDraw(draw)
    ensures ValidSlot(Clean(DoAll(ops, EMPTY, cli), cli))
    ensures WithFirstSpan(Clean(DoAll(ops, EMPTY, cli), cli), name, kind, draw, attributes) ==
            WithFirstSpan(EMPTY, name, kind, draw, attributes)
  {
    AlwaysSettled(ops, EMPTY, cli);
    hide CanAll, DoAll;
    FreshRequest(DoAll(ops, EMPTY, cli), cli, name, kind, draw, attributes);
  }

  /** Two values of the counter lead an operation to the same decision. Only the ratio rule reads the counter. */
  predicate SameDecision(op: Operation, a: int, b: int) {
    op.DoParseTraceParent? && op.header == "" && op.ratio != 0 && op.ratio != 1 ==>
      (a % op.ratio == 0 <==> b % op.ratio == 0)
  }

  /** The same operations end in the same slot as long as the counter decides alike. */
  lemma {:induction false} OnlyRatioReadsCount(xs: seq<Timed>, ys: seq<Timed>, slot: Slot, cli: bool)
    requires |xs| == |ys|
    requires forall i :: 0 <= i < |xs| ==> xs[i].op == ys[i].op && SameDecision(xs[i].op, xs[i].count, ys[i].count)
    ensures CanAll(xs, slot, cli) <==> CanAll(ys, slot, cli)
    ensures CanAll(xs, slot, cli) ==> DoAll(xs, slot, cli) == DoAll(ys, slot, cli)
    decreases |xs|
  {
    if xs != [] && Can(xs[0].op, slot) {
      assert Do(xs[0].op, slot, xs[0].count, cli) == Do(ys[0].op, slot, ys[0].count, cli);
      hide Can, Do, SameDecision;
      OnlyRatioReadsCount(xs[1..], ys[1..], Do(xs[0].op, slot, xs[0].count, cli), cli);
    }
  }
}
