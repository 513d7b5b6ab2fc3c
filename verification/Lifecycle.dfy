/** Many processes, each serving requests one after the other and calling one another. The steps are the
    operations of src/core.cc, src/sdk.cc and the client hook of src/zend_hook_curl.cc, in any order among the
    processes; what they leave behind is kept as the history of all spans, runs and emitted headers. */
module Lifecycle {
  import opened Prelude
  import opened Slots
  import opened Core
  import TraceContext
  import SampleCounter
  import CurlHooks
  import Conversions

  /** What a span contributes to the shape of its trace. */
  datatype Link = Link(traceId: seq<byte>, spanId: seq<byte>, parentId: seq<byte>)

  /** A span that was created during a run. */
  datatype Node = Node(link: Link, run: nat)

  /** A pair of headers that a run has emitted for one of its spans. */
  datatype Header = Header(text: string, baggageText: string, parent: TraceContext.Parent, node: nat, run: nat,
                           baggage: map<string, string>)

  /** One request or command-line run: its process, the emitted header it was started with, its first span,
      whether it was sampled at the start, whether something has bound it to be exported since, whether the
      program has set the ratio to 0 and how many headers there were when it last did, and how it ended. */
  datatype Run = Run(pid: nat, source: Option<nat>, first: nat, startMarked: bool, marked: bool, zeroed: bool,
                     zeroedAt: nat, finished: bool, offered: bool, final: seq<Span>)

  datatype Process = Process(config: Config, slot: Slot, count: int, run: Option<nat>)

  datatype World = World(procs: seq<Process>, runs: seq<Run>, nodes: seq<Node>, headers: seq<Header>, clock: nat)

  datatype Step =
    | Start(p: nat, source: Option<nat>, name: string, kind: Kind, draw: Draw)
    | Send(p: nat, name: string, draw: Draw, now: nat, order: seq<string>)
    | Announce(p: nat, now: nat, order: seq<string>)
    | Add(p: nat, name: string, kind: Kind, draw: Draw, start: nat, failure: Option<string>, endTime: nat)
    | End(p: nat, i: nat, failure: Option<string>, now: nat)
    | SetRatio(p: nat, ratioBased: int, hasTraceparent: bool)
    | AddEntry(p: nat, key: string, value: string)
    | Shutdown(p: nat, endTime: nat, now: nat)

  function LinkOf(span: Span): Link {
    Link(span.traceId, span.spanId, span.parentId)
  }

  function Links(batch: seq<Span>): (links: seq<Link>)
    ensures |links| == |batch|
    ensures forall i :: 0 <= i < |batch| ==> links[i] == LinkOf(batch[i])
  {
    if batch == [] then [] else Links(batch[..|batch| - 1]) + [LinkOf(batch[|batch| - 1])]
  }

  /** The spans of one run, in the order of their creation. */
  function OfRun(nodes: seq<Node>, r: nat): seq<Link> {
    if nodes == [] then []
    else
      var last := nodes[|nodes| - 1];
      OfRun(nodes[..|nodes| - 1], r) + if last.run == r then [last.link] else []
  }

  /** A new span identifier is none of the earlier ones, and a new trace identifier likewise. */
  predicate FreshDraw(w: World, draw: Draw) {
    && ValidDraw(draw)
    && (forall n :: n in w.nodes ==> n.link.spanId != draw.spanId && n.link.traceId != draw.traceId)
  }

  /** Clock readings never go back, and a count of nanoseconds fits 64 bits. */
  predicate Ticks(w: World, a: nat, b: nat) {
    w.clock <= a <= b < UINT64
  }

  predicate Running(w: World, p: nat) {
    p < |w.procs| && w.procs[p].run.Some? && w.procs[p].run.value < |w.runs| && Active(w.procs[p].slot)
  }

  function IncomingOf(w: World, source: Option<nat>): Incoming
    requires source.Some? ==> source.value < |w.headers|
  {
    if source.None? then Incoming("", "")
    else Incoming(w.headers[source.value].text, w.headers[source.value].baggageText)
  }

  ghost predicate Enabled(w: World, step: Step) {
    match step
    case Start(p, source, _, _, draw) =>
      && p < |w.procs| && w.procs[p].run.None? && ValidSlot(w.procs[p].slot)
      && (source.Some? ==> source.value < |w.headers| && Readable(IncomingOf(w, source)))
      && FreshDraw(w, draw) && Ticks(w, draw.now, draw.now) && w.procs[p].config.sampleRatioBased != 0
    case Send(p, _, draw, now, order) =>
      && Running(w, p) && FreshDraw(w, draw) && Ticks(w, draw.now, now)
      && TraceContext.IterationOrder(w.procs[p].slot.baggage, order)
    case Announce(p, now, order) =>
      Running(w, p) && Ticks(w, now, now) && TraceContext.IterationOrder(w.procs[p].slot.baggage, order)
    case Add(p, _, _, draw, _, _, endTime) => Running(w, p) && FreshDraw(w, draw) && Ticks(w, draw.now, endTime)
    case End(p, i, _, now) => Running(w, p) && i < |w.procs[p].slot.batch.value| && Ticks(w, now, now)
    case SetRatio(p, _, _) => Running(w, p) && w.procs[p].config.sampleRatioBased != 0
    case AddEntry(p, _, _) => Running(w, p)
    case Shutdown(p, endTime, now) => Running(w, p) && Ticks(w, endTime, now)
  }

  /** The headers for a span whose place among all spans is `node`. */
  function HeaderFor(w: World, slot: Slot, config: Config, spanId: seq<byte>, node: nat, r: nat, now: nat,
                     order: seq<string>): Header
    requires Active(slot) && forall k :: k in order ==> k in slot.baggage
  {
    var parent := TraceContext.Parent(FirstSpan(slot).traceId, spanId, Sampled(slot, now, config.maxTimeConsuming));
    Header(TraceContext.FormatTraceParent(parent), TraceContext.FormatBaggage(slot.baggage, order), parent, node, r,
           slot.baggage)
  }

  function WithSlot(w: World, p: nat, slot: Slot): World
    requires p < |w.procs|
  {
    w.(procs := w.procs[p := w.procs[p].(slot := slot)])
  }

  /** The history gains the newest span of a slot. */
  function WithNode(w: World, slot: Slot, r: nat): World
    requires slot.batch.Some? && slot.batch.value != []
  {
    w.(nodes := w.nodes + [Node(LinkOf(slot.batch.value[|slot.batch.value| - 1]), r)])
  }

  /** Something may have bound run r to be exported. */
  function Mark(w: World, r: nat, marked: bool): World
    requires r < |w.runs|
  {
    w.(runs := w.runs[r := w.runs[r].(marked := w.runs[r].marked || marked)])
  }

  ghost function StartedSlot(w: World, p: nat, source: Option<nat>, name: string, kind: Kind, draw: Draw): (slot: Slot)
    requires Enabled(w, Start(p, source, name, kind, draw))
    ensures Active(slot)
  {
    var proc := w.procs[p];
    Started(proc.slot, proc.config.cliSapi, name, kind, draw, proc.config.attributes, IncomingOf(w, source),
            proc.config.sampleRatioBased, StartCount(proc))
  }

  /** The command line makes a new provider for every run, so its counter starts anew; this holds exactly while
      every run ends under the parent process that it began under, see FreshCounter in CommandLine.dfy. */
  function StartCount(proc: Process): int {
    SampleCounter.Next(if proc.config.cliSapi then 0 else proc.count)
  }

  ghost function ApplyStart(w: World, p: nat, source: Option<nat>, name: string, kind: Kind, draw: Draw): World
    requires Enabled(w, Start(p, source, name, kind, draw))
  {
    var slot := StartedSlot(w, p, source, name, kind, draw);
    var r := |w.runs|;
    w.(procs := w.procs[p := w.procs[p].(slot := slot, count := StartCount(w.procs[p]), run := Some(r))],
       runs := w.runs + [Run(p, source, |w.nodes|, slot.sampled, slot.sampled, false, 0, false, false, [])],
       nodes := w.nodes + [Node(LinkOf(FirstSpan(slot)), r)],
       clock := draw.now)
  }

  function ApplyShutdown(w: World, p: nat, endTime: nat, now: nat): World
    requires Running(w, p)
  {
    var proc := w.procs[p];
    var r := proc.run.value;
    var slot := Completed(proc.slot, endTime);
    var offered := proc.config.enableCollect && Sampled(slot, now, proc.config.maxTimeConsuming);
    w.(procs := w.procs[p := proc.(slot := if proc.config.cliSapi then EMPTY else CleanFpm(slot), run := None)],
       runs := w.runs[r := w.runs[r].(finished := true, offered := offered, final := slot.batch.value)],
       clock := now)
  }

  /** The client hook up to the transfer: a child span, and headers that name it. */
  function ApplySend(w: World, p: nat, name: string, draw: Draw, now: nat, order: seq<string>): World
    requires Running(w, p) && ValidDraw(draw) && forall k :: k in order ==> k in w.procs[p].slot.baggage
  {
    var proc := w.procs[p];
    var r := proc.run.value;
    var slot := AddChild(proc.slot, name, Client, draw, proc.config.attributes);
    var header := HeaderFor(w, slot, proc.config, draw.spanId, |w.nodes|, r, now, order);
    Mark(WithNode(WithSlot(w, p, slot), slot, r), r, header.parent.sampled)
    .(headers := w.headers + [header], clock := now)
  }

  /** `opentelemetry_get_traceparent` and `opentelemetry_get_baggage`: headers that name the first span. */
  function ApplyAnnounce(w: World, p: nat, now: nat, order: seq<string>): World
    requires Running(w, p) && forall k :: k in order ==> k in w.procs[p].slot.baggage
  {
    var proc := w.procs[p];
    var r := proc.run.value;
    var header := HeaderFor(w, proc.slot, proc.config, FirstSpan(proc.slot).spanId, w.runs[r].first, r, now, order);
    Mark(w, r, header.parent.sampled).(headers := w.headers + [header], clock := now)
  }

  function ApplyAdd(w: World, p: nat, name: string, kind: Kind, draw: Draw, start: nat, failure: Option<string>,
                    endTime: nat): World
    requires Running(w, p) && ValidDraw(draw)
  {
    var proc := w.procs[p];
    var slot := SpanAdded(proc.slot, name, kind, draw, proc.config.attributes, start, failure, endTime);
    AddedSlot(proc.slot, name, kind, draw, proc.config.attributes, start, failure, endTime);
    Mark(WithNode(WithSlot(w, p, slot), slot, proc.run.value), proc.run.value, failure.Some?).(clock := endTime)
  }

  /** A hook ends a span, well or with an error. */
  function ApplyEnd(w: World, p: nat, i: nat, failure: Option<string>, now: nat): World
    requires Running(w, p) && i < |w.procs[p].slot.batch.value|
  {
    var proc := w.procs[p];
    var slot := if failure.Some? then Slots.ErrorEnd(proc.slot, i, failure.value, now)
                else Slots.OkEnd(proc.slot, i, now);
    Mark(WithSlot(w, p, slot), proc.run.value, failure.Some?).(clock := now)
  }

  function ApplyRatio(w: World, p: nat, ratioBased: int, hasTraceparent: bool): World
    requires Running(w, p) && w.procs[p].config.sampleRatioBased != 0
  {
    var proc := w.procs[p];
    var r := proc.run.value;
    var slot := RatioSet(proc.slot, ratioBased, hasTraceparent, proc.config.sampleRatioBased, proc.count);
    if ratioBased == 0 then
      WithSlot(w, p, slot).(runs := w.runs[r := w.runs[r].(marked := false, zeroed := true, zeroedAt := |w.headers|)])
    else Mark(WithSlot(w, p, slot), r, slot.sampled)
  }

  ghost function Apply(w: World, step: Step): World
    requires Enabled(w, step)
  {
    match step
    case Start(p, source, name, kind, draw) => ApplyStart(w, p, source, name, kind, draw)
    case Send(p, name, draw, now, order) => ApplySend(w, p, name, draw, now, order)
    case Announce(p, now, order) => ApplyAnnounce(w, p, now, order)
    case Add(p, name, kind, draw, start, failure, endTime) =>
      ApplyAdd(w, p, name, kind, draw, start, failure, endTime)
    case End(p, i, failure, now) => ApplyEnd(w, p, i, failure, now)
    case SetRatio(p, ratioBased, hasTraceparent) => ApplyRatio(w, p, ratioBased, hasTraceparent)
    case AddEntry(p, key, value) => WithSlot(w, p, Slots.AddBaggage(w.procs[p].slot, key, value))
    case Shutdown(p, endTime, now) => ApplyShutdown(w, p, endTime, now)
  }

  ghost predicate CanRun(w: World, run: seq<Step>)
    decreases |run|
  {
    run == [] || (Enabled(w, run[0]) && CanRun(Apply(w, run[0]), run[1..]))
  }

  ghost function After(w: World, run: seq<Step>): World
    requires CanRun(w, run)
    decreases |run|
  {
    if run == [] then w else After(Apply(w, run[0]), run[1..])
  }

  /** Processes that have done nothing yet. */
  function Initial(configs: seq<Config>): World {
    World(seq(|configs|, i requires 0 <= i < |configs| => Process(configs[i], EMPTY, 0, None)), [], [], [], 0)
  }

  // ----- the invariant -----

  predicate HasError(batch: seq<Span>) {
    exists i :: 0 <= i < |batch| && batch[i].status.Error?
  }

  predicate Idle(slot: Slot) {
    slot == EMPTY.(resource := slot.resource)
  }

  /** What the slot of process p holds is what the history says about its current run. */
  predicate ProcessOk(w: World, p: nat)
    requires p < |w.procs|
  {
    var proc := w.procs[p];
    match proc.run
    case None => Idle(proc.slot)
    case Some(r) =>
      && r < |w.runs| && !w.runs[r].finished && w.runs[r].pid == p
      && Active(proc.slot) && proc.slot.first == Some(0)
      && Links(proc.slot.batch.value) == OfRun(w.nodes, r)
      && FirstSpan(proc.slot).start <= w.clock
      && (w.runs[r].marked ==> Sampled(proc.slot, w.clock, proc.config.maxTimeConsuming))
      && (HasError(proc.slot.batch.value) ==> w.runs[r].marked || w.runs[r].zeroed)
  }

  /** On the command line, with the counter at 1 in every run, the ratio samples all roots or none. */
  predicate RootRatio(w: World, r: nat)
    requires r < |w.runs|
  {
    var pid := w.runs[r].pid;
    pid < |w.procs| && w.procs[pid].config.cliSapi ==>
      (w.runs[r].startMarked <==> w.procs[pid].config.sampleRatioBased in {1, -1})
  }

  predicate SourceOk(w: World, r: nat)
    requires r < |w.runs| && w.runs[r].first < |w.nodes|
  {
    var first := w.nodes[w.runs[r].first].link;
    match w.runs[r].source
    case None =>
      && first.parentId == [] && RootRatio(w, r)
      && forall j :: 0 <= j < w.runs[r].first ==> w.nodes[j].link.traceId != first.traceId
    case Some(h) =>
      && h < |w.headers| && w.headers[h].run < r && w.headers[h].node < w.runs[r].first
      && w.headers[h].parent == TraceContext.Parent(first.traceId, first.parentId, w.runs[r].startMarked)
  }

  predicate RunOk(w: World, r: nat)
    requires r < |w.runs|
  {
    var run := w.runs[r];
    && run.pid < |w.procs|
    && (!run.finished ==> w.procs[run.pid].run == Some(r) && !run.offered)
    && (run.finished ==> Links(run.final) == OfRun(w.nodes, r))
    && (run.finished && HasError(run.final) ==> run.marked || run.zeroed)
    && (run.finished && run.marked && w.procs[run.pid].config.enableCollect ==> run.offered)
    && (run.startMarked && !run.zeroed ==> run.marked) && run.zeroedAt <= |w.headers|
    && run.first < |w.nodes| && w.nodes[run.first].run == r
    && OfRun(w.nodes, r) != [] && OfRun(w.nodes, r)[0] == w.nodes[run.first].link
    && SourceOk(w, r)
  }

  ghost predicate BaggageOk(header: Header) {
    exists order :: TraceContext.IterationOrder(header.baggage, order) &&
                    header.baggageText == TraceContext.FormatBaggage(header.baggage, order)
  }

  ghost predicate HeaderOk(w: World, h: nat)
    requires h < |w.headers|
  {
    var header := w.headers[h];
    && BaggageOk(header)
    && header.run < |w.runs| && header.node < |w.nodes| && w.nodes[header.node].run == header.run
    && header.parent.traceId == w.nodes[header.node].link.traceId
    && header.parent.spanId == w.nodes[header.node].link.spanId
    && TraceContext.ValidParent(header.parent) && header.text == TraceContext.FormatTraceParent(header.parent)
    && (header.parent.sampled ==> w.runs[header.run].marked || h < w.runs[header.run].zeroedAt)
    && (w.runs[header.run].startMarked && !w.runs[header.run].zeroed ==> header.parent.sampled)
  }

  predicate NodeOk(w: World, i: nat)
    requires i < |w.nodes|
  {
    var node := w.nodes[i];
    && node.run < |w.runs| && w.runs[node.run].first <= i
    && node.link.traceId == w.nodes[w.runs[node.run].first].link.traceId
    && (i != w.runs[node.run].first ==> node.link.parentId == w.nodes[w.runs[node.run].first].link.spanId)
    && |node.link.spanId| == TraceContext.SPAN_ID_BYTES
  }

  predicate DistinctIds(nodes: seq<Node>) {
    forall i, j :: 0 <= i < j < |nodes| ==> nodes[i].link.spanId != nodes[j].link.spanId
  }

  ghost predicate Inv(w: World) {
    && w.clock < UINT64 && DistinctIds(w.nodes)
    && (forall p :: 0 <= p < |w.procs| ==> ProcessOk(w, p))
    && (forall r :: 0 <= r < |w.runs| ==> RunOk(w, r))
    && (forall h :: 0 <= h < |w.headers| ==> HeaderOk(w, h))
    && (forall i :: 0 <= i < |w.nodes| ==> NodeOk(w, i))
  }

  // ----- one step inside a run keeps the invariant -----

  /** A span below the first one of run r, with an identifier of its own. */
  predicate ChildLink(w: World, r: nat, link: Link) {
    && r < |w.runs| && w.runs[r].first < |w.nodes|
    && link.traceId == w.nodes[w.runs[r].first].link.traceId
    && link.parentId == w.nodes[w.runs[r].first].link.spanId
    && |link.spanId| == TraceContext.SPAN_ID_BYTES
    && forall n :: n in w.nodes ==> n.link.spanId != link.spanId
  }

  predicate NodesAdvanced(w: World, v: World, r: nat) {
    || v.nodes == w.nodes
    || (|v.nodes| == |w.nodes| + 1 && v.nodes == w.nodes + [v.nodes[|w.nodes|]]
        && v.nodes[|w.nodes|].run == r && ChildLink(w, r, v.nodes[|w.nodes|].link))
  }

  ghost predicate HeadersAdvanced(w: World, v: World) {
    || v.headers == w.headers
    || (|v.headers| == |w.headers| + 1 && v.headers == w.headers + [v.headers[|w.headers|]]
        && HeaderOk(v, |w.headers|))
  }

  predicate RunAdvanced(before: Run, after: Run, headers: nat) {
    && after == before.(marked := after.marked, zeroed := after.zeroed, zeroedAt := after.zeroedAt)
    && (before.zeroed ==> after.zeroed) && (after.zeroedAt == before.zeroedAt || after.zeroedAt == headers)
    && (before.marked ==> after.marked || (after.zeroed && after.zeroedAt == headers))
    && (after.startMarked && !after.zeroed ==> after.marked)
  }

  /** A step of process p during its run r: it may create one child span and emit one pair of headers. */
  ghost predicate Advanced(w: World, v: World, p: nat, r: nat) {
    && p < |w.procs| && w.procs[p].run == Some(r) && r < |w.runs|
    && |v.procs| == |w.procs| && v.procs[p].config == w.procs[p].config && v.procs[p].run == Some(r)
    && (forall q :: 0 <= q < |w.procs| && q != p ==> v.procs[q] == w.procs[q])
    && |v.runs| == |w.runs| && (forall k :: 0 <= k < |w.runs| && k != r ==> v.runs[k] == w.runs[k])
    && RunAdvanced(w.runs[r], v.runs[r], |w.headers|)
    && NodesAdvanced(w, v, r) && HeadersAdvanced(w, v)
    && w.clock <= v.clock < UINT64
  }

  lemma OfRunStep(nodes: seq<Node>, node: Node, r: nat)
    ensures OfRun(nodes + [node], r) == OfRun(nodes, r) + if node.run == r then [node.link] else []
  {
    assert (nodes + [node])[..|nodes|] == nodes;
  }

  lemma OfRunAdvanced(w: World, v: World, r: nat, k: nat)
    requires NodesAdvanced(w, v, r) && k != r
    ensures OfRun(v.nodes, k) == OfRun(w.nodes, k)
  {
    if v.nodes != w.nodes {
      OfRunStep(w.nodes, v.nodes[|w.nodes|], k);
    }
  }

  /** What is sampled stays so while the clock runs on. */
  lemma SampledLater(slot: Slot, a: nat, b: nat, maxTime: int)
    requires Active(slot) && FirstSpan(slot).start <= a <= b < UINT64
    requires Sampled(slot, a, maxTime)
    ensures Sampled(slot, b, maxTime)
  {
    hide Conversions.Millis;
    var start := FirstSpan(slot).start;
    assert (a - start) % UINT64 == a - start && (b - start) % UINT64 == b - start;
    Conversions.MillisMonotone(a - start, b - start);
  }

  lemma OtherProcessOk(w: World, v: World, p: nat, r: nat, q: nat)
    requires Advanced(w, v, p, r) && RunOk(w, r)
    requires ProcessOk(w, p) && q < |w.procs| && q != p && ProcessOk(w, q)
    ensures ProcessOk(v, q)
  {
    hide Sampled, OfRun, RunOk;
    if w.procs[q].run.Some? {
      var k := w.procs[q].run.value;
      OfRunAdvanced(w, v, r, k);
      if w.runs[k].marked {
        SampledLater(w.procs[q].slot, w.clock, v.clock, w.procs[q].config.maxTimeConsuming);
      }
    }
  }

  lemma SourceKeeps(w: World, v: World, p: nat, r: nat, k: nat)
    requires Advanced(w, v, p, r) && k < |w.runs| && w.runs[k].first < |w.nodes| && SourceOk(w, k)
    ensures v.runs[k].first < |v.nodes| && SourceOk(v, k)
  {
    hide HeaderOk, ChildLink;
  }

  lemma RunKeeps(w: World, v: World, p: nat, r: nat, k: nat)
    requires Advanced(w, v, p, r) && ProcessOk(w, p) && k < |w.runs| && RunOk(w, k)
    ensures RunOk(v, k)
  {
    SourceKeeps(w, v, p, r, k);
    hide SourceOk, HeaderOk, ChildLink, OfRun, Sampled;
    if k != r {
      OfRunAdvanced(w, v, r, k);
    } else if v.nodes != w.nodes {
      OfRunStep(w.nodes, v.nodes[|w.nodes|], k);
    }
  }

  lemma HeaderKeeps(w: World, v: World, p: nat, r: nat, h: nat)
    requires Advanced(w, v, p, r) && h < |w.headers| && HeaderOk(w, h)
    ensures h < |v.headers| && HeaderOk(v, h)
  {
    hide ChildLink, BaggageOk, TraceContext.FormatTraceParent;
  }

  lemma NodeKeeps(w: World, v: World, p: nat, r: nat, i: nat)
    requires Advanced(w, v, p, r) && i < |w.nodes| && NodeOk(w, i)
    ensures i < |v.nodes| && NodeOk(v, i)
  {
    hide ChildLink, HeaderOk;
  }

  lemma AdvancedShape(w: World, v: World, p: nat, r: nat)
    requires Advanced(w, v, p, r) && DistinctIds(w.nodes)
    ensures |v.procs| == |w.procs| && |v.runs| == |w.runs| && v.clock < UINT64 && DistinctIds(v.nodes)
    ensures |w.nodes| <= |v.nodes| <= |w.nodes| + 1 && (|v.nodes| == |w.nodes| ==> v.nodes == w.nodes)
    ensures |w.headers| <= |v.headers| <= |w.headers| + 1
    ensures |v.headers| > |w.headers| ==> HeaderOk(v, |w.headers|)
  {
    hide HeaderOk;
  }

  lemma AdvancedInv(w: World, v: World, p: nat, r: nat)
    requires Inv(w) && Advanced(w, v, p, r) && ProcessOk(v, p)
    ensures Inv(v)
  {
    AdvancedShape(w, v, p, r);
    assert p < |w.procs| && r < |w.runs| && ProcessOk(w, p) && RunOk(w, r);
    hide ProcessOk, RunOk, HeaderOk, NodeOk, Advanced, DistinctIds;
    forall q | 0 <= q < |v.procs| ensures ProcessOk(v, q) {
      if q != p {
        OtherProcessOk(w, v, p, r, q);
      }
    }
    forall k | 0 <= k < |v.runs| ensures RunOk(v, k) {
      RunKeeps(w, v, p, r, k);
    }
    forall h | 0 <= h < |v.headers| ensures HeaderOk(v, h) {
      if h < |w.headers| {
        HeaderKeeps(w, v, p, r, h);
      }
    }
    forall i | 0 <= i < |v.nodes| ensures NodeOk(v, i) {
      if i < |w.nodes| {
        NodeKeeps(w, v, p, r, i);
      } else {
        NewNodeOk(w, v, p, r);
      }
    }
  }

  lemma NewNodeOk(w: World, v: World, p: nat, r: nat)
    requires Advanced(w, v, p, r) && v.nodes != w.nodes
    ensures NodeOk(v, |w.nodes|)
  {
    hide HeaderOk;
  }

  // ----- what the operations do to a slot -----

  /** The same request, with the first span's identity and start unchanged. */
  predicate SameRequest(a: Slot, b: Slot) {
    && Active(a) && Active(b) && a.first == b.first
    && FirstSpan(b).start == FirstSpan(a).start && LinkOf(FirstSpan(b)) == LinkOf(FirstSpan(a))
  }

  lemma AppendLink(batch: seq<Span>, span: Span)
    ensures Links(batch + [span]) == Links(batch) + [LinkOf(span)]
  {
    assert (batch + [span])[..|batch|] == batch;
  }

  lemma ChildSlot(slot: Slot, name: string, kind: Kind, draw: Draw, attributes: seq<Pair>)
    requires Active(slot) && ValidDraw(draw)
    ensures var s := AddChild(slot, name, kind, draw, attributes);
      var link := Link(FirstSpan(slot).traceId, draw.spanId, FirstSpan(slot).spanId);
      && SameRequest(slot, s) && s.sampled == slot.sampled && s.baggage == slot.baggage
      && Links(s.batch.value) == Links(slot.batch.value) + [link]
      && LinkOf(s.batch.value[|s.batch.value| - 1]) == link
      && (HasError(s.batch.value) <==> HasError(slot.batch.value))
  {
    hide Links;
    var s := AddChild(slot, name, kind, draw, attributes);
    var last := s.batch.value[|s.batch.value| - 1];
    assert s.batch.value == slot.batch.value + [last];
    AppendLink(slot.batch.value, last);
    forall i | 0 <= i < |slot.batch.value| ensures s.batch.value[i] == slot.batch.value[i] {
    }
    assert !last.status.Error?;
  }

  lemma SameLinks(a: seq<Span>, b: seq<Span>)
    requires |a| == |b| && forall i :: 0 <= i < |a| ==> LinkOf(a[i]) == LinkOf(b[i])
    ensures Links(a) == Links(b)
  {
  }

  lemma EndedSlot(slot: Slot, i: nat, failure: Option<string>, now: nat)
    requires Active(slot) && i < |slot.batch.value|
    ensures var s := if failure.Some? then Slots.ErrorEnd(slot, i, failure.value, now) else Slots.OkEnd(slot, i, now);
      && SameRequest(slot, s) && s.sampled == (slot.sampled || failure.Some?) && s.baggage == slot.baggage
      && Links(s.batch.value) == Links(slot.batch.value) && |s.batch.value| == |slot.batch.value|
      && (HasError(s.batch.value) <==> HasError(slot.batch.value) || failure.Some?)
  {
    hide Links;
    var s := if failure.Some? then Slots.ErrorEnd(slot, i, failure.value, now) else Slots.OkEnd(slot, i, now);
    SameLinks(slot.batch.value, s.batch.value);
    forall k | 0 <= k < |s.batch.value|
      ensures s.batch.value[k].status.Error? <==> slot.batch.value[k].status.Error? || (k == i && failure.Some?)
    {
    }
    assert failure.Some? ==> s.batch.value[i].status.Error?;
  }

  lemma AddedSlot(slot: Slot, name: string, kind: Kind, draw: Draw, attributes: seq<Pair>, start: nat,
                  failure: Option<string>, endTime: nat)
    requires Active(slot) && ValidDraw(draw)
    ensures var s := SpanAdded(slot, name, kind, draw, attributes, start, failure, endTime);
      var link := Link(FirstSpan(slot).traceId, draw.spanId, FirstSpan(slot).spanId);
      && SameRequest(slot, s) && s.sampled == (slot.sampled || failure.Some?)
      && Links(s.batch.value) == Links(slot.batch.value) + [link]
      && s.batch.value != [] && LinkOf(s.batch.value[|s.batch.value| - 1]) == link
      && (HasError(s.batch.value) <==> HasError(slot.batch.value) || failure.Some?)
  {
    hide Links;
    ChildSlot(slot, name, kind, draw, attributes);
    var c := AddChild(slot, name, kind, draw, attributes);
    var i := |slot.batch.value|;
    assert c.batch.value[i] in c.batch.value;
    var t := ReplaceSpan(c, i, c.batch.value[i].(start := start));
    SameLinks(c.batch.value, t.batch.value);
    forall k | 0 <= k < |t.batch.value| ensures t.batch.value[k].status == c.batch.value[k].status {
    }
    hide HasError;
    EndedSlot(t, i, failure, endTime);
  }

  // ----- the steps -----

  /** The first span of the current run, in the slot and in the history. */
  lemma FirstInHistory(w: World, p: nat)
    requires Inv(w) && Running(w, p)
    ensures var r := w.procs[p].run.value;
      && RunOk(w, r) && LinkOf(FirstSpan(w.procs[p].slot)) == w.nodes[w.runs[r].first].link
  {
    assert ProcessOk(w, p);
    var r := w.procs[p].run.value;
    assert RunOk(w, r);
    assert Links(w.procs[p].slot.batch.value)[0] == OfRun(w.nodes, r)[0];
  }

  lemma SendProcess(w: World, p: nat, name: string, draw: Draw, now: nat, order: seq<string>)
    requires Inv(w) && Enabled(w, Send(p, name, draw, now, order))
    ensures ProcessOk(ApplySend(w, p, name, draw, now, order), p)
  {
    assert ProcessOk(w, p);
    var v := ApplySend(w, p, name, draw, now, order);
    var proc := w.procs[p];
    var r := proc.run.value;
    ChildSlot(proc.slot, name, Client, draw, proc.config.attributes);
    OfRunStep(w.nodes, v.nodes[|w.nodes|], r);
    if w.runs[r].marked {
      SampledLater(proc.slot, w.clock, now, proc.config.maxTimeConsuming);
    }
    hide OfRun, Inv, AddChild, TraceContext.FormatTraceParent, TraceContext.FormatBaggage, TraceContext.IterationOrder;
  }

  /** A child of the first span, with a fresh identifier, fits the history. */
  lemma FreshChild(w: World, p: nat, draw: Draw)
    requires Inv(w) && Running(w, p) && FreshDraw(w, draw)
    ensures var proc := w.procs[p]; var r := proc.run.value;
      && ChildLink(w, r, Link(FirstSpan(proc.slot).traceId, draw.spanId, FirstSpan(proc.slot).spanId))
      && (w.runs[r].startMarked && !w.runs[r].zeroed ==> w.runs[r].marked)
  {
    FirstInHistory(w, p);
    hide Inv, OfRun, Links, Sampled;
  }

  lemma SendHeader(w: World, p: nat, name: string, draw: Draw, now: nat, order: seq<string>)
    requires Inv(w) && Enabled(w, Send(p, name, draw, now, order))
    ensures HeaderOk(ApplySend(w, p, name, draw, now, order), |w.headers|)
  {
    FreshChild(w, p, draw);
    assert ProcessOk(w, p);
    var v := ApplySend(w, p, name, draw, now, order);
    var proc := w.procs[p];
    ChildSlot(proc.slot, name, Client, draw, proc.config.attributes);
    if w.runs[proc.run.value].marked {
      SampledLater(proc.slot, w.clock, now, proc.config.maxTimeConsuming);
    }
    hide OfRun, Inv, AddChild, Links;
    hide TraceContext.FormatTraceParent, TraceContext.FormatBaggage, TraceContext.IterationOrder;
    assert BaggageOk(v.headers[|w.headers|]);
    hide Sampled, BaggageOk;
  }

  lemma SendAdvances(w: World, p: nat, name: string, draw: Draw, now: nat, order: seq<string>)
    requires Inv(w) && Enabled(w, Send(p, name, draw, now, order))
    ensures Advanced(w, ApplySend(w, p, name, draw, now, order), p, w.procs[p].run.value)
  {
    FreshChild(w, p, draw);
    SendHeader(w, p, name, draw, now, order);
    var proc := w.procs[p];
    ChildSlot(proc.slot, name, Client, draw, proc.config.attributes);
    hide Inv, AddChild, Links, Sampled, HeaderOk, ChildLink, HeaderFor, TraceContext.IterationOrder, FreshDraw;
  }

  lemma AnnounceProcess(w: World, p: nat, now: nat, order: seq<string>)
    requires Inv(w) && Enabled(w, Announce(p, now, order))
    ensures ProcessOk(ApplyAnnounce(w, p, now, order), p)
  {
    assert ProcessOk(w, p);
    var proc := w.procs[p];
    if w.runs[proc.run.value].marked {
      SampledLater(proc.slot, w.clock, now, proc.config.maxTimeConsuming);
    }
    hide OfRun, Inv, TraceContext.FormatTraceParent, TraceContext.FormatBaggage, TraceContext.IterationOrder;
  }

  lemma AnnounceAdvances(w: World, p: nat, now: nat, order: seq<string>)
    requires Inv(w) && Enabled(w, Announce(p, now, order))
    ensures Advanced(w, ApplyAnnounce(w, p, now, order), p, w.procs[p].run.value)
  {
    FirstInHistory(w, p);
    assert ProcessOk(w, p);
    var v := ApplyAnnounce(w, p, now, order);
    var proc := w.procs[p];
    if w.runs[proc.run.value].marked {
      SampledLater(proc.slot, w.clock, now, proc.config.maxTimeConsuming);
    }
    hide OfRun, Inv, TraceContext.FormatTraceParent, TraceContext.FormatBaggage, TraceContext.IterationOrder;
    assert BaggageOk(v.headers[|w.headers|]);
    hide BaggageOk;
    assert HeaderOk(v, |w.headers|);
  }

  lemma SampledAlike(a: Slot, b: Slot, now: nat, maxTime: int)
    requires SameRequest(a, b) && (a.sampled ==> b.sampled) && Sampled(a, now, maxTime)
    ensures Sampled(b, now, maxTime)
  {
  }

  lemma AddProcess(w: World, p: nat, name: string, kind: Kind, draw: Draw, start: nat, failure: Option<string>,
                   endTime: nat)
    requires Inv(w) && Enabled(w, Add(p, name, kind, draw, start, failure, endTime))
    ensures ProcessOk(ApplyAdd(w, p, name, kind, draw, start, failure, endTime), p)
  {
    assert ProcessOk(w, p);
    var v := ApplyAdd(w, p, name, kind, draw, start, failure, endTime);
    var proc := w.procs[p];
    var r := proc.run.value;
    AddedSlot(proc.slot, name, kind, draw, proc.config.attributes, start, failure, endTime);
    OfRunStep(w.nodes, v.nodes[|w.nodes|], r);
    hide HasError, OfRun, Inv, SpanAdded, Links, FreshDraw, Sampled;
    if w.runs[r].marked {
      SampledLater(proc.slot, w.clock, endTime, proc.config.maxTimeConsuming);
      SampledAlike(proc.slot, v.procs[p].slot, endTime, proc.config.maxTimeConsuming);
    } else if failure.Some? {
      FlagIsSampled(v.procs[p].slot, endTime, proc.config.maxTimeConsuming);
    }
  }

  lemma FlagIsSampled(slot: Slot, now: nat, maxTime: int)
    requires slot.sampled
    ensures Sampled(slot, now, maxTime)
  {
  }

  lemma AddAdvances(w: World, p: nat, name: string, kind: Kind, draw: Draw, start: nat, failure: Option<string>,
                    endTime: nat)
    requires Inv(w) && Enabled(w, Add(p, name, kind, draw, start, failure, endTime))
    ensures Advanced(w, ApplyAdd(w, p, name, kind, draw, start, failure, endTime), p, w.procs[p].run.value)
  {
    FreshChild(w, p, draw);
    var proc := w.procs[p];
    AddedSlot(proc.slot, name, kind, draw, proc.config.attributes, start, failure, endTime);
    hide Inv, SpanAdded, Sampled, Links, ChildLink, FreshDraw;
  }

  lemma EndProcess(w: World, p: nat, i: nat, failure: Option<string>, now: nat)
    requires Inv(w) && Enabled(w, End(p, i, failure, now))
    ensures ProcessOk(ApplyEnd(w, p, i, failure, now), p)
  {
    assert ProcessOk(w, p);
    var proc := w.procs[p];
    EndedSlot(proc.slot, i, failure, now);
    if w.runs[proc.run.value].marked {
      SampledLater(proc.slot, w.clock, now, proc.config.maxTimeConsuming);
    }
    hide OfRun, Inv, Slots.ErrorEnd, Slots.OkEnd, Links;
  }

  lemma EndAdvances(w: World, p: nat, i: nat, failure: Option<string>, now: nat)
    requires Inv(w) && Enabled(w, End(p, i, failure, now))
    ensures Advanced(w, ApplyEnd(w, p, i, failure, now), p, w.procs[p].run.value)
  {
    FirstInHistory(w, p);
    assert ProcessOk(w, p);
    hide OfRun, Inv, Slots.ErrorEnd, Slots.OkEnd, Links, Sampled;
  }

  lemma RatioProcess(w: World, p: nat, ratioBased: int, hasTraceparent: bool)
    requires Inv(w) && Enabled(w, SetRatio(p, ratioBased, hasTraceparent))
    ensures ProcessOk(ApplyRatio(w, p, ratioBased, hasTraceparent), p)
  {
    assert ProcessOk(w, p);
    hide OfRun, Inv, Links, HasError;
  }

  lemma RatioAdvances(w: World, p: nat, ratioBased: int, hasTraceparent: bool)
    requires Inv(w) && Enabled(w, SetRatio(p, ratioBased, hasTraceparent))
    ensures Advanced(w, ApplyRatio(w, p, ratioBased, hasTraceparent), p, w.procs[p].run.value)
  {
    MarkedFromStart(w, p);
    hide Inv, RatioSet, HeaderOk, ChildLink;
  }

  lemma MarkedFromStart(w: World, p: nat)
    requires Inv(w) && Running(w, p)
    ensures w.clock < UINT64
    ensures var run := w.runs[w.procs[p].run.value]; run.startMarked && !run.zeroed ==> run.marked
  {
    assert ProcessOk(w, p) && RunOk(w, w.procs[p].run.value);
    hide OfRun, Links, HasError, Sampled;
  }

  lemma EntryInv(w: World, p: nat, key: string, value: string)
    requires Inv(w) && Enabled(w, AddEntry(p, key, value))
    ensures var v := WithSlot(w, p, Slots.AddBaggage(w.procs[p].slot, key, value));
      ProcessOk(v, p) && Advanced(w, v, p, w.procs[p].run.value)
  {
    FirstInHistory(w, p);
    assert ProcessOk(w, p);
    hide OfRun, Inv, Links;
  }

  // ----- the start of a run -----

  /** A run that is started without headers is the root of a new trace; one that is started with emitted headers
      takes over the trace, the parent and the sampling decision. */
  lemma StartedShape(slot: Slot, cli: bool, name: string, kind: Kind, draw: Draw, attributes: seq<Pair>,
                     incoming: Incoming, ratio: int, count: int)
    requires Idle(slot) && ValidDraw(draw) && Readable(incoming) && ratio != 0
    ensures var s := Started(slot, cli, name, kind, draw, attributes, incoming, ratio, count);
      && s.first == Some(0) && |s.batch.value| == 1
      && FirstSpan(s).start == draw.now && FirstSpan(s).spanId == draw.spanId && !HasError(s.batch.value)
      && (incoming.traceparent == "" ==>
            FirstSpan(s).traceId == draw.traceId && FirstSpan(s).parentId == [] &&
            s.sampled == (ratio == 1 || count % ratio == 0))
      && (incoming.traceparent != "" && TraceContext.ParseTraceParent(incoming.traceparent).Some? ==>
            TraceContext.ParseTraceParent(incoming.traceparent).value ==
            TraceContext.Parent(FirstSpan(s).traceId, FirstSpan(s).parentId, s.sampled))
      && s.baggage == TraceContext.Bind(map[], TraceContext.ParseBaggage(incoming.baggage))
  {
    hide TraceContext.ParseTraceParent, TraceContext.ParseBaggage, TraceContext.Bind, TraceContext.WellFormed;
    hide AddAllBaggage;
    var created := WithFirstSpan(Slots.Clean(slot, cli), name, kind, draw, attributes);
    var adopted := Slots.ParseTraceParent(created, incoming.traceparent, ratio, count);
    AddAllBaggageKeeps(adopted, TraceContext.ParseBaggage(incoming.baggage));
  }

  lemma {:induction false} OfRunNone(nodes: seq<Node>, r: nat)
    requires forall n :: n in nodes ==> n.run != r
    ensures OfRun(nodes, r) == []
  {
    if nodes != [] {
      OfRunNone(nodes[..|nodes| - 1], r);
    }
  }

  /** Emitted headers can always be read. */
  lemma HeadersAreReadable(w: World, h: nat)
    requires h < |w.headers| && HeaderOk(w, h)
    ensures Readable(IncomingOf(w, Some(h))) && w.headers[h].text != ""
    ensures TraceContext.ParseTraceParent(w.headers[h].text) == Some(w.headers[h].parent)
  {
    TraceContext.TraceParentRoundTrip(w.headers[h].parent);
  }

  /** The start appends one run and its first span, and touches nothing else in the history. */
  lemma StartKeepsOthers(w: World, step: Step, q: nat)
    requires Inv(w) && step.Start? && Enabled(w, step) && q < |w.procs| && q != step.p
    ensures ProcessOk(ApplyStart(w, step.p, step.source, step.name, step.kind, step.draw), q)
  {
    assert ProcessOk(w, q);
    hide Inv, Sampled, OfRun, StartedSlot, Readable;
    if w.procs[q].run.Some? {
      var k := w.procs[q].run.value;
      var v := ApplyStart(w, step.p, step.source, step.name, step.kind, step.draw);
      OfRunStep(w.nodes, v.nodes[|w.nodes|], k);
      if w.runs[k].marked {
        SampledLater(w.procs[q].slot, w.clock, v.clock, w.procs[q].config.maxTimeConsuming);
      }
    }
  }

  lemma StartKeepsSources(w: World, step: Step, k: nat)
    requires Inv(w) && step.Start? && Enabled(w, step) && k < |w.runs|
    ensures var v := ApplyStart(w, step.p, step.source, step.name, step.kind, step.draw);
      v.runs[k].first < |v.nodes| && SourceOk(v, k)
  {
    assert RunOk(w, k);
    hide Inv, OfRun, StartedSlot, Readable, Links, StartCount, FreshDraw, HasError, FirstSpan, ValidSlot;
  }

  /** A run that is untouched, in a history that has only grown. */
  lemma RunStays(w: World, v: World, k: nat)
    requires k < |w.runs| && k < |v.runs| && RunOk(w, k) && v.runs[k] == w.runs[k] && SourceOkAt(v, k)
    requires OfRun(v.nodes, k) == OfRun(w.nodes, k) && w.nodes <= v.nodes && |w.headers| <= |v.headers|
    requires |v.procs| == |w.procs|
    requires forall q :: 0 <= q < |w.procs| ==> v.procs[q].config == w.procs[q].config &&
                                                (w.procs[q].run.Some? ==> v.procs[q].run == w.procs[q].run)
    ensures RunOk(v, k)
  {
    hide OfRun, SourceOk, Links, HasError;
  }

  predicate SourceOkAt(w: World, r: nat) {
    r < |w.runs| && w.runs[r].first < |w.nodes| && SourceOk(w, r)
  }

  lemma StartKeepsRuns(w: World, step: Step, k: nat)
    requires Inv(w) && step.Start? && Enabled(w, step) && k < |w.runs|
    ensures RunOk(ApplyStart(w, step.p, step.source, step.name, step.kind, step.draw), k)
  {
    assert RunOk(w, k);
    StartKeepsSources(w, step, k);
    hide Inv, OfRun, StartedSlot, Readable, StartCount, FreshDraw, SourceOk, FirstSpan, ValidSlot, RunOk;
    var v := ApplyStart(w, step.p, step.source, step.name, step.kind, step.draw);
    OfRunStep(w.nodes, v.nodes[|w.nodes|], k);
    RunStays(w, v, k);
  }

  /** No earlier span belongs to the new run. */
  lemma StartOfRun(w: World, link: Link)
    requires Inv(w)
    ensures OfRun(w.nodes + [Node(link, |w.runs|)], |w.runs|) == [link]
  {
    forall n | n in w.nodes ensures n.run != |w.runs| {
      var i :| 0 <= i < |w.nodes| && w.nodes[i] == n;
      assert NodeOk(w, i);
    }
    hide Inv;
    OfRunNone(w.nodes, |w.runs|);
    OfRunStep(w.nodes, Node(link, |w.runs|), |w.runs|);
  }

  lemma StartProcess(w: World, step: Step)
    requires Inv(w) && step.Start? && Enabled(w, step)
    ensures var v := ApplyStart(w, step.p, step.source, step.name, step.kind, step.draw);
      var slot := StartedSlot(w, step.p, step.source, step.name, step.kind, step.draw);
      && OfRun(v.nodes, |w.runs|) == [LinkOf(FirstSpan(slot))] == Links(slot.batch.value)
      && FirstSpan(slot).spanId == step.draw.spanId && ProcessOk(v, step.p)
  {
    StartShape(w, step);
    var v := ApplyStart(w, step.p, step.source, step.name, step.kind, step.draw);
    var slot := StartedSlot(w, step.p, step.source, step.name, step.kind, step.draw);
    hide Inv, OfRun, Links, StartedSlot, Readable, StartCount, FreshDraw, HasError, ProcessOk, Sampled;
    StartOfRun(w, LinkOf(FirstSpan(slot)));
    NewProcessOk(v, step.p);
  }

  /** The slot of a run that has just begun. */
  lemma StartShape(w: World, step: Step)
    requires Inv(w) && step.Start? && Enabled(w, step)
    ensures var slot := StartedSlot(w, step.p, step.source, step.name, step.kind, step.draw);
      && slot.first == Some(0) && Links(slot.batch.value) == [LinkOf(FirstSpan(slot))]
      && FirstSpan(slot).start == step.draw.now && FirstSpan(slot).spanId == step.draw.spanId
      && !HasError(slot.batch.value)
  {
    var proc := w.procs[step.p];
    assert ProcessOk(w, step.p);
    hide Inv, OfRun, Readable, FreshDraw, HasError, StartCount;
    StartedShape(proc.slot, proc.config.cliSapi, step.name, step.kind, step.draw, proc.config.attributes,
                 IncomingOf(w, step.source), proc.config.sampleRatioBased, StartCount(proc));
    hide Started, ProcessOk;
    var slot := StartedSlot(w, step.p, step.source, step.name, step.kind, step.draw);
    assert Links(slot.batch.value) == [LinkOf(FirstSpan(slot))];
  }

  lemma NewProcessOk(v: World, p: nat)
    requires p < |v.procs| && v.procs[p].run.Some? && v.procs[p].run.value < |v.runs|
    requires var run := v.runs[v.procs[p].run.value]; !run.finished && run.pid == p
    requires var slot := v.procs[p].slot;
      && Active(slot) && slot.first == Some(0) && Links(slot.batch.value) == OfRun(v.nodes, v.procs[p].run.value)
      && FirstSpan(slot).start <= v.clock && !HasError(slot.batch.value)
      && slot.sampled == v.runs[v.procs[p].run.value].marked
    ensures ProcessOk(v, p)
  {
  }

  lemma OneIsMultiple(ratio: int)
    requires ratio != 0
    ensures 1 % ratio == 0 <==> ratio in {1, -1}
  {
  }

  lemma StartSource(w: World, step: Step)
    requires Inv(w) && step.Start? && Enabled(w, step)
    ensures SourceOk(ApplyStart(w, step.p, step.source, step.name, step.kind, step.draw), |w.runs|)
  {
    var proc := w.procs[step.p];
    assert ProcessOk(w, step.p);
    StartedShape(proc.slot, proc.config.cliSapi, step.name, step.kind, step.draw, proc.config.attributes,
                 IncomingOf(w, step.source), proc.config.sampleRatioBased, StartCount(proc));
    if step.source.Some? {
      assert HeaderOk(w, step.source.value);
      HeadersAreReadable(w, step.source.value);
    } else {
      OneIsMultiple(proc.config.sampleRatioBased);
    }
    hide Inv, Started, Readable, ProcessOk, TraceContext.ParseTraceParent, TraceContext.FormatTraceParent;
  }

  lemma NewRunOk(v: World, r: nat)
    requires r < |v.runs| && v.runs[r].first < |v.nodes| && SourceOk(v, r)
    requires var run := v.runs[r];
      && run.pid < |v.procs| && v.procs[run.pid].run == Some(r) && !run.finished && !run.offered
      && run.marked == run.startMarked && run.zeroedAt == 0 && v.nodes[run.first].run == r
      && OfRun(v.nodes, r) == [v.nodes[run.first].link]
    ensures RunOk(v, r)
  {
    hide OfRun, SourceOk, Links, HasError;
  }

  lemma NewFirstOk(v: World, i: nat)
    requires i < |v.nodes| && v.nodes[i].run < |v.runs| && v.runs[v.nodes[i].run].first == i
    requires |v.nodes[i].link.spanId| == TraceContext.SPAN_ID_BYTES
    ensures NodeOk(v, i)
  {
  }

  lemma StartNewRun(w: World, step: Step)
    requires Inv(w) && step.Start? && Enabled(w, step)
    ensures var v := ApplyStart(w, step.p, step.source, step.name, step.kind, step.draw);
      && ProcessOk(v, step.p) && RunOk(v, |w.runs|) && NodeOk(v, |w.nodes|)
      && w.clock <= v.clock < UINT64 && v.nodes[|w.nodes|].link.spanId == step.draw.spanId
  {
    StartProcess(w, step);
    StartSource(w, step);
    hide Inv, ProcessOk, SourceOk, OfRun, Links, StartedSlot, Readable, StartCount, HasError, RunOk, NodeOk, FirstSpan;
    hide ValidSlot, IncomingOf;
    var v := ApplyStart(w, step.p, step.source, step.name, step.kind, step.draw);
    NewRunOk(v, |w.runs|);
    NewFirstOk(v, |w.nodes|);
  }

  lemma StartInv(w: World, step: Step)
    requires Inv(w) && step.Start? && Enabled(w, step)
    ensures Inv(ApplyStart(w, step.p, step.source, step.name, step.kind, step.draw))
  {
    var v := ApplyStart(w, step.p, step.source, step.name, step.kind, step.draw);
    StartNewRun(w, step);
    hide ProcessOk, RunOk, NodeOk, StartedSlot, Readable, StartCount;
    assert DistinctIds(v.nodes);
    forall q | 0 <= q < |v.procs| ensures ProcessOk(v, q) {
      if q != step.p {
        StartKeepsOthers(w, step, q);
      }
    }
    forall k | 0 <= k < |v.runs| ensures RunOk(v, k) {
      if k < |w.runs| {
        StartKeepsRuns(w, step, k);
      }
    }
    forall h | 0 <= h < |v.headers| ensures HeaderOk(v, h) {
      assert HeaderOk(w, h);
    }
    forall i | 0 <= i < |v.nodes| ensures NodeOk(v, i) {
      if i < |w.nodes| {
        StartKeepsNodes(w, step, i);
      }
    }
  }

  lemma StartKeepsNodes(w: World, step: Step, i: nat)
    requires Inv(w) && step.Start? && Enabled(w, step) && i < |w.nodes|
    ensures NodeOk(ApplyStart(w, step.p, step.source, step.name, step.kind, step.draw), i)
  {
    assert NodeOk(w, i);
    hide Inv, StartedSlot, Readable;
  }

  // ----- the end of a run -----

  lemma ShutdownRun(w: World, p: nat, endTime: nat, now: nat)
    requires Inv(w) && Enabled(w, Shutdown(p, endTime, now))
    ensures RunOk(ApplyShutdown(w, p, endTime, now), w.procs[p].run.value)
  {
    var proc := w.procs[p];
    var r := proc.run.value;
    assert ProcessOk(w, p) && RunOk(w, r);
    EndedSlot(proc.slot, 0, None, endTime);
    if w.runs[r].marked {
      SampledLater(proc.slot, w.clock, now, proc.config.maxTimeConsuming);
    }
    hide Inv, OfRun, Links, Slots.OkEnd;
  }

  lemma ShutdownKeepsOthers(w: World, p: nat, endTime: nat, now: nat, q: nat)
    requires Inv(w) && Enabled(w, Shutdown(p, endTime, now)) && q < |w.procs|
    ensures ProcessOk(ApplyShutdown(w, p, endTime, now), q)
  {
    assert ProcessOk(w, p) && ProcessOk(w, q);
    hide Inv, Sampled, OfRun, Links;
    if q != p && w.procs[q].run.Some? && w.runs[w.procs[q].run.value].marked {
      SampledLater(w.procs[q].slot, w.clock, now, w.procs[q].config.maxTimeConsuming);
    }
  }

  lemma ShutdownKeepsRuns(w: World, p: nat, endTime: nat, now: nat, k: nat)
    requires Inv(w) && Enabled(w, Shutdown(p, endTime, now)) && k < |w.runs|
    ensures RunOk(ApplyShutdown(w, p, endTime, now), k)
  {
    assert ProcessOk(w, p) && RunOk(w, k);
    if k == w.procs[p].run.value {
      ShutdownRun(w, p, endTime, now);
    }
    hide Inv, Completed, Sampled, OfRun, Links;
  }

  lemma ShutdownInv(w: World, p: nat, endTime: nat, now: nat)
    requires Inv(w) && Enabled(w, Shutdown(p, endTime, now))
    ensures Inv(ApplyShutdown(w, p, endTime, now))
  {
    var v := ApplyShutdown(w, p, endTime, now);
    hide Completed, Sampled, OfRun, Links, ProcessOk, RunOk;
    forall q | 0 <= q < |v.procs| ensures ProcessOk(v, q) {
      ShutdownKeepsOthers(w, p, endTime, now, q);
    }
    forall k | 0 <= k < |v.runs| ensures RunOk(v, k) {
      ShutdownKeepsRuns(w, p, endTime, now, k);
    }
    forall h | 0 <= h < |v.headers| ensures HeaderOk(v, h) {
      assert HeaderOk(w, h);
    }
    forall i | 0 <= i < |v.nodes| ensures NodeOk(v, i) {
      assert NodeOk(w, i);
    }
  }

  /** Every step inside a run is of the one kind. */
  lemma StepAdvances(w: World, step: Step)
    requires Inv(w) && Enabled(w, step) && !step.Start? && !step.Shutdown?
    ensures var v := Apply(w, step); ProcessOk(v, step.p) && Advanced(w, v, step.p, w.procs[step.p].run.value)
  {
    hide Inv, Advanced, ProcessOk, ApplySend, ApplyAnnounce, ApplyAdd, ApplyEnd, ApplyRatio;
    match step
    case Send(p, name, draw, now, order) =>
      SendProcess(w, p, name, draw, now, order);
      SendAdvances(w, p, name, draw, now, order);
    case Announce(p, now, order) =>
      AnnounceProcess(w, p, now, order);
      AnnounceAdvances(w, p, now, order);
    case Add(p, name, kind, draw, start, failure, endTime) =>
      AddProcess(w, p, name, kind, draw, start, failure, endTime);
      AddAdvances(w, p, name, kind, draw, start, failure, endTime);
    case End(p, i, failure, now) =>
      EndProcess(w, p, i, failure, now);
      EndAdvances(w, p, i, failure, now);
    case SetRatio(p, ratioBased, hasTraceparent) =>
      RatioProcess(w, p, ratioBased, hasTraceparent);
      RatioAdvances(w, p, ratioBased, hasTraceparent);
    case AddEntry(p, key, value) => EntryInv(w, p, key, value);
  }

  lemma StepInv(w: World, step: Step)
    requires Inv(w) && Enabled(w, step)
    ensures Inv(Apply(w, step))
  {
    hide Inv, Advanced, ProcessOk, ApplyStart, ApplyShutdown;
    if step.Start? {
      StartInv(w, step);
    } else if step.Shutdown? {
      ShutdownInv(w, step.p, step.endTime, step.now);
    } else {
      StepAdvances(w, step);
      AdvancedInv(w, Apply(w, step), step.p, w.procs[step.p].run.value);
    }
  }

  // ----- runs go on, and what a finished one has left is final -----

  /** Run r goes on as it is, or with another mark, and no configuration changes. */
  predicate RunKept(w: World, v: World, r: nat)
    requires r < |w.runs|
  {
    && r < |v.runs| && v.runs[r].pid == w.runs[r].pid && v.runs[r].finished == w.runs[r].finished
    && (w.runs[r].finished ==> v.runs[r] == w.runs[r])
    && |v.procs| == |w.procs| && forall k :: 0 <= k < |w.procs| ==> v.procs[k].config == w.procs[k].config
  }

  lemma StartKeepsRun(w: World, step: Step, r: nat)
    requires Inv(w) && step.Start? && Enabled(w, step) && r < |w.runs|
    ensures RunKept(w, ApplyStart(w, step.p, step.source, step.name, step.kind, step.draw), r)
  {
    hide Inv, StartedSlot, FreshDraw, Readable, StartCount, FirstSpan;
  }

  lemma ShutdownKeepsRun(w: World, p: nat, endTime: nat, now: nat, r: nat)
    requires Inv(w) && Enabled(w, Shutdown(p, endTime, now)) && r < |w.runs| && r != w.procs[p].run.value
    ensures RunKept(w, ApplyShutdown(w, p, endTime, now), r)
  {
    hide Inv, Completed, Sampled, CleanFpm;
  }

  lemma AdvanceKeepsRun(w: World, v: World, p: nat, r: nat, k: nat)
    requires Advanced(w, v, p, r) && k < |w.runs| && !w.runs[r].finished
    ensures RunKept(w, v, k)
  {
    hide NodesAdvanced, HeadersAdvanced;
  }

  /** What a finished run has become is final, and a run goes on until its own Shutdown. */
  lemma RunsGoOn(w: World, step: Step, r: nat)
    requires Inv(w) && Enabled(w, step) && r < |w.runs|
    requires step.Shutdown? ==> w.procs[step.p].run != Some(r)
    ensures RunKept(w, Apply(w, step), r)
  {
    hide Inv, RunKept, ApplyStart, ApplyShutdown;
    if step.Start? {
      StartKeepsRun(w, step, r);
    } else if step.Shutdown? {
      ShutdownKeepsRun(w, step.p, step.endTime, step.now, r);
    } else {
      StepAdvances(w, step);
      ProcessHolds(w, step.p);
      NotFinished(w, step.p);
      AdvanceKeepsRun(w, Apply(w, step), step.p, w.procs[step.p].run.value, r);
    }
  }

  lemma ProcessHolds(w: World, p: nat)
    requires Inv(w) && p < |w.procs|
    ensures ProcessOk(w, p)
  {
  }

  lemma NotFinished(w: World, p: nat)
    requires p < |w.procs| && ProcessOk(w, p) && w.procs[p].run.Some?
    ensures w.procs[p].run.value < |w.runs| && !w.runs[w.procs[p].run.value].finished
    ensures w.runs[w.procs[p].run.value].pid == p
  {
  }

  lemma InitialInv(configs: seq<Config>)
    ensures Inv(Initial(configs))
  {
  }

  lemma {:induction false} RunInv(w: World, run: seq<Step>)
    requires Inv(w) && CanRun(w, run)
    ensures Inv(After(w, run))
    decreases |run|
  {
    hide Inv, Apply, Enabled;
    if run != [] {
      StepInv(w, run[0]);
      RunInv(Apply(w, run[0]), run[1..]);
    }
  }

  /** The worlds that some run of the processes leads to. */
  ghost predicate Reachable(configs: seq<Config>, w: World) {
    exists run :: CanRun(Initial(configs), run) && After(Initial(configs), run) == w
  }

  lemma ReachableInv(configs: seq<Config>, w: World)
    requires Reachable(configs, w)
    ensures Inv(w)
  {
    hide Inv;
    var run :| CanRun(Initial(configs), run) && After(Initial(configs), run) == w;
    InitialInv(configs);
    RunInv(Initial(configs), run);
  }

  /** A run that is started with emitted headers begins with the baggage that the caller had when it emitted
      them, exactly when none of its keys and values contains a separator of the header. */
  lemma StartAdoptsBaggage(w: World, p: nat, h: nat, name: string, kind: Kind, draw: Draw)
    requires Inv(w) && Enabled(w, Start(p, Some(h), name, kind, draw))
    ensures ApplyStart(w, p, Some(h), name, kind, draw).procs[p].slot.baggage == w.headers[h].baggage <==>
            TraceContext.PlainMap(w.headers[h].baggage)
  {
    var proc := w.procs[p];
    assert ProcessOk(w, p) && HeaderOk(w, h);
    StartedShape(proc.slot, proc.config.cliSapi, name, kind, draw, proc.config.attributes,
                 IncomingOf(w, Some(h)), proc.config.sampleRatioBased, StartCount(proc));
    var order :| TraceContext.IterationOrder(w.headers[h].baggage, order) &&
                 w.headers[h].baggageText == TraceContext.FormatBaggage(w.headers[h].baggage, order);
    hide Inv, Started, Readable, ProcessOk, HeaderOk, TraceContext.ParseBaggage, TraceContext.FormatBaggage;
    TraceContext.BaggageRoundTrip(w.headers[h].baggage, order);
  }

  // ----- the client hook does these steps -----

  /** A recorded request of the client hook: a Send, then an End with the error if the transfer failed, and an
      End. */
  function ApplyExec(w: World, p: nat, name: string, draw: Draw, now: nat, order: seq<string>,
                     response: CurlHooks.Response, errorTime: nat, endTime: nat): (v: World)
    requires Running(w, p) && ValidDraw(draw) && forall k :: k in order ==> k in w.procs[p].slot.baggage
    ensures |v.procs| == |w.procs| && |v.headers| == |w.headers| + 1
  {
    var i := |w.procs[p].slot.batch.value|;
    var sent := ApplySend(w, p, name, draw, now, order);
    var failed :=
      if CurlHooks.IsFailure(response) then ApplyEnd(sent, p, i, Some(response.message), errorTime) else sent;
    ApplyEnd(failed, p, i, None, endTime)
  }

  /** The lines that go out carry the header texts of the Send, and the slot is that of the three steps. */
  lemma ExecIsSteps(w: World, p: nat, name: string, draw: Draw, now: nat, order: seq<string>,
                    response: CurlHooks.Response, errorTime: nat, endTime: nat)
    requires Running(w, p) && ValidDraw(draw) && forall k :: k in order ==> k in w.procs[p].slot.baggage
    ensures var proc := w.procs[p];
      var header := HeaderFor(w, AddChild(proc.slot, name, Client, draw, proc.config.attributes), proc.config,
                              draw.spanId, |w.nodes|, proc.run.value, now, order);
      var v := ApplyExec(w, p, name, draw, now, order, response, errorTime, endTime);
      && v.headers == w.headers + [header]
      && CurlHooks.TraceParentLine(proc.slot, draw, now, proc.config.maxTimeConsuming) ==
         CurlHooks.TRACEPARENT + header.text
      && header.baggageText == TraceContext.FormatBaggage(proc.slot.baggage, order)
      && |v.procs| == |w.procs| && v.procs[p] == proc.(slot :=
           CurlHooks.AfterRequest(proc.slot, name, draw, proc.config.attributes, response, errorTime, endTime))
  {
    var proc := w.procs[p];
    ChildSlot(proc.slot, name, Client, draw, proc.config.attributes);
    hide TraceContext.FormatTraceParent, TraceContext.FormatBaggage, Conversions.Millis, Links, HasError;
  }
}
