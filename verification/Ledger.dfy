/** An account of every run, kept from the steps alone and without the operations on a slot: which spans the program
    asked for, how they were ended, which baggage was added and what decided about sampling. What a process holds, and
    what it offers in the end, agrees with its account. */
module Ledger {
  import opened Prelude
  import opened Lifecycle
  import Slots
  import Core
  import SampleCounter
  import TraceContext

  /** A span as it was asked for. */
  datatype Record = Record(traceId: seq<byte>, spanId: seq<byte>, parentId: seq<byte>, name: string, kind: Slots.Kind,
                           start: nat)

  /** A span of the run was ended, with a message if it failed. */
  datatype Ending = Ending(span: nat, failure: Option<string>, time: nat)

  /** The turn of a run is what the request counter stands at. Whether the run began sampled and whether its program
      has set the ratio since is kept beside the flag. The run is closed at the clock reading that decides about its
      export. */
  datatype Account = Account(turn: int, records: seq<Record>, endings: seq<Ending>, entries: seq<Slots.Pair>,
                             began: bool, adjusted: bool, flag: bool, closed: Option<nat>)

  // ----- keeping the account -----

  /** The number of runs that a process has begun. */
  function Served(runs: seq<Run>, p: nat): nat {
    if runs == [] then 0
    else Served(runs[..|runs| - 1], p) + if runs[|runs| - 1].pid == p then 1 else 0
  }

  /** The request counter of a web server goes from 1 to 10000001 and starts again; a command-line run is the first
      request of its provider. */
  function Turn(w: World, p: nat): int
    requires p < |w.procs|
  {
    if w.procs[p].config.cliSapi then 1 else Served(w.runs, p) % 10_000_001 + 1
  }

  /** A run without headers is the root of a new trace, and the ratio decides; one with headers goes on where the
      headers say, and the flag decides. */
  ghost function Opened(w: World, p: nat, source: Option<nat>, name: string, kind: Slots.Kind, draw: Slots.Draw)
    : Account
    requires Enabled(w, Start(p, source, name, kind, draw))
  {
    var turn, ratio := Turn(w, p), w.procs[p].config.sampleRatioBased;
    match source
    case None =>
      var chosen := ratio == 1 || turn % ratio == 0;
      Account(turn, [Record(draw.traceId, draw.spanId, [], name, kind, draw.now)], [], [], chosen, false, chosen, None)
    case Some(h) =>
      var parent := w.headers[h].parent;
      Account(turn, [Record(parent.traceId, draw.spanId, parent.spanId, name, kind, draw.now)], [],
              TraceContext.ParseBaggage(w.headers[h].baggageText), parent.sampled, false, parent.sampled, None)
  }

  function Child(a: Account, name: string, kind: Slots.Kind, spanId: seq<byte>, start: nat): Record
    requires a.records != []
  {
    Record(a.records[0].traceId, spanId, a.records[0].spanId, name, kind, start)
  }

  /** One more ending; a failure makes the run sampled. */
  function WithEnding(a: Account, e: Ending): Account {
    a.(endings := a.endings + [e], flag := a.flag || e.failure.Some?)
  }

  /** A step inside a run. */
  function Kept(a: Account, step: Step, ratio: int): Account
    requires a.records != [] && !step.Start? && (step.SetRatio? ==> ratio != 0)
  {
    match step
    case Send(_, name, draw, _, _) =>
      a.(records := a.records + [Child(a, name, Slots.Client, draw.spanId, draw.now)])
    case Announce(_, _, _) => a
    case Add(_, name, kind, draw, start, failure, endTime) =>
      WithEnding(a.(records := a.records + [Child(a, name, kind, draw.spanId, start)]),
                 Ending(|a.records|, failure, endTime))
    case End(_, i, failure, now) => WithEnding(a, Ending(i, failure, now))
    case SetRatio(_, ratioBased, hasTraceparent) =>
      a.(adjusted := true,
         flag := if ratioBased == 0 then false
                 else a.flag || ratioBased == 1 || (!hasTraceparent && a.turn % ratio == 0))
    case AddEntry(_, key, value) => a.(entries := a.entries + [(key, value)])
    case Shutdown(_, endTime, now) => WithEnding(a, Ending(0, None, endTime)).(closed := Some(now))
  }

  // ----- what the account says -----

  /** A failure sets the status, and any other ending only if nothing has set it before. */
  function StatusOf(endings: seq<Ending>, i: nat): Slots.Status {
    if endings == [] then Slots.Unset
    else
      var last, before := endings[|endings| - 1], StatusOf(endings[..|endings| - 1], i);
      if last.span != i then before
      else if last.failure.Some? then Slots.Error(last.failure.value)
      else if before == Slots.Unset then Slots.Ok else before
  }

  function EndOf(endings: seq<Ending>, i: nat): nat {
    if endings == [] then 0
    else if endings[|endings| - 1].span == i then endings[|endings| - 1].time
    else EndOf(endings[..|endings| - 1], i)
  }

  function SpanOf(a: Account, i: nat): Slots.Span
    requires i < |a.records|
  {
    var r := a.records[i];
    Slots.Span(r.traceId, r.spanId, r.parentId, r.name, r.kind, r.start, EndOf(a.endings, i), StatusOf(a.endings, i))
  }

  function Batch(a: Account): (batch: seq<Slots.Span>)
    ensures |batch| == |a.records|
  {
    seq(|a.records|, i requires 0 <= i < |a.records| => SpanOf(a, i))
  }

  predicate SomeFailure(endings: seq<Ending>) {
    exists k :: 0 <= k < |endings| && endings[k].failure.Some?
  }

  /** Endings are for spans of the run, and a flag that the program leaves alone is up exactly if the run began
      sampled or something has failed. */
  predicate Fits(a: Account) {
    && a.records != [] && (forall k :: 0 <= k < |a.endings| ==> a.endings[k].span < |a.records|)
    && (!a.adjusted ==> (a.flag <==> a.began || SomeFailure(a.endings)))
  }

  /** What the process of a run that goes on holds. */
  predicate Matches(slot: Slots.Slot, a: Account, attributes: seq<Slots.Pair>) {
    && Fits(a) && a.closed.None?
    && slot.batch == Some(Batch(a)) && slot.first == Some(0) && slot.sampled == a.flag
    && slot.resource == Some(attributes + a.entries) && slot.baggage == TraceContext.Bind(map[], a.entries)
  }

  lemma EndingStep(endings: seq<Ending>, e: Ending, i: nat)
    ensures EndOf(endings + [e], i) == if e.span == i then e.time else EndOf(endings, i)
    ensures e.span != i ==> StatusOf(endings + [e], i) == StatusOf(endings, i)
    ensures e.span == i ==>
              StatusOf(endings + [e], i) ==
              if e.failure.Some? then Slots.Error(e.failure.value)
              else if StatusOf(endings, i) == Slots.Unset then Slots.Ok else StatusOf(endings, i)
  {
    assert (endings + [e])[..|endings|] == endings;
  }

  /** A span that was never ended. */
  lemma {:induction false} NotEnded(endings: seq<Ending>, i: nat)
    requires forall k :: 0 <= k < |endings| ==> endings[k].span != i
    ensures StatusOf(endings, i) == Slots.Unset && EndOf(endings, i) == 0
  {
    if endings != [] {
      NotEnded(endings[..|endings| - 1], i);
    }
  }

  lemma RecordStep(a: Account, r: Record)
    requires Fits(a)
    ensures var b := a.(records := a.records + [r]);
      && Fits(b)
      && Batch(b) == Batch(a) + [Slots.Span(r.traceId, r.spanId, r.parentId, r.name, r.kind, r.start, 0, Slots.Unset)]
  {
    NotEnded(a.endings, |a.records|);
    hide StatusOf, EndOf;
  }

  /** How an ending changes the span it is for. */
  function AfterEnding(span: Slots.Span, e: Ending): Slots.Span {
    span.(end := e.time, status := if e.failure.Some? then Slots.Error(e.failure.value)
                                   else if span.status == Slots.Unset then Slots.Ok else span.status)
  }

  lemma FailureStep(endings: seq<Ending>, e: Ending)
    ensures SomeFailure(endings + [e]) <==> SomeFailure(endings) || e.failure.Some?
  {
    assert forall k :: 0 <= k < |endings| ==> (endings + [e])[k] == endings[k];
    assert (endings + [e])[|endings|] == e;
  }

  lemma BatchEnded(a: Account, e: Ending)
    requires Fits(a) && e.span < |a.records|
    ensures var b := WithEnding(a, e);
      Fits(b) && Batch(b) == Batch(a)[e.span := AfterEnding(Batch(a)[e.span], e)]
  {
    var b := WithEnding(a, e);
    FailureStep(a.endings, e);
    hide StatusOf, EndOf, SomeFailure;
    forall i | 0 <= i < |a.records| ensures Batch(b)[i] == Batch(a)[e.span := AfterEnding(Batch(a)[e.span], e)][i] {
      EndingStep(a.endings, e, i);
    }
  }

  // ----- what the operations do, in full -----

  /** The slot of a run that has begun, for an idle process: one span, and what the headers say. */
  lemma StartedExactly(slot: Slots.Slot, cli: bool, name: string, kind: Slots.Kind, draw: Slots.Draw,
                       attributes: seq<Slots.Pair>, incoming: Core.Incoming, ratio: int, count: int)
    requires Idle(slot) && Slots.ValidDraw(draw) && Core.Readable(incoming) && ratio != 0
    ensures var s := Core.Started(slot, cli, name, kind, draw, attributes, incoming, ratio, count);
      var pairs := TraceContext.ParseBaggage(incoming.baggage);
      && s.first == Some(0) && s.resource == Some(attributes + pairs)
      && s.baggage == TraceContext.Bind(map[], pairs)
      && (incoming.traceparent == "" ==>
            && s.batch == Some([Slots.Span(draw.traceId, draw.spanId, [], name, kind, draw.now, 0, Slots.Unset)])
            && s.sampled == (ratio == 1 || count % ratio == 0))
      && (incoming.traceparent != "" && TraceContext.ParseTraceParent(incoming.traceparent).Some? ==>
            var parent := TraceContext.ParseTraceParent(incoming.traceparent).value;
            && s.batch ==
               Some([Slots.Span(parent.traceId, draw.spanId, parent.spanId, name, kind, draw.now, 0, Slots.Unset)])
            && s.sampled == parent.sampled)
  {
    hide TraceContext.ParseTraceParent, TraceContext.ParseBaggage, TraceContext.Bind, TraceContext.WellFormed;
    hide Slots.AddAllBaggage;
    var created := Slots.WithFirstSpan(Slots.Clean(slot, cli), name, kind, draw, attributes);
    var span := Slots.Span(draw.traceId, draw.spanId, [], name, kind, draw.now, 0, Slots.Unset);
    assert created.batch.value == [] + [span] == [span];
    var adopted := Slots.ParseTraceParent(created, incoming.traceparent, ratio, count);
    if incoming.traceparent != "" && TraceContext.ParseTraceParent(incoming.traceparent).Some? {
      var parent := TraceContext.ParseTraceParent(incoming.traceparent).value;
      assert adopted.batch.value == [span.(traceId := parent.traceId, parentId := parent.spanId)];
    }
    Slots.AddAllBaggageKeeps(adopted, TraceContext.ParseBaggage(incoming.baggage));
  }

  lemma ChildExactly(slot: Slots.Slot, name: string, kind: Slots.Kind, draw: Slots.Draw, attributes: seq<Slots.Pair>)
    requires Slots.Active(slot) && Slots.ValidDraw(draw)
    ensures var first := Slots.FirstSpan(slot);
      Slots.AddChild(slot, name, kind, draw, attributes) ==
      slot.(batch := Some(slot.batch.value + [Slots.Span(first.traceId, draw.spanId, first.spanId, name, kind, draw.now,
                                                         0, Slots.Unset)]))
  {
    var first, span := Slots.FirstSpan(slot), Slots.NewSpan(slot, name, kind, draw);
    var batch, n := slot.batch.value + [span], |slot.batch.value|;
    assert batch[n := span.(parentId := first.spanId)] == slot.batch.value + [span.(parentId := first.spanId)];
  }

  lemma EndedExactly(slot: Slots.Slot, e: Ending)
    requires Slots.Active(slot) && e.span < |slot.batch.value|
    ensures (if e.failure.Some? then Slots.ErrorEnd(slot, e.span, e.failure.value, e.time)
             else Slots.OkEnd(slot, e.span, e.time)) ==
            slot.(batch := Some(slot.batch.value[e.span := AfterEnding(slot.batch.value[e.span], e)]),
                  sampled := slot.sampled || e.failure.Some?)
  {
  }

  lemma AddedExactly(slot: Slots.Slot, name: string, kind: Slots.Kind, draw: Slots.Draw, attributes: seq<Slots.Pair>,
                     start: nat, failure: Option<string>, endTime: nat)
    requires Slots.Active(slot) && Slots.ValidDraw(draw)
    ensures var first := Slots.FirstSpan(slot); var n := |slot.batch.value|;
      var span := Slots.Span(first.traceId, draw.spanId, first.spanId, name, kind, start, 0, Slots.Unset);
      Core.SpanAdded(slot, name, kind, draw, attributes, start, failure, endTime) ==
      slot.(batch := Some((slot.batch.value + [span])[n := AfterEnding(span, Ending(n, failure, endTime))]),
            sampled := slot.sampled || failure.Some?)
  {
    ChildExactly(slot, name, kind, draw, attributes);
    var s := Slots.AddChild(slot, name, kind, draw, attributes);
    var n := |slot.batch.value|;
    assert s.batch.value[n] in s.batch.value;
    var t := Slots.ReplaceSpan(s, n, s.batch.value[n].(start := start));
    var first := Slots.FirstSpan(slot);
    var span := Slots.Span(first.traceId, draw.spanId, first.spanId, name, kind, start, 0, Slots.Unset);
    assert t.batch.value == slot.batch.value + [span];
    hide Slots.AddChild;
    EndedExactly(t, Ending(n, failure, endTime));
  }

  // ----- the slot goes with the account -----

  /** The first record is the first span. */
  lemma FirstMatches(slot: Slots.Slot, a: Account, attributes: seq<Slots.Pair>)
    requires Slots.Active(slot) && Matches(slot, a, attributes)
    ensures Slots.FirstSpan(slot) == SpanOf(a, 0)
  {
  }

  lemma ChildMatches(slot: Slots.Slot, a: Account, attributes: seq<Slots.Pair>, name: string, kind: Slots.Kind,
                     draw: Slots.Draw)
    requires Slots.Active(slot) && Slots.ValidDraw(draw) && Matches(slot, a, attributes)
    ensures Matches(Slots.AddChild(slot, name, kind, draw, attributes),
                    a.(records := a.records + [Child(a, name, kind, draw.spanId, draw.now)]), attributes)
  {
    ChildExactly(slot, name, kind, draw, attributes);
    FirstMatches(slot, a, attributes);
    hide Batch, Slots.AddChild, Slots.Active;
    RecordStep(a, Child(a, name, kind, draw.spanId, draw.now));
  }

  lemma EndMatches(slot: Slots.Slot, a: Account, attributes: seq<Slots.Pair>, e: Ending)
    requires Slots.Active(slot) && Matches(slot, a, attributes) && e.span < |slot.batch.value|
    ensures Matches(if e.failure.Some? then Slots.ErrorEnd(slot, e.span, e.failure.value, e.time)
                    else Slots.OkEnd(slot, e.span, e.time),
                    WithEnding(a, e), attributes)
  {
    EndedExactly(slot, e);
    BatchEnded(a, e);
    hide Slots.ErrorEnd, Slots.OkEnd, Slots.Active, AfterEnding, Batch;
  }

  /** The flag, the entries and the closing do not matter to the batch. */
  lemma SameBatch(a: Account, b: Account)
    requires a.records == b.records && a.endings == b.endings
    ensures Batch(a) == Batch(b)
  {
  }

  lemma AddMatches(slot: Slots.Slot, a: Account, attributes: seq<Slots.Pair>, name: string, kind: Slots.Kind,
                   draw: Slots.Draw, start: nat, failure: Option<string>, endTime: nat)
    requires Slots.Active(slot) && Slots.ValidDraw(draw) && Matches(slot, a, attributes)
    ensures Matches(Core.SpanAdded(slot, name, kind, draw, attributes, start, failure, endTime),
                    a.(records := a.records + [Child(a, name, kind, draw.spanId, start)],
                       endings := a.endings + [Ending(|a.records|, failure, endTime)],
                       flag := a.flag || failure.Some?), attributes)
  {
    AddedExactly(slot, name, kind, draw, attributes, start, failure, endTime);
    FirstMatches(slot, a, attributes);
    hide Batch, Core.SpanAdded, Slots.Active, AfterEnding;
    RecordStep(a, Child(a, name, kind, draw.spanId, start));
    var b := a.(records := a.records + [Child(a, name, kind, draw.spanId, start)]);
    BatchEnded(b, Ending(|a.records|, failure, endTime));
  }

  lemma {:induction false} BindLast(m: map<string, string>, pairs: seq<Slots.Pair>, key: string, value: string)
    ensures TraceContext.Bind(m, pairs + [(key, value)]) == TraceContext.Bind(m, pairs)[key := value]
    decreases |pairs|
  {
    if pairs != [] {
      BindLast(m[pairs[0].0 := pairs[0].1], pairs[1..], key, value);
      assert (pairs + [(key, value)])[1..] == pairs[1..] + [(key, value)];
    }
  }

  lemma EntryMatches(slot: Slots.Slot, a: Account, attributes: seq<Slots.Pair>, key: string, value: string)
    requires Matches(slot, a, attributes)
    ensures Matches(Slots.AddBaggage(slot, key, value), a.(entries := a.entries + [(key, value)]), attributes)
  {
    BindLast(map[], a.entries, key, value);
    SameBatch(a, a.(entries := a.entries + [(key, value)]));
    assert attributes + a.entries + [(key, value)] == attributes + (a.entries + [(key, value)]);
    hide Batch, TraceContext.Bind;
  }

  lemma RatioMatches(slot: Slots.Slot, a: Account, attributes: seq<Slots.Pair>, step: Step, ratio: int)
    requires Matches(slot, a, attributes) && step.SetRatio? && ratio != 0
    ensures Matches(Core.RatioSet(slot, step.ratioBased, step.hasTraceparent, ratio, a.turn), Kept(a, step, ratio),
                    attributes)
  {
    SameBatch(a, Kept(a, step, ratio));
    hide Batch;
  }

  // ----- every run has its account -----

  /** What a finished run has left and whether it was offered. */
  predicate Settled(w: World, r: nat, a: Account)
    requires r < |w.runs|
  {
    var run := w.runs[r];
    && run.pid < |w.procs| && Fits(a) && a.closed.Some? && a.records[0].start <= a.closed.value
    && run.final == Batch(a)
    && var config := w.procs[run.pid].config;
       run.offered == (config.enableCollect &&
                       (a.flag || Slots.Slow(a.records[0].start, a.closed.value, config.maxTimeConsuming)))
  }

  predicate ProcessBalanced(w: World, p: nat, books: seq<Account>)
    requires p < |w.procs|
  {
    var proc := w.procs[p];
    && (!proc.config.cliSapi ==> proc.count == SampleCounter.Count(Served(w.runs, p)))
    && (proc.run.Some? ==>
          && proc.run.value < |books| && books[proc.run.value].turn == proc.count
          && Matches(proc.slot, books[proc.run.value], proc.config.attributes))
  }

  predicate Balanced(w: World, books: seq<Account>) {
    && |books| == |w.runs|
    && (forall p :: 0 <= p < |w.procs| ==> ProcessBalanced(w, p, books))
    && (forall r :: 0 <= r < |w.runs| && w.runs[r].finished ==> Settled(w, r, books[r]))
    && (forall r :: 0 <= r < |w.runs| ==> books[r].began == w.runs[r].startMarked)
  }

  /** The accounts after one step: a new one, or one more entry in that of the run. */
  ghost function Booked(w: World, books: seq<Account>, step: Step): (after: seq<Account>)
    requires Enabled(w, step)
  {
    match step
    case Start(p, source, name, kind, draw) => books + [Opened(w, p, source, name, kind, draw)]
    case _ =>
      var r := w.procs[step.p].run.value;
      if r < |books| && books[r].records != []
      then books[r := Kept(books[r], step, w.procs[step.p].config.sampleRatioBased)] else books
  }

  // ----- a step inside a run -----

  lemma StepMatches(w: World, books: seq<Account>, step: Step)
    requires Inv(w) && Enabled(w, step) && !step.Start? && !step.Shutdown?
    requires step.p < |w.procs| && ProcessBalanced(w, step.p, books)
    requires w.procs[step.p].run.Some? && books[w.procs[step.p].run.value].records != []
    ensures var proc := w.procs[step.p]; var v := Apply(w, step);
      |v.procs| == |w.procs| &&
      Matches(v.procs[step.p].slot, Kept(books[proc.run.value], step, proc.config.sampleRatioBased),
              proc.config.attributes)
  {
    var proc := w.procs[step.p];
    var a, attributes := books[proc.run.value], proc.config.attributes;
    hide Inv, Matches, Slots.AddChild, Core.SpanAdded, Slots.ErrorEnd, Slots.OkEnd, Core.RatioSet, Slots.AddBaggage;
    hide FreshDraw, TraceContext.IterationOrder, SampleCounter.Count, HeaderFor;
    match step
    case Send(_, name, draw, _, _) => ChildMatches(proc.slot, a, attributes, name, Slots.Client, draw);
    case Announce(_, _, _) =>
    case Add(_, name, kind, draw, start, failure, endTime) =>
      AddMatches(proc.slot, a, attributes, name, kind, draw, start, failure, endTime);
    case End(_, i, failure, now) => EndMatches(proc.slot, a, attributes, Ending(i, failure, now));
    case SetRatio(_, _, _) => RatioMatches(proc.slot, a, attributes, step, proc.config.sampleRatioBased);
    case AddEntry(_, key, value) => EntryMatches(proc.slot, a, attributes, key, value);
  }

  /** Such a step changes one slot, and no process id, configuration or counter. */
  lemma StepShape(w: World, step: Step)
    requires Inv(w) && Enabled(w, step) && !step.Start? && !step.Shutdown? && step.p < |w.procs|
    ensures var v := Apply(w, step);
      && |v.procs| == |w.procs| && v.procs == w.procs[step.p := w.procs[step.p].(slot := v.procs[step.p].slot)]
  {
    hide Inv, Slots.AddChild, Core.SpanAdded, Slots.ErrorEnd, Slots.OkEnd, Core.RatioSet, Slots.AddBaggage;
    hide FreshDraw, TraceContext.IterationOrder, HeaderFor;
  }

  predicate SamePids(a: seq<Run>, b: seq<Run>) {
    |a| == |b| && forall r :: 0 <= r < |a| ==> a[r].pid == b[r].pid
  }

  lemma {:induction false} ServedSame(a: seq<Run>, b: seq<Run>, p: nat)
    requires SamePids(a, b)
    ensures Served(a, p) == Served(b, p)
  {
    if a != [] {
      ServedSame(a[..|a| - 1], b[..|b| - 1], p);
    }
  }

  /** All runs go on as they were but run r, which does not finish by this step. */
  predicate RunsKept(w: World, v: World)
  {
    && SamePids(w.runs, v.runs) && |v.procs| == |w.procs|
    && (forall p :: 0 <= p < |w.procs| ==> v.procs[p].config == w.procs[p].config)
    && forall r :: 0 <= r < |w.runs| ==>
         v.runs[r].finished == w.runs[r].finished && v.runs[r].startMarked == w.runs[r].startMarked &&
         (w.runs[r].finished ==> v.runs[r] == w.runs[r])
  }

  lemma AdvancedKeepsRuns(w: World, v: World, p: nat, r: nat)
    requires Advanced(w, v, p, r) && !w.runs[r].finished
    ensures RunsKept(w, v)
  {
    hide NodesAdvanced, HeadersAdvanced;
  }

  lemma InsideKeepsRuns(w: World, step: Step)
    requires Inv(w) && Enabled(w, step) && !step.Start? && !step.Shutdown?
    ensures RunsKept(w, Apply(w, step))
  {
    StepAdvances(w, step);
    hide Apply, Advanced, RunsKept, ProcessOk;
    ProcessHolds(w, step.p);
    hide Inv;
    NotFinished(w, step.p);
    AdvancedKeepsRuns(w, Apply(w, step), step.p, w.procs[step.p].run.value);
  }

  /** Where the accounts stay as they were. */
  lemma OthersBalanced(w: World, v: World, books: seq<Account>, after: seq<Account>, q: nat)
    requires q < |w.procs| && q < |v.procs| && v.procs[q] == w.procs[q] && ProcessBalanced(w, q, books)
    requires Served(v.runs, q) == Served(w.runs, q)
    requires w.procs[q].run.Some? ==>
               w.procs[q].run.value < |after| && after[w.procs[q].run.value] == books[w.procs[q].run.value]
    ensures ProcessBalanced(v, q, after)
  {
    hide Matches, SampleCounter.Count, Served;
  }

  lemma SettledStays(w: World, v: World, r: nat, a: Account)
    requires r < |w.runs| && w.runs[r].finished && Settled(w, r, a) && RunKept(w, v, r)
    ensures Settled(v, r, a)
  {
    hide Slots.Slow, Batch;
  }

  /** Two processes are not in the same run. */
  lemma RunsApart(w: World, p: nat, q: nat)
    requires Inv(w) && p < |w.procs| && q < |w.procs| && p != q && w.procs[p].run.Some? && w.procs[q].run.Some?
    ensures w.procs[p].run.value < |w.runs| && w.procs[p].run.value != w.procs[q].run.value
  {
    ProcessHolds(w, p);
    ProcessHolds(w, q);
    hide Inv;
    NotFinished(w, p);
    NotFinished(w, q);
  }

  /** The account of one run changes, and with it the slot of the process that is in it. */
  lemma OneChanged(w: World, v: World, books: seq<Account>, p: nat, r: nat, a: Account)
    requires Inv(w) && Balanced(w, books) && RunsKept(w, v)
    requires p < |w.procs| && w.procs[p].run == Some(r) && r < |w.runs| && !w.runs[r].finished
    requires v.procs == w.procs[p := v.procs[p]] && ProcessBalanced(v, p, books[r := a]) && a.began == books[r].began
    ensures Balanced(v, books[r := a])
  {
    var after := books[r := a];
    hide Matches, Settled, Served, SampleCounter.Count;
    forall q | 0 <= q < |v.procs| ensures ProcessBalanced(v, q, after) {
      assert ProcessBalanced(w, q, books);
      if q != p {
        if w.procs[q].run.Some? {
          RunsApart(w, q, p);
        }
        ServedSame(w.runs, v.runs, q);
        hide Inv, ProcessBalanced;
        OthersBalanced(w, v, books, after, q);
      }
    }
    hide Inv;
    forall k | 0 <= k < |v.runs| && v.runs[k].finished ensures Settled(v, k, after[k]) {
      SettledStays(w, v, k, books[k]);
    }
  }

  lemma InRun(w: World, step: Step)
    requires Inv(w) && Enabled(w, step) && !step.Start?
    ensures step.p < |w.procs| && w.procs[step.p].run.Some?
    ensures w.procs[step.p].run.value < |w.runs| && !w.runs[w.procs[step.p].run.value].finished
    ensures w.runs[w.procs[step.p].run.value].pid == step.p && Slots.Active(w.procs[step.p].slot)
    ensures Slots.FirstSpan(w.procs[step.p].slot).start <= w.clock
  {
    ProcessHolds(w, step.p);
    hide Inv;
  }

  lemma InsideBalanced(w: World, books: seq<Account>, step: Step)
    requires Inv(w) && Enabled(w, step) && Balanced(w, books) && !step.Start? && !step.Shutdown?
    ensures Balanced(Apply(w, step), Booked(w, books, step))
  {
    InRun(w, step);
    hide Inv, Enabled, Apply, Matches, Settled;
    var v, r := Apply(w, step), w.procs[step.p].run.value;
    assert ProcessBalanced(w, step.p, books);
    RecordsThere(w, books, step.p);
    var a := Kept(books[r], step, w.procs[step.p].config.sampleRatioBased);
    assert Booked(w, books, step) == books[r := a];
    hide Booked;
    StepMatches(w, books, step);
    StepShape(w, step);
    InsideKeepsRuns(w, step);
    ServedSame(w.runs, v.runs, step.p);
    assert a.turn == books[r].turn && a.began == books[r].began;
    hide ProcessBalanced, Kept, Balanced;
    OwnBalanced(w, v, books, step.p, a);
    OneChanged(w, v, books, step.p, r, a);
  }

  lemma OwnBalanced(w: World, v: World, books: seq<Account>, p: nat, a: Account)
    requires p < |w.procs| && p < |v.procs| && ProcessBalanced(w, p, books) && w.procs[p].run.Some?
    requires v.procs[p] == w.procs[p].(slot := v.procs[p].slot) && Served(v.runs, p) == Served(w.runs, p)
    requires var r := w.procs[p].run.value; r < |books| && a.turn == books[r].turn
    requires Matches(v.procs[p].slot, a, w.procs[p].config.attributes)
    ensures ProcessBalanced(v, p, books[w.procs[p].run.value := a])
  {
    hide Matches, Served, SampleCounter.Count;
  }

  lemma RecordsThere(w: World, books: seq<Account>, p: nat)
    requires p < |w.procs| && ProcessBalanced(w, p, books) && w.procs[p].run.Some?
    ensures books[w.procs[p].run.value].records != []
  {
  }

  // ----- the end of a run -----

  lemma EndSettles(w: World, books: seq<Account>, step: Step)
    requires Inv(w) && Enabled(w, step) && Balanced(w, books) && step.Shutdown?
    requires step.p < |w.procs| && w.procs[step.p].run.Some? && w.procs[step.p].run.value < |books|
    requires ProcessBalanced(w, step.p, books) && books[w.procs[step.p].run.value].records != []
    ensures var r := w.procs[step.p].run.value; var v := Apply(w, step);
      r < |v.runs| && Settled(v, r, Kept(books[r], step, w.procs[step.p].config.sampleRatioBased))
  {
    InRun(w, step);
    var proc := w.procs[step.p];
    var r := proc.run.value;
    var a := books[r];
    EndMatches(proc.slot, a, proc.config.attributes, Ending(0, None, step.endTime));
    FirstMatches(proc.slot, a, proc.config.attributes);
    var b := WithEnding(a, Ending(0, None, step.endTime));
    SameBatch(b, b.(closed := Some(step.now)));
    var s := Core.Completed(proc.slot, step.endTime);
    FirstMatches(s, b, proc.config.attributes);
    hide Inv, Batch, Slots.OkEnd, Slots.Slow;
  }

  lemma EndBalanced(w: World, books: seq<Account>, step: Step)
    requires Inv(w) && Enabled(w, step) && Balanced(w, books) && step.Shutdown?
    ensures Balanced(Apply(w, step), Booked(w, books, step))
  {
    InRun(w, step);
    var r := w.procs[step.p].run.value;
    assert ProcessBalanced(w, step.p, books);
    RecordsThere(w, books, step.p);
    EndSettles(w, books, step);
    var a := Kept(books[r], step, w.procs[step.p].config.sampleRatioBased);
    EndKeepsOthers(w, books, step, r, a);
  }

  lemma EndKeepsOthers(w: World, books: seq<Account>, step: Step, r: nat, a: Account)
    requires Inv(w) && Enabled(w, step) && Balanced(w, books) && step.Shutdown?
    requires step.p < |w.procs| && w.procs[step.p].run == Some(r) && r < |w.runs|
    requires r < |Apply(w, step).runs| && Settled(Apply(w, step), r, a) && a.began == books[r].began
    ensures Balanced(Apply(w, step), books[r := a])
  {
    var v, after := ApplyShutdown(w, step.p, step.endTime, step.now), books[r := a];
    assert SamePids(w.runs, v.runs) && |v.procs| == |w.procs|;
    assert v.procs[step.p].count == w.procs[step.p].count && v.procs[step.p].run.None?;
    assert v.procs[step.p].config == w.procs[step.p].config;
    assert forall q :: 0 <= q < |w.procs| && q != step.p ==> v.procs[q] == w.procs[q];
    hide Settled, ApplyShutdown, Matches, SampleCounter.Count;
    forall q | 0 <= q < |v.procs| ensures ProcessBalanced(v, q, after) {
      assert ProcessBalanced(w, q, books);
      ServedSame(w.runs, v.runs, q);
      if q != step.p {
        if w.procs[q].run.Some? {
          RunsApart(w, q, step.p);
        }
        hide ProcessBalanced;
        OthersBalanced(w, v, books, after, q);
      }
    }
    forall k | 0 <= k < |v.runs| && v.runs[k].finished ensures Settled(v, k, after[k]) {
      if k != r {
        ShutdownKeepsRun(w, step.p, step.endTime, step.now, k);
        SettledStays(w, v, k, books[k]);
      }
    }
  }

  // ----- the start of a run -----

  lemma ServedMore(runs: seq<Run>, run: Run, p: nat)
    ensures Served(runs + [run], p) == Served(runs, p) + if run.pid == p then 1 else 0
  {
    assert (runs + [run])[..|runs|] == runs;
  }

  /** The request counter is at the turn of the run. */
  lemma CounterIsTurn(w: World, p: nat)
    requires p < |w.procs|
    requires !w.procs[p].config.cliSapi ==> w.procs[p].count == SampleCounter.Count(Served(w.runs, p))
    ensures StartCount(w.procs[p]) == Turn(w, p)
    ensures !w.procs[p].config.cliSapi ==> StartCount(w.procs[p]) == SampleCounter.Count(Served(w.runs, p) + 1)
  {
    SampleCounter.CountClosed(Served(w.runs, p) + 1);
  }

  lemma OpenedMatches(w: World, step: Step)
    requires Inv(w) && step.Start? && Enabled(w, step) && step.p < |w.procs|
    requires StartCount(w.procs[step.p]) == Turn(w, step.p)
    ensures Matches(StartedSlot(w, step.p, step.source, step.name, step.kind, step.draw),
                    Opened(w, step.p, step.source, step.name, step.kind, step.draw), w.procs[step.p].config.attributes)
  {
    var proc := w.procs[step.p];
    ProcessHolds(w, step.p);
    if step.source.Some? {
      assert HeaderOk(w, step.source.value);
      HeadersAreReadable(w, step.source.value);
    }
    hide Inv, TraceContext.ParseTraceParent, TraceContext.ParseBaggage, TraceContext.Bind, FreshDraw;
    StartedExactly(proc.slot, proc.config.cliSapi, step.name, step.kind, step.draw, proc.config.attributes,
                   IncomingOf(w, step.source), proc.config.sampleRatioBased, StartCount(proc));
    hide Core.Started, Core.Readable, HeaderOk;
    var a := Opened(w, step.p, step.source, step.name, step.kind, step.draw);
    var r := a.records[0];
    assert a.endings == [] && StatusOf([], 0) == Slots.Unset && EndOf([], 0) == 0;
    assert Batch(a) == [Slots.Span(r.traceId, r.spanId, r.parentId, r.name, r.kind, r.start, 0, Slots.Unset)];
    NoBaggage();
  }

  lemma NoBaggage()
    ensures TraceContext.ParseBaggage("") == []
  {
  }

  lemma StartBalanced(w: World, books: seq<Account>, step: Step)
    requires Inv(w) && step.Start? && Enabled(w, step) && Balanced(w, books)
    ensures Balanced(Apply(w, step), Booked(w, books, step))
  {
    var v, after := ApplyStart(w, step.p, step.source, step.name, step.kind, step.draw), Booked(w, books, step);
    assert ProcessBalanced(w, step.p, books);
    CounterIsTurn(w, step.p);
    OpenedMatches(w, step);
    hide Matches, Settled, SampleCounter.Count, StartedSlot, Opened, StartCount, Turn, Inv, FreshDraw, Core.Readable;
    forall q | 0 <= q < |v.procs| ensures ProcessBalanced(v, q, after) {
      assert ProcessBalanced(w, q, books);
      ServedMore(w.runs, v.runs[|w.runs|], q);
      if q != step.p {
        OthersBalanced(w, v, books, after, q);
      }
    }
    forall k | 0 <= k < |v.runs| && v.runs[k].finished ensures Settled(v, k, after[k]) {
      StartKeepsRun(w, step, k);
      SettledStays(w, v, k, books[k]);
    }
  }

  // ----- every reachable world -----

  lemma StepBalanced(w: World, books: seq<Account>, step: Step)
    requires Inv(w) && Enabled(w, step) && Balanced(w, books)
    ensures Inv(Apply(w, step)) && Balanced(Apply(w, step), Booked(w, books, step))
  {
    StepInv(w, step);
    if step.Start? {
      StartBalanced(w, books, step);
    } else if step.Shutdown? {
      EndBalanced(w, books, step);
    } else {
      InsideBalanced(w, books, step);
    }
  }

  /** The accounts after a run of the processes. */
  ghost function Books(w: World, books: seq<Account>, run: seq<Step>): (after: seq<Account>)
    requires CanRun(w, run)
    decreases |run|
  {
    if run == [] then books else Books(Apply(w, run[0]), Booked(w, books, run[0]), run[1..])
  }

  lemma {:induction false} RunBalanced(w: World, books: seq<Account>, run: seq<Step>)
    requires Inv(w) && Balanced(w, books) && CanRun(w, run)
    ensures Inv(After(w, run)) && Balanced(After(w, run), Books(w, books, run))
    decreases |run|
  {
    hide Inv, Balanced, Enabled, Apply, Booked;
    if run != [] {
      StepBalanced(w, books, run[0]);
      RunBalanced(Apply(w, run[0]), Booked(w, books, run[0]), run[1..]);
    }
  }

  /** A run of the processes from the beginning, the world it leads to, and the accounts. */
  ghost predicate Recorded(configs: seq<Core.Config>, run: seq<Step>, w: World, books: seq<Account>) {
    CanRun(Initial(configs), run) && w == After(Initial(configs), run) && books == Books(Initial(configs), [], run)
  }

  lemma RecordedHolds(configs: seq<Core.Config>, run: seq<Step>, w: World, books: seq<Account>)
    requires Recorded(configs, run, w, books)
    ensures Inv(w) && Balanced(w, books)
  {
    InitialInv(configs);
    assert Balanced(Initial(configs), []);
    hide Inv, Balanced;
    RunBalanced(Initial(configs), [], run);
  }

  // ----- what is exported -----

  /** The last failure of span i is the ending at j. */
  predicate FailsLast(endings: seq<Ending>, i: nat, j: nat) {
    && j < |endings| && endings[j].span == i && endings[j].failure.Some?
    && forall k :: j < k < |endings| && endings[k].span == i ==> endings[k].failure.None?
  }

  /** The last ending of span i is the one at j. */
  predicate EndsLast(endings: seq<Ending>, i: nat, j: nat) {
    j < |endings| && endings[j].span == i && forall k :: j < k < |endings| ==> endings[k].span != i
  }

  /** What the endings have made of span i: its last failure counts, whatever comes after it; without a failure it is
      well if it was ended at all; and its end is the last one. */
  ghost predicate EndedAs(endings: seq<Ending>, i: nat, status: Slots.Status, end: nat) {
    && (forall j: nat :: FailsLast(endings, i, j) ==> status == Slots.Error(endings[j].failure.value))
    && (status.Error? ==> exists j: nat :: FailsLast(endings, i, j))
    && (status.Unset? <==> forall k :: 0 <= k < |endings| ==> endings[k].span != i)
    && (forall j: nat :: EndsLast(endings, i, j) ==> end == endings[j].time)
  }

  lemma {:induction false} EndingsMeaning(endings: seq<Ending>, i: nat)
    ensures EndedAs(endings, i, StatusOf(endings, i), EndOf(endings, i))
  {
    if endings != [] {
      var n := |endings| - 1;
      var before := endings[..n];
      EndingsMeaning(before, i);
      assert endings == before + [endings[n]];
      EndingStep(before, endings[n], i);
      hide StatusOf, EndOf;
      forall j: nat | j < n
        ensures FailsLast(before, i, j) && (endings[n].span == i ==> endings[n].failure.None?) <==>
                FailsLast(endings, i, j)
        ensures EndsLast(endings, i, j) ==> EndsLast(before, i, j)
      {
        assert forall k :: 0 <= k < n ==> before[k] == endings[k];
      }
      assert endings[n].span == i && endings[n].failure.Some? ==> FailsLast(endings, i, n);
    }
  }

  lemma {:induction false} FailureShows(endings: seq<Ending>, k: nat)
    requires k < |endings| && endings[k].failure.Some?
    ensures StatusOf(endings, endings[k].span).Error?
    decreases |endings|
  {
    var n := |endings| - 1;
    if k < n {
      FailureShows(endings[..n], k);
    }
  }

  lemma {:induction false} ErrorHasFailure(endings: seq<Ending>, i: nat)
    requires StatusOf(endings, i).Error?
    ensures SomeFailure(endings)
  {
    var n := |endings| - 1;
    if !(endings[n].span == i && endings[n].failure.Some?) {
      ErrorHasFailure(endings[..n], i);
      var k :| 0 <= k < n && endings[..n][k].failure.Some?;
      assert endings[k].failure.Some?;
    }
  }

  lemma ErrorsAreFailures(a: Account)
    requires Fits(a)
    ensures HasError(Batch(a)) <==> SomeFailure(a.endings)
  {
    if k :| 0 <= k < |a.endings| && a.endings[k].failure.Some? {
      FailureShows(a.endings, k);
      assert Batch(a)[a.endings[k].span].status.Error?;
    }
    if i :| 0 <= i < |Batch(a)| && Batch(a)[i].status.Error? {
      ErrorHasFailure(a.endings, i);
    }
  }

  /** In every reachable world the batch that a finished run leaves has exactly the spans that the program asked for, in
      order, each with the identity, the name, the kind and the start it was given, and each ended as the endings say;
      and it has an error if and only if one of its spans was ended with one. */
  lemma BatchIsAsAsked(configs: seq<Core.Config>, run: seq<Step>, w: World, books: seq<Account>, r: nat)
    requires Recorded(configs, run, w, books) && r < |w.runs| && r < |books| && w.runs[r].finished
    ensures var final, a := w.runs[r].final, books[r];
      && |final| == |a.records|
      && (forall i :: 0 <= i < |final| ==>
            && Record(final[i].traceId, final[i].spanId, final[i].parentId, final[i].name, final[i].kind,
                      final[i].start) == a.records[i]
            && EndedAs(a.endings, i, final[i].status, final[i].end))
      && (HasError(final) <==> exists k :: 0 <= k < |a.endings| && a.endings[k].failure.Some?)
  {
    RecordedHolds(configs, run, w, books);
    var a := books[r];
    assert Settled(w, r, a);
    hide Recorded, Settled, EndedAs, StatusOf, EndOf, Inv;
    forall i | 0 <= i < |a.records| ensures EndedAs(a.endings, i, Batch(a)[i].status, Batch(a)[i].end) {
      EndingsMeaning(a.endings, i);
    }
    ErrorsAreFailures(a);
  }

  /** Before that, while a run goes on, its process holds what the account says: the spans so far, the configured
      attributes followed by the baggage entries in the order they came, each key bound to its last value, and the
      flag. */
  lemma HeldAsAsked(configs: seq<Core.Config>, run: seq<Step>, w: World, books: seq<Account>, p: nat)
    requires Recorded(configs, run, w, books) && p < |w.procs| && w.procs[p].run.Some?
    ensures var proc := w.procs[p];
      && proc.run.value < |books|
      && var a := books[proc.run.value];
         && proc.slot.resource == Some(proc.config.attributes + a.entries)
         && proc.slot.baggage == TraceContext.Bind(map[], a.entries)
         && proc.slot.sampled == a.flag && proc.slot.batch == Some(Batch(a))
  {
    RecordedHolds(configs, run, w, books);
    assert ProcessBalanced(w, p, books);
    hide Recorded, Inv, Batch;
  }

  /** When a run lasts below 2^53 nanoseconds (104 days) and its threshold is a number of milliseconds. */
  predicate Ordinary(w: World, books: seq<Account>, r: nat) {
    && r < |w.runs| && r < |books| && w.runs[r].finished && w.runs[r].pid < |w.procs|
    && books[r].closed.Some? && books[r].records != []
    && books[r].closed.value - books[r].records[0].start < 0x0020_0000_0000_0000
    && 0 <= w.procs[w.runs[r].pid].config.maxTimeConsuming < 0x1_0000_0000_0000_0000
  }

  /** Which runs are exported: in every reachable world a finished run has offered its batch if and only if its process
      collects and it is flagged or has taken as many milliseconds as configured. If its program has not set the ratio,
      that is: it began sampled, or one of its spans has failed, or it was slow. */
  lemma OfferedExactly(configs: seq<Core.Config>, run: seq<Step>, w: World, books: seq<Account>, r: nat)
    requires Recorded(configs, run, w, books) && Ordinary(w, books, r)
    ensures var a, config := books[r], w.procs[w.runs[r].pid].config;
      var slow := (a.closed.value - a.records[0].start) / 1_000_000 >= config.maxTimeConsuming;
      && (w.runs[r].offered <==> config.enableCollect && (a.flag || slow))
      && (!a.adjusted ==>
            (w.runs[r].offered <==>
             config.enableCollect && (w.runs[r].startMarked || HasError(w.runs[r].final) || slow)))
  {
    RecordedHolds(configs, run, w, books);
    var a := books[r];
    assert Settled(w, r, a) && a.began == w.runs[r].startMarked;
    hide Recorded, Inv, Batch, Slots.Slow, HasError;
    Slots.SlowMeaning(a.records[0].start, a.closed.value, w.procs[w.runs[r].pid].config.maxTimeConsuming);
    ErrorsAreFailures(a);
  }

  /** What the headers say that a run emits: the flag is 01 exactly if the run is flagged or slow by then. */
  lemma HeaderSays(w: World, books: seq<Account>, step: Step)
    requires Inv(w) && Enabled(w, step) && Balanced(w, books) && (step.Send? || step.Announce?)
    requires w.procs[step.p].run.value < |books|
    ensures var a := books[w.procs[step.p].run.value]; var v := Apply(w, step);
      var max := w.procs[step.p].config.maxTimeConsuming;
      && a.records != [] && |v.headers| == |w.headers| + 1
      && var parent := v.headers[|w.headers|].parent;
         && parent.traceId == a.records[0].traceId
         && parent.spanId == (if step.Send? then step.draw.spanId else a.records[0].spanId)
         && (step.now - a.records[0].start < 0x0020_0000_0000_0000 && 0 <= max < 0x1_0000_0000_0000_0000 ==>
               (parent.sampled <==> a.flag || (step.now - a.records[0].start) / 1_000_000 >= max))
  {
    InRun(w, step);
    var proc := w.procs[step.p];
    assert ProcessBalanced(w, step.p, books);
    var a := books[proc.run.value];
    FirstMatches(proc.slot, a, proc.config.attributes);
    var slot := proc.slot;
    if step.Send? {
      ChildMatches(proc.slot, a, proc.config.attributes, step.name, Slots.Client, step.draw);
      ChildSlot(proc.slot, step.name, Slots.Client, step.draw, proc.config.attributes);
      slot := Slots.AddChild(proc.slot, step.name, Slots.Client, step.draw, proc.config.attributes);
    }
    var max := proc.config.maxTimeConsuming;
    hide Inv, Balanced, Slots.AddChild, Batch, FreshDraw, TraceContext.IterationOrder, Links, HasError;
    if step.now - a.records[0].start < 0x0020_0000_0000_0000 && 0 <= max < 0x1_0000_0000_0000_0000 {
      Slots.SampledMeaning(slot, step.now, max);
    }
    hide Slots.Sampled;
  }

  /** When a web server without headers begins a run sampled: the k-th of its requests, if the ratio is 1 or divides
      the counter, which starts again after 10000001. */
  lemma RootBegins(w: World, books: seq<Account>, step: Step)
    requires Inv(w) && Enabled(w, step) && Balanced(w, books) && step.Start? && step.source.None?
    requires !w.procs[step.p].config.cliSapi
    ensures var v := Apply(w, step); var ratio := w.procs[step.p].config.sampleRatioBased;
      var k := Served(w.runs, step.p) + 1;
      && |v.runs| == |w.runs| + 1
      && (v.runs[|w.runs|].startMarked <==> ratio == 1 || ((k - 1) % 10_000_001 + 1) % ratio == 0)
  {
    StartBalanced(w, books, step);
    hide Inv, StartedSlot, Settled, ProcessBalanced, FreshDraw;
  }

  // ----- programs that leave the ratio alone -----

  /** Only a program that sets the ratio to 0 makes a run count as zeroed. */
  lemma ZeroedStep(w: World, step: Step, r: nat)
    requires Inv(w) && Enabled(w, step) && r < |Apply(w, step).runs|
    requires step.SetRatio? ==> step.ratioBased != 0
    ensures Apply(w, step).runs[r].zeroed ==> r < |w.runs| && w.runs[r].zeroed
  {
    if !step.Start? {
      InRun(w, step);
    }
    hide Inv, FreshDraw, Core.Readable, TraceContext.IterationOrder, StartedSlot, Core.Completed, Slots.CleanFpm;
    hide Slots.AddChild, Core.SpanAdded, Slots.ErrorEnd, Slots.OkEnd, Core.RatioSet, Slots.AddBaggage, HeaderFor;
    hide Slots.FirstSpan, Slots.ValidSlot;
  }

  /** So where no program sets the ratio to 0, no run counts as zeroed. */
  lemma {:induction false} NeverZeroed(w: World, run: seq<Step>)
    requires Inv(w) && CanRun(w, run) && forall r :: 0 <= r < |w.runs| ==> !w.runs[r].zeroed
    requires forall k :: 0 <= k < |run| && run[k].SetRatio? ==> run[k].ratioBased != 0
    ensures forall r :: 0 <= r < |After(w, run).runs| ==> !After(w, run).runs[r].zeroed
    decreases |run|
  {
    if run != [] {
      var v := Apply(w, run[0]);
      StepInv(w, run[0]);
      forall r | 0 <= r < |v.runs| ensures !v.runs[r].zeroed {
        ZeroedStep(w, run[0], r);
      }
      hide Inv, Enabled, Apply;
      NeverZeroed(v, run[1..]);
    }
  }

  /** And where none sets it at all, no flag has been adjusted. */
  lemma {:induction false} NeverAdjusted(w: World, books: seq<Account>, run: seq<Step>)
    requires Inv(w) && Balanced(w, books) && CanRun(w, run) && forall r :: 0 <= r < |books| ==> !books[r].adjusted
    requires forall k :: 0 <= k < |run| ==> !run[k].SetRatio?
    ensures forall r :: 0 <= r < |Books(w, books, run)| ==> !Books(w, books, run)[r].adjusted
    decreases |run|
  {
    if run != [] {
      var v, after := Apply(w, run[0]), Booked(w, books, run[0]);
      StepBalanced(w, books, run[0]);
      assert forall r :: 0 <= r < |after| ==> !after[r].adjusted;
      hide Inv, Enabled, Apply, Balanced, Booked;
      NeverAdjusted(v, after, run[1..]);
    }
  }

  /** For all runs from the beginning, in plain terms: where no program sets the ratio, a finished run is exported if
      and only if its process collects and it began sampled, has a failed span, or was slow. */
  lemma WhatIsExported(configs: seq<Core.Config>, run: seq<Step>, w: World, books: seq<Account>, r: nat)
    requires Recorded(configs, run, w, books) && Ordinary(w, books, r)
    requires forall k :: 0 <= k < |run| ==> !run[k].SetRatio?
    ensures var a, config := books[r], w.procs[w.runs[r].pid].config;
      w.runs[r].offered <==>
      config.enableCollect &&
      (w.runs[r].startMarked || (exists k :: 0 <= k < |a.endings| && a.endings[k].failure.Some?) ||
       (a.closed.value - a.records[0].start) / 1_000_000 >= config.maxTimeConsuming)
  {
    InitialInv(configs);
    NeverAdjusted(Initial(configs), [], run);
    OfferedExactly(configs, run, w, books, r);
    BatchIsAsAsked(configs, run, w, books, r);
    hide Inv, HasError, Batch, Books, CanRun, After;
  }
}
