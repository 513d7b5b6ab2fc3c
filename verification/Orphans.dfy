/** Where the agreement about a trace ends: the exact condition under which a run is exported for certain, what
    happens to its callees' spans otherwise, and a reachable case of it. */
module Orphans {
  import opened Prelude
  import opened Lifecycle
  import opened TraceTree
  import Slots
  import Core
  import Conversions
  import TraceContext

  // ----- a call that fails -----

  /** A run that is neither flagged nor slow so far. */
  predicate Unsampled(w: World, p: nat) {
    Running(w, p) && !Slots.Sampled(w.procs[p].slot, w.clock, w.procs[p].config.maxTimeConsuming)
  }

  /** Process q is idle and p is not; both collect; and two draws are fresh. */
  ghost predicate CanCall(w: World, p: nat, q: nat, a: Slots.Draw, b: Slots.Draw, order: seq<string>) {
    && Inv(w) && Running(w, p) && q < |w.procs| && w.procs[q].run.None?
    && w.procs[p].config.enableCollect && w.procs[q].config.enableCollect && w.procs[q].config.sampleRatioBased != 0
    && FreshDraw(w, a) && FreshDraw(w, b) && a.spanId != b.spanId && a.traceId != b.traceId
    && a.now == b.now == w.clock && TraceContext.IterationOrder(w.procs[p].slot.baggage, order)
  }

  /** Process p calls q; q fails and ends; then p ends; all at once. */
  function FailingCall(w: World, p: nat, q: nat, a: Slots.Draw, b: Slots.Draw, order: seq<string>): seq<Step> {
    [Send(p, "call", a, w.clock, order), Start(q, Some(|w.headers|), "serve", Slots.Server, b),
     End(q, 0, Some("failure"), w.clock), Shutdown(q, w.clock, w.clock), Shutdown(p, w.clock, w.clock)]
  }

  lemma CallSent(w: World, p: nat, q: nat, a: Slots.Draw, b: Slots.Draw, order: seq<string>) returns (v: World)
    requires CanCall(w, p, q, a, b, order) && Unsampled(w, p)
    ensures Enabled(w, Send(p, "call", a, w.clock, order)) && v == Apply(w, Send(p, "call", a, w.clock, order))
    ensures Inv(v) && Unsampled(v, p) && v.clock == w.clock && v.runs == w.runs
    ensures |v.procs| == |w.procs| && (forall k :: 0 <= k < |w.procs| && k != p ==> v.procs[k] == w.procs[k])
    ensures v.procs[p].run == w.procs[p].run && v.procs[p].config == w.procs[p].config
    ensures |v.headers| == |w.headers| + 1 && !v.headers[|w.headers|].parent.sampled
    ensures |v.nodes| == |w.nodes| + 1 && v.nodes[|w.nodes|].run == w.procs[p].run.value && FreshDraw(v, b)
    ensures v.headers[|w.headers|].node == |w.nodes|
  {
    hide Inv, Slots.AddChild, TraceContext.FormatTraceParent, TraceContext.FormatBaggage, RunOk, OfRun, Links;
    var proc := w.procs[p];
    var step := Send(p, "call", a, w.clock, order);
    assert Enabled(w, step) by { ClockInRange(w); }
    v := ApplySend(w, p, "call", a, w.clock, order);
    hide TraceContext.IterationOrder;
    StepInv(w, step);
    ChildSlot(proc.slot, "call", Slots.Client, a, proc.config.attributes);
    hide Enabled, Slots.Sampled;
    FirstInHistory(w, p);
    assert v.runs[proc.run.value] == w.runs[proc.run.value];
    StillFresh(w, v, proc.run.value, b);
  }

  lemma ClockInRange(w: World)
    requires Inv(w)
    ensures w.clock < Slots.UINT64
  {
  }

  /** A child span takes no identifier away but its own. */
  lemma StillFresh(w: World, v: World, r: nat, b: Slots.Draw)
    requires FreshDraw(w, b) && r < |w.runs| && w.runs[r].first < |w.nodes|
    requires |v.nodes| == |w.nodes| + 1 && v.nodes == w.nodes + [v.nodes[|w.nodes|]]
    requires v.nodes[|w.nodes|].link.spanId != b.spanId
    requires v.nodes[|w.nodes|].link.traceId == w.nodes[w.runs[r].first].link.traceId
    ensures FreshDraw(v, b)
  {
    assert w.nodes[w.runs[r].first] in w.nodes;
  }

  lemma CallReceived(w: World, q: nat, h: nat, b: Slots.Draw) returns (v: World)
    requires Inv(w) && q < |w.procs| && w.procs[q].run.None? && h < |w.headers| && FreshDraw(w, b)
    requires b.now == w.clock && w.procs[q].config.sampleRatioBased != 0
    ensures Enabled(w, Start(q, Some(h), "serve", Slots.Server, b))
    ensures v == Apply(w, Start(q, Some(h), "serve", Slots.Server, b))
    ensures Inv(v) && v.clock == w.clock && |v.runs| == |w.runs| + 1
    ensures |v.procs| == |w.procs| && (forall k :: 0 <= k < |w.procs| && k != q ==> v.procs[k] == w.procs[k])
    ensures v.procs[q].run == Some(|w.runs|) && v.procs[q].config == w.procs[q].config && Running(v, q)
    ensures |v.nodes| == |w.nodes| + 1 && v.nodes[..|w.nodes|] == w.nodes && v.nodes[|w.nodes|].run == |w.runs|
    ensures ParentOf(v.nodes, w.headers[h].node, |w.nodes|)
    ensures v.runs[..|w.runs|] == w.runs
  {
    hide Inv, StartedSlot, Core.Readable, FreshDraw, ParentOf, Enabled, StartCount;
    CanReceive(w, q, h, b);
    var step := Start(q, Some(h), "serve", Slots.Server, b);
    v := ApplyStart(w, q, Some(h), "serve", Slots.Server, b);
    StepInv(w, step);
    CallerIsParent(v, |w.runs|);
  }

  lemma CanReceive(w: World, q: nat, h: nat, b: Slots.Draw)
    requires Inv(w) && q < |w.procs| && w.procs[q].run.None? && h < |w.headers| && FreshDraw(w, b)
    requires b.now == w.clock && w.procs[q].config.sampleRatioBased != 0
    ensures Enabled(w, Start(q, Some(h), "serve", Slots.Server, b))
  {
    assert ProcessOk(w, q) && HeaderOk(w, h);
    HeadersAreReadable(w, h);
    hide Inv, FreshDraw, HeaderOk;
  }

  lemma CallFailed(w: World, q: nat) returns (v: World)
    requires Inv(w) && Running(w, q)
    ensures Enabled(w, End(q, 0, Some("failure"), w.clock)) && v == Apply(w, End(q, 0, Some("failure"), w.clock))
    ensures Inv(v) && Running(v, q) && v.procs[q].slot.sampled && v.clock == w.clock && v.nodes == w.nodes
    ensures |v.procs| == |w.procs| && (forall k :: 0 <= k < |w.procs| && k != q ==> v.procs[k] == w.procs[k])
    ensures v.procs[q].run == w.procs[q].run && v.procs[q].config == w.procs[q].config
    ensures |v.runs| == |w.runs|
  {
    assert ProcessOk(w, q);
    var step := End(q, 0, Some("failure"), w.clock);
    v := Apply(w, step);
    StepInv(w, step);
    EndedSlot(w.procs[q].slot, 0, Some("failure"), w.clock);
    hide Inv, ProcessOk;
  }

  /** At the end of a run the flag and the duration decide, and nothing else. */
  lemma RunEnds(w: World, p: nat, endTime: nat, now: nat) returns (v: World)
    requires Inv(w) && Enabled(w, Shutdown(p, endTime, now))
    ensures v == Apply(w, Shutdown(p, endTime, now))
    ensures Inv(v) && v.clock == now && v.nodes == w.nodes && |v.runs| == |w.runs|
    ensures |v.procs| == |w.procs| && v.procs[p].config == w.procs[p].config
    ensures forall k :: 0 <= k < |w.procs| && k != p ==> v.procs[k] == w.procs[k]
    ensures var r := w.procs[p].run.value;
      && (forall k :: 0 <= k < |w.runs| && k != r ==> v.runs[k] == w.runs[k])
      && v.runs[r].finished && v.runs[r].pid == w.runs[r].pid
      && (v.runs[r].offered <==>
          w.procs[p].config.enableCollect && Slots.Sampled(w.procs[p].slot, now, w.procs[p].config.maxTimeConsuming))
  {
    assert ProcessOk(w, p);
    var step := Shutdown(p, endTime, now);
    v := ApplyShutdown(w, p, endTime, now);
    StepInv(w, step);
    EndedSlot(w.procs[p].slot, 0, None, endTime);
    hide Inv, ProcessOk, Slots.OkEnd, Links, HasError;
  }

  /** Whenever a run that is neither flagged nor slow calls a process, and that one fails, the callee exports its
      spans while the caller, ending in time, does not: the parent of an exported span is lost. */
  lemma LateSamplingOrphans(w: World, p: nat, q: nat, a: Slots.Draw, b: Slots.Draw, order: seq<string>)
    requires CanCall(w, p, q, a, b, order) && Unsampled(w, p)
    ensures CanRun(w, FailingCall(w, p, q, a, b, order))
    ensures var v := After(w, FailingCall(w, p, q, a, b, order));
      var caller, callee := w.procs[p].run.value, |w.runs|;
      && |v.runs| == |w.runs| + 1 && v.runs[callee].offered
      && v.runs[caller].finished && !v.runs[caller].offered
      && ParentOf(v.nodes, |w.nodes|, |w.nodes| + 1)
      && v.nodes[|w.nodes|].run == caller && v.nodes[|w.nodes| + 1].run == callee
  {
    var run := FailingCall(w, p, q, a, b, order);
    var w1 := CallSent(w, p, q, a, b, order);
    hide Inv, Enabled, Apply, FreshDraw;
    var w2 := CallReceived(w1, q, |w.headers|, b);
    assert w2.nodes[|w.nodes|] == w1.nodes[|w.nodes|];
    var w3 := CallFailed(w2, q);
    assert Slots.Sampled(w3.procs[q].slot, w3.clock, w3.procs[q].config.maxTimeConsuming);
    EndEnabled(w3, q);
    var w4 := RunEnds(w3, q, w.clock, w.clock);
    assert Unsampled(w4, p);
    EndEnabled(w4, p);
    var w5 := RunEnds(w4, p, w.clock, w.clock);
    hide Unsampled, CanCall, ParentOf;
    Unrolled(w, run[0], run[1], run[2], run[3], run[4]);
    assert run == [run[0], run[1], run[2], run[3], run[4]];
  }

  lemma EndEnabled(w: World, p: nat)
    requires Inv(w) && Running(w, p)
    ensures Enabled(w, Shutdown(p, w.clock, w.clock))
  {
  }

  lemma Unrolled(w: World, a: Step, b: Step, c: Step, d: Step, e: Step)
    requires Enabled(w, a)
    requires var w1 := Apply(w, a); Enabled(w1, b)
    requires var w2 := Apply(Apply(w, a), b); Enabled(w2, c)
    requires var w3 := Apply(Apply(Apply(w, a), b), c); Enabled(w3, d)
    requires var w4 := Apply(Apply(Apply(Apply(w, a), b), c), d); Enabled(w4, e)
    ensures CanRun(w, [a, b, c, d, e])
    ensures After(w, [a, b, c, d, e]) == Apply(Apply(Apply(Apply(Apply(w, a), b), c), d), e)
  {
    hide Enabled, Apply;
    var w1 := Apply(w, a);
    var w2 := Apply(w1, b);
    var w3 := Apply(w2, c);
    var w4 := Apply(w3, d);
    OneMoreStep(Apply(w4, e), []);
    assert [e][1..] == [];
    assert CanRun(w4, [e]) && After(w4, [e]) == Apply(w4, e);
    assert [d, e][1..] == [e];
    assert CanRun(w3, [d, e]) && After(w3, [d, e]) == Apply(w4, e);
    assert [c, d, e][1..] == [d, e];
    assert CanRun(w2, [c, d, e]) && After(w2, [c, d, e]) == Apply(w4, e);
    assert [b, c, d, e][1..] == [c, d, e];
    assert CanRun(w1, [b, c, d, e]) && After(w1, [b, c, d, e]) == Apply(w4, e);
    assert [a, b, c, d, e][1..] == [b, c, d, e];
  }

  lemma OneMoreStep(w: World, run: seq<Step>)
    requires run == []
    ensures CanRun(w, run) && After(w, run) == w
  {
  }

  // ----- when a caller is safe -----

  /** The program of process p does not set the ratio to 0. */
  predicate KeepsRatio(acts: seq<Step>, p: nat) {
    forall a :: a in acts ==> !Zeroes(a, p)
  }

  predicate Zeroes(a: Step, p: nat) {
    a.SetRatio? && a.p == p && a.ratioBased == 0
  }

  /** Run r of process p is over and has exported, or is still going on and sampled by now. */
  ghost predicate Safe(w: World, p: nat, r: nat) {
    && p < |w.procs| && w.procs[p].config.enableCollect && r < |w.runs| && w.runs[r].pid == p
    && if w.runs[r].finished then w.runs[r].offered
       else w.procs[p].run == Some(r) && Running(w, p) && !Unsampled(w, p)
  }

  /** A step of another process leaves the slot alone, and lets time pass. */
  lemma OtherStep(w: World, step: Step, p: nat)
    requires Inv(w) && Enabled(w, step) && Running(w, p) && step.p != p
    ensures var v := Apply(w, step); |v.procs| == |w.procs| && v.procs[p] == w.procs[p] && w.clock <= v.clock
  {
    if !step.Start? && !step.Shutdown? {
      StepAdvances(w, step);
      hide Inv, Apply, NodesAdvanced, HeadersAdvanced;
    }
  }

  lemma OwnSend(w: World, p: nat, name: string, draw: Slots.Draw, now: nat, order: seq<string>)
    requires Inv(w) && Enabled(w, Send(p, name, draw, now, order)) && !Unsampled(w, p)
    ensures var v := ApplySend(w, p, name, draw, now, order);
      && |v.procs| == |w.procs| && v.procs[p].run == w.procs[p].run && v.procs[p].config == w.procs[p].config
      && Running(v, p) && !Unsampled(v, p)
  {
    var proc := w.procs[p];
    assert ProcessOk(w, p);
    ChildSlot(proc.slot, name, Slots.Client, draw, proc.config.attributes);
    hide Inv, Links, OfRun, HasError, FreshDraw, Slots.AddChild;
    SampledLater(proc.slot, w.clock, now, proc.config.maxTimeConsuming);
  }

  lemma OwnAdd(w: World, p: nat, name: string, kind: Slots.Kind, draw: Slots.Draw, start: nat,
               failure: Option<string>, endTime: nat)
    requires Inv(w) && Enabled(w, Add(p, name, kind, draw, start, failure, endTime)) && !Unsampled(w, p)
    ensures var v := ApplyAdd(w, p, name, kind, draw, start, failure, endTime);
      && |v.procs| == |w.procs| && v.procs[p].run == w.procs[p].run && v.procs[p].config == w.procs[p].config
      && Running(v, p) && !Unsampled(v, p)
  {
    var proc := w.procs[p];
    assert ProcessOk(w, p);
    AddedSlot(proc.slot, name, kind, draw, proc.config.attributes, start, failure, endTime);
    hide Inv, Links, OfRun, HasError, FreshDraw, Core.SpanAdded;
    SampledLater(proc.slot, w.clock, endTime, proc.config.maxTimeConsuming);
  }

  lemma OwnEnd(w: World, p: nat, i: nat, failure: Option<string>, now: nat)
    requires Inv(w) && Enabled(w, End(p, i, failure, now)) && !Unsampled(w, p)
    ensures var v := ApplyEnd(w, p, i, failure, now);
      && |v.procs| == |w.procs| && v.procs[p].run == w.procs[p].run && v.procs[p].config == w.procs[p].config
      && Running(v, p) && !Unsampled(v, p)
  {
    var proc := w.procs[p];
    assert ProcessOk(w, p);
    EndedSlot(proc.slot, i, failure, now);
    hide Inv, Links, OfRun, HasError, Slots.ErrorEnd, Slots.OkEnd;
    SampledLater(proc.slot, w.clock, now, proc.config.maxTimeConsuming);
  }

  /** A step of a sampled run keeps it sampled, unless it sets the ratio to 0 or ends the run. */
  lemma OwnStep(w: World, step: Step, p: nat)
    requires Inv(w) && Enabled(w, step) && Running(w, p) && !Unsampled(w, p)
    requires step.p == p && !step.Shutdown? && !Zeroes(step, p)
    ensures var v := Apply(w, step);
      && |v.procs| == |w.procs| && v.procs[p].run == w.procs[p].run && v.procs[p].config == w.procs[p].config
      && Running(v, p) && !Unsampled(v, p)
  {
    var proc := w.procs[p];
    assert ProcessOk(w, p);
    hide Inv, Links, OfRun, HasError, FreshDraw, TraceContext.IterationOrder;
    match step
    case Send(_, name, draw, now, order) =>
      hide ApplySend;
      OwnSend(w, p, name, draw, now, order);
    case Announce(_, now, order) => SampledLater(proc.slot, w.clock, now, proc.config.maxTimeConsuming);
    case Add(_, name, kind, draw, start, failure, endTime) =>
      hide ApplyAdd;
      OwnAdd(w, p, name, kind, draw, start, failure, endTime);
    case End(_, i, failure, now) =>
      hide ApplyEnd;
      OwnEnd(w, p, i, failure, now);
    case SetRatio(_, _, _) =>
    case AddEntry(_, _, _) =>
  }

  lemma SafeStep(w: World, step: Step, p: nat, r: nat)
    requires Inv(w) && Enabled(w, step) && Safe(w, p, r) && !Zeroes(step, p)
    ensures Safe(Apply(w, step), p, r)
  {
    ProcessHolds(w, p);
    if step.Shutdown? && w.procs[step.p].run == Some(r) {
      EndIsSafe(w, step, p, r);
    } else {
      var v := Apply(w, step);
      StepInv(w, step);
      RunsGoOn(w, step, r);
      ClockInRange(v);
      hide Inv, Apply, Enabled, Links, OfRun, HasError;
      if !w.runs[r].finished {
        if step.p != p {
          OtherStep(w, step, p);
          SampledLater(w.procs[p].slot, w.clock, v.clock, w.procs[p].config.maxTimeConsuming);
        } else {
          OwnStep(w, step, p);
        }
      }
    }
  }

  lemma EndIsSafe(w: World, step: Step, p: nat, r: nat)
    requires Inv(w) && Enabled(w, step) && Safe(w, p, r) && step.Shutdown? && w.procs[step.p].run == Some(r)
    ensures Safe(Apply(w, step), p, r)
  {
    ProcessHolds(w, step.p);
    NotFinished(w, step.p);
    ProcessHolds(w, p);
    hide Inv, Apply, Links, OfRun, HasError;
    var u := RunEnds(w, p, step.endTime, step.now);
    SampledLater(w.procs[p].slot, w.clock, step.now, w.procs[p].config.maxTimeConsuming);
  }

  lemma {:induction false} SafeRun(w: World, acts: seq<Step>, p: nat, r: nat)
    requires Inv(w) && CanRun(w, acts) && Safe(w, p, r) && KeepsRatio(acts, p)
    ensures Safe(After(w, acts), p, r)
    decreases |acts|
  {
    hide Inv, Enabled, Apply, Safe, Zeroes;
    if acts != [] {
      StepInv(w, acts[0]);
      SafeStep(w, acts[0], p, r);
      SafeRun(Apply(w, acts[0]), acts[1..], p, r);
    }
  }

  /** In the continuation, run r does not end without exporting. */
  ghost predicate Delivers(w: World, acts: seq<Step>, p: nat, r: nat) {
    CanRun(w, acts) && KeepsRatio(acts, p) ==> r < |After(w, acts).runs| && OffersAtEnd(After(w, acts), r)
  }

  /** The exact condition for a run to be exported for certain: whatever happens from now on, short of its program
      setting the ratio to 0, the run exports at its end if and only if it is flagged or slow already. */
  lemma ExportIsCertain(w: World, p: nat)
    requires Inv(w) && Running(w, p) && w.procs[p].config.enableCollect
    ensures (forall acts :: Delivers(w, acts, p, w.procs[p].run.value)) <==> !Unsampled(w, p)
  {
    var r := w.procs[p].run.value;
    assert ProcessOk(w, p);
    if Unsampled(w, p) {
      var acts := [Shutdown(p, w.clock, w.clock)];
      EndEnabled(w, p);
      var v := RunEnds(w, p, w.clock, w.clock);
      SingleStep(w, acts[0]);
      assert After(w, acts) == v;
      assert !Delivers(w, acts, p, r);
    } else {
      assert Safe(w, p, r);
      forall acts ensures Delivers(w, acts, p, r) {
        if CanRun(w, acts) && KeepsRatio(acts, p) {
          SafeRun(w, acts, p, r);
        }
      }
    }
  }

  lemma SingleStep(w: World, step: Step)
    requires Enabled(w, step)
    ensures CanRun(w, [step]) && After(w, [step]) == Apply(w, step)
  {
    hide Enabled, Apply;
    assert [step][1..] == [];
    OneMoreStep(Apply(w, step), []);
  }

  /** A run has exported a span below a span of run `caller`, and that one has ended without exporting. */
  ghost predicate Orphaned(w: World, caller: nat) {
    && caller < |w.runs| && w.runs[caller].finished && !w.runs[caller].offered
    && exists i: nat, j: nat :: ParentOf(w.nodes, j, i) && w.nodes[j].run == caller &&
                                w.nodes[i].run < |w.runs| && w.runs[w.nodes[i].run].offered
  }

  ghost predicate LeadsToOrphan(w: World, acts: seq<Step>, p: nat, r: nat) {
    CanRun(w, acts) && KeepsRatio(acts, p) && Orphaned(After(w, acts), r)
  }

  lemma CallLeadsToOrphan(w: World, p: nat, q: nat, a: Slots.Draw, b: Slots.Draw, order: seq<string>)
    requires CanCall(w, p, q, a, b, order) && Unsampled(w, p)
    ensures LeadsToOrphan(w, FailingCall(w, p, q, a, b, order), p, w.procs[p].run.value)
  {
    LateSamplingOrphans(w, p, q, a, b, order);
    var acts := FailingCall(w, p, q, a, b, order);
    assert KeepsRatio(acts, p);
    hide CanRun, After, Inv, CanCall, Unsampled, FailingCall;
    assert ParentOf(After(w, acts).nodes, |w.nodes|, |w.nodes| + 1);
  }

  /** The exact condition for orphans: a run that can call an idle process may lose the parent of an exported span,
      although its program does not set the ratio to 0, if and only if it is neither flagged nor slow when it
      calls. */
  lemma OrphanCondition(w: World, p: nat, q: nat, a: Slots.Draw, b: Slots.Draw, order: seq<string>)
    requires CanCall(w, p, q, a, b, order)
    ensures (exists acts :: LeadsToOrphan(w, acts, p, w.procs[p].run.value)) <==> Unsampled(w, p)
  {
    var r := w.procs[p].run.value;
    hide LeadsToOrphan, FailingCall;
    if Unsampled(w, p) {
      var acts := FailingCall(w, p, q, a, b, order);
      CallLeadsToOrphan(w, p, q, a, b, order);
      assert LeadsToOrphan(w, acts, p, r);
    } else {
      forall acts | LeadsToOrphan(w, acts, p, r) ensures false {
        NotBoth(w, acts, p, r);
      }
    }
  }

  lemma NotBoth(w: World, acts: seq<Step>, p: nat, r: nat)
    requires Inv(w) && Running(w, p) && w.procs[p].config.enableCollect && r == w.procs[p].run.value
    requires !Unsampled(w, p)
    ensures !LeadsToOrphan(w, acts, p, r)
  {
    assert ProcessOk(w, p);
    if CanRun(w, acts) && KeepsRatio(acts, p) {
      SafeRun(w, acts, p, r);
    }
  }

  // ----- and where it happens -----

  function Filled(n: nat, value: byte): (id: seq<byte>)
    ensures |id| == n && forall i :: 0 <= i < n ==> id[i] == value
  {
    seq(n, _ => value)
  }

  function DrawOf(value: byte): Slots.Draw {
    Slots.Draw(Filled(TraceContext.TRACE_ID_BYTES, value), Filled(TraceContext.SPAN_ID_BYTES, value), 0)
  }

  /** A web server that samples every second request, or one that takes a second. */
  const HALF: Core.Config := Core.Config(false, false, true, 2, 1000, [])

  /** Two such servers, the first of which has just begun its first request, are in the situation of a caller that
      may lose a parent; so a world with an orphan is reachable. */
  lemma OrphanIsReachable() returns (w: World, v: World)
    ensures Reachable([HALF, HALF], w) && CanCall(w, 0, 1, DrawOf(1), DrawOf(2), []) && Unsampled(w, 0)
    ensures Reachable([HALF, HALF], v) && Orphaned(v, 0)
  {
    w := FirstRequest();
    OrphanCondition(w, 0, 1, DrawOf(1), DrawOf(2), []);
    hide CanCall, Unsampled, Orphaned;
    var acts :| LeadsToOrphan(w, acts, 0, 0);
    v := After(w, acts);
    var run :| CanRun(Initial([HALF, HALF]), run) && After(Initial([HALF, HALF]), run) == w;
    RunsJoin(Initial([HALF, HALF]), run, acts);
  }

  lemma FillsDiffer(n: nat, a: byte, b: byte)
    requires n > 0 && a != b
    ensures Filled(n, a) != Filled(n, b)
  {
    assert Filled(n, a)[0] != Filled(n, b)[0];
  }

  /** The draws of two values have nothing in common. */
  lemma DrawsDiffer(a: byte, b: byte)
    requires a != b
    ensures DrawOf(a).traceId != DrawOf(b).traceId && DrawOf(a).spanId != DrawOf(b).spanId
    ensures Slots.ValidDraw(DrawOf(a)) && Slots.ValidDraw(DrawOf(b))
  {
    FillsDiffer(TraceContext.TRACE_ID_BYTES, a, b);
    FillsDiffer(TraceContext.SPAN_ID_BYTES, a, b);
  }

  /** The first request of the first server: the counter is 1, so the ratio does not choose it, and no time has
      passed. */
  lemma FirstRequest() returns (w: World)
    ensures Reachable([HALF, HALF], w) && CanCall(w, 0, 1, DrawOf(1), DrawOf(2), []) && Unsampled(w, 0)
    ensures w.procs[0].run == Some(0)
  {
    DrawsAtZero();
    DrawsDiffer(0, 1);
    DrawsDiffer(0, 2);
    DrawsDiffer(1, 2);
    hide DrawOf, Filled;
    w := Begun(DrawOf(0));
    hide Inv, Reachable;
    FreshIsUnsampled(w.procs[0].slot);
  }

  lemma Begun(draw: Slots.Draw) returns (w: World)
    requires Slots.ValidDraw(draw) && draw.now == 0
    ensures Reachable([HALF, HALF], w) && Inv(w) && Running(w, 0) && w.clock == 0
    ensures |w.procs| == 2 && w.procs[0].run == Some(0) && w.procs[0].config == HALF
    ensures w.procs[1] == Process(HALF, Slots.EMPTY, 0, None)
    ensures !w.procs[0].slot.sampled && Slots.FirstSpan(w.procs[0].slot).start == 0
    ensures w.procs[0].slot.baggage == map[]
    ensures |w.nodes| == 1 && w.nodes[0].link.traceId == draw.traceId && w.nodes[0].link.spanId == draw.spanId
  {
    var start := Initial([HALF, HALF]);
    var step := Start(0, None, "root", Slots.Server, draw);
    assert Enabled(start, step);
    w := ApplyStart(start, 0, None, "root", Slots.Server, draw);
    SingleStep(start, step);
    assert Reachable([HALF, HALF], w);
    ReachableInv([HALF, HALF], w);
    hide Inv, CanRun, After, Reachable;
    StartedShape(Slots.EMPTY, false, "root", Slots.Server, draw, [], Core.Incoming("", ""), 2, 1);
    hide Core.Started;
  }

  lemma DrawsAtZero()
    ensures forall value :: DrawOf(value).now == 0
  {
  }

  /** A request that has only begun has taken no time. */
  lemma FreshIsUnsampled(slot: Slots.Slot)
    requires Slots.Active(slot) && !slot.sampled && Slots.FirstSpan(slot).start == 0
    ensures !Slots.Sampled(slot, 0, HALF.maxTimeConsuming)
    ensures slot.baggage == map[] ==> TraceContext.IterationOrder(slot.baggage, [])
  {
    Conversions.MillisExact(0);
  }

  lemma {:induction false} RunsJoin(w: World, first: seq<Step>, second: seq<Step>)
    requires CanRun(w, first) && CanRun(After(w, first), second)
    ensures CanRun(w, first + second) && After(w, first + second) == After(After(w, first), second)
    decreases |first|
  {
    hide Enabled, Apply;
    if first == [] {
      assert first + second == second;
    } else {
      RunsJoin(Apply(w, first[0]), first[1..], second);
      assert (first + second)[1..] == first[1..] + second;
    }
  }
}
