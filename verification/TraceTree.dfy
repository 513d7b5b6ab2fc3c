/** What the spans of many processes look like together, in every run of the system: the shape of the traces and
    the agreement about what is exported. */
module TraceTree {
  import opened Prelude
  import opened Lifecycle
  import Core
  import TraceContext

  // ----- shape -----

  /** Span j was created before span i, in the same trace, and is named as its parent. */
  predicate ParentOf(nodes: seq<Node>, j: nat, i: nat) {
    j < i < |nodes| && nodes[j].link.traceId == nodes[i].link.traceId && nodes[j].link.spanId == nodes[i].link.parentId
  }

  /** Span i has no parent, and is the first of its trace. */
  predicate RootAt(nodes: seq<Node>, i: nat) {
    && i < |nodes| && nodes[i].link.parentId == []
    && forall j :: 0 <= j < i ==> nodes[j].link.traceId != nodes[i].link.traceId
  }

  /** No parent is missing, and parents come first. */
  ghost predicate Forest(nodes: seq<Node>) {
    && DistinctIds(nodes)
    && forall i :: 0 <= i < |nodes| ==> RootAt(nodes, i) || exists j :: ParentOf(nodes, j, i)
  }

  /** The span at the top of the chain of parents. */
  ghost function RootOf(nodes: seq<Node>, i: nat): (root: nat)
    requires Forest(nodes) && i < |nodes|
    ensures RootAt(nodes, root) && root <= i && nodes[root].link.traceId == nodes[i].link.traceId
  {
    if RootAt(nodes, i) then i
    else
      var j: nat :| ParentOf(nodes, j, i);
      RootOf(nodes, j)
  }

  lemma RootsDiffer(nodes: seq<Node>, a: nat, b: nat)
    requires RootAt(nodes, a) && RootAt(nodes, b) && nodes[a].link.traceId == nodes[b].link.traceId
    ensures a == b
  {
  }

  /** All spans of a trace hang from one root. */
  lemma SingleRoot(nodes: seq<Node>, i: nat, k: nat)
    requires Forest(nodes) && i < |nodes| && k < |nodes| && nodes[i].link.traceId == nodes[k].link.traceId
    ensures RootOf(nodes, i) == RootOf(nodes, k)
  {
    RootsDiffer(nodes, RootOf(nodes, i), RootOf(nodes, k));
  }

  /** The first span of a run that was started with headers hangs below the span that the headers name. */
  lemma CallerIsParent(w: World, r: nat)
    requires Inv(w) && r < |w.runs| && w.runs[r].source.Some?
    ensures w.runs[r].source.value < |w.headers|
    ensures ParentOf(w.nodes, w.headers[w.runs[r].source.value].node, w.runs[r].first)
  {
    assert RunOk(w, r);
    assert HeaderOk(w, w.runs[r].source.value);
    hide Inv, OfRun, Links, TraceContext.FormatTraceParent;
  }

  lemma InvForest(w: World)
    requires Inv(w)
    ensures Forest(w.nodes)
  {
    var nodes := w.nodes;
    forall i | 0 <= i < |nodes| ensures RootAt(nodes, i) || exists j :: ParentOf(nodes, j, i) {
      assert NodeOk(w, i);
      var r := nodes[i].run;
      assert RunOk(w, r);
      if i != w.runs[r].first {
        assert ParentOf(nodes, w.runs[r].first, i);
      } else if w.runs[r].source.Some? {
        CallerIsParent(w, r);
      } else {
        assert RootAt(nodes, i);
      }
    }
  }

  predicate SameTrace(nodes: seq<Node>, i: nat, k: nat) {
    i < |nodes| && k < |nodes| && nodes[i].link.traceId == nodes[k].link.traceId
  }

  /** Span i is the first span of its run, or a child of that one. */
  predicate BelowFirst(w: World, i: nat)
    requires i < |w.nodes|
  {
    w.nodes[i].run < |w.runs| &&
    (i == w.runs[w.nodes[i].run].first || ParentOf(w.nodes, w.runs[w.nodes[i].run].first, i))
  }

  /** In every run of any number of processes that call one another, in whatever order and with headers that are
      delivered late, repeatedly or never, the spans with one trace id form a single tree: they share one root,
      every other span names exactly one earlier span of the same trace as its parent, and inside a run every
      later span has the first one as its parent. */
  lemma TracesAreTrees(configs: seq<Core.Config>, w: World)
    requires Reachable(configs, w)
    ensures Forest(w.nodes)
    ensures forall i, k :: SameTrace(w.nodes, i, k) ==> RootOf(w.nodes, i) == RootOf(w.nodes, k)
    ensures forall i, j, k :: ParentOf(w.nodes, j, i) && ParentOf(w.nodes, k, i) ==> j == k
    ensures forall i :: 0 <= i < |w.nodes| ==> BelowFirst(w, i)
  {
    ReachableInv(configs, w);
    InvForest(w);
    hide Reachable, RootOf;
    forall i, k | SameTrace(w.nodes, i, k) ensures RootOf(w.nodes, i) == RootOf(w.nodes, k) {
      SingleRoot(w.nodes, i, k);
    }
    forall i | 0 <= i < |w.nodes| ensures BelowFirst(w, i) {
      assert NodeOk(w, i);
    }
    forall i, j, k | ParentOf(w.nodes, j, i) && ParentOf(w.nodes, k, i) ensures j == k {
      OneParent(w.nodes, i, j, k);
    }
  }

  lemma OneParent(nodes: seq<Node>, i: nat, j: nat, k: nat)
    requires DistinctIds(nodes) && ParentOf(nodes, j, i) && ParentOf(nodes, k, i)
    ensures j == k
  {
  }

  /** Every span ends up in the batch of its own run, in the order of creation, and in no other: the batch that a
      finished run leaves has exactly the identities that the history records for the run. */
  lemma BatchesAreComplete(configs: seq<Core.Config>, w: World, r: nat)
    requires Reachable(configs, w) && r < |w.runs| && w.runs[r].finished
    ensures Links(w.runs[r].final) == OfRun(w.nodes, r)
  {
    ReachableInv(configs, w);
    assert RunOk(w, r);
  }

  // ----- sampling -----

  predicate Collects(w: World, r: nat)
    requires r < |w.runs|
  {
    w.runs[r].pid < |w.procs| && w.procs[w.runs[r].pid].config.enableCollect
  }

  /** Unless it is still going on or its process does not collect, run r has offered its batch to the queue. */
  predicate OffersAtEnd(w: World, r: nat)
    requires r < |w.runs|
  {
    w.runs[r].finished && Collects(w, r) ==> w.runs[r].offered
  }

  /** Once flag 01 has gone out, the sender exports unless its program sets the ratio to 0 later on; and so does
      every run that was started with that header, unless its program sets the ratio to 0. */
  lemma SamplingAgreement(configs: seq<Core.Config>, w: World, h: nat)
    requires Reachable(configs, w) && h < |w.headers| && w.headers[h].parent.sampled
    ensures w.headers[h].run < |w.runs|
    ensures h >= w.runs[w.headers[h].run].zeroedAt ==> OffersAtEnd(w, w.headers[h].run)
    ensures forall r :: 0 <= r < |w.runs| && w.runs[r].source == Some(h) && !w.runs[r].zeroed ==> OffersAtEnd(w, r)
  {
    ReachableInv(configs, w);
    assert HeaderOk(w, h) && RunOk(w, w.headers[h].run);
    forall r | 0 <= r < |w.runs| && w.runs[r].source == Some(h) && !w.runs[r].zeroed ensures OffersAtEnd(w, r) {
      assert RunOk(w, r);
    }
  }

  /** A failed span is never dropped: the run that it belongs to exports, unless the ratio was set to 0. */
  lemma FailuresAreExported(configs: seq<Core.Config>, w: World, r: nat)
    requires Reachable(configs, w) && r < |w.runs| && HasError(w.runs[r].final) && !w.runs[r].zeroed
    ensures OffersAtEnd(w, r)
  {
    ReachableInv(configs, w);
    assert RunOk(w, r);
  }

  /** The trace that a run belongs to. */
  function TraceOf(w: World, r: nat): seq<byte>
    requires r < |w.runs|
  {
    if w.runs[r].first < |w.nodes| then w.nodes[w.runs[r].first].link.traceId else []
  }

  lemma OneRootRun(w: World, a: nat, b: nat)
    requires Inv(w) && a < |w.runs| && b < |w.runs|
    requires w.runs[a].source.None? && w.runs[b].source.None? && TraceOf(w, a) == TraceOf(w, b)
    ensures a == b
  {
    assert RunOk(w, a) && RunOk(w, b);
    hide Inv, OfRun, Links;
  }

  lemma CallerInTrace(w: World, r: nat)
    requires Inv(w) && r < |w.runs| && w.runs[r].source.Some?
    ensures var h := w.runs[r].source.value;
      && h < |w.headers| && w.headers[h].run < r && TraceOf(w, w.headers[h].run) == TraceOf(w, r)
      && HeaderOk(w, h) && w.headers[h].parent.sampled == w.runs[r].startMarked
  {
    assert RunOk(w, r);
    var h := w.runs[r].source.value;
    assert HeaderOk(w, h) && NodeOk(w, w.headers[h].node) && RunOk(w, w.headers[h].run);
    hide Inv, OfRun, Links, TraceContext.FormatTraceParent;
  }

  /** A decision to sample, made at the root, reaches every run of the trace. */
  lemma {:induction false} RootDecides(w: World, root: nat, r: nat)
    requires Inv(w) && root < |w.runs| && r < |w.runs|
    requires w.runs[root].source.None? && w.runs[root].startMarked
    requires forall k :: 0 <= k < |w.runs| && TraceOf(w, k) == TraceOf(w, root) ==> !w.runs[k].zeroed
    requires TraceOf(w, r) == TraceOf(w, root)
    ensures w.runs[r].startMarked && OffersAtEnd(w, r)
    decreases r
  {
    assert RunOk(w, r);
    if w.runs[r].source.None? {
      OneRootRun(w, root, r);
    } else {
      CallerInTrace(w, r);
      RootDecides(w, root, w.headers[w.runs[r].source.value].run);
    }
  }

  /** A root run that is sampled at its start, in a trace where no program sets the ratio to 0. */
  predicate SampledTrace(w: World, root: nat) {
    && root < |w.runs| && w.runs[root].source.None? && w.runs[root].startMarked
    && forall k :: 0 <= k < |w.runs| && TraceOf(w, k) == TraceOf(w, root) ==> !w.runs[k].zeroed
  }

  /** In such a trace every run exports at its end. */
  lemma WholeTraceIsExported(configs: seq<Core.Config>, w: World, root: nat, r: nat)
    requires Reachable(configs, w) && SampledTrace(w, root) && r < |w.runs| && TraceOf(w, r) == TraceOf(w, root)
    ensures OffersAtEnd(w, r)
  {
    ReachableInv(configs, w);
    RootDecides(w, root, r);
  }

  lemma {:induction false} InOfRun(nodes: seq<Node>, i: nat)
    requires i < |nodes|
    ensures nodes[i].link in OfRun(nodes, nodes[i].run)
  {
    var n := |nodes| - 1;
    if i < n {
      InOfRun(nodes[..n], i);
      assert nodes[..n][i] == nodes[i];
    }
  }

  /** So no span of such a trace is left without its parent: when the run of the parent is over, and its process
      collects, the parent is in the batch that the run has offered. */
  lemma NoOrphans(configs: seq<Core.Config>, w: World, root: nat, i: nat, j: nat)
    requires Reachable(configs, w) && SampledTrace(w, root)
    requires ParentOf(w.nodes, j, i) && w.nodes[i].link.traceId == TraceOf(w, root)
    ensures w.nodes[j].run < |w.runs|
    ensures w.runs[w.nodes[j].run].finished && Collects(w, w.nodes[j].run) ==>
              w.runs[w.nodes[j].run].offered && w.nodes[j].link in Links(w.runs[w.nodes[j].run].final)
  {
    ReachableInv(configs, w);
    assert NodeOk(w, j) && RunOk(w, w.nodes[j].run);
    WholeTraceIsExported(configs, w, root, w.nodes[j].run);
    InOfRun(w.nodes, j);
  }

  /** On the command line every root run makes the same decision at its start, while the parent process stays the
      same: the request counter is 1 each time, so the ratio samples all of them or none. */
  lemma CommandLineRatio(configs: seq<Core.Config>, w: World, r: nat)
    requires Reachable(configs, w) && r < |w.runs| && w.runs[r].source.None?
    ensures w.runs[r].pid < |w.procs|
    ensures w.procs[w.runs[r].pid].config.cliSapi ==>
              (w.runs[r].startMarked <==> w.procs[w.runs[r].pid].config.sampleRatioBased in {1, -1})
  {
    ReachableInv(configs, w);
    assert RunOk(w, r);
  }
}
