/** The methods of src/core.cc and src/sdk.cc do the steps of the lifecycle: what the module globals of a process
    hold is what the world says about it, before and after. The parent process id is the same throughout. */
module Simulation {
  import opened Prelude
  import opened Slots
  import opened Core
  import L = Lifecycle
  import CurlHooks
  import TraceContext
  import Q = MessageQueues
  import Export

  /** The globals are in the state that the world gives the process. */
  ghost predicate Mirrors(g: Globals, ppid: int, proc: L.Process)
    reads g, g.provider, g.queue, g.curl
  {
    && g.Valid() && g.config == proc.config && g.SlotAt(ppid) == proc.slot
    && (g.config.cliSapi ==> (g.provider == null <==> proc.run.None?))
    && (!g.config.cliSapi || proc.run.Some? ==> g.Count() == proc.count)
  }

  /** `start_tracer` is a Start. */
  method Start(g: Globals, ppid: int, ghost w: L.World, ghost p: nat, ghost source: Option<nat>, incoming: Incoming,
               kind: Kind, name: string, draw: Draw)
    requires g.Switched() && p < |w.procs| && Mirrors(g, ppid, w.procs[p])
    requires var effective := if g.config.cliSapi && kind == Unspecified then Internal else kind;
      L.Enabled(w, L.Start(p, source, name, effective, draw))
    requires incoming == L.IncomingOf(w, source) && Readable(incoming)
    modifies g, g.provider, g.curl
    ensures var effective := if g.config.cliSapi && kind == Unspecified then Internal else kind;
      Mirrors(g, ppid, L.Apply(w, L.Start(p, source, name, effective, draw)).procs[p])
  {
    hide Started, Readable;
    g.StartTracer(ppid, incoming, kind, name, draw, false);
  }

  /** `shutdown_tracer` is a Shutdown, and offers exactly what the world says the run leaves: if the queue opens, it
      takes the step of a producer that offers the serialised batch. */
  method Shutdown(g: Globals, ppid: int, ghost w: L.World, ghost p: nat, endTime: nat, now: nat, opens: bool,
                  ghost s: Q.State)
    returns (offered: Option<seq<Span>>)
    requires g.Switched() && p < |w.procs| && Mirrors(g, ppid, w.procs[p])
    requires L.Enabled(w, L.Shutdown(p, endTime, now))
    requires g.queue.messages == s.queue
    modifies g, g.provider, g.queue, g.curl
    ensures var v := L.Apply(w, L.Shutdown(p, endTime, now));
      && Mirrors(g, ppid, v.procs[p])
      && var run := v.runs[w.procs[p].run.value];
         && offered == (if run.offered then Some(run.final) else None)
         && g.queue.messages ==
            if run.offered && opens
            then Q.Apply(g.queue.config, s, Q.TrySend(g.serialize(run.final, w.procs[p].slot.resource.value))).queue
            else s.queue
    ensures var move := Export.Process(L.Shutdown(p, endTime, now), opens);
      g.queue.messages == Export.QueueAfter(g.queue.config, g.serialize, w, s, move).queue
  {
    hide Sampled;
    offered := g.ShutdownTracer(ppid, endTime, now, opens);
  }

  /** `opentelemetry_add_span` is an Add. */
  method AddSpan(g: Globals, ppid: int, ghost w: L.World, ghost p: nat, name: string, kind: Kind, draw: Draw,
                 start: nat, failure: Option<string>, endTime: nat)
    requires p < |w.procs| && Mirrors(g, ppid, w.procs[p])
    requires L.Enabled(w, L.Add(p, name, kind, draw, start, failure, endTime))
    modifies g.provider
    ensures Mirrors(g, ppid, L.Apply(w, L.Add(p, name, kind, draw, start, failure, endTime)).procs[p])
  {
    hide SpanAdded;
    var ok := g.AddSpan(ppid, name, kind, draw, start, failure, endTime);
    assert ok;
  }

  /** `opentelemetry_set_sample_ratio_based` is a SetRatio. */
  method SetSampleRatioBased(g: Globals, ppid: int, ghost w: L.World, ghost p: nat, ratioBased: int,
                             httpTraceparent: string)
    requires p < |w.procs| && Mirrors(g, ppid, w.procs[p])
    requires L.Enabled(w, L.SetRatio(p, ratioBased, httpTraceparent != ""))
    modifies g.provider
    ensures Mirrors(g, ppid, L.Apply(w, L.SetRatio(p, ratioBased, httpTraceparent != "")).procs[p])
  {
    hide RatioSet;
    g.SetSampleRatioBased(ppid, ratioBased, httpTraceparent);
  }

  /** A recorded `curl_exec` is a Send, an End with the error if the transfer failed, and an End, and the two lines
      it adds are the header texts of the Send. */
  method Exec(g: Globals, ppid: int, ghost w: L.World, ghost p: nat, h: int, name: string, draw: Draw, now: nat,
              order: seq<string>, response: CurlHooks.Response, errorTime: nat, endTime: nat)
    returns (passed: seq<string>)
    requires L.Running(w, p) && ValidDraw(draw) && Mirrors(g, ppid, w.procs[p])
    requires TraceContext.IterationOrder(w.procs[p].slot.baggage, order)
    requires h in g.curl.curlHeader ==> g.curl.curlHeader[h].Array?
    modifies g.provider, g.curl
    ensures var v := L.ApplyExec(w, p, name, draw, now, order, response, errorTime, endTime);
      && Mirrors(g, ppid, v.procs[p])
      && var header := v.headers[|w.headers|];
         passed == CurlHooks.Base(old(g.curl.history), h) +
                   [CurlHooks.TRACEPARENT + header.text, CurlHooks.BAGGAGE + header.baggageText]
  {
    ghost var proc := w.procs[p];
    L.ExecIsSteps(w, p, name, draw, now, order, response, errorTime, endTime);
    hide CurlHooks.AfterRequest, CurlHooks.TraceParentLine, L.FreshDraw, L.ApplyExec, L.HeaderFor, AddChild;
    hide TraceContext.FormatTraceParent, TraceContext.FormatBaggage, TraceContext.IterationOrder, Globals.Sound;
    passed := g.CurlExec(ppid, h, name, draw, now, order, response, errorTime, endTime);
  }
}
