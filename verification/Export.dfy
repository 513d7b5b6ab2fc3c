/** From the end of a run to a collector: the processes of the lifecycle, the queue that they share and its consumers,
    in any order, and then the wire. This joins what is said about sampling, about queueing and about UDP. */
module Export {
  import opened Prelude
  import L = Lifecycle
  import B = Ledger
  import Q = MessageQueues
  import P = Pipeline
  import T = TraceTree
  import OtelExporters
  import Hex
  import Core
  import Slots

  type Serializer = (seq<Slots.Span>, seq<Slots.Pair>) -> string

  /** A process takes a step, at a moment when the queue can be opened or not; or a consumer takes one. */
  datatype Move = Process(step: L.Step, opens: bool) | Consume(turn: Q.Step)

  /** All processes with the accounts of their runs, and the queue with its consumers. `log` lists the runs whose
      batches were offered to the queue, in order, and `missed` those that did so while it could not be opened. */
  datatype Site = Site(world: L.World, books: seq<B.Account>, queue: Q.State, log: seq<nat>, missed: seq<nat>)

  ghost predicate Sound(s: Site) {
    L.Inv(s.world) && B.Balanced(s.world, s.books)
  }

  ghost predicate Possible(s: Site, move: Move) {
    match move
    case Process(step, _) => L.Enabled(s.world, step)
    case Consume(turn) => !turn.TrySend? && Q.Enabled(s.queue, turn)
  }

  /** The step ends a run, and that run has offered its batch. */
  ghost predicate Offers(w: L.World, step: L.Step)
    requires L.Enabled(w, step)
  {
    step.Shutdown? && L.Apply(w, step).runs[w.procs[step.p].run.value].offered
  }

  /** A batch that is offered goes to the queue as text, with the resource of its process. */
  ghost function QueueAfter(config: Q.Config, serialize: Serializer, w: L.World, queue: Q.State, move: Move): Q.State
    requires move.Process? && L.Enabled(w, move.step)
  {
    if move.opens && Offers(w, move.step) then
      var proc := w.procs[move.step.p];
      var final := L.Apply(w, move.step).runs[proc.run.value].final;
      Q.Apply(config, queue, Q.TrySend(serialize(final, proc.slot.resource.value)))
    else queue
  }

  lemma OffersResource(w: L.World, books: seq<B.Account>, step: L.Step)
    requires L.Inv(w) && L.Enabled(w, step) && B.Balanced(w, books) && step.Shutdown?
    ensures var proc := w.procs[step.p];
      && proc.run.Some? && proc.run.value < |books| && books[proc.run.value].records != []
      && proc.slot.resource == Some(proc.config.attributes + books[proc.run.value].entries)
      && w.runs[proc.run.value].pid == step.p && !w.runs[proc.run.value].finished
  {
    B.InRun(w, step);
    assert B.ProcessBalanced(w, step.p, books);
    hide L.Inv, B.Batch;
  }

  ghost function Next(config: Q.Config, serialize: Serializer, s: Site, move: Move): Site
    requires Possible(s, move)
  {
    match move
    case Consume(turn) => s.(queue := Q.Apply(config, s.queue, turn))
    case Process(step, opens) =>
      var t := s.(world := L.Apply(s.world, step), books := B.Booked(s.world, s.books, step));
      if !Offers(s.world, step) then t
      else
        var r := s.world.procs[step.p].run.value;
        if !opens then t.(missed := s.missed + [r])
        else t.(queue := QueueAfter(config, serialize, s.world, s.queue, move), log := s.log + [r])
  }

  lemma NextSound(config: Q.Config, serialize: Serializer, s: Site, move: Move)
    requires Sound(s) && Possible(s, move)
    ensures Sound(Next(config, serialize, s, move))
  {
    hide L.Inv, L.Apply, L.Enabled, B.Balanced, B.Booked, QueueAfter, Offers;
    if move.Process? {
      B.StepBalanced(s.world, s.books, move.step);
    }
  }

  ghost predicate CanMove(config: Q.Config, serialize: Serializer, s: Site, moves: seq<Move>)
    decreases |moves|
  {
    moves == [] ||
    (Possible(s, moves[0]) && CanMove(config, serialize, Next(config, serialize, s, moves[0]), moves[1..]))
  }

  ghost function After(config: Q.Config, serialize: Serializer, s: Site, moves: seq<Move>): Site
    requires CanMove(config, serialize, s, moves)
    decreases |moves|
  {
    if moves == [] then s else After(config, serialize, Next(config, serialize, s, moves[0]), moves[1..])
  }

  /** Processes that have done nothing yet, an empty queue, and consumers that wait. */
  function Beginning(configs: seq<Core.Config>, consumers: nat): Site {
    Site(L.Initial(configs), [], Q.Initial(consumers), [], [])
  }

  /** What a finished run hands over. */
  function Text(serialize: Serializer, s: Site, r: nat): string
    requires r < |s.world.runs| && r < |s.books| && s.world.runs[r].pid < |s.world.procs|
  {
    serialize(s.world.runs[r].final, s.world.procs[s.world.runs[r].pid].config.attributes + s.books[r].entries)
  }

  // ----- every batch that is offered gets to the queue once -----

  predicate Handed(s: Site, r: nat) {
    && r < |s.world.runs| && r < |s.books| && s.world.runs[r].pid < |s.world.procs|
    && s.world.runs[r].finished && s.world.runs[r].offered
  }

  /** The messages that the queue was offered are the texts of the logged runs, one for each, in order. */
  ghost predicate Logged(serialize: Serializer, s: Site) {
    && |s.queue.offered| == |s.log| && Distinct(s.log)
    && (forall i :: 0 <= i < |s.log| ==> Handed(s, s.log[i]) && s.queue.offered[i] == Text(serialize, s, s.log[i]))
    && (forall r :: 0 <= r < |s.world.runs| && s.world.runs[r].finished && s.world.runs[r].offered ==>
          r in s.log || r in s.missed)
  }

  /** The account of a finished run is closed. */
  lemma BookStays(w: L.World, books: seq<B.Account>, step: L.Step, r: nat)
    requires L.Inv(w) && L.Enabled(w, step) && B.Balanced(w, books)
    requires r < |w.runs| && w.runs[r].finished
    ensures r < |B.Booked(w, books, step)| && B.Booked(w, books, step)[r] == books[r]
    ensures step.Shutdown? ==> step.p < |w.procs| && w.procs[step.p].run != Some(r)
  {
    if !step.Start? {
      B.InRun(w, step);
    }
    hide L.Inv, L.Enabled, B.Kept, B.Opened;
  }

  /** What a finished run has handed over does not change. */
  lemma TextStays(config: Q.Config, serialize: Serializer, s: Site, move: Move, r: nat)
    requires Sound(s) && Possible(s, move) && r < |s.world.runs| && s.world.runs[r].finished && r < |s.books|
    ensures var t := Next(config, serialize, s, move);
      && r < |t.world.runs| && r < |t.books| && t.world.runs[r] == s.world.runs[r]
      && (s.world.runs[r].pid < |s.world.procs| ==>
            && s.world.runs[r].pid < |t.world.procs|
            && Text(serialize, t, r) == Text(serialize, s, r))
  {
    if move.Process? {
      BookStays(s.world, s.books, move.step, r);
      hide L.Inv, L.Apply, L.Enabled, B.Balanced, B.Booked, QueueAfter, Offers;
      L.RunsGoOn(s.world, move.step, r);
    }
  }

  /** A run that has just finished was not finished before; all others that are finished were. */
  lemma NewlyFinished(s: Site, step: L.Step, r: nat)
    requires Sound(s) && L.Enabled(s.world, step)
    requires r < |L.Apply(s.world, step).runs| && L.Apply(s.world, step).runs[r].finished
    requires r < |s.world.runs| ==> !s.world.runs[r].finished
    ensures step.Shutdown? && s.world.procs[step.p].run == Some(r)
  {
    if r < |s.world.runs| {
      if !step.Shutdown? || s.world.procs[step.p].run != Some(r) {
        hide L.Inv, L.Apply, L.Enabled;
        L.RunsGoOn(s.world, step, r);
      }
    } else {
      NoMoreRuns(s, step);
    }
  }

  lemma NoMoreRuns(s: Site, step: L.Step)
    requires Sound(s) && L.Enabled(s.world, step)
    ensures !step.Start? ==> |L.Apply(s.world, step).runs| == |s.world.runs|
    ensures step.Start? ==> |L.Apply(s.world, step).runs| == |s.world.runs| + 1 &&
                            !L.Apply(s.world, step).runs[|s.world.runs|].finished
  {
    hide L.Inv, L.FreshDraw, Core.Readable, B.Balanced;
    if !step.Start? && !step.Shutdown? {
      L.StepAdvances(s.world, step);
    }
  }

  /** The text that goes to the queue is that of the run. */
  lemma TextIsOffered(config: Q.Config, serialize: Serializer, s: Site, move: Move)
    requires Sound(s) && Possible(s, move) && move.Process? && move.opens && Offers(s.world, move.step)
    ensures var t := Next(config, serialize, s, move); var r := s.world.procs[move.step.p].run.value;
      && Handed(t, r) && t.queue == Q.Apply(config, s.queue, Q.TrySend(Text(serialize, t, r)))
      && t.log == s.log + [r] && t.missed == s.missed && (r < |s.world.runs| ==> !s.world.runs[r].finished)
  {
    var step := move.step;
    OffersResource(s.world, s.books, step);
    B.InRun(s.world, step);
    hide L.Inv, L.Enabled, B.Balanced, B.Batch, Q.Apply, Core.Completed, Slots.Sampled, Slots.CleanFpm;
  }

  /** The log and the texts after a step: as before, and with the run that has handed over just now. */
  lemma LogStep(serialize: Serializer, s: Site, t: Site, r: nat)
    requires Logged(serialize, s) && Handed(t, r) && r !in s.log
    requires forall k :: k in s.log ==> Handed(t, k) && Text(serialize, t, k) == Text(serialize, s, k)
    requires t.log == s.log + [r] && t.queue.offered == s.queue.offered + [Text(serialize, t, r)]
    ensures |t.queue.offered| == |t.log| && Distinct(t.log)
    ensures forall i :: 0 <= i < |t.log| ==> Handed(t, t.log[i]) && t.queue.offered[i] == Text(serialize, t, t.log[i])
  {
    hide Text, Handed;
    assert forall i :: 0 <= i < |s.log| ==> s.log[i] in s.log;
  }

  lemma NextLogged(config: Q.Config, serialize: Serializer, s: Site, move: Move)
    requires Sound(s) && Possible(s, move) && Logged(serialize, s)
    ensures Logged(serialize, Next(config, serialize, s, move))
  {
    var t := Next(config, serialize, s, move);
    forall k | k in s.log ensures Handed(s, k) && Handed(t, k) && Text(serialize, t, k) == Text(serialize, s, k) {
      TextStays(config, serialize, s, move, k);
    }
    if move.Consume? {
      hide L.Inv, B.Balanced, Text;
    } else if move.opens && Offers(s.world, move.step) {
      TextIsOffered(config, serialize, s, move);
      var r := s.world.procs[move.step.p].run.value;
      assert r !in s.log;
      AllLogged(config, serialize, s, move);
      hide L.Inv, B.Balanced, Text, Next, Possible;
      LogStep(serialize, s, t, r);
    } else {
      AllLogged(config, serialize, s, move);
      hide L.Inv, B.Balanced, Text, L.Apply, B.Booked;
    }
  }

  lemma AllLogged(config: Q.Config, serialize: Serializer, s: Site, move: Move)
    requires Sound(s) && Possible(s, move) && Logged(serialize, s) && move.Process?
    ensures var t := Next(config, serialize, s, move);
      forall r :: 0 <= r < |t.world.runs| && t.world.runs[r].finished && t.world.runs[r].offered ==>
        r in t.log || r in t.missed
  {
    var t := Next(config, serialize, s, move);
    forall r | 0 <= r < |t.world.runs| && t.world.runs[r].finished && t.world.runs[r].offered
      ensures r in t.log || r in t.missed
    {
      if r < |s.world.runs| && s.world.runs[r].finished {
        TextStays(config, serialize, s, move, r);
      } else {
        NewlyFinished(s, move.step, r);
      }
      hide L.Inv, B.Balanced, Text, L.Apply, B.Booked;
    }
  }

  lemma {:induction false} MovesLogged(config: Q.Config, serialize: Serializer, s: Site, moves: seq<Move>)
    requires Sound(s) && CanMove(config, serialize, s, moves) && Logged(serialize, s)
    ensures Sound(After(config, serialize, s, moves)) && Logged(serialize, After(config, serialize, s, moves))
    decreases |moves|
  {
    hide Sound, Possible, Next, Logged;
    if moves != [] {
      NextSound(config, serialize, s, moves[0]);
      NextLogged(config, serialize, s, moves[0]);
      MovesLogged(config, serialize, Next(config, serialize, s, moves[0]), moves[1..]);
    }
  }

  // ----- the processes and the queue each take an ordinary run -----

  /** The steps of the processes. */
  function Steps(moves: seq<Move>): seq<L.Step> {
    if moves == [] then []
    else (if moves[0].Process? then [moves[0].step] else []) + Steps(moves[1..])
  }

  lemma {:induction false} WorldRuns(config: Q.Config, serialize: Serializer, s: Site, moves: seq<Move>)
    requires Sound(s) && CanMove(config, serialize, s, moves)
    ensures L.CanRun(s.world, Steps(moves))
    ensures L.After(s.world, Steps(moves)) == After(config, serialize, s, moves).world
    ensures B.Books(s.world, s.books, Steps(moves)) == After(config, serialize, s, moves).books
    decreases |moves|
  {
    if moves != [] {
      var t := Next(config, serialize, s, moves[0]);
      NextSound(config, serialize, s, moves[0]);
      WorldRuns(config, serialize, t, moves[1..]);
      hide L.Enabled, L.Apply, L.Inv, B.Balanced, B.Booked, Offers, QueueAfter;
      if moves[0].Process? {
        assert Steps(moves)[1..] == Steps(moves[1..]);
      } else {
        assert Steps(moves) == Steps(moves[1..]);
      }
    }
  }

  lemma {:induction false} QueueRuns(config: Q.Config, serialize: Serializer, s: Site, moves: seq<Move>)
    returns (run: seq<Q.Step>)
    requires Sound(s) && CanMove(config, serialize, s, moves)
    ensures Q.CanRun(config, s.queue, run)
    ensures Q.After(config, s.queue, run) == After(config, serialize, s, moves).queue
    decreases |moves|
  {
    if moves == [] {
      run := [];
    } else {
      var t := Next(config, serialize, s, moves[0]);
      NextSound(config, serialize, s, moves[0]);
      var rest := QueueRuns(config, serialize, t, moves[1..]);
      var first := QueueStep(config, serialize, s, moves[0]);
      hide L.Inv, B.Balanced, Next, Possible, Q.Apply, Q.Enabled;
      run := first + rest;
      if first == [] {
        assert run == rest;
      } else {
        assert run[0] == first[0] && run[1..] == rest;
      }
    }
  }

  /** What a move does to the queue is one of its steps, or nothing. */
  lemma QueueStep(config: Q.Config, serialize: Serializer, s: Site, move: Move) returns (steps: seq<Q.Step>)
    requires Sound(s) && Possible(s, move)
    ensures |steps| <= 1
    ensures steps == [] ==> Next(config, serialize, s, move).queue == s.queue
    ensures |steps| == 1 ==> Q.Enabled(s.queue, steps[0]) &&
                             Next(config, serialize, s, move).queue == Q.Apply(config, s.queue, steps[0])
  {
    steps := [];
    if move.Consume? {
      steps := [move.turn];
    } else if move.opens && Offers(s.world, move.step) {
      TextIsOffered(config, serialize, s, move);
      var t, r := Next(config, serialize, s, move), s.world.procs[move.step.p].run.value;
      steps := [Q.TrySend(Text(serialize, t, r))];
    }
    hide L.Inv, B.Balanced, L.Apply, Q.Apply;
  }

  // ----- end to end -----

  /** The site after some moves of everybody from the beginning. */
  ghost predicate Reached(config: Q.Config, serialize: Serializer, configs: seq<Core.Config>, s: Site) {
    exists consumers, moves :: Goes(config, serialize, configs, consumers, moves, s)
  }

  ghost predicate Goes(config: Q.Config, serialize: Serializer, configs: seq<Core.Config>, consumers: nat,
                       moves: seq<Move>, s: Site) {
    && CanMove(config, serialize, Beginning(configs, consumers), moves)
    && s == After(config, serialize, Beginning(configs, consumers), moves)
  }

  /** Any such site: its world is reachable, its queue has taken an ordinary run, and its texts are logged. */
  lemma ReachedHolds(config: Q.Config, serialize: Serializer, configs: seq<Core.Config>, s: Site)
    returns (consumers: nat, run: seq<Q.Step>)
    requires Reached(config, serialize, configs, s)
    ensures Sound(s) && Logged(serialize, s) && L.Reachable(configs, s.world)
    ensures Q.CanRun(config, Q.Initial(consumers), run) && s.queue == Q.After(config, Q.Initial(consumers), run)
  {
    var moves;
    consumers, moves :| Goes(config, serialize, configs, consumers, moves, s);
    var start := Beginning(configs, consumers);
    L.InitialInv(configs);
    assert Sound(start) && Logged(serialize, start);
    hide Sound, Logged;
    MovesLogged(config, serialize, start, moves);
    WorldRuns(config, serialize, start, moves);
    run := QueueRuns(config, serialize, start, moves);
  }

  /** A queue for messages below 2^24 bytes, serialised as protocol buffers are; fresh identifiers for the exports;
      and some of the datagrams that they have sent, in any order, with any losses and repetitions. */
  ghost predicate Observed(config: Q.Config, q: Q.State, uuids: seq<seq<byte>>, received: seq<string>) {
    && config.maxSize < P.EXACT_LIMIT && (forall m :: m in q.offered ==> P.Serialised(m))
    && |uuids| == |q.exported| && P.FreshIds(uuids) && forall d :: d in received ==> P.Emitted(q.exported, uuids, d)
  }

  /** All datagrams of the export at j have arrived. */
  ghost predicate Arrived(q: Q.State, uuids: seq<seq<byte>>, received: seq<string>, j: nat) {
    && |uuids| == |q.exported| && j < |uuids| && |q.exported[j].data| < P.LIMIT
    && P.AllArrived(q, uuids, received, j)
  }

  /** Nothing has been held up: the queue could always be opened, it has refused nothing, the consumers have worked it
      off, and no message has lost all copies of one of its datagrams on the wire. */
  ghost predicate Undisturbed(s: Site, uuids: seq<seq<byte>>, received: seq<string>) {
    && s.missed == [] && s.queue.rejected == [] && Q.Work(s.queue) == 0
    && forall j :: 0 <= j < |s.queue.exported| ==> Arrived(s.queue, uuids, received, j)
  }

  ghost predicate IsTextOfRun(serialize: Serializer, s: Site, payload: string) {
    exists r: nat :: Handed(s, r) && Text(serialize, s, r) == payload
  }

  lemma {:induction false} InPayloads(log: seq<Q.Delivery>, m: string) returns (j: nat)
    requires m in Q.Payloads(log)
    ensures j < |log| && log[j].data == m
  {
    var n := |log| - 1;
    if log[n].data == m {
      j := n;
    } else {
      j := InPayloads(log[..n], m);
    }
  }

  /** When nothing is rejected and the work is done, every offered message has been exported. */
  lemma OfferedIsExported(config: Q.Config, s: Q.State, m: string) returns (j: nat)
    requires Q.Inv(config, s) && s.rejected == [] && Q.Work(s) == 0 && m in s.offered
    ensures j < |s.exported| && s.exported[j].data == m
  {
    Q.AllExported(config, s);
    assert m in multiset(s.offered);
    assert m in multiset(s.accepted);
    assert m in multiset(Q.Payloads(s.exported));
    j := InPayloads(s.exported, m);
  }

  lemma AcceptedIsOffered(config: Q.Config, s: Q.State, m: string)
    requires Q.Inv(config, s) && m in s.accepted
    ensures m in s.offered
  {
    assert m in multiset(s.accepted);
    assert m in multiset(s.offered);
  }

  /** An accepted message is the text of some logged run. */
  lemma AcceptedIsText(config: Q.Config, serialize: Serializer, s: Site, m: string)
    requires Q.Inv(config, s.queue) && Logged(serialize, s) && m in s.queue.accepted
    ensures IsTextOfRun(serialize, s, m)
  {
    AcceptedIsOffered(config, s.queue, m);
    hide Q.Inv, Text, Handed;
    var i :| 0 <= i < |s.log| && s.queue.offered[i] == m;
    assert Handed(s, s.log[i]);
  }

  /** And the text of every run that has handed over is among the exports, when nothing has been held up. */
  lemma HandedIsExported(config: Q.Config, serialize: Serializer, s: Site, uuids: seq<seq<byte>>,
                         received: seq<string>, r: nat) returns (j: nat)
    requires Q.Inv(config, s.queue) && Logged(serialize, s) && Handed(s, r) && Undisturbed(s, uuids, received)
    ensures j < |s.queue.exported| && s.queue.exported[j].data == Text(serialize, s, r)
    ensures Arrived(s.queue, uuids, received, j)
  {
    hide Q.Inv, Text, Arrived, Q.Work;
    assert r in s.log;
    var i :| 0 <= i < |s.log| && s.log[i] == r;
    j := OfferedIsExported(config, s.queue, s.queue.offered[i]);
  }

  lemma QueueEndToEnd(config: Q.Config, consumers: nat, run: seq<Q.Step>, q: Q.State, uuids: seq<seq<byte>>,
                      received: seq<string>)
    requires Q.CanRun(config, Q.Initial(consumers), run) && q == Q.After(config, Q.Initial(consumers), run)
    requires Observed(config, q, uuids, received)
    ensures Q.Inv(config, q)
    ensures forall p :: P.Obtained(received, p) ==> p in q.accepted
    ensures forall j :: 0 <= j < |q.exported| && Arrived(q, uuids, received, j) ==>
              P.Obtained(received, q.exported[j].data)
  {
    hide P.Obtained, P.Emitted, Q.CanRun, Q.After, Q.Inv, P.AllArrived, P.Serialised, P.FreshIds;
    P.EndToEndExactly(config, consumers, run, uuids, received);
    QueueSound(config, consumers, run);
  }

  lemma QueueSound(config: Q.Config, consumers: nat, run: seq<Q.Step>)
    requires Q.CanRun(config, Q.Initial(consumers), run)
    ensures Q.Inv(config, Q.After(config, Q.Initial(consumers), run))
  {
    Q.NothingHeld(consumers);
    Q.RunInv(config, Q.Initial(consumers), run);
  }

  /** End to end, for every interleaving of processes and consumers, and whatever the network does: what a collector
      obtains is always the text of a finished run that was to be exported; and if nothing is held up it obtains the
      text of every such run. */
  lemma CollectorObtains(config: Q.Config, serialize: Serializer, configs: seq<Core.Config>, s: Site,
                         uuids: seq<seq<byte>>, received: seq<string>)
    requires Reached(config, serialize, configs, s) && Observed(config, s.queue, uuids, received)
    ensures forall p :: P.Obtained(received, p) ==> IsTextOfRun(serialize, s, p)
    ensures Undisturbed(s, uuids, received) ==>
              forall r :: Handed(s, r) ==> P.Obtained(received, Text(serialize, s, r))
  {
    hide Reached, Sound, P.Obtained, Observed, Q.CanRun, Q.After, L.Reachable, Q.Inv, Logged, Text;
    hide Undisturbed, IsTextOfRun, Arrived;
    var consumers, run := ReachedHolds(config, serialize, configs, s);
    QueueEndToEnd(config, consumers, run, s.queue, uuids, received);
    forall p | P.Obtained(received, p) ensures IsTextOfRun(serialize, s, p) {
      AcceptedIsText(config, serialize, s, p);
    }
    if Undisturbed(s, uuids, received) {
      forall r | Handed(s, r) ensures P.Obtained(received, Text(serialize, s, r)) {
        var j := HandedIsExported(config, serialize, s, uuids, received, r);
      }
    }
  }

  /** So a trace whose root is sampled at its start, and in which no program sets the ratio to 0, is complete at the
      collector as soon as nothing is held up: every span of it, once its run is over in a process that collects, is
      in the batch of that run, and the collector obtains the text of that batch. */
  lemma SampledTraceArrives(config: Q.Config, serialize: Serializer, configs: seq<Core.Config>, s: Site,
                            uuids: seq<seq<byte>>, received: seq<string>, root: nat, i: nat)
    requires Reached(config, serialize, configs, s) && Observed(config, s.queue, uuids, received)
    requires Undisturbed(s, uuids, received) && T.SampledTrace(s.world, root)
    requires i < |s.world.nodes| && s.world.nodes[i].link.traceId == T.TraceOf(s.world, root)
    ensures var r := s.world.nodes[i].run;
      && r < |s.world.runs|
      && (s.world.runs[r].finished && T.Collects(s.world, r) ==>
            && s.world.nodes[i].link in L.Links(s.world.runs[r].final)
            && Handed(s, r) && P.Obtained(received, Text(serialize, s, r)))
  {
    var w := s.world;
    var _, _ := ReachedHolds(config, serialize, configs, s);
    assert L.NodeOk(w, i) && L.RunOk(w, w.nodes[i].run);
    CollectorObtains(config, serialize, configs, s, uuids, received);
    hide Reached, L.Inv, L.OfRun, L.Links, P.Obtained, Observed, Undisturbed, Logged, L.Reachable;
    T.WholeTraceIsExported(configs, w, root, w.nodes[i].run);
    T.InOfRun(w.nodes, i);
  }

  /** And so is every run with a failed span, unless its program sets the ratio to 0. */
  lemma FailureArrives(config: Q.Config, serialize: Serializer, configs: seq<Core.Config>, s: Site,
                       uuids: seq<seq<byte>>, received: seq<string>, r: nat)
    requires Reached(config, serialize, configs, s) && Observed(config, s.queue, uuids, received)
    requires Undisturbed(s, uuids, received) && r < |s.world.runs| && r < |s.books|
    requires s.world.runs[r].finished && T.Collects(s.world, r) && !s.world.runs[r].zeroed
    requires B.SomeFailure(s.books[r].endings)
    ensures Handed(s, r) && P.Obtained(received, Text(serialize, s, r))
  {
    var _, _ := ReachedHolds(config, serialize, configs, s);
    assert B.Settled(s.world, r, s.books[r]);
    B.ErrorsAreFailures(s.books[r]);
    CollectorObtains(config, serialize, configs, s, uuids, received);
    hide Reached, L.Inv, P.Obtained, Observed, Undisturbed, L.HasError, B.Batch, Logged, L.Reachable;
    T.FailuresAreExported(configs, s.world, r);
  }
}
