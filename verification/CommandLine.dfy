/** Runs of one command-line program under changing parent processes. The provider keeps its slots by the id of the
    parent, `getppid()`, which is another one after a fork or when the parent exits. For a run that ends under
    another parent than it began under, src/core.cc finds no span to end, so it neither offers the batch nor deletes
    the provider. */
module CommandLine {
  import opened Prelude
  import opened Slots
  import opened Core
  import SampleCounter

  /** One run: the parents it begins and ends under, and what its start and its end are given. */
  datatype CliRun = CliRun(began: int, ended: int, incoming: Incoming, kind: Kind, name: string, draw: Draw,
                           endTime: nat, now: nat)

  /** The parents under which the provider holds a batch, after these runs. */
  function KeysAfter(runs: seq<CliRun>): set<int> {
    if runs == [] then {}
    else
      var last := runs[|runs| - 1];
      var keys := KeysAfter(runs[..|runs| - 1]) + {last.began};
      if last.ended in keys then {} else keys
  }

  /** The request counter after these runs; 0 is that there is no provider. */
  function CounterAfter(runs: seq<CliRun>): int {
    if runs == [] then 0
    else
      var last, before := runs[|runs| - 1], runs[..|runs| - 1];
      if last.ended in KeysAfter(before) + {last.began} then 0 else SampleCounter.Next(CounterAfter(before))
  }

  ghost predicate CanStart(run: CliRun) {
    ValidDraw(run.draw) && Readable(run.incoming)
  }

  /** The globals hold what the runs leave. */
  ghost predicate Tracks(g: Globals, runs: seq<CliRun>)
    reads g, g.provider, g.queue, g.curl
  {
    && g.Valid() && !g.isStartedCliTracer && g.Count() == CounterAfter(runs)
    && forall p :: g.SlotAt(p).first.Some? <==> p in KeysAfter(runs)
  }

  lemma AfterOneMore(before: seq<CliRun>, run: CliRun)
    ensures var keys := KeysAfter(before) + {run.began};
      && KeysAfter(before + [run]) == (if run.ended in keys then {} else keys)
      && CounterAfter(before + [run]) == if run.ended in keys then 0 else SampleCounter.Next(CounterAfter(before))
  {
    assert (before + [run])[..|before|] == before;
  }

  /** The methods do just that, from the beginning of the program. */
  method Execute(g: Globals, runs: seq<CliRun>)
    requires g.Valid() && g.config.cliSapi && g.config.cliEnabled && g.provider == null && !g.isStartedCliTracer
    requires forall run :: run in runs ==> CanStart(run)
    modifies g, g.queue, g.curl
    ensures Tracks(g, runs)
  {
    assert Tracks(g, []);
    hide Tracks, CanStart;
    var i := 0;
    assert runs[..0] == [];
    while i < |runs|
      invariant 0 <= i <= |runs| && Tracks(g, runs[..i])
      invariant g.provider == null || fresh(g.provider)
    {
      assert runs[i] in runs && runs[..i + 1] == runs[..i] + [runs[i]];
      NextRun(g, runs[..i], runs[i]);
      i := i + 1;
    }
    assert runs[..i] == runs;
  }

  method NextRun(g: Globals, ghost before: seq<CliRun>, run: CliRun)
    requires g.config.cliSapi && g.config.cliEnabled && Tracks(g, before) && CanStart(run)
    modifies g, g.provider, g.queue, g.curl
    ensures Tracks(g, before + [run])
    ensures g.provider == null || g.provider == old(g.provider) || fresh(g.provider)
  {
    hide KeysAfter, CounterAfter, CanStart, Globals.Sound;
    AfterOneMore(before, run);
    OneRun(g, run);
  }

  /** A run starts, counts on from what it finds, and removes the provider exactly if it ends under a parent with a
      batch. */
  method OneRun(g: Globals, run: CliRun)
    requires g.Valid() && g.config.cliSapi && g.config.cliEnabled && !g.isStartedCliTracer && CanStart(run)
    modifies g, g.provider, g.queue, g.curl
    ensures g.Valid() && !g.isStartedCliTracer
    ensures g.provider == null || g.provider == old(g.provider) || fresh(g.provider)
    ensures var found := old(g.SlotAt(run.ended)).first.Some? || run.ended == run.began;
      && g.Count() == (if found then 0 else SampleCounter.Next(old(g.Count())))
      && forall p :: g.SlotAt(p).first.Some? <==> !found && (old(g.SlotAt(p)).first.Some? || p == run.began)
  {
    hide Started, Readable, ValidDraw, Completed, Sampled;
    var ok := g.StartCliTracer(run.began, run.incoming, run.kind, run.name, run.draw, false);
    var _ := g.ShutdownTracer(run.ended, run.endTime, run.now, true);
  }

  predicate SameParent(runs: seq<CliRun>) {
    forall i :: 0 <= i < |runs| ==> runs[i].began == runs[i].ended
  }

  predicate FindsNone(runs: seq<CliRun>, i: nat)
    requires i <= |runs|
  {
    CounterAfter(runs[..i]) == 0
  }

  lemma {:induction false} NoKeysWithoutProvider(runs: seq<CliRun>)
    ensures CounterAfter(runs) >= 0
    ensures CounterAfter(runs) == 0 <==> KeysAfter(runs) == {}
  {
    if runs != [] {
      var last, before := runs[|runs| - 1], runs[..|runs| - 1];
      NoKeysWithoutProvider(before);
      assert last.began in KeysAfter(before) + {last.began};
    }
  }

  /** Every run finds the counter at 0, and so does whatever comes after the last one, exactly when every run ends
      under the parent that it began under. */
  lemma {:induction false} FreshCounter(runs: seq<CliRun>)
    ensures (forall i :: 0 <= i <= |runs| ==> FindsNone(runs, i)) <==> SameParent(runs)
  {
    if runs == [] {
      assert runs[..0] == [];
    } else {
      var n := |runs| - 1;
      FreshCounter(runs[..n]);
      NoKeysWithoutProvider(runs[..n]);
      forall i | 0 <= i <= n ensures FindsNone(runs, i) <==> FindsNone(runs[..n], i) {
        assert runs[..n][..i] == runs[..i];
      }
      assert runs[..|runs|] == runs;
      if FindsNone(runs, n) {
        assert KeysAfter(runs[..n]) == {};
        assert FindsNone(runs, |runs|) <==> runs[n].began == runs[n].ended;
      }
      forall i | 0 <= i < n ensures runs[..n][i] == runs[i] {
      }
    }
  }

  /** The ratio rule for a run without headers, after these runs. */
  predicate RootSampled(runs: seq<CliRun>, ratio: int)
    requires ratio != 0
  {
    ratio == 1 || SampleCounter.Next(CounterAfter(runs)) % ratio == 0
  }

  /** While no run ends under another parent, the ratio samples every root or none. */
  lemma RatioSamplesAllOrNone(runs: seq<CliRun>, ratio: int)
    requires ratio != 0 && SameParent(runs)
    ensures RootSampled(runs, ratio) <==> ratio in {1, -1}
  {
    FreshCounter(runs);
    assert runs[..|runs|] == runs;
    assert FindsNone(runs, |runs|);
  }

  /** A single run that ends under another parent makes the next one count 2, and ratio 2 samples it. */
  lemma ParentChanges(run: CliRun)
    requires run.began != run.ended
    ensures CounterAfter([run]) == 1 && RootSampled([run], 2) && !RootSampled([], 2)
  {
    assert [run][..0] == [];
    assert KeysAfter([]) == {} && CounterAfter([]) == 0;
  }
}
