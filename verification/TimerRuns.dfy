/** What the calls of the timer of src/Timer.cc are for: a loop runs its task again and again until it is cancelled,
    a one-shot runs it once, and each call of the controller, left alone, does what its name says. */
module TimerRuns {
  import opened Prelude
  import opened Timer

  // ----- when a worker leaves its loop -----

  /** A worker on its way out was told to go, or was a one-shot and has done its run. */
  predicate LeavesForCause(s: State) {
    forall i :: 0 <= i < |s.workers| && (s.workers[i].pc == StoreExpired || s.workers[i].pc == StoreTry) ==>
      s.tryExpired || (!s.workers[i].loop && s.workers[i].runs == 1)
  }

  /** The places that come after the task. */
  predicate PastTask(pc: WorkerPc) {
    pc.Counting? || pc.ReadLoop?
  }

  predicate RunCounted(s: State) {
    forall i :: 0 <= i < |s.workers| && PastTask(s.workers[i].pc) ==> s.workers[i].runs >= 1
  }

  lemma CauseStep(atomicCancel: bool, s: State, a: Action)
    requires Inv(s) && LeavesForCause(s) && RunCounted(s) && Enabled(s, a)
    ensures LeavesForCause(Apply(atomicCancel, s, a)) && RunCounted(Apply(atomicCancel, s, a))
  {
    JoinsNewest(s);
    var t := Apply(atomicCancel, s, a);
    forall i | 0 <= i < |t.workers|
      ensures t.workers[i].pc == StoreExpired || t.workers[i].pc == StoreTry ==>
                t.tryExpired || (!t.workers[i].loop && t.workers[i].runs == 1)
      ensures PastTask(t.workers[i].pc) ==> t.workers[i].runs >= 1
    {
      if i < |s.workers| {
        assert !s.workers[i].loop ==> OneShot(s.workers[i]);
        assert s.workers[i].pc == Exited || i + 1 == |s.workers|;
      }
    }
  }

  lemma {:induction false} CauseRun(atomicCancel: bool, s: State, acts: seq<Action>)
    requires Inv(s) && LeavesForCause(s) && RunCounted(s) && CanRun(atomicCancel, s, acts)
    ensures LeavesForCause(Run(atomicCancel, s, acts))
    decreases |acts|
  {
    hide Inv, LeavesForCause, RunCounted, Enabled, Apply;
    if acts != [] {
      StepInv(atomicCancel, s, acts[0]);
      CauseStep(atomicCancel, s, acts[0]);
      CauseRun(atomicCancel, Apply(atomicCancel, s, acts[0]), acts[1..]);
    }
  }

  /** In every interleaving, with either form of Cancel: a worker that has left its loop and not yet finished was
      told to, or it is a one-shot that has run its task exactly once. A loop never ends by itself. */
  lemma LeavingHasACause(atomicCancel: bool, acts: seq<Action>, i: nat)
    requires CanRun(atomicCancel, INITIAL, acts) && i < |Run(atomicCancel, INITIAL, acts).workers|
    ensures var s := Run(atomicCancel, INITIAL, acts); var w := s.workers[i];
      w.pc == StoreExpired || w.pc == StoreTry ==> s.tryExpired || (!w.loop && w.runs == 1)
  {
    CauseRun(atomicCancel, INITIAL, acts);
  }

  // ----- without a cancel -----

  predicate CancelFree(acts: seq<Action>) {
    forall k :: 0 <= k < |acts| ==> acts[k] != CallCancel && acts[k] != CallDestroy
  }

  /** No cancel has been called, and no destructor. */
  predicate Undisturbed(s: State) {
    !s.tryExpired && !InCancel(s.pc) && !Ended(s.pc)
  }

  const ROUND: seq<WorkerPc> := [ReadGuard, Waiting, ReadAgain, InTask, Counting, ReadLoop]
  const ONCE: seq<WorkerPc> := ROUND + [StoreExpired, StoreTry, Exited]

  /** Where a worker is after n steps of its own: a loop goes round in six steps, the fourth of which completes a
      run, and never stops; a one-shot goes round once and then stops. */
  predicate OnCourse(w: Worker, n: nat) {
    if w.loop then w.pc == ROUND[n % 6] && w.runs == (n + 2) / 6
    else n <= 8 && w.pc == ONCE[n] && w.runs == if n >= 4 then 1 else 0
  }

  /** A worker that does not exist yet has taken no step. */
  predicate CourseAt(s: State, i: nat, n: nat) {
    if i < |s.workers| then OnCourse(s.workers[i], n) else n == 0
  }

  /** The flag that the worker reads is still that of the Start it was created for. */
  lemma OwnFlag(s: State, i: nat)
    requires Inv(s) && Live(s, i)
    ensures Active(s.workers[i]) ==> s.loop == s.workers[i].loop
  {
    JoinsNewest(s);
  }

  lemma WorkCourse(w: Worker, n: nat, loop: bool)
    requires OnCourse(w, n) && w.pc != Exited && (Active(w) ==> loop == w.loop)
    ensures OnCourse(NextWorker(w, false, loop), n + 1)
  {
    if !w.loop {
      assert n < 8;
    }
  }

  lemma CourseStep(atomicCancel: bool, s: State, a: Action, i: nat, n: nat)
    requires Inv(s) && Undisturbed(s) && CourseAt(s, i, n) && Enabled(s, a) && a != CallCancel && a != CallDestroy
    ensures Undisturbed(Apply(atomicCancel, s, a))
    ensures CourseAt(Apply(atomicCancel, s, a), i, n + if a == Work(i) then 1 else 0)
  {
    if a == Work(i) {
      OwnFlag(s, i);
      WorkCourse(s.workers[i], n, s.loop);
    }
    assert OnCourse(Worker(ReadGuard, s.argLoop, 0), 0);
    hide Inv, JoinReturns, NextWorker, OnCourse, NextPc, InCancel, Ended;
    StaysUndisturbed(atomicCancel, s, a);
  }

  lemma StaysUndisturbed(atomicCancel: bool, s: State, a: Action)
    requires Undisturbed(s) && Enabled(s, a) && a != CallCancel && a != CallDestroy
    ensures Undisturbed(Apply(atomicCancel, s, a))
  {
    hide NextWorker, JoinReturns;
  }

  lemma {:induction false} CourseRun(atomicCancel: bool, s: State, acts: seq<Action>, i: nat, n: nat)
    requires Inv(s) && Undisturbed(s) && CourseAt(s, i, n) && CanRun(atomicCancel, s, acts) && CancelFree(acts)
    ensures Undisturbed(Run(atomicCancel, s, acts))
    ensures CourseAt(Run(atomicCancel, s, acts), i, n + WorkCount(acts, i))
    decreases |acts|
  {
    hide Inv, Undisturbed, CourseAt, Enabled, Apply;
    if acts != [] {
      StepInv(atomicCancel, s, acts[0]);
      CourseStep(atomicCancel, s, acts[0], i, n);
      assert CancelFree(acts[1..]);
      CourseRun(atomicCancel, Apply(atomicCancel, s, acts[0]), acts[1..], i,
                n + if acts[0] == Work(i) then 1 else 0);
    }
  }

  /** As long as nobody cancels, in every interleaving: after n steps of its own a loop has run its task (n + 2) / 6
      times and is not on its way out; a one-shot runs its task at its fourth step, only then, and has finished
      after its eighth. */
  lemma RunsOfWorkers(atomicCancel: bool, acts: seq<Action>, i: nat)
    requires CanRun(atomicCancel, INITIAL, acts) && CancelFree(acts)
    requires i < |Run(atomicCancel, INITIAL, acts).workers|
    ensures var w := Run(atomicCancel, INITIAL, acts).workers[i]; var n := WorkCount(acts, i);
      && (w.loop ==> w.runs == (n + 2) / 6 && w.pc != StoreExpired && w.pc != StoreTry && w.pc != Exited)
      && (!w.loop ==> w.runs == (if n >= 4 then 1 else 0) && (w.pc == Exited <==> n == 8) && n <= 8)
  {
    CourseRun(atomicCancel, INITIAL, acts, i, 0);
  }

  // ----- the calls, left alone -----

  lemma Prepend(s: State, a: Action, rest: seq<Action>)
    requires Enabled(s, a) && CanRun(false, Apply(false, s, a), rest)
    ensures CanRun(false, s, [a] + rest) && Run(false, s, [a] + rest) == Run(false, Apply(false, s, a), rest)
  {
    assert ([a] + rest)[1..] == rest;
  }

  /** The controller goes on for n steps. */
  function Onward(n: nat): (acts: seq<Action>)
    ensures |acts| == n && forall k :: 0 <= k < n ==> acts[k] == Continue
  {
    seq(n, _ => Continue)
  }

  /** None of the controller's next n steps has to wait for a join. */
  predicate MovesOn(s: State, n: nat)
    decreases n
  {
    n > 0 ==> Enabled(s, Continue) && MovesOn(ContinueStep(s), n - 1)
  }

  function Moved(s: State, n: nat): State
    decreases n
  {
    if n == 0 then s else Moved(ContinueStep(s), n - 1)
  }

  lemma {:induction false} OnwardMoves(s: State, n: nat)
    requires MovesOn(s, n)
    ensures CanRun(false, s, Onward(n)) && Run(false, s, Onward(n)) == Moved(s, n)
    decreases n
  {
    if n > 0 {
      OnwardMoves(ContinueStep(s), n - 1);
      assert Onward(n) == [Continue] + Onward(n - 1);
      Prepend(s, Continue, Onward(n - 1));
    }
  }

  lemma {:induction false} MovedOn(s: State, m: nat, n: nat)
    requires MovesOn(s, m) && MovesOn(Moved(s, m), n)
    ensures MovesOn(s, m + n) && Moved(s, m + n) == Moved(Moved(s, m), n)
    decreases m
  {
    if m > 0 {
      MovedOn(ContinueStep(s), m - 1, n);
    }
  }

  /** What a Start stores before it looks at the thread or waits. */
  function Prepared(s: State, loop: bool, async: bool): State {
    s.(expired := false, loop := loop, count := 0, pc := if async then StartDelete else SyncReadTry,
       argLoop := loop, argAsync := async, asyncStart := async)
  }

  lemma StartStores(s: State, loop: bool, async: bool)
    requires s.pc == Idle && s.expired && !s.tryExpired
    ensures var c := Apply(false, s, CallStart(loop, async));
      MovesOn(c, 4) && Moved(c, 4) == Prepared(s, loop, async)
  {
    var c := Apply(false, s, CallStart(loop, async));
    var d := c.(expired := false, pc := StartStoreLoop);
    FirstStores(c);
    LastStores(d);
    assert d.(loop := loop, count := 0, asyncStart := async, pc := if async then StartDelete else SyncReadTry) ==
           Prepared(s, loop, async);
    hide Enabled, Apply, NextPc, JoinReturns, MovesOn, Moved;
    MovedOn(c, 2, 2);
  }

  lemma FirstStores(c: State)
    requires c.pc == StartReadTry && !c.tryExpired
    ensures MovesOn(c, 2) && Moved(c, 2) == c.(expired := false, pc := StartStoreLoop)
  {
  }

  lemma LastStores(d: State)
    requires d.pc == StartStoreLoop
    ensures MovesOn(d, 2)
    ensures Moved(d, 2) == d.(loop := d.argLoop, count := 0, asyncStart := d.argAsync,
                              pc := if d.argAsync then StartDelete else SyncReadTry)
  {
    var e := d.(loop := d.argLoop, pc := StartStoreCount);
    assert ContinueStep(d) == e && MovesOn(e, 1) && Moved(e, 1) == ContinueStep(e);
    hide Enabled, Apply, JoinReturns;
  }

  lemma StartPrepares(s: State, loop: bool, async: bool, n: nat)
    requires s.pc == Idle && s.expired && !s.tryExpired && MovesOn(Prepared(s, loop, async), n)
    ensures CanRun(false, s, [CallStart(loop, async)] + Onward(4 + n))
    ensures Run(false, s, [CallStart(loop, async)] + Onward(4 + n)) == Moved(Prepared(s, loop, async), n)
  {
    var c := Apply(false, s, CallStart(loop, async));
    StartStores(s, loop, async);
    hide MovesOn, Moved, Run, CanRun;
    MovedOn(c, 4, n);
    OnwardMoves(c, 4 + n);
    Prepend(s, CallStart(loop, async), Onward(4 + n));
  }

  /** An asynchronous Start of an idle timer creates one thread with the loop flag that it was given. */
  lemma AsyncStart(s: State, loop: bool)
    requires s.pc == Idle && s.expired && !s.tryExpired && JoinReturns(s)
    ensures CanRun(false, s, [CallStart(loop, true)] + Onward(6))
    ensures Run(false, s, [CallStart(loop, true)] + Onward(6)) ==
            s.(expired := false, loop := loop, count := 0, thread := Some(|s.workers|), argLoop := loop,
               argAsync := true, workers := s.workers + [Worker(ReadGuard, loop, 0)], asyncStart := true)
  {
    StartPrepares(s, loop, true, 2);
  }

  /** A synchronous one runs the task once, creates no thread, and leaves the timer ready for the next. */
  lemma SyncStart(s: State, loop: bool)
    requires s.pc == Idle && s.expired && !s.tryExpired
    ensures CanRun(false, s, [CallStart(loop, false)] + Onward(8))
    ensures Run(false, s, [CallStart(loop, false)] + Onward(8)) ==
            s.(loop := loop, count := 0, argLoop := loop, argAsync := false, asyncStart := false,
               syncRuns := s.syncRuns + 1)
  {
    hide Run, CanRun;
    var p := Prepared(s, loop, false);
    var q := p.(pc := SyncStoreExpired, syncRuns := s.syncRuns + 1);
    assert MovesOn(p, 2) && Moved(p, 2) == q;
    assert MovesOn(q, 2) && Moved(q, 2) == q.(pc := Idle, expired := true);
    MovedOn(p, 2, 2);
    StartPrepares(s, loop, false, 4);
  }

  /** A Cancel of a task that is there and not cancelled yet stores the try flag, and so does the one-step form; any
      other Cancel changes nothing. */
  lemma CancelStores(s: State)
    requires s.pc == Idle && !s.expired
    ensures var t := s.(tryExpired := true, lateCancel := s.lateCancel || JoinReturns(s));
      var stores := !s.tryExpired && s.thread.Some?;
      && (stores ==> CanRun(false, s, [CallCancel] + Onward(3)) && Run(false, s, [CallCancel] + Onward(3)) == t)
      && (s.tryExpired ==> CanRun(false, s, [CallCancel] + Onward(1)) && Run(false, s, [CallCancel] + Onward(1)) == s)
      && (!s.tryExpired && !stores ==>
            CanRun(false, s, [CallCancel] + Onward(2)) && Run(false, s, [CallCancel] + Onward(2)) == s)
      && Apply(true, s, CallCancel) == if stores then t else s
  {
    var c := Apply(false, s, CallCancel);
    var n := if s.tryExpired then 1 else if s.thread.None? then 2 else 3;
    CancelMoves(s);
    OnwardMoves(c, n);
    hide MovesOn, Moved, Run, CanRun;
    Prepend(s, CallCancel, Onward(n));
  }

  lemma CancelMoves(s: State)
    requires s.pc == Idle && !s.expired
    ensures var c := Apply(false, s, CallCancel);
      && (s.tryExpired ==> MovesOn(c, 1) && Moved(c, 1) == s)
      && (!s.tryExpired && s.thread.None? ==> MovesOn(c, 2) && Moved(c, 2) == s)
      && (!s.tryExpired && s.thread.Some? ==>
            MovesOn(c, 3) && Moved(c, 3) == s.(tryExpired := true, lateCancel := s.lateCancel || JoinReturns(s)))
  {
    if !s.tryExpired && s.thread.Some? {
      var d := Apply(false, s, CallCancel).(pc := CancelStore);
      assert MovesOn(d, 1) && Moved(d, 1) == s.(tryExpired := true, lateCancel := s.lateCancel || JoinReturns(s));
    }
  }

  /** The destructor stores the try flag first; once the worker has exited it takes the thread away. */
  lemma DestroyStores(s: State)
    requires s.pc == Idle
    ensures Apply(false, s, CallDestroy).tryExpired
    ensures JoinReturns(s) ==>
              CanRun(false, s, [CallDestroy] + Onward(1)) &&
              Run(false, s, [CallDestroy] + Onward(1)) == s.(tryExpired := true, thread := None, pc := Destroyed)
  {
    if JoinReturns(s) {
      var c := Apply(false, s, CallDestroy);
      assert MovesOn(c, 1);
      OnwardMoves(c, 1);
      Prepend(s, CallDestroy, Onward(1));
    }
  }

  /** A Start that comes while a task is there, or before an earlier cancel has taken effect, is refused. */
  lemma StartRefused(s: State, loop: bool, async: bool)
    requires s.pc == Idle && (!s.expired || s.tryExpired)
    ensures !s.expired ==> Apply(false, s, CallStart(loop, async)) == s
    ensures s.expired ==>
              CanRun(false, s, [CallStart(loop, async)] + Onward(1)) &&
              Run(false, s, [CallStart(loop, async)] + Onward(1)) == s.(argLoop := loop, argAsync := async)
  {
    if s.expired {
      var c := Apply(false, s, CallStart(loop, async));
      assert MovesOn(c, 1);
      OnwardMoves(c, 1);
      Prepend(s, CallStart(loop, async), Onward(1));
    }
  }
}
