/** The protocol between the controller and the worker thread of src/Timer.cc. Each read or write of an atomic is
    one step, and a run is any sequence of steps of the two sides. `wait_for` is a step that may always return,
    by timeout or by notification. */
module Timer {
  import opened Prelude

  datatype WorkerPc =
    | ReadGuard     // the while condition
    | Waiting       // wait_for
    | ReadAgain     // the test after the wait
    | InTask        // task() has begun
    | Counting      // m_nCount++
    | ReadLoop      // the test of m_bLoop
    | StoreExpired  // m_bExpired = true
    | StoreTry      // m_bTryExpired = false
    | Exited

  /** A worker with the loop flag it was started for and the number of task runs it has completed. */
  datatype Worker = Worker(pc: WorkerPc, loop: bool, runs: nat)

  datatype ControllerPc =
    | Idle
    | StartReadTry | StartStoreExpired | StartStoreLoop | StartStoreCount | StartDelete | StartSpawn
    | SyncReadTry | SyncTask | SyncStoreExpired | SyncStoreTry
    | CancelReadTry | CancelReadThread | CancelStore
    | DestroyDelete | Destroyed

  /** `workers` lists every thread ever created and `thread` is `m_Thread`; the arguments of the current Start
      are kept with the controller's position. The last three fields are history:
      whether the latest accepted Start was asynchronous, whether a Cancel has stored its flag when no
      worker was left to take it back, and how often a synchronous Start has run its task. */
  datatype State = State(
    expired: bool, tryExpired: bool, loop: bool, count: int, thread: Option<nat>,
    workers: seq<Worker>, pc: ControllerPc, argLoop: bool, argAsync: bool, asyncStart: bool, lateCancel: bool,
    syncRuns: nat)

  datatype Action =
    | CallStart(loop: bool, async: bool)
    | CallCancel
    | CallDestroy
    | Continue       // the next step of the controller's current call
    | Work(i: nat)   // the next step of a worker

  const INITIAL := State(true, false, false, 0, None, [], Idle, false, true, false, false, 0)

  predicate Live(s: State, i: nat) {
    i < |s.workers| && s.workers[i].pc != Exited
  }

  /** DeleteThread joins: it waits until the worker has exited. */
  predicate JoinReturns(s: State) {
    s.thread.Some? ==> !Live(s, s.thread.value)
  }

  predicate Enabled(s: State, a: Action) {
    match a
    case CallStart(_, _) => s.pc == Idle
    case CallCancel => s.pc == Idle
    case CallDestroy => s.pc == Idle
    case Continue =>
      s.pc != Idle && s.pc != Destroyed && (s.pc.StartDelete? || s.pc.DestroyDelete? ==> JoinReturns(s))
    case Work(i) => Live(s, i)
  }

  /** What a worker's step does to itself, given the two flags it may read. */
  function NextWorker(w: Worker, tryExpired: bool, loop: bool): Worker {
    match w.pc
    case ReadGuard => w.(pc := if tryExpired then StoreExpired else Waiting)
    case Waiting => w.(pc := ReadAgain)
    case ReadAgain => w.(pc := if tryExpired then ReadGuard else InTask)
    case InTask => w.(pc := Counting, runs := w.runs + 1)
    case Counting => w.(pc := ReadLoop)
    case ReadLoop => w.(pc := if loop then ReadGuard else StoreExpired)
    case StoreExpired => w.(pc := StoreTry)
    case StoreTry => w.(pc := Exited)
    case Exited => w
  }

  function WorkStep(s: State, i: nat): State
    requires Live(s, i)
  {
    var w := s.workers[i];
    s.(workers := s.workers[i := NextWorker(w, s.tryExpired, s.loop)],
       count := if w.pc == Counting then s.count + 1 else s.count,
       expired := if w.pc == StoreExpired then true else s.expired,
       tryExpired := if w.pc == StoreTry then false else s.tryExpired)
  }

  /** Where the controller's call goes next. */
  function NextPc(s: State): ControllerPc {
    match s.pc
    case Idle => Idle
    case StartReadTry => if s.tryExpired then Idle else StartStoreExpired
    case StartStoreExpired => StartStoreLoop
    case StartStoreLoop => StartStoreCount
    case StartStoreCount => if s.argAsync then StartDelete else SyncReadTry
    case StartDelete => StartSpawn
    case StartSpawn => Idle
    case SyncReadTry => if s.tryExpired then SyncStoreExpired else SyncTask
    case SyncTask => SyncStoreExpired
    case SyncStoreExpired => SyncStoreTry
    case SyncStoreTry => Idle
    case CancelReadTry => if s.tryExpired then Idle else CancelReadThread
    case CancelReadThread => if s.thread.None? then Idle else CancelStore
    case CancelStore => Idle
    case DestroyDelete => Destroyed
    case Destroyed => Destroyed
  }

  /** What the step at the controller's position stores. */
  function ContinueStep(s: State): State {
    s.(pc := NextPc(s),
       expired := if s.pc.StartStoreExpired? then false else if s.pc.SyncStoreExpired? then true else s.expired,
       tryExpired := if s.pc.SyncStoreTry? then false else if s.pc.CancelStore? then true else s.tryExpired,
       loop := if s.pc.StartStoreLoop? then s.argLoop else s.loop,
       count := if s.pc.StartStoreCount? then 0 else s.count,
       asyncStart := if s.pc.StartStoreCount? then s.argAsync else s.asyncStart,
       thread := if s.pc.StartDelete? || s.pc.DestroyDelete? then None
                 else if s.pc.StartSpawn? then Some(|s.workers|) else s.thread,
       workers := if s.pc.StartSpawn? then s.workers + [Worker(ReadGuard, s.argLoop, 0)] else s.workers,
       lateCancel := s.lateCancel || (s.pc.CancelStore? && JoinReturns(s)),
       syncRuns := if s.pc.SyncTask? then s.syncRuns + 1 else s.syncRuns)
  }

  predicate Starting(pc: ControllerPc) {
    || pc.StartReadTry? || pc.StartStoreExpired? || pc.StartStoreLoop?
    || pc.StartStoreCount? || pc.StartDelete? || pc.StartSpawn?
  }

  predicate Synchronous(pc: ControllerPc) {
    pc.SyncReadTry? || pc.SyncTask? || pc.SyncStoreExpired? || pc.SyncStoreTry?
  }

  /** One step. With `atomicCancel`, Cancel's three reads and its store are taken as a single step. */
  function Apply(atomicCancel: bool, s: State, a: Action): State
    requires Enabled(s, a)
  {
    match a
    case CallStart(l, b) => if s.expired then s.(pc := StartReadTry, argLoop := l, argAsync := b) else s
    case CallCancel =>
      if !atomicCancel then if s.expired then s else s.(pc := CancelReadTry)
      else if s.expired || s.tryExpired || s.thread.None? then s
      else s.(tryExpired := true, lateCancel := s.lateCancel || JoinReturns(s))
    case CallDestroy => s.(tryExpired := true, pc := DestroyDelete)
    case Continue => ContinueStep(s)
    case Work(i) => WorkStep(s, i)
  }

  /** An interleaving that can happen from s. */
  predicate CanRun(atomicCancel: bool, s: State, acts: seq<Action>)
    decreases |acts|
  {
    acts != [] ==> Enabled(s, acts[0]) && CanRun(atomicCancel, Apply(atomicCancel, s, acts[0]), acts[1..])
  }

  function Run(atomicCancel: bool, s: State, acts: seq<Action>): State
    requires CanRun(atomicCancel, s, acts)
    decreases |acts|
  {
    if acts == [] then s else Run(atomicCancel, Apply(atomicCancel, s, acts[0]), acts[1..])
  }

  // ----- the invariant -----

  /** The worker has not yet announced that it is done. */
  predicate Active(w: Worker) {
    w.pc != StoreTry && w.pc != Exited
  }

  /** Start has read that the old task is expired. */
  predicate InStart(pc: ControllerPc) {
    Starting(pc) || Synchronous(pc)
  }

  /** Start has cleared the expired flag and has neither created the worker nor set the flag again. */
  predicate Occupied(pc: ControllerPc) {
    InStart(pc) && !pc.StartReadTry? && !pc.StartStoreExpired? && !pc.SyncStoreTry?
  }

  /** How many runs a worker of a non-loop Start has completed at each place. */
  predicate OneShot(w: Worker) {
    && w.runs <= 1
    && (w.pc.ReadGuard? || w.pc.Waiting? || w.pc.ReadAgain? || w.pc.InTask? ==> w.runs == 0)
  }

  predicate OneShots(workers: seq<Worker>) {
    forall i :: 0 <= i < |workers| && !workers[i].loop ==> OneShot(workers[i])
  }

  predicate EarlierExited(workers: seq<Worker>) {
    forall i :: 0 <= i < |workers| - 1 ==> workers[i].pc == Exited
  }

  predicate NewestActive(s: State) {
    s.workers != [] && Active(s.workers[|s.workers| - 1])
  }

  predicate NoneLive(s: State) {
    s.workers != [] ==> s.workers[|s.workers| - 1].pc == Exited
  }

  /** All threads but the newest have exited, and `m_Thread` is the newest, or null when that has exited too. */
  predicate Threads(s: State) {
    && EarlierExited(s.workers)
    && OneShots(s.workers)
    && (s.thread.Some? ==> s.thread.value + 1 == |s.workers|)
    && (s.thread.None? ==> NoneLive(s))
  }

  predicate Flags(s: State) {
    && (NewestActive(s) ==> !s.expired && !InStart(s.pc) && s.loop == s.workers[|s.workers| - 1].loop && s.asyncStart)
    && (!s.expired <==> NewestActive(s) || Occupied(s.pc))
    && (s.pc.StartStoreCount? || s.pc.StartDelete? || s.pc.StartSpawn? ==> s.loop == s.argLoop)
    && (s.pc.StartDelete? || s.pc.StartSpawn? ==> s.asyncStart)
    && (s.pc.StartSpawn? ==> NoneLive(s) && s.thread.None?)
    && (Synchronous(s.pc) ==> !s.asyncStart)
    && (s.pc.CancelStore? ==> s.thread.Some?)
  }

  predicate Counted(s: State) {
    if s.asyncStart && !s.pc.StartDelete? && !s.pc.StartSpawn? then
      s.workers != [] &&
      var w := s.workers[|s.workers| - 1];
      s.count + (if w.pc == Counting then 1 else 0) == w.runs
    else s.count == 0
  }

  predicate Ended(pc: ControllerPc) {
    pc.DestroyDelete? || pc.Destroyed?
  }

  /** Who is responsible for the try flag. */
  predicate Pending(s: State) {
    && (s.tryExpired ==> !NoneLive(s) || Ended(s.pc) || s.lateCancel)
    && (InStart(s.pc) && !s.pc.StartReadTry? ==> !s.tryExpired)
    && (s.lateCancel ==> Stuck(s))
    && (s.pc.DestroyDelete? ==> s.tryExpired || NoneLive(s))
  }

  /** Both flags are set, no worker is left to clear the second one, and the controller is not past a test. */
  predicate Stuck(s: State) {
    s.tryExpired && s.expired && NoneLive(s) && (s.pc.Idle? || s.pc.StartReadTry? || Ended(s.pc))
  }

  predicate Inv(s: State) {
    Threads(s) && Flags(s) && Counted(s) && Pending(s)
  }

  lemma JoinsNewest(s: State)
    requires Threads(s)
    ensures JoinReturns(s) <==> NoneLive(s)
    ensures forall i: nat :: Live(s, i) ==> i + 1 == |s.workers| && s.thread == Some(i)
  {
  }

  lemma WorkThreads(s: State, i: nat)
    requires Threads(s) && Flags(s) && Live(s, i)
    ensures Threads(WorkStep(s, i)) && i + 1 == |s.workers|
  {
    JoinsNewest(s);
    var w := s.workers[i];
    var v := NextWorker(w, s.tryExpired, s.loop);
    assert v.loop == w.loop && (!w.loop && OneShot(w) ==> OneShot(v));
    hide NextWorker, OneShot, Flags;
  }

  lemma WorkFlags(s: State, i: nat)
    requires Inv(s) && Live(s, i) && i + 1 == |s.workers|
    ensures Flags(WorkStep(s, i)) && Counted(WorkStep(s, i)) && Pending(WorkStep(s, i))
  {
    hide Threads;
    assert NextWorker(s.workers[i], s.tryExpired, s.loop).loop == s.workers[i].loop;
  }

  lemma WorkInv(s: State, i: nat)
    requires Inv(s) && Live(s, i)
    ensures Inv(WorkStep(s, i))
  {
    WorkThreads(s, i);
    WorkFlags(s, i);
  }

  lemma ContinueThreads(s: State)
    requires Threads(s) && Flags(s) && Enabled(s, Continue)
    ensures Threads(ContinueStep(s))
  {
    JoinsNewest(s);
    hide NextPc;
    if s.pc.StartSpawn? {
      assert OneShot(Worker(ReadGuard, s.argLoop, 0));
    }
    hide OneShot;
  }

  lemma ContinueFlags(s: State)
    requires Inv(s) && Enabled(s, Continue)
    ensures Flags(ContinueStep(s))
  {
    JoinsNewest(s);
    hide Threads, Counted, JoinReturns;
  }

  lemma ContinueCounted(s: State)
    requires Inv(s) && Enabled(s, Continue)
    ensures Counted(ContinueStep(s))
  {
    hide Threads, Pending, JoinReturns;
  }

  lemma ContinuePending(s: State)
    requires Inv(s) && Enabled(s, Continue)
    ensures Pending(ContinueStep(s))
  {
    JoinsNewest(s);
    hide Threads, Counted, JoinReturns;
  }

  lemma CallInv(atomicCancel: bool, s: State, a: Action)
    requires Inv(s) && Enabled(s, a) && !a.Continue? && !a.Work?
    ensures Inv(Apply(atomicCancel, s, a))
  {
    JoinsNewest(s);
    var t := Apply(atomicCancel, s, a);
    assert t.workers == s.workers && t.thread == s.thread;
    assert Threads(t);
    hide Threads, JoinReturns;
  }

  lemma StepInv(atomicCancel: bool, s: State, a: Action)
    requires Inv(s) && Enabled(s, a)
    ensures Inv(Apply(atomicCancel, s, a))
  {
    hide Threads, Flags, Counted, Pending, WorkStep, ContinueStep;
    match a
    case Work(i) => WorkInv(s, i);
    case Continue =>
      ContinueThreads(s);
      ContinueFlags(s);
      ContinueCounted(s);
      ContinuePending(s);
    case _ => CallInv(atomicCancel, s, a);
  }

  lemma AtomicStep(s: State, a: Action)
    requires Inv(s) && Enabled(s, a) && !s.lateCancel && !InCancel(s.pc)
    ensures !Apply(true, s, a).lateCancel && !InCancel(Apply(true, s, a).pc)
  {
    JoinsNewest(s);
    hide Threads, Counted, JoinReturns, Live;
  }

  predicate InCancel(pc: ControllerPc) {
    pc.CancelReadTry? || pc.CancelReadThread? || pc.CancelStore?
  }

  lemma {:induction false} RunInv(atomicCancel: bool, s: State, acts: seq<Action>)
    requires Inv(s) && CanRun(atomicCancel, s, acts)
    ensures Inv(Run(atomicCancel, s, acts))
    ensures atomicCancel && !s.lateCancel && !InCancel(s.pc) ==> !Run(atomicCancel, s, acts).lateCancel
    decreases |acts|
  {
    hide Inv, Enabled, Apply, InCancel;
    if acts != [] {
      StepInv(atomicCancel, s, acts[0]);
      if atomicCancel && !s.lateCancel && !InCancel(s.pc) {
        AtomicStep(s, acts[0]);
      }
      RunInv(atomicCancel, Apply(atomicCancel, s, acts[0]), acts[1..]);
    }
  }

  // ----- what holds in every reachable state -----

  /** Safety, for every interleaving and either form of Cancel: at most one thread is alive; `m_nCount` is the
      number of runs the current worker has completed, up to the one between the task and the increment, as long
      as no synchronous Start has come after it; a non-loop Start runs its task at most once; and the join inside
      Start meets only a worker that will not run its task again. */
  lemma Safety(atomicCancel: bool, acts: seq<Action>)
    requires CanRun(atomicCancel, INITIAL, acts)
    ensures var s := Run(atomicCancel, INITIAL, acts);
      && (forall i, j :: Live(s, i) && Live(s, j) ==> i == j)
      && (forall i :: 0 <= i < |s.workers| && !s.workers[i].loop ==> s.workers[i].runs <= 1)
      && (s.asyncStart && !s.pc.StartDelete? && !s.pc.StartSpawn? ==>
            s.workers != [] &&
            var w := s.workers[|s.workers| - 1];
            s.count == w.runs - if w.pc == Counting then 1 else 0)
      && (!s.asyncStart ==> s.count == 0)
      && (s.pc.StartDelete? && s.thread.Some? && Live(s, s.thread.value) ==>
            s.workers[s.thread.value].pc == StoreTry)
  {
    RunInv(atomicCancel, INITIAL, acts);
  }

  /** When the controller is idle and no worker is left, a Start is accepted unless an earlier Cancel stored its
      flag after the worker it had seen was gone. */
  lemma Restartable(atomicCancel: bool, acts: seq<Action>, loop: bool, async: bool)
    requires CanRun(atomicCancel, INITIAL, acts)
    requires var s := Run(atomicCancel, INITIAL, acts); s.pc == Idle && NoneLive(s)
    ensures var s := Run(atomicCancel, INITIAL, acts);
      && Apply(atomicCancel, s, CallStart(loop, async)).pc == StartReadTry
      && (ContinueStep(Apply(atomicCancel, s, CallStart(loop, async))).pc == StartStoreExpired <==> !s.lateCancel)
  {
    RunInv(atomicCancel, INITIAL, acts);
  }

  /** If Cancel's check and store are one step, a finished worker always leaves the timer restartable. */
  lemma AtomicCancelRestartable(acts: seq<Action>)
    requires CanRun(true, INITIAL, acts)
    ensures !Run(true, INITIAL, acts).lateCancel
    ensures Run(true, INITIAL, acts).pc == Idle && NoneLive(Run(true, INITIAL, acts)) ==>
              Run(true, INITIAL, acts).expired && !Run(true, INITIAL, acts).tryExpired
  {
    RunInv(true, INITIAL, acts);
  }

  /** A Cancel whose store comes after its worker has exited leaves the timer stuck, and no other store does. */
  lemma CancelOutcome(s: State)
    requires Inv(s) && s.pc == CancelStore
    ensures Stuck(ContinueStep(s)) <==> NoneLive(s)
  {
  }

  lemma StuckStep(atomicCancel: bool, s: State, a: Action)
    requires Inv(s) && Stuck(s) && Enabled(s, a)
    ensures Stuck(Apply(atomicCancel, s, a)) && Apply(atomicCancel, s, a).workers == s.workers
  {
    JoinsNewest(s);
    hide Threads, Flags, Counted, Pending;
  }

  /** A stuck timer stays stuck: whatever happens next, no worker is created and no task runs. */
  lemma {:induction false} StuckForever(atomicCancel: bool, s: State, acts: seq<Action>)
    requires Inv(s) && Stuck(s) && CanRun(atomicCancel, s, acts)
    ensures Stuck(Run(atomicCancel, s, acts)) && Run(atomicCancel, s, acts).workers == s.workers
    decreases |acts|
  {
    hide Inv, Stuck, Enabled, Apply;
    if acts != [] {
      StepInv(atomicCancel, s, acts[0]);
      StuckStep(atomicCancel, s, acts[0]);
      StuckForever(atomicCancel, Apply(atomicCancel, s, acts[0]), acts[1..]);
    }
  }

  lemma OneShotAboutToFinish() returns (acts: seq<Action>, s: State)
    ensures CanRun(false, INITIAL, acts) && Run(false, INITIAL, acts) == s
    ensures s == State(false, false, false, 1, Some(0), [Worker(StoreExpired, false, 1)], Idle, false, true,
                       true, false, 0)
  {
    hide CanRun, Run;
    acts, s := OneShotStarted();
    acts, s := Then(acts, s, Work(0));
    acts, s := Then(acts, s, Work(0));
    acts, s := Then(acts, s, Work(0));
    acts, s := Then(acts, s, Work(0));
    acts, s := Then(acts, s, Work(0));
    acts, s := Then(acts, s, Work(0));
  }

  lemma OneShotStarted() returns (acts: seq<Action>, s: State)
    ensures CanRun(false, INITIAL, acts) && Run(false, INITIAL, acts) == s
    ensures s == State(false, false, false, 0, Some(0), [Worker(ReadGuard, false, 0)], Idle, false, true,
                       true, false, 0)
  {
    hide CanRun, Run;
    acts, s := OneShotAccepted();
    acts, s := Then(acts, s, Continue);
    acts, s := Then(acts, s, Continue);
    acts, s := Then(acts, s, Continue);
  }

  lemma OneShotAccepted() returns (acts: seq<Action>, s: State)
    ensures CanRun(false, INITIAL, acts) && Run(false, INITIAL, acts) == s
    ensures s == State(false, false, false, 0, None, [], StartStoreCount, false, true, false, false, 0)
  {
    assert CanRun(false, INITIAL, []) && Run(false, INITIAL, []) == INITIAL;
    hide CanRun, Run;
    acts, s := Then([], INITIAL, CallStart(false, true));
    acts, s := Then(acts, s, Continue);
    acts, s := Then(acts, s, Continue);
    acts, s := Then(acts, s, Continue);
  }

  lemma OneShotCancelling() returns (acts: seq<Action>, s: State)
    ensures CanRun(false, INITIAL, acts) && Run(false, INITIAL, acts) == s
    ensures s == State(false, false, false, 1, Some(0), [Worker(StoreExpired, false, 1)], CancelStore, false, true,
                       true, false, 0)
  {
    hide CanRun, Run;
    acts, s := OneShotAboutToFinish();
    acts, s := Then(acts, s, CallCancel);
    acts, s := Then(acts, s, Continue);
    acts, s := Then(acts, s, Continue);
  }

  /** One interleaving in which that happens: Cancel's tests pass while the worker is about to finish. */
  lemma CancelRace() returns (acts: seq<Action>)
    ensures CanRun(false, INITIAL, acts) && Stuck(Run(false, INITIAL, acts))
    ensures Run(false, INITIAL, acts).pc == Idle
  {
    hide CanRun, Run;
    var s;
    acts, s := OneShotCancelling();
    acts, s := Then(acts, s, Work(0));
    acts, s := Then(acts, s, Work(0));
    acts, s := Then(acts, s, Continue);
  }

  lemma Then(acts: seq<Action>, s: State, a: Action) returns (acts': seq<Action>, s': State)
    requires CanRun(false, INITIAL, acts) && Run(false, INITIAL, acts) == s && Enabled(s, a)
    ensures CanRun(false, INITIAL, acts') && Run(false, INITIAL, acts') == s' == Apply(false, s, a)
  {
    RunAppend(false, INITIAL, acts, a);
    acts', s' := acts + [a], Apply(false, s, a);
  }

  lemma {:induction false} RunAppend(atomicCancel: bool, s: State, acts: seq<Action>, a: Action)
    requires CanRun(atomicCancel, s, acts) && Enabled(Run(atomicCancel, s, acts), a)
    ensures CanRun(atomicCancel, s, acts + [a])
    ensures Run(atomicCancel, s, acts + [a]) == Apply(atomicCancel, Run(atomicCancel, s, acts), a)
    decreases |acts|
  {
    if acts == [] {
      assert [a][1..] == [];
    } else {
      RunAppend(atomicCancel, Apply(atomicCancel, s, acts[0]), acts[1..], a);
      assert (acts + [a])[1..] == acts[1..] + [a];
    }
  }

  // ----- cancellation -----

  /** Once the try flag is up, or the worker is past its loop, the worker never reaches its task again. */
  predicate Winding(s: State, i: nat, bound: nat) {
    && i < |s.workers|
    && (s.tryExpired || s.workers[i].pc in {StoreExpired, StoreTry, Exited})
    && s.workers[i].runs + (if s.workers[i].pc == InTask then 1 else 0) <= bound
  }

  /** The steps a winding-down worker still has to take. */
  function Rank(pc: WorkerPc): nat {
    match pc
    case InTask => 6
    case Counting => 5
    case Waiting => 5
    case ReadLoop => 4
    case ReadAgain => 4
    case ReadGuard => 3
    case StoreExpired => 2
    case StoreTry => 1
    case Exited => 0
  }

  function WorkCount(acts: seq<Action>, i: nat): nat {
    if acts == [] then 0
    else (if acts[0] == Work(i) then 1 else 0) + WorkCount(acts[1..], i)
  }

  lemma WindingStep(atomicCancel: bool, s: State, a: Action, i: nat, bound: nat)
    requires Inv(s) && Winding(s, i, bound) && Enabled(s, a)
    ensures Winding(Apply(atomicCancel, s, a), i, bound)
    ensures Rank(Apply(atomicCancel, s, a).workers[i].pc) + (if a == Work(i) then 1 else 0) <= Rank(s.workers[i].pc)
  {
    JoinsNewest(s);
    hide Threads, Counted, JoinReturns, NextPc;
  }

  /** After the store of Cancel or of the destructor, in every continuation: the worker completes at most the
      run it is in, so at most one more, and it takes at most six more steps. */
  lemma {:induction false} AfterCancel(atomicCancel: bool, s: State, i: nat, acts: seq<Action>)
    requires Inv(s) && s.tryExpired && Live(s, i) && CanRun(atomicCancel, s, acts)
    ensures var t := Run(atomicCancel, s, acts);
      && i < |t.workers|
      && t.workers[i].runs <= s.workers[i].runs + (if s.workers[i].pc == InTask then 1 else 0)
      && Rank(t.workers[i].pc) + WorkCount(acts, i) <= Rank(s.workers[i].pc) <= 6
  {
    WindingRun(atomicCancel, s, i, s.workers[i].runs + (if s.workers[i].pc == InTask then 1 else 0), acts);
  }

  lemma {:induction false} WindingRun(atomicCancel: bool, s: State, i: nat, bound: nat, acts: seq<Action>)
    requires Inv(s) && Winding(s, i, bound) && CanRun(atomicCancel, s, acts)
    ensures Winding(Run(atomicCancel, s, acts), i, bound)
    ensures Rank(Run(atomicCancel, s, acts).workers[i].pc) + WorkCount(acts, i) <= Rank(s.workers[i].pc)
    decreases |acts|
  {
    if acts != [] {
      var t := Apply(atomicCancel, s, acts[0]);
      StepInv(atomicCancel, s, acts[0]);
      WindingStep(atomicCancel, s, acts[0], i, bound);
      WindingRun(atomicCancel, t, i, bound, acts[1..]);
    }
  }

  /** So a join that waits, in the destructor or in Start, returns: letting the worker run to its end takes at
      most six steps, none of them blocked, and then the controller can go on. */
  lemma {:induction false} JoinTerminates(atomicCancel: bool, s: State) returns (acts: seq<Action>)
    requires Inv(s) && (s.pc.DestroyDelete? || s.pc.StartDelete?)
    ensures |acts| <= (if JoinReturns(s) then 0 else Rank(s.workers[s.thread.value].pc)) <= 6
    ensures CanRun(atomicCancel, s, acts) && Enabled(Run(atomicCancel, s, acts), Continue)
    decreases if JoinReturns(s) then 0 else Rank(s.workers[s.thread.value].pc)
  {
    if JoinReturns(s) {
      acts := [];
    } else {
      var i := s.thread.value;
      WorkInv(s, i);
      var rest := JoinTerminates(atomicCancel, WorkStep(s, i));
      acts := [Work(i)] + rest;
      assert acts[1..] == rest;
    }
  }
}
