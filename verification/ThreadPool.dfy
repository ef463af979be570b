/** The worker pool as a step machine.

    Each worker, each call of `enqueue` and the destructor has a program counter; the mutex,
    the wait set and the task queue are shared.  One step is one action between two points at
    which other threads can interfere: taking the mutex, evaluating the wait predicate, or the
    rest of a locked block together with the release that ends it. */
module ThreadPool {
  import opened Wrappers
  import opened Counting

  /** The packaged task made by the enqueue call of that index. */
  type Task = nat

  datatype WorkerPc =
    | Ready          // top of the loop, wants the mutex
    | Testing        // holds the mutex, about to evaluate the wait predicate
    | Awake          // holds the mutex, the wait has returned
    | Asleep         // in the wait set of the condition
    | Signalled      // left the wait set, wants the mutex
    | Running(task: Task)
    | Exited

  datatype CallPc =
    | Locking        // wants the mutex
    | Locked         // holds the mutex
    | Owing          // has pushed and unlocked, has not notified yet
    | Returned
    | Rejected       // threw because the pool was stopped

  datatype DestructorPc = Idle | Waiting | Holding | OwingAll | Joining(next: nat) | Gone

  datatype Owner = Nobody | Worker(w: nat) | Caller(c: nat) | Destructor

  datatype Pool = Pool(
    owner: Owner,
    stop: bool,
    tasks: seq<Task>,
    workers: seq<WorkerPc>,
    calls: seq<CallPc>,
    destructor: DestructorPc,
    // histories, in lock order
    accepted: seq<Task>,
    started: seq<Task>,
    finished: seq<Task>)

  datatype Action =
    | Spawn
    | WorkerLock(w: nat)
    | WorkerTest(w: nat)
    | WorkerProceed(w: nat)
    | WorkerFinish(w: nat)
    | Spurious(w: nat)
    | BeginEnqueue
    | CallLock(c: nat)
    | CallPush(c: nat)
    | CallNotify(c: nat, sleeper: Option<nat>)
    | BeginDestroy
    | DestroyLock
    | DestroyStop
    | DestroyNotifyAll
    | DestroyJoin

  function Initial(): Pool {
    Pool(Nobody, false, [], [], [], Idle, [], [], [])
  }

  predicate CanRun(s: Pool) { s.stop || s.tasks != [] }

  /** What notify_one may pick: a sleeper if there is one. */
  predicate Notifiable(s: Pool, sleeper: Option<nat>) {
    match sleeper
    case Some(w) => w < |s.workers| && s.workers[w] == Asleep
    case None => Asleep !in s.workers
  }

  predicate Enabled(s: Pool, a: Action) {
    match a
    case Spawn => s.destructor == Idle
    case WorkerLock(w) => w < |s.workers| && s.workers[w] in {Ready, Signalled} && s.owner == Nobody
    case WorkerTest(w) => w < |s.workers| && s.workers[w] == Testing
    case WorkerProceed(w) => w < |s.workers| && s.workers[w] == Awake && CanRun(s)
    case WorkerFinish(w) => w < |s.workers| && s.workers[w].Running?
    case Spurious(w) => w < |s.workers| && s.workers[w] == Asleep
    case BeginEnqueue => true
    case CallLock(c) => c < |s.calls| && s.calls[c] == Locking && s.owner == Nobody
    case CallPush(c) => c < |s.calls| && s.calls[c] == Locked
    case CallNotify(c, sleeper) => c < |s.calls| && s.calls[c] == Owing && Notifiable(s, sleeper)
    case BeginDestroy => s.destructor == Idle
    case DestroyLock => s.destructor == Waiting && s.owner == Nobody
    case DestroyStop => s.destructor == Holding
    case DestroyNotifyAll => s.destructor == OwingAll
    case DestroyJoin =>
      s.destructor.Joining? &&
      (s.destructor.next < |s.workers| ==> s.workers[s.destructor.next] == Exited)
  }

  function Wake(pc: WorkerPc): WorkerPc { if pc == Asleep then Signalled else pc }

  function WakeAll(workers: seq<WorkerPc>): seq<WorkerPc> {
    seq(|workers|, i requires 0 <= i < |workers| => Wake(workers[i]))
  }

  function Apply(s: Pool, a: Action): Pool
    requires Enabled(s, a)
  {
    match a
    case Spawn => s.(workers := s.workers + [Ready])
    case WorkerLock(w) => s.(workers := s.workers[w := Testing], owner := Worker(w))
    case WorkerTest(w) =>
      if CanRun(s) then s.(workers := s.workers[w := Awake])
      else s.(workers := s.workers[w := Asleep], owner := Nobody)
    case WorkerProceed(w) =>
      if s.stop && s.tasks == [] then s.(workers := s.workers[w := Exited], owner := Nobody)
      else s.(workers := s.workers[w := Running(s.tasks[0])], owner := Nobody,
              tasks := s.tasks[1..], started := s.started + [s.tasks[0]])
    case WorkerFinish(w) =>
      s.(workers := s.workers[w := Ready], finished := s.finished + [s.workers[w].task])
    case Spurious(w) => s.(workers := s.workers[w := Signalled])
    case BeginEnqueue => s.(calls := s.calls + [Locking])
    case CallLock(c) => s.(calls := s.calls[c := Locked], owner := Caller(c))
    case CallPush(c) =>
      if s.stop then s.(calls := s.calls[c := Rejected], owner := Nobody)
      else s.(calls := s.calls[c := Owing], owner := Nobody,
              tasks := s.tasks + [c], accepted := s.accepted + [c])
    case CallNotify(c, sleeper) =>
      s.(calls := s.calls[c := Returned],
         workers := if sleeper.Some? then s.workers[sleeper.value := Signalled] else s.workers)
    case BeginDestroy => s.(destructor := Waiting)
    case DestroyLock => s.(destructor := Holding, owner := Destructor)
    case DestroyStop => s.(destructor := OwingAll, owner := Nobody, stop := true)
    case DestroyNotifyAll => s.(destructor := Joining(0), workers := WakeAll(s.workers))
    case DestroyJoin =>
      s.(destructor := if s.destructor.next < |s.workers| then Joining(s.destructor.next + 1) else Gone)
  }

  // ----- runs

  predicate Runnable(s: Pool, run: seq<Action>)
    decreases |run|
  {
    run == [] || (Enabled(s, run[0]) && Runnable(Apply(s, run[0]), run[1..]))
  }

  function Exec(s: Pool, run: seq<Action>): Pool
    requires Runnable(s, run)
    decreases |run|
  {
    if run == [] then s else Exec(Apply(s, run[0]), run[1..])
  }

  ghost predicate Reachable(s: Pool) {
    exists run :: Runnable(Initial(), run) && Exec(Initial(), run) == s
  }

  lemma OneStep(s: Pool, a: Action, run: seq<Action>)
    requires Enabled(s, a) && Runnable(Apply(s, a), run)
    ensures Runnable(s, [a] + run) && Exec(s, [a] + run) == Exec(Apply(s, a), run)
  {
    hide Enabled, Apply;
    assert ([a] + run)[1..] == run;
  }

  lemma ThreeSteps(s: Pool, a: Action, b: Action, c: Action)
    requires Enabled(s, a) && Enabled(Apply(s, a), b) && Enabled(Apply(Apply(s, a), b), c)
    ensures Runnable(s, [a, b, c]) && Exec(s, [a, b, c]) == Apply(Apply(Apply(s, a), b), c)
  {
    hide Enabled, Apply;
    OneStep(Apply(Apply(s, a), b), c, []);
    OneStep(Apply(s, a), b, [c] + []);
    OneStep(s, a, [b] + ([c] + []));
    assert [a] + ([b] + ([c] + [])) == [a, b, c];
  }

  /** A wakeup without cause is harmless: the worker looks again and, with nothing to do, the pool is
      back as it was; with something to do, the worker goes on. */
  lemma SpuriousIsHarmless(s: Pool, w: nat)
    requires Enabled(s, Spurious(w)) && s.owner == Nobody
    ensures var again := [Spurious(w), WorkerLock(w), WorkerTest(w)];
      && Runnable(s, again)
      && Exec(s, again) == if CanRun(s) then s.(workers := s.workers[w := Awake], owner := Worker(w)) else s
  {
    var woken := Apply(s, Spurious(w));
    assert Enabled(woken, WorkerLock(w));
    assert Enabled(Apply(woken, WorkerLock(w)), WorkerTest(w));
    ThreeSteps(s, Spurious(w), WorkerLock(w), WorkerTest(w));
    assert s.workers[w := Asleep] == s.workers;
    assert s.workers[w := Signalled][w := Testing][w := Asleep] == s.workers[w := Asleep];
    assert s.workers[w := Signalled][w := Testing][w := Awake] == s.workers[w := Awake];
  }

  // ----- invariants

  predicate Holds(pc: WorkerPc) { pc == Testing || pc == Awake }

  /** Mutual exclusion: exactly the owner is inside a locked block. */
  ghost predicate LockInv(s: Pool) {
    && (s.owner.Worker? ==> s.owner.w < |s.workers|)
    && (s.owner.Caller? ==> s.owner.c < |s.calls|)
    && (forall w :: 0 <= w < |s.workers| ==> (Holds(s.workers[w]) <==> s.owner == Worker(w)))
    && (forall c :: 0 <= c < |s.calls| ==> (s.calls[c] == Locked <==> s.owner == Caller(c)))
    && (s.destructor == Holding <==> s.owner == Destructor)
  }

  /** The shutdown protocol: who may still sleep, and who may have exited. */
  ghost predicate StopInv(s: Pool) {
    && (s.stop <==> s.destructor == OwingAll || s.destructor.Joining? || s.destructor == Gone)
    && (Awake in s.workers ==> CanRun(s))
    && (s.stop && Asleep in s.workers ==> s.destructor == OwingAll)
    && (Exited in s.workers ==> s.stop && s.tasks == [])
    && (s.destructor.Joining? ==>
          s.destructor.next <= |s.workers| &&
          forall w :: 0 <= w < s.destructor.next ==> s.workers[w] == Exited)
    && (s.destructor == Gone ==> forall w :: 0 <= w < |s.workers| ==> s.workers[w] == Exited)
  }

  function WorkerCredit(pc: WorkerPc): nat {
    if pc == Signalled || Holds(pc) then 1 else 0
  }

  function CallCredit(pc: CallPc): nat {
    if pc == Owing then 1 else 0
  }

  /** Workers on their way to the queue, plus notifications still owed. */
  function Credit(s: Pool): nat {
    Sum(WorkerCredit, s.workers) + Sum(CallCredit, s.calls)
  }

  ghost predicate WakeInv(s: Pool) {
    Asleep in s.workers ==> |s.tasks| <= Credit(s)
  }

  function RunningTask(pc: WorkerPc): multiset<Task> {
    if pc.Running? then multiset{pc.task} else multiset{}
  }

  /** Acceptance order is start order, and each call is accepted at most once. */
  ghost predicate FifoInv(s: Pool) {
    && s.accepted == s.started + s.tasks
    && NoDuplicates(s.accepted)
    && (forall c: nat :: c in s.accepted <==> c < |s.calls| && s.calls[c] in {Owing, Returned})
  }

  /** What has started is finished or is being run by exactly one worker. */
  ghost predicate RunInv(s: Pool) {
    && multiset(s.started) == multiset(s.finished) + Gather(RunningTask, s.workers)
    && (s.workers == [] ==> s.started == [])
  }

  /** Only a stopped pool rejects. */
  ghost predicate RejectInv(s: Pool) {
    Rejected in s.calls ==> s.stop
  }

  ghost predicate Inv(s: Pool) {
    LockInv(s) && StopInv(s) && WakeInv(s) && FifoInv(s) && RunInv(s) && RejectInv(s)
  }

  predicate ByWorker(a: Action) {
    a.WorkerLock? || a.WorkerTest? || a.WorkerProceed? || a.WorkerFinish? || a.Spurious?
  }

  lemma LockPreserved(s: Pool, a: Action)
    requires LockInv(s) && Enabled(s, a)
    ensures LockInv(Apply(s, a))
  {
    if ByWorker(a) { LockPreservedByWorker(s, a); }
  }

  lemma LockPreservedByWorker(s: Pool, a: Action)
    requires LockInv(s) && Enabled(s, a) && ByWorker(a)
    ensures LockInv(Apply(s, a))
  {
  }

  lemma StopPreserved(s: Pool, a: Action)
    requires LockInv(s) && StopInv(s) && Enabled(s, a)
    ensures StopInv(Apply(s, a))
  {
    if ByWorker(a) { StopPreservedByWorker(s, a); }
  }

  lemma StopPreservedByWorker(s: Pool, a: Action)
    requires LockInv(s) && StopInv(s) && Enabled(s, a) && ByWorker(a)
    ensures StopInv(Apply(s, a))
  {
  }

  lemma WakePreserved(s: Pool, a: Action)
    requires LockInv(s) && StopInv(s) && WakeInv(s) && Enabled(s, a)
    ensures WakeInv(Apply(s, a))
  {
    match a
    case Spawn => SumAppend(WorkerCredit, s.workers, Ready);
    case BeginEnqueue => SumAppend(CallCredit, s.calls, Locking);
    case CallLock(c) => SumUpdate(CallCredit, s.calls, c, Locked);
    case CallPush(c) => SumUpdate(CallCredit, s.calls, c, Apply(s, a).calls[c]);
    case CallNotify(c, sleeper) => NotifyKeepsWake(s, c, sleeper);
    case _ => if ByWorker(a) { WakePreservedByWorker(s, a); }
  }

  lemma WakePreservedByWorker(s: Pool, a: Action)
    requires LockInv(s) && WakeInv(s) && Enabled(s, a) && ByWorker(a)
    ensures WakeInv(Apply(s, a))
  {
    SumUpdate(WorkerCredit, s.workers, a.w, Apply(s, a).workers[a.w]);
  }

  lemma NotifyKeepsWake(s: Pool, c: nat, sleeper: Option<nat>)
    requires WakeInv(s) && Enabled(s, CallNotify(c, sleeper))
    ensures WakeInv(Apply(s, CallNotify(c, sleeper)))
  {
    SumUpdate(CallCredit, s.calls, c, Returned);
    if sleeper.Some? { SumUpdate(WorkerCredit, s.workers, sleeper.value, Signalled); }
  }

  lemma FifoPreserved(s: Pool, a: Action)
    requires LockInv(s) && FifoInv(s) && Enabled(s, a)
    ensures FifoInv(Apply(s, a))
  {
    if a.WorkerProceed? && s.tasks != [] {
      assert s.started + [s.tasks[0]] + s.tasks[1..] == s.started + s.tasks;
    }
  }

  /** A step that neither starts nor finishes a task keeps the account. */
  lemma SameAccount(s: Pool, r: Pool)
    requires RunInv(s) && r.started == s.started && r.finished == s.finished
    requires Gather(RunningTask, r.workers) == Gather(RunningTask, s.workers) && |r.workers| >= |s.workers|
    ensures RunInv(r)
  {
    hide Gather, RunningTask;
  }

  lemma RunPreserved(s: Pool, a: Action)
    requires RunInv(s) && Enabled(s, a)
    ensures RunInv(Apply(s, a))
  {
    hide Gather, RunInv;
    var r := Apply(s, a);
    match a
    case WorkerProceed(w) => StartRuns(s, w);
    case WorkerFinish(w) => FinishRuns(s, w);
    case _ =>
      SameGathered(s, a);
      SameAccount(s, r);
  }

  lemma SameGathered(s: Pool, a: Action)
    requires Enabled(s, a) && !a.WorkerProceed? && !a.WorkerFinish?
    ensures Gather(RunningTask, Apply(s, a).workers) == Gather(RunningTask, s.workers)
  {
    hide Gather;
    match a
    case Spawn =>
      GatherAppend(RunningTask, s.workers, Ready);
      assert RunningTask(Ready) == multiset{};
    case WorkerLock(w) => SameRuns(s.workers, w, Testing);
    case WorkerTest(w) => SameRuns(s.workers, w, Apply(s, a).workers[w]);
    case Spurious(w) => SameRuns(s.workers, w, Signalled);
    case CallNotify(c, sleeper) =>
      if sleeper.Some? { SameRuns(s.workers, sleeper.value, Signalled); }
    case DestroyNotifyAll => WakeAllRuns(s.workers);
    case _ =>
  }

  lemma SameRuns(workers: seq<WorkerPc>, w: nat, pc: WorkerPc)
    requires w < |workers| && RunningTask(workers[w]) == RunningTask(pc)
    ensures Gather(RunningTask, workers[w := pc]) == Gather(RunningTask, workers)
  {
    hide RunningTask;
    GatherUpdate(RunningTask, workers, w, pc);
  }

  lemma OneStarts(started: seq<Task>, finished: seq<Task>, running: multiset<Task>, task: Task)
    requires multiset(started) == multiset(finished) + running
    ensures multiset(started + [task]) == multiset(finished) + (running - multiset{} + multiset{task})
  {
  }

  lemma OneFinishes(started: seq<Task>, finished: seq<Task>, running: multiset<Task>, task: Task)
    requires multiset(started) == multiset(finished) + running && task in running
    ensures multiset(started) == multiset(finished + [task]) + (running - multiset{task} + multiset{})
  {
  }

  lemma StartRuns(s: Pool, w: nat)
    requires RunInv(s) && Enabled(s, WorkerProceed(w))
    ensures RunInv(Apply(s, WorkerProceed(w)))
  {
    hide Gather;
    if s.stop && s.tasks == [] {
      SameRuns(s.workers, w, Exited);
    } else {
      var task := s.tasks[0];
      assert RunningTask(s.workers[w]) == multiset{} && RunningTask(Running(task)) == multiset{task};
      hide RunningTask;
      GatherUpdate(RunningTask, s.workers, w, Running(task));
      OneStarts(s.started, s.finished, Gather(RunningTask, s.workers), task);
    }
  }

  lemma FinishRuns(s: Pool, w: nat)
    requires RunInv(s) && Enabled(s, WorkerFinish(w))
    ensures RunInv(Apply(s, WorkerFinish(w)))
  {
    hide Gather;
    var task := s.workers[w].task;
    assert RunningTask(s.workers[w]) == multiset{task} && RunningTask(Ready) == multiset{};
    hide RunningTask;
    GatherUpdate(RunningTask, s.workers, w, Ready);
    assert task in Gather(RunningTask, s.workers);
    OneFinishes(s.started, s.finished, Gather(RunningTask, s.workers), task);
  }

  lemma {:induction false} WakeAllRuns(workers: seq<WorkerPc>)
    ensures Gather(RunningTask, WakeAll(workers)) == Gather(RunningTask, workers)
  {
    if workers != [] {
      var n := |workers| - 1;
      assert WakeAll(workers)[..n] == WakeAll(workers[..n]);
      WakeAllRuns(workers[..n]);
    }
  }

  lemma RejectPreserved(s: Pool, a: Action)
    requires RejectInv(s) && Enabled(s, a)
    ensures RejectInv(Apply(s, a))
  {
    var r := Apply(s, a);
    if Rejected in r.calls {
      var c :| 0 <= c < |r.calls| && r.calls[c] == Rejected;
      assert c < |s.calls| && s.calls[c] == Rejected ==> Rejected in s.calls;
    }
  }

  lemma InvPreserved(s: Pool, a: Action)
    requires Inv(s) && Enabled(s, a)
    ensures Inv(Apply(s, a))
  {
    LockPreserved(s, a);
    StopPreserved(s, a);
    WakePreserved(s, a);
    FifoPreserved(s, a);
    RunPreserved(s, a);
    RejectPreserved(s, a);
  }

  lemma {:induction false} RunKeepsInv(s: Pool, run: seq<Action>)
    requires Inv(s) && Runnable(s, run)
    ensures Inv(Exec(s, run))
    decreases |run|
  {
    if run != [] {
      InvPreserved(s, run[0]);
      RunKeepsInv(Apply(s, run[0]), run[1..]);
    }
  }

  /** Every reachable state satisfies the invariants. */
  lemma ReachableInv(s: Pool)
    requires Reachable(s)
    ensures Inv(s)
  {
    var run :| Runnable(Initial(), run) && Exec(Initial(), run) == s;
    RunKeepsInv(Initial(), run);
  }

  lemma {:induction false} Extend(s: Pool, run: seq<Action>, a: Action)
    requires Runnable(s, run) && Enabled(Exec(s, run), a)
    ensures Runnable(s, run + [a]) && Exec(s, run + [a]) == Apply(Exec(s, run), a)
    decreases |run|
  {
    if run != [] {
      assert (run + [a])[1..] == run[1..] + [a];
      Extend(Apply(s, run[0]), run[1..], a);
    }
  }

  /** A step from a reachable state leads to one: a caller of the methods below stays within the
      theorems of this module. */
  lemma ReachStep(s: Pool, a: Action)
    requires Reachable(s) && Enabled(s, a)
    ensures Reachable(Apply(s, a))
  {
    var run :| Runnable(Initial(), run) && Exec(Initial(), run) == s;
    Extend(Initial(), run, a);
  }

  // ----- safety over whole runs

  function SignalledWeight(pc: WorkerPc): nat { if pc == Signalled then 1 else 0 }

  /** No lost wakeup: while a worker sleeps unsignalled, the queued tasks are covered by
      signalled workers, the worker holding the mutex, and notifications still owed. */
  lemma NoLostWakeup(s: Pool)
    requires Reachable(s) && Asleep in s.workers
    ensures |s.tasks| <= Sum(SignalledWeight, s.workers) + Sum(CallCredit, s.calls)
                         + if s.owner.Worker? then 1 else 0
  {
    ReachableInv(s);
    CreditIsSignalled(s.workers, if s.owner.Worker? then s.owner.w else |s.workers|);
  }

  lemma {:induction false} CreditIsSignalled(workers: seq<WorkerPc>, holder: nat)
    requires forall w :: 0 <= w < |workers| ==> (Holds(workers[w]) <==> w == holder)
    ensures Sum(WorkerCredit, workers)
         == Sum(SignalledWeight, workers) + if holder < |workers| then 1 else 0
  {
    if workers != [] {
      CreditIsSignalled(workers[..|workers| - 1], holder);
    }
  }

  /** Exactly once, in order: what was accepted is what was started followed by what is queued,
      without repetition, and no task is both finished and running, or run by two workers. */
  lemma ExactlyOnce(s: Pool)
    requires Reachable(s)
    ensures s.accepted == s.started + s.tasks
    ensures NoDuplicates(s.accepted)
    ensures multiset(s.started) == multiset(s.finished) + Gather(RunningTask, s.workers)
    ensures forall w, v :: 0 <= w < v < |s.workers| && s.workers[w].Running? ==> s.workers[w] != s.workers[v]
    ensures forall w :: 0 <= w < |s.workers| && s.workers[w].Running? ==>
              s.workers[w].task !in s.finished && s.workers[w].task !in s.tasks
  {
    ReachableInv(s);
    forall w, v | 0 <= w < v < |s.workers| && s.workers[w].Running?
      ensures s.workers[w] != s.workers[v]
    {
      RunsApart(s, w, v);
    }
    forall w | 0 <= w < |s.workers| && s.workers[w].Running?
      ensures s.workers[w].task !in s.finished && s.workers[w].task !in s.tasks
    {
      RunsOnlyThere(s, w);
    }
  }

  lemma RunsApart(s: Pool, w: nat, v: nat)
    requires FifoInv(s) && RunInv(s)
    requires w < v < |s.workers| && s.workers[w].Running?
    ensures s.workers[w] != s.workers[v]
  {
    StartedOnce(s);
    GatherTwo(RunningTask, s.workers, w, v);
    var task := s.workers[w].task;
    assert (RunningTask(s.workers[w]) + RunningTask(s.workers[v]))[task] <= multiset(s.started)[task];
  }

  lemma RunsOnlyThere(s: Pool, w: nat)
    requires FifoInv(s) && RunInv(s)
    requires w < |s.workers| && s.workers[w].Running?
    ensures s.workers[w].task !in s.finished && s.workers[w].task !in s.tasks
  {
    StartedOnce(s);
    GatherUpdate(RunningTask, s.workers, w, Ready);
    var task := s.workers[w].task;
    assert RunningTask(s.workers[w])[task] == 1;
    assert multiset(s.started)[task] >= multiset(s.finished)[task] + 1;
    var i :| 0 <= i < |s.started| && s.started[i] == task;
    forall j | 0 <= j < |s.tasks| ensures s.tasks[j] != task {
      assert s.accepted[i] == task && s.accepted[|s.started| + j] == s.tasks[j];
    }
  }

  lemma StartedOnce(s: Pool)
    requires FifoInv(s)
    ensures forall task :: multiset(s.started)[task] <= 1
  {
    forall i, j | 0 <= i < j < |s.started| ensures s.started[i] != s.started[j] {
      assert s.accepted[i] == s.started[i] && s.accepted[j] == s.started[j];
    }
    DistinctOnce(s.started);
  }

  lemma {:induction false} DistinctOnce<T(!new)>(s: seq<T>)
    requires NoDuplicates(s)
    ensures forall x :: multiset(s)[x] <= 1
  {
    if s != [] {
      var n := |s| - 1;
      assert s == s[..n] + [s[n]];
      DistinctOnce(s[..n]);
      assert s[n] !in s[..n];
    }
  }

  /** `enqueue` throws only on a stopped pool. */
  lemma RejectedOnlyWhenStopped(s: Pool, c: nat)
    requires Reachable(s) && c < |s.calls| && s.calls[c] == Rejected
    ensures s.stop
  {
    ReachableInv(s);
  }

  lemma {:induction false} AcceptedGrows(s: Pool, run: seq<Action>)
    requires Runnable(s, run)
    ensures s.accepted <= Exec(s, run).accepted
    decreases |run|
  {
    if run != [] {
      AcceptedGrows(Apply(s, run[0]), run[1..]);
    }
  }

  /** A call that gets the mutex of an unstopped pool is accepted by the time it gives it back,
      whatever happens meanwhile. */
  lemma {:induction false} LockedCallIsAccepted(s: Pool, run: seq<Action>, c: nat)
    requires Inv(s) && !s.stop && c < |s.calls| && s.calls[c] == Locked
    requires Runnable(s, run) && c < |Exec(s, run).calls| && Exec(s, run).calls[c] != Locked
    ensures c in Exec(s, run).accepted
    decreases |run|
  {
    var t := Apply(s, run[0]);
    if run[0] == CallPush(c) {
      assert t.accepted == s.accepted + [c] && c in t.accepted;
      AcceptedGrows(t, run[1..]);
    } else {
      OthersWaitForTheCall(s, run[0], c);
      InvPreserved(s, run[0]);
      LockedCallIsAccepted(t, run[1..], c);
    }
  }

  lemma OthersWaitForTheCall(s: Pool, a: Action, c: nat)
    requires LockInv(s) && !s.stop && c < |s.calls| && s.calls[c] == Locked && Enabled(s, a) && a != CallPush(c)
    ensures var t := Apply(s, a); !t.stop && c < |t.calls| && t.calls[c] == Locked
  {
  }

  /** Whenever the mutex is free a new caller of enqueue can go through, and is rejected if the pool is
      stopped, whatever it holds, and otherwise queued last. */
  lemma CallRuns(s: Pool)
    requires s.owner == Nobody
    ensures var c := |s.calls|;
      var run := [BeginEnqueue, CallLock(c), CallPush(c)];
      && Runnable(s, run)
      && Exec(s, run)
           == if s.stop then s.(calls := s.calls + [Rejected])
              else s.(calls := s.calls + [Owing], tasks := s.tasks + [c], accepted := s.accepted + [c])
  {
    hide Enabled, Apply, Runnable, Exec;
    var c := |s.calls|;
    BeginsLast(s);
    PushesLast(s, Apply(Apply(s, BeginEnqueue), CallLock(c)));
    ThreeSteps(s, BeginEnqueue, CallLock(c), CallPush(c));
  }

  lemma BeginsLast(s: Pool)
    requires s.owner == Nobody
    ensures Enabled(s, BeginEnqueue) && Enabled(Apply(s, BeginEnqueue), CallLock(|s.calls|))
    ensures Apply(Apply(s, BeginEnqueue), CallLock(|s.calls|))
         == s.(calls := s.calls + [Locked], owner := Caller(|s.calls|))
  {
    LastChanges(s.calls, Locking, Locked);
    assert Apply(s, BeginEnqueue) == s.(calls := s.calls + [Locking]);
  }

  lemma PushesLast(s: Pool, locked: Pool)
    requires s.owner == Nobody && locked == s.(calls := s.calls + [Locked], owner := Caller(|s.calls|))
    ensures Enabled(locked, CallPush(|s.calls|))
    ensures Apply(locked, CallPush(|s.calls|))
         == if s.stop then s.(calls := s.calls + [Rejected])
            else s.(calls := s.calls + [Owing], tasks := s.tasks + [|s.calls|], accepted := s.accepted + [|s.calls|])
  {
    LastChanges(s.calls, Locked, Rejected);
    LastChanges(s.calls, Locked, Owing);
  }

  lemma LastChanges(calls: seq<CallPc>, before: CallPc, after: CallPc)
    ensures (calls + [before])[|calls| := after] == calls + [after] && (calls + [before])[|calls|] == before
  {
  }

  function Spawns(run: seq<Action>): nat {
    if run == [] then 0 else (if run[0].Spawn? then 1 else 0) + Spawns(run[1..])
  }

  /** Every spawn makes a worker and every call of enqueue is a call of its own. */
  lemma {:induction false} ThreadsAreCounted(s: Pool, run: seq<Action>)
    requires Runnable(s, run)
    ensures |Exec(s, run).workers| == |s.workers| + Spawns(run)
    ensures |Exec(s, run).calls| == |s.calls| + Begins(run)
    decreases |run|
  {
    if run != [] {
      ThreadsAreCounted(Apply(s, run[0]), run[1..]);
    }
  }

  /** When the joins are over, the accepted tasks have all finished, unless there was no worker. */
  lemma DrainedWhenJoined(s: Pool)
    requires Reachable(s) && s.destructor == Gone
    ensures multiset(s.finished) == multiset(s.accepted) <==> (s.workers != [] || s.accepted == [])
  {
    ReachableInv(s);
    GatherEmpty(RunningTask, s.workers);
    if s.workers != [] {
      assert s.workers[0] in s.workers;
      assert s.started + [] == s.started;
    } else {
      assert |multiset(s.finished)| == 0;
      assert |multiset(s.accepted)| == |s.accepted|;
    }
  }

  // ----- termination

  function WorkerRank(pc: WorkerPc): nat {
    match pc
    case Exited => 0
    case Awake => 1
    case Testing => 2
    case Ready => 3
    case Signalled => 3
    case Asleep => 4
    case Running(_) => 4
  }

  function CallRank(pc: CallPc): nat {
    match pc
    case Locking => 7
    case Locked => 6
    case Owing => 1
    case Returned => 0
    case Rejected => 0
  }

  function DestructorRank(s: Pool): nat {
    match s.destructor
    case Idle => 0
    case Waiting => |s.workers| + 4
    case Holding => |s.workers| + 3
    case OwingAll => |s.workers| + 2
    case Joining(next) => if next <= |s.workers| then |s.workers| - next + 1 else 0
    case Gone => 0
  }

  function Measure(s: Pool): nat {
    4 * |s.tasks| + Sum(WorkerRank, s.workers) + Sum(CallRank, s.calls) + DestructorRank(s)
  }

  /** Steps that the pool takes on its own, as opposed to new requests from outside. */
  predicate Internal(a: Action) {
    !a.Spawn? && !a.BeginEnqueue? && !a.BeginDestroy?
  }

  /** Every step of the pool's own, spurious wakeups included, lowers the measure; the only
      exception is a worker that falls asleep because there is nothing to do. */
  lemma StepLowersMeasure(s: Pool, a: Action)
    requires LockInv(s) && StopInv(s) && Enabled(s, a) && Internal(a)
    ensures Measure(Apply(s, a)) < Measure(s) || (a.WorkerTest? && !CanRun(s))
  {
    hide Apply, Enabled, Measure;
    match a
    case CallLock(c) => CallLowersMeasure(s, a, c);
    case CallPush(c) => CallLowersMeasure(s, a, c);
    case CallNotify(c, sleeper) => CallLowersMeasure(s, a, c);
    case DestroyNotifyAll => NotifyAllLowersMeasure(s);
    case DestroyLock => DestructorLowersMeasure(s, a);
    case DestroyStop => DestructorLowersMeasure(s, a);
    case DestroyJoin => DestructorLowersMeasure(s, a);
    case _ => if !a.WorkerTest? || CanRun(s) { WorkerLowersMeasure(s, a); }
  }

  lemma NotifyAllLowersMeasure(s: Pool)
    requires Enabled(s, DestroyNotifyAll)
    ensures Measure(Apply(s, DestroyNotifyAll)) < Measure(s)
  {
    hide Sum;
    SumMonotone(WorkerRank, WakeAll(s.workers), s.workers);
  }

  lemma DestructorLowersMeasure(s: Pool, a: Action)
    requires StopInv(s) && Enabled(s, a) && (a.DestroyLock? || a.DestroyStop? || a.DestroyJoin?)
    ensures Measure(Apply(s, a)) < Measure(s)
  {
    hide Sum;
  }

  lemma WorkerLowersMeasure(s: Pool, a: Action)
    requires Enabled(s, a)
    requires ByWorker(a) && (a.WorkerTest? ==> CanRun(s))
    ensures Measure(Apply(s, a)) < Measure(s)
  {
    var r := Apply(s, a);
    var pc := r.workers[a.w];
    assert r == r.(workers := s.workers[a.w := pc]) && r.calls == s.calls && r.destructor == s.destructor;
    assert 4 * |r.tasks| + WorkerRank(pc) < 4 * |s.tasks| + WorkerRank(s.workers[a.w]);
    hide Enabled, Apply, WorkerRank, CallRank;
    SumUpdate(WorkerRank, s.workers, a.w, pc);
  }

  lemma CallLowersMeasure(s: Pool, a: Action, c: nat)
    requires Enabled(s, a)
    requires a == CallLock(c) || a == CallPush(c) || (a.CallNotify? && a.c == c)
    ensures Measure(Apply(s, a)) < Measure(s)
  {
    hide Sum;
    SumUpdate(CallRank, s.calls, c, Apply(s, a).calls[c]);
    if a.CallNotify? && a.sleeper.Some? {
      SumUpdate(WorkerRank, s.workers, a.sleeper.value, Signalled);
    }
  }

  /** There is work, or the pool is stopped, at every state of the run before the last. */
  predicate AlwaysBusy(s: Pool, run: seq<Action>)
    requires Runnable(s, run)
    decreases |run|
  {
    run == [] || (CanRun(s) && AlwaysBusy(Apply(s, run[0]), run[1..]))
  }

  function Begins(run: seq<Action>): nat {
    if run == [] then 0 else (if run[0].BeginEnqueue? then 1 else 0) + Begins(run[1..])
  }

  lemma BusyStepIsPaid(s: Pool, a: Action)
    requires Inv(s) && Enabled(s, a) && CanRun(s) && !a.Spawn? && !a.BeginDestroy?
    ensures 1 + Measure(Apply(s, a)) <= Measure(s) + 8 * Begins([a])
  {
    if Internal(a) {
      StepLowersMeasure(s, a);
    } else {
      SumAppend(CallRank, s.calls, Locking);
    }
  }

  /** While there is work, the pool's own steps are bounded, however the scheduler chooses. */
  lemma {:induction false} BusyRunIsBounded(s: Pool, run: seq<Action>)
    requires Inv(s) && Runnable(s, run) && AlwaysBusy(s, run)
    requires forall a :: a in run ==> !a.Spawn? && !a.BeginDestroy?
    ensures |run| + Measure(Exec(s, run)) <= Measure(s) + 8 * Begins(run)
    decreases |run|
  {
    if run != [] {
      InvPreserved(s, run[0]);
      BusyStepIsPaid(s, run[0]);
      BusyRunIsBounded(Apply(s, run[0]), run[1..]);
    }
  }

  /** Once the destructor has set stop, nobody falls asleep again, from its notify_all on nobody
      sleeps at all, and the rest of any run is bounded. */
  lemma ShutdownIsBounded(s: Pool, run: seq<Action>)
    requires Reachable(s) && s.stop && Runnable(s, run)
    ensures Exec(s, run).stop
    ensures forall w :: 0 <= w < |Exec(s, run).workers| && Exec(s, run).workers[w] == Asleep ==>
              w < |s.workers| && s.workers[w] == Asleep
    ensures s.destructor != OwingAll ==> Asleep !in Exec(s, run).workers
    ensures |run| + Measure(Exec(s, run)) <= Measure(s) + 8 * Begins(run)
  {
    ReachableInv(s);
    StoppedStaysBusy(s, run);
    NobodyFallsAsleep(s, run);
    BusyRunIsBounded(s, run);
  }

  lemma {:induction false} NobodyFallsAsleep(s: Pool, run: seq<Action>)
    requires s.stop && s.destructor !in {Idle, Waiting} && Runnable(s, run)
    ensures var t := Exec(s, run);
      forall w :: 0 <= w < |t.workers| && t.workers[w] == Asleep ==> w < |s.workers| && s.workers[w] == Asleep
    decreases |run|
  {
    if run != [] {
      NobodyFallsAsleep(Apply(s, run[0]), run[1..]);
    }
  }

  lemma {:induction false} StoppedStaysBusy(s: Pool, run: seq<Action>)
    requires s.stop && s.destructor !in {Idle, Waiting} && Runnable(s, run)
    ensures Exec(s, run).stop && AlwaysBusy(s, run)
    ensures forall a :: a in run ==> !a.Spawn? && !a.BeginDestroy?
    decreases |run|
  {
    if run != [] {
      StoppedStaysBusy(Apply(s, run[0]), run[1..]);
      assert run == [run[0]] + run[1..];
    }
  }

  // ----- progress

  predicate Settled(pc: CallPc) { pc == Returned || pc == Rejected }

  predicate ShutDown(s: Pool) {
    s.destructor == Gone && forall c :: 0 <= c < |s.calls| ==> Settled(s.calls[c])
  }

  /** The holder of the mutex can always move. */
  lemma OwnerMoves(s: Pool) returns (a: Action)
    requires LockInv(s) && StopInv(s) && s.owner != Nobody
    ensures Enabled(s, a) && Internal(a) && !a.WorkerFinish? && !a.Spurious?
    ensures match s.owner
      case Worker(w) => a == WorkerTest(w) || a == WorkerProceed(w)
      case Caller(c) => a == CallPush(c)
      case _ => a == DestroyStop
  {
    match s.owner
    case Worker(w) =>
      assert s.workers[w] in s.workers;
      a := if s.workers[w] == Testing then WorkerTest(w) else WorkerProceed(w);
    case Caller(c) => a := CallPush(c);
    case Destructor => a := DestroyStop;
  }

  lemma PendingCallMoves(s: Pool, c: nat) returns (a: Action)
    requires LockInv(s) && s.owner == Nobody && c < |s.calls| && !Settled(s.calls[c])
    ensures Enabled(s, a) && Internal(a) && !a.WorkerFinish? && !a.Spurious?
  {
    if s.calls[c] == Locking {
      a := CallLock(c);
    } else if Asleep in s.workers {
      var w :| 0 <= w < |s.workers| && s.workers[w] == Asleep;
      a := CallNotify(c, Some(w));
    } else {
      a := CallNotify(c, None);
    }
  }

  /** Shutdown never deadlocks: some step other than a spurious wakeup is enabled until
      the destructor has joined every worker and every call has settled. */
  lemma ShutdownNeverStuck(s: Pool) returns (a: Action)
    requires Inv(s) && s.stop && !ShutDown(s)
    ensures Enabled(s, a) && Internal(a) && !a.Spurious?
  {
    if s.owner != Nobody {
      a := OwnerMoves(s);
    } else if s.destructor == OwingAll {
      a := DestroyNotifyAll;
    } else if s.destructor == Gone {
      var c :| 0 <= c < |s.calls| && !Settled(s.calls[c]);
      a := PendingCallMoves(s, c);
    } else if s.destructor.next == |s.workers| || s.workers[s.destructor.next] == Exited {
      a := DestroyJoin;
    } else {
      var w := s.destructor.next;
      assert s.workers[w] in s.workers;
      a := if s.workers[w].Running? then WorkerFinish(w) else WorkerLock(w);
    }
  }

  /** From any stopped state the pool can run to the end on its own steps alone. */
  lemma {:induction false} ShutdownCompletes(s: Pool) returns (run: seq<Action>)
    requires Inv(s) && s.stop
    ensures Runnable(s, run) && ShutDown(Exec(s, run))
    ensures forall a :: a in run ==> Internal(a)
    decreases Measure(s)
  {
    if ShutDown(s) {
      run := [];
    } else {
      var a := ShutdownNeverStuck(s);
      InvPreserved(s, a);
      StepLowersMeasure(s, a);
      var rest := ShutdownCompletes(Apply(s, a));
      run := [a] + rest;
    }
  }

  /** The destructor gets the mutex once its holder is done, and then stops the pool. */
  lemma {:induction false} DestructorStops(s: Pool) returns (run: seq<Action>)
    requires Inv(s) && s.destructor in {Waiting, Holding}
    ensures Runnable(s, run) && Exec(s, run).stop && Inv(Exec(s, run))
    ensures forall a :: a in run ==> Internal(a)
    decreases s.destructor == Waiting, HolderRank(s)
  {
    var a := if s.destructor == Holding then DestroyStop else DestroyLock;
    if s.destructor == Waiting && s.owner != Nobody {
      a := OwnerMoves(s);
      HolderIsDone(s, a);
    }
    InvPreserved(s, a);
    var t := Apply(s, a);
    var rest := [];
    if !t.stop {
      rest := DestructorStops(t);
    }
    run := [a] + rest;
  }

  /** What the holder of the mutex has still to do. */
  function HolderRank(s: Pool): nat {
    match s.owner
    case Nobody => 0
    case Worker(w) => if w < |s.workers| && s.workers[w] == Testing then 2 else 1
    case _ => 1
  }

  lemma HolderIsDone(s: Pool, a: Action)
    requires LockInv(s) && StopInv(s) && s.owner != Nobody && s.destructor == Waiting && Enabled(s, a)
    requires match s.owner
      case Worker(w) => a == WorkerTest(w) || a == WorkerProceed(w)
      case Caller(c) => a == CallPush(c)
      case _ => false
    ensures var t := Apply(s, a); t.destructor == Waiting && HolderRank(t) < HolderRank(s)
  {
  }

  /** The destructor, once begun in any state, can be brought to its end on the pool's own steps,
      with every worker joined and every call settled. */
  lemma DestructionCompletes(s: Pool) returns (run: seq<Action>)
    requires Inv(s) && s.destructor == Idle
    ensures Runnable(s, [BeginDestroy] + run) && ShutDown(Exec(s, [BeginDestroy] + run))
    ensures forall a :: a in run ==> Internal(a)
  {
    InvPreserved(s, BeginDestroy);
    var t := Apply(s, BeginDestroy);
    var stops := DestructorStops(t);
    var ends := ShutdownCompletes(Exec(t, stops));
    run := stops + ends;
    RunsCompose(t, stops, ends);
    assert ([BeginDestroy] + run)[1..] == run;
  }

  lemma {:induction false} RunsCompose(s: Pool, run: seq<Action>, more: seq<Action>)
    requires Runnable(s, run) && Runnable(Exec(s, run), more)
    ensures Runnable(s, run + more) && Exec(s, run + more) == Exec(Exec(s, run), more)
    decreases |run|
  {
    if run == [] {
      assert run + more == more;
    } else {
      RunsCompose(Apply(s, run[0]), run[1..], more);
      assert (run + more)[1..] == run[1..] + more;
    }
  }

  /** A step other than the return of one of the permanent tasks. */
  predicate SparesTasks(s: Pool, a: Action, permanent: set<Task>) {
    a.WorkerFinish? ==> a.w < |s.workers| && s.workers[a.w].Running? && s.workers[a.w].task !in permanent
  }

  /** Progress beside tasks that never return: with fewer of them than workers, a queued task
      always leaves some step enabled that neither returns from one nor is a spurious wakeup. */
  lemma ProgressBesidePermanentTasks(s: Pool, permanent: set<Task>) returns (a: Action)
    requires Reachable(s) && s.tasks != [] && |permanent| < |s.workers|
    ensures Enabled(s, a) && Internal(a) && !a.Spurious? && SparesTasks(s, a, permanent)
  {
    ReachableInv(s);
    if s.owner != Nobody {
      a := OwnerMoves(s);
      return;
    }
    var w := SpareWorker(s, permanent);
    assert s.workers[w] in s.workers;
    if s.workers[w].Running? {
      a := WorkerFinish(w);
    } else if s.workers[w] == Asleep && s.stop {
      a := DestroyNotifyAll;
    } else if s.workers[w] != Asleep {
      a := WorkerLock(w);
    } else if Sum(WorkerCredit, s.workers) > 0 {
      var v := SumWitness(WorkerCredit, s.workers);
      a := WorkerLock(v);
    } else {
      var c := SumWitness(CallCredit, s.calls);
      a := PendingCallMoves(s, c);
    }
  }

  /** Pigeonhole: some worker is not running a permanent task. */
  lemma SpareWorker(s: Pool, permanent: set<Task>) returns (w: nat)
    requires Reachable(s) && |permanent| < |s.workers|
    ensures w < |s.workers| && !(s.workers[w].Running? && s.workers[w].task in permanent)
  {
    ExactlyOnce(s);
    if forall i :: 0 <= i < |s.workers| ==> s.workers[i].Running? && s.workers[i].task in permanent {
      var tasks := seq(|s.workers|, i requires 0 <= i < |s.workers| && s.workers[i].Running? => s.workers[i].task);
      Pigeonhole(tasks, permanent);
    }
    w :| w < |s.workers| && !(s.workers[w].Running? && s.workers[w].task in permanent);
  }

  /** No step of the run is the return of a permanent task. */
  predicate SparingRun(s: Pool, run: seq<Action>, permanent: set<Task>)
    requires Runnable(s, run)
    decreases |run|
  {
    run == [] || (SparesTasks(s, run[0], permanent) && SparingRun(Apply(s, run[0]), run[1..], permanent))
  }

  /** The queue drains beside permanent tasks: with fewer of them than workers, the pool's own
      steps can start every queued task without any of them returning. */
  lemma {:induction false} DrainsBesidePermanentTasks(s: Pool, permanent: set<Task>) returns (run: seq<Action>)
    requires Reachable(s) && |permanent| < |s.workers|
    ensures Runnable(s, run) && SparingRun(s, run, permanent) && Exec(s, run).tasks == []
    ensures forall a :: a in run ==> Internal(a)
    decreases Measure(s)
  {
    hide Reachable, Measure;
    if s.tasks == [] {
      run := [];
    } else {
      var a := ProgressBesidePermanentTasks(s, permanent);
      ReachableInv(s);
      StepLowersMeasure(s, a);
      ReachStep(s, a);
      WorkersStay(s, a);
      var rest := DrainsBesidePermanentTasks(Apply(s, a), permanent);
      run := [a] + rest;
    }
  }

  lemma WorkersStay(s: Pool, a: Action)
    requires Enabled(s, a)
    ensures |Apply(s, a).workers| >= |s.workers|
  {
  }

  // ----- coming to rest

  /** A second ranking, in which a sleeper has nothing left to do. */
  function RestRank(pc: WorkerPc): nat { if pc == Asleep then 0 else WorkerRank(pc) }

  function CallRestRank(pc: CallPc): nat {
    match pc
    case Locking => 10
    case Locked => 9
    case Owing => 4
    case Returned => 0
    case Rejected => 0
  }

  /** Before its notify_all the destructor may still wake every worker. */
  function DestructorRestRank(s: Pool): nat {
    match s.destructor
    case Idle => 4 * |s.workers| + 5
    case Waiting => 4 * |s.workers| + 4
    case Holding => 4 * |s.workers| + 3
    case OwingAll => 4 * |s.workers| + 2
    case Joining(next) => if next <= |s.workers| then |s.workers| - next + 1 else 0
    case Gone => 0
  }

  function RestMeasure(s: Pool): nat {
    4 * |s.tasks| + Sum(RestRank, s.workers) + Sum(CallRestRank, s.calls) + DestructorRestRank(s)
  }

  /** What a step may add to the measure, and one more. */
  function Allowance(a: Action): nat {
    if a.BeginEnqueue? then 11 else if a.Spawn? then 8 else if a.Spurious? then 4 else 0
  }

  function Allowances(run: seq<Action>): nat {
    if run == [] then 0 else Allowance(run[0]) + Allowances(run[1..])
  }

  lemma {:induction false} WakeAllRests(workers: seq<WorkerPc>)
    ensures Sum(RestRank, WakeAll(workers)) <= Sum(RestRank, workers) + 3 * |workers|
  {
    if workers != [] {
      var n := |workers| - 1;
      WakeAllRests(workers[..n]);
      assert WakeAll(workers)[..n] == WakeAll(workers[..n]);
    }
  }

  /** Every step lowers the second measure, but for a new enqueue, a new worker and a spurious
      wakeup, which raise it by a constant. */
  lemma StepLowersRestMeasure(s: Pool, a: Action)
    requires LockInv(s) && StopInv(s) && Enabled(s, a)
    ensures RestMeasure(Apply(s, a)) + 1 <= RestMeasure(s) + Allowance(a)
  {
    hide Apply, Enabled, RestMeasure;
    match a
    case Spawn => RequestRests(s, a);
    case BeginEnqueue => RequestRests(s, a);
    case CallLock(c) => CallRests(s, a, c);
    case CallPush(c) => CallRests(s, a, c);
    case CallNotify(c, sleeper) => CallRests(s, a, c);
    case DestroyNotifyAll => NotifyAllRests(s);
    case BeginDestroy => DestructorRests(s, a);
    case DestroyLock => DestructorRests(s, a);
    case DestroyStop => DestructorRests(s, a);
    case DestroyJoin => DestructorRests(s, a);
    case _ => WorkerRests(s, a);
  }

  lemma RequestRests(s: Pool, a: Action)
    requires Enabled(s, a) && (a.Spawn? || a.BeginEnqueue?)
    ensures RestMeasure(Apply(s, a)) + 1 <= RestMeasure(s) + Allowance(a)
  {
    hide Sum;
    SumAppend(RestRank, s.workers, Ready);
    SumAppend(CallRestRank, s.calls, Locking);
  }

  lemma NotifyAllRests(s: Pool)
    requires Enabled(s, DestroyNotifyAll)
    ensures RestMeasure(Apply(s, DestroyNotifyAll)) + 1 <= RestMeasure(s)
  {
    hide Sum;
    WakeAllRests(s.workers);
  }

  lemma DestructorRests(s: Pool, a: Action)
    requires StopInv(s) && Enabled(s, a) && (a.BeginDestroy? || a.DestroyLock? || a.DestroyStop? || a.DestroyJoin?)
    ensures RestMeasure(Apply(s, a)) + 1 <= RestMeasure(s)
  {
    hide Sum;
  }

  lemma WorkerRests(s: Pool, a: Action)
    requires Enabled(s, a) && ByWorker(a)
    ensures RestMeasure(Apply(s, a)) + 1 <= RestMeasure(s) + Allowance(a)
  {
    var r := Apply(s, a);
    var pc := r.workers[a.w];
    assert r == r.(workers := s.workers[a.w := pc]) && r.calls == s.calls && r.destructor == s.destructor;
    assert 4 * |r.tasks| + RestRank(pc) + 1 <= 4 * |s.tasks| + RestRank(s.workers[a.w]) + Allowance(a);
    hide Enabled, Apply, RestRank, Allowance, CallRestRank;
    SumUpdate(RestRank, s.workers, a.w, pc);
  }

  lemma CallRests(s: Pool, a: Action, c: nat)
    requires Enabled(s, a)
    requires a == CallLock(c) || a == CallPush(c) || (a.CallNotify? && a.c == c)
    ensures RestMeasure(Apply(s, a)) + 1 <= RestMeasure(s)
  {
    hide Sum;
    SumUpdate(CallRestRank, s.calls, c, Apply(s, a).calls[c]);
    if a.CallNotify? && a.sleeper.Some? {
      SumUpdate(RestRank, s.workers, a.sleeper.value, Signalled);
    }
  }

  /** The length of any run is bounded by its enqueues, its new workers and its spurious wakeups,
      whatever the scheduler does, stopped or not: an idle pool sleeps. */
  lemma {:induction false} RunIsBounded(s: Pool, run: seq<Action>)
    requires Inv(s) && Runnable(s, run)
    ensures |run| + RestMeasure(Exec(s, run)) <= RestMeasure(s) + Allowances(run)
    decreases |run|
  {
    hide RestMeasure, Enabled, Apply;
    if run != [] {
      StepLowersRestMeasure(s, run[0]);
      InvPreserved(s, run[0]);
      RunIsBounded(Apply(s, run[0]), run[1..]);
    }
  }

  /** A step that the pool takes without being asked to and without a spurious wakeup. */
  predicate Own(a: Action) { Internal(a) && !a.Spurious? }

  ghost predicate Stuck(s: Pool) { forall a :: Own(a) ==> !Enabled(s, a) }

  predicate AtRest(pc: WorkerPc) { pc == Asleep || pc == Exited }

  predicate Idles(s: Pool) {
    && s.destructor in {Idle, Gone}
    && (forall c :: 0 <= c < |s.calls| ==> Settled(s.calls[c]))
    && (forall w :: 0 <= w < |s.workers| ==> AtRest(s.workers[w]))
    && (s.workers != [] ==> s.tasks == [])
  }

  lemma StuckIsUnowned(s: Pool)
    requires LockInv(s) && StopInv(s) && Stuck(s)
    ensures s.owner == Nobody && s.destructor !in {Waiting, OwingAll}
  {
    if s.owner != Nobody {
      var a := OwnerMoves(s);
      assert Own(a);
    } else {
      assert !Enabled(s, DestroyLock) && !Enabled(s, DestroyNotifyAll);
    }
  }

  lemma StuckWorker(s: Pool, w: nat)
    requires LockInv(s) && Stuck(s) && s.owner == Nobody && w < |s.workers|
    ensures AtRest(s.workers[w])
  {
    assert !Enabled(s, WorkerLock(w)) && !Enabled(s, WorkerFinish(w));
  }

  lemma StuckCall(s: Pool, c: nat)
    requires LockInv(s) && Stuck(s) && s.owner == Nobody && c < |s.calls|
    ensures Settled(s.calls[c])
  {
    if !Settled(s.calls[c]) {
      var a := PendingCallMoves(s, c);
      assert Own(a);
    }
  }

  lemma {:induction false} NoCredit(workers: seq<WorkerPc>)
    requires forall w :: 0 <= w < |workers| ==> AtRest(workers[w])
    ensures Sum(WorkerCredit, workers) == 0
  {
    if workers != [] {
      NoCredit(workers[..|workers| - 1]);
    }
  }

  lemma {:induction false} NoCallCredit(calls: seq<CallPc>)
    requires forall c :: 0 <= c < |calls| ==> Settled(calls[c])
    ensures Sum(CallCredit, calls) == 0
  {
    if calls != [] {
      NoCallCredit(calls[..|calls| - 1]);
    }
  }

  lemma RestersLeaveNoTask(s: Pool)
    requires StopInv(s) && WakeInv(s) && s.workers != []
    requires forall w :: 0 <= w < |s.workers| ==> AtRest(s.workers[w])
    requires forall c :: 0 <= c < |s.calls| ==> Settled(s.calls[c])
    ensures s.tasks == []
  {
    NoCredit(s.workers);
    NoCallCredit(s.calls);
    assert s.workers[0] in s.workers;
  }

  /** Nothing can move on its own exactly when every call has settled, every worker sleeps or has
      exited, no task is left to a worker, and no destruction is under way. */
  lemma StuckOnlyWhenIdle(s: Pool)
    requires Reachable(s)
    ensures Stuck(s) <==> Idles(s)
  {
    hide Reachable, FifoInv, RunInv, RejectInv, Stuck;
    ReachableInv(s);
    if Stuck(s) {
      StuckIsUnowned(s);
      forall w | 0 <= w < |s.workers| ensures AtRest(s.workers[w]) { StuckWorker(s, w); }
      forall c | 0 <= c < |s.calls| ensures Settled(s.calls[c]) { StuckCall(s, c); }
      if s.workers != [] { RestersLeaveNoTask(s); }
      StuckDoesNotJoin(s);
    }
    if Idles(s) { IdleIsStuck(s); }
  }

  lemma StuckDoesNotJoin(s: Pool)
    requires StopInv(s) && Stuck(s) && forall w :: 0 <= w < |s.workers| ==> AtRest(s.workers[w])
    ensures !s.destructor.Joining?
  {
    assert forall w :: 0 <= w < |s.workers| ==> s.workers[w] in s.workers;
    assert s.destructor.Joining? ==> Enabled(s, DestroyJoin);
    assert Own(DestroyJoin);
  }

  lemma IdleIsStuck(s: Pool)
    requires LockInv(s) && Idles(s)
    ensures Stuck(s)
  {
    forall a | Own(a) ensures !Enabled(s, a) {
      if ByWorker(a) && a.w < |s.workers| { assert AtRest(s.workers[a.w]); }
    }
  }

  lemma {:induction false} PoolSettles(s: Pool) returns (run: seq<Action>)
    requires Inv(s)
    ensures Runnable(s, run) && Stuck(Exec(s, run))
    ensures forall a :: a in run ==> Own(a)
    decreases RestMeasure(s)
  {
    hide RestMeasure, Enabled, Apply;
    if Stuck(s) {
      run := [];
    } else {
      var a :| Own(a) && Enabled(s, a);
      StepLowersRestMeasure(s, a);
      InvPreserved(s, a);
      var rest := PoolSettles(Apply(s, a));
      run := [a] + rest;
    }
  }

  predicate AllDone(s: Pool) {
    && multiset(s.finished) == multiset(s.accepted)
    && (!s.stop ==> forall c :: 0 <= c < |s.calls| ==> c in s.finished)
  }

  lemma IdleIsDone(s: Pool)
    requires Reachable(s) && Stuck(s) && s.workers != []
    ensures AllDone(s)
  {
    hide Reachable, Stuck, LockInv, StopInv, WakeInv, FifoInv, RunInv, AllDone;
    StuckOnlyWhenIdle(s);
    ReachableInv(s);
    FinishedAtRest(s);
    CallsFinished(s);
  }

  lemma FinishedAtRest(s: Pool)
    requires FifoInv(s) && RunInv(s) && Idles(s) && s.workers != []
    ensures multiset(s.finished) == multiset(s.accepted)
  {
    GatherEmpty(RunningTask, s.workers);
    hide Gather;
    assert s.started + [] == s.started;
  }

  lemma CallsFinished(s: Pool)
    requires FifoInv(s) && RejectInv(s) && Idles(s) && multiset(s.finished) == multiset(s.accepted)
    ensures AllDone(s)
  {
    if !s.stop {
      forall c | 0 <= c < |s.calls| ensures c in s.finished {
        assert Settled(s.calls[c]) && s.calls[c] != Rejected;
        assert multiset(s.accepted)[c] > 0;
      }
    }
  }

  /** In a pool with a worker every accepted task gets done: the pool comes to rest on its own steps,
      and wherever it does, what has finished is what was accepted, and unless it was stopped, what
      every caller of enqueue has brought. */
  lemma EveryTaskFinishes(s: Pool) returns (run: seq<Action>)
    requires Reachable(s) && s.workers != []
    ensures Runnable(s, run) && Stuck(Exec(s, run)) && forall a :: a in run ==> Own(a)
    ensures forall other :: Runnable(s, other) && Stuck(Exec(s, other)) ==> AllDone(Exec(s, other))
  {
    hide Stuck, Enabled, Apply, Inv, AllDone;
    ReachableInv(s);
    run := PoolSettles(s);
    forall other | Runnable(s, other) && Stuck(Exec(s, other)) ensures AllDone(Exec(s, other)) {
      ReachRun(s, other);
      ThreadsAreCounted(s, other);
      IdleIsDone(Exec(s, other));
    }
  }

  lemma {:induction false} ReachRun(s: Pool, run: seq<Action>)
    requires Reachable(s) && Runnable(s, run)
    ensures Reachable(Exec(s, run))
    decreases |run|
  {
    hide Reachable, Enabled, Apply;
    if run != [] {
      ReachStep(s, run[0]);
      ReachRun(Apply(s, run[0]), run[1..]);
    }
  }

  // ----- joining beside permanent tasks

  /** Some worker runs a permanent task, or one is queued for some worker. */
  predicate HoldsPermanent(s: Pool, permanent: set<Task>) {
    || (exists w :: 0 <= w < |s.workers| && s.workers[w].Running? && s.workers[w].task in permanent)
    || (s.workers != [] && exists task :: task in s.tasks && task in permanent)
  }

  /** Once stopped, the pool neither gets nor loses a permanent task without a return of one. */
  lemma HoldingStays(s: Pool, a: Action, permanent: set<Task>)
    requires Inv(s) && s.stop && Enabled(s, a) && SparesTasks(s, a, permanent)
    ensures HoldsPermanent(Apply(s, a), permanent) <==> HoldsPermanent(s, permanent)
  {
    hide WakeInv, FifoInv, RunInv, LockInv;
    if ByWorker(a) {
      HoldingStaysByWorker(s, a, permanent);
    } else if a.DestroyNotifyAll? || a.CallNotify? {
      var r := Apply(s, a);
      assert forall w :: 0 <= w < |s.workers| ==>
        (r.workers[w].Running? <==> s.workers[w].Running?) && (s.workers[w].Running? ==> r.workers[w] == s.workers[w]);
    }
  }

  lemma HoldingStaysByWorker(s: Pool, a: Action, permanent: set<Task>)
    requires StopInv(s) && s.stop && Enabled(s, a) && SparesTasks(s, a, permanent) && ByWorker(a)
    ensures HoldsPermanent(Apply(s, a), permanent) <==> HoldsPermanent(s, permanent)
  {
    var r := Apply(s, a);
    assert forall v :: 0 <= v < |s.workers| && v != a.w ==> r.workers[v] == s.workers[v];
    if a.WorkerProceed? && s.tasks != [] {
      assert r.workers[a.w] == Running(s.tasks[0]);
      assert forall task :: task in s.tasks <==> task == s.tasks[0] || task in r.tasks;
    }
  }

  lemma {:induction false} HoldingStaysOnRun(s: Pool, run: seq<Action>, permanent: set<Task>)
    requires Inv(s) && s.stop && Runnable(s, run) && SparingRun(s, run, permanent)
    ensures HoldsPermanent(Exec(s, run), permanent) <==> HoldsPermanent(s, permanent)
    ensures Inv(Exec(s, run))
    decreases |run|
  {
    hide HoldsPermanent, Inv;
    if run != [] {
      HoldingStays(s, run[0], permanent);
      StopStays(s, run[0]);
      InvPreserved(s, run[0]);
      HoldingStaysOnRun(Apply(s, run[0]), run[1..], permanent);
    }
  }

  lemma StopStays(s: Pool, a: Action)
    requires s.stop && Enabled(s, a)
    ensures Apply(s, a).stop
  {
  }

  /** Without a permanent task, every run of a stopped pool spares them. */
  lemma {:induction false} NothingToSpare(s: Pool, run: seq<Action>, permanent: set<Task>)
    requires Inv(s) && s.stop && Runnable(s, run) && !HoldsPermanent(s, permanent)
    ensures SparingRun(s, run, permanent)
    decreases |run|
  {
    hide Inv;
    if run != [] {
      assert SparesTasks(s, run[0], permanent);
      hide HoldsPermanent;
      HoldingStays(s, run[0], permanent);
      StopStays(s, run[0]);
      InvPreserved(s, run[0]);
      NothingToSpare(Apply(s, run[0]), run[1..], permanent);
    }
  }

  lemma JoinedHoldsNothing(s: Pool, permanent: set<Task>)
    requires Inv(s) && s.destructor == Gone
    ensures !HoldsPermanent(s, permanent)
  {
    hide WakeInv, FifoInv, RunInv, LockInv;
    if s.workers != [] {
      assert s.workers[0] in s.workers;
    }
  }

  /** A stopped pool can be joined without the return of a permanent task exactly when no worker
      runs one and none is queued for a worker. */
  lemma JoinsExactlyWithoutPermanentTasks(s: Pool, permanent: set<Task>)
    requires Reachable(s) && s.stop
    ensures (exists run :: Runnable(s, run) && SparingRun(s, run, permanent) && Exec(s, run).destructor == Gone)
       <==> !HoldsPermanent(s, permanent)
  {
    hide HoldsPermanent, Inv;
    ReachableInv(s);
    if !HoldsPermanent(s, permanent) {
      var run := ShutdownCompletes(s);
      NothingToSpare(s, run, permanent);
    }
    forall run | Runnable(s, run) && SparingRun(s, run, permanent) && Exec(s, run).destructor == Gone
      ensures !HoldsPermanent(s, permanent)
    {
      HoldingStaysOnRun(s, run, permanent);
      JoinedHoldsNothing(Exec(s, run), permanent);
    }
  }

  // ----- rejected calls are invisible

  /** The critical section of the call of that index. */
  predicate ActsFor(a: Action, c: nat) { a == CallLock(c) || a == CallPush(c) }

  function WithoutCall(run: seq<Action>, c: nat): seq<Action> {
    if run == [] then []
    else (if ActsFor(run[0], c) then [] else [run[0]]) + WithoutCall(run[1..], c)
  }

  /** The state in which that call has not been served yet. */
  function Unserved(s: Pool, c: nat): Pool {
    if c < |s.calls|
    then s.(calls := s.calls[c := Locking], owner := if s.owner == Caller(c) then Nobody else s.owner)
    else s
  }

  predicate NotAccepted(s: Pool, c: nat) { c < |s.calls| ==> s.calls[c] in {Locking, Locked, Rejected} }

  /** A call once accepted is never rejected. */
  lemma {:induction false} AcceptedStays(s: Pool, run: seq<Action>, c: nat)
    requires Runnable(s, run) && NotAccepted(Exec(s, run), c)
    ensures NotAccepted(s, c)
    decreases |run|
  {
    if run != [] {
      AcceptedStays(Apply(s, run[0]), run[1..], c);
    }
  }

  lemma OwnStepIsInvisible(s: Pool, a: Action, c: nat)
    requires Enabled(s, a) && ActsFor(a, c) && NotAccepted(Apply(s, a), c) && LockInv(s)
    ensures Unserved(Apply(s, a), c) == Unserved(s, c)
  {
    assert Apply(s, a).calls[c := Locking] == s.calls[c := Locking];
  }

  lemma OtherStepIsUndisturbed(s: Pool, a: Action, c: nat)
    requires Enabled(s, a) && !ActsFor(a, c) && NotAccepted(s, c) && NotAccepted(Apply(s, a), c) && LockInv(s)
    ensures Enabled(Unserved(s, c), a) && Apply(Unserved(s, c), a) == Unserved(Apply(s, a), c)
  {
    if a.CallLock? || a.CallPush? || a.CallNotify? || a.BeginEnqueue? {
      OtherCallIsUndisturbed(s, a, c);
    } else {
      assert Enabled(Unserved(s, c), a);
    }
  }

  lemma OtherCallIsUndisturbed(s: Pool, a: Action, c: nat)
    requires Enabled(s, a) && !ActsFor(a, c) && NotAccepted(s, c) && NotAccepted(Apply(s, a), c) && LockInv(s)
    requires a.CallLock? || a.CallPush? || a.CallNotify? || a.BeginEnqueue?
    ensures Enabled(Unserved(s, c), a) && Apply(Unserved(s, c), a) == Unserved(Apply(s, a), c)
  {
    var (u, r) := (Unserved(s, c), Apply(s, a));
    match a
    case BeginEnqueue => assert Apply(u, a).calls == Unserved(r, c).calls;
    case CallLock(d) => OtherCall(s.calls, c, d, r.calls[d]);
    case CallPush(d) => OtherCall(s.calls, c, d, r.calls[d]);
    case CallNotify(d, _) => OtherCall(s.calls, c, d, r.calls[d]);
  }

  lemma OtherCall(calls: seq<CallPc>, c: nat, d: nat, pc: CallPc)
    requires d < |calls| && d != c
    ensures c < |calls| ==> calls[c := Locking][d := pc] == calls[d := pc][c := Locking]
  {
  }

  /** Deleting the critical section of a rejected call from a run leaves a run, whose end differs
      in that call alone: the queue, the workers and every history are the same. */
  lemma {:induction false} RejectedCallIsInvisible(s: Pool, run: seq<Action>, c: nat)
    requires Inv(s) && Runnable(s, run) && NotAccepted(Exec(s, run), c)
    ensures Runnable(Unserved(s, c), WithoutCall(run, c))
    ensures Exec(Unserved(s, c), WithoutCall(run, c)) == Unserved(Exec(s, run), c)
    decreases |run|
  {
    hide Inv, Enabled, Apply, Unserved, ActsFor;
    if run != [] {
      var a := run[0];
      AcceptedStays(s, run, c);
      AcceptedStays(Apply(s, a), run[1..], c);
      InvPreserved(s, a);
      InvHasLock(s);
      RejectedCallIsInvisible(Apply(s, a), run[1..], c);
      if ActsFor(a, c) {
        OwnStepIsInvisible(s, a, c);
        assert WithoutCall(run, c) == WithoutCall(run[1..], c);
      } else {
        OtherStepIsUndisturbed(s, a, c);
        assert WithoutCall(run, c)[1..] == WithoutCall(run[1..], c);
      }
    }
  }

  lemma InvHasLock(s: Pool)
    requires Inv(s)
    ensures LockInv(s)
  {
  }

  // ----- the object

  /** The pool's fields, changed in place.  Each method is one step of one thread, and its
      specification is the step function above; `owner` stands for `queue_mutex`, and a worker
      that is `Asleep` is in the wait set of `condition`. */
  class ThreadPool {
    var owner: Owner
    var stop: bool
    var tasks: seq<Task>
    var workers: seq<WorkerPc>
    var calls: seq<CallPc>
    var destructor: DestructorPc
    ghost var accepted: seq<Task>
    ghost var started: seq<Task>
    ghost var finished: seq<Task>

    ghost function State(): Pool
      reads this
    {
      Pool(owner, stop, tasks, workers, calls, destructor, accepted, started, finished)
    }

    constructor ()
      ensures State() == Initial()
    {
      owner, stop, tasks, workers, calls, destructor := Nobody, false, [], [], [], Idle;
      accepted, started, finished := [], [], [];
    }

    /** One round of the loop in `init`. */
    method SpawnWorker()
      requires Enabled(State(), Spawn)
      modifies this
      ensures State() == Apply(old(State()), Spawn)
    {
      workers := workers + [Ready];
    }

    /** A worker takes the mutex, at the top of its loop or on the way out of the wait. */
    method LockAsWorker(w: nat)
      requires Enabled(State(), WorkerLock(w))
      modifies this
      ensures State() == Apply(old(State()), WorkerLock(w))
    {
      owner := Worker(w);
      workers := workers[w := Testing];
    }

    /** The predicate of `condition.wait`; a false answer releases the mutex and sleeps. */
    method TestWaitPredicate(w: nat)
      requires Enabled(State(), WorkerTest(w))
      modifies this
      ensures State() == Apply(old(State()), WorkerTest(w))
    {
      if stop || tasks != [] {
        workers := workers[w := Awake];
      } else {
        workers := workers[w := Asleep];
        owner := Nobody;
      }
    }

    /** Return if stopped and drained, else take the front task; either way unlock. */
    method TakeTask(w: nat)
      requires Enabled(State(), WorkerProceed(w))
      modifies this
      ensures State() == Apply(old(State()), WorkerProceed(w))
    {
      if stop && tasks == [] {
        workers := workers[w := Exited];
      } else {
        var task := tasks[0];
        tasks := tasks[1..];
        started := started + [task];
        workers := workers[w := Running(task)];
      }
      owner := Nobody;
    }

    method FinishTask(w: nat)
      requires Enabled(State(), WorkerFinish(w))
      modifies this
      ensures State() == Apply(old(State()), WorkerFinish(w))
    {
      finished := finished + [workers[w].task];
      workers := workers[w := Ready];
    }

    method SpuriousWakeup(w: nat)
      requires Enabled(State(), Spurious(w))
      modifies this
      ensures State() == Apply(old(State()), Spurious(w))
    {
      workers := workers[w := Signalled];
    }

    method StartEnqueue() returns (c: nat)
      modifies this
      ensures c == old(|calls|) && State() == Apply(old(State()), BeginEnqueue)
    {
      c := |calls|;
      calls := calls + [Locking];
    }

    method LockAsCaller(c: nat)
      requires Enabled(State(), CallLock(c))
      modifies this
      ensures State() == Apply(old(State()), CallLock(c))
    {
      owner := Caller(c);
      calls := calls[c := Locked];
    }

    /** The locked block of `enqueue`: throw if stopped, else push; either way unlock. */
    method PushTask(c: nat)
      requires Enabled(State(), CallPush(c))
      modifies this
      ensures State() == Apply(old(State()), CallPush(c))
    {
      if stop {
        calls := calls[c := Rejected];
      } else {
        tasks := tasks + [c];
        accepted := accepted + [c];
        calls := calls[c := Owing];
      }
      owner := Nobody;
    }

    /** `condition.notify_one()`, after the block. */
    method NotifyOne(c: nat, sleeper: Option<nat>)
      requires Enabled(State(), CallNotify(c, sleeper))
      modifies this
      ensures State() == Apply(old(State()), CallNotify(c, sleeper))
    {
      if sleeper.Some? {
        workers := workers[sleeper.value := Signalled];
      }
      calls := calls[c := Returned];
    }

    method StartDestroy()
      requires Enabled(State(), BeginDestroy)
      modifies this
      ensures State() == Apply(old(State()), BeginDestroy)
    {
      destructor := Waiting;
    }

    method LockAsDestructor()
      requires Enabled(State(), DestroyLock)
      modifies this
      ensures State() == Apply(old(State()), DestroyLock)
    {
      owner := Destructor;
      destructor := Holding;
    }

    method SetStop()
      requires Enabled(State(), DestroyStop)
      modifies this
      ensures State() == Apply(old(State()), DestroyStop)
    {
      stop := true;
      owner := Nobody;
      destructor := OwingAll;
    }

    /** `condition.notify_all()`: empties the wait set, one sleeper after the other. */
    method NotifyAll()
      requires Enabled(State(), DestroyNotifyAll)
      modifies this
      ensures State() == Apply(old(State()), DestroyNotifyAll)
    {
      ghost var before := workers;
      for w := 0 to |workers|
        invariant State() == old(State()).(workers := workers)
        invariant |workers| == |before|
        invariant forall v :: 0 <= v < |before| ==> workers[v] == if v < w then Wake(before[v]) else before[v]
      {
        if workers[w] == Asleep {
          workers := workers[w := Signalled];
        }
      }
      assert workers == WakeAll(before);
      destructor := Joining(0);
    }

    /** One round of the join loop, or its end. */
    method JoinNext()
      requires Enabled(State(), DestroyJoin)
      modifies this
      ensures State() == Apply(old(State()), DestroyJoin)
    {
      destructor := if destructor.next < |workers| then Joining(destructor.next + 1) else Gone;
    }
  }
}
