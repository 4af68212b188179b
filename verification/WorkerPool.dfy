/** The tproxy worker pool: a queue guarded by a mutex, one condition variable, producers that
    notify after unlocking, and a destructor that drains the queue before its joins return.

    Every lock operation, wait, notification and hand-over is one step, so a run may interleave
    any number of workers and producers in any order, with spurious wakeups. */
module WorkerPool {

  datatype Task = Task(cfd: int, peerIp: string)

  /** Where a worker thread is in its loop. */
  datatype Worker =
    | Acquiring            // at the top of the loop, about to lock the mutex
    | Testing              // holds the mutex and evaluates the wait predicate
    | Sleeping             // blocked inside the wait, not yet signalled
    | Woken                // signalled (or woken spuriously), must lock the mutex again
    | Handling(task: Task) // runs the handler, mutex released
    | Exited

  datatype Mutex = Free | WorkerHolds(w: nat) | ProducerHolds(task: Task) | ShutdownHolds

  /** Progress of the destructor. */
  datatype Phase = Live | Locked | StopSet | Joining | Joined

  /** The pool, with three histories: tasks in push order, in pop order, and handled ones. */
  datatype State = State(
    workers: seq<Worker>,
    tasks: seq<Task>,
    stop: bool,
    mu: Mutex,
    signalled: bool,       // whether the worker holding the mutex was woken from the wait
    notifies: nat,         // pushes whose notify_one is still to come
    phase: Phase,
    enqueued: seq<Task>,
    taken: seq<Task>,
    handled: seq<Task>)

  datatype Step =
    | LockMutex(w: nat) | Take(w: nat) | Wait(w: nat) | Leave(w: nat)
    | Finish(w: nat) | Spurious(w: nat)
    | BeginEnqueue(task: Task) | Push | NotifyOne(w: nat) | NotifyNobody
    | BeginShutdown | SetStop | NotifyAll | JoinAll

  function Init(n: nat): State {
    State(seq(n, _ => Acquiring), [], false, Free, false, 0, Live, [], [], [])
  }

  predicate IsWorker(s: State, w: nat, pc: Worker) {
    w < |s.workers| && s.workers[w] == pc
  }

  predicate Enabled(s: State, step: Step) {
    match step
    case LockMutex(w) => s.mu.Free? && (IsWorker(s, w, Acquiring) || IsWorker(s, w, Woken))
    case Take(w) => IsWorker(s, w, Testing) && s.tasks != []
    case Wait(w) => IsWorker(s, w, Testing) && s.tasks == [] && !s.stop
    case Leave(w) => IsWorker(s, w, Testing) && s.tasks == [] && s.stop
    case Finish(w) => w < |s.workers| && s.workers[w].Handling?
    case Spurious(w) => IsWorker(s, w, Sleeping)
    case BeginEnqueue(_) => s.mu.Free? && s.phase.Live?
    case Push => s.mu.ProducerHolds?
    case NotifyOne(w) => s.notifies > 0 && IsWorker(s, w, Sleeping)
    case NotifyNobody => s.notifies > 0 && Sleeping !in s.workers
    // The owner destroys the pool only after its own enqueue calls have returned.
    case BeginShutdown => s.phase.Live? && s.mu.Free? && s.notifies == 0
    case SetStop => s.phase.Locked?
    case NotifyAll => s.phase.StopSet?
    case JoinAll => s.phase.Joining? && forall i :: 0 <= i < |s.workers| ==> s.workers[i].Exited?
  }

  function WakeAll(ws: seq<Worker>): (r: seq<Worker>)
    ensures |r| == |ws|
    ensures Sleeping !in r
    ensures forall i :: 0 <= i < |ws| ==> r[i] == if ws[i].Sleeping? then Woken else ws[i]
  {
    seq(|ws|, i requires 0 <= i < |ws| => if ws[i].Sleeping? then Woken else ws[i])
  }

  function Apply(s: State, step: Step): State
    requires Enabled(s, step)
  {
    match step
    case LockMutex(w) => s.(workers := s.workers[w := Testing], mu := WorkerHolds(w), signalled := s.workers[w].Woken?)
    case Take(w) =>
      s.(workers := s.workers[w := Handling(s.tasks[0])], mu := Free,
         tasks := s.tasks[1..], taken := s.taken + [s.tasks[0]])
    case Wait(w) => s.(workers := s.workers[w := Sleeping], mu := Free)
    case Leave(w) => s.(workers := s.workers[w := Exited], mu := Free)
    case Finish(w) =>
      s.(workers := s.workers[w := Acquiring], handled := s.handled + [s.workers[w].task])
    case Spurious(w) => s.(workers := s.workers[w := Woken])
    case BeginEnqueue(t) => s.(mu := ProducerHolds(t))
    case Push =>
      s.(mu := Free, tasks := s.tasks + [s.mu.task], notifies := s.notifies + 1,
         enqueued := s.enqueued + [s.mu.task])
    case NotifyOne(w) => s.(workers := s.workers[w := Woken], notifies := s.notifies - 1)
    case NotifyNobody => s.(notifies := s.notifies - 1)
    case BeginShutdown => s.(mu := ShutdownHolds, phase := Locked)
    case SetStop => s.(mu := Free, phase := StopSet, stop := true)
    case NotifyAll => s.(workers := WakeAll(s.workers), phase := Joining)
    case JoinAll => s.(phase := Joined)
  }

  ghost predicate ValidRun(s: State, steps: seq<Step>)
    decreases |steps|
  {
    steps == [] || (Enabled(s, steps[0]) && ValidRun(Apply(s, steps[0]), steps[1..]))
  }

  ghost function Final(s: State, steps: seq<Step>): State
    requires ValidRun(s, steps)
    decreases |steps|
  {
    if steps == [] then s else Final(Apply(s, steps[0]), steps[1..])
  }

  /** Nothing restricts the scheduler: whoever calls enqueue may get a free mutex while the pool lives, any
      worker that wants it may get it instead, any sleeper may be the one notified or wake by itself, and
      a handler may finish, at any time. */
  lemma AnySchedule(s: State, w: nat, task: Task)
    requires w < |s.workers|
    ensures s.mu == Free && s.phase == Live ==> Enabled(s, BeginEnqueue(task))
    ensures s.mu == Free && s.workers[w] in {Acquiring, Woken} ==> Enabled(s, LockMutex(w))
    ensures s.workers[w] == Sleeping ==>
              Enabled(s, Spurious(w)) && (s.notifies > 0 ==> Enabled(s, NotifyOne(w)))
              && Apply(s, Spurious(w)) == s.(workers := s.workers[w := Woken])
    ensures s.workers[w] == Handling(task) ==> Enabled(s, Finish(w))
  {
  }

  // ---- the invariant ----

  /** How many workers are running the handler on task t. */
  ghost function InHand(ws: seq<Worker>, t: Task): nat {
    if ws == [] then 0 else (if ws[0] == Handling(t) then 1 else 0) + InHand(ws[1..], t)
  }

  /** Workers that have been signalled and have not yet decided, plus notifications in flight. */
  ghost function Wakeups(s: State): nat {
    multiset(s.workers)[Woken] + (if s.mu.WorkerHolds? && s.signalled then 1 else 0) + s.notifies
  }

  ghost predicate MutexInv(s: State) {
    && (forall w :: 0 <= w < |s.workers| ==> (s.workers[w] == Testing <==> s.mu == WorkerHolds(w)))
    && (s.mu.WorkerHolds? ==> s.mu.w < |s.workers|)
    && (s.mu.ShutdownHolds? <==> s.phase.Locked?)
    && (s.mu.ProducerHolds? ==> s.phase.Live?)
  }

  ghost predicate ShutdownInv(s: State) {
    && (s.stop <==> s.phase.StopSet? || s.phase.Joining? || s.phase.Joined?)
    && (!s.phase.Live? ==> s.notifies == 0)
    && (Exited in s.workers ==> s.stop && s.tasks == [])
    && (s.phase.Joined? ==> forall i :: 0 <= i < |s.workers| ==> s.workers[i].Exited?)
  }

  ghost predicate WakeupInv(s: State) {
    Sleeping in s.workers ==>
      if s.stop then s.phase.StopSet? else |s.tasks| <= Wakeups(s)
  }

  ghost predicate HistoryInv(s: State) {
    && s.enqueued == s.taken + s.tasks
    && (s.workers == [] ==> s.taken == [])
    && forall t :: multiset(s.taken)[t] == multiset(s.handled)[t] + InHand(s.workers, t)
  }

  ghost predicate Inv(s: State) {
    MutexInv(s) && ShutdownInv(s) && WakeupInv(s) && HistoryInv(s)
  }

  lemma {:induction false} InHandUpdate(ws: seq<Worker>, w: nat, pc: Worker, t: Task)
    requires w < |ws|
    ensures InHand(ws[w := pc], t)
         == InHand(ws, t) - (if ws[w] == Handling(t) then 1 else 0) + (if pc == Handling(t) then 1 else 0)
  {
    if w == 0 {
      assert ws[w := pc][1..] == ws[1..];
    } else {
      assert ws[w := pc][1..] == ws[1..][w - 1 := pc];
      InHandUpdate(ws[1..], w - 1, pc, t);
    }
  }

  lemma {:induction false} InHandNone(ws: seq<Worker>, t: Task)
    requires Handling(t) !in ws
    ensures InHand(ws, t) == 0
  {
    if ws != [] { InHandNone(ws[1..], t); }
  }

  lemma {:induction false} InHandWakeAll(ws: seq<Worker>, t: Task)
    ensures InHand(WakeAll(ws), t) == InHand(ws, t)
  {
    if ws != [] {
      assert WakeAll(ws)[1..] == WakeAll(ws[1..]);
      InHandWakeAll(ws[1..], t);
    }
  }

  /** The worker a step moves, if it moves a single one. */
  function Mover(step: Step): int {
    match step
    case LockMutex(w) => w
    case Take(w) => w
    case Wait(w) => w
    case Leave(w) => w
    case Finish(w) => w
    case Spurious(w) => w
    case NotifyOne(w) => w
    case _ => -1
  }

  lemma StepMovesOneWorker(s: State, step: Step)
    requires Enabled(s, step) && !step.NotifyAll?
    ensures var ws, ws', w := s.workers, Apply(s, step).workers, Mover(step);
            if w < 0 then ws' == ws else w < |ws| && ws' == ws[w := ws'[w]]
  {
  }

  lemma InHandStep(s: State, step: Step, t: Task)
    requires Enabled(s, step)
    ensures InHand(Apply(s, step).workers, t) == InHand(s.workers, t)
              + (if step.Take? && s.tasks[0] == t then 1 else 0)
              - (if step.Finish? && s.workers[step.w] == Handling(t) then 1 else 0)
  {
    var ws' := Apply(s, step).workers;
    if step.NotifyAll? {
      InHandWakeAll(s.workers, t);
    } else {
      StepMovesOneWorker(s, step);
      var w := Mover(step);
      if w >= 0 { InHandUpdate(s.workers, w, ws'[w], t); }
    }
  }

  lemma CountSnoc(xs: seq<Task>, x: Task, t: Task)
    ensures multiset(xs + [x])[t] == multiset(xs)[t] + if x == t then 1 else 0
  {
  }

  lemma QueuePreserved(s: State, step: Step)
    requires s.enqueued == s.taken + s.tasks && Enabled(s, step)
    ensures Apply(s, step).enqueued == Apply(s, step).taken + Apply(s, step).tasks
  {
    if step.Take? { assert s.tasks == [s.tasks[0]] + s.tasks[1..]; }
  }

  lemma CountsPreserved(s: State, step: Step, t: Task)
    requires Enabled(s, step)
    requires multiset(s.taken)[t] == multiset(s.handled)[t] + InHand(s.workers, t)
    ensures var s' := Apply(s, step);
            multiset(s'.taken)[t] == multiset(s'.handled)[t] + InHand(s'.workers, t)
  {
    InHandStep(s, step, t);
    if step.Take? {
      CountSnoc(s.taken, s.tasks[0], t);
    } else if step.Finish? {
      CountSnoc(s.handled, s.workers[step.w].task, t);
    }
  }

  lemma HistoryPreserved(s: State, step: Step)
    requires HistoryInv(s) && Enabled(s, step)
    ensures HistoryInv(Apply(s, step))
  {
    var s' := Apply(s, step);
    QueuePreserved(s, step);
    forall t ensures multiset(s'.taken)[t] == multiset(s'.handled)[t] + InHand(s'.workers, t) {
      CountsPreserved(s, step, t);
    }
    if !step.NotifyAll? { StepMovesOneWorker(s, step); }
  }

  lemma WakeupPreserved(s: State, step: Step)
    requires MutexInv(s) && ShutdownInv(s) && WakeupInv(s) && Enabled(s, step)
    ensures WakeupInv(Apply(s, step))
  {
    var s' := Apply(s, step);
    if Sleeping in s'.workers && !step.Wait? && !step.NotifyAll? {
      var i :| 0 <= i < |s'.workers| && s'.workers[i] == Sleeping;
      assert s.workers[i] == Sleeping;
    }
  }

  lemma ControlPreserved(s: State, step: Step)
    requires Inv(s) && Enabled(s, step)
    ensures MutexInv(Apply(s, step)) && ShutdownInv(Apply(s, step))
  {
    if !step.NotifyAll? { StepMovesOneWorker(s, step); }
  }

  lemma {:induction false} InvPreserved(s: State, step: Step)
    requires Inv(s) && Enabled(s, step)
    ensures Inv(Apply(s, step))
  {
    ControlPreserved(s, step);
    HistoryPreserved(s, step);
    WakeupPreserved(s, step);
  }

  // ---- safety over whole runs ----

  lemma {:induction false} RunInv(s: State, steps: seq<Step>)
    requires Inv(s) && ValidRun(s, steps)
    ensures Inv(Final(s, steps)) && |Final(s, steps).workers| == |s.workers|
    decreases |steps|
  {
    if steps != [] {
      InvPreserved(s, steps[0]);
      RunInv(Apply(s, steps[0]), steps[1..]);
    }
  }

  lemma InitInv(n: nat)
    ensures Inv(Init(n))
  {
    forall t ensures InHand(Init(n).workers, t) == 0 { InHandNone(Init(n).workers, t); }
  }

  /** No lost wakeup: while a worker sleeps unsignalled and the pool is not stopped, every queued
      task is matched by a signalled worker or a notification in flight. */
  lemma {:induction false} NoLostWakeup(n: nat, steps: seq<Step>)
    requires ValidRun(Init(n), steps)
    ensures var s := Final(Init(n), steps);
            Sleeping in s.workers && !s.stop ==> |s.tasks| <= Wakeups(s)
    ensures var s := Final(Init(n), steps);
            Sleeping in s.workers && s.stop ==> s.phase.StopSet?
  {
    InitInv(n);
    RunInv(Init(n), steps);
  }

  // ---- what was handed over ----

  /** The tasks that enqueue was called with, in the order in which the calls got the mutex. */
  function Called(steps: seq<Step>): seq<Task> {
    if steps == [] then []
    else (if steps[0].BeginEnqueue? then [steps[0].task] else []) + Called(steps[1..])
  }

  /** The task of the producer inside enqueue, not yet pushed. */
  function Pending(s: State): seq<Task> {
    if s.mu.ProducerHolds? then [s.mu.task] else []
  }

  lemma StepCalled(s: State, step: Step)
    requires MutexInv(s) && Enabled(s, step)
    ensures Apply(s, step).enqueued + Pending(Apply(s, step)) == s.enqueued + Pending(s) + Called([step])
  {
    assert [step][1..] == [];
  }

  lemma CalledSplit(steps: seq<Step>)
    requires steps != []
    ensures Called(steps) == Called([steps[0]]) + Called(steps[1..])
  {
    assert [steps[0]][1..] == [];
  }

  /** Every task handed over enters the pool as it is, in the order of the calls. */
  lemma {:induction false} RunCalled(s: State, steps: seq<Step>)
    requires Inv(s) && ValidRun(s, steps)
    ensures Final(s, steps).enqueued + Pending(Final(s, steps)) == s.enqueued + Pending(s) + Called(steps)
    decreases |steps|
  {
    hide Inv, Apply, Enabled, Pending, Called;
    if steps == [] {
      assert Called([]) == [] by { NothingCalled(); }
    } else {
      var s' := Apply(s, steps[0]);
      InvPreserved(s, steps[0]);
      InvHasMutex(s);
      StepCalled(s, steps[0]);
      RunCalled(s', steps[1..]);
      CalledSplit(steps);
    }
  }

  lemma NothingCalled()
    ensures Called([]) == []
  {
  }

  lemma InvHasMutex(s: State)
    requires Inv(s)
    ensures MutexInv(s)
  {
  }

  lemma CalledFromStart(n: nat, steps: seq<Step>)
    requires ValidRun(Init(n), steps)
    ensures var s := Final(Init(n), steps);
            Called(steps) == s.enqueued + Pending(s) && Inv(s) && |s.workers| == n
  {
    InitInv(n);
    RunInv(Init(n), steps);
    RunCalled(Init(n), steps);
  }

  /** Tasks leave the queue in the order in which enqueue was called with them, none changed, none lost
      and none duplicated; and no worker exits while a task is queued. */
  lemma {:induction false} FifoAndConservation(n: nat, steps: seq<Step>)
    requires ValidRun(Init(n), steps)
    ensures var s := Final(Init(n), steps);
            && Called(steps) == s.taken + s.tasks + Pending(s)
            && (forall t :: multiset(Called(steps))[t]
                   == multiset(Pending(s))[t] + multiset(s.tasks)[t] + InHand(s.workers, t) + multiset(s.handled)[t])
            && (Exited in s.workers ==> s.tasks == [])
  {
    CalledFromStart(n, steps);
  }

  /** The mutex excludes: at most one worker is inside the critical section, and none while a
      producer or the destructor holds the mutex. */
  lemma {:induction false} MutualExclusion(n: nat, steps: seq<Step>, v: nat, w: nat)
    requires ValidRun(Init(n), steps)
    requires IsWorker(Final(Init(n), steps), v, Testing) && IsWorker(Final(Init(n), steps), w, Testing)
    ensures v == w && !Final(Init(n), steps).mu.ProducerHolds? && !Final(Init(n), steps).mu.ShutdownHolds?
  {
    InitInv(n);
    RunInv(Init(n), steps);
  }

  /** When the destructor's joins have returned, every task that enqueue was called with has been
      handled, exactly when the pool has a worker or enqueue was never called. */
  lemma {:induction false} JoinedMeansDrained(n: nat, steps: seq<Step>)
    requires ValidRun(Init(n), steps) && Final(Init(n), steps).phase.Joined?
    ensures multiset(Final(Init(n), steps).handled) == multiset(Called(steps)) <==> n > 0 || Called(steps) == []
  {
    CalledFromStart(n, steps);
    var s := Final(Init(n), steps);
    assert Called(steps) == s.enqueued;
    forall t ensures InHand(s.workers, t) == 0 { InHandNone(s.workers, t); }
    if n > 0 {
      assert s.workers[0] == Exited;
      assert forall t :: multiset(s.handled)[t] == multiset(s.enqueued)[t];
    } else {
      assert forall t :: multiset(s.handled)[t] == 0;
      if s.enqueued != [] { assert multiset(s.enqueued)[s.enqueued[0]] > 0; }
    }
  }

  // ---- progress ----

  /** Steps the pool takes by itself: everything but new calls and spurious wakeups. */
  predicate Internal(step: Step) {
    !step.BeginEnqueue? && !step.BeginShutdown? && !step.Spurious?
  }

  ghost predicate Quiescent(s: State) {
    forall step :: Internal(step) ==> !Enabled(s, step)
  }

  ghost function Weight(pc: Worker): nat {
    match pc
    case Sleeping | Exited => 0
    case Testing => 1
    case Acquiring | Woken => 2
    case Handling(_) => 3
  }

  ghost function Weights(ws: seq<Worker>): nat {
    if ws == [] then 0 else Weight(ws[0]) + Weights(ws[1..])
  }

  /** Bounds how many internal steps the pool can still take. */
  ghost function Potential(s: State): nat {
    Weights(s.workers) + 3 * |s.tasks| + 3 * s.notifies
    + (if s.mu.ProducerHolds? then 7 else 0)
    + match s.phase
      case Locked => 2 * |s.workers| + 3
      case StopSet => 2 * |s.workers| + 2
      case Joining => 1
      case _ => 0
  }

  lemma {:induction false} WeightsUpdate(ws: seq<Worker>, w: nat, pc: Worker)
    requires w < |ws|
    ensures Weights(ws[w := pc]) == Weights(ws) - Weight(ws[w]) + Weight(pc)
  {
    if w == 0 {
      assert ws[w := pc][1..] == ws[1..];
    } else {
      assert ws[w := pc][1..] == ws[1..][w - 1 := pc];
      WeightsUpdate(ws[1..], w - 1, pc);
    }
  }

  lemma {:induction false} WeightsWakeAll(ws: seq<Worker>)
    ensures Weights(WakeAll(ws)) <= Weights(ws) + 2 * |ws|
  {
    if ws != [] {
      assert WakeAll(ws)[1..] == WakeAll(ws[1..]);
      WeightsWakeAll(ws[1..]);
    }
  }

  lemma InternalStepDecreases(s: State, step: Step)
    requires Enabled(s, step) && Internal(step)
    ensures Potential(Apply(s, step)) < Potential(s)
  {
    if step.NotifyAll? {
      WeightsWakeAll(s.workers);
    } else {
      StepMovesOneWorker(s, step);
      var w := Mover(step);
      if w >= 0 { WeightsUpdate(s.workers, w, Apply(s, step).workers[w]); }
    }
  }

  lemma {:induction false} InternalRunBounded(s: State, steps: seq<Step>)
    requires ValidRun(s, steps) && forall i :: 0 <= i < |steps| ==> Internal(steps[i])
    ensures |steps| + Potential(Final(s, steps)) <= Potential(s)
    decreases |steps|
  {
    if steps != [] {
      InternalStepDecreases(s, steps[0]);
      InternalRunBounded(Apply(s, steps[0]), steps[1..]);
    }
  }

  lemma TestingCanMove(s: State, w: nat)
    requires IsWorker(s, w, Testing)
    ensures !Quiescent(s)
  {
    var step := if s.tasks != [] then Take(w) else if s.stop then Leave(w) else Wait(w);
    assert Enabled(s, step);
  }

  lemma QuiescentWorker(s: State, i: nat)
    requires Inv(s) && Quiescent(s) && i < |s.workers|
    ensures s.workers[i] == Sleeping || s.workers[i] == Exited
    ensures s.mu.Free?
  {
    assert !Enabled(s, Push) && !Enabled(s, SetStop);
    assert s.mu.WorkerHolds? ==> IsWorker(s, s.mu.w, Testing);
    forall w: nat ensures !IsWorker(s, w, Testing) {
      if IsWorker(s, w, Testing) { TestingCanMove(s, w); }
    }
    assert !Enabled(s, LockMutex(i)) && !Enabled(s, Finish(i));
  }

  /** A pool with a worker that can take no step by itself has handled everything it was given:
      its workers all sleep, or it is stopped, joined and all have exited. */
  lemma {:induction false} QuiescentMeansDrained(s: State)
    requires Inv(s) && Quiescent(s) && s.workers != []
    ensures s.tasks == [] && s.notifies == 0 && s.mu.Free?
    ensures multiset(s.handled) == multiset(s.enqueued)
    ensures if s.stop then s.phase.Joined? && forall i :: 0 <= i < |s.workers| ==> s.workers[i] == Exited
            else s.phase.Live? && forall i :: 0 <= i < |s.workers| ==> s.workers[i] == Sleeping
  {
    forall i: nat | i < |s.workers|
      ensures (s.workers[i] == Sleeping || s.workers[i] == Exited) && s.mu.Free?
    {
      QuiescentWorker(s, i);
    }
    assert s.mu.Free? by { assert 0 < |s.workers|; QuiescentWorker(s, 0); }
    assert !Enabled(s, NotifyNobody) && !Enabled(s, NotifyAll) && !Enabled(s, JoinAll);
    if Sleeping in s.workers {
      var i :| 0 <= i < |s.workers| && s.workers[i] == Sleeping;
      assert !Enabled(s, NotifyOne(i));
      assert !s.stop && multiset(s.workers)[Woken] == 0 && multiset(s.workers)[Testing] == 0;
    } else {
      assert s.workers[0] == Exited;
    }
    forall t ensures InHand(s.workers, t) == 0 { InHandNone(s.workers, t); }
    assert forall t :: multiset(s.handled)[t] == multiset(s.enqueued)[t];
  }

  lemma {:induction false} RunConcat(s: State, a: seq<Step>, b: seq<Step>)
    requires ValidRun(s, a) && ValidRun(Final(s, a), b)
    ensures ValidRun(s, a + b) && Final(s, a + b) == Final(Final(s, a), b)
    decreases |a|
  {
    hide Enabled, Apply;
    if a == [] {
      assert a + b == b;
    } else {
      assert (a + b)[1..] == a[1..] + b && (a + b)[0] == a[0];
      RunConcat(Apply(s, a[0]), a[1..], b);
    }
  }

  lemma {:induction false} CalledConcat(a: seq<Step>, b: seq<Step>)
    ensures Called(a + b) == Called(a) + Called(b)
    decreases |a|
  {
    if a == [] {
      assert a + b == b;
    } else {
      assert (a + b)[1..] == a[1..] + b && (a + b)[0] == a[0];
      CalledConcat(a[1..], b);
    }
  }

  ghost predicate AllInternal(steps: seq<Step>) {
    forall i :: 0 <= i < |steps| ==> Internal(steps[i])
  }

  lemma {:induction false} InternalCallsNothing(steps: seq<Step>)
    requires AllInternal(steps)
    ensures Called(steps) == []
  {
    if steps != [] { InternalCallsNothing(steps[1..]); }
  }

  lemma AllInternalMeans(steps: seq<Step>)
    requires AllInternal(steps)
    ensures forall i :: 0 <= i < |steps| ==> Internal(steps[i])
  {
  }

  lemma DrainedWhere(s: State, steps: seq<Step>, n: nat)
    requires Inv(s) && Quiescent(s) && |s.workers| == n > 0 && Called(steps) == s.enqueued + Pending(s)
    ensures s.tasks == [] && multiset(s.handled) == multiset(Called(steps))
  {
    hide Inv, Quiescent, Called;
    QuiescentMeansDrained(s);
    assert Pending(s) == [] && s.enqueued + [] == s.enqueued;
  }

  /** From any reachable state, once no new calls and spurious wakeups arrive, the pool stops within a
      bounded number of steps, and where it stops every task that enqueue was called with is handled. */
  lemma {:induction false} PoolDrains(n: nat, steps: seq<Step>, tail: seq<Step>)
    requires n > 0 && ValidRun(Init(n), steps) && ValidRun(Final(Init(n), steps), tail) && AllInternal(tail)
    ensures |tail| <= Potential(Final(Init(n), steps))
    ensures var end := Final(Final(Init(n), steps), tail);
            Quiescent(end) ==> end.tasks == [] && multiset(end.handled) == multiset(Called(steps))
  {
    hide Inv, Quiescent, ValidRun, Final, Called, Potential, AllInternal;
    var s := Final(Init(n), steps);
    RunConcat(Init(n), steps, tail);
    CalledConcat(steps, tail);
    InternalCallsNothing(tail);
    CalledFromStart(n, steps);
    CalledFromStart(n, steps + tail);
    assert forall i :: 0 <= i < |tail| ==> Internal(tail[i]) by { AllInternalMeans(tail); }
    InternalRunBounded(s, tail);
    if Quiescent(Final(s, tail)) { DrainedWhere(Final(s, tail), steps + tail, n); }
  }

  // ---- every workload can be served ----

  lemma PhaseOfStep(s: State, step: Step)
    requires Enabled(s, step) && Internal(step)
    ensures Apply(s, step).phase.Live? <==> s.phase.Live?
  {
  }

  /** The pool can always run until it has nothing left to do by itself. */
  lemma {:induction false} Settle(s: State) returns (tail: seq<Step>)
    requires Inv(s)
    ensures ValidRun(s, tail) && AllInternal(tail) && Quiescent(Final(s, tail))
    ensures Final(s, tail).phase.Live? <==> s.phase.Live?
    decreases Potential(s)
  {
    hide Inv, Apply, Enabled, Internal, Potential;
    if Quiescent(s) {
      tail := [];
    } else {
      var step :| Internal(step) && Enabled(s, step);
      InvPreserved(s, step);
      InternalStepDecreases(s, step);
      PhaseOfStep(s, step);
      var more := Settle(Apply(s, step));
      tail := [step] + more;
      assert tail[1..] == more;
    }
  }

  /** Enqueues one task on an idle pool, which then runs until it is idle again. */
  lemma {:induction false} ServeOne(s: State, t: Task) returns (steps: seq<Step>)
    requires Inv(s) && Quiescent(s) && s.workers != [] && s.phase.Live?
    ensures ValidRun(s, steps) && Called(steps) == [t]
    ensures var e := Final(s, steps); Inv(e) && Quiescent(e) && |e.workers| == |s.workers| && e.phase.Live?
  {
    hide Inv, Quiescent;
    var two := [BeginEnqueue(t), Push];
    assert s.mu.Free? by { QuiescentMeansDrained(s); }
    var s1 := Apply(s, BeginEnqueue(t));
    var s2 := Apply(s1, Push);
    assert two[1..] == [Push] && [Push][1..] == [];
    assert ValidRun(s1, [Push]) && Final(s1, [Push]) == s2;
    assert ValidRun(s, two) && Final(s, two) == s2 && Called(two) == [t];
    InvPreserved(s, BeginEnqueue(t));
    InvPreserved(s1, Push);
    var tail := Settle(s2);
    InternalCallsNothing(tail);
    RunInv(s2, tail);
    RunConcat(s, two, tail);
    CalledConcat(two, tail);
    steps := two + tail;
  }

  lemma {:induction false} ServeAllThenStop(s: State, ts: seq<Task>) returns (steps: seq<Step>)
    requires Inv(s) && Quiescent(s) && s.workers != [] && s.phase.Live?
    ensures ValidRun(s, steps) && Called(steps) == ts && Final(s, steps).phase.Joined?
    decreases |ts|
  {
    hide Inv, Quiescent;
    if ts == [] {
      assert s.mu.Free? && s.notifies == 0 by { QuiescentMeansDrained(s); }
      var s1 := Apply(s, BeginShutdown);
      InvPreserved(s, BeginShutdown);
      var tail := Settle(s1);
      InternalCallsNothing(tail);
      RunInv(s1, tail);
      QuiescentMeansDrained(Final(s1, tail));
      steps := [BeginShutdown] + tail;
      assert steps[1..] == tail;
    } else {
      var first := ServeOne(s, ts[0]);
      var more := ServeAllThenStop(Final(s, first), ts[1..]);
      RunConcat(s, first, more);
      CalledConcat(first, more);
      steps := first + more;
      assert ts == [ts[0]] + ts[1..];
    }
  }

  /** No workload is refused: for any number of workers and any tasks there is a run in which enqueue is
      called with exactly these, all of them are handled, and the destructor returns. */
  lemma {:induction false} AnyWorkloadServed(n: nat, ts: seq<Task>) returns (steps: seq<Step>)
    requires n > 0
    ensures ValidRun(Init(n), steps) && Called(steps) == ts
    ensures var s := Final(Init(n), steps); s.phase.Joined? && multiset(s.handled) == multiset(ts)
  {
    InitInv(n);
    var start := Settle(Init(n));
    InternalCallsNothing(start);
    RunInv(Init(n), start);
    var more := ServeAllThenStop(Final(Init(n), start), ts);
    RunConcat(Init(n), start, more);
    CalledConcat(start, more);
    steps := start + more;
    JoinedMeansDrained(n, steps);
  }

  // ---- the object ----

  /** The pool as the object the threads share; each method is one atomic step on it. */
  class TproxyThreadPool {
    var workers: array<Worker>
    var tasks: seq<Task>
    var stop: bool
    var mu: Mutex
    ghost var signalled: bool
    var notifies: nat
    var phase: Phase
    ghost var enqueued: seq<Task>
    ghost var taken: seq<Task>
    ghost var handled: seq<Task>

    ghost function View(): State
      reads this, workers
    {
      State(workers[..], tasks, stop, mu, signalled, notifies, phase, enqueued, taken, handled)
    }

    constructor (n: nat)
      ensures View() == Init(n) && fresh(workers)
    {
      workers := new Worker[n](_ => Acquiring);
      tasks, stop, mu, notifies, phase := [], false, Free, 0, Live;
      signalled, enqueued, taken, handled := false, [], [], [];
      new;
      assert workers[..] == Init(n).workers;
    }

    /** The body of enqueue up to its unlock. */
    method PushTask()
      requires Enabled(View(), Push)
      modifies this
      ensures View() == Apply(old(View()), Push) && workers == old(workers)
    {
      var task := mu.task;
      tasks := tasks + [task];
      enqueued := enqueued + [task];
      notifies := notifies + 1;
      mu := Free;
    }

    /** The critical section of the worker loop: wait, return, or pop the front task. */
    method Decide(w: nat)
      requires IsWorker(View(), w, Testing)
      modifies this, workers
      ensures workers == old(workers)
      ensures View() == Apply(old(View()),
                              if old(tasks) != [] then Take(w) else if old(stop) then Leave(w) else Wait(w))
    {
      if tasks == [] && !stop {
        workers[w] := Sleeping;
      } else if stop && tasks == [] {
        workers[w] := Exited;
      } else {
        var task := tasks[0];
        tasks := tasks[1..];
        taken := taken + [task];
        workers[w] := Handling(task);
      }
      mu := Free;
    }

    /** Wakes the given sleeper, or nobody when no worker sleeps. */
    method NotifyOneWorker(w: nat)
      requires Enabled(View(), NotifyOne(w))
      modifies this, workers
      ensures View() == Apply(old(View()), NotifyOne(w)) && workers == old(workers)
    {
      workers[w] := Woken;
      notifies := notifies - 1;
    }

    /** The destructor's critical section. */
    method SetStopFlag()
      requires Enabled(View(), SetStop)
      modifies this
      ensures View() == Apply(old(View()), SetStop) && workers == old(workers)
    {
      stop := true;
      mu := Free;
      phase := StopSet;
    }

    /** The destructor's notify_all over every waiting worker. */
    method NotifyAllWorkers()
      requires Enabled(View(), NotifyAll)
      modifies this, workers
      ensures View() == Apply(old(View()), NotifyAll) && workers == old(workers)
    {
      for i := 0 to workers.Length
        invariant View() == old(View()).(workers := workers[..]) && workers == old(workers)
        invariant forall j :: 0 <= j < i ==> workers[j] == WakeAll(old(workers[..]))[j]
        invariant forall j :: i <= j < workers.Length ==> workers[j] == old(workers[..])[j]
      {
        if workers[i].Sleeping? {
          workers[i] := Woken;
        }
      }
      phase := Joining;
      assert workers[..] == WakeAll(old(workers[..]));
    }
  }
}
