/** The refresh scheduler under concurrency: any number of threads inside `submit`, among
    them the worker itself when a handler submits, and one worker inside its run loop, with
    every lock operation and every access to the queue or the event a step of its own. */
module SchedulerProtocol {
  import opened RefreshScheduler

  // ---- states and steps ----------------------------------------------------------------------

  /** The submit call a thread is in. */
  datatype Submit =
    | Calling(task: Task)    // wants the lock
    | Locked(task: Task)     // holds it, has not appended
    | Appended(task: Task)   // has appended, has not set the event
    | Woken(task: Task)      // has set the event, still holds the lock

  datatype Worker =
    | Testing                // about to test the stop flag
    | Waiting                // blocked on the event
    | Acquiring              // inside drain, wants the lock
    | Holding                // has it, has not looked at the queue
    | Cleared                // found the queue empty and cleared the event, still holds the lock
    | Popped(task: Task)     // took a task off, still holds the lock
    | Dispatching(task: Task)
    | Exited

  datatype Lock = Free | ByWorker | BySubmitter(thread: nat)

  datatype State = State(queue: seq<Task>, event: bool, stopped: bool, lock: Lock,
                         submitters: map<nat, Submit>, worker: Worker)

  /** The thread a handler's own submissions run on. */
  const WORKER_THREAD: nat := 0

  datatype Action =
    | Call(thread: nat, task: Task)
    | Acquire(thread: nat)
    | Append(thread: nat)
    | SetEvent(thread: nat)
    | Release(thread: nat)
    | StopFlag
    | StopEvent
    | TestStopped
    | WaitReturns
    | WaitTimesOut
    | DrainAcquire
    | DrainTest
    | DrainReturn
    | StartDispatch
    | FinishDispatch

  predicate Enabled(s: State, a: Action) {
    match a
    case Call(t, _) => t !in s.submitters && (t == WORKER_THREAD ==> s.worker.Dispatching?)
    case Acquire(t) => t in s.submitters && s.submitters[t].Calling? && s.lock == Free
    case Append(t) => t in s.submitters && s.submitters[t].Locked?
    case SetEvent(t) => t in s.submitters && s.submitters[t].Appended?
    case Release(t) => t in s.submitters && s.submitters[t].Woken?
    case StopFlag => true
    case StopEvent => s.stopped
    case TestStopped => s.worker.Testing?
    case WaitReturns => s.worker.Waiting? && s.event
    case WaitTimesOut => s.worker.Waiting? && !s.event
    case DrainAcquire => s.worker.Acquiring? && s.lock == Free
    case DrainTest => s.worker.Holding?
    case DrainReturn => s.worker.Cleared?
    case StartDispatch => s.worker.Popped?
    case FinishDispatch => s.worker.Dispatching? && WORKER_THREAD !in s.submitters
  }

  function Next(s: State, a: Action): State
    requires Enabled(s, a)
  {
    match a
    case Call(t, task) => s.(submitters := s.submitters[t := Calling(task)])
    case Acquire(t) => s.(lock := BySubmitter(t), submitters := s.submitters[t := Locked(s.submitters[t].task)])
    case Append(t) =>
      s.(queue := s.queue + [s.submitters[t].task], submitters := s.submitters[t := Appended(s.submitters[t].task)])
    case SetEvent(t) => s.(event := true, submitters := s.submitters[t := Woken(s.submitters[t].task)])
    case Release(t) => s.(lock := Free, submitters := s.submitters - {t})
    case StopFlag => s.(stopped := true)
    case StopEvent => s.(event := true)
    case TestStopped => s.(worker := if s.stopped then Exited else Waiting)
    case WaitReturns => s.(worker := Acquiring)
    case WaitTimesOut => s.(worker := Testing)
    case DrainAcquire => s.(lock := ByWorker, worker := Holding)
    case DrainTest =>
      if s.queue == [] then s.(event := false, worker := Cleared)
      else s.(queue := s.queue[1..], worker := Popped(s.queue[0]))
    case DrainReturn => s.(lock := Free, worker := Testing)
    case StartDispatch => s.(lock := Free, worker := Dispatching(s.worker.task))
    case FinishDispatch => s.(worker := Acquiring)
  }

  predicate Init(s: State) {
    s == State([], false, false, Free, map[], Testing)
  }

  ghost predicate StepAt(states: seq<State>, acts: seq<Action>, i: nat)
    requires i < |acts| < |states|
  {
    Enabled(states[i], acts[i]) && states[i + 1] == Next(states[i], acts[i])
  }

  /** `states[i]` is where the run stands before `acts[i]`. */
  ghost predicate Run(states: seq<State>, acts: seq<Action>) {
    && |states| == |acts| + 1
    && Init(states[0])
    && forall i | 0 <= i < |acts| :: StepAt(states, acts, i)
  }

  // ---- no lost wake-up -------------------------------------------------------------------------

  /** The lock has the holder it says it has, and no other thread is inside. */
  ghost predicate Exclusive(s: State) {
    && (s.lock == ByWorker <==> s.worker.Holding? || s.worker.Cleared? || s.worker.Popped?)
    && (forall t | t in s.submitters :: !s.submitters[t].Calling? <==> s.lock == BySubmitter(t))
    && (s.lock.BySubmitter? ==> s.lock.thread in s.submitters)
  }

  /** The event can be missing over a non-empty queue only while a submitter, holding the
      lock, is between appending its task and setting the event. */
  ghost predicate Awake(s: State) {
    s.queue != [] && !s.event ==>
      s.lock.BySubmitter? && s.lock.thread in s.submitters && s.submitters[s.lock.thread].Appended?
  }

  ghost predicate Inv(s: State) {
    Exclusive(s) && Awake(s) && (s.worker.Cleared? ==> s.queue == [])
  }

  lemma InvKept(s: State, a: Action)
    requires Inv(s) && Enabled(s, a)
    ensures Inv(Next(s, a))
  {
  }

  lemma {:induction false} InvHolds(states: seq<State>, acts: seq<Action>, i: nat)
    requires Run(states, acts) && i <= |acts|
    ensures Inv(states[i])
  {
    if i > 0 {
      InvHolds(states, acts, i - 1);
      assert StepAt(states, acts, i - 1);
      InvKept(states[i - 1], acts[i - 1]);
    }
  }

  /** In every reachable state, with the lock free a non-empty queue has its event set; so a
      worker found waiting over queued tasks can only go and drain them. */
  lemma NoLostWakeup(states: seq<State>, acts: seq<Action>, i: nat)
    requires Run(states, acts) && i <= |acts|
    ensures var s := states[i];
            && (s.lock == Free && s.queue != [] ==> s.event)
            && (s.lock == Free && s.queue != [] && s.worker.Waiting? ==>
                Enabled(s, WaitReturns) && !Enabled(s, WaitTimesOut))
  {
    InvHolds(states, acts, i);
  }

  /** Nothing can block for good: while a submit call is open, or a task is queued and the
      worker has not exited, some thread that is already running has a step to take, and not
      just the worker's wait timing out. */
  lemma NoDeadlock(states: seq<State>, acts: seq<Action>, i: nat)
    requires Run(states, acts) && i <= |acts|
    requires states[i].submitters != map[] || (states[i].queue != [] && states[i].worker != Exited)
    ensures exists a :: Enabled(states[i], a) && !a.Call? && a !in {StopFlag, StopEvent, WaitTimesOut}
  {
    InvHolds(states, acts, i);
    var s := states[i];
    match s.lock {
      case BySubmitter(t) =>
        match s.submitters[t] {
          case Locked(_) => assert Enabled(s, Append(t));
          case Appended(_) => assert Enabled(s, SetEvent(t));
          case Woken(_) => assert Enabled(s, Release(t));
        }
      case ByWorker =>
        assert Enabled(s, DrainTest) || Enabled(s, DrainReturn) || Enabled(s, StartDispatch);
      case Free =>
        if s.submitters != map[] {
          var t :| t in s.submitters;
          assert Enabled(s, Acquire(t));
        } else {
          assert Enabled(s, TestStopped) || Enabled(s, WaitReturns) || Enabled(s, DrainAcquire) || Enabled(s, FinishDispatch);
        }
    }
  }

  // ---- exactly once, in order ------------------------------------------------------------------

  /** The task a step appends to the queue, and the task whose dispatch it begins. */
  function Appends(s: State, a: Action): seq<Task> {
    if a.Append? && a.thread in s.submitters then [s.submitters[a.thread].task] else []
  }

  function Dispatches(s: State, a: Action): seq<Task> {
    if a.StartDispatch? && s.worker.Popped? then [s.worker.task] else []
  }

  /** The tasks appended in steps 0..i-1: the submission history. */
  function Submitted(states: seq<State>, acts: seq<Action>, i: nat): seq<Task>
    requires i <= |acts| <= |states|
  {
    if i == 0 then [] else Submitted(states, acts, i - 1) + Appends(states[i - 1], acts[i - 1])
  }

  /** The tasks whose dispatch began in steps 0..i-1. */
  function Dispatched(states: seq<State>, acts: seq<Action>, i: nat): seq<Task>
    requires i <= |acts| <= |states|
  {
    if i == 0 then [] else Dispatched(states, acts, i - 1) + Dispatches(states[i - 1], acts[i - 1])
  }

  function InHand(s: State): seq<Task> {
    if s.worker.Popped? then [s.worker.task] else []
  }

  /** A step moves tasks along: from its submitter to the queue, to the hand, to dispatch. */
  lemma TasksMoveInOrder(s: State, a: Action)
    requires Exclusive(s) && Enabled(s, a)
    ensures Dispatches(s, a) + InHand(Next(s, a)) + Next(s, a).queue == InHand(s) + s.queue + Appends(s, a)
  {
    if a.DrainTest? && s.queue != [] {
      assert s.queue == [s.queue[0]] + s.queue[1..];
    }
  }

  lemma Regroup(d: seq<Task>, x: seq<Task>, h: seq<Task>, q: seq<Task>, h': seq<Task>, q': seq<Task>, y: seq<Task>)
    requires x + h' + q' == h + q + y
    ensures d + x + h' + q' == d + h + q + y
  {
    assert d + x + h' + q' == d + (x + h' + q');
    assert d + h + q + y == d + (h + q + y);
  }

  /** What was dispatched, then the task in hand, then the queue, is the submission history. */
  lemma {:induction false} ExactlyOnceInOrder(states: seq<State>, acts: seq<Action>, i: nat)
    requires Run(states, acts) && i <= |acts|
    ensures Dispatched(states, acts, i) + InHand(states[i]) + states[i].queue == Submitted(states, acts, i)
  {
    if i > 0 {
      ExactlyOnceInOrder(states, acts, i - 1);
      assert StepAt(states, acts, i - 1);
      var s, a, s' := states[i - 1], acts[i - 1], states[i];
      InvHolds(states, acts, i - 1);
      TasksMoveInOrder(s, a);
      Regroup(Dispatched(states, acts, i - 1), Dispatches(s, a), InHand(s), s.queue, InHand(s'), s'.queue, Appends(s, a));
    }
  }

  // ---- a drain pass ends -----------------------------------------------------------------------

  function Count(acts: seq<Action>, what: Action -> bool, lo: nat, hi: nat): nat
    requires hi <= |acts|
  {
    if hi <= lo then 0 else Count(acts, what, lo, hi - 1) + if what(acts[hi - 1]) then 1 else 0
  }

  predicate IsAppend(a: Action) { a.Append? }
  predicate IsStart(a: Action) { a.StartDispatch? }
  predicate IsReturn(a: Action) { a.DrainReturn? }

  predicate IsDrainStep(a: Action) {
    a in {DrainAcquire, DrainTest, DrainReturn, StartDispatch, FinishDispatch}
  }

  lemma {:induction false} HistoryLengths(states: seq<State>, acts: seq<Action>, lo: nat, hi: nat)
    requires Run(states, acts) && lo <= hi <= |acts|
    ensures |Submitted(states, acts, hi)| == |Submitted(states, acts, lo)| + Count(acts, IsAppend, lo, hi)
    ensures |Dispatched(states, acts, hi)| == |Dispatched(states, acts, lo)| + Count(acts, IsStart, lo, hi)
    decreases hi
  {
    if lo < hi {
      HistoryLengths(states, acts, lo, hi - 1);
      assert StepAt(states, acts, hi - 1);
    }
  }

  /** How many of the four drain steps a task costs the worker has taken for the next one. */
  function Progress(w: Worker): int {
    match w
    case Acquiring => 0
    case Holding => 1
    case Popped(_) => 2
    case Cleared => 2
    case Dispatching(_) => -1
    case _ => 0
  }

  lemma {:induction false} DrainStepsPerTask(states: seq<State>, acts: seq<Action>, lo: nat, hi: nat)
    requires Run(states, acts) && lo < hi <= |acts|
    requires acts[lo] == WaitReturns && Count(acts, IsReturn, lo, hi) == 0
    ensures states[hi].worker !in {Testing, Waiting, Exited}
    ensures Count(acts, IsDrainStep, lo, hi) == 4 * Count(acts, IsStart, lo, hi) + Progress(states[hi].worker)
    decreases hi
  {
    assert StepAt(states, acts, hi - 1);
    if lo + 1 < hi {
      DrainStepsPerTask(states, acts, lo, hi - 1);
    }
  }

  /** A drain pass that began in step lo and has not returned by step hi has taken at most
      four steps for each task queued when it began or appended since, and two more. With
      finitely many submissions it returns, and it does so only on an empty queue. */
  lemma DrainTerminates(states: seq<State>, acts: seq<Action>, lo: nat, hi: nat)
    requires Run(states, acts) && lo < hi <= |acts|
    requires acts[lo] == WaitReturns && Count(acts, IsReturn, lo, hi) == 0
    ensures Count(acts, IsDrainStep, lo, hi) <= 4 * (|states[lo].queue| + Count(acts, IsAppend, lo, hi)) + 2
    ensures hi < |acts| && acts[hi] == DrainReturn ==> states[hi].queue == [] && states[hi].lock == ByWorker
  {
    DrainStepsPerTask(states, acts, lo, hi);
    HistoryLengths(states, acts, lo, hi);
    ExactlyOnceInOrder(states, acts, lo);
    ExactlyOnceInOrder(states, acts, hi);
    assert StepAt(states, acts, lo);
    InvHolds(states, acts, hi);
    if hi < |acts| {
      assert StepAt(states, acts, hi);
    }
  }

  /** After stop() at most one further drain pass completes. */
  lemma {:induction false} StopEndsTheWorker(states: seq<State>, acts: seq<Action>, stop: nat, i: nat)
    requires Run(states, acts) && stop < i <= |acts| && acts[stop] == StopFlag
    ensures states[i].stopped
    ensures Count(acts, IsReturn, stop, i) <= 1
    ensures Count(acts, IsReturn, stop, i) == 1 ==> states[i].worker in {Testing, Exited}
    decreases i
  {
    assert StepAt(states, acts, i - 1);
    if stop + 1 < i {
      StopEndsTheWorker(states, acts, stop, i - 1);
    }
  }

  predicate IsWake(a: Action) { a.WaitReturns? }

  predicate InPass(w: Worker) {
    w !in {Testing, Waiting, Exited}
  }

  /** Every drain pass is owed to one return of the wait: there is one under way or completed
      for each, and no other. */
  lemma {:induction false} PassesAreWakeUps(states: seq<State>, acts: seq<Action>, i: nat)
    requires Run(states, acts) && i <= |acts|
    ensures Count(acts, IsWake, 0, i) == Count(acts, IsReturn, 0, i) + if InPass(states[i].worker) then 1 else 0
  {
    if i > 0 {
      assert StepAt(states, acts, i - 1);
      PassesAreWakeUps(states, acts, i - 1);
    }
  }

  /** stop() wakes the worker: once it has returned, a waiting worker can only go on, until a
      drain pass finds the queue empty. */
  lemma {:induction false} StopWakes(states: seq<State>, acts: seq<Action>, stop: nat, i: nat)
    requires Run(states, acts) && stop < i <= |acts| && acts[stop] == StopEvent
    requires forall j | stop < j < i :: acts[j] != DrainTest
    ensures states[i].event && states[i].stopped && !Enabled(states[i], WaitTimesOut)
    decreases i
  {
    assert StepAt(states, acts, i - 1);
    if stop + 1 < i {
      StopWakes(states, acts, stop, i - 1);
    }
  }
}
