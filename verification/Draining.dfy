/** When shutting the dispatcher down loses nothing: an exact condition for every place the worker may be at. */
module Draining {
  import opened Prelude
  import opened Dispatcher
  import opened DispatcherGuarantees

  /** How many queued events the worker is still bound to take before it looks at `_running` again. */
  function Room(w: Worker): nat {
    match w
    case Getting => BATCH_LIMIT
    case Collecting(b) => if |b| < BATCH_LIMIT then BATCH_LIMIT - |b| else 0
    case _ => 0
  }

  ghost predicate NoAccepts(steps: seq<Step>) {
    forall i :: 0 <= i < |steps| ==> !steps[i].EmitAccepted?
  }

  /** However the run goes on, once the worker has left, everything accepted was dispatched. */
  ghost predicate LeavesNothing(s: State) {
    forall steps :: ValidRun(s, steps) && NoAccepts(steps) && RunFrom(s, steps).worker.Exited? ==>
      Logged(RunFrom(s, steps).log) == RunFrom(s, steps).accepted
  }

  // ----- what fits is dispatched ------------------------------------------------------------------

  predicate StopsLast(queue: seq<Item>) {
    forall i, j :: 0 <= i < j < |queue| && queue[i].Stop? ==> queue[j].Stop?
  }

  /** No event stands behind a Stop, and the events fit the room. */
  predicate Fits(s: State) {
    StopsLast(s.queue) && |Events(s.queue)| <= Room(s.worker)
  }

  lemma {:induction false} StopsHoldNoEvents(queue: seq<Item>)
    requires forall i :: 0 <= i < |queue| ==> queue[i].Stop?
    ensures Events(queue) == []
  {
    if queue != [] {
      StopsHoldNoEvents(queue[1..]);
    }
  }

  lemma StopFirstMeansNoEvents(queue: seq<Item>)
    requires StopsLast(queue) && queue != [] && queue[0].Stop?
    ensures Events(queue[1..]) == []
  {
    forall i | 0 <= i < |queue[1..]| ensures queue[1..][i].Stop? {
      assert queue[i + 1].Stop?;
    }
    StopsHoldNoEvents(queue[1..]);
  }

  lemma {:induction false} EventsOfEvents(queue: seq<Item>)
    requires Stop !in queue
    ensures |Events(queue)| == |queue|
  {
    if queue != [] {
      assert queue[0] in queue;
      assert forall x :: x in queue[1..] ==> x in queue;
      EventsOfEvents(queue[1..]);
    }
  }

  lemma PutFits(s: State)
    requires Fits(s) && Enabled(s, ShutdownPut)
    ensures Fits(Apply(s, ShutdownPut))
  {
    EventsOfAppend(s.queue, Stop);
  }

  lemma TakeFits(s: State, a: Step)
    requires Fits(s) && Enabled(s, a) && (a.WorkerGet? || a.WorkerCollect?)
    ensures Fits(Apply(s, a))
  {
    assert |Events(s.queue)| == |EventOf(s.queue[0])| + |Events(s.queue[1..])|;
    if s.queue[0].Stop? {
      StopFirstMeansNoEvents(s.queue);
    }
  }

  lemma StepFits(s: State, a: Step)
    requires Fits(s) && Enabled(s, a) && !a.EmitAccepted?
    ensures Fits(Apply(s, a))
  {
    if a.ShutdownPut? {
      PutFits(s);
    } else if a.WorkerGet? || a.WorkerCollect? {
      TakeFits(s, a);
    } else {
      OtherStepFits(s, a);
    }
  }

  lemma OtherStepFits(s: State, a: Step)
    requires Fits(s) && Enabled(s, a) && !a.EmitAccepted? && !a.ShutdownPut? && !a.WorkerGet? && !a.WorkerCollect?
    ensures Fits(Apply(s, a))
  {
    assert Apply(s, a).queue == s.queue;
    if a.WorkerCollected? {
      assert s.queue == [] || Room(s.worker) == 0;
    } else if !a.WorkerTimeout? {
      assert Room(Apply(s, a).worker) >= Room(s.worker);
    }
  }

  lemma {:induction false} RunFits(s: State, steps: seq<Step>)
    requires Fits(s) && ValidRun(s, steps) && NoAccepts(steps)
    ensures Fits(RunFrom(s, steps))
    decreases |steps|
  {
    if steps != [] {
      StepFits(s, steps[0]);
      RunFits(Apply(s, steps[0]), steps[1..]);
    }
  }

  lemma FittingLeavesNothing(s: State)
    requires Reachable(s) && Fits(s)
    ensures LeavesNothing(s)
  {
    forall steps | ValidRun(s, steps) && NoAccepts(steps) && RunFrom(s, steps).worker.Exited?
      ensures Logged(RunFrom(s, steps).log) == RunFrom(s, steps).accepted
    {
      RunFits(s, steps);
      ReachableExtends(s, steps);
      ExitLosesNothingButTheQueue(RunFrom(s, steps), 0);
      assert Events(RunFrom(s, steps).queue) == [];
    }
  }

  // ----- what does not fit may be lost ------------------------------------------------------------

  /** A shutdown has begun, has not put its Stop, and more events are queued than fit. */
  predicate Overfull(s: State) {
    && !s.running && Stop !in s.queue && |s.queue| > Room(s.worker)
    && !s.worker.StopFirst? && !s.worker.StopSeen?
  }

  function PhaseLeft(w: Worker): nat {
    match w
    case Getting => 6
    case _ => Phase(w)
  }

  /** One step towards the exit of the worker: the lock holder's if there is one, else the worker's. */
  function ExitStep(s: State): Step {
    if s.lock.Some? && HoldsLock(s, s.lock.value)
    then if s.emitters[s.lock.value].next < |s.sinks| then DirectSend(s.lock.value) else DirectUnlock(s.lock.value)
    else WorkerStep(s)
  }

  /** What the lock holder still has to do. */
  function LockLeft(s: State): nat {
    if s.lock.Some? && HoldsLock(s, s.lock.value)
    then 1 + (if s.emitters[s.lock.value].next < |s.sinks| then |s.sinks| - s.emitters[s.lock.value].next else 0)
    else 0
  }

  lemma DirectStepTowardsExit(s: State)
    requires Exclusive(s) && Overfull(s) && s.lock.Some?
    ensures var a := ExitStep(s);
      && Enabled(s, a) && !a.EmitAccepted?
      && Overfull(Apply(s, a)) && Apply(s, a).worker == s.worker && Apply(s, a).queue == s.queue
      && LockLeft(Apply(s, a)) < LockLeft(s)
  {
    var t := s.lock.value;
    assert HoldsLock(s, t);
    var a := ExitStep(s);
    assert a == DirectUnlock(t) ==> Apply(s, a).lock == None;
    assert a == DirectSend(t) ==> Apply(s, a).lock == s.lock && HoldsLock(Apply(s, a), t);
  }

  /** The worker's next step keeps the queue too long for it and brings its exit nearer. */
  lemma WorkerStepTowardsExit(s: State)
    requires Overfull(s) && s.lock == None && !s.worker.Exited?
    ensures var a := ExitStep(s);
      && a == WorkerStep(s) && Enabled(s, a) && !a.EmitAccepted? && Apply(s, a).lock == None
  {
  }

  lemma TakingKeepsOverfull(s: State)
    requires Overfull(s) && (s.worker.Getting? || s.worker.Collecting?)
    requires Enabled(s, WorkerStep(s))
    ensures Overfull(Apply(s, WorkerStep(s)))
    ensures PhaseLeft(Apply(s, WorkerStep(s)).worker) < PhaseLeft(s.worker)
         || (PhaseLeft(Apply(s, WorkerStep(s)).worker) == PhaseLeft(s.worker) && |Apply(s, WorkerStep(s)).queue| < |s.queue|)
  {
    assert s.queue[0] in s.queue;
    assert forall x :: x in s.queue[1..] ==> x in s.queue;
  }

  lemma GoingOnKeepsOverfull(s: State)
    requires Overfull(s) && !s.worker.Exited? && !s.worker.Getting? && !s.worker.Collecting?
    requires Enabled(s, WorkerStep(s))
    ensures var t := Apply(s, WorkerStep(s));
      && Overfull(t) && t.queue == s.queue
      && (PhaseLeft(t.worker) < PhaseLeft(s.worker)
          || (PhaseLeft(t.worker) == PhaseLeft(s.worker) && Left(t.worker) < Left(s.worker)))
  {
  }

  /** From an overfull state the worker can leave with events still queued. */
  lemma {:induction false} OverfullCanExit(s: State) returns (steps: seq<Step>)
    requires Inv(s) && Overfull(s)
    ensures ValidRun(s, steps) && NoAccepts(steps)
    ensures RunFrom(s, steps).worker.Exited? && Overfull(RunFrom(s, steps))
    decreases PhaseLeft(s.worker), |s.queue|, Left(s.worker), LockLeft(s)
  {
    if s.worker.Exited? {
      return [];
    }
    var a := ExitStep(s);
    if s.lock.Some? {
      DirectStepTowardsExit(s);
    } else {
      WorkerStepTowardsExit(s);
      if s.worker.Getting? || s.worker.Collecting? {
        TakingKeepsOverfull(s);
      } else {
        GoingOnKeepsOverfull(s);
      }
    }
    StepHolds(s, a);
    var rest := OverfullCanExit(Apply(s, a));
    RunCons(s, a, rest);
    steps := [a] + rest;
  }

  lemma ExitWithEventsLoses(s: State)
    requires Inv(s) && s.worker.Exited? && Overfull(s)
    ensures Logged(s.log) != s.accepted
  {
    EventsOfEvents(s.queue);
    assert |s.accepted| == |Logged(s.log)| + |Events(s.queue)|;
  }

  lemma OverflowMayBeLost(s: State)
    requires Reachable(s) && s.running && |s.queue| > Room(s.worker)
    ensures !LeavesNothing(s)
  {
    ReachableHolds(s);
    var s1, s2 := BeginShutdown(s);
    var rest := OverfullCanExit(s2);
    RunCons(s1, ShutdownFlag, rest);
    NoAcceptsMore(ShutdownFlag, rest);
    var steps := [ShutdownTest] + ([ShutdownFlag] + rest);
    RunCons(s, ShutdownTest, [ShutdownFlag] + rest);
    NoAcceptsMore(ShutdownTest, [ShutdownFlag] + rest);
    RunHolds(s, steps);
    ExitWithEventsLoses(RunFrom(s, steps));
  }

  lemma NoAcceptsMore(a: Step, rest: seq<Step>)
    requires !a.EmitAccepted? && NoAccepts(rest)
    ensures NoAccepts([a] + rest)
  {
  }

  lemma BeginShutdown(s: State) returns (s1: State, s2: State)
    requires Inv(s) && s.running && |s.queue| > Room(s.worker)
    ensures Enabled(s, ShutdownTest) && s1 == Apply(s, ShutdownTest)
    ensures Enabled(s1, ShutdownFlag) && s2 == Apply(s1, ShutdownFlag) && Inv(s2) && Overfull(s2)
  {
    s1 := Apply(s, ShutdownTest);
    s2 := Apply(s1, ShutdownFlag);
    StepHolds(s, ShutdownTest);
    StepHolds(s1, ShutdownFlag);
  }

  // ----- the exact condition ----------------------------------------------------------------------

  /**
    With nothing accepted from now on, a running dispatcher can be shut down without loss exactly
    when its queue fits the room left in the worker's batch: 50 while it waits for its first event,
    50 less the batch while it collects, and none at all anywhere else.
   */
  lemma ShutdownLosesNothingIff(s: State)
    requires Reachable(s) && s.running
    ensures LeavesNothing(s) <==> |s.queue| <= Room(s.worker)
  {
    ReachableHolds(s);
    assert AliveWhileRunning(s);
    EventsOfEvents(s.queue);
    if |s.queue| <= Room(s.worker) {
      FittingLeavesNothing(s);
    } else {
      OverflowMayBeLost(s);
    }
  }

  /** In numbers: 50 events may wait for a worker that waits, and as many as fill up its batch to 50. */
  lemma ShutdownRoom(s: State)
    requires Reachable(s) && s.running
    ensures s.worker.Getting? ==> (LeavesNothing(s) <==> |s.queue| <= 50)
    ensures s.worker.Collecting? ==> (LeavesNothing(s) <==> |s.worker.batch| + |s.queue| <= 50)
  {
    ShutdownLosesNothingIff(s);
    ReachableHolds(s);
  }

  /** At the loop test there is no room: shutting down is safe exactly with an empty queue. */
  lemma IdleShutdownLosesNothingIff(s: State)
    requires Reachable(s) && s.running && s.worker.Polling?
    ensures LeavesNothing(s) <==> s.queue == []
  {
    ShutdownLosesNothingIff(s);
  }
}
