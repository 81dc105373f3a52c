/** What the telemetry dispatcher promises its callers in every reachable state, and where it stops. */
module DispatcherGuarantees {
  import opened Prelude
  import opened Dispatcher

  /** The state after a run from the start, whatever the interleaving. */
  predicate Reaches(enableWorker: bool, sinks: seq<Sink>, steps: seq<Step>, s: State) {
    Distinct(sinks) && ValidRun(Init(enableWorker, sinks), steps) && RunFrom(Init(enableWorker, sinks), steps) == s
  }

  ghost predicate Reachable(s: State) {
    exists enableWorker, sinks, steps :: Reaches(enableWorker, sinks, steps, s)
  }

  lemma ReachableHolds(s: State)
    requires Reachable(s)
    ensures Inv(s)
  {
    var enableWorker, sinks, steps :| Reaches(enableWorker, sinks, steps, s);
    InitHolds(enableWorker, sinks);
    RunHolds(Init(enableWorker, sinks), steps);
  }

  /** The sink was on the list at every dispatch so far, as the built-in ring buffer is. */
  ghost predicate AlwaysRegistered(s: State, k: Sink) {
    forall i :: 0 <= i < |s.log| ==> k in s.log[i].sinks
  }

  lemma {:induction false} RegisteredGetsEverything(log: seq<Dispatch>, k: Sink)
    requires forall i :: 0 <= i < |log| ==> k in log[i].sinks
    ensures LoggedFor(log, k) == Logged(log)
  {
    if log != [] {
      RegisteredGetsEverything(log[..|log| - 1], k);
    }
  }

  // ----- flush ------------------------------------------------------------------------------------

  /** The condition `join` waits for holds exactly when nothing is queued and nothing is in the worker's hands. */
  lemma JoinConditionIff(s: State)
    requires Reachable(s)
    ensures s.unfinished == 0 <==> s.queue == [] && Unmarked(s.worker) == 0
    ensures s.unfinished >= 0
  {
    ReachableHolds(s);
  }

  lemma SendingIsUnfinished(s: State)
    requires Inv(s)
    ensures s.worker.Sending? ==> s.unfinished > 0
  {
    if s.worker.Sending? {
      assert BatchSized(s.log[|s.log| - 1].batch);
    }
  }

  /**
    When `join` returns, the worker has dispatched exactly the accepted events, in acceptance order,
    and has offered every batch to every sink of its list.
   */
  lemma FlushMeansDelivered(s: State, k: Sink)
    requires Reachable(s) && s.unfinished == 0
    ensures Logged(s.log) == s.accepted
    ensures Offers(s.async, k) == LoggedFor(s.log, k)
    ensures AlwaysRegistered(s, k) ==> Offers(s.async, k) == s.accepted
  {
    ReachableHolds(s);
    SendingIsUnfinished(s);
    assert Offers(s.async, k) == Offered(s, k);
    if AlwaysRegistered(s, k) {
      RegisteredGetsEverything(s.log, k);
    }
  }

  /** Marking a task done never runs below zero, so `task_done` never raises. */
  lemma TaskDoneNeverFails(s: State, a: Step)
    requires Reachable(s) && Enabled(s, a)
    ensures Apply(s, a).unfinished >= 0
    ensures a.WorkerMark? || a.WorkerStopFirst? || a.WorkerStopSeen? ==> s.unfinished > 0
  {
    ReachableHolds(s);
    StepHolds(s, a);
  }

  // ----- offers -----------------------------------------------------------------------------------

  lemma DistinctParts<T>(a: seq<T>, b: seq<T>)
    requires Distinct(a + b)
    ensures Distinct(a) && Distinct(b) && forall x :: x in a ==> x !in b
  {
    assert forall i :: 0 <= i < |a| ==> (a + b)[i] == a[i];
    assert forall i :: 0 <= i < |b| ==> (a + b)[|a| + i] == b[i];
  }

  lemma DistinctWhole<T>(a: seq<T>, b: seq<T>)
    requires Distinct(a) && Distinct(b) && forall x :: x in a ==> x !in b
    ensures Distinct(a + b)
  {
    var c := a + b;
    forall i, j | 0 <= i < j < |c| ensures c[i] != c[j] {
      assert i < |a| ==> c[i] == a[i] && a[i] in a;
      assert j >= |a| ==> c[j] == b[j - |a|] && b[j - |a|] in b;
      assert i >= |a| ==> c[i] == b[i - |a|];
    }
  }

  lemma {:induction false} LoggedForIsPart(log: seq<Dispatch>, k: Sink)
    requires Distinct(Logged(log))
    ensures Distinct(LoggedFor(log, k)) && forall e :: e in LoggedFor(log, k) ==> e in Logged(log)
  {
    if log != [] {
      var n := |log| - 1;
      DistinctParts(Logged(log[..n]), log[n].batch);
      LoggedForIsPart(log[..n], k);
      DistinctWhole(LoggedFor(log[..n], k), if k in log[n].sinks then log[n].batch else []);
    }
  }

  /** The worker's offers to a sink are part of what it logged, even in the middle of a dispatch. */
  lemma OffersArePart(s: State, k: Sink)
    requires Inv(s)
    ensures Distinct(Offers(s.async, k)) && forall e :: e in Offers(s.async, k) ==> e in s.accepted
  {
    assert Offers(s.async, k) == Offered(s, k);
    Reassociate(Logged(s.log), InHand(s.worker), Events(s.queue));
    DistinctParts(Logged(s.log), InHand(s.worker) + Events(s.queue));
    LoggedForIsPart(s.log, k);
    if s.worker.Sending? {
      var n := |s.log| - 1;
      DistinctParts(Logged(s.log[..n]), s.log[n].batch);
      LoggedForIsPart(s.log[..n], k);
      DistinctWhole(LoggedFor(s.log[..n], k), s.log[n].batch);
    }
  }

  /** No event is offered twice to a sink, by the worker, by the fallback, by `emit_sync`, or by two of them. */
  lemma OfferedAtMostOnce(s: State, k: Sink)
    requires Reachable(s)
    ensures Distinct(Offers(s.async, k) + Offers(s.direct, k))
  {
    ReachableHolds(s);
    OffersArePart(s, k);
    DistinctWhole(Offers(s.async, k), Offers(s.direct, k));
  }

  /** At any moment a sink that was always registered has received an initial stretch of the accepted events. */
  lemma OffersFollowAcceptance(s: State, k: Sink)
    requires Reachable(s) && AlwaysRegistered(s, k)
    ensures Offers(s.async, k) <= s.accepted
  {
    ReachableHolds(s);
    assert Offers(s.async, k) == Offered(s, k);
    RegisteredGetsEverything(s.log, k);
    if s.worker.Sending? {
      RegisteredGetsEverything(s.log[..|s.log| - 1], k);
    }
  }

  // ----- shutdown ---------------------------------------------------------------------------------

  /** Once the worker has exited, every accepted event was either dispatched to its whole list or is still queued. */
  lemma ExitLosesNothingButTheQueue(s: State, k: Sink)
    requires Reachable(s) && s.worker.Exited?
    ensures s.accepted == Logged(s.log) + Events(s.queue)
    ensures Offers(s.async, k) == LoggedFor(s.log, k)
    ensures s.unfinished == |s.queue|
  {
    ReachableHolds(s);
    assert Offers(s.async, k) == Offered(s, k);
    assert InHand(s.worker) == [];
    NothingInHand(Logged(s.log), Events(s.queue));
  }

  /**
    Shutdown does not drain: it clears `_running` before it puts Stop, so a worker at its loop test
    leaves, whatever is waiting in the queue. Into a full queue not even Stop is put.
   */
  lemma ShutdownMayAbandonQueue(s: State) returns (t: State)
    requires Reachable(s) && s.running && s.worker.Polling?
    ensures Reachable(t) && t.worker.Exited?
    ensures t.queue == if |s.queue| < QUEUE_LIMIT then s.queue + [Stop] else s.queue
    ensures t.accepted == s.accepted && t.log == s.log && t.async == s.async
  {
    t := ReachableStep(s, ShutdownTest);
    t := ReachableStep(t, ShutdownFlag);
    t := ReachableStep(t, ShutdownPut);
    t := ReachableStep(t, WorkerTest);
  }

  /** The shortest such run: one accepted event, which no sink ever sees. */
  lemma ShutdownMayAbandonEvents(e: Event, sinks: seq<Sink>) returns (t: State)
    requires Distinct(sinks)
    ensures Reachable(t) && t.worker.Exited? && t.accepted == [e] && t.queue == [Ev(e), Stop]
    ensures t.async == map[]
  {
    var s := Init(true, sinks);
    assert Reaches(true, sinks, [], s);
    s := ReachableStep(s, EmitAccepted(e));
    t := ShutdownMayAbandonQueue(s);
  }

  lemma ReachableStep(s: State, a: Step) returns (t: State)
    requires Reachable(s) && Enabled(s, a)
    ensures Reachable(t) && t == Apply(s, a)
  {
    t := Apply(s, a);
    RunOfOne(s, a);
    ReachableExtends(s, [a]);
  }

  lemma RunOfOne(s: State, a: Step)
    requires Enabled(s, a)
    ensures ValidRun(s, [a]) && RunFrom(s, [a]) == Apply(s, a)
  {
    assert [a][1..] == [];
  }

  /** An exited worker never comes back, so whatever is left in the queue blocks every later `flush` for good. */
  lemma {:induction false} LeftoversBlockFlushForever(s: State, steps: seq<Step>)
    requires s.worker.Exited? && ValidRun(s, steps)
    ensures RunFrom(s, steps).worker.Exited? && RunFrom(s, steps).unfinished >= s.unfinished
    decreases |steps|
  {
    if steps != [] {
      assert Apply(s, steps[0]).worker.Exited? && Apply(s, steps[0]).unfinished >= s.unfinished;
      LeftoversBlockFlushForever(Apply(s, steps[0]), steps[1..]);
    }
  }

  lemma StaysStopped(s: State, a: Step)
    requires (s.worker.Exited? || s.worker.StopFirst?) && Enabled(s, a)
    ensures var s' := Apply(s, a); (s'.worker.Exited? || s'.worker.StopFirst?) && s'.log == s.log && s'.async == s.async
  {
  }

  /** And nothing is dispatched any more once the worker has exited, or is about to after finding Stop first. */
  lemma {:induction false} NothingDispatchedAfterExit(s: State, steps: seq<Step>)
    requires (s.worker.Exited? || s.worker.StopFirst?) && ValidRun(s, steps)
    ensures var z := RunFrom(s, steps); (z.worker.Exited? || z.worker.StopFirst?) && z.log == s.log && z.async == s.async
    decreases |steps|
  {
    if steps != [] {
      StaysStopped(s, steps[0]);
      NothingDispatchedAfterExit(Apply(s, steps[0]), steps[1..]);
    }
  }

  /** Events accepted and not yet dispatched. */
  function Pending(s: State): nat {
    |InHand(s.worker)| + |Events(s.queue)|
  }

  lemma PendingNeverGrows(s: State, a: Step)
    requires Enabled(s, a) && !a.EmitAccepted?
    ensures Pending(Apply(s, a)) <= Pending(s)
  {
    if a.ShutdownPut? {
      EventsOfAppend(s.queue, Stop);
    } else if a.WorkerGet? || a.WorkerCollect? {
      GettingKeepsPending(s, a);
    } else {
      var t := Apply(s, a);
      assert t.queue == s.queue && |InHand(t.worker)| <= |InHand(s.worker)|;
    }
  }

  lemma GettingKeepsPending(s: State, a: Step)
    requires Enabled(s, a) && (a.WorkerGet? || a.WorkerCollect?)
    ensures Pending(Apply(s, a)) <= Pending(s)
  {
    assert |Events(s.queue)| == |EventOf(s.queue[0])| + |Events(s.queue[1..])|;
  }

  lemma {:induction false} QuietRunKeepsPending(s: State, steps: seq<Step>)
    requires ValidRun(s, steps) && forall i :: 0 <= i < |steps| ==> !steps[i].EmitAccepted?
    ensures Pending(RunFrom(s, steps)) <= Pending(s)
    decreases |steps|
  {
    if steps != [] {
      PendingNeverGrows(s, steps[0]);
      QuietRunKeepsPending(Apply(s, steps[0]), steps[1..]);
    }
  }

  lemma {:induction false} RunsConcatenate(s: State, a: seq<Step>, b: seq<Step>)
    requires ValidRun(s, a) && ValidRun(RunFrom(s, a), b)
    ensures ValidRun(s, a + b) && RunFrom(s, a + b) == RunFrom(RunFrom(s, a), b)
    decreases |a|
  {
    if a == [] {
      assert a + b == b;
    } else {
      assert (a + b)[1..] == a[1..] + b;
      RunsConcatenate(Apply(s, a[0]), a[1..], b);
    }
  }

  lemma ReachableExtends(s: State, steps: seq<Step>)
    requires Reachable(s) && ValidRun(s, steps)
    ensures Reachable(RunFrom(s, steps))
  {
    var enableWorker, sinks, before :| Reaches(enableWorker, sinks, before, s);
    RunsConcatenate(Init(enableWorker, sinks), before, steps);
    assert Reaches(enableWorker, sinks, before + steps, RunFrom(s, steps));
  }

  /** Flushing first makes shutdown safe: with nothing accepted after the flush, nothing is lost at exit. */
  lemma FlushThenShutdownLosesNothing(s: State, steps: seq<Step>, k: Sink)
    requires Reachable(s) && s.unfinished == 0 && ValidRun(s, steps)
    requires forall i :: 0 <= i < |steps| ==> !steps[i].EmitAccepted?
    requires RunFrom(s, steps).worker.Exited?
    ensures var t := RunFrom(s, steps);
      Logged(t.log) == t.accepted && (AlwaysRegistered(t, k) ==> Offers(t.async, k) == t.accepted)
  {
    var t := RunFrom(s, steps);
    JoinConditionIff(s);
    QuietRunKeepsPending(s, steps);
    ReachableExtends(s, steps);
    ExitLosesNothingButTheQueue(t, k);
    assert Pending(s) == 0 && Events(t.queue) == [];
    if AlwaysRegistered(t, k) {
      RegisteredGetsEverything(t.log, k);
    }
  }

  // ----- flush returns while the worker runs ------------------------------------------------------

  /** The one step the worker itself takes next. */
  function WorkerStep(s: State): Step {
    match s.worker
    case Polling => WorkerTest
    case Getting => if s.queue == [] then WorkerTimeout else WorkerGet
    case StopFirst => WorkerStopFirst
    case Collecting(b) => if |b| < BATCH_LIMIT && s.queue != [] then WorkerCollect else WorkerCollected
    case StopSeen(_) => WorkerStopSeen
    case Snapshotting(_) => WorkerSnapshot
    case Sending(_, sinks, next) => if next < |sinks| then WorkerSend else WorkerSent
    case Marking(b, done) => if done < |b| then WorkerMark else WorkerMarked
    case Exited => WorkerTest
  }

  function Phase(w: Worker): nat {
    match w
    case Collecting(_) => 5
    case Snapshotting(_) => 4
    case Sending(_, _, _) => 3
    case Marking(_, _) => 2
    case Polling => 1
    case _ => 0
  }

  /** What is left to do within the worker's present phase. */
  function Left(w: Worker): nat {
    match w
    case Sending(_, sinks, next) => if next < |sinks| then |sinks| - next else 0
    case Marking(b, done) => if done < |b| then |b| - done else 0
    case _ => 0
  }

  lemma WorkerStepEnabled(s: State)
    requires Inv(s) && s.running && s.lock == None
    ensures Enabled(s, WorkerStep(s))
  {
    assert AliveWhileRunning(s);
  }

  /** Fewer queued items, or a later phase, or less left in the same phase. */
  predicate Nearer(t: State, s: State) {
    || |t.queue| < |s.queue|
    || (t.queue == s.queue && Phase(t.worker) < Phase(s.worker))
    || (t.queue == s.queue && Phase(t.worker) == Phase(s.worker) && Left(t.worker) < Left(s.worker))
  }

  lemma WorkerStepAdvances(s: State)
    requires Counted(s) && s.running && s.lock == None && s.unfinished > 0 && Enabled(s, WorkerStep(s))
    requires !s.worker.StopFirst? && !s.worker.StopSeen? && !s.worker.Exited?
    ensures Nearer(Apply(s, WorkerStep(s)), s)
  {
    var t := Apply(s, WorkerStep(s));
    if s.worker.Getting? || (s.worker.Collecting? && t.worker != Snapshotting(s.worker.batch)) {
      assert |t.queue| < |s.queue|;
    } else {
      assert t.queue == s.queue;
    }
  }

  lemma RunCons(s: State, a: Step, rest: seq<Step>)
    requires Enabled(s, a) && ValidRun(Apply(s, a), rest)
    ensures ValidRun(s, [a] + rest) && RunFrom(s, [a] + rest) == RunFrom(Apply(s, a), rest)
  {
    assert ([a] + rest)[1..] == rest;
  }

  /**
    No deadlock: while the worker runs and no thread holds the sink lock, the worker's own steps lead
    to a state in which `join` returns, however much is queued.
   */
  lemma {:induction false} WorkerReachesJoin(s: State) returns (steps: seq<Step>)
    requires Inv(s) && s.running && s.lock == None
    ensures ValidRun(s, steps) && RunFrom(s, steps).unfinished == 0
    ensures RunFrom(s, steps).accepted == s.accepted
    decreases |s.queue|, Phase(s.worker), Left(s.worker)
  {
    if s.unfinished == 0 {
      return [];
    }
    WorkerStepEnabled(s);
    assert AliveWhileRunning(s) && Counted(s);
    WorkerStepAdvances(s);
    assert IsWorkerStep(WorkerStep(s));
    WorkerStepIsPrivate(s, WorkerStep(s));
    StepHolds(s, WorkerStep(s));
    var rest := WorkerReachesJoin(Apply(s, WorkerStep(s)));
    RunCons(s, WorkerStep(s), rest);
    steps := [WorkerStep(s)] + rest;
  }
}
