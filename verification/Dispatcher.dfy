/**
  The telemetry dispatcher of `sentinel/telemetry.py` as a step system: any number of emitting
  threads, a bounded queue, one batching worker, registration of sinks, and shutdown. Every step is
  one action that the locks of the source make atomic; a run is any interleaving of steps.
 */
module Dispatcher {
  import opened Prelude

  type Event = nat   // the identity of an emitted event
  type Sink = nat
  type Thread = nat

  const QUEUE_LIMIT := 10000
  const BATCH_LIMIT := 50

  /** A queue entry; `Stop` is the None that shutdown puts. */
  datatype Item = Ev(event: Event) | Stop

  /** Where the worker loop stands. */
  datatype Worker =
    | Polling                                                 // at the `while self._running` test
    | Getting                                                 // in the first, blocking get
    | StopFirst                                               // got Stop first, before its task_done
    | Collecting(batch: seq<Event>)
    | StopSeen(batch: seq<Event>)                             // got Stop while collecting
    | Snapshotting(batch: seq<Event>)                         // before copying the sink list
    | Sending(batch: seq<Event>, sinks: seq<Sink>, next: nat)
    | Marking(batch: seq<Event>, done: nat)                   // calling task_done once per event
    | Exited

  /** A thread emitting directly: in the full-queue fallback or in `emit_sync`. */
  datatype Emitter = Waiting(event: Event) | Direct(event: Event, next: nat)

  datatype Dispatch = Dispatch(batch: seq<Event>, sinks: seq<Sink>)

  datatype State = State(
    queue: seq<Item>,
    unfinished: int,                       // the queue's unfinished-task counter
    running: bool,
    checked: nat,                          // threads in shutdown past the `_running` test
    stopping: nat,                         // threads in shutdown about to put Stop
    worker: Worker,
    sinks: seq<Sink>,
    lock: Option<Thread>,                  // holder of `_sink_lock` across several steps
    emitters: map<Thread, Emitter>,
    // what has happened so far
    created: set<Event>,
    accepted: seq<Event>,                  // events the queue took, in order
    log: seq<Dispatch>,                    // batches the worker dispatched, with their sink lists
    async: map<Sink, seq<Event>>,          // events the worker offered to a sink
    direct: map<Sink, seq<Event>>)         // events emitting threads offered to a sink

  datatype Step =
    | EmitAccepted(event: Event)
    | EmitFull(thread: Thread, event: Event)
    | EmitSync(thread: Thread, event: Event)
    | DirectLock(thread: Thread)
    | DirectSend(thread: Thread)
    | DirectUnlock(thread: Thread)
    | AddSink(sink: Sink)
    | RemoveSink(sink: Sink)
    | ClearSinks(memory: Sink)
    | ShutdownTest
    | ShutdownFlag
    | ShutdownPut
    | WorkerTest
    | WorkerTimeout
    | WorkerGet
    | WorkerStopFirst
    | WorkerCollect
    | WorkerCollected
    | WorkerStopSeen
    | WorkerSnapshot
    | WorkerSend
    | WorkerSent
    | WorkerMark
    | WorkerMarked

  function Init(enableWorker: bool, sinks: seq<Sink>): State {
    State([], 0, enableWorker, 0, 0, if enableWorker then Polling else Exited, sinks, None, map[],
          {}, [], [], map[], map[])
  }

  function Offers(m: map<Sink, seq<Event>>, s: Sink): seq<Event> {
    if s in m then m[s] else []
  }

  function Without(sinks: seq<Sink>, s: Sink): seq<Sink> {
    if sinks == [] then []
    else if sinks[0] == s then sinks[1..]
    else [sinks[0]] + Without(sinks[1..], s)
  }

  predicate HoldsLock(s: State, t: Thread) {
    s.lock == Some(t) && t in s.emitters && s.emitters[t].Direct?
  }

  predicate Enabled(s: State, a: Step) {
    match a
    case EmitAccepted(e) => e !in s.created && |s.queue| < QUEUE_LIMIT
    case EmitFull(t, e) => e !in s.created && |s.queue| >= QUEUE_LIMIT && t !in s.emitters
    case EmitSync(t, e) => e !in s.created && t !in s.emitters
    case DirectLock(t) => s.lock == None && t in s.emitters && s.emitters[t].Waiting?
    case DirectSend(t) => HoldsLock(s, t) && s.emitters[t].next < |s.sinks|
    case DirectUnlock(t) => HoldsLock(s, t) && s.emitters[t].next >= |s.sinks|
    case AddSink(_) => s.lock == None
    case RemoveSink(_) => s.lock == None
    case ClearSinks(_) => s.lock == None
    case ShutdownTest => s.running
    case ShutdownFlag => s.checked > 0
    case ShutdownPut => s.stopping > 0
    case WorkerTest => s.worker.Polling?
    case WorkerTimeout => s.worker.Getting? && s.queue == []
    case WorkerGet => s.worker.Getting? && s.queue != []
    case WorkerStopFirst => s.worker.StopFirst?
    case WorkerCollect => s.worker.Collecting? && |s.worker.batch| < BATCH_LIMIT && s.queue != []
    case WorkerCollected => s.worker.Collecting? && (|s.worker.batch| >= BATCH_LIMIT || s.queue == [])
    case WorkerStopSeen => s.worker.StopSeen?
    case WorkerSnapshot => s.worker.Snapshotting? && s.lock == None
    case WorkerSend => s.worker.Sending? && s.worker.next < |s.worker.sinks|
    case WorkerSent => s.worker.Sending? && s.worker.next >= |s.worker.sinks|
    case WorkerMark => s.worker.Marking? && s.worker.done < |s.worker.batch|
    case WorkerMarked => s.worker.Marking? && s.worker.done >= |s.worker.batch|
  }

  function Apply(s: State, a: Step): State
    requires Enabled(s, a)
  {
    match a
    case EmitAccepted(e) =>
      s.(queue := s.queue + [Ev(e)], unfinished := s.unfinished + 1,
         created := s.created + {e}, accepted := s.accepted + [e])
    case EmitFull(t, e) => s.(emitters := s.emitters[t := Waiting(e)], created := s.created + {e})
    case EmitSync(t, e) => s.(emitters := s.emitters[t := Waiting(e)], created := s.created + {e})
    case DirectLock(t) => s.(lock := Some(t), emitters := s.emitters[t := Direct(s.emitters[t].event, 0)])
    case DirectSend(t) =>
      var Direct(e, next) := s.emitters[t];
      var k := s.sinks[next];
      s.(direct := s.direct[k := Offers(s.direct, k) + [e]], emitters := s.emitters[t := Direct(e, next + 1)])
    case DirectUnlock(t) => s.(lock := None, emitters := s.emitters - {t})
    case AddSink(k) => if k in s.sinks then s else s.(sinks := s.sinks + [k])
    case RemoveSink(k) => s.(sinks := Without(s.sinks, k))
    case ClearSinks(memory) => s.(sinks := [memory])
    case ShutdownTest => s.(checked := s.checked + 1)
    case ShutdownFlag => s.(running := false, checked := s.checked - 1, stopping := s.stopping + 1)
    case ShutdownPut =>
      if |s.queue| < QUEUE_LIMIT
      then s.(queue := s.queue + [Stop], unfinished := s.unfinished + 1, stopping := s.stopping - 1)
      else s.(stopping := s.stopping - 1)
    case WorkerTest => s.(worker := if s.running then Getting else Exited)
    case WorkerTimeout => s.(worker := Polling)
    case WorkerGet =>
      s.(queue := s.queue[1..], worker := if s.queue[0].Stop? then StopFirst else Collecting([s.queue[0].event]))
    case WorkerStopFirst => s.(unfinished := s.unfinished - 1, worker := Exited)
    case WorkerCollect =>
      var batch := s.worker.batch;
      s.(queue := s.queue[1..],
         worker := if s.queue[0].Stop? then StopSeen(batch) else Collecting(batch + [s.queue[0].event]))
    case WorkerCollected => s.(worker := Snapshotting(s.worker.batch))
    case WorkerStopSeen => s.(unfinished := s.unfinished - 1, worker := Snapshotting(s.worker.batch))
    case WorkerSnapshot =>
      s.(worker := Sending(s.worker.batch, s.sinks, 0), log := s.log + [Dispatch(s.worker.batch, s.sinks)])
    case WorkerSend =>
      var k := s.worker.sinks[s.worker.next];
      s.(async := s.async[k := Offers(s.async, k) + s.worker.batch],
         worker := s.worker.(next := s.worker.next + 1))
    case WorkerSent => s.(worker := Marking(s.worker.batch, 0))
    case WorkerMark => s.(unfinished := s.unfinished - 1, worker := s.worker.(done := s.worker.done + 1))
    case WorkerMarked => s.(worker := Polling)
  }

  predicate ValidRun(s: State, steps: seq<Step>)
    decreases |steps|
  {
    steps != [] ==> Enabled(s, steps[0]) && ValidRun(Apply(s, steps[0]), steps[1..])
  }

  function RunFrom(s: State, steps: seq<Step>): State
    requires ValidRun(s, steps)
    decreases |steps|
  {
    if steps == [] then s else RunFrom(Apply(s, steps[0]), steps[1..])
  }

  // ----- the invariant ----------------------------------------------------------------------------

  function EventOf(x: Item): seq<Event> {
    if x.Ev? then [x.event] else []
  }

  function Events(queue: seq<Item>): seq<Event> {
    if queue == [] then [] else EventOf(queue[0]) + Events(queue[1..])
  }

  /** Events in the order in which the worker dispatched them. */
  function Logged(log: seq<Dispatch>): seq<Event> {
    if log == [] then [] else Logged(log[..|log| - 1]) + log[|log| - 1].batch
  }

  /** Of those, the ones dispatched while `k` was on the copied sink list. */
  function LoggedFor(log: seq<Dispatch>, k: Sink): seq<Event> {
    if log == [] then []
    else LoggedFor(log[..|log| - 1], k) + (if k in log[|log| - 1].sinks then log[|log| - 1].batch else [])
  }

  /** Events taken from the queue and not yet dispatched. */
  function InHand(w: Worker): seq<Event> {
    match w
    case Collecting(b) => b
    case StopSeen(b) => b
    case Snapshotting(b) => b
    case _ => []
  }

  /** Entries taken from the queue and not yet marked done. */
  function Unmarked(w: Worker): int {
    match w
    case StopFirst => 1
    case Collecting(b) => |b|
    case StopSeen(b) => |b| + 1
    case Snapshotting(b) => |b|
    case Sending(b, _, _) => |b|
    case Marking(b, done) => |b| - done
    case _ => 0
  }

  predicate Distinct<T(==)>(s: seq<T>) {
    forall i, j :: 0 <= i < j < |s| ==> s[i] != s[j]
  }

  /** Nothing is lost or reordered between the queue and the worker's log. */
  predicate Conserved(s: State) {
    s.accepted == Logged(s.log) + InHand(s.worker) + Events(s.queue)
  }

  /** The unfinished counter covers the queue and what the worker holds, and can never go negative. */
  predicate Counted(s: State) {
    s.unfinished == |s.queue| + Unmarked(s.worker) && Unmarked(s.worker) >= 0 && |s.queue| <= QUEUE_LIMIT
  }

  predicate BatchSized(b: seq<Event>) {
    1 <= |b| <= BATCH_LIMIT
  }

  predicate LogSized(log: seq<Dispatch>) {
    forall i :: 0 <= i < |log| ==> BatchSized(log[i].batch) && Distinct(log[i].sinks)
  }

  predicate HandSized(w: Worker, log: seq<Dispatch>) {
    match w
    case Collecting(b) => BatchSized(b)
    case StopSeen(b) => BatchSized(b)
    case Snapshotting(b) => BatchSized(b)
    case Sending(b, sinks, next) => log != [] && log[|log| - 1] == Dispatch(b, sinks) && next <= |sinks|
    case Marking(b, done) => BatchSized(b) && done <= |b|
    case _ => true
  }

  predicate Batched(s: State) {
    LogSized(s.log) && HandSized(s.worker, s.log) && Distinct(s.sinks)
  }

  /** What the worker has offered to `k`: all logged batches meant for it, the current one once its turn came. */
  function Offered(s: State, k: Sink): seq<Event> {
    if s.worker.Sending? && s.log != [] then
      LoggedFor(s.log[..|s.log| - 1], k) + (if Reached(s.worker.sinks, s.worker.next, k) then s.worker.batch else [])
    else LoggedFor(s.log, k)
  }

  predicate Reached(sinks: seq<Sink>, next: nat, k: Sink) {
    exists i :: 0 <= i < next && i < |sinks| && sinks[i] == k
  }

  ghost predicate Delivered(s: State) {
    forall k :: Offers(s.async, k) == Offered(s, k)
  }

  /** While `_running` holds no Stop has been put, so the worker is alive and has seen none. */
  predicate AliveWhileRunning(s: State) {
    s.running ==> s.stopping == 0 && Stop !in s.queue && !s.worker.StopFirst? && !s.worker.StopSeen? && !s.worker.Exited?
  }

  // ----- preservation -----------------------------------------------------------------------------

  lemma {:induction false} EventsOfAppend(queue: seq<Item>, x: Item)
    ensures Events(queue + [x]) == Events(queue) + EventOf(x)
  {
    if queue == [] {
      assert (queue + [x])[1..] == [];
    } else {
      EventsOfAppend(queue[1..], x);
      assert (queue + [x])[1..] == queue[1..] + [x];
      Reassociate(EventOf(queue[0]), Events(queue[1..]), EventOf(x));
    }
  }

  lemma Reassociate<T>(a: seq<T>, b: seq<T>, c: seq<T>)
    ensures a + (b + c) == (a + b) + c
  {
  }

  lemma LogGrows(log: seq<Dispatch>, d: Dispatch)
    ensures Logged(log + [d]) == Logged(log) + d.batch
  {
    assert (log + [d])[..|log|] == log;
  }

  lemma PutConserves(s: State, x: Item)
    requires Conserved(s)
    ensures s.accepted + EventOf(x) == Logged(s.log) + InHand(s.worker) + Events(s.queue + [x])
  {
    EventsOfAppend(s.queue, x);
    Reassociate(Logged(s.log) + InHand(s.worker), Events(s.queue), EventOf(x));
  }

  lemma GetConserves(s: State)
    requires Conserved(s) && s.queue != []
    ensures s.accepted == Logged(s.log) + (InHand(s.worker) + EventOf(s.queue[0])) + Events(s.queue[1..])
  {
    Reassociate(Logged(s.log) + InHand(s.worker), EventOf(s.queue[0]), Events(s.queue[1..]));
    Reassociate(Logged(s.log), InHand(s.worker), EventOf(s.queue[0]));
  }

  predicate IsWorkerStep(a: Step) {
    || a.WorkerTest? || a.WorkerTimeout? || a.WorkerGet? || a.WorkerStopFirst? || a.WorkerCollect? || a.WorkerCollected?
    || a.WorkerStopSeen? || a.WorkerSnapshot? || a.WorkerSend? || a.WorkerSent? || a.WorkerMark? || a.WorkerMarked?
  }

  /** The worker's steps touch only the queue and what is the worker's own. */
  lemma WorkerStepIsPrivate(s: State, a: Step)
    requires Enabled(s, a) && IsWorkerStep(a)
    ensures var t := Apply(s, a);
      && t.running == s.running && t.lock == s.lock && t.emitters == s.emitters && t.sinks == s.sinks
      && t.created == s.created && t.accepted == s.accepted && t.direct == s.direct
      && t.checked == s.checked && t.stopping == s.stopping
    ensures !a.WorkerGet? && !a.WorkerCollect? ==> Apply(s, a).queue == s.queue
    ensures !a.WorkerSnapshot? ==> Apply(s, a).log == s.log
  {
  }

  /** The other steps leave the worker alone; of the queue they touch at most the end. */
  lemma OtherStepSparesWorker(s: State, a: Step)
    requires Enabled(s, a) && !IsWorkerStep(a)
    ensures var t := Apply(s, a); t.worker == s.worker && t.log == s.log && t.async == s.async
    ensures !a.EmitAccepted? ==> Apply(s, a).accepted == s.accepted
    ensures !a.EmitAccepted? && !a.ShutdownPut? ==>
      Apply(s, a).queue == s.queue && Apply(s, a).unfinished == s.unfinished
  {
  }

  lemma OtherStepConserves(s: State, a: Step)
    requires Enabled(s, a) && !IsWorkerStep(a) && Conserved(s)
    ensures Conserved(Apply(s, a))
  {
    OtherStepSparesWorker(s, a);
    if a.EmitAccepted? {
      PutConserves(s, Ev(a.event));
    } else if a.ShutdownPut? {
      PutConserves(s, Stop);
      assert s.accepted + EventOf(Stop) == s.accepted;
    }
  }

  /** Getting an entry moves its event from the queue into the worker's hands. */
  lemma GetStepConserves(s: State, a: Step)
    requires Enabled(s, a) && (a.WorkerGet? || a.WorkerCollect?) && Conserved(s)
    ensures Conserved(Apply(s, a))
  {
    GetConserves(s);
    assert InHand(s.worker) + EventOf(s.queue[0]) == InHand(Apply(s, a).worker);
  }

  lemma StepConserves(s: State, a: Step)
    requires Enabled(s, a) && Conserved(s)
    ensures Conserved(Apply(s, a))
  {
    if !IsWorkerStep(a) {
      OtherStepConserves(s, a);
    } else if a.WorkerGet? || a.WorkerCollect? {
      GetStepConserves(s, a);
    } else if a.WorkerSnapshot? {
      SnapshotConserves(s);
    } else {
      HoldStepConserves(s, a);
    }
  }

  /** Dispatching moves the batch from the worker's hands into the log. */
  lemma SnapshotConserves(s: State)
    requires Enabled(s, WorkerSnapshot) && Conserved(s)
    ensures Conserved(Apply(s, WorkerSnapshot))
  {
    var t, d := Apply(s, WorkerSnapshot), Dispatch(s.worker.batch, s.sinks);
    assert t.log == s.log + [d] && t.queue == s.queue && InHand(s.worker) == d.batch && InHand(t.worker) == [];
    assert Logged(t.log) == Logged(s.log) + d.batch by { LogGrows(s.log, d); }
    NothingInHand(Logged(t.log), Events(t.queue));
    assert t.accepted == Logged(t.log) + Events(t.queue);
  }

  lemma NothingInHand(dispatched: seq<Event>, queued: seq<Event>)
    ensures dispatched + queued == dispatched + [] + queued
  {
  }

  lemma HoldStepConserves(s: State, a: Step)
    requires Enabled(s, a) && IsWorkerStep(a) && !a.WorkerGet? && !a.WorkerCollect? && !a.WorkerSnapshot?
    requires Conserved(s)
    ensures Conserved(Apply(s, a))
  {
    WorkerStepIsPrivate(s, a);
    HoldStepHolds(s, a);
  }

  lemma HoldStepHolds(s: State, a: Step)
    requires Enabled(s, a) && IsWorkerStep(a) && !a.WorkerGet? && !a.WorkerCollect? && !a.WorkerSnapshot?
    ensures InHand(Apply(s, a).worker) == InHand(s.worker)
  {
  }

  lemma WorkerStepCounts(s: State, a: Step)
    requires Enabled(s, a) && IsWorkerStep(a) && Counted(s) && Batched(s)
    ensures Counted(Apply(s, a))
  {
    var t := Apply(s, a);
    match a
    case WorkerGet => assert |t.queue| == |s.queue| - 1 && Unmarked(t.worker) == 1;
    case WorkerCollect => assert |t.queue| == |s.queue| - 1 && Unmarked(t.worker) == Unmarked(s.worker) + 1;
    case WorkerSent => assert s.log[|s.log| - 1].batch == s.worker.batch;
    case _ =>
  }

  lemma StepCounts(s: State, a: Step)
    requires Enabled(s, a) && Counted(s) && Batched(s)
    ensures Counted(Apply(s, a))
  {
    if IsWorkerStep(a) {
      WorkerStepCounts(s, a);
    } else {
      OtherStepSparesWorker(s, a);
    }
  }

  lemma {:induction false} WithoutKeepsDistinct(sinks: seq<Sink>, k: Sink)
    requires Distinct(sinks)
    ensures Distinct(Without(sinks, k)) && forall x :: x in Without(sinks, k) ==> x in sinks
  {
    if sinks != [] && sinks[0] != k {
      var rest := Without(sinks[1..], k);
      WithoutKeepsDistinct(sinks[1..], k);
      assert sinks[0] !in rest;
      var r := Without(sinks, k);
      assert r == [sinks[0]] + rest;
      forall i, j | 0 <= i < j < |r| ensures r[i] != r[j] {
        assert r[j] == rest[j - 1] && r[j] in rest;
        assert i > 0 ==> r[i] == rest[i - 1];
      }
    }
  }

  lemma WorkerStepSizesLog(s: State, a: Step)
    requires Enabled(s, a) && IsWorkerStep(a) && Batched(s)
    ensures LogSized(Apply(s, a).log)
  {
    WorkerStepIsPrivate(s, a);
  }

  lemma WorkerStepSizesHand(s: State, a: Step)
    requires Enabled(s, a) && IsWorkerStep(a) && Batched(s)
    ensures HandSized(Apply(s, a).worker, Apply(s, a).log)
  {
    var w := Apply(s, a).worker;
    match a
    case WorkerGet => assert w.Collecting? ==> |w.batch| == 1;
    case WorkerCollect => assert w.Collecting? ==> |w.batch| == |s.worker.batch| + 1;
    case WorkerSent => assert BatchSized(s.log[|s.log| - 1].batch);
    case _ =>
  }

  lemma StepBatches(s: State, a: Step)
    requires Enabled(s, a) && Batched(s)
    ensures Batched(Apply(s, a))
  {
    if IsWorkerStep(a) {
      WorkerStepIsPrivate(s, a);
      WorkerStepSizesLog(s, a);
      WorkerStepSizesHand(s, a);
    } else {
      OtherStepSparesWorker(s, a);
      if a.RemoveSink? {
        WithoutKeepsDistinct(s.sinks, a.sink);
      }
    }
  }

  lemma ReachedNext(sinks: seq<Sink>, next: nat, k: Sink)
    requires Distinct(sinks) && next < |sinks|
    ensures Reached(sinks, next + 1, k) <==> Reached(sinks, next, k) || k == sinks[next]
    ensures !Reached(sinks, next, sinks[next])
  {
    if Reached(sinks, next, k) {
      var i :| 0 <= i < next && i < |sinks| && sinks[i] == k;
      assert 0 <= i < next + 1;
    }
  }

  lemma SendDelivers(s: State, k: Sink)
    requires Enabled(s, WorkerSend) && Batched(s) && Offers(s.async, k) == Offered(s, k)
    ensures Offers(Apply(s, WorkerSend).async, k) == Offered(Apply(s, WorkerSend), k)
  {
    var w, before := s.worker, LoggedFor(s.log[..|s.log| - 1], k);
    assert Distinct(s.log[|s.log| - 1].sinks);
    ReachedNext(w.sinks, w.next, k);
    assert before + [] == before;
    assert Apply(s, WorkerSend).log == s.log;
  }

  lemma SnapshotDelivers(s: State, k: Sink)
    requires Enabled(s, WorkerSnapshot) && Offers(s.async, k) == Offered(s, k)
    ensures Offers(Apply(s, WorkerSnapshot).async, k) == Offered(Apply(s, WorkerSnapshot), k)
  {
    var s' := Apply(s, WorkerSnapshot);
    assert s'.log[..|s'.log| - 1] == s.log;
    assert !Reached(s'.worker.sinks, 0, k);
  }

  lemma SentDelivers(s: State, k: Sink)
    requires Enabled(s, WorkerSent) && Batched(s) && Offers(s.async, k) == Offered(s, k)
    ensures Offers(Apply(s, WorkerSent).async, k) == Offered(Apply(s, WorkerSent), k)
  {
    assert Reached(s.worker.sinks, s.worker.next, k) <==> k in s.worker.sinks;
  }

  /** Steps that touch neither the log nor the offers, nor enter or leave the sending phase. */
  lemma OtherStepsDeliver(s: State, t: State, k: Sink)
    requires t.async == s.async && t.log == s.log
    requires t.worker == s.worker || !(t.worker.Sending? || s.worker.Sending?)
    requires Offers(s.async, k) == Offered(s, k)
    ensures Offers(t.async, k) == Offered(t, k)
  {
  }

  lemma StepDeliversTo(s: State, a: Step, k: Sink)
    requires Enabled(s, a) && Batched(s) && Offers(s.async, k) == Offered(s, k)
    ensures Offers(Apply(s, a).async, k) == Offered(Apply(s, a), k)
  {
    if !IsWorkerStep(a) {
      OtherStepSparesWorker(s, a);
      OtherStepsDeliver(s, Apply(s, a), k);
    } else if a.WorkerSend? {
      SendDelivers(s, k);
    } else if a.WorkerSnapshot? {
      SnapshotDelivers(s, k);
    } else if a.WorkerSent? {
      SentDelivers(s, k);
    } else {
      WorkerStepIsPrivate(s, a);
      QuietWorkerStep(s, a);
      OtherStepsDeliver(s, Apply(s, a), k);
    }
  }

  lemma QuietWorkerStep(s: State, a: Step)
    requires Enabled(s, a) && IsWorkerStep(a) && !a.WorkerSend? && !a.WorkerSnapshot? && !a.WorkerSent?
    ensures Apply(s, a).async == s.async && !Apply(s, a).worker.Sending? && !s.worker.Sending?
  {
  }

  lemma StepDelivers(s: State, a: Step)
    requires Enabled(s, a) && Batched(s) && Delivered(s)
    ensures Delivered(Apply(s, a))
  {
    forall k ensures Offers(Apply(s, a).async, k) == Offered(Apply(s, a), k) {
      assert Offers(s.async, k) == Offered(s, k);
      StepDeliversTo(s, a, k);
    }
  }

  lemma WorkerStepAlive(s: State, a: Step)
    requires Enabled(s, a) && IsWorkerStep(a) && AliveWhileRunning(s)
    ensures AliveWhileRunning(Apply(s, a))
  {
    WorkerStepIsPrivate(s, a);
    if a.WorkerGet? || a.WorkerCollect? {
      assert s.queue[0] in s.queue;
      assert forall x :: x in s.queue[1..] ==> x in s.queue;
    }
  }

  lemma StepAlive(s: State, a: Step)
    requires Enabled(s, a) && AliveWhileRunning(s)
    ensures AliveWhileRunning(Apply(s, a))
  {
    if IsWorkerStep(a) {
      WorkerStepAlive(s, a);
    } else {
      OtherStepSparesWorker(s, a);
    }
  }

  // ----- events offered by the emitting threads themselves ----------------------------------------

  /** Accepted events are distinct, and every event in a thread's hands is created, unaccepted and its own. */
  ghost predicate Owned(s: State) {
    && Distinct(s.accepted)
    && (forall e :: e in s.accepted ==> e in s.created)
    && (forall t :: t in s.emitters ==> s.emitters[t].event in s.created && s.emitters[t].event !in s.accepted)
    && (forall t, u :: t in s.emitters && u in s.emitters && t != u ==> s.emitters[t].event != s.emitters[u].event)
  }

  /** A thread is in the middle of its direct sends exactly while it holds the lock. */
  ghost predicate Exclusive(s: State) {
    forall t :: (t in s.emitters && s.emitters[t].Direct?) <==> s.lock == Some(t)
  }

  /** A directly emitted event was never queued, and reached a sink only on its thread's way through the list. */
  ghost predicate DirectOnce(s: State) {
    && (forall k :: Distinct(Offers(s.direct, k)))
    && (forall k, e :: e in Offers(s.direct, k) ==> e in s.created && e !in s.accepted)
    && (forall t, k :: t in s.emitters && s.emitters[t].event in Offers(s.direct, k) ==>
          s.emitters[t].Direct? && Reached(s.sinks, s.emitters[t].next, k))
  }

  lemma DistinctGrows<T>(s: seq<T>, x: T)
    requires Distinct(s) && x !in s
    ensures Distinct(s + [x])
  {
  }

  /** A step that emits nothing leaves every thread with the event it had. */
  lemma SilentStepOwns(s: State, a: Step)
    requires Enabled(s, a) && Owned(s)
    requires !a.EmitAccepted? && !a.EmitFull? && !a.EmitSync? && !IsWorkerStep(a)
    ensures Owned(Apply(s, a))
  {
    var s' := Apply(s, a);
    assert s'.accepted == s.accepted && s'.created == s.created;
    assert forall t :: t in s'.emitters ==> t in s.emitters && s'.emitters[t].event == s.emitters[t].event;
  }

  lemma StepOwns(s: State, a: Step)
    requires Enabled(s, a) && Owned(s)
    ensures Owned(Apply(s, a))
  {
    if a.EmitAccepted? {
      DistinctGrows(s.accepted, a.event);
    } else if IsWorkerStep(a) {
      WorkerStepIsPrivate(s, a);
    } else if a.EmitFull? || a.EmitSync? {
      WaitingStepOwns(s, a);
    } else {
      SilentStepOwns(s, a);
    }
  }

  /** A thread that starts to emit directly brings a fresh event. */
  lemma WaitingStepOwns(s: State, a: Step)
    requires Enabled(s, a) && Owned(s) && (a.EmitFull? || a.EmitSync?)
    ensures Owned(Apply(s, a))
  {
    assert Apply(s, a).emitters == s.emitters[a.thread := Waiting(a.event)];
  }

  lemma StepExcludes(s: State, a: Step)
    requires Enabled(s, a) && Exclusive(s)
    ensures Exclusive(Apply(s, a))
  {
    if IsWorkerStep(a) {
      WorkerStepIsPrivate(s, a);
    }
  }

  lemma DirectSendOnce(s: State, t: Thread)
    requires Enabled(s, DirectSend(t)) && Owned(s) && Exclusive(s) && DirectOnce(s) && Distinct(s.sinks)
    ensures DirectOnce(Apply(s, DirectSend(t)))
  {
    var s', e, next := Apply(s, DirectSend(t)), s.emitters[t].event, s.emitters[t].next;
    var k := s.sinks[next];
    ReachedNext(s.sinks, next, k);
    assert e !in Offers(s.direct, k);
    forall j, x | x in Offers(s'.direct, j) ensures x in Offers(s.direct, j) || (j == k && x == e) {
    }
    forall j ensures Distinct(Offers(s'.direct, j)) {
      assert Distinct(Offers(s.direct, j));
    }
    forall j, x | x in Offers(s'.direct, j) ensures x in s'.created && x !in s'.accepted {
      assert x in Offers(s.direct, j) || x == e;
    }
    forall u, j | u in s'.emitters && s'.emitters[u].event in Offers(s'.direct, j)
      ensures s'.emitters[u].Direct? && Reached(s'.sinks, s'.emitters[u].next, j)
    {
      ReachedNext(s.sinks, next, j);
      assert s'.emitters[u].event == s.emitters[u].event;
      assert s.emitters[u].event in Offers(s.direct, j) || u == t;
    }
  }

  /** Steps that leave the direct offers alone and move no thread's event. */
  lemma QuietStepOnce(s: State, a: Step)
    requires Enabled(s, a) && Owned(s) && Exclusive(s) && DirectOnce(s) && !a.DirectSend? && !IsWorkerStep(a)
    ensures DirectOnce(Apply(s, a))
  {
    var s' := Apply(s, a);
    assert s'.direct == s.direct;
    forall t, k | t in s'.emitters && s'.emitters[t].event in Offers(s'.direct, k)
      ensures s'.emitters[t].Direct? && Reached(s'.sinks, s'.emitters[t].next, k)
    {
      assert s'.emitters[t].event in s.created;
    }
  }

  lemma StepDirectOnce(s: State, a: Step)
    requires Enabled(s, a) && Owned(s) && Exclusive(s) && DirectOnce(s) && Distinct(s.sinks)
    ensures DirectOnce(Apply(s, a))
  {
    if a.DirectSend? {
      DirectSendOnce(s, a.thread);
    } else if IsWorkerStep(a) {
      WorkerStepIsPrivate(s, a);
    } else {
      QuietStepOnce(s, a);
    }
  }

  // ----- over every run ---------------------------------------------------------------------------

  ghost predicate Inv(s: State) {
    && Conserved(s) && Counted(s) && Batched(s) && Delivered(s) && AliveWhileRunning(s)
    && Owned(s) && Exclusive(s) && DirectOnce(s)
  }

  lemma InitHolds(enableWorker: bool, sinks: seq<Sink>)
    requires Distinct(sinks)
    ensures Inv(Init(enableWorker, sinks))
  {
  }

  lemma StepHolds(s: State, a: Step)
    requires Enabled(s, a) && Inv(s)
    ensures Inv(Apply(s, a))
  {
    StepConserves(s, a);
    StepCounts(s, a);
    StepBatches(s, a);
    StepDelivers(s, a);
    StepAlive(s, a);
    StepOwns(s, a);
    StepExcludes(s, a);
    StepDirectOnce(s, a);
  }

  /** Every interleaving of steps keeps the invariant. */
  lemma {:induction false} RunHolds(s: State, steps: seq<Step>)
    requires Inv(s) && ValidRun(s, steps)
    ensures Inv(RunFrom(s, steps))
    decreases |steps|
  {
    if steps != [] {
      StepHolds(s, steps[0]);
      RunHolds(Apply(s, steps[0]), steps[1..]);
    }
  }
}
