/**
  Events that emitting threads offer to the sinks themselves, in `emit_sync` and in the fallback for a full
  queue: none is dropped, and the sinks are those registered when the thread releases the sink lock.
 */
module DirectDelivery {
  import opened Prelude
  import opened Dispatcher
  import opened DispatcherGuarantees

  /** A thread in the middle of its sends has offered its event to every sink it has passed. */
  ghost predicate PassedSinksServed(s: State) {
    forall t :: t in s.emitters && s.emitters[t].Direct? ==>
      && s.emitters[t].next <= |s.sinks|
      && forall i :: 0 <= i < s.emitters[t].next ==> s.emitters[t].event in Offers(s.direct, s.sinks[i])
  }

  lemma SendServes(s: State, t: Thread)
    requires Enabled(s, DirectSend(t)) && Exclusive(s) && PassedSinksServed(s)
    ensures PassedSinksServed(Apply(s, DirectSend(t)))
  {
    var s', e, next := Apply(s, DirectSend(t)), s.emitters[t].event, s.emitters[t].next;
    forall u | u in s'.emitters && s'.emitters[u].Direct?
      ensures s'.emitters[u].next <= |s'.sinks|
      ensures forall i :: 0 <= i < s'.emitters[u].next ==> s'.emitters[u].event in Offers(s'.direct, s'.sinks[i])
    {
      assert u == t by { assert u in s.emitters && s.emitters[u].Direct?; }
      forall i | 0 <= i < next + 1 ensures e in Offers(s'.direct, s'.sinks[i]) {
        assert i < next ==> e in Offers(s.direct, s.sinks[i]);
      }
    }
  }

  /** Every other step leaves the offers, the sinks of a lock holder and its place alone. */
  lemma OtherStepServes(s: State, a: Step)
    requires Enabled(s, a) && !a.DirectSend? && Exclusive(s) && PassedSinksServed(s)
    ensures PassedSinksServed(Apply(s, a))
  {
    var s' := Apply(s, a);
    assert s'.direct == s.direct;
    forall u | u in s'.emitters && s'.emitters[u].Direct?
      ensures s'.emitters[u].next <= |s'.sinks|
      ensures forall i :: 0 <= i < s'.emitters[u].next ==> s'.emitters[u].event in Offers(s'.direct, s'.sinks[i])
    {
      if a != DirectLock(u) {
        assert u in s.emitters && s.emitters[u] == s'.emitters[u];
        assert s.lock == Some(u) && s'.sinks == s.sinks;
      }
    }
  }

  lemma {:induction false} RunServes(s: State, steps: seq<Step>)
    requires Inv(s) && PassedSinksServed(s) && ValidRun(s, steps)
    ensures PassedSinksServed(RunFrom(s, steps))
    decreases |steps|
  {
    if steps != [] {
      var a := steps[0];
      if a.DirectSend? {
        SendServes(s, a.thread);
      } else {
        OtherStepServes(s, a);
      }
      StepHolds(s, a);
      RunServes(Apply(s, a), steps[1..]);
    }
  }

  lemma ReachableServes(s: State)
    requires Reachable(s)
    ensures Inv(s) && PassedSinksServed(s)
  {
    var enableWorker, sinks, steps :| Reaches(enableWorker, sinks, steps, s);
    InitHolds(enableWorker, sinks);
    RunHolds(Init(enableWorker, sinks), steps);
    RunServes(Init(enableWorker, sinks), steps);
  }

  /** When a thread is done with its sends, every sink on the list has been offered its event. */
  lemma DoneMeansServed(s: State, t: Thread, k: Sink)
    requires Reachable(s) && Enabled(s, DirectUnlock(t)) && k in s.sinks
    ensures s.emitters[t].event in Offers(s.direct, k)
  {
    ReachableServes(s);
    var i :| 0 <= i < |s.sinks| && s.sinks[i] == k;
    assert i < s.emitters[t].next;
  }

  // ----- over the rest of a run -------------------------------------------------------------------

  /** The thread still has the event in its hands. */
  predicate Holds(s: State, t: Thread, e: Event) {
    t in s.emitters && s.emitters[t].event == e
  }

  /** After the first `n` steps the thread was done, and everyone then on the list had been offered the event. */
  ghost predicate ServedAfter(s: State, steps: seq<Step>, n: nat, t: Thread, e: Event)
    requires n <= |steps| && ValidRun(s, steps[..n])
  {
    var m := RunFrom(s, steps[..n]);
    Enabled(m, DirectUnlock(t)) && Holds(m, t, e) && forall k :: k in m.sinks ==> e in Offers(m.direct, k)
  }

  lemma {:induction false} PrefixOfRun(s: State, steps: seq<Step>, n: nat)
    requires ValidRun(s, steps) && n <= |steps|
    ensures ValidRun(s, steps[..n])
    decreases |steps|
  {
    if n > 0 {
      PrefixOfRun(Apply(s, steps[0]), steps[1..], n - 1);
      assert steps[..n][1..] == steps[1..][..n - 1];
    }
  }

  lemma StepKeepsEvent(s: State, a: Step, t: Thread, e: Event)
    requires Enabled(s, a) && Holds(s, t, e) && a != DirectUnlock(t)
    ensures Holds(Apply(s, a), t, e)
  {
  }

  lemma {:induction false} HeldUntilServed(s: State, steps: seq<Step>, t: Thread, e: Event) returns (n: nat)
    requires Reachable(s) && Holds(s, t, e) && ValidRun(s, steps)
    ensures n <= |steps| && ValidRun(s, steps[..n])
    ensures Holds(RunFrom(s, steps), t, e) || ServedAfter(s, steps, n, t, e)
    decreases |steps|
  {
    if steps == [] {
      n := 0;
    } else if steps[0] == DirectUnlock(t) {
      forall k | k in s.sinks ensures e in Offers(s.direct, k) {
        DoneMeansServed(s, t, k);
      }
      n := 0;
    } else {
      var next := ReachableStep(s, steps[0]);
      StepKeepsEvent(s, steps[0], t, e);
      var m := HeldUntilServed(next, steps[1..], t, e);
      n := m + 1;
      assert steps[..n] == [steps[0]] + steps[1..][..m];
      RunCons(s, steps[0], steps[1..][..m]);
    }
  }

  /**
    No event that a thread emits directly is lost: in every continuation of the run the thread still holds
    it, or it was offered to every sink that was registered when the thread finished.
   */
  lemma DirectEventsReachEverySink(s: State, steps: seq<Step>, t: Thread, e: Event) returns (n: nat)
    requires Reachable(s) && ValidRun(s, steps)
    requires steps != [] && (steps[0] == EmitFull(t, e) || steps[0] == EmitSync(t, e))
    ensures n <= |steps| && ValidRun(s, steps[..n])
    ensures Holds(RunFrom(s, steps), t, e) || ServedAfter(s, steps, n, t, e)
  {
    var next := ReachableStep(s, steps[0]);
    var m := HeldUntilServed(next, steps[1..], t, e);
    n := m + 1;
    assert steps[..n] == [steps[0]] + steps[1..][..m];
    RunCons(s, steps[0], steps[1..][..m]);
  }

  /** What a sink was offered stays offered. */
  lemma {:induction false} OffersOnlyGrow(s: State, steps: seq<Step>, k: Sink)
    requires ValidRun(s, steps)
    ensures Offers(s.direct, k) <= Offers(RunFrom(s, steps).direct, k)
    ensures Offers(s.async, k) <= Offers(RunFrom(s, steps).async, k)
    decreases |steps|
  {
    if steps != [] {
      OneStepOffers(s, steps[0], k);
      OffersOnlyGrow(Apply(s, steps[0]), steps[1..], k);
    }
  }

  lemma OneStepOffers(s: State, a: Step, k: Sink)
    requires Enabled(s, a)
    ensures Offers(s.direct, k) <= Offers(Apply(s, a).direct, k)
    ensures Offers(s.async, k) <= Offers(Apply(s, a).async, k)
  {
  }

  // ----- taking an event at all -------------------------------------------------------------------

  /** A new event is always taken: by the queue below 10000 entries, by the emitting thread itself above. */
  lemma EveryEventIsTaken(s: State, t: Thread, e: Event)
    requires e !in s.created && t !in s.emitters
    ensures Enabled(s, EmitAccepted(e)) <==> |s.queue| < 10000
    ensures Enabled(s, EmitFull(t, e)) <==> |s.queue| >= 10000
    ensures |s.queue| < 10000 ==> Apply(s, EmitAccepted(e)).accepted == s.accepted + [e]
    ensures |s.queue| >= 10000 ==> Holds(Apply(s, EmitFull(t, e)), t, e)
  {
  }

  // ----- registration -----------------------------------------------------------------------------

  /** Adding and removing a sink changes nothing else on the list, and clearing leaves the memory sink. */
  lemma RegistrationIsExact(s: State, k: Sink, j: Sink)
    requires s.lock == None && Distinct(s.sinks)
    ensures j in Apply(s, AddSink(k)).sinks <==> j in s.sinks || j == k
    ensures j in Apply(s, RemoveSink(k)).sinks <==> j in s.sinks && j != k
    ensures s.sinks <= Apply(s, AddSink(k)).sinks
    ensures Apply(s, ClearSinks(k)).sinks == [k]
  {
    WithoutDropsOnly(s.sinks, k, j);
  }

  lemma {:induction false} WithoutDropsOnly(sinks: seq<Sink>, k: Sink, j: Sink)
    requires Distinct(sinks)
    ensures j in Without(sinks, k) <==> j in sinks && j != k
  {
    if sinks != [] && sinks[0] != k {
      WithoutDropsOnly(sinks[1..], k, j);
    }
  }

  /** A run that never removes `m` and clears only to `m`, as the manager does with its memory sink. */
  predicate Spares(steps: seq<Step>, m: Sink) {
    forall i :: 0 <= i < |steps| ==> steps[i] != RemoveSink(m) && (steps[i].ClearSinks? ==> steps[i].memory == m)
  }

  lemma SparingStep(s: State, a: Step, m: Sink)
    requires Enabled(s, a) && Distinct(s.sinks) && m in s.sinks && AlwaysRegistered(s, m)
    requires a != RemoveSink(m) && (a.ClearSinks? ==> a.memory == m)
    ensures m in Apply(s, a).sinks && AlwaysRegistered(Apply(s, a), m)
  {
    if a.RemoveSink? {
      WithoutDropsOnly(s.sinks, a.sink, m);
    }
  }

  lemma {:induction false} SparedStays(s: State, steps: seq<Step>, m: Sink)
    requires Inv(s) && ValidRun(s, steps) && m in s.sinks && AlwaysRegistered(s, m) && Spares(steps, m)
    ensures m in RunFrom(s, steps).sinks && AlwaysRegistered(RunFrom(s, steps), m)
    decreases |steps|
  {
    if steps != [] {
      SparingStep(s, steps[0], m);
      StepHolds(s, steps[0]);
      SparedStays(Apply(s, steps[0]), steps[1..], m);
    }
  }

  /** The memory sink sees every accepted event, in order, by the time a flush returns. */
  lemma MemorySinkSeesEverything(enableWorker: bool, sinks: seq<Sink>, steps: seq<Step>, m: Sink)
    requires Distinct(sinks) && m in sinks && ValidRun(Init(enableWorker, sinks), steps) && Spares(steps, m)
    ensures var s := RunFrom(Init(enableWorker, sinks), steps);
      Offers(s.async, m) <= s.accepted && (s.unfinished == 0 ==> Offers(s.async, m) == s.accepted)
  {
    var s := RunFrom(Init(enableWorker, sinks), steps);
    InitHolds(enableWorker, sinks);
    SparedStays(Init(enableWorker, sinks), steps, m);
    assert Reaches(enableWorker, sinks, steps, s);
    OffersFollowAcceptance(s, m);
    if s.unfinished == 0 {
      FlushMeansDelivered(s, m);
    }
  }
}
