/** Safety of the process protocol over every interleaving. */
module ProcessSafety {
  import opened Wrappers
  import opened ProcessSlots
  import opened ProcessProtocol

  // ----- What every step keeps -----

  /** The thread holds the coordinator in every phase between waiting for it and being done. */
  predicate Holds(phase: Phase) {
    !phase.Waiting? && !phase.Done?
  }

  predicate MainHolds(main: Main) {
    main.Retiring? || main.TakingAll? || main.StoppingAll? || main.Exited?
  }

  /** The attempt was found current after its thread took over the slot, and its process is not installed yet. */
  predicate Owning(phase: Phase) {
    phase.Starting? || phase.Running? || phase.Failed? || phase.Sleeping? || phase.GivingUp? || phase.Started? || phase.Stale?
  }

  /** The processes a thread answers for. */
  function Held(phase: Phase): seq<Pid> {
    match phase
    case Stopping(list) => list
    case Running(pid) => [pid]
    case Started(pid) => [pid]
    case Stale(pid) => [pid]
    case _ => []
  }

  /** The processes the holder of the coordinator answers for. */
  function HeldNow(s: State): seq<Pid> {
    match s.coordinator
    case Nobody => []
    case ByThread(tid) => if tid in s.threads then Held(s.threads[tid].phase) else []
    case ByMain => if s.main.StoppingAll? then s.main.list else []
  }

  ghost predicate CoordinatorInv(s: State) {
    && (forall tid :: tid in s.threads ==> (Holds(s.threads[tid].phase) <==> s.coordinator == ByThread(tid)))
    && (s.coordinator.ByThread? ==> s.coordinator.tid in s.threads)
    && (MainHolds(s.main) <==> s.coordinator.ByMain?)
  }

  /** Attempts are unique, and none of them is ahead of the published one. */
  ghost predicate AttemptInv(s: State) {
    && (forall tid :: tid in s.threads && s.threads[tid].attempt.Some? ==> s.threads[tid].attempt.value in s.used)
    && (forall t, u :: t in s.threads && u in s.threads && t != u && s.threads[t].attempt.Some?
          ==> s.threads[t].attempt != s.threads[u].attempt)
    && (forall a :: a in s.used ==> a <= s.slot.attemptId)
    && (s.main.Idle? || s.main.Pending? ==> s.slot.attemptId <= s.modelId)
    && (s.main.Pending? ==> s.main.attempt == s.slot.attemptId)
    && (s.main.Pending? && s.main.request.ConnectRequest? ==> s.main.attempt !in s.used)
  }

  /** At most one process is known at all, and every live one is known. */
  ghost predicate KnownInv(s: State) {
    && |Known(s.slot)| + |HeldNow(s)| <= 1
    && forall pid :: pid in s.live ==> pid in Known(s.slot) || pid in HeldNow(s)
  }

  /** What a connect thread can rely on. */
  ghost predicate ThreadInv(s: State, thread: Thread) {
    && (thread.attempt.None? ==> thread.phase.Waiting? || thread.phase.Taking? || thread.phase.Stopping? || thread.phase.Done?)
    && (Owning(thread.phase) ==> Known(s.slot) == [])
    && (thread.attempt == Some(s.slot.attemptId) && !thread.phase.Installed? && !thread.phase.Done? ==> s.slot.handle.None?)
    && (thread.attempt == Some(s.slot.attemptId) && (thread.phase.Stopping? || thread.phase.Checking?) ==> s.slot.retired == [])
  }

  /** From the moment shutdown moves the attempt on, no waiting thread can be current; in the end nothing is left. */
  ghost predicate ShutdownInv(s: State) {
    && (s.main.Locking? || MainHolds(s.main) || s.main.Released? ==>
          forall tid :: tid in s.threads && s.threads[tid].attempt.Some? ==> s.threads[tid].attempt.value < s.slot.attemptId)
    && (MainHolds(s.main) || s.main.Released? ==> forall tid :: tid in s.threads ==> !Owning(s.threads[tid].phase))
    && (s.main.TakingAll? ==> s.slot.handle.None?)
    && (s.main.StoppingAll? ==> Known(s.slot) == [])
    && (s.main.Exited? || s.main.Released? ==> Known(s.slot) == [] && HeldNow(s) == [] && s.live == {})
  }

  ghost predicate Inv(s: State) {
    && CoordinatorInv(s)
    && AttemptInv(s)
    && KnownInv(s)
    && (forall tid :: tid in s.threads ==> ThreadInv(s, s.threads[tid]))
    && ShutdownInv(s)
  }

  lemma InitIsSafe(attempt: nat)
    ensures Inv(Init(attempt))
  {}

  lemma MainStepKeepsCoordinator(s: State, a: Action)
    requires CoordinatorInv(s) && MainStep(s, a).Some?
    ensures CoordinatorInv(MainStep(s, a).value)
  {}

  lemma ConnectKeepsAttempts(s: State, tid: Tid)
    requires AttemptInv(s) && MainStep(s, DoConnect(tid)).Some?
    ensures AttemptInv(MainStep(s, DoConnect(tid)).value)
  {}

  lemma MainStepKeepsAttempts(s: State, a: Action)
    requires AttemptInv(s) && MainStep(s, a).Some?
    ensures AttemptInv(MainStep(s, a).value)
  {
    if a.DoConnect? {
      ConnectKeepsAttempts(s, a.tid);
    } else {
      var s' := MainStep(s, a).value;
      assert s'.used == s.used && s.slot.attemptId <= s'.slot.attemptId;
    }
  }

  lemma MainStepKeepsKnown(s: State, a: Action)
    requires Inv(s) && MainStep(s, a).Some?
    ensures var s' := MainStep(s, a).value; KnownInv(s')
  {}

  lemma MainStepKeepsThreads(s: State, a: Action)
    requires Inv(s) && MainStep(s, a).Some?
    ensures var s' := MainStep(s, a).value; forall t :: t in s'.threads ==> ThreadInv(s', s'.threads[t])
  {}

  lemma MainStepKeepsShutdown(s: State, a: Action)
    requires CoordinatorInv(s) && AttemptInv(s) && KnownInv(s) && ShutdownInv(s) && MainStep(s, a).Some?
    ensures var s' := MainStep(s, a).value; ShutdownInv(s')
  {}

  /** All a thread step can touch outside the slot and the processes: its own phase, and the coordinator. */
  ghost predicate ThreadStepShape(s: State, s': State, tid: Tid, phase: Phase) {
    && tid in s.threads
    && s'.threads == s.threads[tid := s.threads[tid].(phase := phase)]
    && s'.main == s.main && s'.modelId == s.modelId && s'.used == s.used && s'.slot.attemptId == s.slot.attemptId
    && (s.coordinator == ByThread(tid) || (s.threads[tid].phase.Waiting? && s.coordinator.Nobody?))
    && s'.coordinator == (if phase.Done? then Nobody else ByThread(tid))
    && !phase.Waiting?
    && (Owning(phase) ==> Owning(s.threads[tid].phase) || s.threads[tid].attempt == Some(s.slot.attemptId))
  }

  predicate TakesOver(a: Action) {
    a.Acquire? || a.Take? || a.StopOne? || a.StoppedAll?
  }

  predicate Starts(a: Action) {
    a.Check? || a.Spawn? || a.SpawnFails? || a.Ready?
  }

  lemma TakingOverHasShape(s: State, tid: Tid, a: Action)
    requires CoordinatorInv(s) && tid in s.threads && TakesOver(a) && ThreadStep(s, tid, a).Some?
    ensures var s' := ThreadStep(s, tid, a).value;
            tid in s'.threads && ThreadStepShape(s, s', tid, s'.threads[tid].phase)
  {
    assert Holds(s.threads[tid].phase) <==> s.coordinator == ByThread(tid);
  }

  lemma StartingHasShape(s: State, tid: Tid, a: Action)
    requires CoordinatorInv(s) && tid in s.threads && Starts(a) && ThreadStep(s, tid, a).Some?
    ensures var s' := ThreadStep(s, tid, a).value;
            tid in s'.threads && ThreadStepShape(s, s', tid, s'.threads[tid].phase)
  {
    assert Holds(s.threads[tid].phase) <==> s.coordinator == ByThread(tid);
  }

  lemma EndingHasShape(s: State, tid: Tid, a: Action)
    requires CoordinatorInv(s) && tid in s.threads && !TakesOver(a) && !Starts(a) && ThreadStep(s, tid, a).Some?
    ensures var s' := ThreadStep(s, tid, a).value;
            tid in s'.threads && ThreadStepShape(s, s', tid, s'.threads[tid].phase)
  {
    assert Holds(s.threads[tid].phase) <==> s.coordinator == ByThread(tid);
  }

  lemma ThreadStepHasShape(s: State, tid: Tid, a: Action)
    requires CoordinatorInv(s) && tid in s.threads && ThreadStep(s, tid, a).Some?
    ensures var s' := ThreadStep(s, tid, a).value;
            tid in s'.threads && ThreadStepShape(s, s', tid, s'.threads[tid].phase)
  {
    if TakesOver(a) {
      TakingOverHasShape(s, tid, a);
    } else if Starts(a) {
      StartingHasShape(s, tid, a);
    } else {
      EndingHasShape(s, tid, a);
    }
  }

  lemma ShapeKeepsOwnership(s: State, s': State, tid: Tid, phase: Phase)
    requires CoordinatorInv(s) && AttemptInv(s) && ThreadStepShape(s, s', tid, phase)
    ensures CoordinatorInv(s') && AttemptInv(s')
  {}

  lemma ShapeKeepsShutdown(s: State, s': State, tid: Tid, phase: Phase)
    requires CoordinatorInv(s) && ShutdownInv(s) && ThreadStepShape(s, s', tid, phase) && KnownInv(s')
    requires s.main.Released? ==> Known(s'.slot) == [] && Held(phase) == []
    ensures ShutdownInv(s')
  {}

  /** The slot and the holder keep answering for at most one process, and for every live one. */
  lemma TakingOverKeepsKnown(s: State, tid: Tid, a: Action)
    requires Inv(s) && tid in s.threads && ThreadStep(s, tid, a).Some?
    requires a.Acquire? || a.Take? || a.StopOne? || a.StoppedAll? || a.Check?
    ensures KnownInv(ThreadStep(s, tid, a).value)
  {}

  lemma StartingKeepsKnown(s: State, tid: Tid, a: Action)
    requires Inv(s) && tid in s.threads && ThreadStep(s, tid, a).Some?
    requires a.Spawn? || a.SpawnFails?
    ensures KnownInv(ThreadStep(s, tid, a).value)
  {}

  lemma WaitingKeepsKnown(s: State, tid: Tid, a: Action)
    requires Inv(s) && tid in s.threads && ThreadStep(s, tid, a).Some?
    requires a.Ready? || a.Retry? || a.Wake? || a.Report?
    ensures KnownInv(ThreadStep(s, tid, a).value)
  {}

  lemma PutKeepsKnown(s: State, tid: Tid)
    requires Inv(s) && tid in s.threads && ThreadStep(s, tid, Put(tid)).Some?
    ensures KnownInv(ThreadStep(s, tid, Put(tid)).value)
  {
    assert ThreadInv(s, s.threads[tid]);
  }

  lemma EndingKeepsKnown(s: State, tid: Tid, a: Action)
    requires Inv(s) && tid in s.threads && ThreadStep(s, tid, a).Some?
    requires a.StopStale? || a.Send?
    ensures KnownInv(ThreadStep(s, tid, a).value)
  {}

  /** A thread changes the slot only by emptying the retired list, or by installing the process of the current attempt. */
  ghost predicate SlotShape(s: State, s': State, tid: Tid) {
    && tid in s.threads
    && (s'.slot == s.slot
        || s'.slot == s.slot.(retired := [])
        || (s'.slot == s.slot.(handle := s'.slot.handle) && s.threads[tid].attempt == Some(s.slot.attemptId)))
  }

  lemma ThreadStepSlotShape(s: State, tid: Tid, a: Action)
    requires tid in s.threads && ThreadStep(s, tid, a).Some?
    ensures SlotShape(s, ThreadStep(s, tid, a).value, tid)
  {}

  lemma ShapeKeepsOtherThreads(s: State, s': State, tid: Tid, phase: Phase, t: Tid)
    requires Inv(s) && ThreadStepShape(s, s', tid, phase) && SlotShape(s, s', tid)
    requires t in s.threads && t != tid
    ensures ThreadInv(s', s.threads[t])
  {
    assert ThreadInv(s, s.threads[t]);
    assert !Owning(s.threads[t].phase);
  }

  lemma TakingOverKeepsOwnInv(s: State, tid: Tid, a: Action)
    requires Inv(s) && tid in s.threads && TakesOver(a) && ThreadStep(s, tid, a).Some?
    ensures var s' := ThreadStep(s, tid, a).value; tid in s'.threads && ThreadInv(s', s'.threads[tid])
  {
    assert ThreadInv(s, s.threads[tid]);
  }

  lemma StartingKeepsOwnInv(s: State, tid: Tid, a: Action)
    requires Inv(s) && tid in s.threads && Starts(a) && ThreadStep(s, tid, a).Some?
    ensures var s' := ThreadStep(s, tid, a).value; tid in s'.threads && ThreadInv(s', s'.threads[tid])
  {
    assert ThreadInv(s, s.threads[tid]);
  }

  lemma PutKeepsOwnInv(s: State, tid: Tid)
    requires Inv(s) && tid in s.threads && ThreadStep(s, tid, Put(tid)).Some?
    ensures var s' := ThreadStep(s, tid, Put(tid)).value; tid in s'.threads && ThreadInv(s', s'.threads[tid])
  {
    assert ThreadInv(s, s.threads[tid]);
  }

  lemma RetryingKeepsOwnInv(s: State, tid: Tid, a: Action)
    requires Inv(s) && tid in s.threads && (a.Retry? || a.Wake?) && ThreadStep(s, tid, a).Some?
    ensures var s' := ThreadStep(s, tid, a).value; tid in s'.threads && ThreadInv(s', s'.threads[tid])
  {
    assert ThreadInv(s, s.threads[tid]);
  }

  lemma EndingKeepsOwnInv(s: State, tid: Tid, a: Action)
    requires Inv(s) && tid in s.threads && (a.Report? || a.StopStale? || a.Send?) && ThreadStep(s, tid, a).Some?
    ensures var s' := ThreadStep(s, tid, a).value; tid in s'.threads && ThreadInv(s', s'.threads[tid])
  {
    assert ThreadInv(s, s.threads[tid]);
  }

  lemma ThreadStepKeepsThreads(s: State, tid: Tid, a: Action, s': State)
    requires Inv(s) && tid in s.threads && ActionTid(a) == Some(tid) && ThreadStep(s, tid, a) == Some(s')
    ensures forall t :: t in s'.threads ==> ThreadInv(s', s'.threads[t])
  {
    ThreadStepHasShape(s, tid, a);
    ThreadStepSlotShape(s, tid, a);
    if TakesOver(a) {
      TakingOverKeepsOwnInv(s, tid, a);
    } else if Starts(a) {
      StartingKeepsOwnInv(s, tid, a);
    } else if a.Put? {
      PutKeepsOwnInv(s, tid);
    } else if a.Retry? || a.Wake? {
      RetryingKeepsOwnInv(s, tid, a);
    } else {
      EndingKeepsOwnInv(s, tid, a);
    }
    forall t | t in s'.threads && t != tid ensures ThreadInv(s', s'.threads[t]) {
      ShapeKeepsOtherThreads(s, s', tid, s'.threads[tid].phase, t);
    }
  }

  lemma ThreadStepAfterRelease(s: State, tid: Tid, a: Action)
    requires Inv(s) && tid in s.threads && ThreadStep(s, tid, a).Some? && s.main.Released?
    ensures var s' := ThreadStep(s, tid, a).value;
            Known(s'.slot) == [] && (tid in s'.threads ==> Held(s'.threads[tid].phase) == [])
  {
    assert !Owning(s.threads[tid].phase);
  }

  lemma ThreadStepKeepsInv(s: State, tid: Tid, a: Action)
    requires Inv(s) && tid in s.threads && ActionTid(a) == Some(tid) && ThreadStep(s, tid, a).Some?
    ensures Inv(ThreadStep(s, tid, a).value)
  {
    ThreadStepHasShape(s, tid, a);
    var s' := ThreadStep(s, tid, a).value;
    var phase := s'.threads[tid].phase;
    ShapeKeepsOwnership(s, s', tid, phase);
    if a.Acquire? || a.Take? || a.StopOne? || a.StoppedAll? || a.Check? {
      TakingOverKeepsKnown(s, tid, a);
    } else if a.Spawn? || a.SpawnFails? {
      StartingKeepsKnown(s, tid, a);
    } else if a.Ready? || a.Retry? || a.Wake? || a.Report? {
      WaitingKeepsKnown(s, tid, a);
    } else if a.Put? {
      PutKeepsKnown(s, tid);
    } else {
      EndingKeepsKnown(s, tid, a);
    }
    ThreadStepKeepsThreads(s, tid, a, s');
    if s.main.Released? { ThreadStepAfterRelease(s, tid, a); }
    ShapeKeepsShutdown(s, s', tid, phase);
  }

  lemma DeathKeepsInv(s: State, pid: Pid)
    requires Inv(s)
    ensures Inv(Next(s, Die(pid)).value)
  {}

  lemma PollKeepsInv(s: State)
    requires Inv(s) && Next(s, Poll).Some?
    ensures Inv(Next(s, Poll).value)
  {}

  lemma StepKeepsInv(s: State, a: Action)
    requires Inv(s) && Next(s, a).Some?
    ensures Inv(Next(s, a).value)
  {
    match ActionTid(a) {
      case Some(tid) =>
        ThreadStepKeepsInv(s, tid, a);
      case None =>
        if a.Die? {
          DeathKeepsInv(s, a.pid);
        } else if a.Poll? {
          PollKeepsInv(s);
        } else {
          MainStepKeepsCoordinator(s, a);
          MainStepKeepsAttempts(s, a);
          MainStepKeepsKnown(s, a);
          MainStepKeepsThreads(s, a);
          MainStepKeepsShutdown(s, a);
        }
    }
  }
}
