/** What holds over whole runs of the process protocol. */
module ProcessRuns {
  import opened Wrappers
  import opened ProcessSlots
  import opened ProcessProtocol
  import opened ProcessSafety

  lemma {:induction false} RunKeepsInv(s: State, actions: seq<Action>)
    requires Inv(s) && Run(s, actions).Some?
    ensures Inv(Run(s, actions).value)
    decreases |actions|
  {
    if actions != [] {
      StepKeepsInv(s, actions[0]);
      RunKeepsInv(Next(s, actions[0]).value, actions[1..]);
    }
  }

  /**
   * In every interleaving at most one process is live, it is in the slot or with whoever holds the coordinator, and
   * putting a process into the slot never replaces another one.
   */
  lemma AtMostOneProcess(attempt: nat, actions: seq<Action>)
    requires Run(Init(attempt), actions).Some?
    ensures var s := Run(Init(attempt), actions).value;
            && (forall p, q :: p in s.live && q in s.live ==> p == q)
            && (forall p :: p in s.live ==> s.slot.handle == Some(p) || p in s.slot.retired || p in HeldNow(s))
            && (forall tid :: tid in s.threads && Next(s, Put(tid)).Some? && Next(s, Put(tid)).value.slot != s.slot ==> s.slot.handle.None?)
  {
    InitIsSafe(attempt);
    RunKeepsInv(Init(attempt), actions);
    var s := Run(Init(attempt), actions).value;
    forall p, q | p in s.live && q in s.live ensures p == q {
      OnlyOne(Known(s.slot), HeldNow(s), p, q);
    }
    forall tid | tid in s.threads && Next(s, Put(tid)).Some? && Next(s, Put(tid)).value.slot != s.slot
      ensures s.slot.handle.None?
    {
      assert ThreadInv(s, s.threads[tid]);
    }
  }

  lemma OnlyOne(xs: seq<Pid>, ys: seq<Pid>, p: Pid, q: Pid)
    requires |xs| + |ys| <= 1 && (p in xs || p in ys) && (q in xs || q in ys)
    ensures p == q
  {
    assert |xs| == 0 || |ys| == 0;
  }

  // ----- Shutdown -----

  ghost predicate Over(s: State) {
    s.main.Exited? || s.main.Released?
  }

  lemma {:induction false} OverStaysOver(s: State, actions: seq<Action>)
    requires Over(s) && Run(s, actions).Some?
    ensures Over(Run(s, actions).value)
    decreases |actions|
  {
    if actions != [] {
      StepStaysOver(s, actions[0]);
      OverStaysOver(Next(s, actions[0]).value, actions[1..]);
    }
  }

  lemma StepStaysOver(s: State, a: Action)
    requires Over(s) && Next(s, a).Some?
    ensures Over(Next(s, a).value)
  {}

  /** Once shutdown has stopped everything, no process is live, and none is ever started again. */
  lemma NothingRunsAfterShutdown(attempt: nat, actions: seq<Action>, more: seq<Action>)
    requires Run(Init(attempt), actions).Some? && Over(Run(Init(attempt), actions).value)
    requires Run(Run(Init(attempt), actions).value, more).Some?
    ensures var s := Run(Run(Init(attempt), actions).value, more).value;
            s.live == {} && forall tid, pid :: Next(s, Spawn(tid, pid)).None?
  {
    InitIsSafe(attempt);
    RunKeepsInv(Init(attempt), actions);
    var exited := Run(Init(attempt), actions).value;
    RunKeepsInv(exited, more);
    OverStaysOver(exited, more);
    var s := Run(exited, more).value;
    forall tid, pid ensures Next(s, Spawn(tid, pid)).None? {
      OverCannotSpawn(s, tid, pid);
    }
  }

  lemma OverCannotSpawn(s: State, tid: Tid, pid: Pid)
    requires CoordinatorInv(s) && ShutdownInv(s) && Over(s)
    ensures Next(s, Spawn(tid, pid)).None?
  {
    if tid in s.threads { assert !Owning(s.threads[tid].phase); }
  }

  // ----- History: whose process is whose -----

  /** The process was put into the slot by the attempt that started it. */
  ghost predicate Belongs(s: State, pid: Pid) {
    pid in s.startedBy && s.startedBy[pid] in s.installed && s.installed[s.startedBy[pid]] == pid
  }

  ghost predicate StartedBy(s: State, pid: Pid, attempt: nat) {
    pid in s.startedBy && s.startedBy[pid] == attempt
  }

  ghost predicate ThreadHistory(s: State, thread: Thread) {
    && (thread.phase.Stopping? ==> forall pid :: pid in thread.phase.list ==> Belongs(s, pid))
    && (thread.attempt.Some? ==>
          && (!thread.phase.Stopping? ==> forall pid :: pid in Held(thread.phase) ==> StartedBy(s, pid, thread.attempt.value))
          && (thread.phase.Installed? ==> Belongs(s, thread.phase.pid) && StartedBy(s, thread.phase.pid, thread.attempt.value))
          && (!thread.phase.Installed? && !thread.phase.Done? ==> thread.attempt.value !in s.installed))
  }

  ghost predicate ProcessHistory(s: State) {
    && (forall pid :: pid in Known(s.slot) ==> Belongs(s, pid))
    && (s.main.StoppingAll? ==> forall pid :: pid in s.main.list ==> Belongs(s, pid))
    && (forall tid :: tid in s.threads ==> ThreadHistory(s, s.threads[tid]))
    && (forall a :: a in s.installed ==> a in s.used)
  }

  lemma RetireKeepsMembers(slot: Slot, attempt: nat)
    ensures forall pid :: pid in Known(Retire(slot)) <==> pid in Known(slot)
    ensures forall pid :: pid in Known(Supersede(slot, attempt)) <==> pid in Known(slot)
  {}

  lemma MainStepKeepsSlotHistory(s: State, a: Action)
    requires ProcessHistory(s) && MainStep(s, a).Some?
    ensures var s' := MainStep(s, a).value; forall pid :: pid in Known(s'.slot) ==> Belongs(s', pid)
  {
    var s' := MainStep(s, a).value;
    forall pid | pid in Known(s'.slot) ensures pid in Known(s.slot) {
      RetireKeepsMembers(s.slot, s'.slot.attemptId);
    }
    assert s'.startedBy == s.startedBy && s'.installed == s.installed;
  }

  lemma MainStepKeepsListHistory(s: State, a: Action)
    requires ProcessHistory(s) && MainStep(s, a).Some?
    ensures var s' := MainStep(s, a).value; s'.main.StoppingAll? ==> forall pid :: pid in s'.main.list ==> Belongs(s', pid)
  {
    if s.main.StoppingAll? && s.main.list != [] { assert forall pid :: pid in s.main.list[1..] ==> pid in s.main.list; }
    assert forall pid :: pid in s.slot.retired ==> pid in Known(s.slot);
  }

  lemma MainStepKeepsThreadHistory(s: State, a: Action)
    requires AttemptInv(s) && ProcessHistory(s) && MainStep(s, a).Some?
    ensures var s' := MainStep(s, a).value;
            && (forall tid :: tid in s'.threads ==> ThreadHistory(s', s'.threads[tid]))
            && (forall a :: a in s'.installed ==> a in s'.used)
  {
    var s' := MainStep(s, a).value;
    assert s'.startedBy == s.startedBy && s'.installed == s.installed;
    forall tid | tid in s'.threads ensures ThreadHistory(s', s'.threads[tid]) {
      if tid in s.threads { assert ThreadHistory(s, s.threads[tid]); }
    }
  }

  lemma MainStepKeepsProcesses(s: State, a: Action)
    requires Inv(s) && ProcessHistory(s) && MainStep(s, a).Some?
    ensures ProcessHistory(MainStep(s, a).value)
  {
    MainStepKeepsSlotHistory(s, a);
    MainStepKeepsListHistory(s, a);
    MainStepKeepsThreadHistory(s, a);
  }

  /** A thread step adds to the history, and only what its own attempt does. */
  ghost predicate Extends(s: State, s': State, tid: Tid) {
    && tid in s.threads && tid in s'.threads
    && s'.threads == s.threads[tid := s'.threads[tid]] && s'.threads[tid].attempt == s.threads[tid].attempt
    && s'.used == s.used && s'.main == s.main
    && (forall pid :: pid in s.startedBy ==> pid in s'.startedBy && s'.startedBy[pid] == s.startedBy[pid])
    && (forall a :: a in s.installed ==> a in s'.installed && s'.installed[a] == s.installed[a])
    && (forall a :: a in s'.installed ==> a in s.installed || s.threads[tid].attempt == Some(a))
  }

  lemma QuietStepExtends(s: State, tid: Tid, a: Action)
    requires tid in s.threads && (TakesOver(a) || Starts(a)) && !a.Spawn? && ThreadStep(s, tid, a).Some?
    ensures Extends(s, ThreadStep(s, tid, a).value, tid)
  {}

  lemma SpawnExtends(s: State, tid: Tid, pid: Pid)
    requires tid in s.threads && ThreadStep(s, tid, Spawn(tid, pid)).Some?
    ensures Extends(s, ThreadStep(s, tid, Spawn(tid, pid)).value, tid)
  {}

  lemma EndingStepExtends(s: State, tid: Tid, a: Action)
    requires tid in s.threads && ThreadHistory(s, s.threads[tid]) && !TakesOver(a) && !Starts(a) && ThreadStep(s, tid, a).Some?
    ensures Extends(s, ThreadStep(s, tid, a).value, tid)
  {}

  lemma StepExtends(s: State, tid: Tid, a: Action)
    requires tid in s.threads && ThreadHistory(s, s.threads[tid]) && ActionTid(a) == Some(tid) && ThreadStep(s, tid, a).Some?
    ensures Extends(s, ThreadStep(s, tid, a).value, tid)
  {
    if a.Spawn? {
      SpawnExtends(s, tid, a.pid);
    } else if TakesOver(a) || Starts(a) {
      QuietStepExtends(s, tid, a);
    } else {
      EndingStepExtends(s, tid, a);
    }
  }

  ghost predicate OwnHistory(s: State, tid: Tid) {
    && tid in s.threads && ThreadHistory(s, s.threads[tid])
    && forall pid :: pid in Known(s.slot) ==> Belongs(s, pid)
  }

  lemma ExtendsKeepsProcesses(s: State, s': State, tid: Tid)
    requires AttemptInv(s) && ProcessHistory(s) && Extends(s, s', tid) && OwnHistory(s', tid)
    ensures ProcessHistory(s')
  {
    forall t | t in s'.threads ensures ThreadHistory(s', s'.threads[t]) {
      assert ThreadHistory(s, s.threads[t]);
    }
  }

  /** Taking the slot's processes over and stopping them. */
  lemma QuietStepKeepsOwnHistory(s: State, tid: Tid, a: Action)
    requires tid in s.threads && OwnHistory(s, tid) && ThreadStep(s, tid, a).Some?
    requires a.Acquire? || a.Take? || a.StopOne? || a.StoppedAll?
    ensures OwnHistory(ThreadStep(s, tid, a).value, tid)
  {
    var phase := s.threads[tid].phase;
    if phase.Stopping? && phase.list != [] { assert forall pid :: pid in phase.list[1..] ==> pid in phase.list; }
    assert forall pid :: pid in s.slot.retired ==> pid in Known(s.slot);
    assert forall pid :: pid in Known(s.slot.(retired := [])) ==> pid in Known(s.slot);
  }

  lemma HeldIsStarted(s: State, thread: Thread)
    requires ThreadHistory(s, thread) && thread.attempt.Some?
    requires thread.phase.Running? || thread.phase.Started? || thread.phase.Stale?
    ensures StartedBy(s, thread.phase.pid, thread.attempt.value)
  {
    assert thread.phase.pid in Held(thread.phase);
  }

  lemma WaitingStepKeepsOwnHistory(s: State, tid: Tid, a: Action)
    requires tid in s.threads && OwnHistory(s, tid) && s.threads[tid].attempt.Some? && ThreadStep(s, tid, a).Some?
    requires a.Check? || a.SpawnFails? || a.Ready? || a.Retry? || a.Wake?
    ensures OwnHistory(ThreadStep(s, tid, a).value, tid)
  {
    if s.threads[tid].phase.Running? { HeldIsStarted(s, s.threads[tid]); }
  }

  lemma EndingStepKeepsOwnHistory(s: State, tid: Tid, a: Action)
    requires tid in s.threads && OwnHistory(s, tid) && ThreadStep(s, tid, a).Some?
    requires a.Report? || a.StopStale? || a.Send?
    ensures OwnHistory(ThreadStep(s, tid, a).value, tid)
  {}

  lemma SpawnKeepsOwnHistory(s: State, tid: Tid, pid: Pid)
    requires tid in s.threads && OwnHistory(s, tid) && ThreadStep(s, tid, Spawn(tid, pid)).Some?
    ensures OwnHistory(ThreadStep(s, tid, Spawn(tid, pid)).value, tid)
  {
    var s' := ThreadStep(s, tid, Spawn(tid, pid)).value;
    assert forall p :: Belongs(s, p) ==> Belongs(s', p);
  }

  lemma PutKeepsOwnHistory(s: State, tid: Tid)
    requires tid in s.threads && ThreadInv(s, s.threads[tid]) && OwnHistory(s, tid) && ThreadStep(s, tid, Put(tid)).Some?
    ensures OwnHistory(ThreadStep(s, tid, Put(tid)).value, tid)
  {
    HeldIsStarted(s, s.threads[tid]);
  }

  // ----- History: what was reported -----

  ghost predicate Answers(m: Message, attempt: nat) {
    !m.SingBoxExited? && m.attempt == attempt
  }

  ghost predicate MessageHistory(s: State) {
    && (forall tid :: tid in s.threads && s.threads[tid].attempt.Some? && !s.threads[tid].phase.Done? ==>
          forall i :: 0 <= i < |s.sent| ==> !Answers(s.sent[i], s.threads[tid].attempt.value))
    && (forall i :: 0 <= i < |s.sent| && !s.sent[i].SingBoxExited? ==> s.sent[i].attempt in s.used)
    && (forall i :: 0 <= i < |s.sent| && s.sent[i].Connected? ==>
          s.sent[i].attempt in s.installed && s.installed[s.sent[i].attempt] == s.sent[i].pid)
    && (forall i, j :: 0 <= i < j < |s.sent| && !s.sent[i].SingBoxExited? ==> !Answers(s.sent[j], s.sent[i].attempt))
  }

  lemma MainStepKeepsMessages(s: State, a: Action)
    requires Inv(s) && MessageHistory(s) && MainStep(s, a).Some?
    ensures MessageHistory(MainStep(s, a).value)
  {}

  /** What a thread step may report: nothing, or one answer of its own attempt as it ends. */
  ghost predicate Reports(s: State, s': State, tid: Tid) {
    && tid in s.threads && tid in s'.threads && !s.threads[tid].phase.Done?
    && (s'.sent == s.sent
        || exists m :: s'.sent == s.sent + [m] && s'.threads[tid].phase.Done? && s.threads[tid].attempt
            == Some(m.attempt)
                       && !m.SingBoxExited? && (m.Connected? ==> m.attempt in s'.installed && s'.installed[m.attempt] == m.pid))
  }

  lemma QuietStepReports(s: State, tid: Tid, a: Action)
    requires tid in s.threads && ThreadStep(s, tid, a).Some?
    requires !a.Report? && !a.Send?
    ensures Reports(s, ThreadStep(s, tid, a).value, tid)
  {}

  lemma EndingStepReports(s: State, tid: Tid, a: Action)
    requires tid in s.threads && ThreadHistory(s, s.threads[tid]) && ThreadStep(s, tid, a).Some?
    requires a.Report? || a.Send?
    ensures Reports(s, ThreadStep(s, tid, a).value, tid)
  {
    var s' := ThreadStep(s, tid, a).value;
    var attempt := s.threads[tid].attempt.value;
    if a.Send? {
      assert s'.sent == s.sent + [Connected(attempt, s.threads[tid].phase.pid)];
    } else if s.slot.attemptId == attempt {
      assert s'.sent == s.sent + [ConnectFailed(attempt)];
    }
  }

  lemma ReportsKeepMessages(s: State, s': State, tid: Tid)
    requires AttemptInv(s) && MessageHistory(s) && Extends(s, s', tid) && Reports(s, s', tid)
    ensures MessageHistory(s')
  {}

  // ----- Every reachable state -----

  ghost predicate History(s: State) {
    Inv(s) && ProcessHistory(s) && MessageHistory(s)
  }

  lemma PollKeepsProcesses(s: State)
    requires ProcessHistory(s) && Next(s, Poll).Some?
    ensures ProcessHistory(Next(s, Poll).value)
  {
    var s' := Next(s, Poll).value;
    assert forall pid :: pid in Known(s'.slot) ==> pid in Known(s.slot);
    forall t | t in s'.threads ensures ThreadHistory(s', s'.threads[t]) {
      assert ThreadHistory(s, s.threads[t]);
    }
  }

  lemma PollKeepsMessages(s: State)
    requires MessageHistory(s) && Next(s, Poll).Some?
    ensures MessageHistory(Next(s, Poll).value)
  {}

  lemma ThreadStepKeepsOwnHistory(s: State, tid: Tid, a: Action)
    requires History(s) && tid in s.threads && ActionTid(a) == Some(tid) && ThreadStep(s, tid, a).Some?
    ensures OwnHistory(ThreadStep(s, tid, a).value, tid)
  {
    if a.Acquire? || a.Take? || a.StopOne? || a.StoppedAll? {
      QuietStepKeepsOwnHistory(s, tid, a);
    } else if a.Check? || a.SpawnFails? || a.Ready? || a.Retry? || a.Wake? {
      WaitingStepKeepsOwnHistory(s, tid, a);
    } else if a.Spawn? {
      SpawnKeepsOwnHistory(s, tid, a.pid);
    } else if a.Put? {
      PutKeepsOwnHistory(s, tid);
    } else {
      EndingStepKeepsOwnHistory(s, tid, a);
    }
  }

  lemma ThreadStepKeepsHistory(s: State, tid: Tid, a: Action)
    requires History(s) && tid in s.threads && ActionTid(a) == Some(tid) && ThreadStep(s, tid, a).Some?
    ensures ProcessHistory(ThreadStep(s, tid, a).value) && MessageHistory(ThreadStep(s, tid, a).value)
  {
    var s' := ThreadStep(s, tid, a).value;
    ThreadStepKeepsOwnHistory(s, tid, a);
    StepExtends(s, tid, a);
    ExtendsKeepsProcesses(s, s', tid);
    if a.Report? || a.Send? { EndingStepReports(s, tid, a); } else { QuietStepReports(s, tid, a); }
    ReportsKeepMessages(s, s', tid);
  }

  lemma StepKeepsHistory(s: State, a: Action)
    requires History(s) && Next(s, a).Some?
    ensures History(Next(s, a).value)
  {
    StepKeepsInv(s, a);
    match ActionTid(a) {
      case Some(tid) => ThreadStepKeepsHistory(s, tid, a);
      case None =>
        if a.Poll? {
          PollKeepsProcesses(s);
          PollKeepsMessages(s);
        } else if !a.Die? {
          MainStepKeepsProcesses(s, a);
          MainStepKeepsMessages(s, a);
        }
    }
  }

  lemma {:induction false} RunKeepsHistory(s: State, actions: seq<Action>)
    requires History(s) && Run(s, actions).Some?
    ensures History(Run(s, actions).value)
    decreases |actions|
  {
    if actions != [] {
      StepKeepsHistory(s, actions[0]);
      RunKeepsHistory(Next(s, actions[0]).value, actions[1..]);
    }
  }

  /** Every attempt is answered at most once, and `Connected` always names the process that attempt put into the slot. */
  lemma AnswersAreUniqueAndTrue(attempt: nat, actions: seq<Action>)
    requires Run(Init(attempt), actions).Some?
    ensures var s := Run(Init(attempt), actions).value;
            && (forall i, j :: 0 <= i < j < |s.sent| && !s.sent[i].SingBoxExited? && !s.sent[j].SingBoxExited? ==>
                  s.sent[i].attempt != s.sent[j].attempt)
            && (forall i :: 0 <= i < |s.sent| && s.sent[i].Connected? ==>
                  s.sent[i].attempt in s.installed && s.installed[s.sent[i].attempt] == s.sent[i].pid)
  {
    InitIsSafe(attempt);
    RunKeepsHistory(Init(attempt), actions);
    var s := Run(Init(attempt), actions).value;
    forall i, j | 0 <= i < j < |s.sent| && !s.sent[i].SingBoxExited? && !s.sent[j].SingBoxExited?
      ensures s.sent[i].attempt != s.sent[j].attempt
    {
      assert !Answers(s.sent[j], s.sent[i].attempt);
    }
  }

  // ----- Superseded attempts -----

  ghost predicate Superseded(s: State, attempt: nat) {
    attempt < s.slot.attemptId && attempt !in s.installed
  }

  lemma ThreadStepInstallsCurrent(s: State, tid: Tid, a: Action, attempt: nat)
    requires tid in s.threads && ThreadStep(s, tid, a).Some?
    ensures attempt in ThreadStep(s, tid, a).value.installed ==> attempt in s.installed || attempt == s.slot.attemptId
  {}

  lemma MainStepMovesOn(s: State, a: Action)
    requires AttemptInv(s) && MainStep(s, a).Some?
    ensures var s' := MainStep(s, a).value; s.slot.attemptId <= s'.slot.attemptId && s'.installed == s.installed
  {}

  lemma StepKeepsSuperseded(s: State, a: Action, attempt: nat)
    requires Inv(s) && Superseded(s, attempt) && Next(s, a).Some?
    ensures Superseded(Next(s, a).value, attempt)
  {
    match ActionTid(a) {
      case Some(tid) =>
        ThreadStepHasShape(s, tid, a);
        ThreadStepInstallsCurrent(s, tid, a, attempt);
      case None =>
        if !a.Poll? && !a.Die? { MainStepMovesOn(s, a); }
    }
  }

  lemma {:induction false} RunKeepsSuperseded(s: State, actions: seq<Action>, attempt: nat)
    requires Inv(s) && Superseded(s, attempt) && Run(s, actions).Some?
    ensures Superseded(Run(s, actions).value, attempt)
    decreases |actions|
  {
    if actions != [] {
      StepKeepsInv(s, actions[0]);
      StepKeepsSuperseded(s, actions[0], attempt);
      RunKeepsSuperseded(Next(s, actions[0]).value, actions[1..], attempt);
    }
  }

  /**
   * An attempt superseded before its process was in the slot never reports `Connected`, and when its thread is done, so
   * when it has let go of the coordinator, none of its processes is live.
   */
  lemma SupersededAttemptLeavesNothing(attempt: nat, actions: seq<Action>, more: seq<Action>, superseded: nat)
    requires Run(Init(attempt), actions).Some? && Superseded(Run(Init(attempt), actions).value, superseded)
    requires Run(Run(Init(attempt), actions).value, more).Some?
    ensures var s := Run(Run(Init(attempt), actions).value, more).value;
            && (forall i :: 0 <= i < |s.sent| && s.sent[i].Connected? ==> s.sent[i].attempt != superseded)
            && (forall tid, pid :: tid in s.threads && s.threads[tid] == Thread(Some(superseded), Done) && pid in s.live ==>
                  !StartedBy(s, pid, superseded))
  {
    InitIsSafe(attempt);
    RunKeepsHistory(Init(attempt), actions);
    var middle := Run(Init(attempt), actions).value;
    RunKeepsHistory(middle, more);
    RunKeepsSuperseded(middle, more, superseded);
    var s := Run(middle, more).value;
    forall tid, pid | tid in s.threads && s.threads[tid] == Thread(Some(superseded), Done) && pid in s.live
      ensures !StartedBy(s, pid, superseded)
    {
      LiveBelongsElsewhere(s, tid, pid);
    }
  }

  lemma LiveBelongsElsewhere(s: State, tid: Tid, pid: Pid)
    requires History(s) && tid in s.threads && s.threads[tid].attempt.Some? && s.threads[tid].phase.Done? && pid in s.live
    requires s.threads[tid].attempt.value !in s.installed
    ensures !StartedBy(s, pid, s.threads[tid].attempt.value)
  {
    if pid in HeldNow(s) && s.coordinator.ByThread? {
      var holder := s.coordinator.tid;
      assert ThreadHistory(s, s.threads[holder]) && ThreadInv(s, s.threads[holder]);
      assert holder != tid;
    }
  }

  // ----- Whose exit is reported -----

  /** The process in the slot is the published attempt's if that attempt ever put one there, and each attempt puts in its own. */
  ghost predicate Owners(s: State) {
    && (s.slot.handle.Some? && s.slot.attemptId in s.installed ==> s.installed[s.slot.attemptId] == s.slot.handle.value)
    && (forall a :: a in s.installed ==> StartedBy(s, s.installed[a], a))
  }

  lemma MainStepKeepsOwners(s: State, a: Action)
    requires AttemptInv(s) && ProcessHistory(s) && Owners(s) && MainStep(s, a).Some?
    ensures Owners(MainStep(s, a).value)
  {
    var s' := MainStep(s, a).value;
    assert s'.startedBy == s.startedBy && s'.installed == s.installed;
    assert s'.slot.attemptId == s.slot.attemptId || s'.slot.attemptId !in s.used;
  }

  lemma ThreadStepLeavesSlot(s: State, tid: Tid, a: Action)
    requires tid in s.threads && ThreadStep(s, tid, a).Some? && !a.Put?
    ensures var s' := ThreadStep(s, tid, a).value;
            s'.slot.handle == s.slot.handle && s'.slot.attemptId == s.slot.attemptId && s'.installed == s.installed
  {}

  lemma ThreadStepKeepsOwners(s: State, tid: Tid, a: Action)
    requires tid in s.threads && ThreadHistory(s, s.threads[tid]) && Owners(s)
    requires ActionTid(a) == Some(tid) && ThreadStep(s, tid, a).Some?
    ensures Owners(ThreadStep(s, tid, a).value)
  {
    if a.Put? {
      HeldIsStarted(s, s.threads[tid]);
    } else {
      ThreadStepLeavesSlot(s, tid, a);
      StepExtends(s, tid, a);
    }
  }

  lemma StepKeepsOwners(s: State, a: Action)
    requires History(s) && Owners(s) && Next(s, a).Some?
    ensures Owners(Next(s, a).value)
  {
    match ActionTid(a) {
      case Some(tid) => ThreadStepKeepsOwners(s, tid, a);
      case None => if !a.Poll? && !a.Die? { MainStepKeepsOwners(s, a); }
    }
  }

  lemma {:induction false} RunKeepsOwners(s: State, actions: seq<Action>)
    requires History(s) && Owners(s) && Run(s, actions).Some?
    ensures Owners(Run(s, actions).value)
    decreases |actions|
  {
    if actions != [] {
      StepKeepsHistory(s, actions[0]);
      StepKeepsOwners(s, actions[0]);
      RunKeepsOwners(Next(s, actions[0]).value, actions[1..]);
    }
  }

  /**
   * An exit is reported for the attempt that started the process exactly when the published attempt has put a process into
   * the slot itself. So one reported for another attempt names one that has not reported `Connected`.
   */
  lemma ExitNamesOwnerIff(attempt: nat, actions: seq<Action>)
    requires Run(Init(attempt), actions).Some? && Next(Run(Init(attempt), actions).value, Poll).Some?
    ensures var s := Run(Init(attempt), actions).value;
            var after := Next(s, Poll).value;
            && s.slot.handle.value in s.startedBy
            && var right := after.sent == s.sent + [SingBoxExited(s.startedBy[s.slot.handle.value])];
               && (right <==> s.slot.attemptId in s.installed)
               && (!right ==> forall i :: 0 <= i < |s.sent| && s.sent[i].Connected? ==> s.sent[i].attempt != s.slot.attemptId)
  {
    InitIsSafe(attempt);
    RunKeepsHistory(Init(attempt), actions);
    RunKeepsOwners(Init(attempt), actions);
    var s := Run(Init(attempt), actions).value;
    assert s.slot.handle.value in Known(s.slot);
    assert Next(s, Poll).value.sent[|s.sent|] == SingBoxExited(s.slot.attemptId);
  }

  lemma OneStep(s: State, a: Action, rest: seq<Action>, next: State)
    requires Next(s, a) == Some(next)
    ensures Run(s, [a] + rest) == Run(next, rest)
  {
    assert ([a] + rest)[1..] == rest;
  }

  // A run in four states: attempt 1 waits, holds the coordinator, has process 7 running; process 7 is reported as attempt 2.

  ghost function WaitingState(): State {
    Init(0).(modelId := 1, slot := Slot(1, None, []), used := {1}, threads := map[0 := Thread(Some(1), Waiting)])
  }

  ghost function HoldingState(phase: Phase): State {
    WaitingState().(coordinator := ByThread(0), threads := map[0 := Thread(Some(1), phase)])
  }

  ghost function RunningState(phase: Phase): State {
    HoldingState(phase).(live := {7}, startedBy := map[7 := 1])
  }

  ghost function ReportedState(): State {
    WaitingState().(modelId := 2, slot := Slot(2, None, []), main := Pending(ConnectRequest, 2), startedBy := map[7 := 1],
                    installed := map[1 := 7], threads := map[0 := Thread(Some(1), Done)],
                    sent := [Connected(1, 7), SingBoxExited(2)])
  }

  lemma SameThreads(s: State, t: State)
    requires s == t.(threads := s.threads) && s.threads.Keys == t.threads.Keys == {0} && s.threads[0] == t.threads[0]
    ensures s == t
  {
    assert s.threads == t.threads;
  }

  /** A step after which the only thread is as in `next`. */
  lemma OneMove(s: State, a: Action, rest: seq<Action>, next: State)
    requires Next(s, a).Some? && Next(s, a).value == next.(threads := Next(s, a).value.threads)
    requires Next(s, a).value.threads.Keys == next.threads.Keys == {0} && Next(s, a).value.threads[0] == next.threads[0]
    ensures Run(s, [a] + rest) == Run(next, rest)
  {
    SameThreads(Next(s, a).value, next);
    OneStep(s, a, rest, next);
  }

  ghost function DoneState(): State {
    WaitingState().(startedBy := map[7 := 1], slot := Slot(1, Some(7), []), installed := map[1 := 7], live := {7},
                    sent := [Connected(1, 7)], threads := map[0 := Thread(Some(1), Done)])
  }

  lemma FromDoneToReported() returns (actions: seq<Action>)
    ensures Run(DoneState(), actions) == Some(ReportedState())
  {
    var dead := DoneState().(live := {});
    var published := dead.(modelId := 2, slot := Slot(2, Some(7), []), main := Pending(ConnectRequest, 2));
    assert [Connected(1, 7)] + [SingBoxExited(2)] == [Connected(1, 7), SingBoxExited(2)];
    assert DoneState().live - {7} == {};
    OneStep(published, Poll, [], ReportedState());
    OneStep(dead, Handle(2, ConnectRequest), [Poll] + [], published);
    actions := [Handle(2, ConnectRequest)] + ([Poll] + []);
    OneStep(DoneState(), Die(7), actions, dead);
    actions := [Die(7)] + actions;
  }

  lemma FromStartedToDone(rest: seq<Action>) returns (actions: seq<Action>)
    ensures Run(RunningState(Started(7)), actions) == Run(DoneState(), rest)
  {
    var installed := RunningState(Installed(7)).(slot := Slot(1, Some(7), []), installed := map[1 := 7]);
    OneMove(installed, Send(0), rest, DoneState());
    actions := [Send(0)] + rest;
    OneMove(RunningState(Started(7)), Put(0), actions, installed);
    actions := [Put(0)] + actions;
  }

  lemma FromRunningToStarted(rest: seq<Action>) returns (actions: seq<Action>)
    ensures Run(RunningState(Running(7)), actions) == Run(RunningState(Started(7)), rest)
  {
    OneMove(RunningState(Running(7)), Ready(0), rest, RunningState(Started(7)));
    actions := [Ready(0)] + rest;
  }

  lemma FromCheckingToRunning(rest: seq<Action>) returns (actions: seq<Action>)
    ensures Run(HoldingState(Checking), actions) == Run(RunningState(Running(7)), rest)
  {
    OneMove(HoldingState(Starting), Spawn(0, 7), rest, RunningState(Running(7)));
    actions := [Spawn(0, 7)] + rest;
    OneMove(HoldingState(Checking), Check(0), actions, HoldingState(Starting));
    actions := [Check(0)] + actions;
  }

  lemma FromWaitingToChecking(rest: seq<Action>) returns (actions: seq<Action>)
    ensures Run(WaitingState(), actions) == Run(HoldingState(Checking), rest)
  {
    OneMove(HoldingState(Stopping([])), StoppedAll(0), rest, HoldingState(Checking));
    actions := [StoppedAll(0)] + rest;
    OneMove(HoldingState(Taking), Take(0), actions, HoldingState(Stopping([])));
    actions := [Take(0)] + actions;
    OneMove(WaitingState(), Acquire(0), actions, HoldingState(Taking));
    actions := [Acquire(0)] + actions;
  }

  /** A process that dies just after the next attempt is published is reported under that attempt. */
  lemma ExitMayNameAnotherAttempt() returns (actions: seq<Action>)
    ensures Run(Init(0), actions).Some?
    ensures var s := Run(Init(0), actions).value; SingBoxExited(2) in s.sent && s.startedBy == map[7 := 1]
  {
    actions := FromDoneToReported();
    actions := FromStartedToDone(actions);
    actions := FromRunningToStarted(actions);
    actions := FromCheckingToRunning(actions);
    actions := FromWaitingToChecking(actions);
    var handled := Init(0).(modelId := 1, slot := Slot(1, None, []), main := Pending(ConnectRequest, 1));
    assert {} + {1} == {1} && map[][0 := Thread(Some(1), Waiting)] == map[0 := Thread(Some(1), Waiting)];
    OneStep(handled, DoConnect(0), actions, WaitingState());
    actions := [DoConnect(0)] + actions;
    OneStep(Init(0), Handle(1, ConnectRequest), actions, handled);
    actions := [Handle(1, ConnectRequest)] + actions;
    assert ReportedState().sent[1] == SingBoxExited(2);
  }
}
