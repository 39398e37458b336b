/** What the process protocol gets done: retired processes are stopped, attempts are answered, and nothing is ever stuck. */
module ProcessProgress {
  import opened Wrappers
  import opened ProcessSlots
  import opened ProcessProtocol
  import opened ProcessSafety
  import opened ProcessRuns

  // ----- Retired processes -----

  /** The thread has yet to take what is retired. */
  predicate Comes(phase: Phase) {
    phase.Waiting? || phase.Taking?
  }

  ghost predicate SomeoneComes(s: State) {
    s.main.TakingAll? || exists tid :: tid in s.threads && Comes(s.threads[tid].phase)
  }

  ghost predicate Coming(s: State) {
    s.slot.retired != [] ==> SomeoneComes(s)
  }

  lemma ComerStays(s: State, s': State, tid: Tid)
    requires tid in s'.threads && Comes(s'.threads[tid].phase)
    ensures Coming(s')
  {}

  lemma MainStepKeepsComing(s: State, a: Action)
    requires CoordinatorInv(s) && Coming(s) && MainStep(s, a).Some?
    ensures Coming(MainStep(s, a).value)
  {
    var s' := MainStep(s, a).value;
    if a.DoConnect? || (a.DoDisconnect? && s.slot.handle.Some?) {
      ComerStays(s, s', a.tid);
    } else if s.slot.retired != [] && !s.main.TakingAll? {
      var tid :| tid in s.threads && Comes(s.threads[tid].phase);
      ComerStays(s, s', tid);
    }
  }

  lemma ThreadStepKeepsComing(s: State, tid: Tid, a: Action)
    requires CoordinatorInv(s) && Coming(s) && tid in s.threads && ActionTid(a) == Some(tid) && ThreadStep(s, tid, a).Some?
    ensures Coming(ThreadStep(s, tid, a).value)
  {
    var s' := ThreadStep(s, tid, a).value;
    if s'.slot.retired != [] && !s.main.TakingAll? {
      ThreadStepRetires(s, tid, a);
      var other :| other in s.threads && Comes(s.threads[other].phase);
      if other == tid { assert a.Acquire?; }
      ComerStays(s, s', other);
    }
  }

  lemma ThreadStepRetires(s: State, tid: Tid, a: Action)
    requires tid in s.threads && ActionTid(a) == Some(tid) && ThreadStep(s, tid, a).Some?
    ensures var s' := ThreadStep(s, tid, a).value;
            && (s'.slot.retired == s.slot.retired || s'.slot.retired == [])
            && (a.Take? ==> s'.slot.retired == []) && s'.main == s.main
            && s'.threads.Keys == s.threads.Keys && (forall t :: t in s.threads && t != tid ==> s'.threads[t] == s.threads[t])
            && (Comes(s.threads[tid].phase) ==> a.Acquire? || a.Take?) && (a.Acquire? ==> s'.threads[tid].phase.Taking?)
  {}

  lemma StepKeepsComing(s: State, a: Action)
    requires CoordinatorInv(s) && Coming(s) && Next(s, a).Some?
    ensures Coming(Next(s, a).value)
  {
    match ActionTid(a) {
      case Some(tid) => ThreadStepKeepsComing(s, tid, a);
      case None =>
        if !a.Poll? && !a.Die? {
          MainStepKeepsComing(s, a);
        } else if s.slot.retired != [] && !s.main.TakingAll? {
          var tid :| tid in s.threads && Comes(s.threads[tid].phase);
          ComerStays(s, Next(s, a).value, tid);
        }
    }
  }

  lemma {:induction false} RunKeepsComing(s: State, actions: seq<Action>)
    requires Inv(s) && Coming(s) && Run(s, actions).Some?
    ensures Coming(Run(s, actions).value)
    decreases |actions|
  {
    if actions != [] {
      StepKeepsInv(s, actions[0]);
      StepKeepsComing(s, actions[0]);
      RunKeepsComing(Next(s, actions[0]).value, actions[1..]);
    }
  }

  /** A retired process always has someone coming who takes it: a thread that waits or is about to, or the shutdown. */
  lemma RetiredAreFetched(attempt: nat, actions: seq<Action>)
    requires Run(Init(attempt), actions).Some?
    ensures var s := Run(Init(attempt), actions).value;
            s.slot.retired != [] ==> s.main.TakingAll? || exists tid :: tid in s.threads && Comes(s.threads[tid].phase)
  {
    InitIsSafe(attempt);
    RunKeepsComing(Init(attempt), actions);
  }

  // ----- When everything has ended -----

  /** No thread is at work, and the main loop waits for a message. */
  ghost predicate Quiet(s: State) {
    s.main.Idle? && forall tid :: tid in s.threads ==> s.threads[tid].phase.Done?
  }

  lemma QuietHoldsNothing(s: State)
    requires Inv(s) && Coming(s) && Quiet(s)
    ensures s.slot.retired == [] && s.coordinator.Nobody? && forall pid :: pid in s.live ==> s.slot.handle == Some(pid)
  {
    assert forall tid :: tid in s.threads ==> !Holds(s.threads[tid].phase);
  }

  /** Then the only process that can be live is the one in the slot. */
  lemma QuietLeavesOnlyTheSlot(attempt: nat, actions: seq<Action>)
    requires Run(Init(attempt), actions).Some? && Quiet(Run(Init(attempt), actions).value)
    ensures var s := Run(Init(attempt), actions).value;
            s.slot.retired == [] && s.coordinator.Nobody? && forall pid :: pid in s.live ==> s.slot.handle == Some(pid)
  {
    InitIsSafe(attempt);
    RunKeepsInv(Init(attempt), actions);
    RunKeepsComing(Init(attempt), actions);
    QuietHoldsNothing(Run(Init(attempt), actions).value);
  }

  // ----- After a disconnect -----

  /** No process is in the slot, and no attempt so far is the published one. */
  ghost predicate Disconnected(s: State) {
    s.slot.handle.None? && forall a :: a in s.used ==> a < s.slot.attemptId
  }

  lemma DisconnectDisconnects(s: State, tid: Tid)
    requires Inv(s) && Next(s, DoDisconnect(tid)).Some?
    ensures Disconnected(Next(s, DoDisconnect(tid)).value)
    ensures s.slot.handle.None? ==> Next(s, DoDisconnect(tid)).value.threads == s.threads
  {}

  /** Leaving supersedes every attempt as well. */
  lemma QuittingSupersedes(s: State)
    requires Inv(s) && Next(s, DoQuit).Some?
    ensures forall a :: a in s.used ==> a < Next(s, DoQuit).value.slot.attemptId
  {}

  lemma MainStepKeepsDisconnected(s: State, a: Action)
    requires AttemptInv(s) && Disconnected(s) && !a.DoConnect? && MainStep(s, a).Some?
    ensures Disconnected(MainStep(s, a).value)
  {}

  lemma ThreadStepKeepsDisconnected(s: State, tid: Tid, a: Action)
    requires Inv(s) && Disconnected(s) && tid in s.threads && ActionTid(a) == Some(tid) && ThreadStep(s, tid, a).Some?
    ensures Disconnected(ThreadStep(s, tid, a).value)
  {
    ThreadStepHasShape(s, tid, a);
    if a.Put? {
      assert s.threads[tid].attempt.value in s.used;
    } else {
      ThreadStepLeavesSlot(s, tid, a);
    }
  }

  lemma {:induction false} RunKeepsDisconnected(s: State, actions: seq<Action>)
    requires Inv(s) && Disconnected(s) && Run(s, actions).Some?
    requires forall i :: 0 <= i < |actions| ==> !actions[i].DoConnect?
    ensures Disconnected(Run(s, actions).value)
    decreases |actions|
  {
    if actions != [] {
      var a := actions[0];
      StepKeepsInv(s, a);
      match ActionTid(a) {
        case Some(tid) => ThreadStepKeepsDisconnected(s, tid, a);
        case None => if !a.Poll? && !a.Die? { MainStepKeepsDisconnected(s, a); }
      }
      RunKeepsDisconnected(Next(s, a).value, actions[1..]);
    }
  }

  /**
   * After a disconnect, whatever was under way, and as long as nobody connects again: no process gets into the slot, and
   * when all threads have ended none is live.
   */
  lemma DisconnectStopsEverything(attempt: nat, actions: seq<Action>, tid: Tid, more: seq<Action>)
    requires Run(Init(attempt), actions).Some? && Next(Run(Init(attempt), actions).value, DoDisconnect(tid)).Some?
    requires forall i :: 0 <= i < |more| ==> !more[i].DoConnect?
    requires Run(Next(Run(Init(attempt), actions).value, DoDisconnect(tid)).value, more).Some?
    ensures var s := Run(Next(Run(Init(attempt), actions).value, DoDisconnect(tid)).value, more).value;
            s.slot.handle.None? && (Quiet(s) ==> s.live == {})
  {
    InitIsSafe(attempt);
    RunKeepsInv(Init(attempt), actions);
    RunKeepsComing(Init(attempt), actions);
    var asked := Run(Init(attempt), actions).value;
    DisconnectDisconnects(asked, tid);
    StepKeepsInv(asked, DoDisconnect(tid));
    StepKeepsComing(asked, DoDisconnect(tid));
    var disconnected := Next(asked, DoDisconnect(tid)).value;
    RunKeepsDisconnected(disconnected, more);
    RunKeepsInv(disconnected, more);
    RunKeepsComing(disconnected, more);
    var s := Run(disconnected, more).value;
    if Quiet(s) { QuietHoldsNothing(s); }
  }

  // ----- Answers -----

  ghost predicate Answered(s: State, attempt: nat) {
    exists i :: 0 <= i < |s.sent| && Answers(s.sent[i], attempt)
  }

  ghost predicate Reported(s: State, attempt: nat)
    requires attempt in s.installed
  {
    Connected(attempt, s.installed[attempt]) in s.sent
  }

  /** What the thread of an attempt owes: a report of the process it installed, and an answer once it has ended. */
  ghost predicate Settles(s: State, thread: Thread) {
    thread.attempt.Some? ==>
      var attempt := thread.attempt.value;
      && (attempt in s.installed ==> thread.phase.Installed? || Reported(s, attempt))
      && (thread.phase.Stale? ==> attempt < s.slot.attemptId)
      && (thread.phase.Done? && attempt !in s.installed ==> attempt < s.slot.attemptId || ConnectFailed(attempt) in s.sent)
  }

  ghost predicate Settled(s: State) {
    forall tid :: tid in s.threads ==> Settles(s, s.threads[tid])
  }

  lemma MainStepKeepsSettled(s: State, a: Action)
    requires AttemptInv(s) && ProcessHistory(s) && Settled(s) && MainStep(s, a).Some?
    ensures Settled(MainStep(s, a).value)
  {
    var s' := MainStep(s, a).value;
    MainStepMovesOn(s, a);
    forall tid | tid in s'.threads ensures Settles(s', s'.threads[tid]) {
      if tid in s.threads { assert Settles(s, s.threads[tid]); }
    }
  }

  lemma OthersStaySettled(s: State, s': State, tid: Tid, t: Tid)
    requires AttemptInv(s) && Settled(s) && Extends(s, s', tid) && t in s.threads && t != tid
    requires s'.slot.attemptId == s.slot.attemptId && forall m :: m in s.sent ==> m in s'.sent
    ensures Settles(s', s'.threads[t])
  {
    assert Settles(s, s.threads[t]);
  }

  lemma StartingSettles(s: State, tid: Tid, a: Action)
    requires AttemptInv(s) && tid in s.threads && Settles(s, s.threads[tid]) && ThreadHistory(s, s.threads[tid])
    requires (TakesOver(a) || Starts(a)) && ThreadStep(s, tid, a).Some?
    ensures var s' := ThreadStep(s, tid, a).value; tid in s'.threads && Settles(s', s'.threads[tid])
  {}

  lemma WaitingSettles(s: State, tid: Tid, a: Action)
    requires AttemptInv(s) && tid in s.threads && Settles(s, s.threads[tid]) && ThreadHistory(s, s.threads[tid])
    requires (a.Retry? || a.Wake? || a.Put? || a.StopStale?) && ThreadStep(s, tid, a).Some?
    ensures var s' := ThreadStep(s, tid, a).value; tid in s'.threads && Settles(s', s'.threads[tid])
  {}

  lemma ReportingSettles(s: State, tid: Tid, a: Action)
    requires AttemptInv(s) && tid in s.threads && Settles(s, s.threads[tid]) && ThreadHistory(s, s.threads[tid])
    requires (a.Report? || a.Send?) && ThreadStep(s, tid, a).Some?
    ensures var s' := ThreadStep(s, tid, a).value; tid in s'.threads && Settles(s', s'.threads[tid])
  {
    var s' := ThreadStep(s, tid, a).value;
    if s'.sent != s.sent {
      var attempt := s.threads[tid].attempt.value;
      assert s'.sent[|s.sent|] == if a.Report? then ConnectFailed(attempt) else Connected(attempt, s.threads[tid].phase.pid);
    }
  }

  lemma OwnStepSettles(s: State, tid: Tid, a: Action)
    requires AttemptInv(s) && tid in s.threads && Settles(s, s.threads[tid]) && ThreadHistory(s, s.threads[tid])
    requires ActionTid(a) == Some(tid) && ThreadStep(s, tid, a).Some?
    ensures var s' := ThreadStep(s, tid, a).value; tid in s'.threads && Settles(s', s'.threads[tid])
  {
    if TakesOver(a) || Starts(a) {
      StartingSettles(s, tid, a);
    } else if a.Report? || a.Send? {
      ReportingSettles(s, tid, a);
    } else {
      WaitingSettles(s, tid, a);
    }
  }

  lemma StepKeepsSettled(s: State, a: Action)
    requires History(s) && Settled(s) && Next(s, a).Some?
    ensures Settled(Next(s, a).value)
  {
    var s' := Next(s, a).value;
    match ActionTid(a) {
      case Some(tid) =>
        StepExtends(s, tid, a);
        ThreadStepHasShape(s, tid, a);
        OwnStepSettles(s, tid, a);
        SentGrows(s, tid, a);
        forall t | t in s'.threads ensures Settles(s', s'.threads[t]) {
          if t != tid { OthersStaySettled(s, s', tid, t); }
        }
      case None =>
        if a.Poll? || a.Die? {
          forall t | t in s'.threads ensures Settles(s', s'.threads[t]) { assert Settles(s, s.threads[t]); }
        } else {
          MainStepKeepsSettled(s, a);
        }
    }
  }

  lemma SentGrows(s: State, tid: Tid, a: Action)
    requires tid in s.threads && ThreadStep(s, tid, a).Some?
    ensures forall m :: m in s.sent ==> m in ThreadStep(s, tid, a).value.sent
  {}

  lemma {:induction false} RunKeepsSettled(s: State, actions: seq<Action>)
    requires History(s) && Settled(s) && Run(s, actions).Some?
    ensures Settled(Run(s, actions).value)
    decreases |actions|
  {
    if actions != [] {
      StepKeepsHistory(s, actions[0]);
      StepKeepsSettled(s, actions[0]);
      RunKeepsSettled(Next(s, actions[0]).value, actions[1..]);
    }
  }

  /**
   * When the thread of an attempt has ended, the attempt has been answered unless it was superseded: with `Connected` and
   * its process if it put one into the slot, and with `ConnectFailed` if it did not and is still the published attempt.
   */
  lemma EndedAttemptsAreAnswered(attempt: nat, actions: seq<Action>, tid: Tid)
    requires Run(Init(attempt), actions).Some? && tid in Run(Init(attempt), actions).value.threads
    requires Run(Init(attempt), actions).value.threads[tid].phase.Done?
    requires Run(Init(attempt), actions).value.threads[tid].attempt.Some?
    ensures var s := Run(Init(attempt), actions).value;
            var ended := s.threads[tid].attempt.value;
            && (ended in s.installed ==> Connected(ended, s.installed[ended]) in s.sent)
            && (ended !in s.installed && ended == s.slot.attemptId ==> ConnectFailed(ended) in s.sent)
  {
    InitIsSafe(attempt);
    RunKeepsHistory(Init(attempt), actions);
    RunKeepsSettled(Init(attempt), actions);
    var s := Run(Init(attempt), actions).value;
    assert Settles(s, s.threads[tid]);
  }

  // ----- Superseded attempts are never answered -----

  lemma StepAnswersOnlyCurrent(s: State, a: Action, attempt: nat)
    requires History(s) && Superseded(s, attempt) && Next(s, a).Some?
    ensures var s' := Next(s, a).value;
            s'.sent == s.sent || (|s'.sent| == |s.sent| + 1 && s'.sent[..|s.sent|] == s.sent && !Answers(s'.sent[|s.sent|], attempt))
  {
    match ActionTid(a) {
      case Some(tid) => ThreadStepAnswersOnlyCurrent(s, tid, a, attempt);
      case None =>
    }
  }

  lemma ThreadStepAnswersOnlyCurrent(s: State, tid: Tid, a: Action, attempt: nat)
    requires tid in s.threads && ThreadHistory(s, s.threads[tid]) && Superseded(s, attempt)
    requires ActionTid(a) == Some(tid) && ThreadStep(s, tid, a).Some?
    ensures var s' := ThreadStep(s, tid, a).value;
            s'.sent == s.sent || (|s'.sent| == |s.sent| + 1 && s'.sent[..|s.sent|] == s.sent && !Answers(s'.sent[|s.sent|], attempt))
  {}

  /** An attempt superseded before its process was in the slot is not answered any more. */
  lemma {:induction false} SupersededIsNotAnswered(s: State, actions: seq<Action>, attempt: nat)
    requires History(s) && Superseded(s, attempt) && Run(s, actions).Some?
    ensures var sent := Run(s, actions).value.sent;
            |s.sent| <= |sent| && forall i :: |s.sent| <= i < |sent| ==> !Answers(sent[i], attempt)
    decreases |actions|
  {
    if actions != [] {
      var next := Next(s, actions[0]).value;
      StepKeepsHistory(s, actions[0]);
      StepKeepsSuperseded(s, actions[0], attempt);
      StepAnswersOnlyCurrent(s, actions[0], attempt);
      SentStays(next, actions[1..]);
      SupersededIsNotAnswered(next, actions[1..], attempt);
    }
  }

  lemma {:induction false} SentStays(s: State, actions: seq<Action>)
    requires Run(s, actions).Some?
    ensures s.sent <= Run(s, actions).value.sent
    decreases |actions|
  {
    if actions != [] { SentStays(Next(s, actions[0]).value, actions[1..]); }
  }

  // ----- Trying again -----

  /** The published attempt, asleep after a failure, only wakes to start again; it can always go to sleep and wake. */
  lemma CurrentAttemptStartsAgain(s: State, tid: Tid, a: Action)
    requires tid in s.threads && s.threads[tid].attempt == Some(s.slot.attemptId)
    ensures s.threads[tid].phase.Sleeping? && ActionTid(a) == Some(tid) && Next(s, a).Some? ==>
              Next(s, a).value.threads[tid].phase.Starting?
    ensures s.threads[tid].phase.Failed? ==>
              var more := Run(s, [Retry(tid, true), Wake(tid, false)]);
              more.Some? && tid in more.value.threads && more.value.threads[tid].phase.Starting? && more.value.sent == s.sent
  {
    if s.threads[tid].phase.Failed? {
      var asleep := Next(s, Retry(tid, true)).value;
      OneStep(asleep, Wake(tid, false), [], Next(asleep, Wake(tid, false)).value);
      OneStep(s, Retry(tid, true), [Wake(tid, false)] + [], asleep);
      assert [Retry(tid, true)] + ([Wake(tid, false)] + []) == [Retry(tid, true), Wake(tid, false)];
    }
  }

  /** The thread of a superseded attempt whose start has failed, or has come too late. */
  ghost predicate Finishing(s: State, tid: Tid) {
    && tid in s.threads && s.threads[tid].attempt.Some? && s.threads[tid].attempt.value < s.slot.attemptId
    && var phase := s.threads[tid].phase; phase.Failed? || phase.GivingUp? || phase.Stale? || phase.Done?
  }

  lemma OwnStepKeepsFinishing(s: State, tid: Tid, a: Action)
    requires Finishing(s, tid) && ThreadStep(s, tid, a).Some?
    ensures Finishing(ThreadStep(s, tid, a).value, tid)
  {
    var phase := s.threads[tid].phase;
    if phase.Failed? {
      assert a.Retry?;
    } else if phase.GivingUp? {
      assert a.Report?;
    } else {
      assert phase.Stale? && a.StopStale?;
    }
  }

  lemma OtherStepKeepsFinishing(s: State, s': State, tid: Tid, t: Tid, phase: Phase)
    requires Finishing(s, tid) && t != tid && ThreadStepShape(s, s', t, phase)
    ensures Finishing(s', tid)
  {}

  lemma MainStepKeepsFinishing(s: State, tid: Tid, a: Action)
    requires AttemptInv(s) && Finishing(s, tid) && MainStep(s, a).Some?
    ensures Finishing(MainStep(s, a).value, tid)
  {
    MainStepMovesOn(s, a);
    assert tid in MainStep(s, a).value.threads && MainStep(s, a).value.threads[tid] == s.threads[tid];
  }

  lemma StepKeepsFinishing(s: State, tid: Tid, a: Action)
    requires Inv(s) && Finishing(s, tid) && Next(s, a).Some?
    ensures Finishing(Next(s, a).value, tid)
  {
    match ActionTid(a) {
      case Some(t) =>
        if t == tid {
          OwnStepKeepsFinishing(s, tid, a);
        } else {
          ThreadStepHasShape(s, t, a);
          OtherStepKeepsFinishing(s, ThreadStep(s, t, a).value, tid, t, ThreadStep(s, t, a).value.threads[t].phase);
        }
      case None => if !a.Poll? && !a.Die? { MainStepKeepsFinishing(s, tid, a); }
    }
  }

  /** It starts no process any more. */
  lemma {:induction false} FinishingStartsNothing(s: State, tid: Tid, actions: seq<Action>, pid: Pid)
    requires Inv(s) && Finishing(s, tid) && Run(s, actions).Some?
    ensures Next(Run(s, actions).value, Spawn(tid, pid)).None?
    decreases |actions|
  {
    if actions != [] {
      StepKeepsInv(s, actions[0]);
      StepKeepsFinishing(s, tid, actions[0]);
      FinishingStartsNothing(Next(s, actions[0]).value, tid, actions[1..], pid);
    }
  }

  // ----- Nothing is ever stuck -----

  /** A step of a thread or of the main loop itself: no new message, and nothing the world does. */
  predicate IsWork(a: Action) {
    !a.Die? && !a.Poll? && !a.Handle? && !a.Bump? && !a.Leave?
  }

  ghost predicate CanWork(s: State) {
    exists a :: IsWork(a) && Next(s, a).Some?
  }

  /** Someone has something left to do. */
  ghost predicate Busy(s: State) {
    (!s.main.Idle? && !s.main.Released?) || exists tid :: tid in s.threads && !s.threads[tid].phase.Done?
  }

  lemma HolderCanWork(s: State, tid: Tid)
    requires tid in s.threads && ThreadInv(s, s.threads[tid]) && Holds(s.threads[tid].phase)
    ensures CanWork(s)
  {
    var phase := s.threads[tid].phase;
    var a := match phase
      case Taking => Take(tid)
      case Stopping(list) => if list == [] then StoppedAll(tid) else StopOne(tid)
      case Checking => Check(tid)
      case Starting => SpawnFails(tid, false)
      case Running(_) => Ready(tid)
      case Failed => Retry(tid, false)
      case Sleeping => Wake(tid, false)
      case GivingUp => Report(tid)
      case Started(_) => Put(tid)
      case Stale(_) => StopStale(tid)
      case _ => Send(tid);
    assert IsWork(a) && Next(s, a).Some?;
  }

  lemma MainCanWork(s: State, tid: Tid)
    requires tid !in s.threads && (s.main.Pending? ==> !s.main.request.NoRequest?)
    requires !s.main.Idle? && !s.main.Released? && (s.main.Locking? ==> s.coordinator.Nobody?)
    ensures CanWork(s)
  {
    var a := match s.main
      case Pending(request, _) =>
        if request.ConnectRequest? then DoConnect(tid) else if request.DisconnectRequest? then DoDisconnect(tid) else DoQuit
      case Leaving => Invalidate
      case Locking => LockForExit
      case Retiring => RetireForExit
      case TakingAll => TakeForExit
      case StoppingAll(list) => if list == [] then FinishExit else StopForExit
      case _ => ReleaseForExit;
    assert IsWork(a) && Next(s, a).Some?;
  }

  lemma FreshTid(threads: map<Tid, Thread>) returns (tid: Tid)
    ensures tid !in threads
  {
    tid := Above(threads.Keys);
  }

  ghost function Above(tids: set<Tid>): (bound: Tid)
    ensures forall tid :: tid in tids ==> tid < bound
  {
    if tids == {} then 0
    else
      var tid :| tid in tids;
      var rest := Above(tids - {tid});
      assert forall t :: t in tids ==> t == tid || t in tids - {tid};
      if tid < rest then rest else tid + 1
  }

  ghost predicate RealRequests(s: State) {
    s.main.Pending? ==> !s.main.request.NoRequest?
  }

  lemma {:induction false} RunKeepsRequests(s: State, actions: seq<Action>)
    requires RealRequests(s) && Run(s, actions).Some?
    ensures RealRequests(Run(s, actions).value)
    decreases |actions|
  {
    if actions != [] {
      StepKeepsRequests(s, actions[0]);
      RunKeepsRequests(Next(s, actions[0]).value, actions[1..]);
    }
  }

  lemma StepKeepsRequests(s: State, a: Action)
    requires RealRequests(s) && Next(s, a).Some?
    ensures RealRequests(Next(s, a).value)
  {}

  /** As long as a thread has not ended, or the main loop has a request or a shutdown to carry out, a step of theirs is possible. */
  lemma NeverStuck(attempt: nat, actions: seq<Action>)
    requires Run(Init(attempt), actions).Some? && Busy(Run(Init(attempt), actions).value)
    ensures var s := Run(Init(attempt), actions).value; exists a :: IsWork(a) && Next(s, a).Some?
  {
    InitIsSafe(attempt);
    RunKeepsInv(Init(attempt), actions);
    RunKeepsRequests(Init(attempt), actions);
    var s := Run(Init(attempt), actions).value;
    var unused := FreshTid(s.threads);
    match s.coordinator {
      case ByThread(tid) => HolderCanWork(s, tid);
      case ByMain => MainCanWork(s, unused);
      case Nobody =>
        if tid :| tid in s.threads && !s.threads[tid].phase.Done? {
          assert !Holds(s.threads[tid].phase);
          assert IsWork(Acquire(tid)) && Next(s, Acquire(tid)).Some?;
        } else {
          MainCanWork(s, unused);
        }
    }
  }
}
