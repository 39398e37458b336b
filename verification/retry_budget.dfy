/** Retrying a start until sing-box is ready: the budget for each reason, and the loop around it. Times are milliseconds. */
module RetryBudgets {
  import opened Wrappers

  const NOT_READY_RETRY_INTERVAL: nat := 5_000
  const BINARY_WRITE_RETRY_LIMIT: nat := 15_000
  const TUN_PERMISSION_RETRY_LIMIT: nat := 120_000
  const CANCEL_POLL_INTERVAL: nat := 250

  datatype NotReady = BinaryBeingWritten | TunNotPermitted

  datatype RetryStep = FirstRetry | Retry | GiveUp

  /** One failed start: why it was not ready, and when. */
  datatype Failure = Failure(reason: NotReady, at: nat)

  datatype Budget = Budget(binaryBusySince: Option<nat>, tunDeniedSince: Option<nat>) {
    function Since(reason: NotReady): Option<nat> {
      if reason.BinaryBeingWritten? then binaryBusySince else tunDeniedSince
    }

    function Note(f: Failure): Budget {
      if Since(f.reason).Some? then this
      else if f.reason.BinaryBeingWritten? then this.(binaryBusySince := Some(f.at))
      else this.(tunDeniedSince := Some(f.at))
    }

    function Answer(f: Failure): RetryStep {
      match Since(f.reason)
      case None => FirstRetry
      case Some(first) => if f.at >= first + Limit(f.reason) then GiveUp else Retry
    }
  }

  function Limit(reason: NotReady): nat {
    if reason.BinaryBeingWritten? then BINARY_WRITE_RETRY_LIMIT else TUN_PERMISSION_RETRY_LIMIT
  }

  class RetryBudget {
    var binaryBusySince: Option<nat>
    var tunDeniedSince: Option<nat>

    constructor ()
      ensures View() == Budget(None, None)
    {
      binaryBusySince, tunDeniedSince := None, None;
    }

    ghost function View(): Budget
      reads this
    {
      Budget(binaryBusySince, tunDeniedSince)
    }

    method Step(reason: NotReady, now: nat) returns (step: RetryStep)
      modifies this
      ensures View() == old(View()).Note(Failure(reason, now))
      ensures step == old(View()).Answer(Failure(reason, now))
    {
      var limit := Limit(reason);
      var since := if reason.BinaryBeingWritten? then binaryBusySince else tunDeniedSince;
      match since {
        case None =>
          if reason.BinaryBeingWritten? { binaryBusySince := Some(now); } else { tunDeniedSince := Some(now); }
          step := FirstRetry;
        case Some(first) =>
          // a clock reading before the first one counts as no time passed
          var elapsed := if now >= first then now - first else 0;
          step := if elapsed >= limit then GiveUp else Retry;
      }
    }
  }

  // ----- Whole runs of failures -----

  function After(failures: seq<Failure>): Budget {
    if failures == [] then Budget(None, None)
    else After(failures[..|failures| - 1]).Note(failures[|failures| - 1])
  }

  /** The budget answers none of the failures with giving up. */
  ghost predicate KeepsTrying(failures: seq<Failure>) {
    forall i :: 0 <= i < |failures| ==> Passes(failures, i)
  }

  ghost predicate Passes(failures: seq<Failure>, i: nat)
    requires i < |failures|
  {
    !After(failures[..i]).Answer(failures[i]).GiveUp?
  }

  /** Failures are a retry interval apart. */
  ghost predicate Spaced(failures: seq<Failure>) {
    forall i :: 0 <= i < |failures| - 1 ==> failures[i].at + NOT_READY_RETRY_INTERVAL <= failures[i + 1].at
  }

  lemma {:induction false} SpacedApart(failures: seq<Failure>, i: nat, j: nat)
    requires Spaced(failures) && i <= j < |failures|
    ensures failures[i].at + (j - i) * NOT_READY_RETRY_INTERVAL <= failures[j].at
    decreases j - i
  {
    if i < j { SpacedApart(failures, i, j - 1); }
  }

  /** The budget remembers the first failure of each reason. */
  lemma {:induction false} RemembersTheFirst(failures: seq<Failure>, reason: NotReady)
    ensures match After(failures).Since(reason)
            case None => forall i :: 0 <= i < |failures| ==> failures[i].reason != reason
            case Some(first) => exists i :: 0 <= i < |failures| && failures[i] == Failure(reason, first)
                                            && forall j :: 0 <= j < i ==> failures[j].reason != reason
  {
    if failures != [] {
      var n := |failures| - 1;
      RemembersTheFirst(failures[..n], reason);
      match After(failures[..n]).Since(reason) {
        case None =>
        case Some(first) =>
          var i :| 0 <= i < n && failures[..n][i] == Failure(reason, first)
                   && forall j :: 0 <= j < i ==> failures[..n][j].reason != reason;
          assert failures[i] == Failure(reason, first);
          assert forall j :: 0 <= j < i ==> failures[j] == failures[..n][j];
      }
    }
  }

  /** The attempt goes on exactly as long as no two failures with the same reason are as far apart as its limit. */
  lemma KeepsTryingIffWithinLimits(failures: seq<Failure>)
    requires Spaced(failures)
    ensures KeepsTrying(failures) <==>
            forall i, j :: 0 <= i < j < |failures| && failures[i].reason == failures[j].reason ==>
              failures[j].at < failures[i].at + Limit(failures[j].reason)
  {
    forall j | 0 <= j < |failures|
      ensures Passes(failures, j) <==>
              forall i :: 0 <= i < j && failures[i].reason == failures[j].reason ==>
                failures[j].at < failures[i].at + Limit(failures[j].reason)
    {
      RemembersTheFirst(failures[..j], failures[j].reason);
      match After(failures[..j]).Since(failures[j].reason) {
        case None =>
          assert forall i :: 0 <= i < j ==> failures[i] == failures[..j][i];
        case Some(first) =>
          var f :| 0 <= f < j && failures[..j][f] == Failure(failures[j].reason, first)
                   && forall k :: 0 <= k < f ==> failures[..j][k].reason != failures[j].reason;
          assert failures[f] == Failure(failures[j].reason, first);
          forall i | 0 <= i < j && failures[i].reason == failures[j].reason ensures first <= failures[i].at {
            assert failures[i] == failures[..j][i];
            SpacedApart(failures, f, i);
          }
      }
    }
  }

  function Count(failures: seq<Failure>, reason: NotReady): nat {
    if failures == [] then 0
    else Count(failures[..|failures| - 1], reason) + if failures[|failures| - 1].reason == reason then 1 else 0
  }

  /** The failures with one reason span at least an interval for each but the first. */
  lemma {:induction false} CountSpans(failures: seq<Failure>, reason: NotReady)
    requires Spaced(failures) && Count(failures, reason) > 0
    ensures exists i, j :: 0 <= i <= j < |failures| && failures[i].reason == reason && failures[j].reason == reason
                           && failures[i].at + (Count(failures, reason) - 1) * NOT_READY_RETRY_INTERVAL <= failures[j].at
  {
    var n := |failures| - 1;
    var rest := failures[..n];
    if Count(rest, reason) == 0 {
      assert failures[n].reason == reason && 0 <= n <= n < |failures|;
    } else {
      CountSpans(rest, reason);
      var i, j :| 0 <= i <= j < |rest| && rest[i].reason == reason && rest[j].reason == reason
                  && rest[i].at + (Count(rest, reason) - 1) * NOT_READY_RETRY_INTERVAL <= rest[j].at;
      assert failures[i] == rest[i] && failures[j] == rest[j];
      if failures[n].reason == reason {
        SpacedApart(failures, j, n);
        assert failures[j].at + NOT_READY_RETRY_INTERVAL <= failures[n].at;
        assert failures[i].at + (Count(failures, reason) - 1) * NOT_READY_RETRY_INTERVAL <= failures[n].at;
      }
    }
  }

  lemma {:induction false} CountsAddUp(failures: seq<Failure>)
    ensures Count(failures, BinaryBeingWritten) + Count(failures, TunNotPermitted) == |failures|
  {
    if failures != [] { CountsAddUp(failures[..|failures| - 1]); }
  }

  lemma SpanWithinLimit(failures: seq<Failure>, i: nat, j: nat)
    requires Spaced(failures) && KeepsTrying(failures)
    requires i <= j < |failures| && failures[i].reason == failures[j].reason
    ensures failures[j].at < failures[i].at + Limit(failures[j].reason)
  {
    if i < j { KeepsTryingIffWithinLimits(failures); }
  }

  /** Both limits are whole numbers of intervals. */
  lemma IntervalsWithinLimit(count: nat, reason: NotReady)
    requires (count - 1) * NOT_READY_RETRY_INTERVAL < Limit(reason)
    ensures count * NOT_READY_RETRY_INTERVAL <= Limit(reason)
  {}

  lemma CountWithinLimit(failures: seq<Failure>, reason: NotReady)
    requires Spaced(failures) && KeepsTrying(failures)
    ensures Count(failures, reason) * NOT_READY_RETRY_INTERVAL <= Limit(reason)
  {
    if Count(failures, reason) > 0 {
      CountSpans(failures, reason);
      var i, j :| 0 <= i <= j < |failures| && failures[i].reason == reason && failures[j].reason == reason
                  && failures[i].at + (Count(failures, reason) - 1) * NOT_READY_RETRY_INTERVAL <= failures[j].at;
      SpanWithinLimit(failures, i, j);
      IntervalsWithinLimit(Count(failures, reason), reason);
    }
  }

  /** However the two reasons alternate, the budget lets 3 and 24 failures pass, so at most 27 in all. */
  lemma BudgetRunsOut(failures: seq<Failure>)
    requires Spaced(failures) && KeepsTrying(failures)
    ensures Count(failures, BinaryBeingWritten) <= 3 && Count(failures, TunNotPermitted) <= 24 && |failures| <= 27
  {
    CountWithinLimit(failures, BinaryBeingWritten);
    CountWithinLimit(failures, TunNotPermitted);
    CountsAddUp(failures);
  }

  /** The bound is met: 15 seconds of one reason, then two minutes of the other, one start every 5 seconds. */
  lemma BudgetCanBeUsedUp() returns (failures: seq<Failure>)
    ensures Spaced(failures) && KeepsTrying(failures) && |failures| == 27
  {
    failures := seq(27, i requires 0 <= i < 27 =>
      Failure(if i < 3 then BinaryBeingWritten else TunNotPermitted, i * NOT_READY_RETRY_INTERVAL));
    KeepsTryingIffWithinLimits(failures);
  }

  // ----- The loop -----

  datatype Outcome = Ready | NotReadyYet(reason: NotReady) | Broken

  datatype Result = Started | GaveUp(last: Failure) | Failed | Cancelled

  /** What an attempt sees of the world, in order. */
  datatype Event = StartReturned(outcome: Outcome) | Read(cancelled: bool) | Slept(duration: nat)

  /** The clock, the start and the cancellation flag: all that is known is that the clock never goes back. */
  class World {
    var now: nat
    ghost var trace: seq<Event>

    method Start() returns (outcome: Outcome)
      modifies this
      ensures now >= old(now) && trace == old(trace) + [StartReturned(outcome)]
    {
      var took: nat :| true;
      now := now + took;
      outcome := *;
      trace := trace + [StartReturned(outcome)];
    }

    method IsCancelled() returns (cancelled: bool)
      modifies this
      ensures now >= old(now) && trace == old(trace) + [Read(cancelled)]
    {
      var took: nat :| true;
      now := now + took;
      cancelled := *;
      trace := trace + [Read(cancelled)];
    }

    /** Sleeping takes at least the time asked for. */
    method Sleep(duration: nat)
      modifies this
      ensures now >= old(now) + duration && trace == old(trace) + [Slept(duration)]
    {
      var late: nat :| true;
      now := now + duration + late;
      trace := trace + [Slept(duration)];
    }
  }

  /** The flag is read after every start that did not succeed and before every sleep, and a raised flag ends everything. */
  ghost predicate Polled(events: seq<Event>) {
    forall k :: 0 <= k < |events| ==> PolledAt(events, k)
  }

  ghost predicate PolledAt(events: seq<Event>, k: nat)
    requires k < |events|
  {
    match events[k]
    case StartReturned(outcome) => outcome.Ready? || (k + 1 < |events| && events[k + 1].Read?)
    case Read(cancelled) => cancelled ==> k + 1 == |events|
    case Slept(duration) => duration == CANCEL_POLL_INTERVAL && k > 0 && events[k - 1] == Read(false)
  }

  function Outcomes(events: seq<Event>): seq<Outcome> {
    if events == [] then []
    else
      var last := events[|events| - 1];
      Outcomes(events[..|events| - 1]) + if last.StartReturned? then [last.outcome] else []
  }

  lemma OneMoreEvent(events: seq<Event>, event: Event)
    ensures Outcomes(events + [event]) == Outcomes(events) + if event.StartReturned? then [event.outcome] else []
    ensures Read(true) in events + [event] <==> Read(true) in events || event == Read(true)
  {
    assert (events + [event])[..|events|] == events;
  }

  /** A false reading, or a sleep after one, goes on with what was polled. */
  lemma PolledGoesOn(events: seq<Event>, event: Event)
    requires Polled(events) && Read(true) !in events
    requires match event
             case Read(_) => true
             case Slept(duration) => duration == CANCEL_POLL_INTERVAL && events != [] && events[|events| - 1] == Read(false)
             case StartReturned(outcome) => outcome.Ready?
    ensures Polled(events + [event])
  {
    forall k | 0 <= k < |events + [event]| ensures PolledAt(events + [event], k) {
      if k < |events| { assert PolledAt(events, k) && events[k] != Read(true); }
    }
  }

  /** A start that did not succeed is followed by a reading. */
  lemma PolledAfterStart(events: seq<Event>, outcome: Outcome, cancelled: bool)
    requires Polled(events) && Read(true) !in events
    ensures Polled(events + [StartReturned(outcome)] + [Read(cancelled)])
  {
    var more := events + [StartReturned(outcome)] + [Read(cancelled)];
    forall k | 0 <= k < |more| ensures PolledAt(more, k) {
      if k < |events| { assert PolledAt(events, k) && events[k] != Read(true); }
    }
  }

  lemma ReadingGoesOn(events: seq<Event>, cancelled: bool)
    requires Polled(events) && Read(true) !in events
    ensures Polled(events + [Read(cancelled)]) && Outcomes(events + [Read(cancelled)]) == Outcomes(events)
    ensures Read(true) in events + [Read(cancelled)] <==> cancelled
  {
    OneMoreEvent(events, Read(cancelled));
    PolledGoesOn(events, Read(cancelled));
  }

  lemma SleepGoesOn(events: seq<Event>)
    requires Polled(events) && Read(true) !in events
    ensures var more := events + [Read(false)] + [Slept(CANCEL_POLL_INTERVAL)];
            Polled(more) && Outcomes(more) == Outcomes(events) && Read(true) !in more
  {
    ReadingGoesOn(events, false);
    OneMoreEvent(events + [Read(false)], Slept(CANCEL_POLL_INTERVAL));
    PolledGoesOn(events + [Read(false)], Slept(CANCEL_POLL_INTERVAL));
  }

  /**
   * The whole duration has passed exactly when no cancellation was read, and nothing was started meanwhile. `before` are
   * the events since `begun`, `events` the same with what was seen here.
   */
  method SleepUnlessCancelled(duration: nat, world: World, ghost begun: seq<Event>, ghost before: seq<Event>)
    returns (slept: bool, ghost events: seq<Event>)
    requires world.trace == begun + before && Polled(before) && Read(true) !in before
    modifies world
    ensures world.now >= old(world.now)
    ensures slept ==> world.now >= old(world.now) + duration
    ensures world.trace == begun + events && before <= events
    ensures Polled(events) && Outcomes(events) == Outcomes(before)
    ensures slept <==> Read(true) !in events
  {
    var deadline := world.now + duration;
    events := before;
    while world.now < deadline
      invariant world.now >= old(world.now)
      invariant world.trace == begun + events && before <= events
      invariant Polled(events) && Read(true) !in events && Outcomes(events) == Outcomes(before)
      decreases deadline - world.now
    {
      var cancelled := world.IsCancelled();
      ReadingGoesOn(events, cancelled);
      if cancelled { return false, events + [Read(true)]; }
      world.Sleep(CANCEL_POLL_INTERVAL);
      SleepGoesOn(events);
      events := events + [Read(false)] + [Slept(CANCEL_POLL_INTERVAL)];
    }
    return true, events;
  }

  lemma AfterOneMore(failures: seq<Failure>, f: Failure)
    ensures After(failures + [f]) == After(failures).Note(f)
  {
    assert (failures + [f])[..|failures|] == failures;
  }

  lemma OneMoreIsSpaced(failures: seq<Failure>, f: Failure)
    requires Spaced(failures) && (failures != [] ==> failures[|failures| - 1].at + NOT_READY_RETRY_INTERVAL <= f.at)
    ensures Spaced(failures + [f])
  {}

  lemma OneMorePasses(failures: seq<Failure>, f: Failure)
    requires KeepsTrying(failures) && !After(failures).Answer(f).GiveUp?
    ensures KeepsTrying(failures + [f])
  {
    forall i | 0 <= i < |failures + [f]| ensures Passes(failures + [f], i) {
      if i < |failures| {
        assert Passes(failures, i) && (failures + [f])[..i] == failures[..i];
      } else {
        assert (failures + [f])[..i] == failures;
      }
    }
  }

  /** Each reason that occurred was announced, once. */
  ghost predicate AnnouncedOnce(announced: seq<NotReady>, failures: seq<Failure>) {
    && (forall i, j :: 0 <= i < j < |announced| ==> announced[i] != announced[j])
    && (forall reason :: reason in announced <==> exists f :: f in failures && f.reason == reason)
  }

  lemma OneMoreAnnounced(announced: seq<NotReady>, failures: seq<Failure>, f: Failure)
    requires AnnouncedOnce(announced, failures)
    ensures AnnouncedOnce(if After(failures).Answer(f).FirstRetry? then announced + [f.reason] else announced, failures + [f])
  {
    RemembersTheFirst(failures, f.reason);
    if After(failures).Answer(f).FirstRetry? {
      assert f.reason !in announced;
    } else {
      assert f.reason in announced;
    }
    assert f in failures + [f];
    assert forall g :: g in failures ==> g in failures + [f];
  }

  /** What is known of the failures an attempt went on after. */
  ghost predicate Faced(failures: seq<Failure>, announced: seq<NotReady>) {
    Spaced(failures) && KeepsTrying(failures) && AnnouncedOnce(announced, failures)
  }

  lemma OneMoreFaced(failures: seq<Failure>, announced: seq<NotReady>, f: Failure)
    requires Faced(failures, announced) && !After(failures).Answer(f).GiveUp?
    requires failures != [] ==> failures[|failures| - 1].at + NOT_READY_RETRY_INTERVAL <= f.at
    ensures Faced(failures + [f], if After(failures).Answer(f).FirstRetry? then announced + [f.reason] else announced)
    ensures After(failures + [f]) == After(failures).Note(f)
  {
    OneMoreAnnounced(announced, failures, f);
    AfterOneMore(failures, f);
    OneMoreIsSpaced(failures, f);
    OneMorePasses(failures, f);
  }

  /** How an attempt ends follows from what the world answered last, and from whether a cancellation was read. */
  ghost predicate Tells(events: seq<Event>, result: Result, starts: nat, failures: seq<Failure>) {
    var outcomes, cancelled := Outcomes(events), Read(true) in events;
    && |outcomes| == starts && starts > 0
    && (forall i :: 0 <= i < |failures| && i < starts ==> outcomes[i] == NotReadyYet(failures[i].reason))
    && (result.Started? <==> outcomes[starts - 1].Ready?)
    && (result.Cancelled? <==> cancelled)
    && (result.Failed? <==> outcomes[starts - 1].Broken? && !cancelled)
    && (result.GaveUp? <==> outcomes[starts - 1].NotReadyYet? && !cancelled)
    && (result.GaveUp? ==> outcomes[starts - 1] == NotReadyYet(result.last.reason)
                           && exists i :: 0 <= i < |failures| && TooLate(failures[i], result.last))
  }

  predicate TooLate(first: Failure, last: Failure) {
    last.reason == first.reason && last.at >= first.at + Limit(last.reason)
  }

  lemma GivingUpIsTooLate(failures: seq<Failure>, f: Failure)
    requires After(failures).Answer(f).GiveUp?
    ensures exists i :: 0 <= i < |failures| && TooLate(failures[i], f)
  {
    RemembersTheFirst(failures, f.reason);
    var first := After(failures).Since(f.reason).value;
    var i :| 0 <= i < |failures| && failures[i] == Failure(f.reason, first);
    assert TooLate(failures[i], f);
  }

  /** Before a start, all outcomes so far are the failures it went on after, and no cancellation was read. */
  ghost predicate WentOn(events: seq<Event>, failures: seq<Failure>) {
    && Polled(events) && Read(true) !in events
    && |Outcomes(events)| == |failures|
    && forall i :: 0 <= i < |failures| ==> Outcomes(events)[i] == NotReadyYet(failures[i].reason)
  }

  /** A start and, unless it succeeded, a reading. */
  function StartEvents(outcome: Outcome, cancelled: bool): seq<Event> {
    if outcome.Ready? then [StartReturned(outcome)] else [StartReturned(outcome), Read(cancelled)]
  }

  lemma OneMoreStart(events: seq<Event>, failures: seq<Failure>, outcome: Outcome, cancelled: bool)
    requires WentOn(events, failures)
    ensures var more := events + StartEvents(outcome, cancelled);
            && Polled(more) && Outcomes(more) == Outcomes(events) + [outcome]
            && (Read(true) in more <==> cancelled && !outcome.Ready?)
  {
    OneMoreEvent(events, StartReturned(outcome));
    if outcome.Ready? {
      PolledGoesOn(events, StartReturned(outcome));
    } else {
      OneMoreEvent(events + [StartReturned(outcome)], Read(cancelled));
      PolledAfterStart(events, outcome, cancelled);
      assert events + StartEvents(outcome, cancelled) == events + [StartReturned(outcome)] + [Read(cancelled)];
    }
  }

  /** All that holds of a whole attempt. */
  ghost predicate Attempted(events: seq<Event>, result: Result, starts: nat, announced: seq<NotReady>, failures: seq<Failure>) {
    && 1 <= starts <= 28 && |failures| <= starts <= |failures| + 1
    && (starts == |failures| ==> result.Cancelled?)
    && AnnouncedOnce(announced, failures)
    && Spaced(failures) && KeepsTrying(failures)
    && Polled(events) && Tells(events, result, starts, failures)
  }

  /** The attempt ends after a start. */
  lemma EndsAfterStart(events: seq<Event>, announced: seq<NotReady>, failures: seq<Failure>, outcome: Outcome, cancelled: bool,
                       result: Result)
    requires Faced(failures, announced) && WentOn(events, failures)
    requires outcome.Ready? ==> result == Started
    requires !outcome.Ready? && cancelled ==> result == Cancelled
    requires outcome.Broken? && !cancelled ==> result == Failed
    requires outcome.NotReadyYet? && !cancelled ==>
               result.GaveUp? && result.last.reason == outcome.reason && After(failures).Answer(result.last).GiveUp?
    ensures Attempted(events + StartEvents(outcome, cancelled), result, |failures| + 1, announced, failures)
  {
    BudgetRunsOut(failures);
    OneMoreStart(events, failures, outcome, cancelled);
    if result.GaveUp? { GivingUpIsTooLate(failures, result.last); }
  }

  /** The attempt ends while it waits for the next start. */
  lemma EndsAsleep(events: seq<Event>, announced: seq<NotReady>, failures: seq<Failure>)
    requires failures != [] && Faced(failures, announced) && Polled(events) && Read(true) in events
    requires |Outcomes(events)| == |failures|
    requires forall i :: 0 <= i < |failures| ==> Outcomes(events)[i] == NotReadyYet(failures[i].reason)
    ensures Attempted(events, Cancelled, |failures|, announced, failures)
  {
    BudgetRunsOut(failures);
  }

  /** After a start that was not ready and a false reading, the failure is one more. */
  lemma GoesOn(events: seq<Event>, failures: seq<Failure>, f: Failure)
    requires WentOn(events, failures)
    ensures WentOn(events + StartEvents(NotReadyYet(f.reason), false), failures + [f])
  {
    OneMoreStart(events, failures, NotReadyYet(f.reason), false);
  }

  /** One start, and the reading after one that did not succeed. */
  method StartOnce(world: World, ghost begun: seq<Event>, ghost before: seq<Event>)
    returns (outcome: Outcome, cancelled: bool, ghost events: seq<Event>)
    requires world.trace == begun + before
    modifies world
    ensures world.now >= old(world.now)
    ensures events == before + StartEvents(outcome, cancelled) && world.trace == begun + events
  {
    outcome := world.Start();
    cancelled := false;
    if !outcome.Ready? { cancelled := world.IsCancelled(); }
    events := before + StartEvents(outcome, cancelled);
  }

  /**
   * One connect attempt: at most 28 starts whatever the world does, and each reason is announced at most once. The
   * failures it went on after are exactly what the budget allows, and how it ends follows from what it saw last: it goes on
   * after every start that was not ready within the limits, unless a cancellation is read.
   */
  method StartRetryingUntilReady(world: World)
    returns (result: Result, starts: nat, announced: seq<NotReady>, failures: seq<Failure>, ghost events: seq<Event>)
    modifies world
    ensures world.trace == old(world.trace) + events
    ensures Attempted(events, result, starts, announced, failures)
  {
    var budget := new RetryBudget();
    starts, announced, failures, events := 0, [], [], [];
    ghost var begun := world.trace;
    while true
      invariant fresh(budget) && budget.View() == After(failures)
      invariant Faced(failures, announced) && starts == |failures|
      invariant failures != [] ==> failures[|failures| - 1].at + NOT_READY_RETRY_INTERVAL <= world.now
      invariant world.trace == begun + events && WentOn(events, failures)
      decreases 28 - starts
    {
      BudgetRunsOut(failures);
      ghost var before := events;
      var outcome, cancelled;
      outcome, cancelled, events := StartOnce(world, begun, before);
      starts := starts + 1;
      if outcome.Ready? {
        EndsAfterStart(before, announced, failures, outcome, cancelled, Started);
        return Started, starts, announced, failures, events;
      }
      if cancelled {
        EndsAfterStart(before, announced, failures, outcome, cancelled, Cancelled);
        return Cancelled, starts, announced, failures, events;
      }
      if outcome.Broken? {
        EndsAfterStart(before, announced, failures, outcome, cancelled, Failed);
        return Failed, starts, announced, failures, events;
      }
      var f := Failure(outcome.reason, world.now);
      var step := budget.Step(f.reason, f.at);
      if step.GiveUp? {
        EndsAfterStart(before, announced, failures, outcome, cancelled, GaveUp(f));
        return GaveUp(f), starts, announced, failures, events;
      }
      OneMoreFaced(failures, announced, f);
      GoesOn(before, failures, f);
      if step.FirstRetry? { announced := announced + [f.reason]; }
      failures := failures + [f];
      var slept;
      slept, events := SleepUnlessCancelled(NOT_READY_RETRY_INTERVAL, world, begun, events);
      if !slept {
        EndsAsleep(events, announced, failures);
        return Cancelled, starts, announced, failures, events;
      }
    }
  }
}
