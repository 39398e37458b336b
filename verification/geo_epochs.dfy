/**
 * Downloads, seedings and snapshots run beside the main loop, each carrying the epoch it was started under. One action is
 * one locked section of the store or one step of the main loop.
 */
module GeoEpochs {
  import opened Wrappers
  import opened GeoStores

  /** `sent` are the snapshots on their way to the model, each under its epoch and its number. */
  datatype World = World(disk: Metadata, epoch: nat, states: RuleSetStates, sent: map<(nat, nat), RuleSetStates>)

  datatype Action =
    | AdoptSource(epoch: nat, rs: RuleSet, saves: bool)
    | RecordOutcome(epoch: nat, rs: RuleSet, outcome: Outcome, intervalDays: Option<int>, clock: Clock, saves: bool)
    | EnsureSchedules(epoch: nat, ruleSets: seq<RuleSet>, enabled: bool, next: int, saves: bool)
    | TakeSnapshot(epoch: nat, id: nat, ruleSets: seq<RuleSet>, usable: RuleSet -> bool)
    | Deliver(epoch: nat, id: nat)
    | ResetSchedules(ruleSets: seq<RuleSet>, date: Option<int>, saves: bool)

  function Save(w: World, change: Change, saves: bool): World {
    if change.Some? && saves then w.(disk := change.value) else w
  }

  function Write(epoch: nat, intervalDays: Option<int>): Option<ScheduleWrite> {
    if intervalDays.Some? then Some(ScheduleWrite(intervalDays.value, epoch)) else None
  }

  function Next(w: World, a: Action): World {
    match a
    case AdoptSource(_, rs, saves) => Save(w, Adopted(w.disk, rs), saves)
    case RecordOutcome(epoch, rs, outcome, intervalDays, clock, saves) =>
      Save(w, Recorded(w.disk, rs, outcome, Write(epoch, intervalDays), clock), saves)
    case EnsureSchedules(epoch, ruleSets, enabled, next, saves) =>
      Save(w, Some(Seeded(w.disk, ruleSets, enabled, epoch, next)), saves)
    case TakeSnapshot(epoch, id, ruleSets, usable) =>
      w.(sent := w.sent[(epoch, id) := StatesOf(w.disk, ruleSets, usable)])
    case Deliver(epoch, id) =>
      if (epoch, id) in w.sent then w.(states := Applied(w.states, w.sent[(epoch, id)], epoch == w.epoch)) else w
    case ResetSchedules(ruleSets, date, saves) =>
      if saves then w.(disk := Reset(w.disk, ruleSets, date), epoch := w.disk.scheduleEpoch + 1) else w
  }

  function Run(w: World, actions: seq<Action>): World
    decreases |actions|
  {
    if actions == [] then w else Run(Next(w, actions[0]), actions[1..])
  }

  // ----- Hypothesis: no rule set changes its source -----

  type Sources = string -> string

  predicate Uses(rs: RuleSet, sources: Sources) {
    rs.url == sources(rs.key)
  }

  predicate AllUse(ruleSets: seq<RuleSet>, sources: Sources) {
    forall i :: 0 <= i < |ruleSets| ==> Uses(ruleSets[i], sources)
  }

  predicate KeepsSources(a: Action, sources: Sources) {
    match a
    case AdoptSource(_, rs, _) => Uses(rs, sources)
    case RecordOutcome(_, rs, _, _, _, _) => Uses(rs, sources)
    case EnsureSchedules(_, ruleSets, _, _, _) => AllUse(ruleSets, sources)
    case TakeSnapshot(_, _, ruleSets, _) => AllUse(ruleSets, sources)
    case Deliver(_, _) => true
    case ResetSchedules(ruleSets, _, _) => AllUse(ruleSets, sources)
  }

  ghost predicate Sourced(meta: Metadata, sources: Sources) {
    forall key :: key in meta.ruleSets ==> meta.ruleSets[key].url.None? || meta.ruleSets[key].url.value == sources(key)
  }

  // ----- Stale actions -----

  /** Started under an epoch before the given one; a reset never is. */
  predicate IsStale(a: Action, epoch: nat) {
    !a.ResetSchedules? && a.epoch < epoch
  }

  ghost predicate SinceReset(w: World, epoch: nat) {
    w.disk.scheduleEpoch >= epoch && w.epoch >= epoch
  }

  ghost predicate AfterReset(w: World, epoch: nat, sources: Sources) {
    SinceReset(w, epoch) && Sourced(w.disk, sources)
  }

  ghost predicate SameSchedules(v: World, w: World) {
    && v.epoch == w.epoch && v.disk.scheduleEpoch == w.disk.scheduleEpoch
    && (forall key :: ScheduleOf(v.disk, key) == ScheduleOf(w.disk, key))
    && (forall key :: ScheduleIn(v.states, key) == ScheduleIn(w.states, key))
  }

  // ----- What a stale step can change -----

  lemma {:induction false} SeedEachKeepsEpoch(meta: Metadata, ruleSets: seq<RuleSet>, next: int)
    ensures SeedEach(meta, ruleSets, next).scheduleEpoch == meta.scheduleEpoch
  {
    if ruleSets != [] { SeedEachKeepsEpoch(meta, ruleSets[..|ruleSets| - 1], next); }
  }

  lemma {:induction false} ResetEachKeepsEpoch(meta: Metadata, ruleSets: seq<RuleSet>, next: Option<int>)
    ensures ResetEach(meta, ruleSets, next).scheduleEpoch == meta.scheduleEpoch
  {
    if ruleSets != [] { ResetEachKeepsEpoch(meta, ruleSets[..|ruleSets| - 1], next); }
  }

  lemma StepKeepsEpochs(w: World, a: Action, epoch: nat)
    requires SinceReset(w, epoch)
    ensures SinceReset(Next(w, a), epoch)
  {
    match a
    case EnsureSchedules(_, ruleSets, _, next, _) => SeedEachKeepsEpoch(w.disk, ruleSets, next);
    case ResetSchedules(ruleSets, next, _) =>
      ResetEachKeepsEpoch(w.disk.(scheduleEpoch := w.disk.scheduleEpoch + 1), ruleSets, next);
    case _ =>
  }

  lemma {:induction false} RunKeepsEpochs(w: World, actions: seq<Action>, epoch: nat)
    requires SinceReset(w, epoch)
    ensures SinceReset(Run(w, actions), epoch)
    decreases |actions|
  {
    if actions != [] {
      StepKeepsEpochs(w, actions[0], epoch);
      RunKeepsEpochs(Next(w, actions[0]), actions[1..], epoch);
    }
  }

  /** A saved adoption of a rule set from another source than the record's, which had a retry or an update date. */
  predicate ClearsSchedule(meta: Metadata, a: Action) {
    a.AdoptSource? && a.saves && !Describes(RecordOf(meta, a.rs.key), a.rs) && ScheduleOf(meta, a.rs.key) != NO_SCHEDULE
  }

  lemma StaleStepChangesNothingIff(w: World, a: Action, epoch: nat)
    requires SinceReset(w, epoch) && IsStale(a, epoch)
    ensures SameSchedules(w, Next(w, a)) <==> !ClearsSchedule(w.disk, a)
  {
    if a.AdoptSource? && a.saves && Adopted(w.disk, a.rs).Some? {
      AdoptionChangesScheduleIff(w.disk, a.rs, a.rs.key);
      forall key | key != a.rs.key ensures ScheduleOf(Next(w, a).disk, key) == ScheduleOf(w.disk, key) {
        AdoptionChangesScheduleIff(w.disk, a.rs, key);
      }
    }
  }

  lemma ResetReached(w: World, ruleSets: seq<RuleSet>, date: Option<int>)
    ensures var reset := Next(w, ResetSchedules(ruleSets, date, true)); SinceReset(reset, reset.epoch)
  {
    ResetEachKeepsEpoch(w.disk.(scheduleEpoch := w.disk.scheduleEpoch + 1), ruleSets, date);
  }

  /**
   * Once a reset has returned an epoch, whatever runs after it, something started under an older epoch leaves every retry
   * and update date as it is, on disk and in the model, exactly unless it adopts a source that clears a schedule.
   */
  lemma StaleWorkersChangeNothing(w: World, ruleSets: seq<RuleSet>, next: Option<int>, actions: seq<Action>, a: Action)
    requires IsStale(a, Next(w, ResetSchedules(ruleSets, next, true)).epoch)
    ensures var later := Run(Next(w, ResetSchedules(ruleSets, next, true)), actions);
            SameSchedules(later, Next(later, a)) <==> !ClearsSchedule(later.disk, a)
  {
    var reset := Next(w, ResetSchedules(ruleSets, next, true));
    ResetReached(w, ruleSets, next);
    RunKeepsEpochs(reset, actions, reset.epoch);
    StaleStepChangesNothingIff(Run(reset, actions), a, reset.epoch);
  }

  /** The exception is real: right after a reset, a stale download of another source clears the date the reset wrote. */
  lemma ChangedSourceClearsSchedule() returns (w: World, ruleSets: seq<RuleSet>, date: Option<int>, a: Action)
    ensures var reset := Next(w, ResetSchedules(ruleSets, date, true));
            && IsStale(a, reset.epoch)
            && ScheduleOf(reset.disk, "geoip") == Schedule(None, Some(7))
            && ScheduleOf(Next(reset, a).disk, "geoip") == NO_SCHEDULE
  {
    w := World(Metadata(0, map["geoip" := NO_RECORD.(url := Some("old"))]), 0, map[], map[]);
    ruleSets, date := [RuleSet("geoip", "old")], Some(7);
    a := AdoptSource(0, RuleSet("geoip", "new"), true);
    var disk := w.disk.(scheduleEpoch := 1);
    assert ruleSets[..0] == [] && ResetEach(disk, [], date) == disk;
  }

  // ----- Leaving the stale actions out -----

  lemma {:induction false} SeedEachKeeps(meta: Metadata, ruleSets: seq<RuleSet>, next: int, sources: Sources)
    requires Sourced(meta, sources)
    ensures Sourced(SeedEach(meta, ruleSets, next), sources)
  {
    if ruleSets != [] { SeedEachKeeps(meta, ruleSets[..|ruleSets| - 1], next, sources); }
  }

  lemma {:induction false} ResetEachKeeps(meta: Metadata, ruleSets: seq<RuleSet>, next: Option<int>, sources: Sources)
    requires Sourced(meta, sources)
    ensures Sourced(ResetEach(meta, ruleSets, next), sources)
  {
    if ruleSets != [] { ResetEachKeeps(meta, ruleSets[..|ruleSets| - 1], next, sources); }
  }

  lemma StepKeepsAfterReset(w: World, a: Action, epoch: nat, sources: Sources)
    requires AfterReset(w, epoch, sources) && KeepsSources(a, sources)
    ensures AfterReset(Next(w, a), epoch, sources)
  {
    StepKeepsEpochs(w, a, epoch);
    match a
    case EnsureSchedules(_, ruleSets, _, next, _) => SeedEachKeeps(w.disk, ruleSets, next, sources);
    case ResetSchedules(ruleSets, next, _) =>
      ResetEachKeeps(w.disk.(scheduleEpoch := w.disk.scheduleEpoch + 1), ruleSets, next, sources);
    case _ =>
  }

  lemma {:induction false} RunKeepsAfterReset(w: World, actions: seq<Action>, epoch: nat, sources: Sources)
    requires AfterReset(w, epoch, sources) && forall i :: 0 <= i < |actions| ==> KeepsSources(actions[i], sources)
    ensures AfterReset(Run(w, actions), epoch, sources)
    decreases |actions|
  {
    if actions != [] {
      StepKeepsAfterReset(w, actions[0], epoch, sources);
      RunKeepsAfterReset(Next(w, actions[0]), actions[1..], epoch, sources);
    }
  }

  lemma ResetIsAfter(w: World, ruleSets: seq<RuleSet>, date: Option<int>, sources: Sources)
    requires Sourced(w.disk, sources) && AllUse(ruleSets, sources)
    ensures var reset := Next(w, ResetSchedules(ruleSets, date, true)); AfterReset(reset, reset.epoch, sources)
  {
    ResetReached(w, ruleSets, date);
    ResetEachKeeps(w.disk.(scheduleEpoch := w.disk.scheduleEpoch + 1), ruleSets, date, sources);
  }

  function Current(actions: seq<Action>, epoch: nat): seq<Action> {
    if actions == [] then []
    else (if IsStale(actions[0], epoch) then [] else [actions[0]]) + Current(actions[1..], epoch)
  }

  ghost predicate SameStates(s: RuleSetStates, t: RuleSetStates) {
    s.Keys == t.Keys && forall key :: key in s ==> s[key].schedule == t[key].schedule
  }

  ghost predicate SameOnDisk(m: Metadata, n: Metadata) {
    m.scheduleEpoch == n.scheduleEpoch && forall key :: ScheduleOf(m, key) == ScheduleOf(n, key)
  }

  /** Equal schedules everywhere, also in the snapshots that are not stale. */
  ghost predicate Alike(v: World, w: World, epoch: nat) {
    && v.epoch == w.epoch && SameOnDisk(v.disk, w.disk)
    && (forall key :: ScheduleIn(v.states, key) == ScheduleIn(w.states, key))
    && (forall s: (nat, nat) :: s.0 >= epoch ==> (s in v.sent <==> s in w.sent))
    && (forall s: (nat, nat) :: s.0 >= epoch && s in v.sent && s in w.sent ==> SameStates(v.sent[s], w.sent[s]))
  }

  lemma StaleStepIsAlike(v: World, w: World, a: Action, epoch: nat, sources: Sources)
    requires AfterReset(v, epoch, sources) && Alike(v, w, epoch) && KeepsSources(a, sources) && IsStale(a, epoch)
    ensures Alike(Next(v, a), w, epoch)
  {
    StaleStepChangesNothingIff(v, a, epoch);
  }

  lemma PutAlike(m: Metadata, n: Metadata, key: string, r: RuleSetRecord, s: RuleSetRecord)
    requires SameOnDisk(m, n) && r.retry == s.retry && r.nextUpdate == s.nextUpdate
    ensures SameOnDisk(Put(m, key, r), Put(n, key, s))
  {
    forall k ensures ScheduleOf(Put(m, key, r), k) == ScheduleOf(Put(n, key, s), k) {
      assert ScheduleOf(m, k) == ScheduleOf(n, k);
    }
  }

  lemma {:induction false} SeedEachAlike(m: Metadata, n: Metadata, ruleSets: seq<RuleSet>, next: int, sources: Sources)
    requires SameOnDisk(m, n) && Sourced(m, sources) && Sourced(n, sources) && AllUse(ruleSets, sources)
    ensures SameOnDisk(SeedEach(m, ruleSets, next), SeedEach(n, ruleSets, next))
  {
    if ruleSets != [] {
      var init, last := ruleSets[..|ruleSets| - 1], ruleSets[|ruleSets| - 1];
      SeedEachAlike(m, n, init, next, sources);
      SeedEachKeeps(m, init, next, sources);
      SeedEachKeeps(n, init, next, sources);
      assert Uses(last, sources);
      SeedOneAlike(SeedEach(m, init, next), SeedEach(n, init, next), last, next, sources);
    }
  }

  lemma SeedOneAlike(m: Metadata, n: Metadata, rs: RuleSet, next: int, sources: Sources)
    requires SameOnDisk(m, n) && Sourced(m, sources) && Sourced(n, sources) && Uses(rs, sources)
    ensures SameOnDisk(SeedOne(m, rs, next), SeedOne(n, rs, next))
  {
    assert ScheduleOf(m, rs.key) == ScheduleOf(n, rs.key);
    PutAlike(m, n, rs.key, RecordOf(m, rs.key).(nextUpdate := Some(next)), RecordOf(n, rs.key).(nextUpdate := Some(next)));
  }

  lemma {:induction false} ResetEachAlike(m: Metadata, n: Metadata, ruleSets: seq<RuleSet>, date: Option<int>,
                                          sources: Sources)
    requires SameOnDisk(m, n) && Sourced(m, sources) && Sourced(n, sources) && AllUse(ruleSets, sources)
    ensures SameOnDisk(ResetEach(m, ruleSets, date), ResetEach(n, ruleSets, date))
  {
    if ruleSets != [] {
      var init, last := ruleSets[..|ruleSets| - 1], ruleSets[|ruleSets| - 1];
      ResetEachAlike(m, n, init, date, sources);
      ResetEachKeeps(m, init, date, sources);
      ResetEachKeeps(n, init, date, sources);
      assert Uses(last, sources);
      var m', n' := ResetEach(m, init, date), ResetEach(n, init, date);
      PutAlike(m', n', last.key, RecordOf(m', last.key).(retry := None, nextUpdate := date),
               RecordOf(n', last.key).(retry := None, nextUpdate := date));
    }
  }

  lemma {:induction false} StatesAlike(m: Metadata, n: Metadata, ruleSets: seq<RuleSet>, usable: RuleSet -> bool,
                                       sources: Sources)
    requires SameOnDisk(m, n) && Sourced(m, sources) && Sourced(n, sources) && AllUse(ruleSets, sources)
    ensures SameStates(StatesOf(m, ruleSets, usable), StatesOf(n, ruleSets, usable))
  {
    if ruleSets != [] {
      var last := ruleSets[|ruleSets| - 1];
      StatesAlike(m, n, ruleSets[..|ruleSets| - 1], usable, sources);
      assert Uses(last, sources);
      assert ScheduleOf(m, last.key) == ScheduleOf(n, last.key);
    }
  }

  lemma RecordAlike(m: Metadata, n: Metadata, rs: RuleSet, outcome: Outcome, write: Option<ScheduleWrite>,
                    clock: Clock, sources: Sources)
    requires SameOnDisk(m, n) && Sourced(m, sources) && Sourced(n, sources) && Uses(rs, sources)
    ensures Recorded(m, rs, outcome, write, clock).Some? <==> Recorded(n, rs, outcome, write, clock).Some?
    ensures Recorded(m, rs, outcome, write, clock).Some? ==>
              SameOnDisk(Recorded(m, rs, outcome, write, clock).value, Recorded(n, rs, outcome, write, clock).value)
  {
    assert ScheduleOf(m, rs.key) == ScheduleOf(n, rs.key);
    if Recorded(m, rs, outcome, write, clock).Some? {
      PutAlike(m, n, rs.key, Recorded(m, rs, outcome, write, clock).value.ruleSets[rs.key],
               Recorded(n, rs, outcome, write, clock).value.ruleSets[rs.key]);
    }
  }

  lemma AdoptionAlike(m: Metadata, rs: RuleSet, sources: Sources)
    requires Sourced(m, sources) && Uses(rs, sources) && Adopted(m, rs).Some?
    ensures SameOnDisk(m, Adopted(m, rs).value)
  {}

  /** Steps on the disk. */
  lemma DiskStepAlike(v: World, w: World, a: Action, epoch: nat, sources: Sources)
    requires AfterReset(v, epoch, sources) && AfterReset(w, epoch, sources) && Alike(v, w, epoch) && KeepsSources(a, sources)
    requires a.AdoptSource? || a.RecordOutcome? || a.EnsureSchedules? || a.ResetSchedules?
    ensures Alike(Next(v, a), Next(w, a), epoch)
  {
    match a
    case AdoptSource(_, rs, _) =>
      if Adopted(v.disk, rs).Some? { AdoptionAlike(v.disk, rs, sources); }
      if Adopted(w.disk, rs).Some? { AdoptionAlike(w.disk, rs, sources); }
    case RecordOutcome(e, rs, outcome, days, clock, _) =>
      RecordAlike(v.disk, w.disk, rs, outcome, Write(e, days), clock, sources);
    case EnsureSchedules(_, ruleSets, _, next, _) =>
      SeedEachAlike(v.disk, w.disk, ruleSets, next, sources);
    case ResetSchedules(ruleSets, date, _) =>
      var m, n := v.disk.(scheduleEpoch := v.disk.scheduleEpoch + 1), w.disk.(scheduleEpoch := w.disk.scheduleEpoch + 1);
      assert SameOnDisk(m, n) by {
        forall key ensures ScheduleOf(m, key) == ScheduleOf(n, key) {
          assert ScheduleOf(v.disk, key) == ScheduleOf(w.disk, key);
        }
      }
      ResetEachAlike(m, n, ruleSets, date, sources);
  }

  lemma ModelStepAlike(v: World, w: World, a: Action, epoch: nat, sources: Sources)
    requires AfterReset(v, epoch, sources) && AfterReset(w, epoch, sources) && Alike(v, w, epoch) && KeepsSources(a, sources)
    requires (a.TakeSnapshot? || a.Deliver?) && !IsStale(a, epoch)
    ensures Alike(Next(v, a), Next(w, a), epoch)
  {
    match a
    case TakeSnapshot(e, id, ruleSets, usable) => StatesAlike(v.disk, w.disk, ruleSets, usable, sources);
    case Deliver(e, id) =>
      if (e, id) in v.sent {
        var v', w' := Next(v, a), Next(w, a);
        forall key ensures ScheduleIn(v'.states, key) == ScheduleIn(w'.states, key) {
          assert ScheduleIn(v.states, key) == ScheduleIn(w.states, key);
        }
      }
  }

  /**
   * After a reset the schedules on disk and in the model are, at every moment, what they would be had nothing that was
   * started under an older epoch run at all.
   */
  lemma {:induction false} StaleWorkersDoNotMatter(v: World, w: World, actions: seq<Action>, epoch: nat,
          sources: Sources)
    requires AfterReset(v, epoch, sources) && AfterReset(w, epoch, sources) && Alike(v, w, epoch)
    requires forall i :: 0 <= i < |actions| ==> KeepsSources(actions[i], sources)
    ensures SameSchedules(Run(v, actions), Run(w, Current(actions, epoch)))
    decreases |actions|
  {
    if actions != [] {
      var a := actions[0];
      StepKeepsAfterReset(v, a, epoch, sources);
      if IsStale(a, epoch) {
        StaleStepIsAlike(v, w, a, epoch, sources);
        assert Current(actions, epoch) == Current(actions[1..], epoch);
        StaleWorkersDoNotMatter(Next(v, a), w, actions[1..], epoch, sources);
      } else {
        StepKeepsAfterReset(w, a, epoch, sources);
        if a.TakeSnapshot? || a.Deliver? {
          ModelStepAlike(v, w, a, epoch, sources);
        } else {
          DiskStepAlike(v, w, a, epoch, sources);
        }
        assert Current(actions, epoch)[0] == a && Current(actions, epoch)[1..] == Current(actions[1..], epoch);
        StaleWorkersDoNotMatter(Next(v, a), Next(w, a), actions[1..], epoch, sources);
      }
    }
  }

  lemma AlikeItself(w: World, epoch: nat)
    ensures Alike(w, w, epoch)
  {}

  /** The same from the reset itself. */
  lemma ResetShutsOutOlderWorkers(w: World, ruleSets: seq<RuleSet>, date: Option<int>, actions: seq<Action>,
                                  sources: Sources)
    requires Sourced(w.disk, sources) && AllUse(ruleSets, sources)
    requires forall i :: 0 <= i < |actions| ==> KeepsSources(actions[i], sources)
    ensures var reset := Next(w, ResetSchedules(ruleSets, date, true));
            SameSchedules(Run(reset, actions), Run(reset, Current(actions, reset.epoch)))
  {
    var reset := Next(w, ResetSchedules(ruleSets, date, true));
    ResetIsAfter(w, ruleSets, date, sources);
    AlikeItself(reset, reset.epoch);
    StaleWorkersDoNotMatter(reset, reset, actions, reset.epoch, sources);
  }

  // ----- What a reset and the work after it achieve -----

  lemma RunTwo(w: World, a: Action, b: Action)
    ensures Run(w, [a, b]) == Next(Next(w, a), b)
  {
    assert [a, b][1..] == [b] && [b][1..] == [];
    assert Run(Next(w, a), [b]) == Next(Next(w, a), b);
  }

  lemma ResetIsFresh(w: World, ruleSets: seq<RuleSet>, date: Option<int>, i: nat, sources: Sources)
    requires Sourced(w.disk, sources) && AllUse(ruleSets, sources) && i < |ruleSets|
    ensures Next(w, ResetSchedules(ruleSets, date, true)).epoch == Next(w, ResetSchedules(ruleSets, date, true)).disk.scheduleEpoch
    ensures var disk := Next(w, ResetSchedules(ruleSets, date, true)).disk;
            ScheduleOf(disk, ruleSets[i].key) == Schedule(None, date)
            && forall j :: 0 <= j < |ruleSets| ==> Describes(RecordOf(disk, ruleSets[j].key), ruleSets[j])
  {
    ResetStartsOver(w.disk, ruleSets, date, ruleSets[i].key);
    assert Uses(ruleSets[i], sources) && ruleSets[i] in ruleSets;
    ResetIsAfter(w, ruleSets, date, sources);
    forall j | 0 <= j < |ruleSets|
      ensures Describes(RecordOf(Next(w, ResetSchedules(ruleSets, date, true)).disk, ruleSets[j].key), ruleSets[j])
    {
      assert Uses(ruleSets[j], sources);
    }
  }

  lemma SnapshotDelivered(w: World, ruleSets: seq<RuleSet>, id: nat, usable: RuleSet -> bool, i: nat)
    requires i < |ruleSets| && forall j :: 0 <= j < |ruleSets| ==> Describes(RecordOf(w.disk, ruleSets[j].key), ruleSets[j])
    ensures var after := Run(w, [TakeSnapshot(w.epoch, id, ruleSets, usable), Deliver(w.epoch, id)]);
            after.disk == w.disk && ScheduleIn(after.states, ruleSets[i].key) == ScheduleOf(w.disk, ruleSets[i].key)
  {
    RunTwo(w, TakeSnapshot(w.epoch, id, ruleSets, usable), Deliver(w.epoch, id));
    CurrentSnapshotCatchesUp(w.disk, ruleSets, usable, w.states, ruleSets[i].key);
  }

  /** What an outcome makes of a schedule: a retry after a failure, none after a success, and a new date after a download. */
  predicate Decides(before: Schedule, outcome: Outcome, days: int, clock: Clock, after: Schedule) {
    && after.retry == (if outcome.failed then Some(clock.backoff(before.retry, clock.now)) else None)
    && after.nextUpdate == (if outcome.failed || outcome.alreadyPresent then before.nextUpdate else Some(clock.today + days))
  }

  lemma OutcomeCounted(w: World, rs: RuleSet, outcome: Outcome, days: int, clock: Clock)
    requires w.disk.scheduleEpoch == w.epoch && Describes(RecordOf(w.disk, rs.key), rs)
    ensures Decides(ScheduleOf(w.disk, rs.key), outcome, days, clock,
                    ScheduleOf(Run(w, [RecordOutcome(w.epoch, rs, outcome, Some(days), clock, true)]).disk, rs.key))
  {
    var counted := RecordOutcome(w.epoch, rs, outcome, Some(days), clock, true);
    assert [counted][1..] == [] && Run(w, [counted]) == Next(w, counted);
    OutcomeIsRecorded(w.disk, rs, outcome, Some(ScheduleWrite(days, w.epoch)), clock, rs.key);
  }

  lemma SameAt(v: World, w: World, key: string)
    requires SameSchedules(v, w)
    ensures ScheduleOf(v.disk, key) == ScheduleOf(w.disk, key) && ScheduleIn(v.states, key) == ScheduleIn(w.states, key)
  {}

  /** However older workers get in between, a snapshot after a reset brings the fresh schedules to the model. */
  lemma FreshSchedulesReachModel(w: World, ruleSets: seq<RuleSet>, date: Option<int>, id: nat, usable: RuleSet -> bool,
                                 actions: seq<Action>, i: nat, sources: Sources)
    requires Sourced(w.disk, sources) && AllUse(ruleSets, sources) && i < |ruleSets|
    requires forall k :: 0 <= k < |actions| ==> KeepsSources(actions[k], sources)
    requires var epoch := Next(w, ResetSchedules(ruleSets, date, true)).epoch;
             Current(actions, epoch) == [TakeSnapshot(epoch, id, ruleSets, usable), Deliver(epoch, id)]
    ensures var after := Run(Next(w, ResetSchedules(ruleSets, date, true)), actions);
            ScheduleIn(after.states, ruleSets[i].key) == ScheduleOf(after.disk, ruleSets[i].key) == Schedule(None, date)
  {
    var reset := Next(w, ResetSchedules(ruleSets, date, true));
    ResetShutsOutOlderWorkers(w, ruleSets, date, actions, sources);
    ResetIsFresh(w, ruleSets, date, i, sources);
    SnapshotDelivered(reset, ruleSets, id, usable, i);
    SameAt(Run(reset, actions), Run(reset, Current(actions, reset.epoch)), ruleSets[i].key);
  }

  /** However older workers get in between, an outcome of the new epoch decides the schedule on disk. */
  lemma CurrentOutcomeCounts(w: World, ruleSets: seq<RuleSet>, date: Option<int>, outcome: Outcome, days: int, clock: Clock,
                             actions: seq<Action>, i: nat, sources: Sources)
    requires Sourced(w.disk, sources) && AllUse(ruleSets, sources) && i < |ruleSets|
    requires forall k :: 0 <= k < |actions| ==> KeepsSources(actions[k], sources)
    requires var epoch := Next(w, ResetSchedules(ruleSets, date, true)).epoch;
             Current(actions, epoch) == [RecordOutcome(epoch, ruleSets[i], outcome, Some(days), clock, true)]
    ensures Decides(Schedule(None, date), outcome, days, clock,
                    ScheduleOf(Run(Next(w, ResetSchedules(ruleSets, date, true)), actions).disk, ruleSets[i].key))
  {
    var reset := Next(w, ResetSchedules(ruleSets, date, true));
    ResetShutsOutOlderWorkers(w, ruleSets, date, actions, sources);
    ResetIsFresh(w, ruleSets, date, i, sources);
    OutcomeCounted(reset, ruleSets[i], outcome, days, clock);
    SameAt(Run(reset, actions), Run(reset, Current(actions, reset.epoch)), ruleSets[i].key);
  }

  lemma SeedingCounted(w: World, ruleSets: seq<RuleSet>, next: int, i: nat)
    requires w.disk.scheduleEpoch == w.epoch && i < |ruleSets|
    requires forall j :: 0 <= j < |ruleSets| ==> Describes(RecordOf(w.disk, ruleSets[j].key), ruleSets[j])
    ensures var before := ScheduleOf(w.disk, ruleSets[i].key);
            ScheduleOf(Run(w, [EnsureSchedules(w.epoch, ruleSets, true, next, true)]).disk, ruleSets[i].key)
            == if before.nextUpdate.None? then Schedule(before.retry, Some(next)) else before
  {
    var seeding := EnsureSchedules(w.epoch, ruleSets, true, next, true);
    assert [seeding][1..] == [] && Run(w, [seeding]) == Next(w, seeding);
    assert ruleSets[i] in ruleSets;
    SeedingFillsGaps(w.disk, ruleSets, true, w.epoch, next, ruleSets[i].key);
  }

  /** However older workers get in between, after a reset without dates a seeding of the new epoch writes its date. */
  lemma CurrentSeedingCounts(w: World, ruleSets: seq<RuleSet>, next: int, actions: seq<Action>, i: nat, sources: Sources)
    requires Sourced(w.disk, sources) && AllUse(ruleSets, sources) && i < |ruleSets|
    requires forall k :: 0 <= k < |actions| ==> KeepsSources(actions[k], sources)
    requires var epoch := Next(w, ResetSchedules(ruleSets, None, true)).epoch;
             Current(actions, epoch) == [EnsureSchedules(epoch, ruleSets, true, next, true)]
    ensures ScheduleOf(Run(Next(w, ResetSchedules(ruleSets, None, true)), actions).disk, ruleSets[i].key) == Schedule(None, Some(next))
  {
    var reset := Next(w, ResetSchedules(ruleSets, None, true));
    ResetShutsOutOlderWorkers(w, ruleSets, None, actions, sources);
    ResetIsFresh(w, ruleSets, None, i, sources);
    SeedingCounted(reset, ruleSets, next, i);
    SameAt(Run(reset, actions), Run(reset, Current(actions, reset.epoch)), ruleSets[i].key);
  }
}
