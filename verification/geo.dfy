/** The metadata of the rule sets on disk and the states the model keeps: update schedules guarded by an epoch. */
module GeoStores {
  import opened Wrappers

  datatype RuleSet = RuleSet(key: string, url: string)

  datatype RetryState = RetryState(consecutiveFailures: nat, retryAt: int)

  datatype RuleSetRecord = RuleSetRecord(url: Option<string>, etag: Option<string>, checkedAt: Option<int>,
                                         retry: Option<RetryState>, nextUpdate: Option<int>)

  datatype Metadata = Metadata(scheduleEpoch: nat, ruleSets: map<string, RuleSetRecord>)

  /** What a schedule consists of. */
  datatype Schedule = Schedule(retry: Option<RetryState>, nextUpdate: Option<int>)

  const NO_RECORD: RuleSetRecord := RuleSetRecord(None, None, None, None, None)
  const NO_SCHEDULE: Schedule := Schedule(None, None)

  /** A record without a source describes every source. */
  predicate Describes(record: RuleSetRecord, rs: RuleSet) {
    record.url.None? || record.url.value == rs.url
  }

  function RecordOf(meta: Metadata, key: string): RuleSetRecord {
    if key in meta.ruleSets then meta.ruleSets[key] else NO_RECORD
  }

  function ScheduleOf(meta: Metadata, key: string): Schedule {
    Schedule(RecordOf(meta, key).retry, RecordOf(meta, key).nextUpdate)
  }

  function Put(meta: Metadata, key: string, record: RuleSetRecord): Metadata {
    meta.(ruleSets := meta.ruleSets[key := record])
  }

  /** A changed metadata, or nothing when there is nothing to save. */
  type Change = Option<Metadata>

  // ----- The four changes -----

  function Adopted(meta: Metadata, rs: RuleSet): Change {
    var record := RecordOf(meta, rs.key);
    if record.url == Some(rs.url) then None
    else Some(Put(meta, rs.key, (if Describes(record, rs) then record else NO_RECORD).(url := Some(rs.url))))
  }

  datatype Outcome = Outcome(etag: Option<string>, checked: Option<int>, failed: bool, alreadyPresent: bool)

  datatype ScheduleWrite = ScheduleWrite(intervalDays: int, epoch: nat)

  /** Days and times are numbers; how long to wait after a failure is left open. */
  datatype Clock = Clock(now: int, today: int, backoff: (Option<RetryState>, int) -> RetryState)

  function Rescheduled(record: RuleSetRecord, outcome: Outcome, write: ScheduleWrite, clock: Clock): RuleSetRecord {
    if outcome.failed then record.(retry := Some(clock.backoff(record.retry, clock.now)))
    else if outcome.alreadyPresent then record.(retry := None)
    else record.(retry := None, nextUpdate := Some(clock.today + write.intervalDays))
  }

  function Noted(record: RuleSetRecord, outcome: Outcome): RuleSetRecord {
    var noted := if outcome.etag.Some? then record.(etag := outcome.etag) else record;
    if outcome.checked.Some? then noted.(checkedAt := outcome.checked) else noted
  }

  function Recorded(meta: Metadata, rs: RuleSet, outcome: Outcome, schedule: Option<ScheduleWrite>,
                    clock: Clock): Change {
    var current := if schedule.Some? && schedule.value.epoch == meta.scheduleEpoch then schedule else None;
    var record := RecordOf(meta, rs.key);
    if outcome.etag.None? && outcome.checked.None? && current.None? then None
    else if !Describes(record, rs) then None
    else
      var noted := Noted(record, outcome);
      Some(Put(meta, rs.key, if current.Some? then Rescheduled(noted, outcome, current.value, clock) else noted))
  }

  function ResetOne(meta: Metadata, rs: RuleSet, next: Option<int>): Metadata {
    var record := RecordOf(meta, rs.key);
    if Describes(record, rs) then Put(meta, rs.key, record.(retry := None, nextUpdate := next)) else meta
  }

  function ResetEach(meta: Metadata, ruleSets: seq<RuleSet>, next: Option<int>): Metadata {
    if ruleSets == [] then meta else ResetOne(ResetEach(meta, ruleSets[..|ruleSets| - 1], next), ruleSets[|ruleSets| - 1], next)
  }

  function Reset(meta: Metadata, ruleSets: seq<RuleSet>, next: Option<int>): Metadata {
    ResetEach(meta.(scheduleEpoch := meta.scheduleEpoch + 1), ruleSets, next)
  }

  predicate NeedsSeed(meta: Metadata, rs: RuleSet) {
    Describes(RecordOf(meta, rs.key), rs) && RecordOf(meta, rs.key).nextUpdate.None?
  }

  function SeedOne(meta: Metadata, rs: RuleSet, next: int): Metadata {
    if NeedsSeed(meta, rs) then Put(meta, rs.key, RecordOf(meta, rs.key).(nextUpdate := Some(next))) else meta
  }

  function SeedEach(meta: Metadata, ruleSets: seq<RuleSet>, next: int): Metadata {
    if ruleSets == [] then meta else SeedOne(SeedEach(meta, ruleSets[..|ruleSets| - 1], next), ruleSets[|ruleSets| - 1], next)
  }

  function Seeded(meta: Metadata, ruleSets: seq<RuleSet>, enabled: bool, epoch: nat, next: int): Metadata {
    if enabled && meta.scheduleEpoch == epoch then SeedEach(meta, ruleSets, next) else meta
  }

  // ----- The store -----

  /** The metadata file. Loading does not fail; saving may. */
  class GeoStore {
    var disk: Metadata

    method Save(meta: Metadata, saves: bool) returns (ok: bool)
      modifies this
      ensures ok == saves && disk == if saves then meta else old(disk)
    {
      if saves { disk := meta; }
      ok := saves;
    }

    method AdoptSource(rs: RuleSet, saves: bool) returns (ok: bool)
      modifies this
      ensures ok == (Adopted(old(disk), rs).None? || saves)
      ensures disk == if Adopted(old(disk), rs).Some? && saves then Adopted(old(disk), rs).value else old(disk)
    {
      var record := RecordOf(disk, rs.key);
      if record.url == Some(rs.url) { return true; }
      if !Describes(record, rs) { record := NO_RECORD; }
      record := record.(url := Some(rs.url));
      ok := Save(Put(disk, rs.key, record), saves);
    }

    method RecordOutcome(rs: RuleSet, outcome: Outcome, schedule: Option<ScheduleWrite>, clock: Clock,
                         saves: bool) returns (ok: bool)
      modifies this
      ensures ok == (Recorded(old(disk), rs, outcome, schedule, clock).None? || saves)
      ensures disk == if Recorded(old(disk), rs, outcome, schedule, clock).Some? && saves
                      then Recorded(old(disk), rs, outcome, schedule, clock).value else old(disk)
    {
      var current := schedule;
      if current.Some? && current.value.epoch != disk.scheduleEpoch { current := None; }
      if outcome.etag.None? && outcome.checked.None? && current.None? { return true; }
      var record := RecordOf(disk, rs.key);
      if !Describes(record, rs) { return true; }
      if outcome.etag.Some? { record := record.(etag := outcome.etag); }
      if outcome.checked.Some? { record := record.(checkedAt := outcome.checked); }
      if current.Some? {
        if outcome.failed {
          record := record.(retry := Some(clock.backoff(record.retry, clock.now)));
        } else {
          record := record.(retry := None);
          if !outcome.alreadyPresent { record := record.(nextUpdate := Some(clock.today + current.value.intervalDays)); }
        }
      }
      ok := Save(Put(disk, rs.key, record), saves);
    }

    /** The new epoch, if it could be saved. */
    method ResetUpdateSchedules(ruleSets: seq<RuleSet>, enabled: bool, next: int,
                                saves: bool) returns (epoch: Option<nat>)
      modifies this
      ensures epoch == if saves then Some(old(disk).scheduleEpoch + 1) else None
      ensures disk == if saves then Reset(old(disk), ruleSets, if enabled then Some(next) else None) else old(disk)
    {
      var meta := disk.(scheduleEpoch := disk.scheduleEpoch + 1);
      ghost var first := meta;
      var date := if enabled then Some(next) else None;
      var i := 0;
      while i < |ruleSets|
        invariant 0 <= i <= |ruleSets| && meta == ResetEach(first, ruleSets[..i], date) && disk == old(disk)
      {
        assert ruleSets[..i + 1][..i] == ruleSets[..i];
        var record := RecordOf(meta, ruleSets[i].key);
        if Describes(record, ruleSets[i]) {
          meta := Put(meta, ruleSets[i].key, record.(retry := None, nextUpdate := date));
        }
        i := i + 1;
      }
      assert ruleSets[..|ruleSets|] == ruleSets;
      ResetEachKeepsEpoch(first, ruleSets, date);
      var ok := Save(meta, saves);
      epoch := if ok then Some(meta.scheduleEpoch) else None;
    }

    method EnsureUpdateSchedules(ruleSets: seq<RuleSet>, enabled: bool, epoch: nat, next: int,
                                 saves: bool) returns (ok: bool)
      modifies this
      ensures ok ==> disk == Seeded(old(disk), ruleSets, enabled, epoch, next)
      ensures !ok ==> !saves && disk == old(disk)
    {
      if !enabled || disk.scheduleEpoch != epoch { return true; }
      var meta := disk;
      var changed := false;
      var i := 0;
      while i < |ruleSets|
        invariant 0 <= i <= |ruleSets| && meta == SeedEach(disk, ruleSets[..i], next) && disk == old(disk)
        invariant !changed ==> meta == disk
      {
        assert ruleSets[..i + 1][..i] == ruleSets[..i];
        if NeedsSeed(meta, ruleSets[i]) {
          meta := Put(meta, ruleSets[i].key, RecordOf(meta, ruleSets[i].key).(nextUpdate := Some(next)));
          changed := true;
        }
        i := i + 1;
      }
      assert ruleSets[..|ruleSets|] == ruleSets;
      if !changed { return true; }
      ok := Save(meta, saves);
    }
  }

  lemma {:induction false} ResetEachKeepsEpoch(meta: Metadata, ruleSets: seq<RuleSet>, next: Option<int>)
    ensures ResetEach(meta, ruleSets, next).scheduleEpoch == meta.scheduleEpoch
  {
    if ruleSets != [] { ResetEachKeepsEpoch(meta, ruleSets[..|ruleSets| - 1], next); }
  }

  // ----- The model -----

  datatype RuleSetState = RuleSetState(present: bool, checkedAt: Option<int>, schedule: Schedule)

  type RuleSetStates = map<string, RuleSetState>

  function ScheduleIn(states: RuleSetStates, key: string): Schedule {
    if key in states then states[key].schedule else NO_SCHEDULE
  }

  /** The states of the rule sets as read from the metadata; which files can be used is left open. */
  function StatesOf(meta: Metadata, ruleSets: seq<RuleSet>, usable: RuleSet -> bool): RuleSetStates {
    if ruleSets == [] then map[]
    else
      var rs := ruleSets[|ruleSets| - 1];
      var described := Describes(RecordOf(meta, rs.key), rs);
      var record := if described then RecordOf(meta, rs.key) else NO_RECORD;
      StatesOf(meta, ruleSets[..|ruleSets| - 1], usable)
      [rs.key := RuleSetState(described && usable(rs), record.checkedAt, Schedule(record.retry, record.nextUpdate))]
  }

  /** Of a snapshot taken under another epoch everything but the schedules is taken over. */
  function Applied(known: RuleSetStates, states: RuleSetStates, current: bool): RuleSetStates {
    map key | key in known.Keys + states.Keys ::
      if key !in states then known[key]
      else if current then states[key]
      else states[key].(schedule := ScheduleIn(known, key))
  }

  class Model {
    var geoScheduleEpoch: nat
    var ruleSetStates: RuleSetStates

    method ApplyRuleSetStates(states: RuleSetStates, epoch: nat)
      modifies this`ruleSetStates
      ensures ruleSetStates == Applied(old(ruleSetStates), states, epoch == geoScheduleEpoch)
    {
      var currentSchedule := epoch == geoScheduleEpoch;
      var todo := states.Keys;
      while todo != {}
        invariant todo <= states.Keys
        invariant ruleSetStates.Keys == old(ruleSetStates).Keys + (states.Keys - todo)
        invariant forall key :: key in ruleSetStates ==>
                    ruleSetStates[key] == if key in todo || key !in states then old(ruleSetStates)[key]
                                          else Applied(old(ruleSetStates), states, currentSchedule)[key]
        decreases todo
      {
        var key :| key in todo;
        var state := states[key];
        if !currentSchedule {
          var known := if key in ruleSetStates then Some(ruleSetStates[key]) else None;
          state := state.(schedule := if known.Some? then known.value.schedule else NO_SCHEDULE);
        }
        ruleSetStates := ruleSetStates[key := state];
        todo := todo - {key};
      }
    }
  }

  // ----- What adopting a source and recording an outcome do -----

  /**
   * After adopting a source its record names it, and no other one. What was recorded stays if it was this source's or
   * nobody's, and is gone otherwise; the other records stay.
   */
  lemma AdoptionRecordsSource(meta: Metadata, rs: RuleSet, key: string, url: string)
    ensures var after := if Adopted(meta, rs).Some? then Adopted(meta, rs).value else meta;
            var before, record := RecordOf(meta, rs.key), RecordOf(after, rs.key);
            && record.url == Some(rs.url)
            && (before.url == None || before.url == Some(rs.url) ==>
                  record.etag == before.etag && record.checkedAt == before.checkedAt && record.retry == before.retry
                  && record.nextUpdate == before.nextUpdate)
            && (before.url != None && before.url != Some(rs.url) ==>
                  record.etag == None && record.checkedAt == None && record.retry == None && record.nextUpdate == None)
            && (url != rs.url ==> !Describes(record, RuleSet(rs.key, url)))
            && (key != rs.key ==> RecordOf(after, key) == RecordOf(meta, key)) && after.scheduleEpoch == meta.scheduleEpoch
            && (Adopted(meta, rs).Some? <==> before.url != Some(rs.url))
  {}

  /**
   * What an outcome leaves in every record: etag and check time where it has them, and the schedule's changes under the
   * epoch it was started in; all of it only while the record still describes the source the outcome is about.
   */
  lemma OutcomeIsRecorded(meta: Metadata, rs: RuleSet, outcome: Outcome, schedule: Option<ScheduleWrite>, clock: Clock, key: string)
    ensures var change := Recorded(meta, rs, outcome, schedule, clock);
            var before, after := RecordOf(meta, key), RecordOf(if change.Some? then change.value else meta, key);
            var about := key == rs.key && (before.url == None || before.url == Some(rs.url));
            var scheduled := about && schedule.Some? && schedule.value.epoch == meta.scheduleEpoch;
            && after.url == before.url
            && after.etag == (if about && outcome.etag.Some? then outcome.etag else before.etag)
            && after.checkedAt == (if about && outcome.checked.Some? then outcome.checked else before.checkedAt)
            && after.retry == (if !scheduled then before.retry
                               else if outcome.failed then Some(clock.backoff(before.retry, clock.now)) else None)
            && after.nextUpdate == (if scheduled && !outcome.failed && !outcome.alreadyPresent
                                    then Some(clock.today + schedule.value.intervalDays) else before.nextUpdate)
            && (change.Some? ==> change.value.scheduleEpoch == meta.scheduleEpoch)
  {}

  /** The two records differ in nothing but their schedules. */
  predicate SameSource(record: RuleSetRecord, other: RuleSetRecord) {
    record.url == other.url && record.etag == other.etag && record.checkedAt == other.checkedAt
  }

  // ----- What a reset does -----

  lemma {:induction false} ResetEachSchedules(meta: Metadata, ruleSets: seq<RuleSet>, next: Option<int>, key: string)
    ensures SameSource(RecordOf(ResetEach(meta, ruleSets, next), key), RecordOf(meta, key))
    ensures ScheduleOf(ResetEach(meta, ruleSets, next), key)
            == if exists rs :: rs in ruleSets && rs.key == key && Describes(RecordOf(meta, key), rs)
               then Schedule(None, next) else ScheduleOf(meta, key)
  {
    if ruleSets != [] {
      var init, last := ruleSets[..|ruleSets| - 1], ruleSets[|ruleSets| - 1];
      ResetEachSchedules(meta, init, next, key);
      ResetEachSchedules(meta, init, next, last.key);
      assert ruleSets == init + [last];
      assert forall rs :: rs in ruleSets <==> rs in init || rs == last;
    }
  }

  /** A reset starts a new epoch and gives every rule set it covers the same fresh schedule; no other schedule changes. */
  lemma ResetStartsOver(meta: Metadata, ruleSets: seq<RuleSet>, next: Option<int>, key: string)
    ensures Reset(meta, ruleSets, next).scheduleEpoch == meta.scheduleEpoch + 1
    ensures SameSource(RecordOf(Reset(meta, ruleSets, next), key), RecordOf(meta, key))
    ensures ScheduleOf(Reset(meta, ruleSets, next), key)
            == if exists rs :: rs in ruleSets && rs.key == key && Describes(RecordOf(meta, key), rs)
               then Schedule(None, next) else ScheduleOf(meta, key)
  {
    var first := meta.(scheduleEpoch := meta.scheduleEpoch + 1);
    ResetEachKeepsEpoch(first, ruleSets, next);
    ResetEachSchedules(first, ruleSets, next, key);
  }

  // ----- What the other changes do to schedules -----

  /**
   * Recording an outcome touches only the schedule of its rule set, and only under the epoch it was started in: a failure
   * asks for a retry and leaves the update date, a success ends retrying, and only a success that was not just finding
   * the file present moves the update date.
   */
  lemma OutcomeDecidesSchedule(meta: Metadata, rs: RuleSet, outcome: Outcome, schedule: Option<ScheduleWrite>, clock: Clock,
                               key: string)
    requires Recorded(meta, rs, outcome, schedule, clock).Some?
    ensures var before, after := ScheduleOf(meta, key), ScheduleOf(Recorded(meta, rs, outcome, schedule, clock).value, key);
            var current := key == rs.key && schedule.Some? && schedule.value.epoch == meta.scheduleEpoch;
            && (!current ==> after == before)
            && (current ==> (after.retry.Some? <==> outcome.failed))
            && (current && (outcome.failed || outcome.alreadyPresent) ==> after.nextUpdate == before.nextUpdate)
            && (current && !outcome.failed && !outcome.alreadyPresent ==>
                  after.nextUpdate == Some(clock.today + schedule.value.intervalDays))
  {}

  lemma {:induction false} SeedEachSchedules(meta: Metadata, ruleSets: seq<RuleSet>, next: int, key: string)
    ensures var seeded := SeedEach(meta, ruleSets, next);
            && seeded.scheduleEpoch == meta.scheduleEpoch && SameSource(RecordOf(seeded, key), RecordOf(meta, key))
            && ScheduleOf(seeded, key)
               == if ScheduleOf(meta, key).nextUpdate.None?
                     && exists rs :: rs in ruleSets && rs.key == key && Describes(RecordOf(meta, key), rs)
                  then Schedule(ScheduleOf(meta, key).retry, Some(next)) else ScheduleOf(meta, key)
  {
    if ruleSets != [] {
      var init, last := ruleSets[..|ruleSets| - 1], ruleSets[|ruleSets| - 1];
      SeedEachSchedules(meta, init, next, key);
      SeedEachSchedules(meta, init, next, last.key);
      assert ruleSets == init + [last];
      assert forall rs :: rs in ruleSets <==> rs in init || rs == last;
    }
  }

  /**
   * Seeding fills in exactly the missing update dates of the rule sets it covers, if updates are on and its epoch is the
   * current one, and never touches anything else.
   */
  lemma SeedingFillsGaps(meta: Metadata, ruleSets: seq<RuleSet>, enabled: bool, epoch: nat, next: int, key: string)
    ensures var seeded := Seeded(meta, ruleSets, enabled, epoch, next);
            && seeded.scheduleEpoch == meta.scheduleEpoch && SameSource(RecordOf(seeded, key), RecordOf(meta, key))
            && ScheduleOf(seeded, key)
               == if enabled && epoch == meta.scheduleEpoch && ScheduleOf(meta, key).nextUpdate.None?
                     && exists rs :: rs in ruleSets && rs.key == key && Describes(RecordOf(meta, key), rs)
                  then Schedule(ScheduleOf(meta, key).retry, Some(next)) else ScheduleOf(meta, key)
  {
    SeedEachSchedules(meta, ruleSets, next, key);
  }

  /** Of the rule sets with one key the last one's state is in a snapshot. */
  lemma {:induction false} SnapshotShowsRecord(meta: Metadata, ruleSets: seq<RuleSet>, usable: RuleSet -> bool, i: nat)
    requires i < |ruleSets| && forall j :: i < j < |ruleSets| ==> ruleSets[j].key != ruleSets[i].key
    ensures ruleSets[i].key in StatesOf(meta, ruleSets, usable)
    ensures var rs, state := ruleSets[i], StatesOf(meta, ruleSets, usable)[ruleSets[i].key];
            var record := RecordOf(meta, rs.key);
            if record.url == None || record.url == Some(rs.url)
            then state == RuleSetState(usable(rs), record.checkedAt, Schedule(record.retry, record.nextUpdate))
            else state == RuleSetState(false, None, Schedule(None, None))
  {
    if i < |ruleSets| - 1 { SnapshotShowsRecord(meta, ruleSets[..|ruleSets| - 1], usable, i); }
  }

  lemma {:induction false} SnapshotKeys(meta: Metadata, ruleSets: seq<RuleSet>, usable: RuleSet -> bool, key: string)
    ensures key in StatesOf(meta, ruleSets, usable) <==> exists i :: 0 <= i < |ruleSets| && ruleSets[i].key == key
  {
    if ruleSets != [] {
      var init := ruleSets[..|ruleSets| - 1];
      SnapshotKeys(meta, init, usable, key);
      assert ruleSets[|ruleSets| - 1].key == key ==> exists i :: 0 <= i < |ruleSets| && ruleSets[i].key == key;
      assert forall i :: 0 <= i < |init| ==> init[i] == ruleSets[i];
    }
  }

  /**
   * A snapshot brings presence and check time of its rule sets to the model under any epoch, their schedules only under
   * the current one, and leaves the other rule sets alone.
   */
  lemma SnapshotReachesModel(meta: Metadata, ruleSets: seq<RuleSet>, usable: RuleSet -> bool, known: RuleSetStates,
                             current: bool, i: nat, other: string)
    requires i < |ruleSets| && forall j :: i < j < |ruleSets| ==> ruleSets[j].key != ruleSets[i].key
    requires Describes(RecordOf(meta, ruleSets[i].key), ruleSets[i])
    ensures var rs, after := ruleSets[i], Applied(known, StatesOf(meta, ruleSets, usable), current);
            && rs.key in after && after[rs.key].present == usable(rs) && after[rs.key].checkedAt == RecordOf(meta, rs.key).checkedAt
            && after[rs.key].schedule == (if current then ScheduleOf(meta, rs.key) else ScheduleIn(known, rs.key))
            && ((forall j :: 0 <= j < |ruleSets| ==> ruleSets[j].key != other) ==>
                  (other in after <==> other in known) && (other in known ==> after[other] == known[other]))
  {
    SnapshotShowsRecord(meta, ruleSets, usable, i);
    SnapshotKeys(meta, ruleSets, usable, other);
  }

  /** A snapshot of the current metadata, applied under the current epoch, brings the model's schedules up to the disk's. */
  lemma {:induction false} CurrentSnapshotCatchesUp(meta: Metadata, ruleSets: seq<RuleSet>, usable: RuleSet -> bool,
                                                    known: RuleSetStates, key: string)
    requires forall i :: 0 <= i < |ruleSets| ==> Describes(RecordOf(meta, ruleSets[i].key), ruleSets[i])
    ensures ScheduleIn(Applied(known, StatesOf(meta, ruleSets, usable), true), key)
            == if exists i :: 0 <= i < |ruleSets| && ruleSets[i].key == key then ScheduleOf(meta, key) else ScheduleIn(known, key)
  {
    if ruleSets != [] {
      var init := ruleSets[..|ruleSets| - 1];
      CurrentSnapshotCatchesUp(meta, init, usable, known, key);
      assert ruleSets[|ruleSets| - 1].key == key ==> exists i :: 0 <= i < |ruleSets| && ruleSets[i].key == key;
      assert forall i :: 0 <= i < |init| ==> init[i] == ruleSets[i];
    }
  }

  /** Adopting a source changes a schedule exactly when the record names another source and has a schedule. */
  lemma AdoptionChangesScheduleIff(meta: Metadata, rs: RuleSet, key: string)
    requires Adopted(meta, rs).Some?
    ensures ScheduleOf(Adopted(meta, rs).value, key) != ScheduleOf(meta, key)
            <==> key == rs.key && !Describes(RecordOf(meta, key), rs) && ScheduleOf(meta, key) != NO_SCHEDULE
  {}
}
