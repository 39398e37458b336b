/** Saving the configuration: requested changes roll back when the save fails, confirmed state is kept for a later save. */
module ConfigIo {
  import opened Wrappers
  import opened Json
  import opened ConfigMerge
  import opened MergeLaws
  import opened MergeElements
  import opened ConfigDocuments

  // ----- The world outside: the profiles file and unseen code -----

  datatype Disk = Unreadable | Missing | Corrupt | Holds(document: Value)

  /** One attempt at the file: what reading it gives, and whether the compare-and-write goes through. */
  datatype Io = Io(disk: Disk, writes: bool)

  /** Code this model does not look into, and the configuration an absent file stands for. */
  datatype Env = Env(checks: Checks, normalize: Value -> Value, absent: Value)

  // ----- One commit -----

  /** The kill switch follows the state the helper applied, whatever the file says. */
  function WithKillSwitch(document: Value, edited: Value): Value {
    if HasSettings(document) && Setting(edited, KILL_SWITCH).Some? then
      var settings := document.fields[SETTINGS];
      WithSettings(document, settings.(fields := settings.fields[KILL_SWITCH := Setting(edited, KILL_SWITCH).value]))
    else document
  }

  function OnDisk(env: Env, disk: Disk): Option<Value> {
    match disk
    case Missing => Some(env.absent)
    case Holds(document) => Some(document)
    case _ => None
  }

  /** The configuration a commit writes, or nothing when any step of it fails. */
  function Commit(env: Env, blocked: bool, io: Io, base: Value, edited: Value): Option<Value> {
    if blocked || OnDisk(env, io.disk).None? then None
    else
      match MergeDocuments(env.checks, base, OnDisk(env, io.disk).value, edited)
      case Merged(document) =>
        var final := env.normalize(WithKillSwitch(document, edited));
        if env.checks.valid(final) && io.writes then Some(final) else None
      case _ => None
  }

  /**
   * When a commit succeeds, and what it writes: saving is not blocked, the file can be read or is absent, its document, the
   * base and the edited one are valid and merge without a conflict, the result decodes and is valid before and after
   * normalizing, and the write goes through.
   */
  lemma CommitIff(env: Env, blocked: bool, io: Io, base: Value, current: Value, edited: Value, merged: Value, cleared: Value)
    requires io.disk == Holds(current) || (io.disk == Missing && current == env.absent)
    requires Merge(Some(base), Some(current), Some(edited), "", false) == Some(merged) && Cleared(merged, cleared)
    ensures var final := env.normalize(WithKillSwitch(cleared, edited));
            && Commit(env, blocked, io, base, edited) in {None, Some(final)}
            && (Commit(env, blocked, io, base, edited).Some? <==>
                  && !blocked && io.writes
                  && env.checks.valid(base) && env.checks.valid(current) && env.checks.valid(edited)
                  && Conflicts(Some(base), Some(current), Some(edited), "", false) == []
                  && env.checks.decodes(merged) && env.checks.valid(cleared) && env.checks.valid(final))
  {
    MergedIff(env.checks, base, current, edited, merged, cleared);
  }

  /** A file that cannot be read or understood is never overwritten. */
  lemma UnreadableStays(env: Env, blocked: bool, io: Io, base: Value, edited: Value)
    requires io.disk.Unreadable? || io.disk.Corrupt?
    ensures Commit(env, blocked, io, base, edited).None?
  {}

  // ----- The saved state of the daemon -----

  /** `mergeBase` is the configuration before the first confirmed change no save has carried yet. */
  datatype Saved = Saved(config: Value, mergeBase: Option<Value>, blocked: bool)

  function BaseFor(s: Saved, before: Value): Value {
    if s.mergeBase.Some? then s.mergeBase.value else before
  }

  function CommitModel(env: Env, s: Saved, before: Value, io: Io): Option<Value> {
    Commit(env, s.blocked, io, BaseFor(s, before), s.config)
  }

  /** After a requested change: saved, or back to the configuration before it. */
  function Requested(env: Env, s: Saved, before: Value, io: Io): Saved {
    match CommitModel(env, s, before, io)
    case Some(config) => s.(config := config, mergeBase := None)
    case None => s.(config := before)
  }

  /** After a confirmed change: saved, or kept with the base a later save must merge from. */
  function Confirmed(env: Env, s: Saved, before: Value, io: Io): Saved {
    match CommitModel(env, s, before, io)
    case Some(config) => s.(config := config, mergeBase := None)
    case None => s.(mergeBase := Some(BaseFor(s, before)))
  }

  // ----- Effects -----

  datatype Effect = SaveConfig | PersistConfirmedState | BroadcastState | AppendAppLog | OtherEffect(tag: nat)

  function Without(effects: seq<Effect>, gone: Effect): (rest: seq<Effect>)
    ensures gone !in rest
    ensures forall effect :: effect != gone ==> (effect in rest <==> effect in effects)
  {
    if effects == [] then []
    else if effects[0] == gone then Without(effects[1..], gone)
    else [effects[0]] + Without(effects[1..], gone)
  }

  /** What may still happen after a rolled back change: telling the clients and writing the log. */
  function Harmless(effects: seq<Effect>): (rest: seq<Effect>)
    ensures forall effect :: effect in rest <==> effect in effects && (effect.BroadcastState? || effect.AppendAppLog?)
  {
    if effects == [] then []
    else if effects[0].BroadcastState? || effects[0].AppendAppLog? then [effects[0]] + Harmless(effects[1..])
    else Harmless(effects[1..])
  }

  function EnsureBroadcast(effects: seq<Effect>): seq<Effect> {
    if BroadcastState in effects then effects else effects + [BroadcastState]
  }

  function EffectsAfter(effects: seq<Effect>, saved: bool): seq<Effect> {
    if SaveConfig in effects then
      if saved then Without(effects, SaveConfig) else EnsureBroadcast(Harmless(effects))
    else if PersistConfirmedState in effects then
      Without(if saved then effects else EnsureBroadcast(effects), PersistConfirmedState)
    else effects
  }

  /**
   * No requested save is left for the executor, which could only report it, and no confirmed save either unless a successful
   * requested save hid it, which takes an update that asks for both. A failed requested save lets nothing act on the configuration it rolled back.
   */
  lemma SaveEffectsAreConsumed(effects: seq<Effect>, saved: bool)
    ensures var after := EffectsAfter(effects, saved);
            && SaveConfig !in after
            && (PersistConfirmedState in after <==> PersistConfirmedState in effects && SaveConfig in effects && saved)
            && (SaveConfig in effects && !saved ==>
                  BroadcastState in after && forall effect :: effect in after ==> effect.BroadcastState? || effect.AppendAppLog?)
            && (saved || (SaveConfig !in effects) ==>
                  forall tag :: OtherEffect(tag) in after <==> OtherEffect(tag) in effects)
  {}

  datatype Keep = AllBut(effect: Effect) | OnlyHarmless

  predicate Passes(effect: Effect, keep: Keep) {
    match keep
    case AllBut(gone) => effect != gone
    case OnlyHarmless => effect.BroadcastState? || effect.AppendAppLog?
  }

  /** The effects that pass, in their order. */
  function Passing(effects: seq<Effect>, keep: Keep): seq<Effect> {
    if effects == [] then []
    else (if Passes(effects[0], keep) then [effects[0]] else []) + Passing(effects[1..], keep)
  }

  lemma {:induction false} PassingIs(effects: seq<Effect>, gone: Effect)
    ensures Without(effects, gone) == Passing(effects, AllBut(gone)) && Harmless(effects) == Passing(effects, OnlyHarmless)
  {
    if effects != [] { PassingIs(effects[1..], gone); }
  }

  lemma {:induction false} PassingOneMore(effects: seq<Effect>, last: Effect, keep: Keep)
    ensures Passing(effects + [last], keep) == Passing(effects, keep) + if Passes(last, keep) then [last] else []
  {
    if effects == [] {
      assert [] + [last] == [last] && [last][1..] == [];
    } else {
      assert (effects + [last])[1..] == effects[1..] + [last];
      PassingOneMore(effects[1..], last, keep);
    }
  }

  /**
   * What is left to carry out, in the order it was asked for: after a save everything but that save; after a failed
   * requested save only telling the clients and the log; after a failed confirmed save everything else. After every
   * failure the clients are told.
   */
  lemma EffectsLeft(effects: seq<Effect>, saved: bool)
    ensures var after, told := EffectsAfter(effects, saved), if BroadcastState in effects then [] else [BroadcastState];
            if SaveConfig in effects then
              after == if saved then Passing(effects, AllBut(SaveConfig)) else Passing(effects, OnlyHarmless) + told
            else if PersistConfirmedState in effects then
              after == Passing(effects, AllBut(PersistConfirmedState)) + if saved then [] else told
            else after == effects
  {
    PassingIs(effects, SaveConfig);
    PassingIs(effects, PersistConfirmedState);
    PassingIs(effects + [BroadcastState], PersistConfirmedState);
    PassingOneMore(effects, BroadcastState, AllBut(PersistConfirmedState));
  }

  // ----- The daemon as it runs -----

  class EffectList {
    var items: seq<Effect>

    constructor (items: seq<Effect>)
      ensures this.items == items
    {
      this.items := items;
    }
  }

  datatype Baseline = Baseline(config: Value, supportPrompt: string)

  class Daemon {
    var config: Value
    var unsavedStateMergeBase: Option<Value>
    var persistenceBlocked: bool
    var supportPrompt: string

    constructor (config: Value, supportPrompt: string, blocked: bool)
      ensures View() == Saved(config, None, blocked) && this.supportPrompt == supportPrompt
    {
      this.config, this.unsavedStateMergeBase, this.persistenceBlocked := config, None, blocked;
      this.supportPrompt := supportPrompt;
    }

    ghost function View(): Saved
      reads this
    {
      Saved(config, unsavedStateMergeBase, persistenceBlocked)
    }

    method CommitModelConfig(env: Env, before: Value, io: Io) returns (saved: bool)
      modifies this`config, this`unsavedStateMergeBase
      ensures saved == CommitModel(env, old(View()), before, io).Some?
      ensures View() == if saved then old(View()).(config := CommitModel(env, old(View()), before, io).value, mergeBase := None)
                        else old(View())
    {
      var base := match unsavedStateMergeBase case Some(b) => b case None => before;
      var committed := Commit(env, persistenceBlocked, io, base, config);
      if committed.None? { return false; }
      config := committed.value;
      unsavedStateMergeBase := None;
      return true;
    }

    method PersistConfigChanges(env: Env, before: Baseline, effects: EffectList, io: Io)
      modifies this, effects
      ensures SaveConfig in old(effects.items) ==> View() == Requested(env, old(View()), before.config, io)
      ensures SaveConfig !in old(effects.items) && PersistConfirmedState in old(effects.items) ==>
                View() == Confirmed(env, old(View()), before.config, io)
      ensures SaveConfig !in old(effects.items) && PersistConfirmedState !in old(effects.items) ==> View() == old(View())
      ensures effects.items == EffectsAfter(old(effects.items), CommitModel(env, old(View()), before.config, io).Some?)
      ensures supportPrompt == if SaveConfig in old(effects.items) && CommitModel(env, old(View()), before.config, io).None?
                               then before.supportPrompt else old(supportPrompt)
    {
      if SaveConfig in effects.items {
        PersistRequestedChange(env, before, effects, io);
      } else if PersistConfirmedState in effects.items {
        PersistConfirmed(env, before.config, effects, io);
      }
    }

    method PersistRequestedChange(env: Env, before: Baseline, effects: EffectList, io: Io)
      requires SaveConfig in effects.items
      modifies this, effects
      ensures View() == Requested(env, old(View()), before.config, io)
      ensures effects.items == EffectsAfter(old(effects.items), CommitModel(env, old(View()), before.config, io).Some?)
      ensures supportPrompt == if CommitModel(env, old(View()), before.config, io).None? then before.supportPrompt else old(supportPrompt)
    {
      var saved := CommitModelConfig(env, before.config, io);
      if saved {
        effects.items := Without(effects.items, SaveConfig);
      } else {
        config := before.config;
        supportPrompt := before.supportPrompt;
        effects.items := EnsureBroadcast(Harmless(effects.items));
      }
    }

    method PersistConfirmed(env: Env, before: Value, effects: EffectList, io: Io)
      requires SaveConfig !in effects.items && PersistConfirmedState in effects.items
      modifies this`config, this`unsavedStateMergeBase, effects
      ensures View() == Confirmed(env, old(View()), before, io)
      ensures effects.items == EffectsAfter(old(effects.items), CommitModel(env, old(View()), before, io).Some?)
    {
      var saved := CommitModelConfig(env, before, io);
      if !saved {
        if unsavedStateMergeBase.None? { unsavedStateMergeBase := Some(before); }
        effects.items := EnsureBroadcast(effects.items);
      }
      effects.items := Without(effects.items, PersistConfirmedState);
    }

    /** A configuration read from disk replaces the one in memory; only the kill switch stays as applied. */
    method Reload(document: Value)
      modifies this
      ensures View() == Reloaded(old(View()), document) && supportPrompt == old(supportPrompt)
    {
      config := WithKillSwitch(document, config);
      persistenceBlocked := false;
      unsavedStateMergeBase := None;
    }
  }

  function Reloaded(s: Saved, document: Value): Saved {
    Saved(WithKillSwitch(document, s.config), None, false)
  }

  // ----- Runs -----

  datatype Save = RequestedSave | ConfirmedSave

  /**
   * One turn of the main loop: an update that changes the configuration and asks for a save, a reload from disk, or
   * an editor's commit. An update that asks for no save leaves the configuration alone and is no turn here.
   */
  datatype Turn =
    | Update(change: Value -> Value, save: Save, io: Io)
    | Reload(document: Value)
    | EditorCommit(base: Value, edited: Value, io: Io)

  /**
   * `agreed` is the configuration the last successful save wrote, or the one the last reload or editor's commit left in
   * memory, which is the document read or written but for the applied kill switch.
   */
  datatype Session = Session(saved: Saved, agreed: Value)

  function Edited(t: Session, turn: Turn): Saved
    requires turn.Update?
  {
    t.saved.(config := turn.change(t.saved.config))
  }

  function TurnCommit(env: Env, t: Session, turn: Turn): Option<Value> {
    match turn
    case Update(change, save, io) => CommitModel(env, Edited(t, turn), t.saved.config, io)
    case Reload(document) => Some(document)
    case EditorCommit(base, edited, io) => Commit(env, t.saved.blocked, io, base, WithKillSwitch(edited,
        t.saved.config))
  }

  function After(env: Env, t: Session, turn: Turn): Session {
    var committed := TurnCommit(env, t, turn);
    var saved :=
      match turn
      case Update(change, RequestedSave, io) => Requested(env, Edited(t, turn), t.saved.config, io)
      case Update(change, ConfirmedSave, io) => Confirmed(env, Edited(t, turn), t.saved.config, io)
      case _ => if committed.Some? then Reloaded(t.saved, committed.value) else t.saved;
    Session(saved, if committed.Some? then saved.config else t.agreed)
  }

  function Run(env: Env, t: Session, turns: seq<Turn>): Session
    decreases |turns|
  {
    if turns == [] then t else Run(env, After(env, t, turns[0]), turns[1..])
  }

  /** The base the next save of a change to the current configuration merges from. */
  function NextBase(t: Session): Value {
    BaseFor(t.saved, t.saved.config)
  }

  /** Over every run the base of the next merge is the configuration in memory just after the last save, reload or editor's commit. */
  lemma {:induction false} NextMergeStartsFromTheLastCommit(env: Env, t: Session, turns: seq<Turn>)
    requires NextBase(t) == t.agreed
    ensures NextBase(Run(env, t, turns)) == Run(env, t, turns).agreed
    decreases |turns|
  {
    if turns != [] { NextMergeStartsFromTheLastCommit(env, After(env, t, turns[0]), turns[1..]); }
  }

  /** While saving is blocked and nobody reloads, nothing is saved: what was agreed stays, and so does the block. */
  lemma {:induction false} BlockedUntilReload(env: Env, t: Session, turns: seq<Turn>)
    requires t.saved.blocked && forall i :: 0 <= i < |turns| ==> !turns[i].Reload?
    ensures var after := Run(env, t, turns); after.saved.blocked && after.agreed == t.agreed
    decreases |turns|
  {
    if turns != [] { BlockedUntilReload(env, After(env, t, turns[0]), turns[1..]); }
  }

  /** A reload takes the document over and lets the next save through, which merges from it. */
  lemma ReloadUnblocks(env: Env, t: Session, document: Value, save: Turn)
    requires save.Update? && save.io.disk == Holds(document) && save.io.writes
    requires HasSettings(document) ==> Setting(t.saved.config, KILL_SWITCH) == Setting(document, KILL_SWITCH)
    requires forall config :: env.checks.decodes(config) && env.checks.valid(config)
    ensures var after := After(env, t, Reload(document));
            && after.saved == Saved(document, None, false) && NextBase(after) == document
            && TurnCommit(env, after, save).Some?
  {
    var after := After(env, t, Reload(document));
    if HasSettings(document) && Setting(t.saved.config, KILL_SWITCH).Some? {
      var settings := document.fields[SETTINGS];
      assert settings.fields[KILL_SWITCH := settings.fields[KILL_SWITCH]] == settings.fields;
      assert document.fields[SETTINGS := settings] == document.fields;
    }
    var edited := save.change(document);
    assert Conflicts(Some(document), Some(document), Some(edited), "", false) == [];
    MergedIffClean(env.checks, document, document, edited);
  }

  /** A requested change whose save fails leaves no trace: not in the configuration, not in the merge base. */
  lemma FailedRequestLeavesNoTrace(env: Env, t: Session, turn: Turn)
    requires turn.Update? && turn.save.RequestedSave? && TurnCommit(env, t, turn).None?
    ensures After(env, t, turn) == t
  {}

  ghost predicate AllFail(env: Env, t: Session, turns: seq<Turn>)
    decreases |turns|
  {
    turns == [] ||
    (turns[0].Update? && TurnCommit(env, t, turns[0]).None? && AllFail(env, After(env, t, turns[0]), turns[1..]))
  }

  /** The configuration after applying only the confirmed changes. */
  ghost function ConfirmedOnly(config: Value, turns: seq<Turn>): Value
    requires forall turn :: turn in turns ==> turn.Update?
    decreases |turns|
  {
    if turns == [] then config
    else ConfirmedOnly(if turns[0].save.ConfirmedSave? then turns[0].change(config) else config, turns[1..])
  }

  /** While every save fails, memory holds exactly the confirmed changes, and the merge base does not move. */
  lemma {:induction false} FailingSavesKeepConfirmedState(env: Env, t: Session, turns: seq<Turn>)
    requires AllFail(env, t, turns)
    ensures forall turn :: turn in turns ==> turn.Update?
    ensures var after := Run(env, t, turns);
            && after.saved.config == ConfirmedOnly(t.saved.config, turns)
            && after.agreed == t.agreed
            && NextBase(after) == NextBase(t)
            && after.saved.blocked == t.saved.blocked
    decreases |turns|
  {
    if turns != [] { FailingSavesKeepConfirmedState(env, After(env, t, turns[0]), turns[1..]); }
  }

  /** A path of a saved document that is merged from its three versions. */
  ghost predicate Ordinary(keys: seq<string>) {
    Merges(keys) && (keys[0] == SETTINGS ==> keys[1] != KILL_SWITCH)
  }

  /** The three versions a save merges: the base, the disk's and memory's. */
  datatype Versions = Versions(base: Value, disk: Value, memory: Value)

  function VersionsOf(env: Env, t: Session, turn: Turn): Versions
    requires turn.Update? && OnDisk(env, turn.io.disk).Some?
  {
    Versions(NextBase(t), OnDisk(env, turn.io.disk).value, turn.change(t.saved.config))
  }

  /** The document a successful save normalizes and writes. */
  function Document(env: Env, v: Versions): Value
    requires MergeDocuments(env.checks, v.base, v.disk, v.memory).Merged?
  {
    WithKillSwitch(MergeDocuments(env.checks, v.base, v.disk, v.memory).document, v.memory)
  }

  /** What a typed configuration serializes to: settings with a kill switch, and a profile's id as the last connected one. */
  predicate IsConfiguration(document: Value) {
    && HasSettings(document) && Setting(document, KILL_SWITCH).Some?
    && match Setting(document, LAST_CONNECTED)
       case Some(last) => last.Str?
       case None => true
  }

  predicate AreConfigurations(v: Versions) {
    IsConfiguration(v.base) && IsConfiguration(v.disk) && IsConfiguration(v.memory)
  }

  lemma SavedIsDocument(env: Env, t: Session, turn: Turn)
    requires turn.Update? && TurnCommit(env, t, turn).Some?
    ensures OnDisk(env, turn.io.disk).Some?
    ensures var v := VersionsOf(env, t, turn);
            && MergeDocuments(env.checks, v.base, v.disk, v.memory).Merged?
            && After(env, t, turn).saved == Saved(env.normalize(Document(env, v)), None, t.saved.blocked)
  {}

  /** A saved document holds memory's version wherever memory changed the base, and the disk's elsewhere. */
  ghost predicate Carries(env: Env, v: Versions, keys: seq<string>)
    requires MergeDocuments(env.checks, v.base, v.disk, v.memory).Merged?
  {
    var b, d, m := At(Some(v.base), keys), At(Some(v.disk), keys), At(Some(v.memory), keys);
    Ordinary(keys) && ObjectsAlong(Some(v.base), Some(v.disk), Some(v.memory), keys) && Whole(b, d, m, PathAt("", keys)) ==>
      At(Some(Document(env, v)), keys) == if m != b then m else d
  }

  /** The same inside profiles and subscriptions. */
  ghost predicate CarriesInside(env: Env, v: Versions, keys: seq<string>, id: string, inner: seq<string>)
    requires MergeDocuments(env.checks, v.base, v.disk, v.memory).Merged?
  {
    var b, d, m := Inside(Some(v.base), keys, id, inner), Inside(Some(v.disk), keys, id, inner), Inside(Some(v.memory), keys, id, inner);
    Ordinary(keys) && LeadsInside(Some(v.base), Some(v.disk), Some(v.memory), keys, id, inner, "")
    && Whole(b, d, m, InsidePath("", keys, id, inner)) ==>
      Inside(Some(Document(env, v)), keys, id, inner) == if m != b then m else d
  }

  /**
   * The two settings confirmed changes write. The kill switch is always memory's. The last connected profile is memory's
   * where memory changed the base and the disk's elsewhere, and dropped exactly when the saved document lacks the profile.
   */
  ghost predicate CarriesConfirmed(env: Env, v: Versions)
    requires MergeDocuments(env.checks, v.base, v.disk, v.memory).Merged?
  {
    var document := Document(env, v);
    var b, d, m := Setting(v.base, LAST_CONNECTED), Setting(v.disk, LAST_CONNECTED), Setting(v.memory, LAST_CONNECTED);
    AreConfigurations(v) ==>
      && Setting(document, KILL_SWITCH) == Setting(v.memory, KILL_SWITCH)
      && Setting(document, LAST_CONNECTED) == Kept(document, if m != b then m else d)
  }

  lemma OnlyKillSwitchChanges(document: Value, memory: Value)
    requires HasSettings(document) && Setting(memory, KILL_SWITCH).Some?
    ensures var after := WithKillSwitch(document, memory);
            && HasSettings(after) && ProfileIds(after) == ProfileIds(document)
            && Setting(after, KILL_SWITCH) == Setting(memory, KILL_SWITCH)
            && Setting(after, LAST_CONNECTED) == Setting(document, LAST_CONNECTED)
  {
    assert KILL_SWITCH[0] != LAST_CONNECTED[0] && PROFILES[0] != SETTINGS[0];
  }

  lemma SaveCarriesConfirmed(env: Env, v: Versions)
    requires MergeDocuments(env.checks, v.base, v.disk, v.memory).Merged?
    ensures CarriesConfirmed(env, v)
  {
    if AreConfigurations(v) {
      MergedHasSettings(env.checks, v.base, v.disk, v.memory);
      MergedLastConnected(env.checks, v.base, v.disk, v.memory);
      OnlyKillSwitchChanges(MergeDocuments(env.checks, v.base, v.disk, v.memory).document, v.memory);
    }
  }

  lemma SaveCarries(env: Env, v: Versions, keys: seq<string>, id: string, inner: seq<string>)
    requires MergeDocuments(env.checks, v.base, v.disk, v.memory).Merged?
    ensures Carries(env, v, keys) && CarriesInside(env, v, keys, id, inner)
  {
    var merged := MergeDocuments(env.checks, v.base, v.disk, v.memory).document;
    if Ordinary(keys) { KillSwitchIsLocal(merged, v.memory, keys); }
    var b, d, m := Some(v.base), Some(v.disk), Some(v.memory);
    if Ordinary(keys) && ObjectsAlong(b, d, m, keys) && Whole(At(b, keys), At(d, keys), At(m, keys), PathAt("", keys)) {
      MergedDocumentLosesNothing(env.checks, v.base, v.disk, v.memory, keys);
    }
    if Ordinary(keys) && LeadsInside(b, d, m, keys, id, inner, "")
       && Whole(Inside(b, keys, id, inner), Inside(d, keys, id, inner), Inside(m, keys, id, inner), InsidePath("", keys, id, inner)) {
      MergedDocumentKeepsElements(env.checks, v.base, v.disk, v.memory, keys, id, inner);
    }
  }

  /**
   * The first save to succeed after any number of failures carries every confirmed change they lost. What it merges are the
   * configuration last agreed with the disk, the disk's, and the one in memory with all confirmed changes; the document it
   * writes, before it is normalized, holds memory's side wherever memory differs from the agreed configuration: at every
   * path, inside every profile and subscription, and in the two settings confirmed changes write.
   */
  lemma NextSaveCarriesLostState(env: Env, t: Session, lost: seq<Turn>, turn: Turn, keys: seq<string>, id: string, inner: seq<string>)
    requires NextBase(t) == t.agreed && AllFail(env, t, lost)
    requires turn.Update? && TurnCommit(env, Run(env, t, lost), turn).Some?
    requires forall lostTurn :: lostTurn in lost ==> lostTurn.Update?
    ensures OnDisk(env, turn.io.disk).Some?
    ensures var v := Versions(t.agreed, OnDisk(env, turn.io.disk).value, turn.change(ConfirmedOnly(t.saved.config, lost)));
            && MergeDocuments(env.checks, v.base, v.disk, v.memory).Merged?
            && Run(env, t, lost + [turn]).saved == Saved(env.normalize(Document(env, v)), None, t.saved.blocked)
            && Carries(env, v, keys) && CarriesInside(env, v, keys, id, inner) && CarriesConfirmed(env, v)
  {
    FailingSavesKeepConfirmedState(env, t, lost);
    RunAppend(env, t, lost, turn);
    var middle := Run(env, t, lost);
    SavedIsDocument(env, middle, turn);
    var v := VersionsOf(env, middle, turn);
    SaveCarries(env, v, keys, id, inner);
    SaveCarriesConfirmed(env, v);
  }

  lemma {:induction false} RunAppend(env: Env, t: Session, turns: seq<Turn>, last: Turn)
    ensures Run(env, t, turns + [last]) == After(env, Run(env, t, turns), last)
    decreases |turns|
  {
    if turns == [] {
      assert [] + [last] == [last] && [last][1..] == [];
    } else {
      assert (turns + [last])[1..] == turns[1..] + [last];
      RunAppend(env, After(env, t, turns[0]), turns[1..], last);
    }
  }

  lemma KillSwitchIsLocal(document: Value, edited: Value, keys: seq<string>)
    requires Ordinary(keys)
    ensures At(Some(WithKillSwitch(document, edited)), keys) == At(Some(document), keys)
  {
    var after := WithKillSwitch(document, edited);
    if keys[0] == SETTINGS {
      var rest := keys[1..];
      assert rest[0] == keys[1];
      assert FieldOf(Field(after, SETTINGS), rest[0]) == FieldOf(Field(document, SETTINGS), rest[0]);
      assert At(Field(after, SETTINGS), rest) == At(Field(document, SETTINGS), rest);
    } else {
      assert FieldOf(Some(after), keys[0]) == FieldOf(Some(document), keys[0]);
    }
  }
}
