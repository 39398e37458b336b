/** What becomes of confirmed changes when failed saves, reloads and editor commits mix. */
module ConfigRuns {
  import opened Wrappers
  import opened Json
  import opened ConfigMerge
  import opened ConfigDocuments
  import opened ConfigIo

  /** The turn replaces the configuration in memory: a reload, or an editor's commit that goes through. */
  predicate Replaces(env: Env, t: Session, turn: Turn) {
    !turn.Update? && TurnCommit(env, t, turn).Some?
  }

  predicate AnyReplaces(env: Env, t: Session, turns: seq<Turn>)
    decreases |turns|
  {
    turns != [] && (Replaces(env, t, turns[0]) || AnyReplaces(env, After(env, t, turns[0]), turns[1..]))
  }

  /**
   * No update of the run is saved, none of its confirmed changes touches the setting, and what replaces the configuration
   * is one. Requested changes may do anything: their saves fail, so they are rolled back.
   */
  predicate LeavesPending(env: Env, t: Session, turns: seq<Turn>, key: string)
    decreases |turns|
  {
    turns == [] ||
    (&& (turns[0].Update? ==>
           TurnCommit(env, t, turns[0]).None?
           && (turns[0].save.ConfirmedSave? ==> Setting(turns[0].change(t.saved.config), key) == Setting(t.saved.config, key)))
     && (Replaces(env, t, turns[0]) ==> HasSettings(TurnCommit(env, t, turns[0]).value))
     && LeavesPending(env, After(env, t, turns[0]), turns[1..], key))
  }

  /** Until a save succeeds, the applied kill switch stays in memory through reloads and editor commits too. */
  lemma {:induction false} KillSwitchStaysInMemory(env: Env, t: Session, turns: seq<Turn>)
    requires LeavesPending(env, t, turns, KILL_SWITCH) && Setting(t.saved.config, KILL_SWITCH).Some?
    ensures Setting(Run(env, t, turns).saved.config, KILL_SWITCH) == Setting(t.saved.config, KILL_SWITCH)
    decreases |turns|
  {
    if turns != [] {
      if Replaces(env, t, turns[0]) { OnlyKillSwitchChanges(TurnCommit(env, t, turns[0]).value, t.saved.config); }
      KillSwitchStaysInMemory(env, After(env, t, turns[0]), turns[1..]);
    }
  }

  /**
   * Every other setting stays in memory, and different from what was agreed, as long as nothing replaces the configuration;
   * from then on memory and the agreed configuration have the same.
   */
  lemma {:induction false} OtherSettingsStayUntilReplaced(env: Env, t: Session, turns: seq<Turn>, key: string)
    requires LeavesPending(env, t, turns, key)
    ensures var after := Run(env, t, turns);
            && (!AnyReplaces(env, t, turns) ==>
                  Setting(after.saved.config, key) == Setting(t.saved.config, key) && after.agreed == t.agreed)
            && (AnyReplaces(env, t, turns) ==> Setting(after.saved.config, key) == Setting(after.agreed, key))
    decreases |turns|
  {
    if turns != [] {
      OtherSettingsStayUntilReplaced(env, After(env, t, turns[0]), turns[1..], key);
    }
  }

  /** A confirmed change whose own save failed, what followed it, and the next update that is saved. */
  ghost predicate Pending(env: Env, t: Session, confirmed: Turn, between: seq<Turn>, save: Turn, key: string) {
    && NextBase(t) == t.agreed
    && confirmed.Update? && confirmed.save.ConfirmedSave? && TurnCommit(env, t, confirmed).None?
    && LeavesPending(env, After(env, t, confirmed), between, key)
    && var s := Run(env, After(env, t, confirmed), between);
       && save.Update? && TurnCommit(env, s, save).Some?
       && Setting(save.change(s.saved.config), key) == Setting(s.saved.config, key)
  }

  /** The three versions that save merges. */
  ghost function Merging(env: Env, t: Session, confirmed: Turn, between: seq<Turn>, save: Turn, key: string): (v: Versions)
    requires Pending(env, t, confirmed, between, save, key)
    ensures MergeDocuments(env.checks, v.base, v.disk, v.memory).Merged?
  {
    SavedIsDocument(env, Run(env, After(env, t, confirmed), between), save);
    VersionsOf(env, Run(env, After(env, t, confirmed), between), save)
  }

  lemma MergedFromAgreed(env: Env, t: Session, confirmed: Turn, between: seq<Turn>, save: Turn, key: string)
    requires Pending(env, t, confirmed, between, save, key)
    ensures var v := Merging(env, t, confirmed, between, save, key);
            CarriesConfirmed(env, v) && v.base == Run(env, After(env, t, confirmed), between).agreed
  {
    NextMergeStartsFromTheLastCommit(env, After(env, t, confirmed), between);
    SaveCarriesConfirmed(env, Merging(env, t, confirmed, between, save, key));
  }

  /** However failed saves, reloads and editor commits mix, the next save carries the kill switch confirmed last. */
  lemma NextSaveCarriesKillSwitch(env: Env, t: Session, confirmed: Turn, between: seq<Turn>, save: Turn)
    requires Pending(env, t, confirmed, between, save, KILL_SWITCH)
    requires AreConfigurations(Merging(env, t, confirmed, between, save, KILL_SWITCH))
    requires Setting(confirmed.change(t.saved.config), KILL_SWITCH).Some?
    ensures var v := Merging(env, t, confirmed, between, save, KILL_SWITCH);
            Setting(Document(env, v), KILL_SWITCH) == Setting(confirmed.change(t.saved.config), KILL_SWITCH)
  {
    MergedFromAgreed(env, t, confirmed, between, save, KILL_SWITCH);
    KillSwitchStaysInMemory(env, After(env, t, confirmed), between);
  }

  /** An editor's commit carries the applied kill switch as well, whatever the edited file says. */
  lemma EditorCommitCarriesKillSwitch(env: Env, t: Session, turn: Turn)
    requires turn.EditorCommit? && TurnCommit(env, t, turn).Some? && Setting(t.saved.config, KILL_SWITCH).Some?
    requires HasSettings(turn.base) && HasSettings(turn.edited)
             && OnDisk(env, turn.io.disk).Some? && HasSettings(OnDisk(env, turn.io.disk).value)
    ensures exists document ::
              TurnCommit(env, t, turn) == Some(env.normalize(document))
              && Setting(document, KILL_SWITCH) == Setting(t.saved.config, KILL_SWITCH)
  {
    var edited := WithKillSwitch(turn.edited, t.saved.config);
    var disk := OnDisk(env, turn.io.disk).value;
    OnlyKillSwitchChanges(turn.edited, t.saved.config);
    MergedHasSettings(env.checks, turn.base, disk, edited);
    var merged := MergeDocuments(env.checks, turn.base, disk, edited).document;
    OnlyKillSwitchChanges(merged, edited);
    assert TurnCommit(env, t, turn) == Some(env.normalize(WithKillSwitch(merged, edited)));
  }

  /**
   * The last connected profile confirmed last is carried by the next save until something replaces the configuration; after
   * that the save leaves whatever the disk has.
   */
  lemma NextSaveCarriesLastConnected(env: Env, t: Session, confirmed: Turn, between: seq<Turn>, save: Turn)
    requires Pending(env, t, confirmed, between, save, LAST_CONNECTED)
    requires AreConfigurations(Merging(env, t, confirmed, between, save, LAST_CONNECTED))
    requires Setting(confirmed.change(t.saved.config), LAST_CONNECTED) != Setting(t.agreed, LAST_CONNECTED)
    ensures var v := Merging(env, t, confirmed, between, save, LAST_CONNECTED);
            var last := Setting(confirmed.change(t.saved.config), LAST_CONNECTED);
            Setting(Document(env, v), LAST_CONNECTED)
            == Kept(Document(env, v),
                    if AnyReplaces(env, After(env, t, confirmed), between) then Setting(v.disk, LAST_CONNECTED) else last)
  {
    MergedFromAgreed(env, t, confirmed, between, save, LAST_CONNECTED);
    OtherSettingsStayUntilReplaced(env, After(env, t, confirmed), between, LAST_CONNECTED);
  }

  /** Keeping or dropping a setting never makes it another one. */
  lemma KeptIsItselfOrGone(document: Value, last: Option<Value>, other: Option<Value>)
    requires last.Some? && last != other
    ensures Kept(document, other) != last
  {}

  /**
   * So where the profile still exists, and the disk does not name it anyway, the next save carries the last connected
   * profile exactly when no reload and no successful editor commit came after it was confirmed.
   */
  lemma LastConnectedIsLostIff(env: Env, t: Session, confirmed: Turn, between: seq<Turn>, save: Turn)
    requires Pending(env, t, confirmed, between, save, LAST_CONNECTED)
    requires AreConfigurations(Merging(env, t, confirmed, between, save, LAST_CONNECTED))
    requires Setting(confirmed.change(t.saved.config), LAST_CONNECTED) != Setting(t.agreed, LAST_CONNECTED)
    requires Setting(confirmed.change(t.saved.config), LAST_CONNECTED).Some?
    ensures var v := Merging(env, t, confirmed, between, save, LAST_CONNECTED);
            var last := Setting(confirmed.change(t.saved.config), LAST_CONNECTED);
            Kept(Document(env, v), last) == last && Setting(v.disk, LAST_CONNECTED) != last ==>
              (Setting(Document(env, v), LAST_CONNECTED) == last <==> !AnyReplaces(env, After(env, t, confirmed), between))
  {
    NextSaveCarriesLastConnected(env, t, confirmed, between, save);
    var v := Merging(env, t, confirmed, between, save, LAST_CONNECTED);
    var last := Setting(confirmed.change(t.saved.config), LAST_CONNECTED);
    if Setting(v.disk, LAST_CONNECTED) != last { KeptIsItselfOrGone(Document(env, v), last, Setting(v.disk, LAST_CONNECTED)); }
  }

  /** Two profiles, of which one was connected last. */
  function TwoProfiles(last: string): (document: Value) {
    Object(map[PROFILES := Array(Named(["p", "q"])),
               SETTINGS := Object(map[KILL_SWITCH := Bool(false), LAST_CONNECTED := Str(last)])])
  }

  lemma TwoProfilesHasSettings(last: string)
    ensures var document := TwoProfiles(last);
            && IsConfiguration(document) && Profiles(document) == Named(["p", "q"])
            && Setting(document, LAST_CONNECTED) == Some(Str(last)) && Setting(document, KILL_SWITCH) == Some(Bool(false))
  {
    assert KILL_SWITCH[0] != LAST_CONNECTED[0] && PROFILES[0] != SETTINGS[0];
  }

  lemma SameKillSwitchStays(document: Value, edited: Value)
    requires HasSettings(document) && Setting(edited, KILL_SWITCH) == Setting(document, KILL_SWITCH)
    ensures WithKillSwitch(document, edited) == document
  {
    if Setting(edited, KILL_SWITCH).Some? {
      var settings := document.fields[SETTINGS];
      assert settings.fields[KILL_SWITCH := settings.fields[KILL_SWITCH]] == settings.fields;
      assert document.fields[SETTINGS := settings] == document.fields;
    }
  }

  lemma TwoProfilesIsConfiguration(last: string, other: string)
    ensures var document := TwoProfiles(last);
            && IsConfiguration(document) && ProfileIds(document) == ["p", "q"]
            && Setting(document, LAST_CONNECTED) == Some(Str(last)) && Setting(document, KILL_SWITCH) == Some(Bool(false))
            && WithKillSwitch(document, TwoProfiles(other)) == document
  {
    TwoProfilesHasSettings(last);
    TwoProfilesHasSettings(other);
    NamedElements(["p", "q"], "p");
    SameKillSwitchStays(TwoProfiles(last), TwoProfiles(other));
  }

  /** A reload really loses it: the profile is there all along, and the document saved after the reload names another. */
  lemma ReloadLosesLastConnected() returns (env: Env, t: Session, confirmed: Turn, between: seq<Turn>, save: Turn)
    ensures Pending(env, t, confirmed, between, save, LAST_CONNECTED)
    ensures var v := Merging(env, t, confirmed, between, save, LAST_CONNECTED);
            && AreConfigurations(v)
            && Setting(confirmed.change(t.saved.config), LAST_CONNECTED) == Some(Str("q"))
            && Setting(Document(env, v), LAST_CONNECTED) == Some(Str("p"))
            && ProfileIds(Document(env, v)) == ["p", "q"]
  {
    var before := TwoProfiles("p");
    TwoProfilesIsConfiguration("p", "q");
    TwoProfilesIsConfiguration("q", "p");
    TwoProfilesIsConfiguration("p", "p");
    env := Env(Checks(_ => true, _ => true), document => document, before);
    t := Session(Saved(before, None, false), before);
    confirmed := Update(_ => TwoProfiles("q"), ConfirmedSave, Io(Unreadable, true));
    between := [Reload(before)];
    save := Update(config => config, RequestedSave, Io(Holds(before), true));
    assert Run(env, After(env, t, confirmed), between) == t by {
      assert After(env, t, confirmed) == Session(Saved(TwoProfiles("q"), Some(before), false), before);
      assert After(env, After(env, t, confirmed), Reload(before)) == t;
      assert between[1..] == [];
    }
    assert VersionsOf(env, t, save) == Versions(before, before, before);
    assert MergeDocuments(env.checks, before, before, before) == Merged(before);
  }
}
