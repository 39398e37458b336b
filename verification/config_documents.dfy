/** The merge of whole configuration documents: when it answers, and what the answered document holds. */
module ConfigDocuments {
  import opened Wrappers
  import opened Json
  import opened Sequences
  import opened ConfigMerge
  import opened MergeLaws
  import opened MergeElements

  datatype MergeOutcome = Merged(document: Value) | Conflicted(paths: seq<string>) | Invalid

  /** The checks this model does not look into: decoding a document into a configuration, and validating one. */
  datatype Checks = Checks(decodes: Value -> bool, valid: Value -> bool)

  const PROFILES := "profiles"
  const SETTINGS := "settings"
  const LAST_CONNECTED := "last_connected_profile"
  const KILL_SWITCH := "kill_switch"

  function Profiles(document: Value): seq<Value> {
    match Field(document, PROFILES)
    case Some(Array(elems)) => elems
    case _ => []
  }

  function ProfileIds(document: Value): seq<string> {
    Ids(Profiles(document))
  }

  function Setting(document: Value, key: string): Option<Value> {
    FieldOf(Field(document, SETTINGS), key)
  }

  function WithSettings(document: Value, settings: Value): Value
    requires document.Object?
  {
    document.(fields := document.fields[SETTINGS := settings])
  }

  predicate HasSettings(document: Value) {
    document.Object? && SETTINGS in document.fields && document.fields[SETTINGS].Object?
  }

  /** The last connected profile names no profile of the document. */
  predicate Dangling(document: Value) {
    match Setting(document, LAST_CONNECTED)
    case Some(Str(id)) => id !in ProfileIds(document)
    case _ => false
  }

  function ClearDangling(document: Value): Value {
    if HasSettings(document) && Dangling(document) then
      var settings := document.fields[SETTINGS];
      WithSettings(document, settings.(fields := settings.fields - {LAST_CONNECTED}))
    else document
  }

  lemma RootIsNeverDeleted(b: Value, c: Value, e: Value, path: string, prefer: bool)
    ensures Merge(Some(b), Some(c), Some(e), path, prefer).Some?
  {}

  function MergeDocuments(checks: Checks, base: Value, current: Value, edited: Value): MergeOutcome {
    if !checks.valid(base) || !checks.valid(current) || !checks.valid(edited) then Invalid
    else
      var conflicts := Conflicts(Some(base), Some(current), Some(edited), "", false);
      if conflicts != [] then Conflicted(conflicts)
      else
        RootIsNeverDeleted(base, current, edited, "", false);
        var merged := Merge(Some(base), Some(current), Some(edited), "", false).value;
        if !checks.decodes(merged) then Invalid
        else
          var cleared := ClearDangling(merged);
          if checks.valid(cleared) then Merged(cleared) else Invalid
  }

  /** A conflict is answered exactly when the three documents are valid and the sides disagree, whichever side is whose. */
  lemma ConflictsDoNotDependOnTheSide(checks: Checks, base: Value, current: Value, edited: Value)
    ensures MergeDocuments(checks, base, current, edited).Conflicted? <==> MergeDocuments(checks, base, edited, current).Conflicted?
    ensures MergeDocuments(checks, base, current, edited).Conflicted? ==>
              multiset(MergeDocuments(checks, base, current, edited).paths) == multiset(MergeDocuments(checks, base, edited, current).paths)
  {
    ConflictsAreSymmetric(Some(base), Some(current), Some(edited), "", false, false);
    var one := Conflicts(Some(base), Some(current), Some(edited), "", false);
    var other := Conflicts(Some(base), Some(edited), Some(current), "", false);
    PartOfNothing(one, other);
    PartOfNothing(other, one);
  }

  /** A merged document never points at a profile it does not hold. */
  lemma MergedIsNotDangling(checks: Checks, base: Value, current: Value, edited: Value)
    requires MergeDocuments(checks, base, current, edited).Merged?
    ensures !Dangling(MergeDocuments(checks, base, current, edited).document)
  {
    var merged := Merge(Some(base), Some(current), Some(edited), "", false).value;
    var cleared := ClearDangling(merged);
    if !HasSettings(merged) {
      assert cleared == merged;
    } else if Dangling(merged) {
      assert Setting(cleared, LAST_CONNECTED) == None;
    }
  }

  /**
   * The document answered for a merge: the merge itself, except that the settings lack the last connected profile when the
   * merge holds no profile with that id.
   */
  ghost predicate Cleared(merged: Value, document: Value) {
    && merged.Object? == document.Object?
    && (!merged.Object? ==> document == merged)
    && (forall key :: key != SETTINGS ==> Field(document, key) == Field(merged, key))
    && (Field(merged, SETTINGS).Some? && Field(merged, SETTINGS).value.Object? <==> HasSettings(document))
    && (!HasSettings(document) ==> Field(document, SETTINGS) == Field(merged, SETTINGS))
    && (forall key :: key != LAST_CONNECTED ==> Setting(document, key) == Setting(merged, key))
    && match Setting(merged, LAST_CONNECTED)
       case Some(Str(id)) =>
         if exists i :: 0 <= i < |Profiles(merged)| && IdOf(Profiles(merged)[i]) == Some(id)
         then Setting(document, LAST_CONNECTED) == Some(Str(id)) else Setting(document, LAST_CONNECTED) == None
       case last => Setting(document, LAST_CONNECTED) == last
  }

  lemma ClearedIs(merged: Value)
    ensures Cleared(merged, ClearDangling(merged))
  {}

  lemma OnlyOneIsCleared(merged: Value, document: Value, other: Value)
    requires Cleared(merged, document) && Cleared(merged, other)
    ensures document == other
  {
    if merged.Object? {
      if HasSettings(document) {
        forall key ensures Field(document.fields[SETTINGS], key) == Field(other.fields[SETTINGS], key) {
          assert Setting(document, key) == Setting(other, key);
        }
        SameMembers(document.fields[SETTINGS], other.fields[SETTINGS]);
      }
      SameMembers(document, other);
    }
  }

  /** When a merge of documents is answered, and with what: `cleared` is the one document the merge's dangling profile is removed from. */
  lemma MergedIff(checks: Checks, base: Value, current: Value, edited: Value, merged: Value, cleared: Value)
    requires Merge(Some(base), Some(current), Some(edited), "", false) == Some(merged) && Cleared(merged, cleared)
    ensures var valid := checks.valid(base) && checks.valid(current) && checks.valid(edited);
            var conflicts := Conflicts(Some(base), Some(current), Some(edited), "", false);
            && (MergeDocuments(checks, base, current, edited) == Merged(cleared)
                <==> valid && conflicts == [] && checks.decodes(merged) && checks.valid(cleared))
            && (MergeDocuments(checks, base, current, edited) == Conflicted(conflicts) <==> valid && conflicts != [])
            && (MergeDocuments(checks, base, current, edited) in {Merged(cleared), Conflicted(conflicts), Invalid})
  {
    ClearedIs(merged);
    OnlyOneIsCleared(merged, cleared, ClearDangling(merged));
  }

  /** With checks that accept everything, exactly the merges without a conflict are answered. */
  lemma MergedIffClean(checks: Checks, base: Value, current: Value, edited: Value)
    requires forall document :: checks.decodes(document) && checks.valid(document)
    ensures MergeDocuments(checks, base, current, edited).Merged? <==> Conflicts(Some(base), Some(current), Some(edited), "", false) == []
    ensures MergeDocuments(checks, base, current, edited).Conflicted? <==> Conflicts(Some(base), Some(current), Some(edited), "", false) != []
  {
    RootIsNeverDeleted(base, current, edited, "", false);
    var merged := Merge(Some(base), Some(current), Some(edited), "", false).value;
    ClearedIs(merged);
    MergedIff(checks, base, current, edited, merged, ClearDangling(merged));
  }

  /** Edited removes the only profile, which was connected last: the merge is answered, without that setting. */
  lemma RemovedProfileIsCleared(checks: Checks, profile: Value, settings: map<string, Value>, base: Value, edited: Value)
    requires IdOf(profile) == Some("p") && LAST_CONNECTED in settings && settings[LAST_CONNECTED] == Str("p")
    requires base == Object(map[PROFILES := Array([profile]), SETTINGS := Object(settings)])
    requires edited == Object(map[PROFILES := Array([]), SETTINGS := Object(settings)])
    requires forall document :: checks.decodes(document) && checks.valid(document)
    ensures MergeDocuments(checks, base, base, edited)
         == Merged(Object(map[PROFILES := Array([]), SETTINGS := Object(settings - {LAST_CONNECTED})]))
  {
    var document := Object(map[PROFILES := Array([]), SETTINGS := Object(settings - {LAST_CONNECTED})]);
    assert PROFILES[0] != SETTINGS[0];
    assert Merge(Some(base), Some(base), Some(edited), "", false) == Some(edited);
    assert Profiles(edited) == [];
    assert Cleared(edited, document);
    MergedIff(checks, base, base, edited, edited, document);
    MergedIffClean(checks, base, base, edited);
  }

  /** A path that clearing the last connected profile cannot reach. */
  ghost predicate Merges(keys: seq<string>) {
    keys != [] && (keys[0] == SETTINGS ==> |keys| > 1 && keys[1] != LAST_CONNECTED)
  }

  /** A setting that names a profile the document does not hold is dropped. */
  function Kept(document: Value, setting: Option<Value>): Option<Value> {
    match setting
    case Some(Str(id)) => if id in ProfileIds(document) then setting else None
    case _ => setting
  }

  lemma ClearingIsLocal(document: Value, keys: seq<string>)
    requires Merges(keys)
    ensures At(Some(ClearDangling(document)), keys) == At(Some(document), keys)
  {
    if keys[0] == SETTINGS {
      var rest := keys[1..];
      assert rest[0] == keys[1];
      var cleared := ClearDangling(document);
      assert FieldOf(Field(cleared, SETTINGS), rest[0]) == FieldOf(Field(document, SETTINGS), rest[0]);
      assert At(Field(cleared, SETTINGS), rest) == At(Field(document, SETTINGS), rest);
    } else {
      assert FieldOf(Some(ClearDangling(document)), keys[0]) == FieldOf(Some(document), keys[0]);
    }
  }

  /** At every path of objects but the last connected profile's, a merged document holds edited's value where edited changed base, else current's. */
  lemma MergedDocumentLosesNothing(checks: Checks, base: Value, current: Value, edited: Value, keys: seq<string>)
    requires MergeDocuments(checks, base, current, edited).Merged?
    requires Merges(keys)
    requires ObjectsAlong(Some(base), Some(current), Some(edited), keys)
    requires Whole(At(Some(base), keys), At(Some(current), keys), At(Some(edited), keys), PathAt("", keys))
    ensures At(Some(MergeDocuments(checks, base, current, edited).document), keys)
         == if At(Some(edited), keys) != At(Some(base), keys) then At(Some(edited), keys) else At(Some(current), keys)
  {
    NoEditIsLost(Some(base), Some(current), Some(edited), keys, "", false);
    ClearingIsLocal(Merge(Some(base), Some(current), Some(edited), "", false).value, keys);
  }

  /** So does an edit inside a profile or a subscription, and the addition or removal of one. */
  lemma MergedDocumentKeepsElements(checks: Checks, base: Value, current: Value, edited: Value, keys: seq<string>, id: string,
                                    inner: seq<string>)
    requires MergeDocuments(checks, base, current, edited).Merged?
    requires Merges(keys) && LeadsInside(Some(base), Some(current), Some(edited), keys, id, inner, "")
    requires Whole(Inside(Some(base), keys, id, inner), Inside(Some(current), keys, id, inner),
                   Inside(Some(edited), keys, id, inner), InsidePath("", keys, id, inner))
    ensures var b, e := Inside(Some(base), keys, id, inner), Inside(Some(edited), keys, id, inner);
            Inside(Some(MergeDocuments(checks, base, current, edited).document), keys, id, inner)
            == if e != b then e else Inside(Some(current), keys, id, inner)
  {
    NoEditInsideIsLost(Some(base), Some(current), Some(edited), keys, id, inner, "", false);
    ClearingIsLocal(Merge(Some(base), Some(current), Some(edited), "", false).value, keys);
  }

  /** Merging three documents with settings gives one with settings. */
  lemma MergedHasSettings(checks: Checks, base: Value, current: Value, edited: Value)
    requires MergeDocuments(checks, base, current, edited).Merged?
    requires HasSettings(base) && HasSettings(current) && HasSettings(edited)
    ensures HasSettings(MergeDocuments(checks, base, current, edited).document)
  {
    var merged := Merge(Some(base), Some(current), Some(edited), "", false);
    MergeIsKeyByKey(Some(base), Some(current), Some(edited), SETTINGS, "", false);
    assert Field(merged.value, SETTINGS).Some?;
  }

  /** The last connected profile is merged like any other setting, and dropped when its profile is gone. */
  lemma MergedLastConnected(checks: Checks, base: Value, current: Value, edited: Value)
    requires MergeDocuments(checks, base, current, edited).Merged?
    requires HasSettings(base) && HasSettings(current) && HasSettings(edited)
    requires Whole(Setting(base, LAST_CONNECTED), Setting(current, LAST_CONNECTED), Setting(edited, LAST_CONNECTED),
                   Child(SETTINGS, LAST_CONNECTED))
    ensures var document := MergeDocuments(checks, base, current, edited).document;
            var changed := Setting(edited, LAST_CONNECTED) != Setting(base, LAST_CONNECTED);
            var merged := if changed then Setting(edited, LAST_CONNECTED) else Setting(current, LAST_CONNECTED);
            Setting(document, LAST_CONNECTED) == Kept(document, merged)
  {
    var merged := Merge(Some(base), Some(current), Some(edited), "", false);
    MergeIsKeyByKey(Some(base), Some(current), Some(edited), SETTINGS, "", false);
    MergeIsKeyByKey(Field(base, SETTINGS), Field(current, SETTINGS), Field(edited, SETTINGS), LAST_CONNECTED, SETTINGS, false);
    WholeValue(Setting(base, LAST_CONNECTED), Setting(current, LAST_CONNECTED), Setting(edited, LAST_CONNECTED),
               Child(SETTINGS, LAST_CONNECTED));
    ClearingOnlyDrops(merged.value);
  }

  lemma WholeValue(b: Option<Value>, c: Option<Value>, e: Option<Value>, path: string)
    requires Whole(b, c, e, path) && Conflicts(b, c, e, path, false) == []
    ensures Merge(b, c, e, path, false) == if e != b then e else c
  {}

  lemma ClearingOnlyDrops(document: Value)
    requires HasSettings(document)
    ensures var cleared, last := ClearDangling(document), Setting(document, LAST_CONNECTED);
            && ProfileIds(cleared) == ProfileIds(document)
            && Setting(cleared, LAST_CONNECTED)
               == Kept(document, last)
  {}
}
