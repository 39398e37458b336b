/** The merge of whole routing documents. */
module RoutingDocuments {
  import opened Wrappers
  import opened Json
  import opened Sequences
  import opened ConfigMerge
  import opened MergeLaws
  import opened MergeElements
  import opened MergeConflicts
  import opened ConfigDocuments

  const MODES := "modes"

  /** Like documents of profiles, but nothing is cleared: a merge whose diagnostics complain is refused. */
  function MergeRouting(checks: Checks, base: Value, current: Value, edited: Value): MergeOutcome {
    if !checks.valid(base) || !checks.valid(current) || !checks.valid(edited) then Invalid
    else
      var conflicts := Conflicts(Some(base), Some(current), Some(edited), "", false);
      if conflicts != [] then Conflicted(conflicts)
      else
        RootIsNeverDeleted(base, current, edited, "", false);
        var merged := Merge(Some(base), Some(current), Some(edited), "", false).value;
        if checks.decodes(merged) && checks.valid(merged) then Merged(merged) else Invalid
  }

  /** A merge is answered, with itself, exactly when the versions are valid, nothing conflicts and it is valid itself. */
  lemma RoutingMergedIff(checks: Checks, base: Value, current: Value, edited: Value, document: Value)
    ensures MergeRouting(checks, base, current, edited) == Merged(document) <==>
            && checks.valid(base) && checks.valid(current) && checks.valid(edited)
            && NothingReported(base, current, edited)
            && Merge(Some(base), Some(current), Some(edited), "", false) == Some(document)
            && checks.decodes(document) && checks.valid(document)
  {
    RootIsNeverDeleted(base, current, edited, "", false);
    NothingReportedIff(base, current, edited);
  }

  /** At no place is anything to report. */
  ghost predicate NothingReported(base: Value, current: Value, edited: Value) {
    forall report, steps :: !ReportsAt(Some(base), Some(current), Some(edited), "", report, steps)
  }

  lemma NothingReportedIff(base: Value, current: Value, edited: Value)
    ensures NothingReported(base, current, edited) <==> Conflicts(Some(base), Some(current), Some(edited), "", false) == []
  {
    var conflicts := Conflicts(Some(base), Some(current), Some(edited), "", false);
    if conflicts == [] {
      forall report, steps ensures !ReportsAt(Some(base), Some(current), Some(edited), "", report, steps) {
        ConflictsAreExact(Some(base), Some(current), Some(edited), "", false, report);
      }
    } else {
      ConflictsAreExact(Some(base), Some(current), Some(edited), "", false, conflicts[0]);
    }
  }

  /** Three routing documents that list their modes under distinct ids. */
  ghost predicate WithModes(base: Value, current: Value, edited: Value) {
    && AllArrays(Field(base, MODES), Field(current, MODES), Field(edited, MODES))
    && DistinctIds(Field(base, MODES).value.elems) && DistinctIds(Field(current, MODES).value.elems)
    && DistinctIds(Field(edited, MODES).value.elems)
  }

  function Mode(document: Value, id: string): Option<Value> {
    match Field(document, MODES)
    case Some(Array(modes)) => Lookup(modes, id)
    case _ => None
  }

  ghost function InMode(id: string, key: string): seq<Step> {
    [Member(MODES), Entry(id), Member(key)]
  }

  lemma DownThree(v: Option<Value>, x: Step, y: Step, z: Step)
    ensures Down(v, [x, y, z]) == Into(Into(Into(v, x), y), z)
  {
    assert [x, y, z][1..] == [y, z] && [y, z][1..] == [z] && [z][1..] == [];
    assert Down(Into(Into(v, x), y), [z]) == Into(Into(Into(v, x), y), z);
    assert Down(Into(v, x), [y, z]) == Down(Into(Into(v, x), y), [z]);
  }

  lemma ModeMember(document: Value, id: string, key: string)
    ensures Down(Some(document), InMode(id, key)) == FieldOf(Mode(document, id), key)
  {
    DownThree(Some(document), Member(MODES), Entry(id), Member(key));
  }

  lemma ReachesThree(b: Option<Value>, c: Option<Value>, e: Option<Value>, x: Step, y: Step, z: Step, path: string)
    requires Descends(b, c, e, x, path) && Descends(Into(b, x), Into(c, x), Into(e, x), y, StepPath(path, x))
    requires Descends(Into(Into(b, x), y), Into(Into(c, x), y), Into(Into(e, x), y), z, StepPath(StepPath(path, x), y))
    requires x.Member? && z.Member?
    requires DistinctOnTheWay(Into(b, x), Into(c, x), Into(e, x), [y])
    ensures Reaches(b, c, e, [x, y, z], path) && DistinctOnTheWay(b, c, e, [x, y, z])
    ensures PathDown(path, [x, y, z]) == StepPath(StepPath(StepPath(path, x), y), z)
  {
    assert [x, y, z][1..] == [y, z] && [y, z][1..] == [z] && [z][1..] == [];
    var bx, cx, ex := Into(b, x), Into(c, x), Into(e, x);
    assert Reaches(Into(bx, y), Into(cx, y), Into(ex, y), [z], StepPath(StepPath(path, x), y));
    assert Reaches(bx, cx, ex, [y, z], StepPath(path, x));
    assert DistinctOnTheWay(Into(bx, y), Into(cx, y), Into(ex, y), [z]);
    assert DistinctOnTheWay(bx, cx, ex, [y, z]);
    assert PathDown(StepPath(StepPath(path, x), y), [z]) == StepPath(StepPath(StepPath(path, x), y), z);
    assert PathDown(StepPath(path, x), [y, z]) == PathDown(StepPath(StepPath(path, x), y), [z]);
  }

  lemma PlaceInMode(base: Value, current: Value, edited: Value, id: string, key: string)
    requires WithModes(base, current, edited)
    requires AllObjects(Mode(base, id), Mode(current, id), Mode(edited, id))
    ensures Reaches(Some(base), Some(current), Some(edited), InMode(id, key), "")
    ensures DistinctOnTheWay(Some(base), Some(current), Some(edited), InMode(id, key))
    ensures PathDown("", InMode(id, key)) == MODES + "[" + id + "]" + "." + key
  {
    ReachesThree(Some(base), Some(current), Some(edited), Member(MODES), Entry(id), Member(key), "");
  }

  /** A path below a mode is none of an array with ids. */
  lemma NotAnIdPath(id: string, key: string)
    ensures MODES + "[" + id + "]" + "." + key !in {"profiles", "subscriptions", "modes"}
  {
    InnerPaths(MODES, "", id);
    InnerPaths(MODES + "[" + id + "]", key, "");
    InnerPaths(MODES + "[" + id + "]" + "." + key, "", "");
  }

  /** Two different changes of one member of a mode, such as its rules, conflict as a whole. */
  lemma ModeMemberConflicts(checks: Checks, base: Value, current: Value, edited: Value, id: string, key: string)
    requires checks.valid(base) && checks.valid(current) && checks.valid(edited) && WithModes(base, current, edited)
    requires AllObjects(Mode(base, id), Mode(current, id), Mode(edited, id))
    requires !AllObjects(FieldOf(Mode(base, id), key), FieldOf(Mode(current, id), key), FieldOf(Mode(edited, id), key))
    requires AllDiffer(FieldOf(Mode(base, id), key), FieldOf(Mode(current, id), key), FieldOf(Mode(edited, id), key))
    ensures MergeRouting(checks, base, current, edited).Conflicted?
    ensures MODES + "[" + id + "]" + "." + key in MergeRouting(checks, base, current, edited).paths
  {
    ModeMember(base, id, key);
    ModeMember(current, id, key);
    ModeMember(edited, id, key);
    PlaceInMode(base, current, edited, id, key);
    NotAnIdPath(id, key);
    var path := MODES + "[" + id + "]" + "." + key;
    assert ReportsAt(Some(base), Some(current), Some(edited), "", path, InMode(id, key));
    ConflictsAreExact(Some(base), Some(current), Some(edited), "", false, path);
  }

  /** Modes are merged by id: each member of a mode is edited's where edited changed it, else current's. */
  lemma ModeEditsSurvive(checks: Checks, base: Value, current: Value, edited: Value, id: string, key: string)
    requires MergeRouting(checks, base, current, edited).Merged? && WithModes(base, current, edited)
    requires AllObjects(Mode(base, id), Mode(current, id), Mode(edited, id))
    requires !AllObjects(FieldOf(Mode(base, id), key), FieldOf(Mode(current, id), key), FieldOf(Mode(edited, id), key))
    ensures var b, c, e := FieldOf(Mode(base, id), key), FieldOf(Mode(current, id), key), FieldOf(Mode(edited, id), key);
            FieldOf(Mode(MergeRouting(checks, base, current, edited).document, id), key) == if e != b then e else c
  {
    ModeMember(base, id, key);
    ModeMember(current, id, key);
    ModeMember(edited, id, key);
    var merged := Merge(Some(base), Some(current), Some(edited), "", false);
    ModeMember(merged.value, id, key);
    PlaceInMode(base, current, edited, id, key);
    NotAnIdPath(id, key);
    ValueAtPlace(Some(base), Some(current), Some(edited), InMode(id, key), "", false);
    if AllDiffer(FieldOf(Mode(base, id), key), FieldOf(Mode(current, id), key), FieldOf(Mode(edited, id), key)) {
      ModeMemberConflicts(checks, base, current, edited, id, key);
    }
  }
}
