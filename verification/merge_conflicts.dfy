/** Where a merge conflicts, and what it answers there: which side's value, and which order of an array. */
module MergeConflicts {
  import opened Wrappers
  import opened Json
  import opened Sequences
  import opened ConfigMerge
  import opened MergeLaws
  import opened MergeById
  import opened MergeElements
  import opened MergeAgain

  // ----- Places in a document -----

  datatype Step = Member(key: string) | Entry(id: string)

  ghost function Into(v: Option<Value>, step: Step): Option<Value> {
    match step
    case Member(key) => FieldOf(v, key)
    case Entry(id) => ElementOf(v, id)
  }

  ghost function Down(v: Option<Value>, steps: seq<Step>): Option<Value>
    decreases |steps|
  {
    if steps == [] then v else Down(Into(v, steps[0]), steps[1..])
  }

  function StepPath(path: string, step: Step): string {
    match step
    case Member(key) => if path == "" then key else path + "." + key
    case Entry(id) => path + "[" + id + "]"
  }

  ghost function PathDown(path: string, steps: seq<Step>): string
    decreases |steps|
  {
    if steps == [] then path else PathDown(StepPath(path, steps[0]), steps[1..])
  }

  /** Three arrays whose elements have ids, where the merge looks for them. */
  ghost predicate AtIdArrays(b: Option<Value>, c: Option<Value>, e: Option<Value>, path: string) {
    AllArrays(b, c, e) && path in {"profiles", "subscriptions", "modes"}
  }

  /** The merge can take the step: into a member of three objects, or into an element of three arrays with ids. */
  ghost predicate Descends(b: Option<Value>, c: Option<Value>, e: Option<Value>, step: Step, path: string) {
    match step
    case Member(_) => AllObjects(b, c, e)
    case Entry(_) => AtIdArrays(b, c, e, path)
  }

  ghost predicate Reaches(b: Option<Value>, c: Option<Value>, e: Option<Value>, steps: seq<Step>, path: string)
    decreases |steps|
  {
    steps == [] ||
    (Descends(b, c, e, steps[0], path)
     && Reaches(Into(b, steps[0]), Into(c, steps[0]), Into(e, steps[0]), steps[1..], StepPath(path, steps[0])))
  }

  /** All three versions differ. */
  ghost predicate AllDiffer(b: Option<Value>, c: Option<Value>, e: Option<Value>) {
    b != c && b != e && c != e
  }

  /** Both sides put the ids they share with base in another order, and not the same ids in the same order. */
  ghost predicate BothReorder(b: seq<string>, c: seq<string>, e: seq<string>) {
    CommonOrderChanged(b, c) && CommonOrderChanged(b, e) && c != e
  }

  /** What is reported at one place: values that cannot be merged further, or two orders of one array. */
  ghost predicate Reports(b: Option<Value>, c: Option<Value>, e: Option<Value>, path: string, report: string) {
    AllDiffer(b, c, e) &&
    if AllObjects(b, c, e) then false
    else if AtIdArrays(b, c, e, path) then
      BothReorder(Ids(b.value.elems), Ids(c.value.elems), Ids(e.value.elems)) && report == path + " order"
    else report == if path == "" then "configuration" else path
  }

  ghost predicate ReportsAt(b: Option<Value>, c: Option<Value>, e: Option<Value>, path: string, report: string, steps: seq<Step>) {
    Reaches(b, c, e, steps, path) && Reports(Down(b, steps), Down(c, steps), Down(e, steps), PathDown(path, steps), report)
  }

  // ----- The conflicts are exactly those -----

  lemma {:induction false} KeyWithReport(keys: seq<string>, b: Value, c: Value, e: Value, path: string, prefer: bool,
                                         report: string)
    returns (key: string)
    requires b.Object? && report in KeyConflicts(keys, b, c, e, path, prefer)
    ensures report in ConflictsAtKey(b, c, e, key, path, prefer)
  {
    if report in ConflictsAtKey(b, c, e, keys[0], path, prefer) {
      key := keys[0];
    } else {
      key := KeyWithReport(keys[1..], b, c, e, path, prefer, report);
    }
  }

  lemma {:induction false} IdWithReport(ids: seq<string>, b: Value, c: Value, e: Value, path: string, prefer: bool,
                                        report: string)
    returns (id: string)
    requires b.Array? && c.Array? && e.Array? && report in IdConflicts(ids, b, c, e, path, prefer)
    ensures report in ConflictsAtId(b, c, e, id, path, prefer)
  {
    if report in ConflictsAtId(b, c, e, ids[0], path, prefer) {
      id := ids[0];
    } else {
      id := IdWithReport(ids[1..], b, c, e, path, prefer, report);
    }
  }

  lemma StepFirst(b: Option<Value>, c: Option<Value>, e: Option<Value>, path: string, report: string, step: Step, rest: seq<Step>)
    requires Descends(b, c, e, step, path)
    requires ReportsAt(Into(b, step), Into(c, step), Into(e, step), StepPath(path, step), report, rest)
    ensures ReportsAt(b, c, e, path, report, [step] + rest)
  {
    assert ([step] + rest)[1..] == rest;
  }

  lemma {:induction false} ReportHasPlace(b: Option<Value>, c: Option<Value>, e: Option<Value>, path: string, prefer: bool,
                                          report: string)
    returns (steps: seq<Step>)
    requires report in Conflicts(b, c, e, path, prefer)
    ensures ReportsAt(b, c, e, path, report, steps)
    decreases b.Some?, ValueOrNull(b)
  {
    if AllObjects(b, c, e) {
      var key := KeyWithReport(SortedKeys(Keys(b.value, c.value, e.value)), b.value, c.value, e.value, path, prefer, report);
      var rest := ReportHasPlace(Field(b.value, key), Field(c.value, key), Field(e.value, key), Child(path, key), prefer, report);
      StepFirst(b, c, e, path, report, Member(key), rest);
      steps := [Member(key)] + rest;
    } else if AllArrays(b, c, e) && IsIdPath(path) {
      ArrayConflicts(b, c, e, path, prefer);
      if report == path + " order" && OrderConflict(b.value.elems, c.value.elems, e.value.elems) { return []; }
      var ids := MergedIds(b.value.elems, c.value.elems, e.value.elems, prefer);
      var id := IdWithReport(ids, b.value, c.value, e.value, path, prefer, report);
      var rest := ReportHasPlace(Lookup(b.value.elems, id), Lookup(c.value.elems, id), Lookup(e.value.elems, id),
                                 Element(path, id), prefer, report);
      StepFirst(b, c, e, path, report, Entry(id), rest);
      steps := [Entry(id)] + rest;
    } else {
      steps := [];
    }
  }

  /** Conflicts under an element are conflicts of the array. */
  lemma EntryConflictsContained(b: Option<Value>, c: Option<Value>, e: Option<Value>, id: string, path: string, prefer: bool)
    requires AllArrays(b, c, e) && IsIdPath(path)
    ensures multiset(ConflictsAtId(b.value, c.value, e.value, id, path, prefer)) <= multiset(Conflicts(b, c, e, path, prefer))
  {
    var ids := MergedIds(b.value.elems, c.value.elems, e.value.elems, prefer);
    if !Shortcut(b, c, e) && id in ids {
      ArrayConflicts(b, c, e, path, prefer);
      IdConflictsContain(ids, id, b.value, c.value, e.value, path, prefer);
    } else {
      assert ConflictsAtId(b.value, c.value, e.value, id, path, prefer) == [];
    }
  }

  lemma {:induction false} ConflictsDown(b: Option<Value>, c: Option<Value>, e: Option<Value>, steps: seq<Step>, path: string,
                                         prefer: bool)
    requires Reaches(b, c, e, steps, path)
    ensures multiset(Conflicts(Down(b, steps), Down(c, steps), Down(e, steps), PathDown(path, steps), prefer))
         <= multiset(Conflicts(b, c, e, path, prefer))
    decreases |steps|
  {
    if steps != [] {
      match steps[0] {
        case Member(key) => MergeIsKeyByKey(b, c, e, key, path, prefer);
        case Entry(id) => EntryConflictsContained(b, c, e, id, path, prefer);
      }
      ConflictsDown(Into(b, steps[0]), Into(c, steps[0]), Into(e, steps[0]), steps[1..], StepPath(path, steps[0]), prefer);
    }
  }

  lemma ReportIsConflict(b: Option<Value>, c: Option<Value>, e: Option<Value>, path: string, prefer: bool, report: string)
    requires Reports(b, c, e, path, report)
    ensures report in Conflicts(b, c, e, path, prefer)
  {
    if AllArrays(b, c, e) && IsIdPath(path) { ArrayConflicts(b, c, e, path, prefer); }
  }

  /** A path is reported exactly if there is a place with that report, whatever the preference. */
  lemma ConflictsAreExact(b: Option<Value>, c: Option<Value>, e: Option<Value>, path: string, prefer: bool, report: string)
    ensures report in Conflicts(b, c, e, path, prefer) <==> exists steps :: ReportsAt(b, c, e, path, report, steps)
  {
    if report in Conflicts(b, c, e, path, prefer) {
      var steps := ReportHasPlace(b, c, e, path, prefer, report);
    }
    if steps :| ReportsAt(b, c, e, path, report, steps) {
      ConflictsDown(b, c, e, steps, path, prefer);
      var here := Conflicts(Down(b, steps), Down(c, steps), Down(e, steps), PathDown(path, steps), prefer);
      ReportIsConflict(Down(b, steps), Down(c, steps), Down(e, steps), PathDown(path, steps), prefer, report);
      assert report in multiset(here);
    }
  }

  // ----- What the merge answers at a place -----

  /** Every array stepped into has distinct ids. */
  ghost predicate DistinctOnTheWay(b: Option<Value>, c: Option<Value>, e: Option<Value>, steps: seq<Step>)
    decreases |steps|
  {
    steps == [] ||
    ((steps[0].Entry? && AllArrays(b, c, e) ==>
        DistinctIds(b.value.elems) && DistinctIds(c.value.elems) && DistinctIds(e.value.elems))
     && DistinctOnTheWay(Into(b, steps[0]), Into(c, steps[0]), Into(e, steps[0]), steps[1..]))
  }

  lemma {:induction false} MergeDown(b: Option<Value>, c: Option<Value>, e: Option<Value>, steps: seq<Step>, path: string, prefer: bool)
    requires Reaches(b, c, e, steps, path) && DistinctOnTheWay(b, c, e, steps)
    ensures Down(Merge(b, c, e, path, prefer), steps)
         == Merge(Down(b, steps), Down(c, steps), Down(e, steps), PathDown(path, steps), prefer)
    decreases |steps|
  {
    if steps != [] {
      match steps[0] {
        case Member(key) => MergeIsKeyByKey(b, c, e, key, path, prefer);
        case Entry(id) => ArraysMergeById(b, c, e, path, prefer);
      }
      MergeDown(Into(b, steps[0]), Into(c, steps[0]), Into(e, steps[0]), steps[1..], StepPath(path, steps[0]), prefer);
    }
  }

  /**
   * At every place the merge takes whole, inside elements too: a change of one side only, or the same change of both, is
   * taken; of two different changes the preference chooses edited's or current's.
   */
  lemma ValueAtPlace(b: Option<Value>, c: Option<Value>, e: Option<Value>, steps: seq<Step>, path: string, prefer: bool)
    requires Reaches(b, c, e, steps, path) && DistinctOnTheWay(b, c, e, steps)
    requires var here := PathDown(path, steps);
             !AllObjects(Down(b, steps), Down(c, steps), Down(e, steps)) && !AtIdArrays(Down(b, steps), Down(c, steps), Down(e, steps), here)
    ensures var bk, ck, ek := Down(b, steps), Down(c, steps), Down(e, steps);
            && (ek == bk ==> Down(Merge(b, c, e, path, prefer), steps) == ck)
            && (ck == bk || ck == ek ==> Down(Merge(b, c, e, path, prefer), steps) == ek)
            && (AllDiffer(bk, ck, ek) ==> Down(Merge(b, c, e, path, prefer), steps) == if prefer then ek else ck)
  {
    MergeDown(b, c, e, steps, path, prefer);
  }

  // ----- The order of a merged array, in conflict or not -----

  ghost predicate Before(xs: seq<string>, x: string, y: string) {
    exists i, j :: 0 <= i < j < |xs| && xs[i] == x && xs[j] == y
  }

  lemma BeforeInTail(xs: seq<string>, x: string, y: string)
    requires xs != []
    ensures Before(xs, x, y) <==> (xs[0] == x && y in xs[1..]) || Before(xs[1..], x, y)
  {
    assert forall k :: 0 <= k < |xs[1..]| ==> xs[1..][k] == xs[k + 1];
    if i, j :| 0 <= i < j < |xs| && xs[i] == x && xs[j] == y {
      assert xs[1..][j - 1] == y;
      if i > 0 { assert xs[1..][i - 1] == x; }
    }
  }

  lemma {:induction false} AmongBefore(xs: seq<string>, keep: seq<string>, x: string, y: string)
    ensures Before(Among(xs, keep), x, y) <==> Before(xs, x, y) && x in keep && y in keep
  {
    if xs != [] {
      AmongBefore(xs[1..], keep, x, y);
      BeforeInTail(xs, x, y);
      if xs[0] in keep {
        var rest := Among(xs[1..], keep);
        assert ([xs[0]] + rest)[1..] == rest;
        BeforeInTail([xs[0]] + rest, x, y);
      } else if Before(xs, x, y) && x in keep {
        assert xs[0] != x;
      }
    }
  }

  lemma {:induction false} AmongDistinct(xs: seq<string>, keep: seq<string>)
    requires Distinct(xs)
    ensures Distinct(Among(xs, keep))
  {
    if xs != [] {
      assert forall k :: 0 <= k < |xs[1..]| ==> xs[1..][k] == xs[k + 1];
      AmongDistinct(xs[1..], keep);
    }
  }

  lemma NoMember(xs: seq<string>)
    requires forall x :: x !in xs
    ensures xs == []
  {
    if xs != [] {
      HasMember(xs);
      assert false;
    }
  }

  lemma {:induction false} SameOrder(xs: seq<string>, ys: seq<string>)
    requires Distinct(xs) && Distinct(ys) && forall x :: x in xs <==> x in ys
    requires forall x, y :: Before(xs, x, y) ==> !Before(ys, y, x)
    ensures xs == ys
  {
    if xs == [] {
      NoMember(ys);
    } else if ys == [] {
      NoMember(xs);
    } else {
      var x, y := xs[0], ys[0];
      assert x in ys && y in xs;
      if x != y {
        assert Before(xs, x, y) && Before(ys, y, x);
        assert false;
      }
      TailMembers(xs, ys);
      forall u, v | Before(xs[1..], u, v) ensures !Before(ys[1..], v, u) {
        BeforeInTail(xs, u, v);
        BeforeInTail(ys, v, u);
      }
      SameOrder(xs[1..], ys[1..]);
    }
  }

  lemma TailMembers(xs: seq<string>, ys: seq<string>)
    requires Distinct(xs) && Distinct(ys) && xs != [] && ys != [] && xs[0] == ys[0] && forall x :: x in xs <==> x in ys
    ensures Distinct(xs[1..]) && Distinct(ys[1..]) && forall x :: x in xs[1..] <==> x in ys[1..]
  {
    assert forall k :: 0 <= k < |xs[1..]| ==> xs[1..][k] == xs[k + 1];
    assert forall k :: 0 <= k < |ys[1..]| ==> ys[1..][k] == ys[k + 1];
    assert forall x :: x in xs[1..] <==> x in xs && x != xs[0];
    assert forall x :: x in ys[1..] <==> x in ys && x != ys[0];
  }

  /** A side is reordered exactly if two ids it shares with base stand the other way round. */
  lemma ReorderedIff(base: seq<string>, side: seq<string>)
    requires Distinct(base) && Distinct(side)
    ensures CommonOrderChanged(base, side) <==> exists x, y :: Before(base, x, y) && Before(side, y, x)
  {
    var xs, ys := Among(base, side), Among(side, base);
    AmongDistinct(base, side);
    AmongDistinct(side, base);
    forall x, y
      ensures Before(xs, x, y) <==> Before(base, x, y) && x in side && y in side
      ensures Before(ys, y, x) <==> Before(side, y, x) && x in base && y in base
    {
      AmongBefore(base, side, x, y);
      AmongBefore(side, base, y, x);
    }
    if x, y :| Before(base, x, y) && Before(side, y, x) {
      assert Before(xs, x, y) && Before(ys, y, x);
      if xs == ys { OneWayRound(xs, x, y); }
    } else {
      SameOrder(xs, ys);
    }
  }

  lemma OneWayRound(xs: seq<string>, x: string, y: string)
    requires Distinct(xs) && Before(xs, x, y)
    ensures !Before(xs, y, x)
  {}

  /** Edited's order leads when only edited reordered base, or both did and alike, or both did and edited is preferred. */
  predicate EditedLeads(b: seq<string>, c: seq<string>, e: seq<string>, prefer: bool) {
    CommonOrderChanged(b, e) && (CommonOrderChanged(b, c) && c != e ==> prefer)
  }

  /** The survivors of the leading side in its order, then the survivors only the other side has, in that side's order. */
  ghost predicate OrderedBy(ids: seq<string>, lead: seq<string>, other: seq<string>) {
    ids == Among(lead, ids) + Among(Beyond(other, lead), ids)
  }

  /** The order of every merged array that no shortcut decides, whatever conflicts. */
  lemma ArrayOrder(b: Option<Value>, c: Option<Value>, e: Option<Value>, path: string, prefer: bool)
    requires IdArrays(b, c, e, path) && AllDiffer(b, c, e)
    ensures var bs, cs, es := Ids(b.value.elems), Ids(c.value.elems), Ids(e.value.elems);
            var ids := Ids(Merge(b, c, e, path, prefer).value.elems);
            if EditedLeads(bs, cs, es, prefer) then OrderedBy(ids, es, cs) else OrderedBy(ids, cs, es)
  {
    var bs, cs, es := b.value.elems, c.value.elems, e.value.elems;
    var visited := MergedIds(bs, cs, es, prefer);
    IdsAligned(cs);
    IdsAligned(es);
    FirstThenNew(Ids(cs), Ids(es));
    FirstThenNew(Ids(es), Ids(cs));
    MergedArray(b, c, e, path, prefer);
    MergeEachById(visited, b.value, c.value, e.value, path, prefer);
    var ids := Ids(Merge(b, c, e, path, prefer).value.elems);
    MergeEachOrder(visited, ids, b.value, c.value, e.value, path, prefer);
    AmongAppend(Ids(cs), Beyond(Ids(es), Ids(cs)), ids);
    AmongAppend(Ids(es), Beyond(Ids(cs), Ids(es)), ids);
  }

  /**
   * When both sides reorder an array, differently, that is reported, and the merge follows the order of the preferred side.
   */
  lemma OrderConflictFollowsPreference(b: Option<Value>, c: Option<Value>, e: Option<Value>, path: string, prefer: bool)
    requires IdArrays(b, c, e, path) && AllDiffer(b, c, e)
    requires BothReorder(Ids(b.value.elems), Ids(c.value.elems), Ids(e.value.elems))
    ensures path + " order" in Conflicts(b, c, e, path, prefer)
    ensures var cs, es, ids := Ids(c.value.elems), Ids(e.value.elems), Ids(Merge(b, c, e, path, prefer).value.elems);
            if prefer then OrderedBy(ids, es, cs) else OrderedBy(ids, cs, es)
  {
    ReportIsConflict(b, c, e, path, prefer, path + " order");
    ArrayOrder(b, c, e, path, prefer);
  }

  // ----- The two drafts of a conflict -----

  /** The order the ids take when nothing conflicts inside the elements: what the other side deleted is gone, its additions come last. */
  function Arranged(base: seq<string>, lead: seq<string>, other: seq<string>): seq<string> {
    Beyond(lead, Beyond(base, other)) + Beyond(Beyond(other, lead), base)
  }

  ghost predicate CleanElements(b: Option<Value>, c: Option<Value>, e: Option<Value>, path: string, prefer: bool)
    requires AllArrays(b, c, e)
  {
    forall id :: ConflictsAtId(b.value, c.value, e.value, id, path, prefer) == []
  }

  lemma {:induction false} AmongIsBeyond(xs: seq<string>, keep: seq<string>, known: seq<string>)
    requires forall x :: x in xs ==> (x in keep <==> x !in known)
    ensures Among(xs, keep) == Beyond(xs, known)
  {
    if xs != [] { AmongIsBeyond(xs[1..], keep, known); }
  }

  lemma PresentStays(b: Option<Value>, c: Option<Value>, e: Option<Value>, path: string, prefer: bool)
    requires Conflicts(b, c, e, path, prefer) == []
    ensures Merge(b, c, e, path, prefer).Some? <==> (c.Some? || e.Some?) && (b.Some? ==> c.Some? && e.Some?)
  {}

  lemma SurvivesIff(b: Option<Value>, c: Option<Value>, e: Option<Value>, id: string, path: string, prefer: bool)
    requires IdArrays(b, c, e, path) && ConflictsAtId(b.value, c.value, e.value, id, path, prefer) == []
    ensures Merge(b, c, e, path, prefer).Some? && Merge(b, c, e, path, prefer).value.Array?
    ensures var bs, cs, es := Ids(b.value.elems), Ids(c.value.elems), Ids(e.value.elems);
            id in Ids(Merge(b, c, e, path, prefer).value.elems) <==> (id in cs || id in es) && (id in bs ==> id in cs && id in es)
  {
    ArraysMergeById(b, c, e, path, prefer);
    assert Lookup(Merge(b, c, e, path, prefer).value.elems, id) == MergeId(b.value, c.value, e.value, id, path, prefer);
    PresentStays(Lookup(b.value.elems, id), Lookup(c.value.elems, id), Lookup(e.value.elems, id), Element(path, id), prefer);
  }

  lemma ArrangedIds(base: seq<string>, lead: seq<string>, other: seq<string>, ids: seq<string>)
    requires OrderedBy(ids, lead, other)
    requires forall id :: id in ids <==> (id in lead || id in other) && (id in base ==> id in lead && id in other)
    ensures ids == Arranged(base, lead, other)
  {
    AmongIsBeyond(lead, ids, Beyond(base, other));
    AmongIsBeyond(Beyond(other, lead), ids, base);
  }

  /** With clean elements the whole order is known from the ids alone. */
  lemma CleanArrayOrder(b: Option<Value>, c: Option<Value>, e: Option<Value>, path: string, prefer: bool)
    requires IdArrays(b, c, e, path) && AllDiffer(b, c, e) && CleanElements(b, c, e, path, prefer)
    ensures var bs, cs, es := Ids(b.value.elems), Ids(c.value.elems), Ids(e.value.elems);
            Ids(Merge(b, c, e, path, prefer).value.elems)
            == if EditedLeads(bs, cs, es, prefer) then Arranged(bs, es, cs) else Arranged(bs, cs, es)
  {
    var bs, cs, es := Ids(b.value.elems), Ids(c.value.elems), Ids(e.value.elems);
    ArrayOrder(b, c, e, path, prefer);
    var ids := Ids(Merge(b, c, e, path, prefer).value.elems);
    forall id ensures id in ids <==> (id in cs || id in es) && (id in bs ==> id in cs && id in es) {
      SurvivesIff(b, c, e, id, path, prefer);
    }
    if EditedLeads(bs, cs, es, prefer) { ArrangedIds(bs, es, cs, ids); } else { ArrangedIds(bs, cs, es, ids); }
  }

  /** Two values that conflict make two different drafts, with edited's value in one and current's in the other. */
  lemma DraftsShowValues(b: Option<Value>, c: Option<Value>, e: Option<Value>, steps: seq<Step>, path: string)
    requires Reaches(b, c, e, steps, path) && DistinctOnTheWay(b, c, e, steps)
    requires AllDiffer(Down(b, steps), Down(c, steps), Down(e, steps))
    requires !AllObjects(Down(b, steps), Down(c, steps), Down(e, steps))
    requires !AtIdArrays(Down(b, steps), Down(c, steps), Down(e, steps), PathDown(path, steps))
    ensures Down(Merge(b, c, e, path, true), steps) == Down(e, steps) && Down(Merge(b, c, e, path, false), steps) == Down(c, steps)
    ensures Merge(b, c, e, path, true) != Merge(b, c, e, path, false)
  {
    ValueAtPlace(b, c, e, steps, path, true);
    ValueAtPlace(b, c, e, steps, path, false);
  }

  /** Two orders that conflict make two different drafts exactly if the sides arrange what is left differently. */
  lemma DraftsShowOrdersIff(b: Option<Value>, c: Option<Value>, e: Option<Value>, path: string)
    requires IdArrays(b, c, e, path) && AllDiffer(b, c, e) && CleanElements(b, c, e, path, true)
    requires BothReorder(Ids(b.value.elems), Ids(c.value.elems), Ids(e.value.elems))
    ensures var bs, cs, es := Ids(b.value.elems), Ids(c.value.elems), Ids(e.value.elems);
            Merge(b, c, e, path, true) != Merge(b, c, e, path, false) <==> Arranged(bs, es, cs) != Arranged(bs, cs, es)
  {
    forall id
      ensures ConflictsAtId(b.value, c.value, e.value, id, path, false) == []
      ensures MergeId(b.value, c.value, e.value, id, path, true) == MergeId(b.value, c.value, e.value, id, path, false)
    {
      var bi, ci, ei := Lookup(b.value.elems, id), Lookup(c.value.elems, id), Lookup(e.value.elems, id);
      assert ConflictsAtId(b.value, c.value, e.value, id, path, true) == [];
      PreferenceKeepsConflicts(bi, ci, ei, Element(path, id));
      PartOfNothing(Conflicts(bi, ci, ei, Element(path, id), false), Conflicts(bi, ci, ei, Element(path, id), true));
      PreferenceNeedsConflict(bi, ci, ei, Element(path, id), true);
    }
    CleanArrayOrder(b, c, e, path, true);
    CleanArrayOrder(b, c, e, path, false);
    ArraysMergeById(b, c, e, path, true);
    ArraysMergeById(b, c, e, path, false);
    var m, n := Merge(b, c, e, path, true).value.elems, Merge(b, c, e, path, false).value.elems;
    if Ids(m) == Ids(n) { SameIdsSameElements(m, n); }
  }

  lemma NamedArrays(bs: seq<string>, cs: seq<string>, es: seq<string>, prefer: bool)
    requires Distinct(bs) && Distinct(cs) && Distinct(es) && BothReorder(bs, cs, es)
    ensures var b, c, e := Some(Array(Named(bs))), Some(Array(Named(cs))), Some(Array(Named(es)));
            && IdArrays(b, c, e, "profiles") && AllDiffer(b, c, e) && CleanElements(b, c, e, "profiles", prefer)
            && Ids(Named(bs)) == bs && Ids(Named(cs)) == cs && Ids(Named(es)) == es
  {
    NamedAreDistinct(bs);
    NamedAreDistinct(cs);
    NamedAreDistinct(es);
    NamedElements(bs, "");
    NamedElements(cs, "");
    NamedElements(es, "");
    forall id ensures ConflictsAtId(Array(Named(bs)), Array(Named(cs)), Array(Named(es)), id, "profiles", prefer) == [] {
      NamedElements(bs, id);
      NamedElements(cs, id);
      NamedElements(es, id);
    }
  }

  lemma {:induction false} BeyondAll(xs: seq<string>, known: seq<string>)
    requires forall x :: x in xs ==> x in known
    ensures Beyond(xs, known) == []
  {
    if xs != [] { BeyondAll(xs[1..], known); }
  }

  lemma BeyondOthers(xs: seq<string>, known: seq<string>)
    requires forall x :: x in xs ==> x !in known
    ensures Beyond(xs, known) == xs
  {
    AmongIsBeyond(xs, xs, known);
    AmongSelf(xs, xs);
  }

  lemma {:induction false} BeyondAppend(xs: seq<string>, ys: seq<string>, known: seq<string>)
    ensures Beyond(xs + ys, known) == Beyond(xs, known) + Beyond(ys, known)
  {
    if xs == [] {
      assert xs + ys == ys;
    } else {
      assert (xs + ys)[1..] == xs[1..] + ys;
      BeyondAppend(xs[1..], ys, known);
    }
  }

  /** Both sides only reorder, each in its own way: the merge stands exactly as the preferred side does. */
  lemma ReorderingsFollowPreference(bs: seq<string>, cs: seq<string>, es: seq<string>, prefer: bool)
    requires Distinct(bs) && Distinct(cs) && Distinct(es) && BothReorder(bs, cs, es)
    requires forall id :: (id in bs <==> id in cs) && (id in bs <==> id in es)
    ensures var m := Merge(Some(Array(Named(bs))), Some(Array(Named(cs))), Some(Array(Named(es))), "profiles", prefer);
            m.Some? && m.value.Array? && Ids(m.value.elems) == if prefer then es else cs
  {
    var b, c, e := Some(Array(Named(bs))), Some(Array(Named(cs))), Some(Array(Named(es)));
    NamedArrays(bs, cs, es, prefer);
    CleanArrayOrder(b, c, e, "profiles", prefer);
    ArraysMergeById(b, c, e, "profiles", prefer);
    BeyondAll(bs, cs);
    BeyondAll(bs, es);
    BeyondAll(cs, es);
    BeyondAll(es, cs);
    BeyondNothing(cs);
    BeyondNothing(es);
    assert es + [] == es && cs + [] == cs;
  }

  lemma TwoSwaps(bs: seq<string>, cs: seq<string>, es: seq<string>)
    requires bs == ["p", "q", "r"] && cs == ["q", "p", "r"] && es == ["p", "r", "q"]
    ensures Distinct(bs) && Distinct(cs) && Distinct(es) && BothReorder(bs, cs, es)
    ensures forall id :: (id in bs <==> id in cs) && (id in bs <==> id in es)
  {
    Letters();
    assert Before(bs, "p", "q") && Before(cs, "q", "p") && Before(bs, "q", "r") && Before(es, "r", "q") by {
      assert bs[0] == cs[1] && bs[1] == cs[0] && bs[1] == es[2] && bs[2] == es[1];
    }
    ReorderedIff(bs, cs);
    ReorderedIff(bs, es);
    assert cs[0] != es[0];
  }

  /** Three profiles: current swaps the first two, edited the last two. */
  lemma SwapsFollowPreference(bs: seq<string>, cs: seq<string>, es: seq<string>, prefer: bool)
    requires bs == ["p", "q", "r"] && cs == ["q", "p", "r"] && es == ["p", "r", "q"]
    ensures var b, c, e := Some(Array(Named(bs))), Some(Array(Named(cs))), Some(Array(Named(es)));
            && "profiles" + " order" in Conflicts(b, c, e, "profiles", prefer)
            && Merge(b, c, e, "profiles", prefer).Some? && Merge(b, c, e, "profiles", prefer).value.Array?
            && Ids(Merge(b, c, e, "profiles", prefer).value.elems) == if prefer then es else cs
  {
    TwoSwaps(bs, cs, es);
    ReorderingsFollowPreference(bs, cs, es, prefer);
    NamedArrays(bs, cs, es, prefer);
    OrderConflictFollowsPreference(Some(Array(Named(bs))), Some(Array(Named(cs))), Some(Array(Named(es))), "profiles", prefer);
  }

  lemma SwapAndAddition(bs: seq<string>, cs: seq<string>, es: seq<string>)
    requires bs == ["p", "q"] && cs == ["q", "p"] && es == ["q", "p", "r"]
    ensures Distinct(bs) && Distinct(cs) && Distinct(es) && BothReorder(bs, cs, es)
  {
    Letters();
    assert Before(bs, "p", "q") && Before(cs, "q", "p") && Before(es, "q", "p") by {
      assert bs[0] == cs[1] == es[1] && bs[1] == cs[0] == es[0];
    }
    ReorderedIff(bs, cs);
    ReorderedIff(bs, es);
  }

  /** One side adds an id at the end of what the other has; both have what base has. */
  lemma AdditionArranged(bs: seq<string>, cs: seq<string>, added: string)
    requires (forall id :: id in bs <==> id in cs) && added !in cs
    ensures Arranged(bs, cs + [added], cs) == Arranged(bs, cs, cs + [added]) == cs + [added]
  {
    var es := cs + [added];
    BeyondAll(bs, cs);
    BeyondAll(bs, es);
    BeyondAll(cs, es);
    BeyondAll(cs, cs);
    BeyondNothing(es);
    BeyondNothing(cs);
    BeyondAppend(cs, [added], cs);
    BeyondOthers([added], cs);
    BeyondOthers([added], bs);
    assert es + [] == es && [] + [added] == [added];
  }

  lemma SwapAndAdditionArranged(bs: seq<string>, cs: seq<string>, es: seq<string>)
    requires bs == ["p", "q"] && cs == ["q", "p"] && es == ["q", "p", "r"]
    ensures Arranged(bs, es, cs) == Arranged(bs, cs, es) == es
  {
    Letters();
    assert es == cs + ["r"];
    AdditionArranged(bs, cs, "r");
  }

  /** Both sides swap two profiles, and edited adds a third: a conflict is reported although the two drafts are the same. */
  lemma AgreedSwapStillConflicts(bs: seq<string>, cs: seq<string>, es: seq<string>)
    requires bs == ["p", "q"] && cs == ["q", "p"] && es == ["q", "p", "r"]
    ensures var b, c, e := Some(Array(Named(bs))), Some(Array(Named(cs))), Some(Array(Named(es)));
            && "profiles" + " order" in Conflicts(b, c, e, "profiles", false)
            && Merge(b, c, e, "profiles", true) == Merge(b, c, e, "profiles", false)
  {
    SwapAndAddition(bs, cs, es);
    SwapAndAdditionArranged(bs, cs, es);
    NamedArrays(bs, cs, es, true);
    OrderConflictFollowsPreference(Some(Array(Named(bs))), Some(Array(Named(cs))), Some(Array(Named(es))), "profiles", false);
    DraftsShowOrdersIff(Some(Array(Named(bs))), Some(Array(Named(cs))), Some(Array(Named(es))), "profiles");
  }
}
