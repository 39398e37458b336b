/** Inside arrays merged by id: edits of their elements, the place of new ids, and when an array conflicts as a whole. */
module MergeElements {
  import opened Wrappers
  import opened Json
  import opened Sequences
  import opened ConfigMerge
  import opened MergeLaws
  import opened MergeById

  // ----- Edits inside elements -----

  /** The element with the id, when the value is an array. */
  ghost function ElementOf(v: Option<Value>, id: string): Option<Value> {
    if v.Some? && v.value.Array? then Lookup(v.value.elems, id) else None
  }

  /** The value at a path of keys, one id and further keys. */
  ghost function Inside(v: Option<Value>, keys: seq<string>, id: string, inner: seq<string>): Option<Value> {
    At(ElementOf(At(v, keys), id), inner)
  }

  ghost function InsidePath(path: string, keys: seq<string>, id: string, inner: seq<string>): string {
    PathAt(Element(PathAt(path, keys), id), inner)
  }

  /** The keys lead to three arrays merged by id, and from the three elements with the id the inner keys lead on. */
  ghost predicate LeadsInside(b: Option<Value>, c: Option<Value>, e: Option<Value>, keys: seq<string>, id: string,
                              inner: seq<string>, path: string) {
    && ObjectsAlong(b, c, e, keys)
    && IdArrays(At(b, keys), At(c, keys), At(e, keys), PathAt(path, keys))
    && ObjectsAlong(ElementOf(At(b, keys), id), ElementOf(At(c, keys), id), ElementOf(At(e, keys), id), inner)
  }

  /** Merging and looking inside an element commute. */
  lemma MergeInside(b: Option<Value>, c: Option<Value>, e: Option<Value>, keys: seq<string>, id: string, inner: seq<string>,
                    path: string, prefer: bool)
    requires LeadsInside(b, c, e, keys, id, inner, path)
    ensures Inside(Merge(b, c, e, path, prefer), keys, id, inner)
         == Merge(Inside(b, keys, id, inner), Inside(c, keys, id, inner), Inside(e, keys, id, inner),
                  InsidePath(path, keys, id, inner), prefer)
  {
    var bk, ck, ek := At(b, keys), At(c, keys), At(e, keys);
    MergeAlongPath(b, c, e, keys, path, prefer);
    ArraysMergeById(bk, ck, ek, PathAt(path, keys), prefer);
    MergeAlongPath(ElementOf(bk, id), ElementOf(ck, id), ElementOf(ek, id), inner, Element(PathAt(path, keys), id), prefer);
  }

  /** A clean merge is clean inside every element. */
  lemma CleanInside(b: Option<Value>, c: Option<Value>, e: Option<Value>, keys: seq<string>, id: string, inner: seq<string>,
                    path: string, prefer: bool)
    requires LeadsInside(b, c, e, keys, id, inner, path) && Conflicts(b, c, e, path, prefer) == []
    ensures Conflicts(Inside(b, keys, id, inner), Inside(c, keys, id, inner), Inside(e, keys, id, inner),
                      InsidePath(path, keys, id, inner), prefer) == []
  {
    var bk, ck, ek := At(b, keys), At(c, keys), At(e, keys);
    var element := Element(PathAt(path, keys), id);
    MergeAlongPath(b, c, e, keys, path, prefer);
    PartOfNothing(Conflicts(bk, ck, ek, PathAt(path, keys), prefer), Conflicts(b, c, e, path, prefer));
    NoConflictUnderId(bk, ck, ek, id, PathAt(path, keys), prefer);
    MergeAlongPath(ElementOf(bk, id), ElementOf(ck, id), ElementOf(ek, id), inner, element, prefer);
    PartOfNothing(Conflicts(Inside(b, keys, id, inner), Inside(c, keys, id, inner), Inside(e, keys, id, inner),
                            PathAt(element, inner), prefer),
                  Conflicts(ElementOf(bk, id), ElementOf(ck, id), ElementOf(ek, id), element, prefer));
  }

  /**
   * An edit inside a profile, a subscription or a mode survives like any other: a conflict-free merge holds edited's value
   * where edited changed base and current's elsewhere. With no inner keys this is about whole elements, added or deleted.
   */
  lemma NoEditInsideIsLost(b: Option<Value>, c: Option<Value>, e: Option<Value>, keys: seq<string>, id: string,
                           inner: seq<string>, path: string, prefer: bool)
    requires LeadsInside(b, c, e, keys, id, inner, path) && Conflicts(b, c, e, path, prefer) == []
    requires Whole(Inside(b, keys, id, inner), Inside(c, keys, id, inner), Inside(e, keys, id, inner),
                   InsidePath(path, keys, id, inner))
    ensures Inside(Merge(b, c, e, path, prefer), keys, id, inner)
         == if Inside(e, keys, id, inner) != Inside(b, keys, id, inner) then Inside(e, keys, id, inner)
            else Inside(c, keys, id, inner)
  {
    MergeInside(b, c, e, keys, id, inner, path, prefer);
    CleanInside(b, c, e, keys, id, inner, path, prefer);
    NoEditIsLost(Inside(b, keys, id, inner), Inside(c, keys, id, inner), Inside(e, keys, id, inner), [],
                 InsidePath(path, keys, id, inner), prefer);
  }

  /** Whatever conflicts elsewhere, the preference changes nothing inside an element where the merge is clean. */
  lemma PreferenceStaysOutside(b: Option<Value>, c: Option<Value>, e: Option<Value>, keys: seq<string>, id: string,
                               inner: seq<string>, path: string, prefer: bool)
    requires LeadsInside(b, c, e, keys, id, inner, path)
    requires Conflicts(Inside(b, keys, id, inner), Inside(c, keys, id, inner), Inside(e, keys, id, inner),
                       InsidePath(path, keys, id, inner), prefer) == []
    ensures Inside(Merge(b, c, e, path, true), keys, id, inner) == Inside(Merge(b, c, e, path, false), keys, id, inner)
  {
    MergeInside(b, c, e, keys, id, inner, path, true);
    MergeInside(b, c, e, keys, id, inner, path, false);
    PreferenceNeedsConflict(Inside(b, keys, id, inner), Inside(c, keys, id, inner), Inside(e, keys, id, inner),
                            InsidePath(path, keys, id, inner), prefer);
  }

  // ----- Arrays that conflict as a whole -----

  /** Every conflict lies at or below the path it was found under. */
  lemma {:induction false} ConflictPathsExtend(b: Option<Value>, c: Option<Value>, e: Option<Value>, path: string, prefer: bool)
    requires path != ""
    ensures forall q :: q in Conflicts(b, c, e, path, prefer) ==> path <= q
    decreases b.Some?, ValueOrNull(b), 1
  {
    if Shortcut(b, c, e) {
    } else if AllObjects(b, c, e) {
      var keys := SortedKeys(Keys(b.value, c.value, e.value));
      KeyConflictPathsExtend(keys, b.value, c.value, e.value, path, prefer);
    } else if AllArrays(b, c, e) && IsIdPath(path) {
      var ids := MergedIds(b.value.elems, c.value.elems, e.value.elems, prefer);
      ArrayConflicts(b, c, e, path, prefer);
      IdConflictPathsExtend(ids, b.value, c.value, e.value, path, prefer);
    }
  }

  lemma LowerPaths(path: string, key: string)
    ensures path != "" ==> path < Child(path, key)
    ensures path < Element(path, key)
  {
    assert path + "." + key == path + ("." + key);
    assert Element(path, key) == path + ("[" + key + "]");
  }

  lemma Below(path: string, child: string, conflicts: seq<string>)
    requires path < child && forall q :: q in conflicts ==> child <= q
    ensures forall q :: q in conflicts ==> path < q
  {
    forall q | q in conflicts ensures path < q {
      assert child <= q && q[..|path|] == child[..|path|];
    }
  }

  lemma {:induction false} KeyPathsExtend(b: Value, c: Value, e: Value, key: string, path: string, prefer: bool)
    requires path != "" && b.Object?
    ensures forall q :: q in ConflictsAtKey(b, c, e, key, path, prefer) ==> path < q
    decreases true, b, 0, 0
  {
    ConflictPathsExtend(Field(b, key), Field(c, key), Field(e, key), Child(path, key), prefer);
    LowerPaths(path, key);
    Below(path, Child(path, key), Conflicts(Field(b, key), Field(c, key), Field(e, key), Child(path, key), prefer));
  }

  lemma {:induction false} IdPathsExtend(b: Value, c: Value, e: Value, id: string, path: string, prefer: bool)
    requires path != "" && b.Array? && c.Array? && e.Array?
    ensures forall q :: q in ConflictsAtId(b, c, e, id, path, prefer) ==> path < q
    decreases true, b, 0, 0
  {
    ConflictPathsExtend(Lookup(b.elems, id), Lookup(c.elems, id), Lookup(e.elems, id), Element(path, id), prefer);
    LowerPaths(path, id);
    Below(path, Element(path, id),
          Conflicts(Lookup(b.elems, id), Lookup(c.elems, id), Lookup(e.elems, id), Element(path, id), prefer));
  }

  lemma {:induction false} KeyConflictPathsExtend(keys: seq<string>, b: Value, c: Value, e: Value, path: string, prefer: bool)
    requires path != "" && b.Object?
    ensures forall q :: q in KeyConflicts(keys, b, c, e, path, prefer) ==> path < q
    decreases true, b, 0, |keys|
  {
    if keys != [] {
      KeyPathsExtend(b, c, e, keys[0], path, prefer);
      KeyConflictPathsExtend(keys[1..], b, c, e, path, prefer);
    }
  }

  lemma {:induction false} IdConflictPathsExtend(ids: seq<string>, b: Value, c: Value, e: Value, path: string, prefer: bool)
    requires path != "" && b.Array? && c.Array? && e.Array?
    ensures forall q :: q in IdConflicts(ids, b, c, e, path, prefer) ==> path < q
    decreases true, b, 0, |ids|
  {
    if ids != [] {
      IdPathsExtend(b, c, e, ids[0], path, prefer);
      IdConflictPathsExtend(ids[1..], b, c, e, path, prefer);
    }
  }

  ghost predicate AbsentOrArray(v: Option<Value>) {
    v.Some? ==> v.value.Array?
  }

  /**
   * Where the three sides disagree, their array conflicts as a whole exactly when one of them has no array, base or not;
   * then one side is taken as it is. With three arrays every conflict is the order's or an element's.
   */
  lemma ArrayConflictsAsAWholeIff(b: Option<Value>, c: Option<Value>, e: Option<Value>, path: string, prefer: bool)
    requires IsIdPath(path) && AbsentOrArray(b) && AbsentOrArray(c) && AbsentOrArray(e) && !Shortcut(b, c, e)
    ensures path in Conflicts(b, c, e, path, prefer) <==> b.None? || c.None? || e.None?
    ensures path in Conflicts(b, c, e, path, prefer) ==>
              Conflicts(b, c, e, path, prefer) == [path] && Merge(b, c, e, path, prefer) == if prefer then e else c
  {
    if AllArrays(b, c, e) {
      ArrayConflicts(b, c, e, path, prefer);
      IdConflictPathsExtend(MergedIds(b.value.elems, c.value.elems, e.value.elems, prefer), b.value, c.value, e.value, path, prefer);
    }
  }

  /** Both sides add their first element, each another one. */
  lemma FirstAdditionsConflict() returns (c: Value, e: Value)
    ensures c.Array? && e.Array? && |c.elems| == 1 && |e.elems| == 1
    ensures Conflicts(None, Some(c), Some(e), "subscriptions", false) == ["subscriptions"]
  {
    c, e := Array([WithId("s")]), Array([WithId("t")]);
    ArrayConflictsAsAWholeIff(None, Some(c), Some(e), "subscriptions", false) by {
      assert "s"[0] != "t"[0];
      assert c.elems[0].fields["id"] != e.elems[0].fields["id"];
    }
  }

  /** One side removes the only element, the other adds a second one. */
  lemma LastRemovalConflicts() returns (b: Value, e: Value)
    ensures b.Array? && e.Array? && b.elems <= e.elems && |b.elems| == 1 && |e.elems| == 2
    ensures Conflicts(Some(b), None, Some(e), "subscriptions", false) == ["subscriptions"]
  {
    b, e := Array([WithId("s")]), Array([WithId("s"), WithId("t")]);
    assert |b.elems| != |e.elems|;
    ArrayConflictsAsAWholeIff(Some(b), None, Some(e), "subscriptions", false);
  }

  // ----- Where new ids go -----

  /** The order a full merge gives: the leading side's ids, then the other side's new ones. */
  ghost predicate NewIdsComeLast(b: seq<Value>, c: seq<Value>, e: seq<Value>, ids: seq<string>) {
    ids == Among(LeadIds(b, c, e), ids) + Among(Beyond(OtherIds(b, c, e), LeadIds(b, c, e)), ids)
  }

  /** Current is untouched, and edited, without reordering base, put a new id before one of base's. */
  predicate InsertsIntoUntouched(b: seq<Value>, c: seq<Value>, e: seq<Value>) {
    && c == b && !CommonOrderChanged(Ids(b), Ids(e))
    && Ids(e) != Among(Ids(b), Ids(e)) + Beyond(Ids(e), Ids(b))
  }

  lemma SideAlone(ids: seq<string>, other: seq<string>)
    ensures Among(ids, ids) + Among(Beyond(other, ids), ids) == ids
  {
    AmongSelf(ids, ids);
    AmongNone(Beyond(other, ids), ids);
  }

  /** Ids only one side has come last, except exactly when edited inserted them into an untouched current. */
  lemma NewIdsComeLastIff(b: Option<Value>, c: Option<Value>, e: Option<Value>, path: string, prefer: bool)
    requires IdArrays(b, c, e, path) && Conflicts(b, c, e, path, prefer) == []
    ensures NewIdsComeLast(b.value.elems, c.value.elems, e.value.elems, Ids(Merge(b, c, e, path, prefer).value.elems))
            <==> !InsertsIntoUntouched(b.value.elems, c.value.elems, e.value.elems)
  {
    var bs, cs, es := b.value.elems, c.value.elems, e.value.elems;
    MergedOrder(b, c, e, path, prefer);
    if e == b || c == e {
      SideAlone(Ids(cs), OtherIds(bs, cs, es));
      SideAlone(Ids(bs), Ids(bs));
      AmongSelf(Ids(bs), Ids(bs));
    } else if c == b && CommonOrderChanged(Ids(bs), Ids(es)) {
      SideAlone(Ids(es), Ids(cs));
    } else if c == b {
      AmongSelf(Beyond(Ids(es), Ids(bs)), Ids(es));
    }
  }

  /** Edited puts `x` before `a` while current is untouched, and so does the merge. */
  lemma InsertionIntoUntouchedIsKept()
    ensures
      var a, x := WithId("a"), WithId("x");
      && Merge(Some(Array([a])), Some(Array([a])), Some(Array([x, a])), "profiles", false) == Some(Array([x, a]))
      && InsertsIntoUntouched([a], [a], [x, a])
  {
    var a, x := WithId("a"), WithId("x");
    assert IdOf(a) == Some("a") && IdOf(x) == Some("x");
    assert [x, a][1..] == [a] && [a][1..] == [];
    assert Ids([]) == [] && Ids([a]) == ["a"] && Ids([x, a]) == ["x"] + Ids([a]);
    assert "a" != "x" by { assert "a"[0] != "x"[0]; }
    assert ["x", "a"][1..] == ["a"] && ["a"][1..] == [];
    assert Among(["x", "a"], ["a"]) == ["a"] && Among(["a"], ["x", "a"]) == ["a"];
    assert Beyond(["x", "a"], ["a"]) == ["x"];
    assert (["a"] + ["x"])[0] != ["x", "a"][0];
  }
}
