/** What the merge guarantees: locality, symmetry, the meaning of a preference and that no edit is lost. */
module MergeLaws {
  import opened Wrappers
  import opened Json
  import opened Sequences
  import opened ConfigMerge

  // ----- Collected results, one id or key at a time -----

  ghost function OptionSeq(v: Option<Value>): seq<Value> {
    if v.Some? then [v.value] else []
  }

  lemma {:induction false} MergeEachIsFlatMap(ids: seq<string>, b: Value, c: Value, e: Value, path: string,
                                              prefer: bool)
    requires b.Array? && c.Array? && e.Array?
    ensures MergeEach(ids, b, c, e, path, prefer) == FlatMap(ids, id => OptionSeq(MergeId(b, c, e, id, path, prefer)))
  {
    if ids != [] { MergeEachIsFlatMap(ids[1..], b, c, e, path, prefer); }
  }

  lemma {:induction false} IdConflictsIsFlatMap(ids: seq<string>, b: Value, c: Value, e: Value, path: string,
                                                prefer: bool)
    requires b.Array? && c.Array? && e.Array?
    ensures IdConflicts(ids, b, c, e, path, prefer) == FlatMap(ids, id => ConflictsAtId(b, c, e, id, path, prefer))
  {
    if ids != [] { IdConflictsIsFlatMap(ids[1..], b, c, e, path, prefer); }
  }

  lemma {:induction false} KeyConflictsContain(keys: seq<string>, key: string, b: Value, c: Value, e: Value,
                                               path: string, prefer: bool)
    requires b.Object? && key in keys
    ensures multiset(ConflictsAtKey(b, c, e, key, path, prefer)) <= multiset(KeyConflicts(keys, b, c, e, path, prefer))
  {
    if keys[0] != key { KeyConflictsContain(keys[1..], key, b, c, e, path, prefer); }
  }

  lemma {:induction false} KeyConflictsEmpty(keys: seq<string>, b: Value, c: Value, e: Value, path: string,
                                             prefer: bool)
    requires b.Object?
    requires forall key :: key in keys ==> ConflictsAtKey(b, c, e, key, path, prefer) == []
    ensures KeyConflicts(keys, b, c, e, path, prefer) == []
  {
    if keys != [] { KeyConflictsEmpty(keys[1..], b, c, e, path, prefer); }
  }

  lemma {:induction false} IdConflictsContain(ids: seq<string>, id: string, b: Value, c: Value, e: Value,
                                              path: string, prefer: bool)
    requires b.Array? && c.Array? && e.Array? && id in ids
    ensures multiset(ConflictsAtId(b, c, e, id, path, prefer)) <= multiset(IdConflicts(ids, b, c, e, path, prefer))
  {
    if ids[0] != id { IdConflictsContain(ids[1..], id, b, c, e, path, prefer); }
  }

  lemma PartOfNothing(part: seq<string>, whole: seq<string>)
    requires multiset(part) <= multiset(whole)
    ensures whole == [] ==> part == []
  {
    if part != [] { assert part[0] in multiset(part); }
  }

  lemma NoIdConflict(ids: seq<string>, b: Value, c: Value, e: Value, path: string, prefer: bool)
    requires b.Array? && c.Array? && e.Array?
    requires IdConflicts(ids, b, c, e, path, prefer) == []
    ensures forall id :: id in ids ==> ConflictsAtId(b, c, e, id, path, prefer) == []
  {
    forall id | id in ids
      ensures ConflictsAtId(b, c, e, id, path, prefer) == []
    {
      IdConflictsContain(ids, id, b, c, e, path, prefer);
      PartOfNothing(ConflictsAtId(b, c, e, id, path, prefer), IdConflicts(ids, b, c, e, path, prefer));
    }
  }

  lemma {:induction false} IdConflictsEmpty(ids: seq<string>, b: Value, c: Value, e: Value, path: string, prefer: bool)
    requires b.Array? && c.Array? && e.Array?
    requires forall id :: id in ids ==> ConflictsAtId(b, c, e, id, path, prefer) == []
    ensures IdConflicts(ids, b, c, e, path, prefer) == []
  {
    if ids != [] { IdConflictsEmpty(ids[1..], b, c, e, path, prefer); }
  }

  // ----- Locality: merging objects is merging key by key -----

  /** Whichever equality shortcut fires, the merge of three objects is the object of the merged members. */
  lemma MergeIsKeyByKey(b: Option<Value>, c: Option<Value>, e: Option<Value>, key: string, path: string, prefer: bool)
    requires AllObjects(b, c, e)
    ensures Merge(b, c, e, path, prefer).Some? && Merge(b, c, e, path, prefer).value.Object?
    ensures FieldOf(Merge(b, c, e, path, prefer), key) == MergeKey(b.value, c.value, e.value, key, path, prefer)
    ensures multiset(ConflictsAtKey(b.value, c.value, e.value, key, path, prefer)) <= multiset(Conflicts(b, c, e, path, prefer))
    ensures Conflicts(b, c, e, path, prefer) == [] ==> ConflictsAtKey(b.value, c.value, e.value, key, path, prefer) == []
  {
    if Shortcut(b, c, e) {
    } else if key in Keys(b.value, c.value, e.value) {
      KeyConflictsContain(SortedKeys(Keys(b.value, c.value, e.value)), key, b.value, c.value, e.value, path, prefer);
      PartOfNothing(ConflictsAtKey(b.value, c.value, e.value, key, path, prefer), Conflicts(b, c, e, path, prefer));
    }
  }

  /** The value at the end of a path of object keys. */
  ghost function At(v: Option<Value>, keys: seq<string>): Option<Value>
    decreases |keys|
  {
    if keys == [] then v else At(FieldOf(v, keys[0]), keys[1..])
  }

  ghost function PathAt(path: string, keys: seq<string>): string
    decreases |keys|
  {
    if keys == [] then path else PathAt(Child(path, keys[0]), keys[1..])
  }

  /** At every proper prefix of the path all three sides hold an object. */
  ghost predicate ObjectsAlong(b: Option<Value>, c: Option<Value>, e: Option<Value>, keys: seq<string>)
    decreases |keys|
  {
    keys == [] ||
    (AllObjects(b, c, e) && ObjectsAlong(FieldOf(b, keys[0]), FieldOf(c, keys[0]), FieldOf(e, keys[0]), keys[1..]))
  }

  lemma {:induction false} MergeAlongPath(b: Option<Value>, c: Option<Value>, e: Option<Value>, keys: seq<string>,
                                          path: string, prefer: bool)
    requires ObjectsAlong(b, c, e, keys)
    ensures At(Merge(b, c, e, path, prefer), keys) == Merge(At(b, keys), At(c, keys), At(e, keys), PathAt(path, keys), prefer)
    ensures multiset(Conflicts(At(b, keys), At(c, keys), At(e, keys), PathAt(path, keys), prefer))
         <= multiset(Conflicts(b, c, e, path, prefer))
    decreases |keys|
  {
    if keys != [] {
      MergeIsKeyByKey(b, c, e, keys[0], path, prefer);
      MergeAlongPath(FieldOf(b, keys[0]), FieldOf(c, keys[0]), FieldOf(e, keys[0]), keys[1..], Child(path, keys[0]), prefer);
    }
  }

  // ----- No edit is lost -----

  /** The merge takes the value here as a whole: it neither descends into members nor into array elements. */
  ghost predicate Whole(b: Option<Value>, c: Option<Value>, e: Option<Value>, path: string) {
    !AllObjects(b, c, e) && !(AllArrays(b, c, e) && IsIdPath(path))
  }

  /**
   * At the end of any path of objects, the merge holds edited's value wherever edited changed base and current's value
   * elsewhere; only a reported conflict yields to the preference.
   */
  lemma NoEditIsLost(b: Option<Value>, c: Option<Value>, e: Option<Value>, keys: seq<string>, path: string,
                     prefer: bool)
    requires ObjectsAlong(b, c, e, keys)
    requires Whole(At(b, keys), At(c, keys), At(e, keys), PathAt(path, keys))
    ensures var conflicts := Conflicts(b, c, e, path, prefer);
            var bk, ck, ek := At(b, keys), At(c, keys), At(e, keys);
            && (conflicts == [] ==> At(Merge(b, c, e, path, prefer), keys) == if ek != bk then ek else ck)
            && (At(Merge(b, c, e, path, prefer), keys) == (if ek != bk then ek else ck)
                || (ek != bk && ck != bk && ck != ek && !prefer
                    && At(Merge(b, c, e, path, prefer), keys) == ck
                    && (if PathAt(path, keys) == "" then "configuration" else PathAt(path, keys)) in conflicts))
  {
    MergeAlongPath(b, c, e, keys, path, prefer);
    var here := Conflicts(At(b, keys), At(c, keys), At(e, keys), PathAt(path, keys), prefer);
    if here != [] {
      assert here[0] in multiset(here);
      assert here[0] in Conflicts(b, c, e, path, prefer);
    }
  }

  // ----- Symmetry -----

  /** Swapping the two sides, and the preference, keeps the conflicts and how often each is reported. */
  lemma {:induction false} ConflictsAreSymmetric(b: Option<Value>, c: Option<Value>, e: Option<Value>, path: string,
                                                 prefer: bool, prefer': bool)
    ensures multiset(Conflicts(b, c, e, path, prefer)) == multiset(Conflicts(b, e, c, path, prefer'))
    decreases b.Some?, ValueOrNull(b), 1, 0
  {
    if Shortcut(b, c, e) {
    } else if AllObjects(b, c, e) {
      assert Keys(b.value, c.value, e.value) == Keys(b.value, e.value, c.value);
      KeyConflictsAreSymmetric(SortedKeys(Keys(b.value, c.value, e.value)), b.value, c.value, e.value, path, prefer, prefer');
    } else if AllArrays(b, c, e) && IsIdPath(path) {
      IdConflictsAreSymmetric(b.value, c.value, e.value, path, prefer, prefer');
      ArrayConflicts(b, c, e, path, prefer);
      ArrayConflicts(b, e, c, path, prefer');
    }
  }

  lemma {:induction false} KeyConflictsAreSymmetric(keys: seq<string>, b: Value, c: Value, e: Value, path: string,
          prefer: bool, prefer': bool)
    requires b.Object?
    ensures multiset(KeyConflicts(keys, b, c, e, path, prefer)) == multiset(KeyConflicts(keys, b, e, c, path, prefer'))
    decreases true, b, 0, |keys|
  {
    if keys != [] {
      ConflictsAreSymmetric(Field(b, keys[0]), Field(c, keys[0]), Field(e, keys[0]), Child(path, keys[0]), prefer, prefer');
      KeyConflictsAreSymmetric(keys[1..], b, c, e, path, prefer, prefer');
    }
  }

  lemma {:induction false} IdConflictsAreSymmetric(b: Value, c: Value, e: Value, path: string, prefer: bool,
          prefer': bool)
    requires b.Array? && c.Array? && e.Array?
    ensures multiset(IdConflicts(MergedIds(b.elems, c.elems, e.elems, prefer), b, c, e, path, prefer))
         == multiset(IdConflicts(MergedIds(b.elems, e.elems, c.elems, prefer'), b, e, c, path, prefer'))
    decreases true, b, 0, 0
  {
    var xs, ys := MergedIds(b.elems, c.elems, e.elems, prefer), MergedIds(b.elems, e.elems, c.elems, prefer');
    var f := id => ConflictsAtId(b, c, e, id, path, prefer);
    var g := id => ConflictsAtId(b, e, c, id, path, prefer');
    IdConflictsIsFlatMap(xs, b, c, e, path, prefer);
    IdConflictsIsFlatMap(ys, b, e, c, path, prefer');
    forall id | id in xs ensures multiset(f(id)) == multiset(g(id)) {
      ConflictsAreSymmetric(Lookup(b.elems, id), Lookup(c.elems, id), Lookup(e.elems, id), Element(path, id), prefer, prefer');
    }
    FlatMapPermuted(xs, ys, f, g);
  }

  /** Setting the preference reports the same conflicts. */
  lemma PreferenceKeepsConflicts(b: Option<Value>, c: Option<Value>, e: Option<Value>, path: string)
    ensures multiset(Conflicts(b, c, e, path, true)) == multiset(Conflicts(b, c, e, path, false))
  {
    ConflictsAreSymmetric(b, c, e, path, true, true);
    ConflictsAreSymmetric(b, e, c, path, true, false);
  }

  // ----- Values agree up to the order of id arrays -----

  /** Equal values, except that arrays merged by id may list their elements in another order. */
  ghost predicate SameUpToIdOrder(v: Option<Value>, w: Option<Value>, path: string)
    decreases v.Some?, ValueOrNull(v)
  {
    v == w ||
    (v.Some? && w.Some? &&
     match (v.value, w.value)
     case (Object(f), Object(g)) =>
       f.Keys == g.Keys && forall key :: key in f ==> SameUpToIdOrder(Some(f[key]), Some(g[key]), Child(path, key))
     case (Array(xs), Array(ys)) => IsIdPath(path) && multiset(xs) == multiset(ys)
     case _ => false)
  }

  lemma {:induction false} SameInsideElement(v: Option<Value>, w: Option<Value>, path: string)
    requires Inner(path) && SameUpToIdOrder(v, w, path)
    ensures v == w
    decreases v.Some?, ValueOrNull(v)
  {
    InnerPaths(path, "", "");
    if v.Some? && w.Some? && v.value.Object? && w.value.Object? {
      forall key
        ensures Field(v.value, key) == Field(w.value, key)
      {
        InnerPaths(path, key, "");
        if key in v.value.fields {
          SameInsideElement(Some(v.value.fields[key]), Some(w.value.fields[key]), Child(path, key));
        }
      }
      SameMembers(v.value, w.value);
    }
  }

  /** Without a conflict, swapping the sides gives the same value at every key and id. */
  lemma {:induction false} MergeIsSymmetric(b: Option<Value>, c: Option<Value>, e: Option<Value>, path: string,
                                            prefer: bool, prefer': bool)
    requires Conflicts(b, c, e, path, prefer) == []
    ensures SameUpToIdOrder(Merge(b, c, e, path, prefer), Merge(b, e, c, path, prefer'), path)
    decreases b.Some?, ValueOrNull(b), 1, 0
  {
    if Shortcut(b, c, e) {
    } else if AllObjects(b, c, e) {
      MergeOfObjectsIsSymmetric(b, c, e, path, prefer, prefer');
    } else if AllArrays(b, c, e) && IsIdPath(path) {
      ArrayConflicts(b, c, e, path, prefer);
      MergeEachIsSymmetric(b.value, c.value, e.value, path, prefer, prefer');
      MergedArray(b, c, e, path, prefer);
      MergedArray(b, e, c, path, prefer');
    }
  }

  lemma {:induction false} MergeOfObjectsIsSymmetric(b: Option<Value>, c: Option<Value>, e: Option<Value>,
          path: string, prefer: bool, prefer': bool)
    requires AllObjects(b, c, e) && Conflicts(b, c, e, path, prefer) == []
    ensures SameUpToIdOrder(Merge(b, c, e, path, prefer), Merge(b, e, c, path, prefer'), path)
    decreases true, b.value, 0, 0
  {
    var m, n := Merge(b, c, e, path, prefer), Merge(b, e, c, path, prefer');
    forall key
      ensures SameUpToIdOrder(FieldOf(m, key), FieldOf(n, key), Child(path, key))
    {
      MergeIsKeyByKey(b, c, e, key, path, prefer);
      MergeIsKeyByKey(b, e, c, key, path, prefer');
      MergeIsSymmetric(Field(b.value, key), Field(c.value, key), Field(e.value, key), Child(path, key), prefer, prefer');
    }
    MergeIsKeyByKey(b, c, e, "", path, prefer);
    MergeIsKeyByKey(b, e, c, "", path, prefer');
    SameFields(m, n, path);
  }

  lemma SameFields(m: Option<Value>, n: Option<Value>, path: string)
    requires m.Some? && m.value.Object? && n.Some? && n.value.Object?
    requires forall key :: SameUpToIdOrder(FieldOf(m, key), FieldOf(n, key), Child(path, key))
    ensures SameUpToIdOrder(m, n, path)
  {
    forall key
      ensures key in m.value.fields <==> key in n.value.fields
      ensures key in m.value.fields ==> SameUpToIdOrder(Some(m.value.fields[key]), Some(n.value.fields[key]), Child(path, key))
    {
      assert SameUpToIdOrder(FieldOf(m, key), FieldOf(n, key), Child(path, key));
    }
  }

  lemma {:induction false} MergeEachIsSymmetric(b: Value, c: Value, e: Value, path: string, prefer: bool, prefer': bool)
    requires b.Array? && c.Array? && e.Array?
    requires IdConflicts(MergedIds(b.elems, c.elems, e.elems, prefer), b, c, e, path, prefer) == []
    ensures multiset(MergeEach(MergedIds(b.elems, c.elems, e.elems, prefer), b, c, e, path, prefer))
         == multiset(MergeEach(MergedIds(b.elems, e.elems, c.elems, prefer'), b, e, c, path, prefer'))
    decreases true, b, 0, 1
  {
    var xs, ys := MergedIds(b.elems, c.elems, e.elems, prefer), MergedIds(b.elems, e.elems, c.elems, prefer');
    NoIdConflict(xs, b, c, e, path, prefer);
    forall id | id in xs
      ensures MergeId(b, c, e, id, path, prefer) == MergeId(b, e, c, id, path, prefer')
    {
      MergeIdIsSymmetric(b, c, e, id, path, prefer, prefer');
    }
    MergeEachPermuted(xs, ys, b, c, e, path, prefer, prefer');
  }

  lemma MergeEachPermuted(xs: seq<string>, ys: seq<string>, b: Value, c: Value, e: Value, path: string, prefer: bool,
                          prefer': bool)
    requires b.Array? && c.Array? && e.Array?
    requires Distinct(xs) && Distinct(ys) && forall id :: id in xs <==> id in ys
    requires forall id :: id in xs ==> MergeId(b, c, e, id, path, prefer) == MergeId(b, e, c, id, path, prefer')
    ensures multiset(MergeEach(xs, b, c, e, path, prefer)) == multiset(MergeEach(ys, b, e, c, path, prefer'))
  {
    var f := id => OptionSeq(MergeId(b, c, e, id, path, prefer));
    var g := id => OptionSeq(MergeId(b, e, c, id, path, prefer'));
    MergeEachIsFlatMap(xs, b, c, e, path, prefer);
    MergeEachIsFlatMap(ys, b, e, c, path, prefer');
    FlatMapPermuted(xs, ys, f, g);
  }

  lemma {:induction false} MergeIdIsSymmetric(b: Value, c: Value, e: Value, id: string, path: string, prefer: bool,
                                              prefer': bool)
    requires b.Array? && c.Array? && e.Array?
    requires ConflictsAtId(b, c, e, id, path, prefer) == []
    ensures MergeId(b, c, e, id, path, prefer) == MergeId(b, e, c, id, path, prefer')
    decreases true, b, 0, 0
  {
    MergeIsSymmetric(Lookup(b.elems, id), Lookup(c.elems, id), Lookup(e.elems, id), Element(path, id), prefer, prefer');
    InnerPaths(path, "", id);
    SameInsideElement(MergeId(b, c, e, id, path, prefer), MergeId(b, e, c, id, path, prefer'), Element(path, id));
  }

  // ----- The preference -----

  /** Where nothing conflicts, the preference changes nothing. */
  lemma {:induction false} PreferenceNeedsConflict(b: Option<Value>, c: Option<Value>, e: Option<Value>, path: string,
          prefer: bool)
    requires Conflicts(b, c, e, path, prefer) == []
    ensures Merge(b, c, e, path, true) == Merge(b, c, e, path, false)
    decreases b.Some?, ValueOrNull(b), 1, 0
  {
    if Shortcut(b, c, e) {
    } else if AllObjects(b, c, e) {
      var m, n := Merge(b, c, e, path, true), Merge(b, c, e, path, false);
      forall key
        ensures Field(m.value, key) == Field(n.value, key)
      {
        MergeIsKeyByKey(b, c, e, key, path, prefer);
        MergeIsKeyByKey(b, c, e, key, path, true);
        MergeIsKeyByKey(b, c, e, key, path, false);
        PreferenceNeedsConflict(Field(b.value, key), Field(c.value, key), Field(e.value, key), Child(path, key), prefer);
      }
      SameMembers(m.value, n.value);
    } else if AllArrays(b, c, e) && IsIdPath(path) {
      ArrayConflicts(b, c, e, path, prefer);
      PreferenceNeedsIdConflict(MergedIds(b.value.elems, c.value.elems, e.value.elems, prefer), b.value, c.value, e.value, path, prefer);
    }
  }

  lemma SameMembers(v: Value, w: Value)
    requires v.Object? && w.Object?
    requires forall key :: Field(v, key) == Field(w, key)
    ensures v == w
  {
    forall key
      ensures key in v.fields <==> key in w.fields
      ensures key in v.fields ==> v.fields[key] == w.fields[key]
    {
      assert Field(v, key) == Field(w, key);
    }
    assert v.fields == w.fields;
  }

  lemma {:induction false} PreferenceNeedsIdConflict(ids: seq<string>, b: Value, c: Value, e: Value, path: string,
          prefer: bool)
    requires b.Array? && c.Array? && e.Array?
    requires IdConflicts(ids, b, c, e, path, prefer) == []
    ensures MergeEach(ids, b, c, e, path, true) == MergeEach(ids, b, c, e, path, false)
    decreases true, b, 0, |ids|
  {
    if ids != [] {
      PreferenceNeedsConflict(Lookup(b.elems, ids[0]), Lookup(c.elems, ids[0]), Lookup(e.elems, ids[0]), Element(path, ids[0]), prefer);
      PreferenceNeedsIdConflict(ids[1..], b, c, e, path, prefer);
    }
  }

  /** Whatever conflicts elsewhere, the preference changes nothing at a path of objects whose own merge is clean. */
  lemma PreferenceStaysInConflicts(b: Option<Value>, c: Option<Value>, e: Option<Value>, keys: seq<string>,
                                   path: string, prefer: bool)
    requires ObjectsAlong(b, c, e, keys)
    requires Conflicts(At(b, keys), At(c, keys), At(e, keys), PathAt(path, keys), prefer) == []
    ensures At(Merge(b, c, e, path, true), keys) == At(Merge(b, c, e, path, false), keys)
  {
    MergeAlongPath(b, c, e, keys, path, true);
    MergeAlongPath(b, c, e, keys, path, false);
    PreferenceNeedsConflict(At(b, keys), At(c, keys), At(e, keys), PathAt(path, keys), prefer);
  }
}
