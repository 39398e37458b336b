/** Applying the same edit to its own result: when it changes nothing, and exactly when it conflicts. */
module MergeAgain {
  import opened Wrappers
  import opened Json
  import opened Sequences
  import opened ConfigMerge
  import opened MergeLaws
  import opened MergeById

  /** Every array the merge would take apart by id has one distinct string id per element. */
  ghost predicate IdArraysDistinct(v: Option<Value>, path: string)
    decreases v.Some?, ValueOrNull(v)
  {
    v.Some? ==>
      match v.value
      case Object(f) => forall key :: key in f ==> IdArraysDistinct(Some(f[key]), Child(path, key))
      case Array(elems) => IsIdPath(path) ==> DistinctIds(elems)
      case _ => true
  }

  lemma {:induction false} InnerIsDistinct(v: Option<Value>, path: string)
    requires Inner(path)
    ensures IdArraysDistinct(v, path)
    decreases v.Some?, ValueOrNull(v)
  {
    InnerPaths(path, "", "");
    if v.Some? && v.value.Object? {
      forall key | key in v.value.fields
        ensures IdArraysDistinct(Some(v.value.fields[key]), Child(path, key))
      {
        InnerPaths(path, key, "");
        InnerIsDistinct(Some(v.value.fields[key]), Child(path, key));
      }
    }
  }

  lemma DistinctMember(v: Option<Value>, key: string, path: string)
    requires IdArraysDistinct(v, path)
    ensures IdArraysDistinct(FieldOf(v, key), Child(path, key))
  {}

  // ----- A merge that reproduces base -----

  /** A conflict-free merge can only be base again when the edit changed nothing. */
  lemma {:induction false} UnchangedMeansUnedited(b: Option<Value>, c: Option<Value>, e: Option<Value>, path: string,
                                                  prefer: bool)
    requires IdArraysDistinct(b, path) && IdArraysDistinct(c, path) && IdArraysDistinct(e, path)
    requires Conflicts(b, c, e, path, prefer) == [] && Merge(b, c, e, path, prefer) == b
    ensures e == b
    decreases b.Some?, ValueOrNull(b)
  {
    if AllObjects(b, c, e) {
      forall key ensures Field(e.value, key) == Field(b.value, key) {
        MergeIsKeyByKey(b, c, e, key, path, prefer);
        DistinctMember(b, key, path);
        DistinctMember(c, key, path);
        DistinctMember(e, key, path);
        UnchangedMeansUnedited(Field(b.value, key), Field(c.value, key), Field(e.value, key), Child(path, key), prefer);
      }
      SameMembers(e.value, b.value);
    } else if AllArrays(b, c, e) && IsIdPath(path) {
      var bs, es := b.value.elems, e.value.elems;
      ArraysMergeById(b, c, e, path, prefer);
      forall id ensures Lookup(es, id) == Lookup(bs, id) {
        NoConflictUnderId(b, c, e, id, path, prefer);
        InnerPaths(path, "", id);
        InnerIsDistinct(Lookup(bs, id), Element(path, id));
        InnerIsDistinct(Lookup(c.value.elems, id), Element(path, id));
        InnerIsDistinct(Lookup(es, id), Element(path, id));
        assert MergeId(b.value, c.value, e.value, id, path, prefer) == Lookup(bs, id);
        UnchangedMeansUnedited(Lookup(bs, id), Lookup(c.value.elems, id), Lookup(es, id), Element(path, id), prefer);
      }
      SameIdSets(es, bs);
      BaseIdsKeepLeadOrder(b, c, e, path, prefer);
      AmongSelf(Ids(bs), Ids(bs));
      AmongSelf(Ids(es), Ids(bs));
      AmongSelf(Ids(bs), Ids(es));
      SameIdsSameElements(es, bs);
    }
  }

  lemma SameIdSets(xs: seq<Value>, ys: seq<Value>)
    requires forall id :: Lookup(xs, id) == Lookup(ys, id)
    ensures forall id :: id in Ids(xs) <==> id in Ids(ys)
  {
    forall id ensures id in Ids(xs) <==> id in Ids(ys) {
      assert Lookup(xs, id) == Lookup(ys, id);
    }
  }

  // ----- When the edit can be applied again -----

  /** Edited keeps the relative order of the base ids current kept. */
  predicate KeepsOrder(b: seq<Value>, c: seq<Value>, e: seq<Value>) {
    !CommonOrderChanged(Among(Ids(b), Ids(c)), Ids(e))
  }

  /** Current deleted no id edited keeps and added none edited lacks. */
  predicate KeepsIds(b: seq<Value>, c: seq<Value>, e: seq<Value>) {
    && (forall id :: id in Ids(e) ==> id in Ids(c) || id !in Ids(b))
    && (forall id :: id in Ids(c) ==> id in Ids(e) || id in Ids(b))
  }

  /** At every array merged by id, edited left the order alone or current left the set of ids alone. */
  ghost predicate Repeatable(b: Option<Value>, c: Option<Value>, e: Option<Value>, path: string)
    decreases b.Some?, ValueOrNull(b)
  {
    if AllObjects(b, c, e) then
      forall key :: key in b.value.fields ==>
        Repeatable(Some(b.value.fields[key]), Field(c.value, key), Field(e.value, key), Child(path, key))
    else if AllArrays(b, c, e) && IsIdPath(path) then
      KeepsOrder(b.value.elems, c.value.elems, e.value.elems) || KeepsIds(b.value.elems, c.value.elems, e.value.elems)
    else true
  }

  lemma {:induction false} InnerIsRepeatable(b: Option<Value>, c: Option<Value>, e: Option<Value>, path: string)
    requires Inner(path)
    ensures Repeatable(b, c, e, path)
    decreases b.Some?, ValueOrNull(b)
  {
    InnerPaths(path, "", "");
    if AllObjects(b, c, e) {
      forall key | key in b.value.fields
        ensures Repeatable(Some(b.value.fields[key]), Field(c.value, key), Field(e.value, key), Child(path, key))
      {
        InnerPaths(path, key, "");
        InnerIsRepeatable(Some(b.value.fields[key]), Field(c.value, key), Field(e.value, key), Child(path, key));
      }
    }
  }

  /** At every array merged by id, edited keeps the relative order of the base ids. */
  ghost predicate KeepsBaseOrder(b: Option<Value>, c: Option<Value>, e: Option<Value>, path: string)
    decreases b.Some?, ValueOrNull(b)
  {
    if AllObjects(b, c, e) then
      forall key :: key in b.value.fields ==>
        KeepsBaseOrder(Some(b.value.fields[key]), Field(c.value, key), Field(e.value, key), Child(path, key))
    else if AllArrays(b, c, e) && IsIdPath(path) then !CommonOrderChanged(Ids(b.value.elems), Ids(e.value.elems))
    else true
  }

  lemma KeepingBaseOrderKeepsOrder(b: seq<Value>, c: seq<Value>, e: seq<Value>)
    requires !CommonOrderChanged(Ids(b), Ids(e))
    ensures KeepsOrder(b, c, e)
  {
    var base, current, edited := Ids(b), Ids(c), Ids(e);
    var kept := Among(base, current);
    var all := Among(kept, edited);
    AmongTwice(base, current, edited, all);
    AmongTwice(base, edited, current, all);
    AmongTwice(edited, base, current, kept);
    assert Among(kept, edited) == Among(edited, kept);
  }

  /** An edit that keeps the order of the base ids can always be applied again. */
  lemma {:induction false} OrderKeepingEditIsRepeatable(b: Option<Value>, c: Option<Value>, e: Option<Value>,
          path: string)
    requires KeepsBaseOrder(b, c, e, path)
    ensures Repeatable(b, c, e, path)
    decreases b.Some?, ValueOrNull(b)
  {
    if AllObjects(b, c, e) {
      forall key | key in b.value.fields
        ensures Repeatable(Some(b.value.fields[key]), Field(c.value, key), Field(e.value, key), Child(path, key))
      {
        OrderKeepingEditIsRepeatable(Some(b.value.fields[key]), Field(c.value, key), Field(e.value, key), Child(path, key));
      }
    } else if AllArrays(b, c, e) && IsIdPath(path) {
      KeepingBaseOrderKeepsOrder(b.value.elems, c.value.elems, e.value.elems);
    }
  }

  // ----- Merging the result again -----

  /** What merging `edited` into the merged value `m` once more gives. */
  ghost predicate SameAgain(b: Option<Value>, m: Option<Value>, e: Option<Value>, path: string, prefer: bool) {
    Conflicts(b, m, e, path, prefer) == [] && Merge(b, m, e, path, prefer) == m
  }

  /**
   * Let M be a conflict-free merge of `edited`. Merging `edited` into M again is conflict-free exactly when the edit is
   * repeatable, and then it returns M.
   */
  lemma {:induction false} ReapplyingTheEdit(b: Option<Value>, c: Option<Value>, e: Option<Value>, path: string,
                                             prefer: bool, prefer': bool)
    requires IdArraysDistinct(b, path) && IdArraysDistinct(c, path) && IdArraysDistinct(e, path)
    requires Conflicts(b, c, e, path, prefer) == []
    ensures var m := Merge(b, c, e, path, prefer);
            && (Conflicts(b, m, e, path, prefer') == [] <==> Repeatable(b, c, e, path))
            && (Repeatable(b, c, e, path) ==> Merge(b, m, e, path, prefer') == m)
    decreases b.Some?, ValueOrNull(b), 1
  {
    if AllObjects(b, c, e) {
      ReapplyingToObjects(b, c, e, path, prefer, prefer');
    } else if AllArrays(b, c, e) && IsIdPath(path) {
      ReapplyingToArrays(b, c, e, path, prefer, prefer');
    }
  }

  lemma {:induction false} ReapplyingToObjects(b: Option<Value>, c: Option<Value>, e: Option<Value>, path: string,
                                               prefer: bool, prefer': bool)
    requires IdArraysDistinct(b, path) && IdArraysDistinct(c, path) && IdArraysDistinct(e, path)
    requires AllObjects(b, c, e) && Conflicts(b, c, e, path, prefer) == []
    ensures var m := Merge(b, c, e, path, prefer);
            && (Conflicts(b, m, e, path, prefer') == [] <==> Repeatable(b, c, e, path))
            && (Repeatable(b, c, e, path) ==> Merge(b, m, e, path, prefer') == m)
    decreases b.Some?, ValueOrNull(b), 0
  {
    var m := Merge(b, c, e, path, prefer);
    MergeIsKeyByKey(b, c, e, "", path, prefer);
    forall key
      ensures ConflictsAtKey(b.value, m.value, e.value, key, path, prefer') == []
              <==> Repeatable(Field(b.value, key), Field(c.value, key), Field(e.value, key), Child(path, key))
      ensures Repeatable(Field(b.value, key), Field(c.value, key), Field(e.value, key), Child(path, key)) ==>
                MergeKey(b.value, m.value, e.value, key, path, prefer') == Field(m.value, key)
    {
      MergeIsKeyByKey(b, c, e, key, path, prefer);
      DistinctMember(b, key, path);
      DistinctMember(c, key, path);
      DistinctMember(e, key, path);
      ReapplyingTheEdit(Field(b.value, key), Field(c.value, key), Field(e.value, key), Child(path, key), prefer, prefer');
    }
    if Repeatable(b, c, e, path) {
      forall key ensures Repeatable(Field(b.value, key), Field(c.value, key), Field(e.value, key), Child(path, key)) {}
      AgainKeyByKey(b, m, e, path, prefer');
    } else {
      var key :| key in b.value.fields
                 && !Repeatable(Some(b.value.fields[key]), Field(c.value, key), Field(e.value, key), Child(path, key));
      assert Field(b.value, key) == Some(b.value.fields[key]);
      MergeIsKeyByKey(b, m, e, key, path, prefer');
    }
  }

  lemma AgainKeyByKey(b: Option<Value>, m: Option<Value>, e: Option<Value>, path: string, prefer: bool)
    requires AllObjects(b, m, e)
    requires forall key :: ConflictsAtKey(b.value, m.value, e.value, key, path, prefer) == []
                        && MergeKey(b.value, m.value, e.value, key, path, prefer) == Field(m.value, key)
    ensures SameAgain(b, m, e, path, prefer)
  {
    var again := Merge(b, m, e, path, prefer);
    MergeIsKeyByKey(b, m, e, "", path, prefer);
    forall key ensures Field(again.value, key) == Field(m.value, key) {
      MergeIsKeyByKey(b, m, e, key, path, prefer);
    }
    SameMembers(again.value, m.value);
    KeyConflictsEmpty(SortedKeys(Keys(b.value, m.value, e.value)), b.value, m.value, e.value, path, prefer);
  }

  // ----- Orders -----

  /** Exactly which ids a conflict-free merge keeps. */
  lemma Survivors(b: Option<Value>, c: Option<Value>, e: Option<Value>, path: string, prefer: bool)
    requires IdArrays(b, c, e, path) && Conflicts(b, c, e, path, prefer) == []
    ensures forall id :: id in Ids(Merge(b, c, e, path, prefer).value.elems) <==>
              if id in Ids(b.value.elems) then id in Ids(c.value.elems) && id in Ids(e.value.elems)
              else id in Ids(c.value.elems) || id in Ids(e.value.elems)
  {
    ArraysMergeById(b, c, e, path, prefer);
    forall id
      ensures id in Ids(Merge(b, c, e, path, prefer).value.elems) <==>
                if id in Ids(b.value.elems) then id in Ids(c.value.elems) && id in Ids(e.value.elems)
                else id in Ids(c.value.elems) || id in Ids(e.value.elems)
    {
      assert Lookup(Merge(b, c, e, path, prefer).value.elems, id) == MergeId(b.value, c.value, e.value, id, path, prefer);
      NoConflictUnderId(b, c, e, id, path, prefer);
      KeptOrDeleted(Lookup(b.value.elems, id), Lookup(c.value.elems, id), Lookup(e.value.elems, id), Element(path, id), prefer);
    }
  }

  lemma KeptOrDeleted(b: Option<Value>, c: Option<Value>, e: Option<Value>, path: string, prefer: bool)
    requires Conflicts(b, c, e, path, prefer) == []
    ensures Merge(b, c, e, path, prefer).Some? <==> if b.Some? then c.Some? && e.Some? else c.Some? || e.Some?
  {}

  /** Merging again meets an order conflict exactly when the edit is not repeatable. */
  lemma OrderConflictAgain(b: Option<Value>, c: Option<Value>, e: Option<Value>, path: string, prefer: bool)
    requires IdArrays(b, c, e, path) && Conflicts(b, c, e, path, prefer) == []
    ensures var bs, cs, es := b.value.elems, c.value.elems, e.value.elems;
            OrderConflict(bs, Merge(b, c, e, path, prefer).value.elems, es) <==> !KeepsOrder(bs, cs, es) && !KeepsIds(bs, cs, es)
  {
    var bs, cs, es := b.value.elems, c.value.elems, e.value.elems;
    Survivors(b, c, e, path, prefer);
    var B, C, E, M := Ids(bs), Ids(cs), Ids(es), Ids(Merge(b, c, e, path, prefer).value.elems);
    var both := Among(B, C);
    if CommonOrderChanged(B, E) {
      BaseIdsKeepLeadOrder(b, c, e, path, prefer);
      AmongTwice(E, B, M, both);
      AmongTwice(B, C, E, M);
      assert CommonOrderChanged(B, M) <==> !KeepsOrder(bs, cs, es);
      if KeepsIds(bs, cs, es) { SameOrderAsEdited(b, c, e, path, prefer); }
    } else {
      AmongTwice(B, E, C, Among(both, E));
      AmongTwice(B, C, E, Among(both, E));
      AmongTwice(E, B, C, both);
    }
  }

  lemma SameOrderAsEdited(b: Option<Value>, c: Option<Value>, e: Option<Value>, path: string, prefer: bool)
    requires IdArrays(b, c, e, path) && Conflicts(b, c, e, path, prefer) == []
    requires CommonOrderChanged(Ids(b.value.elems), Ids(e.value.elems))
    requires KeepsIds(b.value.elems, c.value.elems, e.value.elems)
    ensures Ids(Merge(b, c, e, path, prefer).value.elems) == Ids(e.value.elems)
  {
    MergedOrder(b, c, e, path, prefer);
    Survivors(b, c, e, path, prefer);
    var C, E, M := Ids(c.value.elems), Ids(e.value.elems), Ids(Merge(b, c, e, path, prefer).value.elems);
    AmongSelf(E, M);
    AmongNone(Beyond(C, E), M);
  }

  lemma {:induction false} BeyondSplit(xs: seq<string>, ys: seq<string>, known: seq<string>)
    requires forall x :: x in xs ==> x in known
    requires forall y :: y in ys ==> y !in known
    ensures Beyond(xs + ys, known) == ys
  {
    if xs == [] {
      assert xs + ys == ys;
      if ys != [] {
        assert [] + ys[1..] == ys[1..];
        BeyondSplit([], ys[1..], known);
      }
    } else {
      assert (xs + ys)[1..] == xs[1..] + ys;
      BeyondSplit(xs[1..], ys, known);
    }
  }

  /** Without an order conflict, merging again visits the surviving ids in the order they already have. */
  lemma OrderAgain(b: Option<Value>, c: Option<Value>, e: Option<Value>, path: string, prefer: bool, prefer': bool)
    requires IdArrays(b, c, e, path) && Conflicts(b, c, e, path, prefer) == []
    requires var m := Merge(b, c, e, path, prefer); IdArrays(b, m, e, path) && !Shortcut(b, m, e) && Conflicts(b, m, e, path, prefer') == []
    requires var m := Merge(b, c, e, path, prefer);
             forall id :: id in Ids(Merge(b, m, e, path, prefer').value.elems) <==> id in Ids(m.value.elems)
    ensures var m := Merge(b, c, e, path, prefer);
            Ids(Merge(b, m, e, path, prefer').value.elems) == Ids(m.value.elems)
  {
    var m := Merge(b, c, e, path, prefer);
    var B, C, E, M := Ids(b.value.elems), Ids(c.value.elems), Ids(e.value.elems), Ids(m.value.elems);
    var again := Ids(Merge(b, m, e, path, prefer').value.elems);
    MergedOrder(b, m, e, path, prefer');
    if CommonOrderChanged(B, E) {
      MergedOrder(b, c, e, path, prefer);
      var X, Y := Among(E, M), Among(Beyond(C, E), M);
      assert M == X + Y;
      BeyondSplit(X, Y, E);
      AmongSame(E, again, M);
      AmongSelf(Y, again);
    } else {
      AmongSelf(M, again);
      AmongNone(Beyond(E, M), again);
    }
  }

  lemma {:induction false} ReapplyingToArrays(b: Option<Value>, c: Option<Value>, e: Option<Value>, path: string,
                                              prefer: bool, prefer': bool)
    requires IdArrays(b, c, e, path) && Conflicts(b, c, e, path, prefer) == []
    ensures var m := Merge(b, c, e, path, prefer);
            && (Conflicts(b, m, e, path, prefer') == [] <==> Repeatable(b, c, e, path))
            && (Repeatable(b, c, e, path) ==> Merge(b, m, e, path, prefer') == m)
    decreases b.Some?, ValueOrNull(b), 0
  {
    var m := Merge(b, c, e, path, prefer);
    ArraysMergeById(b, c, e, path, prefer);
    forall id
      ensures ConflictsAtId(b.value, m.value, e.value, id, path, prefer') == []
      ensures MergeId(b.value, m.value, e.value, id, path, prefer') == Lookup(m.value.elems, id)
    {
      var bi, ci, ei := Lookup(b.value.elems, id), Lookup(c.value.elems, id), Lookup(e.value.elems, id);
      NoConflictUnderId(b, c, e, id, path, prefer);
      InnerPaths(path, "", id);
      InnerIsDistinct(bi, Element(path, id));
      InnerIsDistinct(ci, Element(path, id));
      InnerIsDistinct(ei, Element(path, id));
      InnerIsRepeatable(bi, ci, ei, Element(path, id));
      assert MergeId(b.value, c.value, e.value, id, path, prefer) == Lookup(m.value.elems, id);
      ReapplyingTheEdit(bi, ci, ei, Element(path, id), prefer, prefer');
    }
    OrderConflictAgain(b, c, e, path, prefer);
    if Shortcut(b, m, e) {
      if m == b { UnchangedMeansUnedited(b, c, e, path, prefer); }
    } else {
      ArrayConflicts(b, m, e, path, prefer');
      IdConflictsEmpty(MergedIds(b.value.elems, m.value.elems, e.value.elems, prefer'), b.value, m.value, e.value, path, prefer');
      if Repeatable(b, c, e, path) { ArraysAgain(b, c, e, path, prefer, prefer'); }
    }
  }

  lemma ArraysAgain(b: Option<Value>, c: Option<Value>, e: Option<Value>, path: string, prefer: bool, prefer': bool)
    requires IdArrays(b, c, e, path) && Conflicts(b, c, e, path, prefer) == []
    requires var m := Merge(b, c, e, path, prefer); IdArrays(b, m, e, path) && !Shortcut(b, m, e) && Conflicts(b, m, e, path, prefer') == []
    requires var m := Merge(b, c, e, path, prefer);
             forall id :: MergeId(b.value, m.value, e.value, id, path, prefer') == Lookup(m.value.elems, id)
    ensures var m := Merge(b, c, e, path, prefer); Merge(b, m, e, path, prefer') == m
  {
    var m := Merge(b, c, e, path, prefer);
    var again := Merge(b, m, e, path, prefer');
    ArraysMergeById(b, m, e, path, prefer');
    forall id ensures Lookup(again.value.elems, id) == Lookup(m.value.elems, id) {
      assert MergeId(b.value, m.value, e.value, id, path, prefer') == Lookup(m.value.elems, id);
    }
    SameIdSets(again.value.elems, m.value.elems);
    OrderAgain(b, c, e, path, prefer, prefer');
    SameIdsSameElements(again.value.elems, m.value.elems);
  }

  // ----- An edit that cannot be applied again -----

  lemma Letters()
    ensures "p" != "q" && "p" != "r" && "q" != "r"
  {
    assert "p"[0] != "q"[0] && "p"[0] != "r"[0] && "q"[0] != "r"[0];
  }

  /** The two sides: current adds `r` at the end, edited swaps `p` and `q`. */
  lemma Orders()
    ensures !CommonOrderChanged(["p", "q"], ["p", "q", "r"]) && CommonOrderChanged(["p", "q"], ["q", "p"])
    ensures Among(["p", "q"], ["p", "q", "r"]) == ["p", "q"]
  {
    Letters();
    AmongSelf(["p", "q"], ["p", "q", "r"]);
    assert ["p", "q"] + ["r"] == ["p", "q", "r"];
    AmongAppend(["p", "q"], ["r"], ["p", "q"]);
    AmongSelf(["p", "q"], ["p", "q"]);
    AmongNone(["r"], ["p", "q"]);
    AmongSelf(["p", "q"], ["q", "p"]);
    AmongSelf(["q", "p"], ["p", "q"]);
    assert ["p", "q"][0] != ["q", "p"][0];
  }

  lemma NamedAt(ids: seq<string>, i: nat)
    requires i < |ids|
    ensures |Named(ids)| == |ids| && IdOf(Named(ids)[i]) == Some(ids[i])
  {
    NamedElements(ids, "");
    assert Named(ids)[i] == WithId(ids[i]);
  }

  lemma NamedAreDistinct(ids: seq<string>)
    requires Distinct(ids)
    ensures DistinctIds(Named(ids))
  {
    NamedElements(ids, "");
    forall i | 0 <= i < |Named(ids)| ensures IdOf(Named(ids)[i]).Some? { NamedAt(ids, i); }
    forall i, j | 0 <= i < j < |Named(ids)| ensures IdOf(Named(ids)[i]) != IdOf(Named(ids)[j]) {
      NamedAt(ids, i);
      NamedAt(ids, j);
    }
  }

  lemma NamedElementsMergeCleanly(ids: seq<string>, b: seq<string>, c: seq<string>, e: seq<string>, prefer: bool)
    requires forall id :: id in e ==> id in b
    requires forall id :: id in b ==> id in c && id in e
    ensures IdConflicts(ids, Array(Named(b)), Array(Named(c)), Array(Named(e)), "profiles", prefer) == []
  {
    forall id | id in ids
      ensures ConflictsAtId(Array(Named(b)), Array(Named(c)), Array(Named(e)), id, "profiles", prefer) == []
    {
      NamedElements(b, id);
      NamedElements(c, id);
      NamedElements(e, id);
    }
    IdConflictsEmpty(ids, Array(Named(b)), Array(Named(c)), Array(Named(e)), "profiles", prefer);
  }

  lemma ReorderingIsClean(base: seq<string>, current: seq<string>, edited: seq<string>)
    requires (forall id :: id in edited <==> id in base) && (forall id :: id in base ==> id in current)
    requires !CommonOrderChanged(base, current)
    ensures Conflicts(Some(Array(Named(base))), Some(Array(Named(current))), Some(Array(Named(edited))), "profiles", false) == []
  {
    var b, c, e := Array(Named(base)), Array(Named(current)), Array(Named(edited));
    NamedElements(base, "");
    NamedElements(current, "");
    if !Shortcut(Some(b), Some(c), Some(e)) {
      ArrayConflicts(Some(b), Some(c), Some(e), "profiles", false);
      NamedElementsMergeCleanly(MergedIds(b.elems, c.elems, e.elems, false), base, current, edited, false);
    }
  }

  lemma NotRepeatable(b: Value, c: Value, e: Value, added: string)
    requires b.Array? && c.Array? && e.Array?
    requires Among(Ids(b.elems), Ids(c.elems)) == Ids(b.elems) && CommonOrderChanged(Ids(b.elems), Ids(e.elems))
    requires added in Ids(c.elems) && added !in Ids(b.elems) && added !in Ids(e.elems)
    ensures !Repeatable(Some(b), Some(c), Some(e), "profiles")
  {
    assert !KeepsOrder(b.elems, c.elems, e.elems);
    assert !KeepsIds(b.elems, c.elems, e.elems);
  }

  /** Current adds an id to base, edited only reorders it: the merge is clean, merging the same edit again is not. */
  lemma ReorderingBesideAnAddition(base: seq<string>, current: seq<string>, edited: seq<string>, added: string)
    requires Distinct(base) && Distinct(current) && Distinct(edited)
    requires forall id :: id in edited <==> id in base
    requires Among(base, current) == base && Among(current, base) == base && added in current && added !in base
    requires CommonOrderChanged(base, edited)
    ensures var b, c, e := Some(Array(Named(base))), Some(Array(Named(current))), Some(Array(Named(edited)));
            && Conflicts(b, c, e, "profiles", false) == [] && !Repeatable(b, c, e, "profiles")
            && Conflicts(b, Merge(b, c, e, "profiles", false), e, "profiles", false) != []
  {
    NamedAreDistinct(base);
    NamedAreDistinct(current);
    NamedAreDistinct(edited);
    forall id | id in base ensures id in current { assert id in Among(base, current); }
    ReorderingIsClean(base, current, edited);
    var b, c, e := Array(Named(base)), Array(Named(current)), Array(Named(edited));
    NamedElements(base, "");
    NamedElements(current, "");
    NamedElements(edited, "");
    NotRepeatable(b, c, e, added);
    ReapplyingTheEdit(Some(b), Some(c), Some(e), "profiles", false, false);
  }

  /** Current adds a profile at the end, edited swaps the other two. */
  lemma SwappingBesideAnAddition()
    ensures var b, c, e := Some(Array(Named(["p", "q"]))), Some(Array(Named(["p", "q", "r"]))), Some(Array(Named(["q", "p"])));
            && Conflicts(b, c, e, "profiles", false) == [] && !Repeatable(b, c, e, "profiles")
            && Conflicts(b, Merge(b, c, e, "profiles", false), e, "profiles", false) != []
  {
    Letters();
    Orders();
    ReorderingBesideAnAddition(["p", "q"], ["p", "q", "r"], ["q", "p"], "r");
  }
}
