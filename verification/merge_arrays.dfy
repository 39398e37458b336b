/** Arrays merged by id: which elements the merge holds, and in which order. */
module MergeById {
  import opened Wrappers
  import opened Json
  import opened Sequences
  import opened ConfigMerge
  import opened MergeLaws

  /** What the merge of arrays assumes of its three inputs: a mergeable path and one string id per element. */
  ghost predicate IdArrays(b: Option<Value>, c: Option<Value>, e: Option<Value>, path: string) {
    && AllArrays(b, c, e) && IsIdPath(path)
    && DistinctIds(b.value.elems) && DistinctIds(c.value.elems) && DistinctIds(e.value.elems)
  }

  ghost predicate Has(v: Option<Value>, id: string) {
    v.Some? ==> IdOf(v.value) == Some(id)
  }

  /** A merged element keeps the id the merged elements share. */
  lemma MergeKeepsId(b: Option<Value>, c: Option<Value>, e: Option<Value>, id: string, path: string, prefer: bool)
    requires Inner(path) && Has(b, id) && Has(c, id) && Has(e, id)
    ensures Has(Merge(b, c, e, path, prefer), id)
  {
    InnerPaths(path, "", "");
    if AllObjects(b, c, e) { MergeIsKeyByKey(b, c, e, "id", path, prefer); }
  }

  /** The ids of the elements are those of the given ones that have a value, and each element is the value of its id. */
  ghost predicate Collects(ids: seq<string>, elems: seq<Value>, valueOf: string -> Option<Value>) {
    && DistinctIds(elems)
    && (forall id :: id in Ids(elems) <==> id in ids && valueOf(id).Some?)
    && (forall id :: id in ids ==> Lookup(elems, id) == valueOf(id))
  }

  lemma OneMoreCollected(ids: seq<string>, rest: seq<Value>, valueOf: string -> Option<Value>)
    requires ids != [] && ids[0] !in ids[1..] && Has(valueOf(ids[0]), ids[0])
    requires Collects(ids[1..], rest, valueOf)
    ensures Collects(ids, if valueOf(ids[0]).Some? then [valueOf(ids[0]).value] + rest else rest, valueOf)
  {
    if valueOf(ids[0]).Some? { ConsById(valueOf(ids[0]).value, ids[0], rest); }
    var elems := if valueOf(ids[0]).Some? then [valueOf(ids[0]).value] + rest else rest;
    forall id ensures id in Ids(elems) <==> id in ids && valueOf(id).Some? {
      assert id in ids <==> id == ids[0] || id in ids[1..];
      assert id in Ids(elems) <==> (id == ids[0] && valueOf(id).Some?) || id in Ids(rest);
    }
    forall id | id in ids ensures Lookup(elems, id) == valueOf(id) {
      if id != ids[0] { assert id in ids[1..]; }
    }
  }

  /** The merged elements are those of the visited ids that survive, each the merge for its id. */
  lemma {:induction false} MergeEachById(ids: seq<string>, b: Value, c: Value, e: Value, path: string, prefer: bool)
    requires b.Array? && c.Array? && e.Array? && Distinct(ids)
    ensures Collects(ids, MergeEach(ids, b, c, e, path, prefer), id => MergeId(b, c, e, id, path, prefer))
  {
    if ids != [] {
      var head, tail := ids[0], ids[1..];
      assert forall i :: 0 <= i < |tail| ==> tail[i] == ids[i + 1];
      assert Distinct(tail) && head !in tail;
      MergeEachById(tail, b, c, e, path, prefer);
      InnerPaths(path, "", head);
      MergeKeepsId(Lookup(b.elems, head), Lookup(c.elems, head), Lookup(e.elems, head), head, Element(path, head), prefer);
      OneMoreCollected(ids, MergeEach(tail, b, c, e, path, prefer), id => MergeId(b, c, e, id, path, prefer));
      MergeEachCons(ids, b, c, e, path, prefer);
    }
  }

  lemma MergeEachCons(ids: seq<string>, b: Value, c: Value, e: Value, path: string, prefer: bool)
    requires b.Array? && c.Array? && e.Array? && ids != []
    ensures var rest, merged := MergeEach(ids[1..], b, c, e, path, prefer), MergeId(b, c, e, ids[0], path, prefer);
            MergeEach(ids, b, c, e, path, prefer) == if merged.Some? then [merged.value] + rest else rest
  {}

  lemma ConsById(v: Value, id: string, rest: seq<Value>)
    requires IdOf(v) == Some(id) && DistinctIds(rest) && id !in Ids(rest)
    ensures DistinctIds([v] + rest) && Ids([v] + rest) == [id] + Ids(rest)
    ensures Lookup([v] + rest, id) == Some(v)
    ensures forall other :: other != id ==> Lookup([v] + rest, other) == Lookup(rest, other)
  {
    assert ([v] + rest)[1..] == rest;
    forall j | 0 <= j < |rest| ensures IdOf(rest[j]) != Some(id) {}
  }

  /** Ids filtered by survival: the order of the merged elements is the visiting order. */
  lemma {:induction false} MergeEachOrder(ids: seq<string>, keep: seq<string>, b: Value, c: Value, e: Value,
                                          path: string, prefer: bool)
    requires b.Array? && c.Array? && e.Array?
    requires forall id :: id in ids ==> (id in keep <==> MergeId(b, c, e, id, path, prefer).Some?)
    ensures Ids(MergeEach(ids, b, c, e, path, prefer)) == Among(ids, keep)
  {
    if ids != [] {
      var head := ids[0];
      MergeEachOrder(ids[1..], keep, b, c, e, path, prefer);
      InnerPaths(path, "", head);
      MergeKeepsId(Lookup(b.elems, head), Lookup(c.elems, head), Lookup(e.elems, head), head, Element(path, head), prefer);
      var rest := MergeEach(ids[1..], b, c, e, path, prefer);
      var merged := MergeId(b, c, e, head, path, prefer);
      if merged.Some? {
        assert MergeEach(ids, b, c, e, path, prefer) == [merged.value] + rest;
        assert ([merged.value] + rest)[1..] == rest;
      } else {
        assert MergeEach(ids, b, c, e, path, prefer) == [] + rest == rest;
      }
    }
  }

  /**
   * Whether an equality shortcut fires or not: the merged ids are distinct, the element under an id is exactly the
   * merge of the three elements with that id, and no id appears that is on neither side.
   */
  lemma ArraysMergeById(b: Option<Value>, c: Option<Value>, e: Option<Value>, path: string, prefer: bool)
    requires IdArrays(b, c, e, path)
    ensures var m := Merge(b, c, e, path, prefer);
            && m.Some? && m.value.Array? && DistinctIds(m.value.elems)
            && (forall id :: Lookup(m.value.elems, id) == MergeId(b.value, c.value, e.value, id, path, prefer))
            && (forall id :: id in Ids(m.value.elems) ==> id in Ids(c.value.elems) || id in Ids(e.value.elems))
  {
    if !Shortcut(b, c, e) {
      MergedArray(b, c, e, path, prefer);
      var ids := MergedIds(b.value.elems, c.value.elems, e.value.elems, prefer);
      MergeEachById(ids, b.value, c.value, e.value, path, prefer);
    }
  }

  /** Whatever conflicts elsewhere in the array, the preference changes nothing in an element whose own merge is clean. */
  lemma PreferenceStaysOutOfCleanElements(b: Option<Value>, c: Option<Value>, e: Option<Value>, id: string,
                                          path: string, prefer: bool)
    requires IdArrays(b, c, e, path) && ConflictsAtId(b.value, c.value, e.value, id, path, prefer) == []
    ensures Merge(b, c, e, path, true).Some? && Merge(b, c, e, path, true).value.Array?
    ensures Merge(b, c, e, path, false).Some? && Merge(b, c, e, path, false).value.Array?
    ensures Lookup(Merge(b, c, e, path, true).value.elems, id) == Lookup(Merge(b, c, e, path, false).value.elems, id)
  {
    ArraysMergeById(b, c, e, path, true);
    ArraysMergeById(b, c, e, path, false);
    PreferenceNeedsConflict(Lookup(b.value.elems, id), Lookup(c.value.elems, id), Lookup(e.value.elems, id), Element(path, id), prefer);
  }

  // ----- Order -----

  /** The side whose order the merged array follows. */
  function LeadIds(b: seq<Value>, c: seq<Value>, e: seq<Value>): seq<string> {
    if CommonOrderChanged(Ids(b), Ids(e)) then Ids(e) else Ids(c)
  }

  function OtherIds(b: seq<Value>, c: seq<Value>, e: seq<Value>): seq<string> {
    if CommonOrderChanged(Ids(b), Ids(e)) then Ids(c) else Ids(e)
  }

  /** The leading side's ids, then the ids only the other side has. */
  lemma MergedIdsAre(b: seq<Value>, c: seq<Value>, e: seq<Value>, prefer: bool)
    requires DistinctIds(c) && DistinctIds(e) && !OrderConflict(b, c, e)
    ensures MergedIds(b, c, e, prefer) == LeadIds(b, c, e) + Beyond(OtherIds(b, c, e), LeadIds(b, c, e))
  {
    IdsAligned(c);
    IdsAligned(e);
    FirstThenNew(Ids(c), Ids(e));
    FirstThenNew(Ids(e), Ids(c));
  }

  /**
   * The order of a conflict-free merge. A shortcut returns one side as it is; otherwise the surviving ids of the
   * leading side come first, in its order, and ids only the other side has follow at the end, in that side's order.
   */
  lemma MergedOrder(b: Option<Value>, c: Option<Value>, e: Option<Value>, path: string, prefer: bool)
    requires IdArrays(b, c, e, path) && Conflicts(b, c, e, path, prefer) == []
    ensures var ids := Ids(Merge(b, c, e, path, prefer).value.elems);
            var bs, cs, es := b.value.elems, c.value.elems, e.value.elems;
            ids == if e == b || c == e then Ids(cs)
                   else if c == b then Ids(es)
                   else Among(LeadIds(bs, cs, es), ids) + Among(Beyond(OtherIds(bs, cs, es), LeadIds(bs, cs, es)), ids)
  {
    if !Shortcut(b, c, e) {
      var bs, cs, es := b.value.elems, c.value.elems, e.value.elems;
      var visited := MergedIds(bs, cs, es, prefer);
      MergedArray(b, c, e, path, prefer);
      ArrayConflicts(b, c, e, path, prefer);
      MergedIdsAre(bs, cs, es, prefer);
      MergeEachById(visited, b.value, c.value, e.value, path, prefer);
      var ids := Ids(Merge(b, c, e, path, prefer).value.elems);
      MergeEachOrder(visited, ids, b.value, c.value, e.value, path, prefer);
      AmongAppend(LeadIds(bs, cs, es), Beyond(OtherIds(bs, cs, es), LeadIds(bs, cs, es)), ids);
    }
  }

  /** A base id that survives a conflict-free merge is still on both sides. */
  lemma SurvivorIsOnBothSides(b: Option<Value>, c: Option<Value>, e: Option<Value>, id: string, path: string,
                              prefer: bool)
    requires IdArrays(b, c, e, path) && Conflicts(b, c, e, path, prefer) == []
    requires id in Ids(b.value.elems) && id in Ids(Merge(b, c, e, path, prefer).value.elems)
    ensures id in Ids(c.value.elems) && id in Ids(e.value.elems)
  {
    ArraysMergeById(b, c, e, path, prefer);
    NoConflictUnderId(b, c, e, id, path, prefer);
    var bi, ci, ei := Lookup(b.value.elems, id), Lookup(c.value.elems, id), Lookup(e.value.elems, id);
    assert Lookup(Merge(b, c, e, path, prefer).value.elems, id) == MergeId(b.value, c.value, e.value, id, path, prefer);
    DeletionWins(bi, ci, ei, Element(path, id), prefer);
  }

  /** Without a conflict, what either side deleted stays deleted. */
  lemma DeletionWins(b: Option<Value>, c: Option<Value>, e: Option<Value>, path: string, prefer: bool)
    requires b.Some? && Conflicts(b, c, e, path, prefer) == []
    ensures Merge(b, c, e, path, prefer).Some? ==> c.Some? && e.Some?
  {}

  lemma NoConflictUnderId(b: Option<Value>, c: Option<Value>, e: Option<Value>, id: string, path: string, prefer: bool)
    requires IdArrays(b, c, e, path) && Conflicts(b, c, e, path, prefer) == []
    ensures ConflictsAtId(b.value, c.value, e.value, id, path, prefer) == []
  {
    if !Shortcut(b, c, e) {
      ArrayConflicts(b, c, e, path, prefer);
      NoIdConflict(MergedIds(b.value.elems, c.value.elems, e.value.elems, prefer), b.value, c.value, e.value, path, prefer);
    }
  }

  /** Surviving base ids keep edited's relative order if edited reordered them, and current's otherwise. */
  lemma BaseIdsKeepLeadOrder(b: Option<Value>, c: Option<Value>, e: Option<Value>, path: string, prefer: bool)
    requires IdArrays(b, c, e, path) && Conflicts(b, c, e, path, prefer) == []
    ensures var ids := Ids(Merge(b, c, e, path, prefer).value.elems);
            var base, lead := Ids(b.value.elems), LeadIds(b.value.elems, c.value.elems, e.value.elems);
            Among(ids, base) == Among(Among(lead, base), ids)
  {
    var ids := Ids(Merge(b, c, e, path, prefer).value.elems);
    var bs, cs, es := b.value.elems, c.value.elems, e.value.elems;
    var base, lead, other := Ids(bs), LeadIds(bs, cs, es), OtherIds(bs, cs, es);
    MergedOrder(b, c, e, path, prefer);
    if Shortcut(b, c, e) {
      if ids == lead {
        AmongSelf(Among(ids, base), ids);
      } else {
        assert c == b && ids == Ids(es) && lead == base;
        AmongSelf(base, base);
      }
    } else {
      var extra := Beyond(other, lead);
      forall id | id in Among(extra, ids) ensures id !in base {
        if id in base {
          SurvivorIsOnBothSides(b, c, e, id, path, prefer);
          assert false;
        }
      }
      AmongNone(Among(extra, ids), base);
      AmongAppend(Among(lead, ids), Among(extra, ids), base);
      var both := Among(ids, base);
      AmongTwice(lead, ids, base, both);
      AmongTwice(lead, base, ids, both);
    }
  }
}
