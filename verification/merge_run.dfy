/** The merge as it runs: nested loops that fill the result and append conflict paths to one shared log. */
module MergeRun {
  import opened Wrappers
  import opened Json
  import opened Sequences
  import opened ConfigMerge

  /** The conflict paths every nested call appends to. */
  class ConflictLog {
    var paths: seq<string>

    constructor ()
      ensures paths == []
    {
      paths := [];
    }

    method Push(path: string)
      modifies this
      ensures paths == old(paths) + [path]
    {
      paths := paths + [path];
    }
  }

  method MergeValue(base: Option<Value>, current: Option<Value>, edited: Option<Value>, path: string,
                    conflicts: ConflictLog, preferEdited: bool) returns (merged: Option<Value>)
    modifies conflicts
    ensures merged == Merge(base, current, edited, path, preferEdited)
    ensures conflicts.paths == old(conflicts.paths) + Conflicts(base, current, edited, path, preferEdited)
    decreases base.Some?, ValueOrNull(base), 1
  {
    assert conflicts.paths + [] == conflicts.paths;
    if edited == base { return current; }
    if current == base { return edited; }
    if current == edited { return current; }
    if AllObjects(base, current, edited) {
      var out := MergeObject(base.value, current.value, edited.value, path, conflicts, preferEdited);
      merged := Some(Object(out));
    } else if AllArrays(base, current, edited) && IsIdPath(path) {
      var out := MergeUuidArray(base.value, current.value, edited.value, path, conflicts, preferEdited);
      merged := Some(Array(out));
      MergedArray(base, current, edited, path, preferEdited);
      ArrayConflicts(base, current, edited, path, preferEdited);
    } else {
      conflicts.Push(if path == "" then "configuration" else path);
      merged := if preferEdited then edited else current;
    }
  }

  method MergeObject(base: Value, current: Value, edited: Value, path: string, conflicts: ConflictLog,
                     preferEdited: bool)
    returns (out: map<string, Value>)
    requires base.Object? && current.Object? && edited.Object?
    modifies conflicts
    ensures out == MergeFields(base, current, edited, path, preferEdited)
    ensures conflicts.paths == old(conflicts.paths)
                               + KeyConflicts(SortedKeys(Keys(base, current, edited)), base, current, edited, path, preferEdited)
    decreases true, base, 0, 1
  {
    out := MergeMembers(SortedKeys(Keys(base, current, edited)), base, current, edited, path, conflicts, preferEdited);
    AllKeysMerged(base, current, edited, path, preferEdited);
  }

  method MergeMembers(keys: seq<string>, base: Value, current: Value, edited: Value, path: string,
                      conflicts: ConflictLog, preferEdited: bool)
    returns (out: map<string, Value>)
    requires base.Object? && current.Object? && edited.Object?
    modifies conflicts
    ensures out == MergedSoFar(keys, base, current, edited, path, preferEdited)
    ensures conflicts.paths == old(conflicts.paths) + KeyConflicts(keys, base, current, edited, path, preferEdited)
    decreases true, base, 0, 0
  {
    out := map[];
    assert keys[0..] == keys && keys[|keys|..] == [] && keys[..|keys|] == keys;
    for i := 0 to |keys|
      invariant conflicts.paths + KeyConflicts(keys[i..], base, current, edited, path, preferEdited)
             == old(conflicts.paths) + KeyConflicts(keys, base, current, edited, path, preferEdited)
      invariant out == MergedSoFar(keys[..i], base, current, edited, path, preferEdited)
    {
      var key := keys[i];
      assert keys[..i + 1] == keys[..i] + [key];
      KeyStep(conflicts.paths, keys, i, base, current, edited, path, preferEdited);
      MemberStep(keys[..i], key, base, current, edited, path, preferEdited);
      var value := MergeValue(Field(base, key), Field(current, key), Field(edited, key), Child(path, key), conflicts, preferEdited);
      if value.Some? { out := out[key := value.value]; }
    }
    assert conflicts.paths + [] == conflicts.paths;
  }

  lemma AllKeysMerged(b: Value, c: Value, e: Value, path: string, prefer: bool)
    requires b.Object? && c.Object? && e.Object?
    ensures MergedSoFar(SortedKeys(Keys(b, c, e)), b, c, e, path, prefer) == MergeFields(b, c, e, path, prefer)
  {}

  /** The members merged once the keys `keys` are done. */
  ghost function MergedSoFar(keys: seq<string>, b: Value, c: Value, e: Value, path: string, prefer: bool): map<string,
                             Value>
    requires b.Object? && c.Object? && e.Object?
  {
    map key | key in keys && MergeKey(b, c, e, key, path, prefer).Some? :: MergeKey(b, c, e, key, path, prefer).value
  }

  lemma KeyStep(paths: seq<string>, keys: seq<string>, i: nat, b: Value, c: Value, e: Value, path: string, prefer: bool)
    requires b.Object? && c.Object? && e.Object? && i < |keys|
    ensures var here, rest := ConflictsAtKey(b, c, e, keys[i], path, prefer), KeyConflicts(keys[i + 1..], b, c, e, path, prefer);
            (paths + here) + rest == paths + KeyConflicts(keys[i..], b, c, e, path, prefer)
  {
    assert keys[i..][1..] == keys[i + 1..];
    Regroup(paths, ConflictsAtKey(b, c, e, keys[i], path, prefer), KeyConflicts(keys[i + 1..], b, c, e, path, prefer));
  }

  lemma MemberStep(keys: seq<string>, key: string, b: Value, c: Value, e: Value, path: string, prefer: bool)
    requires b.Object? && c.Object? && e.Object?
    ensures var out, value := MergedSoFar(keys, b, c, e, path, prefer), MergeKey(b, c, e, key, path, prefer);
            MergedSoFar(keys + [key], b, c, e, path, prefer) == if value.Some? then out[key := value.value] else out
  {}

  method MergeUuidArray(base: Value, current: Value, edited: Value, path: string, conflicts: ConflictLog,
                        preferEdited: bool)
    returns (out: seq<Value>)
    requires base.Array? && current.Array? && edited.Array?
    modifies conflicts
    ensures out == MergeEach(MergedIds(base.elems, current.elems, edited.elems, preferEdited), base, current, edited, path, preferEdited)
    ensures conflicts.paths == old(conflicts.paths)
              + ((if OrderConflict(base.elems, current.elems, edited.elems) then [path + " order"] else [])
                 + IdConflicts(MergedIds(base.elems, current.elems, edited.elems, preferEdited), base, current, edited, path, preferEdited))
    decreases true, base, 0, 1
  {
    var baseOrder, currentOrder, editedOrder := Ids(base.elems), Ids(current.elems), Ids(edited.elems);
    var editedReordered := CommonOrderChanged(baseOrder, editedOrder);
    var orderConflict := CommonOrderChanged(baseOrder, currentOrder) && editedReordered && currentOrder != editedOrder;
    if orderConflict { conflicts.Push(path + " order"); }
    assert conflicts.paths == old(conflicts.paths) + if orderConflict then [path + " order"] else [];
    var useEditedOrder := editedReordered && (!orderConflict || preferEdited);
    var first := if useEditedOrder then edited.elems else current.elems;
    var second := if useEditedOrder then current.elems else edited.elems;
    var ids := VisitOrder(first, second);
    assert ids == MergedIds(base.elems, current.elems, edited.elems, preferEdited);
    out := MergeElements(ids, base, current, edited, path, conflicts, preferEdited);
    Regroup(old(conflicts.paths), if orderConflict then [path + " order"] else [],
            IdConflicts(ids, base, current, edited, path, preferEdited));
  }

  method MergeElements(ids: seq<string>, base: Value, current: Value, edited: Value, path: string,
                       conflicts: ConflictLog, preferEdited: bool)
    returns (out: seq<Value>)
    requires base.Array? && current.Array? && edited.Array?
    modifies conflicts
    ensures out == MergeEach(ids, base, current, edited, path, preferEdited)
    ensures conflicts.paths == old(conflicts.paths) + IdConflicts(ids, base, current, edited, path, preferEdited)
    decreases true, base, 0, 0
  {
    out := [];
    assert ids[0..] == ids && ids[|ids|..] == [];
    for i := 0 to |ids|
      invariant conflicts.paths + IdConflicts(ids[i..], base, current, edited, path, preferEdited)
             == old(conflicts.paths) + IdConflicts(ids, base, current, edited, path, preferEdited)
      invariant out + MergeEach(ids[i..], base, current, edited, path, preferEdited)
             == MergeEach(ids, base, current, edited, path, preferEdited)
    {
      var id := ids[i];
      IdStep(conflicts.paths, ids, i, base, current, edited, path, preferEdited);
      ElementStep(out, ids, i, base, current, edited, path, preferEdited);
      var value := MergeValue(Lookup(base.elems, id), Lookup(current.elems, id), Lookup(edited.elems, id), Element(path, id),
                              conflicts, preferEdited);
      if value.Some? { out := out + [value.value]; }
    }
    assert conflicts.paths + [] == conflicts.paths && out + [] == out;
  }

  lemma IdStep(paths: seq<string>, ids: seq<string>, i: nat, b: Value, c: Value, e: Value, path: string, prefer: bool)
    requires b.Array? && c.Array? && e.Array? && i < |ids|
    ensures var here, rest := ConflictsAtId(b, c, e, ids[i], path, prefer), IdConflicts(ids[i + 1..], b, c, e, path, prefer);
            (paths + here) + rest == paths + IdConflicts(ids[i..], b, c, e, path, prefer)
  {
    assert ids[i..][1..] == ids[i + 1..];
    Regroup(paths, ConflictsAtId(b, c, e, ids[i], path, prefer), IdConflicts(ids[i + 1..], b, c, e, path, prefer));
  }

  lemma ElementStep(out: seq<Value>, ids: seq<string>, i: nat, b: Value, c: Value, e: Value, path: string, prefer: bool)
    requires b.Array? && c.Array? && e.Array? && i < |ids|
    ensures var value, rest := MergeId(b, c, e, ids[i], path, prefer), MergeEach(ids[i + 1..], b, c, e, path, prefer);
            (if value.Some? then out + [value.value] else out) + rest == out + MergeEach(ids[i..], b, c, e, path, prefer)
  {
    assert ids[i..][1..] == ids[i + 1..];
    var value := MergeId(b, c, e, ids[i], path, prefer);
    Regroup(out, if value.Some? then [value.value] else [], MergeEach(ids[i + 1..], b, c, e, path, prefer));
  }

  lemma Regroup<T>(a: seq<T>, b: seq<T>, c: seq<T>)
    ensures (a + b) + c == a + (b + c)
  {}

  /** Every id of the two sides once, where it is first met. */
  method VisitOrder(first: seq<Value>, second: seq<Value>) returns (ids: seq<string>)
    ensures ids == AddNew([], Ids(first) + Ids(second))
  {
    ids := [];
    var all := first + second;
    IdsAppend(first, second);
    for i := 0 to |all|
      invariant AddNew(ids, Ids(all[i..])) == AddNew([], Ids(all))
    {
      assert all[i..][1..] == all[i + 1..];
      match IdOf(all[i]) {
        case Some(id) => if id !in ids { ids := ids + [id]; }
        case None =>
      }
    }
  }

  lemma {:induction false} IdsAppend(xs: seq<Value>, ys: seq<Value>)
    ensures Ids(xs + ys) == Ids(xs) + Ids(ys)
  {
    if xs == [] {
      assert xs + ys == ys;
    } else {
      assert (xs + ys)[1..] == xs[1..] + ys;
      IdsAppend(xs[1..], ys);
    }
  }
}
