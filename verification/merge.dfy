/**
 * The three-way configuration merge: what `merge_value` computes, and the methods that compute it the way the
 * source does, appending conflict paths to a shared log.
 */
module ConfigMerge {
  import opened Wrappers
  import opened Json
  import opened Sequences

  // ----- Paths -----

  /** The paths whose arrays are merged element by element, by id. */
  predicate IsIdPath(path: string) {
    path == "profiles" || path == "subscriptions" || path == "modes"
  }

  function Child(path: string, key: string): string {
    if path == "" then key else path + "." + key
  }

  function Element(path: string, id: string): string {
    path + "[" + id + "]"
  }

  /** Inside an array element no path names an id array again. */
  predicate Inner(path: string) {
    '[' in path
  }

  lemma InnerPaths(path: string, key: string, id: string)
    ensures Inner(path) ==> !IsIdPath(path) && Inner(Child(path, key))
    ensures Inner(Element(path, id))
  {
    assert Element(path, id)[|path|] == '[';
  }

  // ----- Element order -----

  /** The ids both sides have stand in another order on `side` than in `base`. */
  predicate CommonOrderChanged(base: seq<string>, side: seq<string>) {
    Among(base, side) != Among(side, base)
  }

  predicate OrderConflict(base: seq<Value>, current: seq<Value>, edited: seq<Value>) {
    && CommonOrderChanged(Ids(base), Ids(current))
    && CommonOrderChanged(Ids(base), Ids(edited))
    && Ids(current) != Ids(edited)
  }

  predicate EditedFirst(base: seq<Value>, current: seq<Value>, edited: seq<Value>, preferEdited: bool) {
    CommonOrderChanged(Ids(base), Ids(edited)) && (!OrderConflict(base, current, edited) || preferEdited)
  }

  /** The ids the merge visits: those of the leading side, then those only the other side has. */
  function MergedIds(base: seq<Value>, current: seq<Value>, edited: seq<Value>, preferEdited: bool): (ids: seq<string>)
    ensures Distinct(ids)
    ensures forall id :: id in ids <==> id in Ids(current) || id in Ids(edited)
  {
    if EditedFirst(base, current, edited, preferEdited)
    then AddNew([], Ids(edited) + Ids(current))
    else AddNew([], Ids(current) + Ids(edited))
  }

  // ----- The merge -----

  function ValueOrNull(v: Option<Value>): Value {
    if v.Some? then v.value else Null
  }

  predicate AllObjects(base: Option<Value>, current: Option<Value>, edited: Option<Value>) {
    && base.Some? && base.value.Object?
    && current.Some? && current.value.Object?
    && edited.Some? && edited.value.Object?
  }

  predicate AllArrays(base: Option<Value>, current: Option<Value>, edited: Option<Value>) {
    && base.Some? && base.value.Array?
    && current.Some? && current.value.Array?
    && edited.Some? && edited.value.Array?
  }

  /** One of the three equalities decides the merge without looking inside. */
  predicate Shortcut(base: Option<Value>, current: Option<Value>, edited: Option<Value>) {
    edited == base || current == base || current == edited
  }

  function Keys(base: Value, current: Value, edited: Value): set<string>
    requires base.Object? && current.Object? && edited.Object?
  {
    base.fields.Keys + current.fields.Keys + edited.fields.Keys
  }

  /** The merged value; nothing when the merge deletes it. */
  function Merge(base: Option<Value>, current: Option<Value>, edited: Option<Value>, path: string, preferEdited: bool)
    : Option<Value>
    decreases base.Some?, ValueOrNull(base), 1, 0
  {
    if edited == base then current
    else if current == base then edited
    else if current == edited then current
    else if AllObjects(base, current, edited) then
      Some(Object(MergeFields(base.value, current.value, edited.value, path, preferEdited)))
    else if AllArrays(base, current, edited) && IsIdPath(path) then
      var b, c, e := base.value, current.value, edited.value;
      Some(Array(MergeEach(MergedIds(b.elems, c.elems, e.elems, preferEdited), b, c, e, path, preferEdited)))
    else if preferEdited then edited
    else current
  }

  function MergeFields(base: Value, current: Value, edited: Value, path: string, preferEdited: bool): map<string, Value>
    requires base.Object? && current.Object? && edited.Object?
    decreases true, base, 0, 1
  {
    map key | key in Keys(base, current, edited) && MergeKey(base, current, edited, key, path, preferEdited).Some?
           :: MergeKey(base, current, edited, key, path, preferEdited).value
  }

  /** The merge of one object member. */
  function MergeKey(base: Value, current: Value, edited: Value, key: string, path: string, preferEdited: bool)
    : Option<Value>
    requires base.Object?
    decreases true, base, 0, 0
  {
    Merge(Field(base, key), Field(current, key), Field(edited, key), Child(path, key), preferEdited)
  }

  /** The merge of the elements with one id. */
  function MergeId(base: Value, current: Value, edited: Value, id: string, path: string, preferEdited: bool)
    : Option<Value>
    requires base.Array? && current.Array? && edited.Array?
    decreases true, base, 0, 0
  {
    Merge(Lookup(base.elems, id), Lookup(current.elems, id), Lookup(edited.elems, id), Element(path, id), preferEdited)
  }

  function MergeEach(ids: seq<string>, base: Value, current: Value, edited: Value, path: string, preferEdited: bool)
    : seq<Value>
    requires base.Array? && current.Array? && edited.Array?
    decreases true, base, 0, |ids|
  {
    if ids == [] then []
    else
      var merged := MergeId(base, current, edited, ids[0], path, preferEdited);
      (if merged.Some? then [merged.value] else []) + MergeEach(ids[1..], base, current, edited, path, preferEdited)
  }

  /** The conflict paths, in the order the merge reports them. */
  function Conflicts(base: Option<Value>, current: Option<Value>, edited: Option<Value>, path: string,
                     preferEdited: bool)
    : seq<string>
    decreases base.Some?, ValueOrNull(base), 1, 0
  {
    if Shortcut(base, current, edited) then []
    else if AllObjects(base, current, edited) then
      var b, c, e := base.value, current.value, edited.value;
      KeyConflicts(SortedKeys(Keys(b, c, e)), b, c, e, path, preferEdited)
    else if AllArrays(base, current, edited) && IsIdPath(path) then
      var b, c, e := base.value, current.value, edited.value;
      (if OrderConflict(b.elems, c.elems, e.elems) then [path + " order"] else [])
      + IdConflicts(MergedIds(b.elems, c.elems, e.elems, preferEdited), b, c, e, path, preferEdited)
    else [if path == "" then "configuration" else path]
  }

  function ConflictsAtKey(base: Value, current: Value, edited: Value, key: string, path: string, preferEdited: bool)
    : seq<string>
    requires base.Object?
    decreases true, base, 0, 0
  {
    Conflicts(Field(base, key), Field(current, key), Field(edited, key), Child(path, key), preferEdited)
  }

  function KeyConflicts(keys: seq<string>, base: Value, current: Value, edited: Value, path: string, preferEdited: bool)
    : seq<string>
    requires base.Object?
    decreases true, base, 0, |keys|
  {
    if keys == [] then []
    else ConflictsAtKey(base, current, edited, keys[0], path, preferEdited)
         + KeyConflicts(keys[1..], base, current, edited, path, preferEdited)
  }

  function ConflictsAtId(base: Value, current: Value, edited: Value, id: string, path: string, preferEdited: bool)
    : seq<string>
    requires base.Array? && current.Array? && edited.Array?
    decreases true, base, 0, 0
  {
    Conflicts(Lookup(base.elems, id), Lookup(current.elems, id), Lookup(edited.elems, id), Element(path, id), preferEdited)
  }

  function IdConflicts(ids: seq<string>, base: Value, current: Value, edited: Value, path: string, preferEdited: bool)
    : seq<string>
    requires base.Array? && current.Array? && edited.Array?
    decreases true, base, 0, |ids|
  {
    if ids == [] then []
    else ConflictsAtId(base, current, edited, ids[0], path, preferEdited)
         + IdConflicts(ids[1..], base, current, edited, path, preferEdited)
  }

  lemma MergedArray(b: Option<Value>, c: Option<Value>, e: Option<Value>, path: string, prefer: bool)
    requires !Shortcut(b, c, e) && AllArrays(b, c, e) && IsIdPath(path)
    ensures Merge(b, c, e, path, prefer)
         == Some(Array(MergeEach(MergedIds(b.value.elems, c.value.elems, e.value.elems, prefer), b.value, c.value, e.value, path, prefer)))
  {}

  lemma ArrayConflicts(b: Option<Value>, c: Option<Value>, e: Option<Value>, path: string, prefer: bool)
    requires !Shortcut(b, c, e) && AllArrays(b, c, e) && IsIdPath(path)
    ensures Conflicts(b, c, e, path, prefer)
         == (if OrderConflict(b.value.elems, c.value.elems, e.value.elems) then [path + " order"] else [])
            + IdConflicts(MergedIds(b.value.elems, c.value.elems, e.value.elems, prefer), b.value, c.value, e.value, path, prefer)
  {}
}
