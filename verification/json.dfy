/** JSON values as `serde_json` keeps them: an object is a map without an order of its own. */
module Json {
  import opened Wrappers

  // A number stays an opaque token: the merge only ever compares it.
  datatype Value =
    | Null
    | Bool(b: bool)
    | Number(token: string)
    | Str(text: string)
    | Array(elems: seq<Value>)
    | Object(fields: map<string, Value>)

  /** The member `key`, or nothing when the value is no object or has no such member. */
  function Field(v: Value, key: string): Option<Value> {
    if v.Object? && key in v.fields then Some(v.fields[key]) else None
  }

  function FieldOf(v: Option<Value>, key: string): Option<Value> {
    if v.Some? then Field(v.value, key) else None
  }

  /** The string under `id`, when there is one. */
  function IdOf(v: Value): Option<string> {
    match Field(v, "id")
    case Some(Str(id)) => Some(id)
    case _ => None
  }

  /** The string ids of the elements, in order. */
  function Ids(elems: seq<Value>): (ids: seq<string>)
    ensures forall id :: id in ids <==> exists i :: 0 <= i < |elems| && IdOf(elems[i]) == Some(id)
  {
    if elems == [] then []
    else
      var rest := Ids(elems[1..]);
      assert forall i :: 0 < i < |elems| ==> elems[i] == elems[1..][i - 1];
      if IdOf(elems[0]).Some? then [IdOf(elems[0]).value] + rest else rest
  }

  /** The element an id index maps `id` to; of two elements with one id the later one wins. */
  function Lookup(elems: seq<Value>, id: string): (found: Option<Value>)
    ensures found.Some? ==> found.value in elems && IdOf(found.value) == Some(id)
    ensures found.None? <==> id !in Ids(elems)
  {
    if elems == [] then None
    else
      var later := Lookup(elems[1..], id);
      if later.Some? then later
      else if IdOf(elems[0]) == Some(id) then Some(elems[0]) else None
  }

  lemma {:induction false} IdsOneMore(elems: seq<Value>, last: Value)
    ensures Ids(elems + [last]) == Ids(elems) + match IdOf(last) { case Some(id) => [id] case None => [] }
  {
    if elems == [] {
      assert elems + [last] == [last] && [last][1..] == [];
    } else {
      assert (elems + [last])[1..] == elems[1..] + [last];
      IdsOneMore(elems[1..], last);
    }
  }

  /** A later element with the same id takes the place of an earlier one. */
  lemma {:induction false} LaterElementWins(elems: seq<Value>, last: Value, id: string)
    ensures Lookup(elems + [last], id) == if IdOf(last) == Some(id) then Some(last) else Lookup(elems, id)
  {
    if elems == [] {
      assert elems + [last] == [last] && [last][1..] == [];
    } else {
      assert (elems + [last])[1..] == elems[1..] + [last];
      LaterElementWins(elems[1..], last, id);
    }
  }

  /** Every element has a string id, and no two share one. */
  ghost predicate DistinctIds(elems: seq<Value>) {
    && (forall i :: 0 <= i < |elems| ==> IdOf(elems[i]).Some?)
    && (forall i, j :: 0 <= i < j < |elems| ==> IdOf(elems[i]) != IdOf(elems[j]))
  }

  ghost predicate Distinct<T>(xs: seq<T>) {
    forall i, j :: 0 <= i < j < |xs| ==> xs[i] != xs[j]
  }

  lemma {:induction false} IdsAligned(elems: seq<Value>)
    requires DistinctIds(elems)
    ensures |Ids(elems)| == |elems| && Distinct(Ids(elems))
    ensures forall i :: 0 <= i < |elems| ==> IdOf(elems[i]) == Some(Ids(elems)[i])
  {
    if elems == [] {
    } else {
      assert forall i :: 0 <= i < |elems[1..]| ==> elems[1..][i] == elems[i + 1];
      IdsAligned(elems[1..]);
      var ids := Ids(elems);
      forall i | 0 <= i < |elems|
        ensures IdOf(elems[i]) == Some(ids[i])
      {
        if i > 0 { assert ids[i] == Ids(elems[1..])[i - 1]; }
      }
    }
  }

  lemma LookupByIndex(elems: seq<Value>, i: nat)
    requires DistinctIds(elems) && i < |elems|
    ensures Lookup(elems, IdOf(elems[i]).value) == Some(elems[i])
  {
    var id := IdOf(elems[i]).value;
    assert id in Ids(elems);
    var found := Lookup(elems, id);
    var j :| 0 <= j < |elems| && elems[j] == found.value;
    assert i == j;
  }

  /** Two id arrays with the same id order and the same element under every id are equal. */
  lemma SameIdsSameElements(xs: seq<Value>, ys: seq<Value>)
    requires DistinctIds(xs) && DistinctIds(ys)
    requires Ids(xs) == Ids(ys)
    requires forall id :: id in Ids(xs) ==> Lookup(xs, id) == Lookup(ys, id)
    ensures xs == ys
  {
    IdsAligned(xs);
    IdsAligned(ys);
    forall i | 0 <= i < |xs|
      ensures xs[i] == ys[i]
    {
      assert Ids(xs)[i] in Ids(xs);
      LookupByIndex(xs, i);
      LookupByIndex(ys, i);
    }
  }

  // ----- Elements with nothing but an id -----

  function WithId(id: string): Value {
    Object(map["id" := Str(id)])
  }

  function Named(ids: seq<string>): seq<Value> {
    if ids == [] then [] else [WithId(ids[0])] + Named(ids[1..])
  }

  lemma {:induction false} NamedElements(ids: seq<string>, id: string)
    ensures Ids(Named(ids)) == ids
    ensures Lookup(Named(ids), id) == if id in ids then Some(WithId(id)) else None
    ensures |Named(ids)| == |ids| && forall i :: 0 <= i < |ids| ==> Named(ids)[i] == WithId(ids[i])
  {
    if ids != [] {
      NamedElements(ids[1..], id);
      assert Named(ids)[1..] == Named(ids[1..]);
      assert IdOf(WithId(ids[0])) == Some(ids[0]);
    }
  }
}
