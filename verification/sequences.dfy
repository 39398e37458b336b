/** The orders and sequence operations the configuration merge is written with. */
module Sequences {
  import opened Json

  // ----- Key order -----

  /** The byte order a `BTreeSet` of strings iterates in. */
  predicate StringLe(a: string, b: string) {
    a == [] || (b != [] && (a[0] < b[0] || (a[0] == b[0] && StringLe(a[1..], b[1..]))))
  }

  lemma {:induction false} StringLeTotal(a: string, b: string)
    ensures StringLe(a, b) || StringLe(b, a)
  {
    if a != [] && b != [] { StringLeTotal(a[1..], b[1..]); }
  }

  lemma {:induction false} StringLeAntisymmetric(a: string, b: string)
    requires StringLe(a, b) && StringLe(b, a)
    ensures a == b
  {
    if a != [] {
      StringLeAntisymmetric(a[1..], b[1..]);
      assert a == [a[0]] + a[1..] && b == [b[0]] + b[1..];
    }
  }

  lemma {:induction false} StringLeTransitive(a: string, b: string, c: string)
    requires StringLe(a, b) && StringLe(b, c)
    ensures StringLe(a, c)
  {
    if a != [] && a[0] == b[0] && b[0] == c[0] { StringLeTransitive(a[1..], b[1..], c[1..]); }
  }

  /** One string is a prefix of the other, or they first differ in a smaller byte. */
  lemma {:induction false} StringLeIff(a: string, b: string)
    ensures StringLe(a, b) <==> a <= b || exists k :: 0 <= k < |a| && k < |b| && a[..k] == b[..k] && a[k] < b[k]
  {
    if a != [] && b != [] {
      StringLeIff(a[1..], b[1..]);
      if k :| 0 <= k < |a| && k < |b| && a[..k] == b[..k] && a[k] < b[k] {
        if k > 0 {
          assert a[..k][0] == b[..k][0] && a[1..][..k - 1] == a[..k][1..] == b[1..][..k - 1];
          assert a[1..][k - 1] < b[1..][k - 1];
        }
      }
      if a[0] == b[0] {
        if k :| 0 <= k < |a[1..]| && k < |b[1..]| && a[1..][..k] == b[1..][..k] && a[1..][k] < b[1..][k] {
          assert a[..k + 1] == [a[0]] + a[1..][..k] && b[..k + 1] == [b[0]] + b[1..][..k];
          assert a[k + 1] < b[k + 1];
        }
        assert a == [a[0]] + a[1..] && b == [b[0]] + b[1..];
        assert a <= b <==> a[1..] <= b[1..];
      } else if a[0] < b[0] {
        assert a[..0] == b[..0] && a[0] < b[0];
      }
    }
  }

  predicate IsLeast(least: string, keys: set<string>) {
    least in keys && forall key :: key in keys ==> StringLe(least, key)
  }

  lemma {:induction false} LeastExists(keys: set<string>)
    requires keys != {}
    ensures exists least :: IsLeast(least, keys)
  {
    var key :| key in keys;
    var rest := keys - {key};
    StringLeTotal(key, key);
    if rest == {} {
      assert keys == {key};
      assert IsLeast(key, keys);
    } else {
      LeastExists(rest);
      var least :| IsLeast(least, rest);
      StringLeTotal(key, least);
      if StringLe(key, least) {
        forall k | k in keys ensures StringLe(key, k) {
          if k != key { StringLeTransitive(key, least, k); }
        }
        assert IsLeast(key, keys);
      } else {
        assert IsLeast(least, keys);
      }
    }
  }

  lemma LeastIsUnique(keys: set<string>)
    ensures forall a, b :: IsLeast(a, keys) && IsLeast(b, keys) ==> a == b
  {
    forall a, b | IsLeast(a, keys) && IsLeast(b, keys) ensures a == b {
      StringLeAntisymmetric(a, b);
    }
  }

  function Least(keys: set<string>): (least: string)
    requires keys != {}
    ensures IsLeast(least, keys)
  {
    LeastExists(keys);
    LeastIsUnique(keys);
    var least :| least in keys && IsLeast(least, keys);
    least
  }

  /** The keys in the order a `BTreeSet` yields them. */
  function SortedKeys(keys: set<string>): (sorted: seq<string>)
    ensures forall key :: key in sorted <==> key in keys
    ensures Distinct(sorted)
    ensures forall i, j :: 0 <= i < j < |sorted| ==> StringLe(sorted[i], sorted[j])
  {
    if keys == {} then []
    else
      var least := Least(keys);
      [least] + SortedKeys(keys - {least})
  }

  // ----- Filtering and first occurrences -----

  /** The members of `xs` that also occur in `keep`, in the order of `xs`. */
  function Among(xs: seq<string>, keep: seq<string>): (kept: seq<string>)
    ensures forall x :: x in kept <==> x in xs && x in keep
    ensures |kept| <= |xs|
  {
    if xs == [] then []
    else if xs[0] in keep then [xs[0]] + Among(xs[1..], keep) else Among(xs[1..], keep)
  }

  /** The members of `xs` that do not occur in `known`, in the order of `xs`. */
  function Beyond(xs: seq<string>, known: seq<string>): (rest: seq<string>)
    ensures forall x :: x in rest <==> x in xs && x !in known
  {
    if xs == [] then []
    else if xs[0] in known then Beyond(xs[1..], known) else [xs[0]] + Beyond(xs[1..], known)
  }

  /** `known` followed by each member of `xs` that was not met before. */
  function AddNew(known: seq<string>, xs: seq<string>): (all: seq<string>)
    ensures forall x :: x in all <==> x in known || x in xs
    ensures Distinct(known) ==> Distinct(all)
    decreases |xs|
  {
    if xs == [] then known
    else AddNew(if xs[0] in known then known else known + [xs[0]], xs[1..])
  }

  lemma {:induction false} AddNewAppend(known: seq<string>, xs: seq<string>, ys: seq<string>)
    ensures AddNew(known, xs + ys) == AddNew(AddNew(known, xs), ys)
    decreases |xs|
  {
    if xs == [] {
      assert xs + ys == ys;
    } else {
      assert (xs + ys)[1..] == xs[1..] + ys;
      AddNewAppend(if xs[0] in known then known else known + [xs[0]], xs[1..], ys);
    }
  }

  lemma {:induction false} AddNewDistinct(known: seq<string>, xs: seq<string>)
    requires Distinct(xs)
    ensures AddNew(known, xs) == known + Beyond(xs, known)
    decreases |xs|
  {
    if xs == [] {
    } else {
      assert forall i :: 0 <= i < |xs[1..]| ==> xs[1..][i] == xs[i + 1];
      assert Distinct(xs[1..]) && xs[0] !in xs[1..];
      var next := if xs[0] in known then known else known + [xs[0]];
      AddNewDistinct(next, xs[1..]);
      BeyondIgnores(xs[1..], known, xs[0]);
      assert Beyond(xs, known) == (if xs[0] in known then [] else [xs[0]]) + Beyond(xs[1..], known);
    }
  }

  lemma FirstThenNew(first: seq<string>, second: seq<string>)
    requires Distinct(first) && Distinct(second)
    ensures AddNew([], first + second) == first + Beyond(second, first)
  {
    AddNewAppend([], first, second);
    assert AddNew([], first) == first by {
      AddNewDistinct([], first);
      BeyondNothing(first);
      assert [] + first == first;
    }
    AddNewDistinct(first, second);
  }

  lemma {:induction false} BeyondNothing(xs: seq<string>)
    ensures Beyond(xs, []) == xs
  {
    if xs != [] { BeyondNothing(xs[1..]); }
  }

  lemma {:induction false} BeyondIgnores(xs: seq<string>, known: seq<string>, extra: string)
    requires extra !in xs
    ensures Beyond(xs, known + [extra]) == Beyond(xs, known)
  {
    if xs != [] { BeyondIgnores(xs[1..], known, extra); }
  }

  lemma {:induction false} AmongSelf(xs: seq<string>, keep: seq<string>)
    requires forall x :: x in xs ==> x in keep
    ensures Among(xs, keep) == xs
  {
    if xs != [] { AmongSelf(xs[1..], keep); }
  }

  lemma {:induction false} AmongNone(xs: seq<string>, keep: seq<string>)
    requires forall x :: x in xs ==> x !in keep
    ensures Among(xs, keep) == []
  {
    if xs != [] { AmongNone(xs[1..], keep); }
  }

  lemma {:induction false} AmongAppend(xs: seq<string>, ys: seq<string>, keep: seq<string>)
    ensures Among(xs + ys, keep) == Among(xs, keep) + Among(ys, keep)
  {
    if xs == [] {
      assert xs + ys == ys;
    } else {
      assert (xs + ys)[1..] == xs[1..] + ys;
      AmongAppend(xs[1..], ys, keep);
    }
  }

  /** Filtering only looks at which members are kept. */
  lemma {:induction false} AmongSame(xs: seq<string>, keep: seq<string>, keep': seq<string>)
    requires forall x :: x in xs ==> (x in keep <==> x in keep')
    ensures Among(xs, keep) == Among(xs, keep')
  {
    if xs != [] { AmongSame(xs[1..], keep, keep'); }
  }

  lemma {:induction false} AmongTwice(xs: seq<string>, keep: seq<string>, keep': seq<string>, both: seq<string>)
    requires forall x :: x in xs ==> (x in both <==> x in keep && x in keep')
    ensures Among(Among(xs, keep), keep') == Among(xs, both)
  {
    if xs != [] { AmongTwice(xs[1..], keep, keep', both); }
  }

  // ----- Collecting what each id yields -----

  /** What `f` yields for each id, one after the other. */
  ghost function FlatMap<T>(ids: seq<string>, f: string -> seq<T>): seq<T> {
    if ids == [] then [] else f(ids[0]) + FlatMap(ids[1..], f)
  }

  lemma {:induction false} FlatMapWithout<T>(ids: seq<string>, i: nat, f: string -> seq<T>)
    requires i < |ids|
    ensures multiset(FlatMap(ids, f)) == multiset(f(ids[i])) + multiset(FlatMap(ids[..i] + ids[i + 1..], f))
  {
    if i == 0 {
      assert ids[..0] + ids[1..] == ids[1..];
    } else {
      FlatMapWithout(ids[1..], i - 1, f);
      var rest := ids[..i] + ids[i + 1..];
      assert rest[0] == ids[0] && rest[1..] == ids[1..][..i - 1] + ids[1..][i..];
      assert ids[1..][i - 1] == ids[i];
      assert FlatMap(rest, f) == f(rest[0]) + FlatMap(rest[1..], f);
    }
  }

  lemma HasMember(xs: seq<string>)
    requires xs != []
    ensures exists x :: x in xs
  {
    assert xs[0] in xs;
  }

  /** Reordering the ids and the results per id changes nothing but the order of the whole. */
  lemma {:induction false} FlatMapPermuted<T>(xs: seq<string>, ys: seq<string>, f: string -> seq<T>,
                                              g: string -> seq<T>)
    requires Distinct(xs) && Distinct(ys)
    requires forall x :: x in xs <==> x in ys
    requires forall x :: x in xs ==> multiset(f(x)) == multiset(g(x))
    ensures multiset(FlatMap(xs, f)) == multiset(FlatMap(ys, g))
  {
    if xs == [] {
      if ys != [] {
        HasMember(ys);
        assert false;
      }
    } else {
      assert xs[0] in ys;
      var i :| 0 <= i < |ys| && ys[i] == xs[0];
      var rest := ys[..i] + ys[i + 1..];
      assert forall k :: 0 <= k < |xs[1..]| ==> xs[1..][k] == xs[k + 1];
      assert forall k :: 0 <= k < |rest| ==> rest[k] == ys[if k < i then k else k + 1];
      forall x ensures x in xs[1..] <==> x in rest {
        if x in rest {
          var k :| 0 <= k < |rest| && rest[k] == x;
          assert x in ys && x != ys[i];
          assert x in xs;
        }
        if x in xs[1..] {
          assert x in ys && x != xs[0];
          var k :| 0 <= k < |ys| && ys[k] == x;
          assert rest[if k < i then k else k - 1] == x;
        }
      }
      FlatMapPermuted(xs[1..], rest, f, g);
      FlatMapWithout(ys, i, g);
    }
  }
}
