/**
 * `Array.prototype.sort` with a key comparator, as the application uses it:
 * a stable sort (as ECMAScript 2019 requires) on a number or a string key,
 * ascending or descending. Strings compare character by character, like the
 * JavaScript `<` operator, with Dafny's `char` order standing in for UTF-16
 * code units.
 */
module Sorting {

  /** The value a comparator looks at: a number, or a string compared lexicographically. */
  datatype SortKey = Num(n: int) | Text(t: string)

  /** JavaScript `a < b` on strings. */
  predicate TextLess(a: string, b: string)
  {
    if b == [] then false
    else if a == [] then true
    else if a[0] != b[0] then a[0] < b[0]
    else TextLess(a[1..], b[1..])
  }

  /** A strict total order on keys (numbers before strings; only keys of one kind are ever compared). */
  predicate KeyLess(a: SortKey, b: SortKey)
  {
    match a
    case Num(x) => b.Text? || x < b.n
    case Text(x) => b.Text? && TextLess(x, b.t)
  }

  lemma {:induction false} TextLessIrreflexive(a: string)
    ensures !TextLess(a, a)
  {
    if a != [] {
      TextLessIrreflexive(a[1..]);
    }
  }

  lemma {:induction false} TextLessTransitive(a: string, b: string, c: string)
    requires TextLess(a, b) && TextLess(b, c)
    ensures TextLess(a, c)
  {
    if a != [] && a[0] == b[0] && b[0] == c[0] {
      TextLessTransitive(a[1..], b[1..], c[1..]);
    }
  }

  lemma {:induction false} TextLessTotal(a: string, b: string)
    ensures a == b || TextLess(a, b) || TextLess(b, a)
  {
    if a != [] && b != [] && a[0] == b[0] {
      TextLessTotal(a[1..], b[1..]);
      assert a == [a[0]] + a[1..];
      assert b == [b[0]] + b[1..];
    }
  }

  /** `KeyLess` is a strict total order. */
  lemma KeyLessOrder(a: SortKey, b: SortKey, c: SortKey)
    ensures !KeyLess(a, a)
    ensures KeyLess(a, b) && KeyLess(b, c) ==> KeyLess(a, c)
    ensures a == b || KeyLess(a, b) || KeyLess(b, a)
  {
    if a.Text? {
      TextLessIrreflexive(a.t);
      if b.Text? {
        TextLessTotal(a.t, b.t);
        if c.Text? && TextLess(a.t, b.t) && TextLess(b.t, c.t) {
          TextLessTransitive(a.t, b.t, c.t);
        }
      }
    }
  }

  /** Under the comparator, `x` must come strictly before `y`. */
  predicate Before<T>(key: T -> SortKey, desc: bool, x: T, y: T)
  {
    if desc then KeyLess(key(y), key(x)) else KeyLess(key(x), key(y))
  }

  lemma BeforeTransitive<T>(key: T -> SortKey, desc: bool, x: T, y: T, z: T)
    requires Before(key, desc, x, y) && Before(key, desc, y, z)
    ensures Before(key, desc, x, z)
  {
    if desc {
      KeyLessOrder(key(z), key(y), key(x));
    } else {
      KeyLessOrder(key(x), key(y), key(z));
    }
  }

  /** No item is placed after an item it should come before. */
  predicate Sorted<T>(s: seq<T>, key: T -> SortKey, desc: bool)
  {
    forall i, j :: 0 <= i < j < |s| ==> !Before(key, desc, s[j], s[i])
  }

  /** Inserts `x` after every item of `s` it need not precede. */
  function Insert<T>(x: T, s: seq<T>, key: T -> SortKey, desc: bool): (r: seq<T>)
    ensures |r| == |s| + 1
    ensures multiset(r) == multiset(s) + multiset{x}
    ensures Sorted(s, key, desc) ==> Sorted(r, key, desc)
  {
    if s == [] then [x]
    else if Before(key, desc, x, s[0]) then
      InsertFrontSorted(x, s, key, desc);
      [x] + s
    else
      var r := [s[0]] + Insert(x, s[1..], key, desc);
      assert s == [s[0]] + s[1..];
      InsertAfterSorted(x, s, Insert(x, s[1..], key, desc), key, desc);
      r
  }

  lemma InsertFrontSorted<T>(x: T, s: seq<T>, key: T -> SortKey, desc: bool)
    requires s != [] && Before(key, desc, x, s[0])
    ensures Sorted(s, key, desc) ==> Sorted([x] + s, key, desc)
  {
    if Sorted(s, key, desc) {
      forall j | 0 <= j < |s| ensures !Before(key, desc, s[j], x) {
        if Before(key, desc, s[j], x) {
          BeforeTransitive(key, desc, s[j], x, s[0]);
          KeyLessOrder(key(s[0]), key(s[0]), key(s[0]));
        }
      }
      assert forall j :: 0 <= j < |s| ==> ([x] + s)[j + 1] == s[j];
    }
  }

  lemma InsertAfterSorted<T>(x: T, s: seq<T>, tail: seq<T>, key: T -> SortKey, desc: bool)
    requires s != [] && !Before(key, desc, x, s[0])
    requires multiset(tail) == multiset(s[1..]) + multiset{x}
    requires Sorted(s[1..], key, desc) ==> Sorted(tail, key, desc)
    ensures Sorted(s, key, desc) ==> Sorted([s[0]] + tail, key, desc)
  {
    if Sorted(s, key, desc) {
      forall j | 0 <= j < |tail| ensures !Before(key, desc, tail[j], s[0]) {
        assert tail[j] in multiset(tail);
        if tail[j] != x {
          assert tail[j] in multiset(s[1..]);
          var k :| 0 <= k < |s[1..]| && s[1..][k] == tail[j];
          assert s[k + 1] == tail[j];
        }
      }
    }
  }

  /** The stable sort: each item, in input order, is inserted after the items it need not precede. */
  function SortBy<T>(s: seq<T>, key: T -> SortKey, desc: bool): (r: seq<T>)
    ensures |r| == |s|
    ensures multiset(r) == multiset(s)
    ensures Sorted(r, key, desc)
  {
    if s == [] then []
    else
      assert s == s[..|s| - 1] + [s[|s| - 1]];
      Insert(s[|s| - 1], SortBy(s[..|s| - 1], key, desc), key, desc)
  }

  /** When no item has to precede another (every key equal, say), sorting keeps the order. */
  lemma {:induction false} SortByKeepsOrder<T>(s: seq<T>, key: T -> SortKey, desc: bool)
    requires forall i, j :: 0 <= i < |s| && 0 <= j < |s| ==> !Before(key, desc, s[i], s[j])
    ensures SortBy(s, key, desc) == s
  {
    if s != [] {
      var init, x := s[..|s| - 1], s[|s| - 1];
      UnorderedParts(s, init, x, key, desc);
      SortByKeepsOrder(init, key, desc);
      InsertAtEnd(x, init, key, desc);
      assert init + [x] == s;
    }
  }

  /** Items none of which has to precede another: the same holds of the first ones, and of the last against them. */
  lemma UnorderedParts<T>(s: seq<T>, init: seq<T>, x: T, key: T -> SortKey, desc: bool)
    requires s == init + [x]
    requires forall i, j :: 0 <= i < |s| && 0 <= j < |s| ==> !Before(key, desc, s[i], s[j])
    ensures forall i, j :: 0 <= i < |init| && 0 <= j < |init| ==> !Before(key, desc, init[i], init[j])
    ensures forall j :: 0 <= j < |init| ==> !Before(key, desc, x, init[j])
  {
    forall i, j | 0 <= i < |init| && 0 <= j < |init| ensures !Before(key, desc, init[i], init[j]) {
      assert init[i] == s[i] && init[j] == s[j];
    }
    forall j | 0 <= j < |init| ensures !Before(key, desc, x, init[j]) {
      assert x == s[|init|] && init[j] == s[j];
    }
  }

  lemma {:induction false} InsertAtEnd<T>(x: T, s: seq<T>, key: T -> SortKey, desc: bool)
    requires forall j :: 0 <= j < |s| ==> !Before(key, desc, x, s[j])
    ensures Insert(x, s, key, desc) == s + [x]
  {
    if s != [] {
      InsertAtEnd(x, s[1..], key, desc);
      assert [s[0]] + (s[1..] + [x]) == s + [x];
    }
  }

  /** The items of a sorted sequence all appear in the input, and vice versa. */
  lemma SortByMembers<T>(s: seq<T>, key: T -> SortKey, desc: bool)
    ensures forall k :: 0 <= k < |s| ==> s[k] in SortBy(s, key, desc)
    ensures forall k :: 0 <= k < |s| ==> SortBy(s, key, desc)[k] in s
  {
    var r := SortBy(s, key, desc);
    forall k | 0 <= k < |s| ensures s[k] in r && r[k] in s {
      assert s[k] in multiset(s);
      assert r[k] in multiset(r);
    }
  }
}
