/**
 * The array operations the application uses everywhere: `findIndex`/`find`,
 * `filter` (order kept), and de-duplication through a `Set` (first
 * occurrence kept).
 */
module Seqs {
  import opened Wrappers

  /** `findIndex`: the position of the first element satisfying `p`, if any. */
  function FirstIndex<T>(s: seq<T>, p: T -> bool): (r: Option<nat>)
    ensures r.Some? ==> r.value < |s| && p(s[r.value])
    ensures r.Some? ==> forall k :: 0 <= k < r.value ==> !p(s[k])
    ensures r.None? <==> forall k :: 0 <= k < |s| ==> !p(s[k])
  {
    if s == [] then None
    else if p(s[0]) then Some(0)
    else
      var rest := FirstIndex(s[1..], p);
      if rest.Some? then Some(rest.value + 1) else None
  }

  /** The first position satisfying `p` is the one `findIndex` returns. */
  lemma FirstIndexAt<T>(s: seq<T>, p: T -> bool, i: nat)
    requires i < |s| && p(s[i])
    requires forall j :: 0 <= j < i ==> !p(s[j])
    ensures FirstIndex(s, p) == Some(i)
  {
  }

  /** `a` keeps some of the items of `b`, in the order of `b`. */
  predicate IsSubsequence<T(==)>(a: seq<T>, b: seq<T>)
  {
    if a == [] then true
    else if b == [] then false
    else if a[|a| - 1] == b[|b| - 1] then IsSubsequence(a[..|a| - 1], b[..|b| - 1])
    else IsSubsequence(a, b[..|b| - 1])
  }

  /** Items of a subsequence come from the sequence. */
  lemma {:induction false} SubsequenceMembers<T>(a: seq<T>, b: seq<T>)
    requires IsSubsequence(a, b)
    ensures |a| <= |b|
    ensures forall x :: x in a ==> x in b
  {
    if a != [] {
      if a[|a| - 1] == b[|b| - 1] {
        SubsequenceMembers(a[..|a| - 1], b[..|b| - 1]);
        assert a == a[..|a| - 1] + [a[|a| - 1]];
        assert b == b[..|b| - 1] + [b[|b| - 1]];
      } else {
        SubsequenceMembers(a, b[..|b| - 1]);
      }
    }
  }

  /** Adding an item at the end of the longer sequence, or of both, keeps a subsequence. */
  lemma SubsequenceExtend<T>(a: seq<T>, b: seq<T>, x: T)
    requires IsSubsequence(a, b)
    ensures IsSubsequence(a, b + [x])
    ensures IsSubsequence(a + [x], b + [x])
  {
    assert (b + [x])[..|b|] == b;
    assert (a + [x])[..|a|] == a;
    SubsequenceWeaken(a, b, x);
  }

  /** A subsequence without its last item is still a subsequence. */
  lemma {:induction false} SubsequenceDropLast<T>(a: seq<T>, b: seq<T>)
    requires a != [] && IsSubsequence(a, b)
    ensures IsSubsequence(a[..|a| - 1], b)
    decreases |a| + |b|, 1
  {
    var a' := a[..|a| - 1];
    var b' := b[..|b| - 1];
    assert b' + [b[|b| - 1]] == b;
    if a[|a| - 1] != b[|b| - 1] {
      SubsequenceDropLast(a, b');
    }
    SubsequenceWeaken(a', b', b[|b| - 1]);
  }

  /** Lengthening the longer sequence keeps a subsequence. */
  lemma {:induction false} SubsequenceWeaken<T>(a: seq<T>, b: seq<T>, x: T)
    requires IsSubsequence(a, b)
    ensures IsSubsequence(a, b + [x])
    decreases |a| + |b|, 2
  {
    assert (b + [x])[..|b|] == b;
    if a != [] && a[|a| - 1] == x {
      SubsequenceDropLast(a, b);
    }
  }

  /** Every sequence is a subsequence of itself. */
  lemma {:induction false} SubsequenceRefl<T>(s: seq<T>)
    ensures IsSubsequence(s, s)
  {
    if s != [] {
      SubsequenceRefl(s[..|s| - 1]);
    }
  }

  /** A subsequence of a subsequence is a subsequence. */
  lemma {:induction false} SubsequenceTransitive<T>(a: seq<T>, b: seq<T>, c: seq<T>)
    requires IsSubsequence(a, b) && IsSubsequence(b, c)
    ensures IsSubsequence(a, c)
    decreases |c|
  {
    if a != [] {
      var c' := c[..|c| - 1];
      var b' := b[..|b| - 1];
      assert c' + [c[|c| - 1]] == c;
      if b[|b| - 1] == c[|c| - 1] {
        if a[|a| - 1] == b[|b| - 1] {
          SubsequenceTransitive(a[..|a| - 1], b', c');
        } else {
          SubsequenceTransitive(a, b', c');
          SubsequenceWeaken(a, c', c[|c| - 1]);
        }
      } else {
        SubsequenceTransitive(a, b, c');
        SubsequenceWeaken(a, c', c[|c| - 1]);
      }
    }
  }

  /** `filter`: the items satisfying `p`, in their original order. */
  function Filter<T>(s: seq<T>, p: T -> bool): (r: seq<T>)
    ensures |r| <= |s|
    ensures forall k :: 0 <= k < |r| ==> p(r[k]) && r[k] in s
    ensures forall k :: 0 <= k < |s| && p(s[k]) ==> s[k] in r
  {
    if s == [] then []
    else
      var init := Filter(s[..|s| - 1], p);
      assert s == s[..|s| - 1] + [s[|s| - 1]];
      if p(s[|s| - 1]) then init + [s[|s| - 1]] else init
  }

  /** A filter result is a subsequence of its input and keeps every item that passes. */
  lemma {:induction false} FilterIsSubsequence<T>(s: seq<T>, p: T -> bool)
    ensures IsSubsequence(Filter(s, p), s)
    ensures (forall k :: 0 <= k < |s| ==> p(s[k])) ==> Filter(s, p) == s
  {
    if s != [] {
      var init := s[..|s| - 1];
      FilterIsSubsequence(init, p);
      assert init + [s[|s| - 1]] == s;
      SubsequenceExtend(Filter(init, p), init, s[|s| - 1]);
    }
  }

  /** Filters with predicates that agree on every item give the same result. */
  lemma {:induction false} FilterCongruent<T>(s: seq<T>, p: T -> bool, q: T -> bool)
    requires forall k :: 0 <= k < |s| ==> p(s[k]) == q(s[k])
    ensures Filter(s, p) == Filter(s, q)
  {
    if s != [] {
      FilterCongruent(s[..|s| - 1], p, q);
    }
  }

  /** An item is kept by the filter exactly when it occurs in the input and passes. */
  lemma FilterMembers<T>(s: seq<T>, p: T -> bool, x: T)
    ensures x in Filter(s, p) <==> x in s && p(x)
  {
  }

  /** Filtering distributes over concatenation, so a loop can filter one item at a time. */
  lemma FilterAppend<T>(s: seq<T>, x: T, p: T -> bool)
    ensures Filter(s + [x], p) == if p(x) then Filter(s, p) + [x] else Filter(s, p)
  {
    assert (s + [x])[..|s|] == s;
  }

  /** Filtering seen from the front: the first item, if it passes, then the filtered rest. */
  lemma {:induction false} FilterFront<T>(e: seq<T>, p: T -> bool)
    requires e != []
    ensures Filter(e, p) == if p(e[0]) then [e[0]] + Filter(e[1..], p) else Filter(e[1..], p)
  {
    if |e| > 1 {
      var init := e[..|e| - 1];
      FilterFront(init, p);
      assert init[1..] == e[1..][..|e[1..]| - 1];
      assert init[0] == e[0];
    } else {
      assert e[..0] == [] && e[1..] == [];
    }
  }

  /** Filtering twice is filtering once by both predicates. */
  lemma {:induction false} FilterThenFilter<T>(s: seq<T>, p: T -> bool, q: T -> bool, both: T -> bool)
    requires forall k :: 0 <= k < |s| ==> both(s[k]) == (p(s[k]) && q(s[k]))
    ensures Filter(Filter(s, p), q) == Filter(s, both)
  {
    if s != [] {
      var init, x := s[..|s| - 1], s[|s| - 1];
      FilterThenFilter(init, p, q, both);
      if p(x) {
        FilterAppend(Filter(init, p), x, q);
      }
    }
  }

  /** No item occurs twice. */
  predicate NoDuplicates<T(==)>(s: seq<T>)
  {
    forall i, j :: 0 <= i < j < |s| ==> s[i] != s[j]
  }

  /** A sequence has no duplicates exactly when each item occurs in its multiset at most once. */
  lemma {:induction false} NoDuplicatesCounts<T>(s: seq<T>)
    ensures NoDuplicates(s) <==> forall x :: multiset(s)[x] <= 1
  {
    if s != [] {
      var init, last := s[..|s| - 1], s[|s| - 1];
      assert s == init + [last];
      NoDuplicatesCounts(init);
      if NoDuplicates(s) {
        assert NoDuplicates(init);
        assert last !in init by {
          forall k | 0 <= k < |init| ensures init[k] != last { assert s[k] != s[|s| - 1]; }
        }
      }
      if forall x :: multiset(s)[x] <= 1 {
        assert forall x :: multiset(init)[x] <= multiset(s)[x];
        assert multiset(init)[last] == 0;
        forall i, j | 0 <= i < j < |s| ensures s[i] != s[j] {
          if j < |s| - 1 {
            assert init[i] != init[j];
          } else {
            assert s[i] in init;
          }
        }
      }
    }
  }

  /** A permutation of a sequence without duplicates has none either. */
  lemma NoDuplicatesPermutation<T>(a: seq<T>, b: seq<T>)
    requires multiset(a) == multiset(b) && NoDuplicates(b)
    ensures NoDuplicates(a)
  {
    NoDuplicatesCounts(a);
    NoDuplicatesCounts(b);
  }

  /** `Array.from(new Set(s))`: each distinct item once, at its first occurrence. */
  function Dedupe<T(==)>(s: seq<T>): (r: seq<T>)
    ensures NoDuplicates(r)
    ensures forall k :: 0 <= k < |r| ==> r[k] in s
    ensures forall k :: 0 <= k < |s| ==> s[k] in r
  {
    if s == [] then []
    else
      var init := Dedupe(s[..|s| - 1]);
      var x := s[|s| - 1];
      assert s == s[..|s| - 1] + [x];
      if x in init then init else init + [x]
  }

  /** The de-duplicated items appear in the order of the input. */
  lemma {:induction false} DedupeIsSubsequence<T>(s: seq<T>)
    ensures IsSubsequence(Dedupe(s), s)
    ensures NoDuplicates(s) ==> Dedupe(s) == s
  {
    if s != [] {
      var init := s[..|s| - 1];
      DedupeIsSubsequence(init);
      assert init + [s[|s| - 1]] == s;
      SubsequenceExtend(Dedupe(init), init, s[|s| - 1]);
    }
  }

  /** The position of the first occurrence of `x` in `s`. */
  function FirstPosition<T(==)>(s: seq<T>, x: T): (k: nat)
    requires x in s
    ensures k < |s| && s[k] == x
    ensures forall j :: 0 <= j < k ==> s[j] != x
  {
    if s[0] == x then 0 else 1 + FirstPosition(s[1..], x)
  }

  /** An item of a prefix first occurs at the same position in the whole sequence. */
  lemma FirstPositionPrefix<T>(s: seq<T>, n: nat, y: T)
    requires n <= |s| && y in s[..n]
    ensures FirstPosition(s, y) == FirstPosition(s[..n], y) < n
  {
    var a, b := FirstPosition(s, y), FirstPosition(s[..n], y);
    assert s[b] == y;
    assert a <= b;
    assert s[..n][a] == y;
  }

  /** The de-duplicated items keep the order of their first occurrences. */
  lemma {:induction false} DedupeKeepsFirstOrder<T>(s: seq<T>)
    ensures forall i, j :: 0 <= i < j < |Dedupe(s)| ==> FirstPosition(s, Dedupe(s)[i]) < FirstPosition(s, Dedupe(s)[j])
  {
    if s != [] {
      var n := |s| - 1;
      var init, x := s[..n], s[n];
      DedupeKeepsFirstOrder(init);
      var d := Dedupe(init);
      var r := Dedupe(s);
      forall k | 0 <= k < |d| ensures FirstPosition(s, d[k]) == FirstPosition(init, d[k]) < n {
        FirstPositionPrefix(s, n, d[k]);
      }
      if x !in d {
        assert x !in init;
        assert r == d + [x];
        assert FirstPosition(s, x) == n;
      }
      forall i, j | 0 <= i < j < |r| ensures FirstPosition(s, r[i]) < FirstPosition(s, r[j]) {
        assert r[i] == d[i];
        if j < |d| {
          assert r[j] == d[j];
        }
      }
    }
  }
}
