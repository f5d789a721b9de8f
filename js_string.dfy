/**
 * The JavaScript string operations the application relies on, over `seq<char>`:
 * `trim`, ASCII `toLowerCase`, single-character `split`/`join`, `includes`,
 * `startsWith` and the clamping rules of `slice`.
 */
module JsString {

  /** The characters JavaScript's `trim` and the regular-expression class `\s` treat as white space. */
  predicate IsWhitespace(c: char)
  {
    c == '\t' || c == '\n' || c == '\U{000B}' || c == '\U{000C}' || c == '\r' || c == ' '
    || c == '\U{00A0}' || c == '\U{1680}' || ('\U{2000}' <= c <= '\U{200A}')
    || c == '\U{2028}' || c == '\U{2029}' || c == '\U{202F}' || c == '\U{205F}'
    || c == '\U{3000}' || c == '\U{FEFF}'
  }

  /** `s` has no white space at either end (what `trim` produces). */
  predicate IsTrimmed(s: string)
  {
    s == [] || (!IsWhitespace(s[0]) && !IsWhitespace(s[|s| - 1]))
  }

  /** Drops leading white space. */
  function TrimStart(s: string): (r: string)
    ensures |r| <= |s| && r == s[|s| - |r|..]
    ensures r == [] || !IsWhitespace(r[0])
    ensures forall k :: 0 <= k < |s| - |r| ==> IsWhitespace(s[k])
  {
    if s != [] && IsWhitespace(s[0]) then TrimStart(s[1..]) else s
  }

  /** Drops trailing white space. */
  function TrimEnd(s: string): (r: string)
    ensures |r| <= |s| && r == s[..|r|]
    ensures r == [] || !IsWhitespace(r[|r| - 1])
    ensures forall k :: |r| <= k < |s| ==> IsWhitespace(s[k])
  {
    if s != [] && IsWhitespace(s[|s| - 1]) then TrimEnd(s[..|s| - 1]) else s
  }

  /** `r` is the infix of `s` at `i` with only white space before and after it. */
  predicate TrimWindow(s: string, i: int, r: string)
  {
    0 <= i <= |s| - |r| && s[i..i + |r|] == r
    && (forall k :: 0 <= k < i ==> IsWhitespace(s[k]))
    && (forall k :: i + |r| <= k < |s| ==> IsWhitespace(s[k]))
  }

  /** `String.prototype.trim`: the infix of `s` that has no white space at either end. */
  function Trim(s: string): (r: string)
    ensures IsTrimmed(r)
  {
    TrimStartThenEnd(s);
    TrimEnd(TrimStart(s))
  }

  /** The trimmed text is an infix of `s` with only white space around it. */
  lemma TrimIsWindow(s: string)
    ensures exists i :: TrimWindow(s, i, Trim(s))
  {
    TrimStartThenEnd(s);
    assert TrimWindow(s, |s| - |TrimStart(s)|, Trim(s));
  }

  /** Trimming the start and then the end leaves a window of `s` with white space only around it. */
  lemma TrimStartThenEnd(s: string)
    ensures IsTrimmed(TrimEnd(TrimStart(s)))
    ensures TrimWindow(s, |s| - |TrimStart(s)|, TrimEnd(TrimStart(s)))
  {
    WindowAfterTrims(s, TrimStart(s), TrimEnd(TrimStart(s)));
  }

  /** A suffix `t` of `s` after leading white space, then a prefix `r` of `t` before trailing white space. */
  lemma WindowAfterTrims(s: string, t: string, r: string)
    requires |t| <= |s| && t == s[|s| - |t|..] && (t == [] || !IsWhitespace(t[0]))
    requires forall k :: 0 <= k < |s| - |t| ==> IsWhitespace(s[k])
    requires |r| <= |t| && r == t[..|r|] && (r == [] || !IsWhitespace(r[|r| - 1]))
    requires forall k :: |r| <= k < |t| ==> IsWhitespace(t[k])
    ensures IsTrimmed(r) && TrimWindow(s, |s| - |t|, r)
  {
    var i := |s| - |t|;
    assert s[i..i + |r|] == r;
    forall k | i + |r| <= k < |s|
      ensures IsWhitespace(s[k])
    {
      assert s[k] == t[k - i];
    }
    if r != [] {
      assert r[0] == t[0];
    }
  }

  /** `s.trim()` is empty exactly when `s` consists of white space only. */
  lemma {:induction false} TrimEmptyIff(s: string)
    ensures Trim(s) == [] <==> forall k :: 0 <= k < |s| ==> IsWhitespace(s[k])
  {
    var t := TrimStart(s);
    if Trim(s) == [] {
      assert TrimEnd(t) == [];
      assert t == [];
    }
  }

  /** Trimming twice is trimming once. */
  lemma TrimIdempotent(s: string)
    ensures Trim(Trim(s)) == Trim(s)
  {
    var r := Trim(s);
    assert TrimStart(r) == r;
    assert TrimEnd(r) == r;
  }

  /** `parts.map((p) => p.trim())`: every piece trimmed, in place. */
  function TrimEach(parts: seq<string>): (r: seq<string>)
    ensures |r| == |parts|
    ensures forall k :: 0 <= k < |r| ==> r[k] == Trim(parts[k])
    ensures forall x :: x in r ==> IsTrimmed(x)
  {
    seq(|parts|, k requires 0 <= k < |parts| => Trim(parts[k]))
  }

  /** ASCII `toLowerCase` of one character. */
  function LowerChar(c: char): char
  {
    if 'A' <= c <= 'Z' then (c as int + 32) as char else c
  }

  /** `toLowerCase`, modelled on ASCII letters (other characters are kept). */
  function ToLower(s: string): (r: string)
    ensures |r| == |s|
    ensures forall k :: 0 <= k < |s| ==> r[k] == LowerChar(s[k])
  {
    seq(|s|, k requires 0 <= k < |s| => LowerChar(s[k]))
  }

  /** A lower-cased string has no ASCII capital left, so lower-casing it again changes nothing. */
  lemma ToLowerIdempotent(s: string)
    ensures ToLower(ToLower(s)) == ToLower(s)
  {
  }

  /** `s.split(sep)` for a one-character separator: the pieces between separators, always at least one. */
  function Split(s: string, sep: char): (parts: seq<string>)
    ensures |parts| >= 1
    ensures forall k :: 0 <= k < |parts| ==> sep !in parts[k]
  {
    if s == [] then [[]]
    else
      var rest := Split(s[1..], sep);
      if s[0] == sep then [[]] + rest else [[s[0]] + rest[0]] + rest[1..]
  }

  /** `parts.join(sep)`. */
  function Join(parts: seq<string>, sep: char): string
  {
    if |parts| == 0 then []
    else if |parts| == 1 then parts[0]
    else parts[0] + [sep] + Join(parts[1..], sep)
  }

  /** Joining the pieces of a split with the same separator gives the original string back. */
  lemma {:induction false} JoinSplit(s: string, sep: char)
    ensures Join(Split(s, sep), sep) == s
  {
    if s != [] {
      var rest := Split(s[1..], sep);
      JoinSplit(s[1..], sep);
      if s[0] == sep {
        assert Split(s, sep) == [[]] + rest;
        assert ([[]] + rest)[1..] == rest;
      } else if |rest| == 1 {
        assert Split(s, sep) == [[s[0]] + rest[0]];
      } else {
        var parts := Split(s, sep);
        assert parts[1..] == rest[1..];
        assert Join(rest, sep) == rest[0] + [sep] + Join(rest[1..], sep);
      }
    }
  }

  /** Splitting a string that has no separator in it at one separator. */
  lemma {:induction false} SplitAround(a: string, b: string, sep: char)
    requires sep !in a
    ensures Split(a + [sep] + b, sep) == [a] + Split(b, sep)
  {
    if a == [] {
      assert ([] + [sep] + b)[1..] == b;
    } else {
      SplitAround(a[1..], b, sep);
      assert (a + [sep] + b)[1..] == a[1..] + [sep] + b;
      assert [a[0]] + a[1..] == a;
    }
  }

  /** A string without the separator splits into itself. */
  lemma {:induction false} SplitNoSeparator(a: string, sep: char)
    requires sep !in a
    ensures Split(a, sep) == [a]
  {
    if a != [] {
      SplitNoSeparator(a[1..], sep);
      assert [a[0]] + a[1..] == a;
    }
  }

  /** Splitting a join of separator-free pieces gives the pieces back. */
  lemma {:induction false} SplitJoin(parts: seq<string>, sep: char)
    requires |parts| >= 1
    requires forall k :: 0 <= k < |parts| ==> sep !in parts[k]
    ensures Split(Join(parts, sep), sep) == parts
  {
    if |parts| == 1 {
      SplitNoSeparator(parts[0], sep);
    } else {
      SplitJoin(parts[1..], sep);
      SplitAround(parts[0], Join(parts[1..], sep), sep);
      assert [parts[0]] + parts[1..] == parts;
    }
  }

  /** `s.startsWith(prefix)`. */
  predicate StartsWith(s: string, prefix: string)
  {
    prefix <= s
  }

  /** `s.includes(sub)`. */
  predicate Includes(s: string, sub: string)
  {
    sub <= s || (s != [] && Includes(s[1..], sub))
  }

  /** For a single character, `includes` is membership. */
  lemma {:induction false} IncludesChar(s: string, c: char)
    ensures Includes(s, [c]) <==> c in s
  {
    if s != [] {
      IncludesChar(s[1..], c);
      assert s == [s[0]] + s[1..];
    }
  }

  /** The first piece of a split is a prefix of the string, and is followed by the separator when there is one. */
  lemma {:induction false} SplitFirst(s: string, sep: char)
    ensures Split(s, sep)[0] <= s
    ensures sep in s ==> Split(s, sep)[0] + [sep] <= s
  {
    if s != [] && s[0] != sep {
      SplitFirst(s[1..], sep);
      assert s == [s[0]] + s[1..];
    }
  }

  /** `sub` occurs in `s` at position `i`. */
  predicate OccursAt(s: string, sub: string, i: int)
  {
    0 <= i <= |s| - |sub| && s[i..i + |sub|] == sub
  }

  /** `includes` holds exactly when `sub` occurs at some position of `s`. */
  lemma {:induction false} IncludesIff(s: string, sub: string)
    ensures Includes(s, sub) <==> exists i :: OccursAt(s, sub, i)
  {
    if sub <= s {
      assert OccursAt(s, sub, 0);
    } else if s == [] {
    } else {
      IncludesIff(s[1..], sub);
      if exists i :: OccursAt(s, sub, i) {
        var i :| OccursAt(s, sub, i);
        assert i != 0;
        OccursShift(s, sub, i - 1);
      }
      if exists i :: OccursAt(s[1..], sub, i) {
        var i :| OccursAt(s[1..], sub, i);
        OccursShift(s, sub, i);
      }
    }
  }

  /** `sub` occurs in `s` one place later than it occurs in `s` without its first character. */
  lemma OccursShift(s: string, sub: string, i: nat)
    requires s != []
    ensures OccursAt(s, sub, i + 1) <==> OccursAt(s[1..], sub, i)
  {
    var t := s[1..];
    if i + |sub| <= |t| {
      var a, b := s[i + 1..i + 1 + |sub|], t[i..i + |sub|];
      forall k | 0 <= k < |sub| ensures a[k] == b[k] {
        assert t[i + k] == s[i + 1 + k];
      }
      assert a == b;
    }
  }

  /** How `slice` turns a possibly negative index into a position within a sequence of length `len`. */
  function ClampIndex(i: int, len: nat): (r: nat)
    ensures r <= len
    ensures 0 <= i <= len ==> r == i
    ensures i > len ==> r == len
    ensures i < 0 ==> r == if len + i < 0 then 0 else len + i
  {
    if i < 0 then (if len + i < 0 then 0 else len + i) else if i > len then len else i
  }

  /** `s.slice(start, end)`: negative indices count from the end, indices past the end are clamped. */
  function Slice<T>(s: seq<T>, start: int, end: int): (r: seq<T>)
    ensures |r| <= |s|
    ensures var a, b := ClampIndex(start, |s|), ClampIndex(end, |s|);
            if a < b then r == s[a..b] else r == []
  {
    var a, b := ClampIndex(start, |s|), ClampIndex(end, |s|);
    if a < b then s[a..b] else []
  }

  /** For a non-negative window, `slice(start, start + n)` keeps at most `n` items, taken from `start` on. */
  lemma SliceWindow<T>(s: seq<T>, start: nat, n: nat)
    ensures |Slice(s, start, start + n)| <= n
    ensures start < |s| ==> Slice(s, start, start + n) == s[start..if start + n <= |s| then start + n else |s|]
    ensures start >= |s| ==> Slice(s, start, start + n) == []
  {
  }

  /** `w` is a window of `s`: at most `n` items, in order from `start`, and `n` of them when `s` has enough. */
  ghost predicate IsWindow<T>(w: seq<T>, s: seq<T>, start: nat, n: nat)
  {
    && |w| <= n
    && (forall k :: 0 <= k < |w| ==> start + k < |s| && w[k] == s[start + k])
    && (start + n <= |s| ==> |w| == n)
  }

  /** `s.slice(start, start + n)` is the window of `n` items of `s` from `start`. */
  lemma SliceItems<T>(s: seq<T>, start: nat, n: nat, w: seq<T>)
    requires w == Slice(s, start, start + n)
    ensures IsWindow(w, s, start, n)
  {
  }

  /**
   * `w = s.slice(start, start + n)` for any integers: its items come from `s`;
   * for non-negative arguments it has at most `n` of them, taken from `start`
   * on; and `slice(0, |s|)` is all of `s`.
   */
  lemma SliceWithin<T>(s: seq<T>, start: int, n: int, w: seq<T>)
    requires w == Slice(s, start, start + n)
    ensures forall k :: 0 <= k < |w| ==> w[k] in s
    ensures 0 <= start && 0 <= n ==> |w| <= n
    ensures 0 <= start < |s| && 0 <= n ==> w == s[start..if start + n <= |s| then start + n else |s|]
    ensures start == 0 && n == |s| ==> w == s
  {
    if 0 <= start && 0 <= n {
      SliceWindow(s, start, n);
    }
    if start == 0 && n == |s| {
      assert s[0..|s|] == s;
    }
  }

  /** Item `k` of `s` is in the window `s.slice(start, start + n)` when `start <= k < start + n`. */
  lemma SliceHolds<T>(s: seq<T>, start: nat, n: nat, w: seq<T>, k: nat)
    requires w == Slice(s, start, start + n)
    requires start <= k < start + n && k < |s|
    ensures s[k] in w
  {
    assert w[k - start] == s[k];
  }

  /** `String(n)` for an integer: its decimal digits, after a '-' when it is negative. */
  function NumberText(n: int): (r: string)
    ensures |r| >= 1
    ensures n >= 0 ==> forall k :: 0 <= k < |r| ==> '0' <= r[k] <= '9'
    ensures n < 0 ==> r[0] == '-'
    decreases if n < 0 then 1 - n else n
  {
    if n < 0 then "-" + NumberText(-n)
    else if n < 10 then [('0' as int + n) as char]
    else NumberText(n / 10) + [('0' as int + n % 10) as char]
  }
}
