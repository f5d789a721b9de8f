/**
 * The in-memory store's role helpers: `slugify`, permission-list
 * normalisation, and the lookups behind `resolveRoleId`.
 */
module RoleRules {
  import opened Wrappers
  import JsString
  import Seqs
  import Sorting

  /** A role definition of the in-memory store (times in milliseconds). */
  datatype RoleRecord = RoleRecord(
    id: string,
    churchId: string,
    slug: Option<string>,
    name: string,
    description: Option<string>,
    permissions: seq<string>,
    isSystem: bool,
    isDeletable: bool,
    createdAt: int,
    updatedAt: int)

  // ---------------------------------------------------------------- slugify

  /** The characters the pattern `[a-z0-9]` accepts. */
  predicate IsSlugChar(c: char)
  {
    'a' <= c <= 'z' || '0' <= c <= '9'
  }

  /** An ASCII letter or digit, before lower-casing. */
  predicate IsAsciiAlnum(c: char)
  {
    'a' <= c <= 'z' || 'A' <= c <= 'Z' || '0' <= c <= '9'
  }

  /** Only `[a-z0-9-]`, and never two hyphens in a row. */
  predicate SlugShaped(s: string)
  {
    && (forall k :: 0 <= k < |s| ==> IsSlugChar(s[k]) || s[k] == '-')
    && (forall k :: 0 <= k < |s| - 1 ==> !(s[k] == '-' && s[k + 1] == '-'))
  }

  /** Skips a leading run of characters outside `[a-z0-9]`. */
  function SkipRun(s: string): (r: string)
    ensures |r| <= |s| && r == s[|s| - |r|..]
    ensures r == [] || IsSlugChar(r[0])
    ensures forall k :: 0 <= k < |s| - |r| ==> !IsSlugChar(s[k])
  {
    if s != [] && !IsSlugChar(s[0]) then
      var r := SkipRun(s[1..]);
      assert s[1..][|s[1..]| - |r|..] == s[|s| - |r|..];
      assert forall k :: 1 <= k < |s| ==> s[k] == s[1..][k - 1];
      r
    else s
  }

  /** `replace(/[^a-z0-9]+/g, '-')`: every maximal run outside `[a-z0-9]` becomes one hyphen. */
  function CollapseRuns(s: string): (r: string)
    ensures SlugShaped(r)
    ensures r != [] && r[0] == '-' <==> s != [] && !IsSlugChar(s[0])
    ensures r == [] <==> s == []
    decreases |s|
  {
    if s == [] then []
    else if IsSlugChar(s[0]) then
      var tail := CollapseRuns(s[1..]);
      var r := [s[0]] + tail;
      assert forall k :: 0 <= k < |tail| ==> r[k + 1] == tail[k];
      r
    else
      var tail := CollapseRuns(SkipRun(s));
      var r := ['-'] + tail;
      assert forall k :: 0 <= k < |tail| ==> r[k + 1] == tail[k];
      r
  }

  /** `replace(/^-+/, '')`. */
  function DropLeadingHyphens(s: string): (r: string)
    ensures |r| <= |s| && r == s[|s| - |r|..]
    ensures r == [] || r[0] != '-'
    ensures forall k :: 0 <= k < |s| - |r| ==> s[k] == '-'
  {
    if s != [] && s[0] == '-' then
      var r := DropLeadingHyphens(s[1..]);
      assert s[1..][|s[1..]| - |r|..] == s[|s| - |r|..];
      assert forall k :: 1 <= k < |s| ==> s[k] == s[1..][k - 1];
      r
    else s
  }

  /** `replace(/-+$/, '')`. */
  function DropTrailingHyphens(s: string): (r: string)
    ensures |r| <= |s| && r == s[..|r|]
    ensures r == [] || r[|r| - 1] != '-'
    ensures forall k :: |r| <= k < |s| ==> s[k] == '-'
  {
    if s != [] && s[|s| - 1] == '-' then
      var r := DropTrailingHyphens(s[..|s| - 1]);
      assert s[..|s| - 1][..|r|] == s[..|r|];
      r
    else s
  }

  /** An infix of a slug-shaped string is slug-shaped. */
  lemma InfixSlugShaped(s: string, i: nat, n: nat)
    requires SlugShaped(s) && i + n <= |s|
    ensures SlugShaped(s[i..i + n])
  {
    var t := s[i..i + n];
    assert forall k :: 0 <= k < |t| ==> t[k] == s[i + k];
  }

  /** `slugify`: trim, lower-case, collapse runs outside `[a-z0-9]` into hyphens, strip end hyphens, keep 50 characters. */
  function Slugify(value: string): (r: string)
    ensures SlugShaped(r)
    ensures |r| <= 50
    ensures r == [] || r[0] != '-'
  {
    var collapsed := CollapseRuns(JsString.ToLower(JsString.Trim(value)));
    var led := DropLeadingHyphens(collapsed);
    var stripped := DropTrailingHyphens(led);
    var n := if |stripped| < 50 then |stripped| else 50;
    SlugSteps(collapsed, led, stripped, n);
    stripped[..n]
  }

  /** Stripping the ends of a slug-shaped string and keeping a prefix leaves it slug-shaped, and no hyphen leads. */
  lemma SlugSteps(collapsed: string, led: string, stripped: string, n: nat)
    requires SlugShaped(collapsed)
    requires |led| <= |collapsed| && led == collapsed[|collapsed| - |led|..] && (led == [] || led[0] != '-')
    requires |stripped| <= |led| && stripped == led[..|stripped|]
    requires n <= |stripped|
    ensures SlugShaped(stripped[..n]) && (n == 0 || stripped[0] != '-')
  {
    InfixSlugShaped(collapsed, |collapsed| - |led|, |led|);
    assert collapsed[|collapsed| - |led|..|collapsed| - |led| + |led|] == led;
    InfixSlugShaped(led, 0, |stripped|);
    assert led[0..|stripped|] == stripped;
    InfixSlugShaped(stripped, 0, n);
    assert stripped[0..n] == stripped[..n];
  }

  /** The slug keeps a hyphen at its end only when cutting at 50 characters left one there. */
  lemma SlugEndsWithHyphenOnlyWhenCut(value: string)
    ensures var r := Slugify(value); r != [] && r[|r| - 1] == '-' ==> |r| == 50
  {
  }

  // ---------------------------------------------------------- permissions

  /** Strictly ascending by the JavaScript string order, hence free of duplicates. */
  predicate StrictlyAscending(s: seq<string>)
  {
    forall i, j :: 0 <= i < j < |s| ==> Sorting.TextLess(s[i], s[j])
  }

  function TextKey(s: string): Sorting.SortKey
  {
    Sorting.Text(s)
  }

  predicate NonEmpty(s: string)
  {
    s != []
  }

  /** `Array.from(new Set(permissions.map(trim).filter(Boolean))).sort()`. */
  function NormalizePermissions(permissions: seq<string>): (r: seq<string>)
    ensures forall k :: 0 <= k < |r| ==> JsString.IsTrimmed(r[k]) && r[k] != []
    ensures StrictlyAscending(r)
    ensures forall k :: 0 <= k < |permissions| && JsString.Trim(permissions[k]) != [] ==> JsString.Trim(permissions[k]) in r
    ensures forall k :: 0 <= k < |r| ==> r[k] in JsString.TrimEach(permissions)
  {
    var trimmed := JsString.TrimEach(permissions);
    var r := Sorting.SortBy(Seqs.Dedupe(Seqs.Filter(trimmed, NonEmpty)), TextKey, false);
    NormalizedMembers(trimmed);
    r
  }

  /** What the filter, the de-duplication and the sort keep of a list of strings. */
  lemma NormalizedMembers(trimmed: seq<string>)
    ensures var r := Sorting.SortBy(Seqs.Dedupe(Seqs.Filter(trimmed, NonEmpty)), TextKey, false);
            && StrictlyAscending(r)
            && (forall k :: 0 <= k < |trimmed| && trimmed[k] != [] ==> trimmed[k] in r)
            && (forall k :: 0 <= k < |r| ==> r[k] in trimmed && r[k] != [])
  {
    var entries := Seqs.Filter(trimmed, NonEmpty);
    var distinct := Seqs.Dedupe(entries);
    var r := Sorting.SortBy(distinct, TextKey, false);
    Sorting.SortByMembers(distinct, TextKey, false);
    SortedDistinctAscending(distinct, r);
    forall k | 0 <= k < |trimmed| && trimmed[k] != [] ensures trimmed[k] in r {
      assert NonEmpty(trimmed[k]);
      var e :| 0 <= e < |entries| && entries[e] == trimmed[k];
      var d :| 0 <= d < |distinct| && distinct[d] == entries[e];
    }
    forall k | 0 <= k < |r| ensures r[k] in trimmed && r[k] != [] {
      var d :| 0 <= d < |distinct| && distinct[d] == r[k];
      var e :| 0 <= e < |entries| && entries[e] == distinct[d];
      assert NonEmpty(entries[e]);
    }
  }

  /** Sorting a duplicate-free list of strings gives a strictly ascending list. */
  lemma SortedDistinctAscending(distinct: seq<string>, r: seq<string>)
    requires Seqs.NoDuplicates(distinct)
    requires multiset(r) == multiset(distinct) && Sorting.Sorted(r, TextKey, false)
    ensures StrictlyAscending(r)
  {
    forall i, j | 0 <= i < j < |r| ensures Sorting.TextLess(r[i], r[j]) {
      assert !Sorting.Before(TextKey, false, r[j], r[i]);
      if r[i] == r[j] {
        CountTwo(r, i, j);
        DistinctCount(distinct, r[i]);
        assert false;
      }
      Sorting.TextLessTotal(r[i], r[j]);
    }
  }

  /** A value at two positions is counted twice. */
  lemma CountTwo(r: seq<string>, i: nat, j: nat)
    requires i < j < |r| && r[i] == r[j]
    ensures multiset(r)[r[i]] >= 2
  {
    assert r == r[..j] + r[j..];
    assert r[i] in r[..j];
    assert r[j] in r[j..];
    assert multiset(r) == multiset(r[..j]) + multiset(r[j..]);
  }

  /** A duplicate-free sequence holds each value at most once. */
  lemma {:induction false} DistinctCount(s: seq<string>, x: string)
    requires Seqs.NoDuplicates(s)
    ensures multiset(s)[x] <= 1
  {
    if s != [] {
      var init := s[..|s| - 1];
      assert s == init + [s[|s| - 1]];
      DistinctCount(init, x);
      if x == s[|s| - 1] {
        assert x !in init;
      }
    }
  }

  // -------------------------------------------------------------- lookups

  /** `role.slug?.toLowerCase() === wanted.toLowerCase()`. */
  predicate SlugIs(role: RoleRecord, wanted: string)
  {
    role.slug.Some? && JsString.ToLower(role.slug.value) == JsString.ToLower(wanted)
  }

  /** `getDefaultRoleId`: the role with that slug, else the first role, else `role-<slug>`. */
  function DefaultRoleId(roles: seq<RoleRecord>, slug: string): (id: string)
    ensures (exists k :: 0 <= k < |roles| && SlugIs(roles[k], slug)) ==>
              exists k :: 0 <= k < |roles| && SlugIs(roles[k], slug) && roles[k].id == id
    ensures (forall k :: 0 <= k < |roles| ==> !SlugIs(roles[k], slug)) && roles != [] ==> id == roles[0].id
    ensures roles == [] ==> id == "role-" + slug
  {
    match Seqs.FirstIndex(roles, (r: RoleRecord) => SlugIs(r, slug))
    case Some(k) => roles[k].id
    case None => if roles != [] then roles[0].id else "role-" + slug
  }

  /**
   * `resolveRoleId`: an empty identifier means the default member role; otherwise
   * the role with that id, then with that slug, then with that name (both
   * case-insensitively), and the default member role when nothing matches.
   */
  function ResolveRoleId(roles: seq<RoleRecord>, identifier: Option<string>): (id: string)
    ensures identifier.None? || identifier.value == [] ==> id == DefaultRoleId(roles, "member")
    ensures identifier.Some? && identifier.value != [] && (exists k :: 0 <= k < |roles| && roles[k].id == identifier.value) ==> id == identifier.value
    ensures roles != [] ==> exists k :: 0 <= k < |roles| && roles[k].id == id
    ensures roles == [] ==> id == "role-member"
  {
    if identifier.None? || identifier.value == [] then DefaultRoleId(roles, "member")
    else
      var wanted := identifier.value;
      var lowered := JsString.ToLower(wanted);
      match Seqs.FirstIndex(roles, (r: RoleRecord) => r.id == wanted)
      case Some(k) => roles[k].id
      case None =>
        match Seqs.FirstIndex(roles, (r: RoleRecord) => r.slug.Some? && JsString.ToLower(r.slug.value) == lowered)
        case Some(k) => roles[k].id
        case None =>
          match Seqs.FirstIndex(roles, (r: RoleRecord) => JsString.ToLower(r.name) == lowered)
          case Some(k) => roles[k].id
          case None => DefaultRoleId(roles, "member")
  }

  /** A name equal, ignoring ASCII case, to the name of a role of `churchId` other than `exceptId`. */
  predicate NameTaken(roles: seq<RoleRecord>, churchId: string, name: string, exceptId: Option<string>)
  {
    exists k :: 0 <= k < |roles| && Some(roles[k].id) != exceptId && roles[k].churchId == churchId
                && JsString.ToLower(roles[k].name) == JsString.ToLower(name)
  }
}
