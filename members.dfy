/**
 * The member directory: `listMembers` narrows the church's users through a
 * chain of optional filters (search, status, role, email, phone, group count,
 * last attendance), optionally sorts them by one field, cuts out one page and
 * maps each user to a summary with badges. The current time, the time the
 * query took, the ISO text of "now" and the parsing of date strings are
 * parameters.
 */
module Members {
  import opened Wrappers
  import opened Json
  import JsString
  import Seqs
  import Sorting
  import AuditLogs

  type Time = int

  datatype MemberRole = MemberRole(name: string, slug: string)
  datatype GroupRef = GroupRef(id: string, name: string)

  /** A user as the data store lists it; absent and `null` fields are both `None`. */
  datatype MemberUser = MemberUser(
    id: string, firstName: string, lastName: string,
    primaryEmail: Option<string>, phone: Option<string>, status: Option<string>,
    roles: seq<MemberRole>, groups: seq<GroupRef>,
    lastAttendance: Option<string>, createdAt: Option<string>)

  /** The query string of `GET /members`. */
  datatype MemberQuery = MemberQuery(
    page: Option<int>, limit: Option<int>, search: Option<string>, status: Option<string>,
    role: Option<string>, hasEmail: Option<bool>, hasPhone: Option<bool>,
    groupsCountMin: Option<int>, lastAttendance: Option<string>, sort: Option<string>)

  datatype MemberSummary = MemberSummary(
    id: string, firstName: string, lastName: string,
    email: Option<string>, phone: Option<string>, status: string, roles: seq<string>,
    lastAttendance: Option<string>, groupsCount: nat, groups: seq<GroupRef>,
    badges: seq<string>, createdAt: string)

  datatype Pagination = Pagination(page: int, limit: int, total: nat, pages: int)

  datatype MemberListResponse = MemberListResponse(
    data: seq<MemberSummary>, pagination: Pagination, queryTime: int, filters: map<string, Json>)

  const DefaultPage := 1
  const DefaultLimit := 25
  const MsPerDay := 1000 * 60 * 60 * 24

  // ---------------------------------------------------------------------------
  // The filter stages
  // ---------------------------------------------------------------------------

  function FullName(u: MemberUser): string
  {
    u.firstName + " " + u.lastName
  }

  /** `value?.toLowerCase() || ''`. */
  function LowerOrEmpty(o: Option<string>): string
  {
    if o.Some? then JsString.ToLower(o.value) else ""
  }

  /** `user.status?.toLowerCase() || 'active'`: a missing or empty status reads as 'active'. */
  function StatusOf(u: MemberUser): (s: string)
    ensures s != ""
    ensures !AuditLogs.Truthy(u.status) ==> s == "active"
    ensures AuditLogs.Truthy(u.status) ==> s == JsString.ToLower(u.status.value)
  {
    var lower := LowerOrEmpty(u.status);
    if lower == "" then "active" else lower
  }

  /** The pieces of a comma-separated query value, each trimmed and lower-cased. */
  function Normalized(parts: seq<string>): (r: seq<string>)
    ensures |r| == |parts|
    ensures forall k :: 0 <= k < |parts| ==> r[k] == JsString.ToLower(JsString.Trim(parts[k]))
  {
    seq(|parts|, k requires 0 <= k < |parts| => JsString.ToLower(JsString.Trim(parts[k])))
  }

  function ListedValues(csv: string): seq<string>
  {
    Normalized(JsString.Split(csv, ','))
  }

  /** The lower-cased names of a user's roles. */
  function RoleNames(roles: seq<MemberRole>): (r: seq<string>)
    ensures |r| == |roles|
    ensures forall k :: 0 <= k < |roles| ==> r[k] == JsString.ToLower(roles[k].name)
  {
    seq(|roles|, k requires 0 <= k < |roles| => JsString.ToLower(roles[k].name))
  }

  /** Search: the lower-cased needle occurs in the lower-cased "first last", email or phone. */
  predicate PassesSearch(u: MemberUser, q: MemberQuery)
  {
    AuditLogs.Truthy(q.search) ==>
      var needle := JsString.ToLower(q.search.value);
      || JsString.Includes(JsString.ToLower(FullName(u)), needle)
      || JsString.Includes(LowerOrEmpty(u.primaryEmail), needle)
      || JsString.Includes(LowerOrEmpty(u.phone), needle)
  }

  /** Status: the user's status (or 'active') is one of the listed values. */
  predicate PassesStatus(u: MemberUser, q: MemberQuery)
  {
    AuditLogs.Truthy(q.status) ==> StatusOf(u) in ListedValues(q.status.value)
  }

  /** Role: some role name of the user is listed. */
  predicate PassesRole(u: MemberUser, q: MemberQuery)
  {
    AuditLogs.Truthy(q.role) ==>
      exists k :: 0 <= k < |ListedValues(q.role.value)| && ListedValues(q.role.value)[k] in RoleNames(u.roles)
  }

  predicate PassesHasEmail(u: MemberUser, q: MemberQuery)
  {
    q.hasEmail.Some? ==> AuditLogs.Truthy(u.primaryEmail) == q.hasEmail.value
  }

  predicate PassesHasPhone(u: MemberUser, q: MemberQuery)
  {
    q.hasPhone.Some? ==> AuditLogs.Truthy(u.phone) == q.hasPhone.value
  }

  predicate PassesGroupsCount(u: MemberUser, q: MemberQuery)
  {
    q.groupsCountMin.Some? ==> |u.groups| >= q.groupsCountMin.value
  }

  /** The day limit of a last-attendance bucket; any other value has none. */
  function BucketDays(bucket: string): (days: Option<int>)
    ensures days.Some? <==> bucket in {"7d", "30d", "60d", "90d"}
  {
    if bucket == "7d" then Some(7)
    else if bucket == "30d" then Some(30)
    else if bucket == "60d" then Some(60)
    else if bucket == "90d" then Some(90)
    else None
  }

  /** Whole days from `at` to `now`, rounded down. */
  function DaysSince(now: Time, at: Time): int
  {
    (now - at) / MsPerDay
  }

  /**
   * Last attendance: 'never' keeps the users without one; a day bucket keeps
   * the users who attended at most that many whole days ago.
   */
  predicate PassesLastAttendance(u: MemberUser, q: MemberQuery, now: Time, parseTime: string -> Time)
  {
    AuditLogs.Truthy(q.lastAttendance) ==>
      if q.lastAttendance.value == "never" then !AuditLogs.Truthy(u.lastAttendance)
      else
        && AuditLogs.Truthy(u.lastAttendance)
        && BucketDays(q.lastAttendance.value).Some?
        && DaysSince(now, parseTime(u.lastAttendance.value)) <= BucketDays(q.lastAttendance.value).value
  }

  /** A wider bucket keeps everyone a narrower one keeps, and no user is both 'never' and in a bucket. */
  lemma BucketsNest(u: MemberUser, q: MemberQuery, now: Time, parseTime: string -> Time, narrow: string, wide: string)
    requires BucketDays(narrow).Some? && BucketDays(wide).Some? && BucketDays(narrow).value <= BucketDays(wide).value
    ensures PassesLastAttendance(u, q.(lastAttendance := Some(narrow)), now, parseTime)
        ==> PassesLastAttendance(u, q.(lastAttendance := Some(wide)), now, parseTime)
    ensures !(PassesLastAttendance(u, q.(lastAttendance := Some(narrow)), now, parseTime)
              && PassesLastAttendance(u, q.(lastAttendance := Some("never")), now, parseTime))
  {
  }

  /** Every filter the query sets lets the user through. */
  predicate PassesAll(u: MemberUser, q: MemberQuery, now: Time, parseTime: string -> Time)
  {
    && PassesSearch(u, q) && PassesStatus(u, q) && PassesRole(u, q)
    && PassesHasEmail(u, q) && PassesHasPhone(u, q) && PassesGroupsCount(u, q)
    && PassesLastAttendance(u, q, now, parseTime)
  }

  function Kept(q: MemberQuery, now: Time, parseTime: string -> Time): MemberUser -> bool
  {
    u => PassesAll(u, q, now, parseTime)
  }

  /** The users left after every filter stage. */
  function Filtered(users: seq<MemberUser>, q: MemberQuery, now: Time, parseTime: string -> Time): seq<MemberUser>
  {
    Seqs.Filter(users, Kept(q, now, parseTime))
  }

  /** The stages only remove users: a user is left exactly when listed and passing every stage, in list order. */
  lemma FilteredFacts(users: seq<MemberUser>, q: MemberQuery, now: Time, parseTime: string -> Time)
    ensures var r := Filtered(users, q, now, parseTime);
            && Seqs.IsSubsequence(r, users)
            && (forall u :: u in r <==> u in users && PassesAll(u, q, now, parseTime))
  {
    Seqs.FilterIsSubsequence(users, Kept(q, now, parseTime));
    forall u ensures u in Filtered(users, q, now, parseTime) <==> u in users && PassesAll(u, q, now, parseTime) {
      Seqs.FilterMembers(users, Kept(q, now, parseTime), u);
    }
  }

  /** A query that sets no filter keeps every user. */
  lemma NoFiltersKeepsEveryone(users: seq<MemberUser>, q: MemberQuery, now: Time, parseTime: string -> Time)
    requires !AuditLogs.Truthy(q.search) && !AuditLogs.Truthy(q.status) && !AuditLogs.Truthy(q.role)
    requires q.hasEmail.None? && q.hasPhone.None? && q.groupsCountMin.None? && !AuditLogs.Truthy(q.lastAttendance)
    ensures Filtered(users, q, now, parseTime) == users
  {
    Seqs.FilterIsSubsequence(users, Kept(q, now, parseTime));
  }

  /** A user without a status passes a status filter that lists 'active' (in any case, with spaces). */
  lemma MissingStatusCountsAsActive(u: MemberUser, q: MemberQuery)
    requires !AuditLogs.Truthy(u.status) && AuditLogs.Truthy(q.status)
    ensures PassesStatus(u, q) <==> "active" in ListedValues(q.status.value)
  {
  }

  /** The search ignores case on both sides: a needle and its lower-cased form select the same users. */
  lemma SearchIgnoresCase(u: MemberUser, q: MemberQuery, search: string)
    requires q.search == Some(search) && search != ""
    ensures PassesSearch(u, q) == PassesSearch(u, q.(search := Some(JsString.ToLower(search))))
  {
    JsString.ToLowerIdempotent(search);
    assert |JsString.ToLower(search)| == |search|;
  }

  // ---------------------------------------------------------------------------
  // Sorting
  // ---------------------------------------------------------------------------

  /** `sort.split(':')`: the field and whether the direction is 'desc'. */
  function SortField(sort: string): string
  {
    JsString.Split(sort, ':')[0]
  }

  predicate SortDescending(sort: string)
  {
    var parts := JsString.Split(sort, ':');
    |parts| > 1 && parts[1] == "desc"
  }

  /** A present date string parsed to milliseconds, 0 otherwise. */
  function TimeOr0(o: Option<string>, parseTime: string -> Time): Time
  {
    if AuditLogs.Truthy(o) then parseTime(o.value) else 0
  }

  /** The value the comparator looks at for a sort field; an unknown field gives every user the same key. */
  function FieldKey(field: string, parseTime: string -> Time): MemberUser -> Sorting.SortKey
  {
    u =>
      if field == "name" then Sorting.Text(JsString.ToLower(FullName(u)))
      else if field == "email" then Sorting.Text(LowerOrEmpty(u.primaryEmail))
      else if field == "status" then Sorting.Text(StatusOf(u))
      else if field == "lastAttendance" then Sorting.Num(TimeOr0(u.lastAttendance, parseTime))
      else if field == "groupsCount" then Sorting.Num(|u.groups|)
      else if field == "createdAt" then Sorting.Num(TimeOr0(u.createdAt, parseTime))
      else Sorting.Text("")
  }

  predicate KnownField(field: string)
  {
    field in {"name", "email", "status", "lastAttendance", "groupsCount", "createdAt"}
  }

  /** The users in the order the query asks for; without a sort they keep their order. */
  function Ordered(s: seq<MemberUser>, sort: Option<string>, parseTime: string -> Time): seq<MemberUser>
  {
    if AuditLogs.Truthy(sort) then Sorting.SortBy(s, FieldKey(SortField(sort.value), parseTime), SortDescending(sort.value))
    else s
  }

  /**
   * Sorting rearranges the users and nothing else; a known field orders them by
   * its key (reversed by ':desc'); no sort, or an unknown field, keeps the order.
   */
  lemma OrderedFacts(s: seq<MemberUser>, sort: Option<string>, parseTime: string -> Time)
    ensures multiset(Ordered(s, sort, parseTime)) == multiset(s)
    ensures AuditLogs.Truthy(sort) ==>
              Sorting.Sorted(Ordered(s, sort, parseTime), FieldKey(SortField(sort.value), parseTime), SortDescending(sort.value))
    ensures !AuditLogs.Truthy(sort) || !KnownField(SortField(sort.value)) ==> Ordered(s, sort, parseTime) == s
  {
    if AuditLogs.Truthy(sort) && !KnownField(SortField(sort.value)) {
      var key, desc := FieldKey(SortField(sort.value), parseTime), SortDescending(sort.value);
      forall i, j | 0 <= i < |s| && 0 <= j < |s| ensures !Sorting.Before(key, desc, s[i], s[j]) {
        Sorting.TextLessIrreflexive("");
      }
      Sorting.SortByKeepsOrder(s, key, desc);
    }
  }

  /** Sorting on 'groupsCount' orders by the number of groups: most first with ':desc', fewest first otherwise. */
  lemma SortByGroupsCount(s: seq<MemberUser>, sort: string, parseTime: string -> Time)
    requires SortField(sort) == "groupsCount"
    ensures var r := Ordered(s, Some(sort), parseTime);
            forall i, j :: 0 <= i < j < |r| ==>
              if SortDescending(sort) then |r[i].groups| >= |r[j].groups| else |r[i].groups| <= |r[j].groups|
  {
    assert sort != "";
    var key, desc := FieldKey("groupsCount", parseTime), SortDescending(sort);
    var r := Ordered(s, Some(sort), parseTime);
    forall i, j | 0 <= i < j < |r|
      ensures if desc then |r[i].groups| >= |r[j].groups| else |r[i].groups| <= |r[j].groups|
    {
      assert !Sorting.Before(key, desc, r[j], r[i]);
    }
  }

  /** The pieces of "field:direction" when neither part holds a ':'. */
  lemma SortParts(field: string, direction: string)
    requires ':' !in field && ':' !in direction
    ensures SortField(field + [':'] + direction) == field
    ensures SortDescending(field + [':'] + direction) <==> direction == "desc"
  {
    JsString.SplitAround(field, direction, ':');
    JsString.SplitNoSeparator(direction, ':');
  }

  /** 'groupsCount:desc' puts the members with the most groups first. */
  lemma SortByGroupsCountDesc(s: seq<MemberUser>, parseTime: string -> Time)
    ensures var r := Ordered(s, Some("groupsCount:desc"), parseTime);
            forall i, j :: 0 <= i < j < |r| ==> |r[i].groups| >= |r[j].groups|
  {
    SortParts("groupsCount", "desc");
    assert "groupsCount" + [':'] + "desc" == "groupsCount:desc";
    SortByGroupsCount(s, "groupsCount:desc", parseTime);
  }

  /** 'name:asc' orders the users by lower-cased full name: no later name compares below an earlier one. */
  lemma SortByName(s: seq<MemberUser>, parseTime: string -> Time)
    ensures var r := Ordered(s, Some("name:asc"), parseTime);
            forall i, j :: 0 <= i < j < |r| ==>
              !Sorting.TextLess(JsString.ToLower(FullName(r[j])), JsString.ToLower(FullName(r[i])))
  {
    SortParts("name", "asc");
    assert "name" + [':'] + "asc" == "name:asc";
    var r := Ordered(s, Some("name:asc"), parseTime);
    forall i, j | 0 <= i < j < |r|
      ensures !Sorting.TextLess(JsString.ToLower(FullName(r[j])), JsString.ToLower(FullName(r[i])))
    {
      assert !Sorting.Before(FieldKey("name", parseTime), false, r[j], r[i]);
    }
  }

  // ---------------------------------------------------------------------------
  // Pagination
  // ---------------------------------------------------------------------------

  /** `query.page || 1`. */
  function PageOf(q: MemberQuery): (page: int)
    ensures page != 0
    ensures AuditLogs.TruthyNumber(q.page) ==> page == q.page.value
    ensures !AuditLogs.TruthyNumber(q.page) ==> page == DefaultPage
  {
    if AuditLogs.TruthyNumber(q.page) then q.page.value else DefaultPage
  }

  /** `query.limit || 25`. */
  function LimitOf(q: MemberQuery): (limit: int)
    ensures limit != 0
    ensures AuditLogs.TruthyNumber(q.limit) ==> limit == q.limit.value
    ensures !AuditLogs.TruthyNumber(q.limit) ==> limit == DefaultLimit
  {
    if AuditLogs.TruthyNumber(q.limit) then q.limit.value else DefaultLimit
  }

  /** `Math.ceil(a / b)`: the least whole number at least a/b. */
  function CeilDiv(a: nat, b: int): (r: int)
    requires b != 0
    ensures b > 0 ==> (r - 1) * b < a <= r * b
    ensures b < 0 ==> r * b <= a < (r - 1) * b
  {
    if b > 0 then
      var q, m := a / b, a % b;
      assert a == q * b + m;
      if m == 0 then q else q + 1
    else
      var q, m := a / -b, a % -b;
      assert a == q * -b + m;
      -q
  }

  /** The summaries of the users shown, in order. */
  function Summaries(us: seq<MemberUser>, nowIso: string): (r: seq<MemberSummary>)
    ensures |r| == |us|
    ensures forall k :: 0 <= k < |us| ==> r[k] == SummaryOf(us[k], nowIso)
  {
    seq(|us|, k requires 0 <= k < |us| => SummaryOf(us[k], nowIso))
  }

  function PageOffset(q: MemberQuery): int
  {
    (PageOf(q) - 1) * LimitOf(q)
  }

  /** The users on the requested page, in the requested order. */
  function PageUsers(users: seq<MemberUser>, q: MemberQuery, now: Time, parseTime: string -> Time): seq<MemberUser>
  {
    var offset := PageOffset(q);
    JsString.Slice(Ordered(Filtered(users, q, now, parseTime), q.sort, parseTime), offset, offset + LimitOf(q))
  }

  /** Where the requested page starts: never before the first user for a valid page and limit. */
  lemma OffsetNonNegative(q: MemberQuery)
    requires PageOf(q) >= 1 && LimitOf(q) >= 1
    ensures PageOffset(q) >= 0
  {
    AuditLogs.MulNonNegative(PageOf(q) - 1, LimitOf(q));
  }

  /**
   * A page of a valid query (page and limit at least 1) holds at most `limit`
   * users: the consecutive run of the ordered, filtered users that starts at
   * `(page - 1) * limit`, a full page whenever enough users follow the offset.
   */
  lemma PageWindowFacts(users: seq<MemberUser>, q: MemberQuery, now: Time, parseTime: string -> Time)
    requires PageOf(q) >= 1 && LimitOf(q) >= 1
    ensures var ordered := Ordered(Filtered(users, q, now, parseTime), q.sort, parseTime);
            var page, offset, limit := PageUsers(users, q, now, parseTime), PageOffset(q), LimitOf(q);
            && offset >= 0
            && JsString.IsWindow(page, ordered, offset, limit)
  {
    OffsetNonNegative(q);
    var ordered := Ordered(Filtered(users, q, now, parseTime), q.sort, parseTime);
    JsString.SliceItems(ordered, PageOffset(q), LimitOf(q), PageUsers(users, q, now, parseTime));
  }

  /** Every user on a page is a listed user that passes every filter the query sets. */
  lemma PageMembers(users: seq<MemberUser>, q: MemberQuery, now: Time, parseTime: string -> Time, u: MemberUser)
    requires u in PageUsers(users, q, now, parseTime)
    ensures u in users && PassesAll(u, q, now, parseTime)
  {
    var filtered := Filtered(users, q, now, parseTime);
    var ordered := Ordered(filtered, q.sort, parseTime);
    assert u in ordered;
    OrderedFacts(filtered, q.sort, parseTime);
    assert u in multiset(ordered);
    FilteredFacts(users, q, now, parseTime);
  }

  // ---------------------------------------------------------------------------
  // Summaries
  // ---------------------------------------------------------------------------

  predicate HasRoleSlug(roles: seq<MemberRole>, slug: string)
  {
    exists k :: 0 <= k < |roles| && roles[k].slug == slug
  }

  /** 'Admin' and 'Leader' by role slug, then 'Active Member' for more than five groups. */
  function Badges(u: MemberUser): (b: seq<string>)
    ensures "Admin" in b <==> HasRoleSlug(u.roles, "admin")
    ensures "Leader" in b <==> HasRoleSlug(u.roles, "leader")
    ensures "Active Member" in b <==> |u.groups| > 5
    ensures Seqs.NoDuplicates(b) && |b| <= 3
  {
    (if HasRoleSlug(u.roles, "admin") then ["Admin"] else [])
    + (if HasRoleSlug(u.roles, "leader") then ["Leader"] else [])
    + (if |u.groups| > 5 then ["Active Member"] else [])
  }

  function RoleNamesAsGiven(roles: seq<MemberRole>): (r: seq<string>)
    ensures |r| == |roles|
    ensures forall k :: 0 <= k < |roles| ==> r[k] == roles[k].name
  {
    if roles == [] then [] else RoleNamesAsGiven(roles[..|roles| - 1]) + [roles[|roles| - 1].name]
  }

  /** `value || null`. */
  function OrNull(o: Option<string>): (r: Option<string>)
    ensures r.Some? <==> AuditLogs.Truthy(o)
    ensures r.Some? ==> r.value == o.value && r.value != ""
  {
    if AuditLogs.Truthy(o) then o else None
  }

  /**
   * The summary of one user: empty email, phone and last attendance become
   * null, a missing status reads 'active', a missing creation time is now.
   */
  function SummaryOf(u: MemberUser, nowIso: string): (m: MemberSummary)
    ensures m.id == u.id && m.firstName == u.firstName && m.lastName == u.lastName
    ensures m.email == OrNull(u.primaryEmail) && m.phone == OrNull(u.phone)
    ensures m.lastAttendance == OrNull(u.lastAttendance)
    ensures m.status == (if AuditLogs.Truthy(u.status) then u.status.value else "active")
    ensures m.groupsCount == |u.groups| && m.groups == u.groups
    ensures |m.roles| == |u.roles| && forall k :: 0 <= k < |u.roles| ==> m.roles[k] == u.roles[k].name
    ensures m.badges == Badges(u)
    ensures m.createdAt == (if AuditLogs.Truthy(u.createdAt) then u.createdAt.value else nowIso)
  {
    MemberSummary(
      u.id, u.firstName, u.lastName, OrNull(u.primaryEmail), OrNull(u.phone),
      if AuditLogs.Truthy(u.status) then u.status.value else "active",
      RoleNamesAsGiven(u.roles), OrNull(u.lastAttendance), |u.groups|, u.groups, Badges(u),
      if AuditLogs.Truthy(u.createdAt) then u.createdAt.value else nowIso)
  }

  // ---------------------------------------------------------------------------
  // The active filters
  // ---------------------------------------------------------------------------

  function Strings(parts: seq<string>): (r: seq<Json>)
    ensures |r| == |parts|
    ensures forall k :: 0 <= k < |parts| ==> r[k] == JString(parts[k])
  {
    if parts == [] then [] else Strings(parts[..|parts| - 1]) + [JString(parts[|parts| - 1])]
  }

  /** `key` is reported with `value`. */
  predicate Reports(f: map<string, Json>, key: string, value: Json)
  {
    key in f && f[key] == value
  }

  function SplitList(s: string): Json
  {
    JArray(Strings(JsString.Split(s, ',')))
  }

  const FilterKeys := {"search", "status", "role", "lastAttendance", "groupsCountMin", "hasEmail", "hasPhone"}

  /** The filters a response reports: exactly the ones the query sets, with status and role split on ','. */
  predicate DescribesQuery(f: map<string, Json>, q: MemberQuery)
  {
    && f.Keys <= FilterKeys
    && (if AuditLogs.Truthy(q.search) then Reports(f, "search", JString(q.search.value)) else "search" !in f)
    && (if AuditLogs.Truthy(q.status) then Reports(f, "status", SplitList(q.status.value)) else "status" !in f)
    && (if AuditLogs.Truthy(q.role) then Reports(f, "role", SplitList(q.role.value)) else "role" !in f)
    && (if AuditLogs.Truthy(q.lastAttendance) then Reports(f, "lastAttendance", JString(q.lastAttendance.value))
        else "lastAttendance" !in f)
    && (if q.groupsCountMin.Some? then Reports(f, "groupsCountMin", JNumber(q.groupsCountMin.value))
        else "groupsCountMin" !in f)
    && (if q.hasEmail.Some? then Reports(f, "hasEmail", JBool(q.hasEmail.value)) else "hasEmail" !in f)
    && (if q.hasPhone.Some? then Reports(f, "hasPhone", JBool(q.hasPhone.value)) else "hasPhone" !in f)
  }

  /** The text filters of a query, reported as `buildActiveFilters` reports them: the first four keys. */
  predicate DescribesTextFilters(f: map<string, Json>, q: MemberQuery)
  {
    && f.Keys <= {"search", "status", "role", "lastAttendance"}
    && (if AuditLogs.Truthy(q.search) then Reports(f, "search", JString(q.search.value)) else "search" !in f)
    && (if AuditLogs.Truthy(q.status) then Reports(f, "status", SplitList(q.status.value)) else "status" !in f)
    && (if AuditLogs.Truthy(q.role) then Reports(f, "role", SplitList(q.role.value)) else "role" !in f)
    && (if AuditLogs.Truthy(q.lastAttendance) then Reports(f, "lastAttendance", JString(q.lastAttendance.value))
        else "lastAttendance" !in f)
  }

  /** `buildActiveFilters`: one key per filter the query sets. */
  method BuildActiveFilters(q: MemberQuery) returns (filters: map<string, Json>)
    ensures DescribesQuery(filters, q)
  {
    filters := TextFilters(q);
    if q.groupsCountMin.Some? {
      filters := filters["groupsCountMin" := JNumber(q.groupsCountMin.value)];
    }
    if q.hasEmail.Some? {
      filters := filters["hasEmail" := JBool(q.hasEmail.value)];
    }
    if q.hasPhone.Some? {
      filters := filters["hasPhone" := JBool(q.hasPhone.value)];
    }
  }

  /** The first four steps of `buildActiveFilters`: search, status, role and last attendance. */
  method TextFilters(q: MemberQuery) returns (filters: map<string, Json>)
    ensures DescribesTextFilters(filters, q)
  {
    filters := map[];
    if AuditLogs.Truthy(q.search) {
      filters := filters["search" := JString(q.search.value)];
    }
    if AuditLogs.Truthy(q.status) {
      filters := filters["status" := SplitList(q.status.value)];
    }
    if AuditLogs.Truthy(q.role) {
      filters := filters["role" := SplitList(q.role.value)];
    }
    if AuditLogs.Truthy(q.lastAttendance) {
      filters := filters["lastAttendance" := JString(q.lastAttendance.value)];
    }
  }

  /** The reported status list holds the query's pieces, which join back into the query text. */
  lemma ReportedStatusRoundTrip(f: map<string, Json>, q: MemberQuery)
    requires DescribesQuery(f, q) && AuditLogs.Truthy(q.status)
    ensures "status" in f && f["status"].JArray?
    ensures |f["status"].items| == |JsString.Split(q.status.value, ',')|
    ensures forall k :: 0 <= k < |f["status"].items| ==> f["status"].items[k] == JString(JsString.Split(q.status.value, ',')[k])
    ensures JsString.Join(JsString.Split(q.status.value, ','), ',') == q.status.value
  {
    JsString.JoinSplit(q.status.value, ',');
  }

  // ---------------------------------------------------------------------------
  // listMembers
  // ---------------------------------------------------------------------------

  /** The first `n` filter stages, in the order `listMembers` applies them, let the user through. */
  predicate PassesFirst(u: MemberUser, q: MemberQuery, now: Time, parseTime: string -> Time, n: nat)
  {
    && (n >= 1 ==> PassesSearch(u, q))
    && (n >= 2 ==> PassesStatus(u, q))
    && (n >= 3 ==> PassesRole(u, q))
    && (n >= 4 ==> PassesHasEmail(u, q))
    && (n >= 5 ==> PassesHasPhone(u, q))
    && (n >= 6 ==> PassesGroupsCount(u, q))
    && (n >= 7 ==> PassesLastAttendance(u, q, now, parseTime))
  }

  function KeptFirst(q: MemberQuery, now: Time, parseTime: string -> Time, n: nat): MemberUser -> bool
  {
    u => PassesFirst(u, q, now, parseTime, n)
  }

  function SearchStage(q: MemberQuery): MemberUser -> bool { u => PassesSearch(u, q) }
  function StatusStage(q: MemberQuery): MemberUser -> bool { u => PassesStatus(u, q) }
  function RoleStage(q: MemberQuery): MemberUser -> bool { u => PassesRole(u, q) }
  function HasEmailStage(q: MemberQuery): MemberUser -> bool { u => PassesHasEmail(u, q) }
  function HasPhoneStage(q: MemberQuery): MemberUser -> bool { u => PassesHasPhone(u, q) }
  function GroupsCountStage(q: MemberQuery): MemberUser -> bool { u => PassesGroupsCount(u, q) }
  function LastAttendanceStage(q: MemberQuery, now: Time, parseTime: string -> Time): MemberUser -> bool
  {
    u => PassesLastAttendance(u, q, now, parseTime)
  }

  /** Stage `n` (counting from 0) of the chain, and whether the query sets it. */
  function StageAt(q: MemberQuery, now: Time, parseTime: string -> Time, n: nat): MemberUser -> bool
  {
    if n == 0 then SearchStage(q) else if n == 1 then StatusStage(q) else if n == 2 then RoleStage(q)
    else if n == 3 then HasEmailStage(q) else if n == 4 then HasPhoneStage(q) else if n == 5 then GroupsCountStage(q)
    else LastAttendanceStage(q, now, parseTime)
  }

  predicate StageOn(q: MemberQuery, n: nat)
  {
    if n == 0 then AuditLogs.Truthy(q.search) else if n == 1 then AuditLogs.Truthy(q.status)
    else if n == 2 then AuditLogs.Truthy(q.role) else if n == 3 then q.hasEmail.Some?
    else if n == 4 then q.hasPhone.Some? else if n == 5 then q.groupsCountMin.Some?
    else AuditLogs.Truthy(q.lastAttendance)
  }

  /** One more stage: filtering by it when it is set (and keeping everyone when it is not) passes one more stage. */
  lemma StageStep(users: seq<MemberUser>, q: MemberQuery, now: Time, parseTime: string -> Time, n: nat, filtered: seq<MemberUser>)
    requires n < 7
    requires filtered == Seqs.Filter(users, KeptFirst(q, now, parseTime, n))
    ensures (if StageOn(q, n) then Seqs.Filter(filtered, StageAt(q, now, parseTime, n)) else filtered)
              == Seqs.Filter(users, KeptFirst(q, now, parseTime, n + 1))
  {
    var stage := StageAt(q, now, parseTime, n);
    assert forall u :: PassesFirst(u, q, now, parseTime, n + 1) == (PassesFirst(u, q, now, parseTime, n) && stage(u));
    if StageOn(q, n) {
      Seqs.FilterThenFilter(users, KeptFirst(q, now, parseTime, n), stage, KeptFirst(q, now, parseTime, n + 1));
    } else {
      assert forall u :: stage(u);
      Seqs.FilterCongruent(users, KeptFirst(q, now, parseTime, n), KeptFirst(q, now, parseTime, n + 1));
    }
  }

  /** Before the first stage every user is still listed. */
  lemma NoStageKeepsAll(users: seq<MemberUser>, q: MemberQuery, now: Time, parseTime: string -> Time)
    ensures Seqs.Filter(users, KeptFirst(q, now, parseTime, 0)) == users
  {
    Seqs.FilterIsSubsequence(users, KeptFirst(q, now, parseTime, 0));
  }

  /** Passing the seven stages is passing every filter. */
  lemma AllStagesAreKept(users: seq<MemberUser>, q: MemberQuery, now: Time, parseTime: string -> Time)
    ensures Seqs.Filter(users, KeptFirst(q, now, parseTime, 7)) == Filtered(users, q, now, parseTime)
  {
    Seqs.FilterCongruent(users, KeptFirst(q, now, parseTime, 7), Kept(q, now, parseTime));
  }

  /** Stage `n` of `listMembers`: `filtered = filtered.filter(...)` when the query sets that filter. */
  method Narrow(users: seq<MemberUser>, q: MemberQuery, now: Time, parseTime: string -> Time, n: nat, filtered: seq<MemberUser>)
    returns (next: seq<MemberUser>)
    requires n < 7
    requires filtered == Seqs.Filter(users, KeptFirst(q, now, parseTime, n))
    ensures next == Seqs.Filter(users, KeptFirst(q, now, parseTime, n + 1))
  {
    StageStep(users, q, now, parseTime, n, filtered);
    next := filtered;
    if StageOn(q, n) {
      next := Seqs.Filter(filtered, StageAt(q, now, parseTime, n));
    }
  }

  /** The filter stages of `listMembers` in order: search, status, role, email, phone, group count, last attendance. */
  method ApplyFilters(users: seq<MemberUser>, q: MemberQuery, now: Time, parseTime: string -> Time)
    returns (filtered: seq<MemberUser>)
    ensures filtered == Filtered(users, q, now, parseTime)
  {
    NoStageKeepsAll(users, q, now, parseTime);
    filtered := users;
    filtered := Narrow(users, q, now, parseTime, 0, filtered);
    filtered := Narrow(users, q, now, parseTime, 1, filtered);
    filtered := Narrow(users, q, now, parseTime, 2, filtered);
    filtered := Narrow(users, q, now, parseTime, 3, filtered);
    filtered := Narrow(users, q, now, parseTime, 4, filtered);
    filtered := Narrow(users, q, now, parseTime, 5, filtered);
    filtered := Narrow(users, q, now, parseTime, 6, filtered);
    AllStagesAreKept(users, q, now, parseTime);
  }

  /**
   * `listMembers`: narrows the users stage by stage, sorts a copy when the
   * query asks for it, and returns one page of summaries with the page count.
   */
  method ListMembers(users: seq<MemberUser>, q: MemberQuery, now: Time, parseTime: string -> Time, nowIso: string, queryTime: int)
    returns (r: MemberListResponse)
    ensures r.data == Summaries(PageUsers(users, q, now, parseTime), nowIso)
    ensures r.pagination.page == PageOf(q) && r.pagination.limit == LimitOf(q)
    ensures r.pagination.total == |Filtered(users, q, now, parseTime)|
    ensures r.pagination.pages == CeilDiv(r.pagination.total, r.pagination.limit)
    ensures r.queryTime == queryTime
    ensures DescribesQuery(r.filters, q)
  {
    var filtered := ApplyFilters(users, q, now, parseTime);

    var sorted := filtered;
    if AuditLogs.Truthy(q.sort) {
      sorted := Sorting.SortBy(filtered, FieldKey(SortField(q.sort.value), parseTime), SortDescending(q.sort.value));
    }

    var paginated, pagination := CutPage(sorted, q);
    var filters := BuildActiveFilters(q);
    r := MemberListResponse(Summaries(paginated, nowIso), pagination, queryTime, filters);
  }

  /** The pagination step of `listMembers`: the page's slice of the sorted users and the page count. */
  method CutPage(sorted: seq<MemberUser>, q: MemberQuery) returns (paginated: seq<MemberUser>, pagination: Pagination)
    ensures paginated == JsString.Slice(sorted, PageOffset(q), PageOffset(q) + LimitOf(q))
    ensures pagination == Pagination(PageOf(q), LimitOf(q), |sorted|, CeilDiv(|sorted|, LimitOf(q)))
  {
    var page, limit := PageOf(q), LimitOf(q);
    var total := |sorted|;
    var pages := CeilDiv(total, limit);
    var offset := (page - 1) * limit;
    paginated := JsString.Slice(sorted, offset, offset + limit);
    pagination := Pagination(page, limit, total, pages);
  }
}
