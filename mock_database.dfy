/**
 * The mock database of the demo API: seeded tables of users, events,
 * announcements, contributions, audit entries and demo sessions, changed in
 * place by attendance recording, announcement reads and demo logins. The
 * clock (`now`, and `stamp`, its decimal text) and the random parts of ids
 * are parameters.
 */
module MockDatabase {
  import opened Wrappers
  import opened Json
  import Seqs
  import JsString
  import AuditLogs
  import StoreRecords

  type Time = int

  datatype Role = Member | Leader | Admin
  {
    function Name(): string
    {
      match this
      case Member => "Member"
      case Leader => "Leader"
      case Admin => "Admin"
    }
  }

  datatype UserRole = UserRole(churchId: string, role: Role)
  datatype Profile = Profile(firstName: string, lastName: string)
  datatype MockUser = MockUser(id: string, primaryEmail: string, roles: seq<UserRole>, profile: Profile)

  datatype AttendanceStatus = CheckedIn | Absent | Excused
  {
    function Name(): string
    {
      match this
      case CheckedIn => "checkedIn"
      case Absent => "absent"
      case Excused => "excused"
    }
  }

  datatype Attendance = Attendance(
    eventId: string, userId: string, status: AttendanceStatus, note: Option<string>,
    recordedBy: Option<string>, recordedAt: Time)
  datatype MockEvent = MockEvent(id: string, churchId: string, title: string, attendance: seq<Attendance>)
  datatype AttendanceInput = AttendanceInput(
    eventId: string, userId: string, status: AttendanceStatus, note: Option<string>, recordedBy: Option<string>)

  datatype Announcement = Announcement(id: string, churchId: string, title: string)

  datatype MockContribution = MockContribution(
    id: string, churchId: string, memberId: string, amount: int, date: string,
    fundId: Option<string>, paymentMethod: string, note: Option<string>)

  datatype Provider = Google | Facebook
  datatype DemoSession = DemoSession(token: string, userId: string, createdAt: Time, provider: Provider)

  /** What `createAuditLog` is given; `createdAt` is `None` when the entry takes the current time. */
  datatype AuditLogInput = AuditLogInput(
    churchId: Option<string>, actorUserId: string, action: string, entity: string, entityId: Option<string>,
    summary: string, diff: Option<Json>, metadata: Option<Json>, createdAt: Option<Time>)

  /** A listed audit entry with its actor (`getUserById`). */
  datatype ListedLog = ListedLog(log: AuditLogs.AuditLog, actor: Option<MockUser>)

  /** The outcome of a successful `recordAttendance`: the events afterwards, the record and the audit entry. */
  datatype Recorded = Recorded(events: seq<MockEvent>, record: Attendance, log: AuditLogs.AuditLog)

  const SessionUserNotFound := "User not found for demo login. Use one of the seeded accounts."

  // ------------------------------------------------------------------ users

  function UserIdIs(id: string): MockUser -> bool
  {
    (u: MockUser) => u.id == id
  }

  /** `getUserById`: the first user with the id. */
  function UserById(users: seq<MockUser>, id: string): (r: Option<MockUser>)
    ensures r.Some? ==> r.value in users && r.value.id == id
    ensures r.None? <==> forall k :: 0 <= k < |users| ==> users[k].id != id
  {
    match Seqs.FirstIndex(users, UserIdIs(id))
    case None => None
    case Some(k) => Some(users[k])
  }

  /** The display name used in summaries: the trimmed "first last" of the user, or the id when there is no such user. */
  function NameOf(users: seq<MockUser>, id: string): (name: string)
    ensures (forall k :: 0 <= k < |users| ==> users[k].id != id) ==> name == id
    ensures JsString.IsTrimmed(name) || name == id
  {
    match UserById(users, id)
    case None => id
    case Some(u) => JsString.Trim(u.profile.firstName + " " + u.profile.lastName)
  }

  /** `getUserByEmail`: the first user whose e-mail address equals `email` ignoring case. */
  function EmailIs(email: string): MockUser -> bool
  {
    (u: MockUser) => JsString.ToLower(u.primaryEmail) == JsString.ToLower(email)
  }

  // -------------------------------------------------------------- audit log

  /**
   * The id of a new entry: `audit-<entity>-<entityId>-<stamp>` when the entry
   * names an entity id, otherwise `audit-<stamp>-<suffix>` with a random suffix.
   */
  function AuditId(input: AuditLogInput, stamp: string, suffix: string): (id: string)
    ensures AuditLogs.Truthy(input.entityId) ==> id == "audit-" + input.entity + "-" + input.entityId.value + "-" + stamp
    ensures !AuditLogs.Truthy(input.entityId) ==> id == "audit-" + stamp + "-" + suffix
  {
    if AuditLogs.Truthy(input.entityId) then "audit-" + input.entity + "-" + input.entityId.value + "-" + stamp
    else "audit-" + stamp + "-" + suffix
  }

  /** `createAuditLog`: the entry recorded for `input` in church `input.churchId ?? churchId`. */
  function EntryOf(input: AuditLogInput, churchId: string, stamp: string, suffix: string, now: Time): (log: AuditLogs.AuditLog)
    ensures log.churchId == input.churchId.OrElse(churchId)
    ensures log.createdAt == input.createdAt.OrElse(now)
    ensures log.actorUserId == input.actorUserId && log.action == input.action && log.entity == input.entity
    ensures log.entityId == input.entityId && log.diff == input.diff && log.metadata == input.metadata
  {
    AuditLogs.NewAuditLog(AuditId(input, stamp, suffix), input.churchId, churchId, input.actorUserId, input.action,
                          input.entity, input.entityId, input.summary, input.diff, input.metadata,
                          input.createdAt.OrElse(now))
  }

  // -------------------------------------------------------------- attendance

  function EventIdIs(id: string): MockEvent -> bool
  {
    (e: MockEvent) => e.id == id
  }

  function AttendeeIs(userId: string): Attendance -> bool
  {
    (a: Attendance) => a.userId == userId
  }

  /** Every user has at most one record in the list. */
  predicate OneRecordPerUser(att: seq<Attendance>)
  {
    forall i, j :: 0 <= i < j < |att| ==> att[i].userId != att[j].userId
  }

  /** Record `a` is the first record of `userId`. */
  predicate FirstAttendee(att: seq<Attendance>, userId: string, a: int)
  {
    0 <= a < |att| && att[a].userId == userId && forall j :: 0 <= j < a ==> att[j].userId != userId
  }

  /**
   * The attendance upsert: the user's first record is updated in place, or a
   * new record is appended. Also returns the record and the previous status
   * (`None` for a new record).
   */
  function Upsert(att: seq<Attendance>, input: AttendanceInput, actorUserId: string, now: Time): (r: (seq<Attendance>, Attendance, Option<AttendanceStatus>))
    ensures r.1.userId == input.userId && r.1.status == input.status && r.1.note == input.note
    ensures r.1.recordedBy == Some(actorUserId) && r.1.recordedAt == now
    ensures r.1 in r.0
    ensures forall a :: FirstAttendee(att, input.userId, a) ==>
              r.0 == att[a := r.1] && r.2 == Some(att[a].status) && r.1.eventId == att[a].eventId
    ensures (forall a :: 0 <= a < |att| ==> att[a].userId != input.userId) ==>
              r.0 == att + [r.1] && r.2.None? && r.1.eventId == input.eventId
  {
    match Seqs.FirstIndex(att, AttendeeIs(input.userId))
    case Some(a) =>
      assert FirstAttendee(att, input.userId, a);
      assert forall a' :: FirstAttendee(att, input.userId, a') ==> a' == a;
      var record := att[a].(status := input.status, note := input.note, recordedBy := Some(actorUserId), recordedAt := now);
      assert att[a := record][a] == record;
      (att[a := record], record, Some(att[a].status))
    case None =>
      var record := Attendance(input.eventId, input.userId, input.status, input.note, Some(actorUserId), now);
      (att + [record], record, None)
  }

  /** The upsert keeps one record per user, and the user then has one. */
  lemma UpsertKeepsOneRecordPerUser(att: seq<Attendance>, input: AttendanceInput, actorUserId: string, now: Time)
    requires OneRecordPerUser(att)
    ensures var r := Upsert(att, input, actorUserId, now).0;
            OneRecordPerUser(r) && exists a :: 0 <= a < |r| && r[a].userId == input.userId
  {
    var (r, record, previous) := Upsert(att, input, actorUserId, now);
    match Seqs.FirstIndex(att, AttendeeIs(input.userId))
    case Some(a) =>
      assert FirstAttendee(att, input.userId, a);
      assert r == att[a := record];
      assert r[a].userId == input.userId;
    case None =>
      assert r == att + [record];
      assert r[|att|].userId == input.userId;
  }

  /** Recording the same user twice never adds a second record: the second upsert keeps the length. */
  lemma UpsertTwiceKeepsLength(att: seq<Attendance>, input: AttendanceInput, again: AttendanceInput, actorUserId: string, now: Time, later: Time)
    requires again.userId == input.userId
    ensures var once := Upsert(att, input, actorUserId, now).0;
            |Upsert(once, again, actorUserId, later).0| == |once|
  {
    var once := Upsert(att, input, actorUserId, now).0;
    var record := Upsert(att, input, actorUserId, now).1;
    var k :| 0 <= k < |once| && once[k] == record;
    assert AttendeeIs(again.userId)(once[k]);
    var f := Seqs.FirstIndex(once, AttendeeIs(again.userId));
    assert FirstAttendee(once, again.userId, f.value);
  }

  /** The summary of an attendance entry: self-recorded, or marked by someone else. */
  function AttendanceSummary(input: AttendanceInput, actorUserId: string, attendeeName: string, actorName: string, title: string): string
  {
    if actorUserId == input.userId then
      attendeeName + " recorded their attendance as " + input.status.Name() + " for " + title
    else
      actorName + " marked " + attendeeName + " as " + input.status.Name() + " for " + title
  }

  /** The diff of an attendance entry: present only when an existing status changed. */
  function AttendanceDiff(previous: Option<AttendanceStatus>, status: AttendanceStatus): (d: Option<Json>)
    ensures d.Some? <==> previous.Some? && previous.value != status
  {
    if previous.Some? && previous.value != status then
      Some(JObject(map["previousStatus" := JString(previous.value.Name()), "newStatus" := JString(status.Name())]))
    else None
  }

  function AttendanceMetadata(input: AttendanceInput, previous: Option<AttendanceStatus>): Json
  {
    JObject(map[
      "userId" := JString(input.userId),
      "newStatus" := JString(input.status.Name()),
      "previousStatus" := (if previous.Some? then JString(previous.value.Name()) else JNull),
      "note" := (if input.note.Some? then JString(input.note.value) else JNull)])
  }

  /** The audit input `recordAttendance` passes to `createAuditLog`. */
  function AttendanceAudit(users: seq<MockUser>, event: MockEvent, input: AttendanceInput, previous: Option<AttendanceStatus>): AuditLogInput
  {
    var actorUserId := input.recordedBy.OrElse(input.userId);
    AuditLogInput(None, actorUserId, "attendance.updated", "event", Some(event.id),
                  AttendanceSummary(input, actorUserId, NameOf(users, input.userId), NameOf(users, actorUserId), event.title),
                  AttendanceDiff(previous, input.status), Some(AttendanceMetadata(input, previous)), None)
  }

  /** Event `e` is the first event with the id. */
  predicate FirstEvent(events: seq<MockEvent>, id: string, e: int)
  {
    0 <= e < |events| && events[e].id == id && forall j :: 0 <= j < e ==> events[j].id != id
  }

  /** `recordAttendance`: `None` for an unknown event, otherwise the upsert into the event and its audit entry. */
  function RecordAttendanceResult(
    events: seq<MockEvent>, users: seq<MockUser>, input: AttendanceInput, churchId: string,
    stamp: string, suffix: string, now: Time): (r: Option<Recorded>)
    ensures r.None? <==> forall e :: 0 <= e < |events| ==> events[e].id != input.eventId
    ensures r.Some? ==> && r.value.log.action == "attendance.updated" && r.value.log.entity == "event"
                        && r.value.log.entityId == Some(input.eventId) && r.value.log.churchId == churchId
                        && r.value.log.actorUserId == input.recordedBy.OrElse(input.userId)
                        && r.value.log.createdAt == now
    ensures r.Some? ==> r.value.record.userId == input.userId && r.value.record.status == input.status
  {
    match Seqs.FirstIndex(events, EventIdIs(input.eventId))
    case None => None
    case Some(e) =>
      var event := events[e];
      var (att, record, previous) := Upsert(event.attendance, input, input.recordedBy.OrElse(input.userId), now);
      Some(Recorded(events[e := event.(attendance := att)], record,
                    EntryOf(AttendanceAudit(users, event, input, previous), churchId, stamp, suffix, now)))
  }

  /**
   * The event's list is the upsert of the old one and nothing else changes, and the entry's
   * diff is present exactly when the user already had a record with another status.
   */
  lemma RecordAttendanceChanges(
    events: seq<MockEvent>, users: seq<MockUser>, input: AttendanceInput, churchId: string,
    stamp: string, suffix: string, now: Time, e: nat)
    requires FirstEvent(events, input.eventId, e)
    ensures var r := RecordAttendanceResult(events, users, input, churchId, stamp, suffix, now);
            var att := events[e].attendance;
            && r.Some?
            && |r.value.events| == |events|
            && r.value.events[e].attendance == Upsert(att, input, input.recordedBy.OrElse(input.userId), now).0
            && (forall j :: 0 <= j < |events| && j != e ==> r.value.events[j] == events[j])
            && (r.value.log.diff.Some? <==> exists a :: FirstAttendee(att, input.userId, a) && att[a].status != input.status)
  {
    var att := events[e].attendance;
    var f := Seqs.FirstIndex(events, EventIdIs(input.eventId));
    assert f == Some(e) by {
      assert EventIdIs(input.eventId)(events[e]);
    }
    var up := Upsert(att, input, input.recordedBy.OrElse(input.userId), now);
    var g := Seqs.FirstIndex(att, AttendeeIs(input.userId));
    if g.Some? {
      assert FirstAttendee(att, input.userId, g.value);
      assert forall a :: FirstAttendee(att, input.userId, a) ==> a == g.value;
    }
  }

  // ---------------------------------------------------------- announcements

  function AnnouncementIdIs(id: string): Announcement -> bool
  {
    (a: Announcement) => a.id == id
  }

  /**
   * The audit entries `markAnnouncementRead` adds: one on the first read of an
   * existing announcement, none otherwise.
   */
  function ReadAudit(
    marks: seq<StoreRecords.AnnouncementRead>, announcements: seq<Announcement>, users: seq<MockUser>,
    announcementId: string, userId: string, churchId: string, stamp: string, suffix: string, now: Time): (r: seq<AuditLogs.AuditLog>)
    ensures |r| <= 1
    ensures |r| == 1 <==> && (forall k :: 0 <= k < |marks| ==> !(marks[k].announcementId == announcementId && marks[k].userId == userId))
                          && (exists k :: 0 <= k < |announcements| && announcements[k].id == announcementId)
    ensures |r| == 1 ==> && r[0].action == "announcement.read" && r[0].entity == "announcement"
                         && r[0].entityId == Some(announcementId) && r[0].actorUserId == userId
  {
    if Seqs.FirstIndex(marks, StoreRecords.ReadBy(announcementId, userId)).Some? then []
    else
      match Seqs.FirstIndex(announcements, AnnouncementIdIs(announcementId))
      case None => []
      case Some(k) =>
        var announcement := announcements[k];
        var input := AuditLogInput(None, userId, "announcement.read", "announcement", Some(announcement.id),
                                   NameOf(users, userId) + " read announcement \"" + announcement.title + "\"", None,
                                   Some(JObject(map["userId" := JString(userId), "announcementId" := JString(announcementId)])), None);
        [EntryOf(input, churchId, stamp, suffix, now)]
  }

  /** A repeated read adds no second audit entry. */
  lemma ReadAuditOnce(
    marks: seq<StoreRecords.AnnouncementRead>, announcements: seq<Announcement>, users: seq<MockUser>,
    announcementId: string, userId: string, churchId: string, stamp: string, suffix: string, now: Time,
    stamp': string, suffix': string, later: Time)
    ensures var after := StoreRecords.MarkRead(marks, announcementId, userId, now).0;
            ReadAudit(after, announcements, users, announcementId, userId, churchId, stamp', suffix', later) == []
  {
    var (after, record) := StoreRecords.MarkRead(marks, announcementId, userId, now);
    var k :| 0 <= k < |after| && after[k] == record;
    assert after[k].announcementId == announcementId && after[k].userId == userId;
  }

  // ---------------------------------------------------------- contributions

  function MemberIs(memberId: string): MockContribution -> bool
  {
    (c: MockContribution) => c.memberId == memberId
  }

  function FundIs(fundId: string): MockContribution -> bool
  {
    (c: MockContribution) => c.fundId == Some(fundId)
  }

  /** `listContributions`: the contributions of the member and of the fund, for each filter that is set. */
  function ListContributions(cs: seq<MockContribution>, memberId: Option<string>, fundId: Option<string>): (r: seq<MockContribution>)
  {
    var byMember := if AuditLogs.Truthy(memberId) then Seqs.Filter(cs, MemberIs(memberId.value)) else cs;
    if AuditLogs.Truthy(fundId) then Seqs.Filter(byMember, FundIs(fundId.value)) else byMember
  }

  /** The filters are conjunctive and the listing keeps the table's order. */
  lemma ListContributionsKeeps(cs: seq<MockContribution>, memberId: Option<string>, fundId: Option<string>)
    ensures var r := ListContributions(cs, memberId, fundId);
            && Seqs.IsSubsequence(r, cs)
            && forall c :: c in r <==> (c in cs && (AuditLogs.Truthy(memberId) ==> c.memberId == memberId.value)
                                                && (AuditLogs.Truthy(fundId) ==> c.fundId == fundId))
  {
    var byMember := if AuditLogs.Truthy(memberId) then Seqs.Filter(cs, MemberIs(memberId.value)) else cs;
    var r := ListContributions(cs, memberId, fundId);
    assert Seqs.IsSubsequence(byMember, cs) by {
      if AuditLogs.Truthy(memberId) {
        Seqs.FilterIsSubsequence(cs, MemberIs(memberId.value));
      } else {
        Seqs.SubsequenceRefl(cs);
      }
    }
    assert Seqs.IsSubsequence(r, byMember) by {
      if AuditLogs.Truthy(fundId) {
        Seqs.FilterIsSubsequence(byMember, FundIs(fundId.value));
      } else {
        Seqs.SubsequenceRefl(byMember);
      }
    }
    Seqs.SubsequenceTransitive(r, byMember, cs);
    forall c ensures c in r <==> (c in cs && (AuditLogs.Truthy(memberId) ==> c.memberId == memberId.value)
                                          && (AuditLogs.Truthy(fundId) ==> c.fundId == fundId))
    {
      if AuditLogs.Truthy(memberId) {
        Seqs.FilterMembers(cs, MemberIs(memberId.value), c);
      }
      if AuditLogs.Truthy(fundId) {
        Seqs.FilterMembers(byMember, FundIs(fundId.value), c);
      }
    }
  }

  // --------------------------------------------------------------- sessions

  /** The role a demo login asks for: the requested one, else the user's first role, else Member. */
  function SessionRole(u: MockUser, requested: Option<Role>): (role: Role)
    ensures requested.Some? ==> role == requested.value
    ensures requested.None? && |u.roles| > 0 ==> role == u.roles[0].role
    ensures requested.None? && |u.roles| == 0 ==> role == Member
  {
    if requested.Some? then requested.value else if |u.roles| > 0 then u.roles[0].role else Member
  }

  predicate HasRole(u: MockUser, role: Role)
  {
    exists k :: 0 <= k < |u.roles| && u.roles[k].role == role
  }

  /** The user with `role` added in `churchId` when none of their roles is `role`. */
  function WithRole(u: MockUser, role: Role, churchId: string): (r: MockUser)
    ensures HasRole(r, role)
    ensures r.id == u.id && r.primaryEmail == u.primaryEmail && r.profile == u.profile
    ensures HasRole(u, role) ==> r == u
    ensures !HasRole(u, role) ==> r.roles == u.roles + [UserRole(churchId, role)]
  {
    if HasRole(u, role) then u
    else
      var r := u.(roles := u.roles + [UserRole(churchId, role)]);
      assert r.roles[|u.roles|].role == role;
      r
  }

  /** A second demo login with the same role adds nothing more to the user. */
  lemma WithRoleIdempotent(u: MockUser, role: Role, churchId: string, otherChurch: string)
    ensures WithRole(WithRole(u, role, churchId), role, otherChurch) == WithRole(u, role, churchId)
  {
  }

  /** `getSessionByToken`: the session and its user, or `None` for a falsy or unknown token or a missing user. */
  function SessionLookup(sessions: seq<DemoSession>, users: seq<MockUser>, token: Option<string>): (r: Option<(DemoSession, MockUser)>)
    ensures !AuditLogs.Truthy(token) ==> r.None?
    ensures AuditLogs.Truthy(token) && (forall k :: 0 <= k < |sessions| ==> sessions[k].token != token.value) ==> r.None?
    ensures r.Some? ==> && r.value.0 in sessions && r.value.0.token == token.value
                        && r.value.1 in users && r.value.1.id == r.value.0.userId
  {
    if !AuditLogs.Truthy(token) then None
    else
      match Seqs.FirstIndex(sessions, (s: DemoSession) => s.token == token.value)
      case None => None
      case Some(k) =>
        match UserById(users, sessions[k].userId)
        case None => None
        case Some(u) => Some((sessions[k], u))
  }

  /** A session whose user is gone is not found, even though the session is still listed. */
  lemma LookupNeedsUser(sessions: seq<DemoSession>, users: seq<MockUser>, token: string, k: nat)
    requires token != [] && k < |sessions| && sessions[k].token == token
    requires forall j :: 0 <= j < k ==> sessions[j].token != token
    requires forall u :: 0 <= u < |users| ==> users[u].id != sessions[k].userId
    ensures SessionLookup(sessions, users, Some(token)).None?
  {
    var f := Seqs.FirstIndex(sessions, (s: DemoSession) => s.token == token);
    assert f == Some(k);
  }

  /** The session `createSession` appends is found by its token, provided the token is new and not empty. */
  lemma CreatedSessionFound(sessions: seq<DemoSession>, users: seq<MockUser>, s: DemoSession, u: nat)
    requires s.token != [] && forall k :: 0 <= k < |sessions| ==> sessions[k].token != s.token
    requires u < |users| && users[u].id == s.userId
    ensures SessionLookup(sessions + [s], users, Some(s.token)) == Some((s, UserById(users, s.userId).value))
  {
    var all := sessions + [s];
    var f := Seqs.FirstIndex(all, (x: DemoSession) => x.token == s.token);
    assert all[|sessions|].token == s.token;
    assert f == Some(|sessions|);
  }

  // ------------------------------------------------------------ the service

  class MockDatabaseService {
    /** The id of the first seeded church (`getChurch().id`). */
    const churchId: string

    var users: seq<MockUser>
    var events: seq<MockEvent>
    var announcements: seq<Announcement>
    var announcementReads: seq<StoreRecords.AnnouncementRead>
    var contributions: seq<MockContribution>
    var auditLogs: seq<AuditLogs.AuditLog>
    var sessions: seq<DemoSession>

    constructor (
      churchId: string, users: seq<MockUser>, events: seq<MockEvent>, announcements: seq<Announcement>,
      announcementReads: seq<StoreRecords.AnnouncementRead>, contributions: seq<MockContribution>,
      auditLogs: seq<AuditLogs.AuditLog>, sessions: seq<DemoSession>)
      ensures this.churchId == churchId && this.users == users && this.events == events
      ensures this.announcements == announcements && this.announcementReads == announcementReads
      ensures this.contributions == contributions && this.auditLogs == auditLogs && this.sessions == sessions
    {
      this.churchId := churchId;
      this.users, this.events, this.announcements := users, events, announcements;
      this.announcementReads, this.contributions := announcementReads, contributions;
      this.auditLogs, this.sessions := auditLogs, sessions;
    }

    /** `createAuditLog`: appends the entry for `input` and returns it. */
    method CreateAuditLog(input: AuditLogInput, stamp: string, suffix: string, now: Time) returns (log: AuditLogs.AuditLog)
      modifies this`auditLogs
      ensures log == EntryOf(input, churchId, stamp, suffix, now)
      ensures auditLogs == old(auditLogs) + [log]
    {
      log := EntryOf(input, churchId, stamp, suffix, now);
      auditLogs := auditLogs + [log];
    }

    /** `recordAttendance`: updates or adds the user's record on the event and logs it once. */
    method RecordAttendance(input: AttendanceInput, stamp: string, suffix: string, now: Time) returns (r: Option<Attendance>)
      modifies this`events, this`auditLogs
      ensures match RecordAttendanceResult(old(events), users, input, churchId, stamp, suffix, now)
              case None => r.None? && events == old(events) && auditLogs == old(auditLogs)
              case Some(d) => r == Some(d.record) && events == d.events && auditLogs == old(auditLogs) + [d.log]
    {
      var found := Seqs.FirstIndex(events, EventIdIs(input.eventId));
      if found.None? {
        return None;
      }
      var e := found.value;
      var event := events[e];
      var actorUserId := input.recordedBy.OrElse(input.userId);
      var existing := Seqs.FirstIndex(event.attendance, AttendeeIs(input.userId));
      var record: Attendance;
      var previous: Option<AttendanceStatus>;
      if existing.Some? {
        var a := existing.value;
        previous := Some(event.attendance[a].status);
        record := event.attendance[a].(status := input.status, note := input.note, recordedBy := Some(actorUserId), recordedAt := now);
        events := events[e := event.(attendance := event.attendance[a := record])];
      } else {
        previous := None;
        record := Attendance(input.eventId, input.userId, input.status, input.note, Some(actorUserId), now);
        events := events[e := event.(attendance := event.attendance + [record])];
      }
      var _ := CreateAuditLog(AttendanceAudit(users, event, input, previous), stamp, suffix, now);
      r := Some(record);
    }

    /** `markAnnouncementRead`: the existing read, or a new one, logged when the announcement exists. */
    method MarkAnnouncementRead(announcementId: string, userId: string, stamp: string, suffix: string, now: Time)
      returns (read: StoreRecords.AnnouncementRead)
      modifies this`announcementReads, this`auditLogs
      ensures (announcementReads, read) == StoreRecords.MarkRead(old(announcementReads), announcementId, userId, now)
      ensures auditLogs == old(auditLogs) + ReadAudit(old(announcementReads), announcements, users, announcementId, userId, churchId, stamp, suffix, now)
    {
      var already := Seqs.FirstIndex(announcementReads, StoreRecords.ReadBy(announcementId, userId));
      if already.Some? {
        return announcementReads[already.value];
      }
      var announcement := Seqs.FirstIndex(announcements, AnnouncementIdIs(announcementId));
      read := StoreRecords.AnnouncementRead(announcementId, userId, now);
      announcementReads := announcementReads + [read];
      if announcement.Some? {
        var title := announcements[announcement.value].title;
        var _ := CreateAuditLog(
          AuditLogInput(None, userId, "announcement.read", "announcement", Some(announcements[announcement.value].id),
                        NameOf(users, userId) + " read announcement \"" + title + "\"", None,
                        Some(JObject(map["userId" := JString(userId), "announcementId" := JString(announcementId)])), None),
          stamp, suffix, now);
      }
    }

    /** `listContributions` over the table. */
    function Contributions(memberId: Option<string>, fundId: Option<string>): (r: seq<MockContribution>)
      reads this`contributions
      ensures Seqs.IsSubsequence(r, contributions)
      ensures forall c :: c in r <==> (c in contributions && (AuditLogs.Truthy(memberId) ==> c.memberId == memberId.value)
                                                          && (AuditLogs.Truthy(fundId) ==> c.fundId == fundId))
    {
      ListContributionsKeeps(contributions, memberId, fundId);
      ListContributions(contributions, memberId, fundId)
    }

    /** `listAuditLogs`: the page of the store's entries, each with its actor. */
    function ListAuditLogs(filter: AuditLogs.AuditLogFilter): (r: (seq<ListedLog>, AuditLogs.AuditLogPage))
      reads this`auditLogs, this`users
      ensures r.1 == AuditLogs.ListAuditLogs(auditLogs, filter, churchId)
      ensures |r.0| == |r.1.items|
      ensures forall k :: 0 <= k < |r.0| ==> r.0[k].log == r.1.items[k] && r.0[k].actor == UserById(users, r.1.items[k].actorUserId)
    {
      var page := AuditLogs.ListAuditLogs(auditLogs, filter, churchId);
      (WithActors(page.items, users), page)
    }

    /** `createSession`: a demo login, which may add the role to the user and always appends one session. */
    method CreateSession(email: string, provider: Provider, requestedRole: Option<Role>, token: string, now: Time)
      returns (r: Result<(DemoSession, MockUser), string>)
      modifies this`users, this`sessions
      ensures match Seqs.FirstIndex(old(users), EmailIs(email))
              case None => r == Err(SessionUserNotFound) && users == old(users) && sessions == old(sessions)
              case Some(k) =>
                var u := WithRole(old(users)[k], SessionRole(old(users)[k], requestedRole), churchId);
                var s := DemoSession(token, u.id, now, provider);
                && users == old(users)[k := u] && sessions == old(sessions) + [s] && r == Ok((s, u))
    {
      var found := Seqs.FirstIndex(users, EmailIs(email));
      if found.None? {
        return Err(SessionUserNotFound);
      }
      var k := found.value;
      var user := users[k];
      var role := SessionRole(user, requestedRole);
      if !HasRole(user, role) {
        user := user.(roles := user.roles + [UserRole(churchId, role)]);
        users := users[k := user];
      }
      var session := DemoSession(token, user.id, now, provider);
      sessions := sessions + [session];
      r := Ok((session, user));
    }

    /** `getSessionByToken` over the tables. */
    function GetSessionByToken(token: Option<string>): (r: Option<(DemoSession, MockUser)>)
      reads this`sessions, this`users
      ensures !AuditLogs.Truthy(token) ==> r.None?
      ensures r.Some? ==> && r.value.0 in sessions && r.value.0.token == token.value
                          && r.value.1 in users && r.value.1.id == r.value.0.userId
    {
      SessionLookup(sessions, users, token)
    }
  }

  /** Each entry with its actor looked up among `users`. */
  function WithActors(items: seq<AuditLogs.AuditLog>, users: seq<MockUser>): (r: seq<ListedLog>)
    ensures |r| == |items|
    ensures forall k :: 0 <= k < |r| ==> r[k].log == items[k] && r[k].actor == UserById(users, items[k].actorUserId)
  {
    seq(|items|, k requires 0 <= k < |items| => ListedLog(items[k], UserById(users, items[k].actorUserId)))
  }
}
