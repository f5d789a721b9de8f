/**
 * The audit trail both data stores keep: the record, the filter and the
 * paged listing (`listAuditLogs`), which the two stores implement alike.
 */
module AuditLogs {
  import opened Wrappers
  import opened Json
  import Seqs
  import Sorting
  import JsString

  /** One audit-log entry; `createdAt` is the entry's time in milliseconds. */
  datatype AuditLog = AuditLog(
    id: string,
    churchId: string,
    actorUserId: string,
    action: string,
    entity: string,
    entityId: Option<string>,
    summary: string,
    diff: Option<Json>,
    metadata: Option<Json>,
    createdAt: int)

  /**
   * The listing filter. `from` and `to` are the parsed bounds (`None` when absent
   * or not a date); `page` and `pageSize` are the requested numbers, if any.
   */
  datatype AuditLogFilter = AuditLogFilter(
    churchId: Option<string>,
    actorUserId: Option<string>,
    entity: Option<string>,
    entityId: Option<string>,
    from: Option<int>,
    to: Option<int>,
    page: Option<int>,
    pageSize: Option<int>)

  /** One page of the listing together with its meta data. */
  datatype AuditLogPage = AuditLogPage(items: seq<AuditLog>, total: nat, page: int, pageSize: int)

  /** A JavaScript string that is present and non-empty (truthy). */
  predicate Truthy(o: Option<string>)
  {
    o.Some? && o.value != ""
  }

  /** A number that is present and non-zero (truthy). */
  predicate TruthyNumber(o: Option<int>)
  {
    o.Some? && o.value != 0
  }

  /** Whether `log` passes every filter that is set; the church is `filter.churchId ?? defaultChurchId`. */
  predicate Matches(log: AuditLog, filter: AuditLogFilter, defaultChurchId: string)
  {
    && log.churchId == filter.churchId.OrElse(defaultChurchId)
    && (Truthy(filter.actorUserId) ==> log.actorUserId == filter.actorUserId.value)
    && (Truthy(filter.entity) ==> log.entity == filter.entity.value)
    && (Truthy(filter.entityId) ==> log.entityId == filter.entityId)
    && (TruthyNumber(filter.from) ==> log.createdAt >= filter.from.value)
    && (TruthyNumber(filter.to) ==> log.createdAt <= filter.to.value)
  }

  /** The requested page when it is a positive number, otherwise 1. */
  function PageNumber(filter: AuditLogFilter): (page: int)
    ensures page >= 1
    ensures filter.page.Some? && filter.page.value > 0 ==> page == filter.page.value
  {
    if filter.page.Some? && filter.page.value > 0 then filter.page.value else 1
  }

  /** The requested page size when it is positive (20 otherwise), capped at 100. */
  function PageSize(filter: AuditLogFilter): (size: int)
    ensures 1 <= size <= 100
    ensures filter.pageSize.Some? && 0 < filter.pageSize.value <= 100 ==> size == filter.pageSize.value
    ensures (filter.pageSize.None? || filter.pageSize.value <= 0) ==> size == 20
  {
    var raw := if filter.pageSize.Some? && filter.pageSize.value > 0 then filter.pageSize.value else 20;
    if raw < 100 then raw else 100
  }

  function NewestFirst(log: AuditLog): Sorting.SortKey
  {
    Sorting.Num(log.createdAt)
  }

  /** The matching entries, newest first (entries with equal times keep their order). */
  function MatchingNewestFirst(logs: seq<AuditLog>, filter: AuditLogFilter, defaultChurchId: string): seq<AuditLog>
  {
    Sorting.SortBy(Seqs.Filter(logs, log => Matches(log, filter, defaultChurchId)), NewestFirst, true)
  }

  /** `listAuditLogs`: filter, sort newest first, and cut out the requested page. */
  function ListAuditLogs(logs: seq<AuditLog>, filter: AuditLogFilter, defaultChurchId: string): (r: AuditLogPage)
    ensures r.page >= 1 && 1 <= r.pageSize <= 100
    ensures r.total == |Seqs.Filter(logs, log => Matches(log, filter, defaultChurchId))|
    ensures |r.items| <= r.pageSize
    ensures forall k :: 0 <= k < |r.items| ==> r.items[k] in logs && Matches(r.items[k], filter, defaultChurchId)
    ensures forall i, j :: 0 <= i < j < |r.items| ==> r.items[i].createdAt >= r.items[j].createdAt
  {
    var matching := MatchingNewestFirst(logs, filter, defaultChurchId);
    var page := PageNumber(filter);
    var size := PageSize(filter);
    var start := PageStart(page, size);
    var items := JsString.Slice(matching, start, start + size);
    JsString.SliceItems(matching, start, size, items);
    MatchingMembers(logs, filter, defaultChurchId);
    AuditLogPage(items, |matching|, page, size)
  }

  /** Where page `page` of `size` entries starts. */
  function PageStart(page: int, size: int): (start: nat)
    requires page >= 1 && size >= 1
    ensures start == (page - 1) * size
  {
    MulNonNegative(page - 1, size);
    (page - 1) * size
  }

  lemma MulNonNegative(a: nat, b: nat)
    ensures a * b >= 0
  {
  }

  /** Every sorted entry is a matching entry of the store, newest first. */
  lemma MatchingMembers(logs: seq<AuditLog>, filter: AuditLogFilter, defaultChurchId: string)
    ensures var m := MatchingNewestFirst(logs, filter, defaultChurchId);
            && |m| == |Seqs.Filter(logs, log => Matches(log, filter, defaultChurchId))|
            && (forall k :: 0 <= k < |m| ==> m[k] in logs && Matches(m[k], filter, defaultChurchId))
            && (forall i, j :: 0 <= i < j < |m| ==> m[i].createdAt >= m[j].createdAt)
  {
    var f := Seqs.Filter(logs, log => Matches(log, filter, defaultChurchId));
    var m := MatchingNewestFirst(logs, filter, defaultChurchId);
    Sorting.SortByMembers(f, NewestFirst, true);
    forall i, j | 0 <= i < j < |m| ensures m[i].createdAt >= m[j].createdAt {
      assert !Sorting.Before(NewestFirst, true, m[j], m[i]);
    }
  }

  /** The filter ignores the paging fields. */
  lemma MatchesIgnoresPaging(logs: seq<AuditLog>, filter: AuditLogFilter, page: Option<int>, defaultChurchId: string)
    ensures MatchingNewestFirst(logs, filter.(page := page), defaultChurchId) == MatchingNewestFirst(logs, filter, defaultChurchId)
  {
    var other := filter.(page := page);
    Seqs.FilterCongruent(logs, log => Matches(log, other, defaultChurchId), log => Matches(log, filter, defaultChurchId));
  }

  /** Page `p` holds exactly the matching entries from position `(p - 1) * pageSize` on, up to `pageSize` of them. */
  lemma PageHoldsWindow(logs: seq<AuditLog>, filter: AuditLogFilter, defaultChurchId: string)
    ensures var r := ListAuditLogs(logs, filter, defaultChurchId);
            var m := MatchingNewestFirst(logs, filter, defaultChurchId);
            var start := PageStart(r.page, r.pageSize);
            && (forall i :: 0 <= i < |r.items| ==> start + i < |m| && r.items[i] == m[start + i])
            && (start + r.pageSize <= |m| ==> |r.items| == r.pageSize)
            && (start < |m| ==> |r.items| > 0)
  {
    var r := ListAuditLogs(logs, filter, defaultChurchId);
    var m := MatchingNewestFirst(logs, filter, defaultChurchId);
    var start := PageStart(r.page, r.pageSize);
    JsString.SliceItems(m, start, r.pageSize, r.items);
  }

  /** Paging loses nothing: with a fixed page size, every matching entry is listed on page `k / size + 1`. */
  lemma EveryMatchOnSomePage(logs: seq<AuditLog>, filter: AuditLogFilter, defaultChurchId: string, k: nat)
    requires k < |MatchingNewestFirst(logs, filter, defaultChurchId)|
    requires filter.pageSize.Some? && 0 < filter.pageSize.value <= 100
    ensures MatchingNewestFirst(logs, filter, defaultChurchId)[k]
              in ListAuditLogs(logs, filter.(page := Some(k / filter.pageSize.value + 1)), defaultChurchId).items
  {
    var size := filter.pageSize.value;
    var p := PageContaining(k, size);
    var onPage := filter.(page := Some(p));
    assert onPage == filter.(page := Some(k / filter.pageSize.value + 1));
    MatchesIgnoresPaging(logs, filter, Some(p), defaultChurchId);
    OnPage(logs, onPage, defaultChurchId, k);
  }

  /** Entry `k` lies on page `k / size + 1`, at offset `k % size`. */
  lemma PageContaining(k: nat, size: int) returns (p: int)
    requires size > 0
    ensures p == k / size + 1 && p >= 1
    ensures PageStart(p, size) <= k < PageStart(p, size) + size
  {
    p := k / size + 1;
    PageOf(k, size);
  }

  /** A matching entry whose position lies within the window of the requested page is listed on it. */
  lemma OnPage(logs: seq<AuditLog>, filter: AuditLogFilter, defaultChurchId: string, k: nat)
    requires filter.page.Some? && filter.page.value >= 1
    requires filter.pageSize.Some? && 0 < filter.pageSize.value <= 100
    requires PageStart(filter.page.value, filter.pageSize.value) <= k < PageStart(filter.page.value, filter.pageSize.value) + filter.pageSize.value
    requires k < |MatchingNewestFirst(logs, filter, defaultChurchId)|
    ensures MatchingNewestFirst(logs, filter, defaultChurchId)[k] in ListAuditLogs(logs, filter, defaultChurchId).items
  {
    var p, size := filter.page.value, filter.pageSize.value;
    PageItems(logs, filter, defaultChurchId, p, size);
    JsString.SliceHolds(MatchingNewestFirst(logs, filter, defaultChurchId), PageStart(p, size), size,
                        ListAuditLogs(logs, filter, defaultChurchId).items, k);
  }

  /** The items of a page are the slice of the sorted matches that the page number and size select. */
  lemma PageItems(logs: seq<AuditLog>, filter: AuditLogFilter, defaultChurchId: string, page: int, size: int)
    requires page == PageNumber(filter) && size == PageSize(filter)
    ensures ListAuditLogs(logs, filter, defaultChurchId).items
              == JsString.Slice(MatchingNewestFirst(logs, filter, defaultChurchId), PageStart(page, size), PageStart(page, size) + size)
  {
  }

  /** Entry `k` lies at offset `k % size` of page `k / size + 1`. */
  lemma PageOf(k: nat, size: int)
    requires size > 0
    ensures k / size + 1 >= 1
    ensures PageStart(k / size + 1, size) <= k < PageStart(k / size + 1, size) + size
  {
    DivMod(k, size);
  }

  lemma DivMod(k: nat, size: int)
    requires size > 0
    ensures k / size >= 0 && 0 <= k % size < size && (k / size) * size + k % size == k
  {
  }

  /** `createAuditLog`: the new entry, in the given church or the default one. */
  function NewAuditLog(
    id: string, churchId: Option<string>, defaultChurchId: string, actorUserId: string, action: string,
    entity: string, entityId: Option<string>, summary: string, diff: Option<Json>, metadata: Option<Json>,
    createdAt: int): (log: AuditLog)
    ensures log.churchId == churchId.OrElse(defaultChurchId)
    ensures log.id == id && log.createdAt == createdAt && log.entityId == entityId
  {
    AuditLog(id, churchId.OrElse(defaultChurchId), actorUserId, action, entity, entityId, summary, diff, metadata, createdAt)
  }
}
