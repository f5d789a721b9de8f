/**
 * The audit projections: audit read models rebuilt by replaying the
 * `AuditLog` events of the event store, for one church or for all churches
 * grouped by church. What the store returns is a parameter: its events, or the
 * error it failed with, which every operation passes on unchanged.
 */
module AuditProjections {
  import opened Wrappers
  import opened Json
  import Seqs
  import FileEventStore

  type DomainEvent = FileEventStore.DomainEvent

  /** One rebuilt audit entry; fields copied from the event data are absent when the data lacks them. */
  datatype ReadModelEntry = ReadModelEntry(
    id: string, churchId: string, actorUserId: Option<Json>, actor: Option<Json>, action: Option<Json>,
    entity: Option<Json>, entityId: Option<Json>, summary: Option<Json>, diff: Option<Json>,
    metadata: Json, createdAt: int)

  /** The read models of one church. */
  datatype Group = Group(churchId: string, entries: seq<ReadModelEntry>)

  const AuditLogType := "AuditLog"

  /** The read-model entry of one event; metadata that is missing or falsy becomes `{}`. */
  function ToEntry(e: DomainEvent): (r: ReadModelEntry)
    ensures r.id == e.id && r.churchId == e.aggregateId && r.createdAt == e.timestamp
    ensures e.data.Get("metadata").Some? && e.data.Get("metadata").value.Truthy() ==> r.metadata == e.data.Get("metadata").value
    ensures e.data.Get("metadata").None? ==> r.metadata == JObject(map[])
  {
    var metadata := e.data.Get("metadata");
    ReadModelEntry(
      e.id, e.aggregateId, e.data.Get("actorUserId"), e.data.Get("actor"), e.data.Get("action"),
      e.data.Get("entity"), e.data.Get("entityId"), e.data.Get("summary"), e.data.Get("diff"),
      if metadata.Some? && metadata.value.Truthy() then metadata.value else JObject(map[]),
      e.timestamp)
  }

  /** `events.map(...)` into read-model entries. */
  function Entries(events: seq<DomainEvent>): (r: seq<ReadModelEntry>)
    ensures |r| == |events|
    ensures forall k :: 0 <= k < |events| ==> r[k] == ToEntry(events[k])
  {
    if events == [] then [] else Entries(events[..|events| - 1]) + [ToEntry(events[|events| - 1])]
  }

  lemma EntriesAppend(events: seq<DomainEvent>, e: DomainEvent)
    ensures Entries(events + [e]) == Entries(events) + [ToEntry(e)]
  {
    assert (events + [e])[..|events|] == events;
  }

  function ChurchAudit(churchId: Option<string>): FileEventStore.QueryOptions
  {
    FileEventStore.QueryOptions(churchId, Some(AuditLogType), None, None, None, None, None)
  }

  /** `rebuildAuditReadModel`: the entries of the church's audit events, in event order. */
  function RebuildAuditReadModel(store: Result<seq<DomainEvent>, string>, churchId: string): Result<seq<ReadModelEntry>, string>
  {
    match store
    case Err(e) => Err(e)
    case Ok(events) => Ok(Entries(FileEventStore.Query(events, ChurchAudit(Some(churchId))).events))
  }

  /**
   * One entry per audit event of the church, in event order: entry `k` carries
   * the id of the church's `k`-th audit event and the church id. A store error
   * comes back unchanged.
   */
  lemma RebuildFacts(store: Result<seq<DomainEvent>, string>, churchId: string)
    requires churchId != ""
    ensures store.Err? ==> RebuildAuditReadModel(store, churchId) == Err(store.error)
    ensures store.Ok? ==>
              var audit := Seqs.Filter(store.value, FileEventStore.Matching(ChurchAudit(Some(churchId))));
              var r := RebuildAuditReadModel(store, churchId).value;
              && |r| == |audit|
              && (forall k :: 0 <= k < |r| ==> r[k].id == audit[k].id && r[k].churchId == churchId)
              && (forall e :: e in audit <==> e in store.value && e.aggregateId == churchId && e.aggregateType == AuditLogType)
  {
    if store.Ok? {
      FileEventStore.QueryFacts(store.value, ChurchAudit(Some(churchId)));
      FileEventStore.MatchingFacts(store.value, ChurchAudit(Some(churchId)));
    }
  }

  function KeyIs(churchId: string): Group -> bool
  {
    (g: Group) => g.churchId == churchId
  }

  /**
   * The grouping `rebuildAllAuditReadModels` builds: each event's entry is
   * appended to its church's group, and a church met for the first time opens a new group.
   */
  function Grouped(events: seq<DomainEvent>): seq<Group>
  {
    if events == [] then []
    else
      var groups := Grouped(events[..|events| - 1]);
      AddEvent(groups, events[|events| - 1])
  }

  function AddEvent(groups: seq<Group>, e: DomainEvent): seq<Group>
  {
    match Seqs.FirstIndex(groups, KeyIs(e.aggregateId))
    case None => groups + [Group(e.aggregateId, [ToEntry(e)])]
    case Some(k) => groups[k := groups[k].(entries := groups[k].entries + [ToEntry(e)])]
  }

  function Keys(groups: seq<Group>): (r: seq<string>)
    ensures |r| == |groups| && forall k :: 0 <= k < |groups| ==> r[k] == groups[k].churchId
  {
    seq(|groups|, k requires 0 <= k < |groups| => groups[k].churchId)
  }

  function ChurchIds(events: seq<DomainEvent>): (r: seq<string>)
    ensures |r| == |events| && forall k :: 0 <= k < |events| ==> r[k] == events[k].aggregateId
  {
    seq(|events|, k requires 0 <= k < |events| => events[k].aggregateId)
  }

  function Size(groups: seq<Group>): nat
  {
    if groups == [] then 0 else Size(groups[..|groups| - 1]) + |groups[|groups| - 1].entries|
  }

  lemma {:induction false} SizeGrowsByOne(groups: seq<Group>, k: nat, x: ReadModelEntry)
    requires k < |groups|
    ensures Size(groups[k := groups[k].(entries := groups[k].entries + [x])]) == Size(groups) + 1
  {
    var g := groups[k := groups[k].(entries := groups[k].entries + [x])];
    assert g[..|g| - 1] == if k < |groups| - 1 then groups[..|groups| - 1][k := groups[k].(entries := groups[k].entries + [x])] else groups[..|groups| - 1];
    if k < |groups| - 1 {
      SizeGrowsByOne(groups[..|groups| - 1], k, x);
    }
  }

  function ChurchIs(churchId: string): DomainEvent -> bool
  {
    (e: DomainEvent) => e.aggregateId == churchId
  }

  lemma AddEventKeys(groups: seq<Group>, e: DomainEvent)
    ensures Keys(AddEvent(groups, e)) == if e.aggregateId in Keys(groups) then Keys(groups) else Keys(groups) + [e.aggregateId]
  {
    match Seqs.FirstIndex(groups, KeyIs(e.aggregateId))
    case None =>
      assert e.aggregateId !in Keys(groups);
    case Some(k) =>
      assert Keys(groups)[k] == e.aggregateId;
  }

  lemma AddEventSize(groups: seq<Group>, e: DomainEvent)
    ensures Size(AddEvent(groups, e)) == Size(groups) + 1
  {
    match Seqs.FirstIndex(groups, KeyIs(e.aggregateId))
    case None =>
      assert (groups + [Group(e.aggregateId, [ToEntry(e)])])[..|groups|] == groups;
    case Some(k) =>
      SizeGrowsByOne(groups, k, ToEntry(e));
  }

  /** Each group holds the entries of exactly its church's events, in event order. */
  predicate GroupsHold(groups: seq<Group>, events: seq<DomainEvent>)
  {
    forall k :: 0 <= k < |groups| ==> groups[k].entries == Entries(Seqs.Filter(events, ChurchIs(groups[k].churchId)))
  }

  lemma AddEventEntries(groups: seq<Group>, events: seq<DomainEvent>, e: DomainEvent)
    requires GroupsHold(groups, events) && Seqs.NoDuplicates(Keys(groups))
    requires forall j :: 0 <= j < |events| ==> events[j].aggregateId in Keys(groups)
    ensures GroupsHold(AddEvent(groups, e), events + [e])
  {
    match Seqs.FirstIndex(groups, KeyIs(e.aggregateId))
    case None => AddNewGroup(groups, events, e);
    case Some(k) => AddToGroup(groups, events, e, k);
  }

  lemma {:induction false} NoEventsOf(events: seq<DomainEvent>, churchId: string)
    requires forall j :: 0 <= j < |events| ==> events[j].aggregateId != churchId
    ensures Seqs.Filter(events, ChurchIs(churchId)) == []
  {
    if events != [] {
      NoEventsOf(events[..|events| - 1], churchId);
    }
  }

  lemma AddNewGroup(groups: seq<Group>, events: seq<DomainEvent>, e: DomainEvent)
    requires GroupsHold(groups, events)
    requires forall k :: 0 <= k < |groups| ==> groups[k].churchId != e.aggregateId
    requires forall j :: 0 <= j < |events| ==> events[j].aggregateId in Keys(groups)
    ensures GroupsHold(groups + [Group(e.aggregateId, [ToEntry(e)])], events + [e])
  {
    var after := groups + [Group(e.aggregateId, [ToEntry(e)])];
    forall k | 0 <= k < |after| ensures after[k].entries == Entries(Seqs.Filter(events + [e], ChurchIs(after[k].churchId))) {
      Seqs.FilterAppend(events, e, ChurchIs(after[k].churchId));
      if k == |groups| {
        forall j | 0 <= j < |events| ensures events[j].aggregateId != e.aggregateId {
          assert events[j].aggregateId in Keys(groups);
        }
        NoEventsOf(events, e.aggregateId);
        EntriesAppend([], e);
      }
    }
  }

  lemma AddToGroup(groups: seq<Group>, events: seq<DomainEvent>, e: DomainEvent, k: nat)
    requires GroupsHold(groups, events) && Seqs.NoDuplicates(Keys(groups))
    requires k < |groups| && groups[k].churchId == e.aggregateId
    ensures GroupsHold(groups[k := groups[k].(entries := groups[k].entries + [ToEntry(e)])], events + [e])
  {
    var after := groups[k := groups[k].(entries := groups[k].entries + [ToEntry(e)])];
    forall j | 0 <= j < |after| ensures after[j].entries == Entries(Seqs.Filter(events + [e], ChurchIs(after[j].churchId))) {
      Seqs.FilterAppend(events, e, ChurchIs(after[j].churchId));
      if j == k {
        EntriesAppend(Seqs.Filter(events, ChurchIs(e.aggregateId)), e);
      } else {
        assert Keys(groups)[j] != Keys(groups)[k];
      }
    }
  }

  lemma {:induction false} GroupedKeys(events: seq<DomainEvent>)
    ensures Keys(Grouped(events)) == Seqs.Dedupe(ChurchIds(events))
  {
    if events != [] {
      var init := events[..|events| - 1];
      GroupedKeys(init);
      assert ChurchIds(events)[..|events| - 1] == ChurchIds(init);
      AddEventKeys(Grouped(init), events[|events| - 1]);
    }
  }

  lemma {:induction false} GroupedSize(events: seq<DomainEvent>)
    ensures Size(Grouped(events)) == |events|
  {
    if events != [] {
      var init := events[..|events| - 1];
      GroupedSize(init);
      AddEventSize(Grouped(init), events[|events| - 1]);
    }
  }

  lemma {:induction false} GroupedHold(events: seq<DomainEvent>)
    ensures GroupsHold(Grouped(events), events)
  {
    if events != [] {
      var init := events[..|events| - 1];
      var e := events[|events| - 1];
      assert init + [e] == events;
      GroupedHold(init);
      var before := Grouped(init);
      GroupedKeys(init);
      assert forall j :: 0 <= j < |init| ==> init[j].aggregateId in Keys(before) by {
        assert forall j :: 0 <= j < |init| ==> ChurchIds(init)[j] == init[j].aggregateId;
      }
      AddEventEntries(before, init, e);
    }
  }

  /**
   * One group per distinct church id, in the order the churches first occur;
   * each group holds the entries of exactly that church's events in event order;
   * and the group sizes add up to the number of events.
   */
  lemma GroupedFacts(events: seq<DomainEvent>)
    ensures var groups := Grouped(events);
            && Keys(groups) == Seqs.Dedupe(ChurchIds(events))
            && GroupsHold(groups, events)
            && Size(groups) == |events|
  {
    GroupedKeys(events);
    GroupedHold(events);
    GroupedSize(events);
  }

  /** The grouping loop of `rebuildAllAuditReadModels`. */
  method GroupByChurch(events: seq<DomainEvent>) returns (groups: seq<Group>)
    ensures groups == Grouped(events)
  {
    groups := [];
    for i := 0 to |events|
      invariant groups == Grouped(events[..i])
    {
      assert events[..i + 1][..i] == events[..i];
      var e := events[i];
      match Seqs.FirstIndex(groups, KeyIs(e.aggregateId)) {
        case None =>
          groups := groups + [Group(e.aggregateId, [ToEntry(e)])];
        case Some(k) =>
          groups := groups[k := groups[k].(entries := groups[k].entries + [ToEntry(e)])];
      }
    }
    assert events[..|events|] == events;
  }

  /** `rebuildAllAuditReadModels`: the audit events of every church, grouped by church. */
  method RebuildAllAuditReadModels(store: Result<seq<DomainEvent>, string>) returns (r: Result<seq<Group>, string>)
    ensures store.Err? ==> r == Err(store.error)
    ensures store.Ok? ==> r == Ok(Grouped(FileEventStore.Query(store.value, ChurchAudit(None)).events))
  {
    match store {
      case Err(e) =>
        return Err(e);
      case Ok(events) =>
        var groups := GroupByChurch(FileEventStore.Query(events, ChurchAudit(None)).events);
        return Ok(groups);
    }
  }

  /** `getAuditEventCount`: the store's count of audit events, for one church or all of them. */
  function AuditEventCount(store: Result<seq<DomainEvent>, string>, churchId: Option<string>): Result<nat, string>
  {
    match store
    case Err(e) => Err(e)
    case Ok(events) => Ok(FileEventStore.Query(events, ChurchAudit(churchId)).totalCount)
  }

  /** The count for a church is the number of entries its rebuild yields. */
  lemma CountMatchesRebuild(store: Result<seq<DomainEvent>, string>, churchId: string)
    ensures AuditEventCount(store, Some(churchId)).Ok? <==> RebuildAuditReadModel(store, churchId).Ok?
    ensures store.Ok? ==> AuditEventCount(store, Some(churchId)).value == |RebuildAuditReadModel(store, churchId).value|
  {
    if store.Ok? {
      FileEventStore.QueryFacts(store.value, ChurchAudit(Some(churchId)));
    }
  }
}
