/**
 * The event store: domain events in append order, queried by conjunctive
 * filters followed by offset/limit pagination. The NDJSON file is the
 * sequence of events itself; fresh ids and timestamps are parameters.
 */
module FileEventStore {
  import opened Wrappers
  import opened Json
  import Seqs
  import JsString
  import Sorting

  type Time = int

  datatype DomainEvent = DomainEvent(
    id: string, aggregateId: string, aggregateType: string, eventType: string,
    version: int, timestamp: Time, data: Json, metadata: Option<Json>)

  /** What `append` is given: a domain event without its id and timestamp. */
  datatype NewEvent = NewEvent(
    aggregateId: string, aggregateType: string, eventType: string, version: int, data: Json, metadata: Option<Json>)

  datatype QueryOptions = QueryOptions(
    aggregateId: Option<string>, aggregateType: Option<string>, eventType: Option<string>,
    fromVersion: Option<int>, toVersion: Option<int>, limit: Option<int>, offset: Option<int>)

  datatype QueryResult = QueryResult(events: seq<DomainEvent>, totalCount: nat, offset: int, limit: int)

  const NoOptions := QueryOptions(None, None, None, None, None, None, None)

  /** A string filter is applied only when it is given and non-empty. */
  predicate Given(o: Option<string>)
  {
    o.Some? && o.value != ""
  }

  /** The event passes every filter of the query that is set. */
  predicate MatchesOptions(e: DomainEvent, o: QueryOptions)
  {
    && (Given(o.aggregateId) ==> e.aggregateId == o.aggregateId.value)
    && (Given(o.aggregateType) ==> e.aggregateType == o.aggregateType.value)
    && (Given(o.eventType) ==> e.eventType == o.eventType.value)
    && (o.fromVersion.Some? ==> e.version >= o.fromVersion.value)
    && (o.toVersion.Some? ==> e.version <= o.toVersion.value)
  }

  function Matching(o: QueryOptions): DomainEvent -> bool
  {
    (e: DomainEvent) => MatchesOptions(e, o)
  }

  /** `query`: the matching events in append order, then `slice(offset, offset + limit)`; the limit defaults to the match count. */
  function Query(events: seq<DomainEvent>, o: QueryOptions): QueryResult
  {
    var matching := Seqs.Filter(events, Matching(o));
    var offset := o.offset.OrElse(0);
    var limit := o.limit.OrElse(|matching|);
    QueryResult(JsString.Slice(matching, offset, offset + limit), |matching|, offset, limit)
  }

  /** An event is among the matches exactly when it is stored and passes every filter; the matches keep append order. */
  lemma MatchingFacts(events: seq<DomainEvent>, o: QueryOptions)
    ensures var matching := Seqs.Filter(events, Matching(o));
            && (forall e :: e in matching <==> e in events && MatchesOptions(e, o))
            && Seqs.IsSubsequence(matching, events)
  {
    Seqs.FilterIsSubsequence(events, Matching(o));
    forall e ensures e in Seqs.Filter(events, Matching(o)) <==> e in events && MatchesOptions(e, o) {
      Seqs.FilterMembers(events, Matching(o), e);
    }
  }

  /**
   * `totalCount` counts the matches before paging; without offset and limit the
   * result is every match, and otherwise it is the window of at most `limit`
   * matches from the offset on. Every returned event matches.
   */
  lemma QueryFacts(events: seq<DomainEvent>, o: QueryOptions)
    ensures var r := Query(events, o);
            var matching := Seqs.Filter(events, Matching(o));
            && r.totalCount == |matching|
            && r.offset == o.offset.OrElse(0) && r.limit == o.limit.OrElse(|matching|)
            && (o.offset.None? && o.limit.None? ==> r.events == matching)
            && (forall k :: 0 <= k < |r.events| ==> r.events[k] in matching)
            && (0 <= r.offset && 0 <= r.limit ==> |r.events| <= r.limit)
            && (0 <= r.offset < |matching| && 0 <= r.limit ==>
                  r.events == matching[r.offset..if r.offset + r.limit <= |matching| then r.offset + r.limit else |matching|])
  {
    var matching := Seqs.Filter(events, Matching(o));
    var offset, limit := o.offset.OrElse(0), o.limit.OrElse(|matching|);
    JsString.SliceWithin(matching, offset, limit, Query(events, o).events);
  }

  /** Appending an event that matches a query adds it as the last match; one that does not match changes nothing. */
  lemma AppendThenQuery(events: seq<DomainEvent>, e: DomainEvent, o: QueryOptions)
    requires o.offset.None? && o.limit.None?
    ensures Query(events + [e], o).events
              == if MatchesOptions(e, o) then Query(events, o).events + [e] else Query(events, o).events
  {
    Seqs.FilterAppend(events, e, Matching(o));
    QueryFacts(events, o);
    QueryFacts(events + [e], o);
  }

  function VersionKey(e: DomainEvent): Sorting.SortKey
  {
    Sorting.Num(e.version)
  }

  /** `getByAggregateId`: the events of one aggregate (id and type), ordered by version; equal versions keep append order. */
  function ByAggregate(events: seq<DomainEvent>, aggregateId: string, aggregateType: string): seq<DomainEvent>
  {
    Sorting.SortBy(Query(events, AggregateOptions(aggregateId, aggregateType)).events, VersionKey, false)
  }

  function AggregateOptions(aggregateId: string, aggregateType: string): QueryOptions
  {
    QueryOptions(Some(aggregateId), Some(aggregateType), None, None, None, None, None)
  }

  /** The events of an aggregate come out in ascending version, as many as the store holds for it. */
  lemma ByAggregateSorted(events: seq<DomainEvent>, aggregateId: string, aggregateType: string)
    ensures var r := ByAggregate(events, aggregateId, aggregateType);
            && (forall i, j :: 0 <= i < j < |r| ==> r[i].version <= r[j].version)
            && |r| == |Seqs.Filter(events, Matching(AggregateOptions(aggregateId, aggregateType)))|
  {
    QueryFacts(events, AggregateOptions(aggregateId, aggregateType));
    var r := ByAggregate(events, aggregateId, aggregateType);
    forall i, j | 0 <= i < j < |r| ensures r[i].version <= r[j].version {
      assert !Sorting.Before(VersionKey, false, r[j], r[i]);
    }
  }

  /** They are exactly the stored events with that aggregate id and type. */
  lemma ByAggregateMembers(events: seq<DomainEvent>, aggregateId: string, aggregateType: string, e: DomainEvent)
    requires aggregateId != "" && aggregateType != ""
    ensures (e in ByAggregate(events, aggregateId, aggregateType))
        <==> (e in events && e.aggregateId == aggregateId && e.aggregateType == aggregateType)
  {
    var o := AggregateOptions(aggregateId, aggregateType);
    QueryFacts(events, o);
    MatchingFacts(events, o);
    var q := Query(events, o).events;
    var r := ByAggregate(events, aggregateId, aggregateType);
    assert multiset(r) == multiset(q);
    assert e in r <==> e in multiset(r);
    assert e in q <==> e in multiset(q);
  }

  /** The event `append` stores: the given fields with a fresh id and the current time. */
  function Stamped(e: NewEvent, id: string, now: Time): (d: DomainEvent)
    ensures d.id == id && d.timestamp == now
    ensures NewEvent(d.aggregateId, d.aggregateType, d.eventType, d.version, d.data, d.metadata) == e
  {
    DomainEvent(id, e.aggregateId, e.aggregateType, e.eventType, e.version, now, e.data, e.metadata)
  }

  /** The store; its `events` are the lines of the event file, in append order. */
  class FileEventStoreService {
    var events: seq<DomainEvent>

    constructor ()
      ensures events == []
    {
      events := [];
    }

    method Append(e: NewEvent, id: string, now: Time) returns (d: DomainEvent)
      modifies this
      ensures d == Stamped(e, id, now)
      ensures events == old(events) + [d]
    {
      d := DomainEvent(id, e.aggregateId, e.aggregateType, e.eventType, e.version, now, e.data, e.metadata);
      events := events + [d];
    }

    function QueryEvents(o: QueryOptions): (r: QueryResult)
      reads this
      ensures r == Query(events, o)
    {
      Query(events, o)
    }

    function GetByAggregateId(aggregateId: string, aggregateType: string): (r: seq<DomainEvent>)
      reads this
      ensures r == ByAggregate(events, aggregateId, aggregateType)
    {
      ByAggregate(events, aggregateId, aggregateType)
    }

    /** `clear`: every later query finds nothing. */
    method Clear()
      modifies this
      ensures events == []
      ensures forall o :: Query(events, o).totalCount == 0
    {
      events := [];
    }
  }
}
