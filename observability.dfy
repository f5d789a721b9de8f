/**
 * The observability service: counters and total durations per kind of
 * operation (event-store appends, queries and rebuilds; circuit-breaker
 * transitions, failures and recoveries; CQRS commands and queries), their
 * averages, and the open tracing spans. The clock and the random part of a
 * span id are parameters.
 */
module Observability {
  import opened Wrappers
  import opened Json
  import JsString

  type Time = int

  /** How often an operation ran and the milliseconds added for it. */
  datatype Tally = Tally(count: nat, totalMs: int)

  /** An open span. */
  datatype Span = Span(operationName: string, startTime: Time, attributes: Json)

  /** What `endSpan` returns. */
  datatype SpanEnd = SpanEnd(durationMs: int, operationName: string)

  datatype EventStoreMetrics = EventStoreMetrics(
    appendCount: nat, appendTotalDurationMs: int, queryCount: nat, queryTotalDurationMs: int,
    rebuildCount: nat, rebuildTotalDurationMs: int,
    appendAvgDurationMs: real, queryAvgDurationMs: real, rebuildAvgDurationMs: real)

  datatype BreakerMetrics = BreakerMetrics(stateTransitionCount: nat, failureCount: nat, recoveryCount: nat)

  datatype CqrsMetrics = CqrsMetrics(
    commandCount: nat, commandTotalDurationMs: int, queryCount: nat, queryTotalDurationMs: int,
    commandAvgDurationMs: real, queryAvgDurationMs: real)

  /** What `getMetrics` returns; `timestamp` is the ISO text of the current time. */
  datatype Metrics = Metrics(eventStore: EventStoreMetrics, circuitBreaker: BreakerMetrics, cqrs: CqrsMetrics, timestamp: string)

  const Zero := Tally(0, 0)
  const UnknownSpan := SpanEnd(0, "unknown")

  /** One operation whose duration counts only when it succeeded (appends, commands). */
  function Counted(t: Tally, durationMs: int, success: bool): Tally
  {
    Tally(t.count + 1, if success then t.totalMs + durationMs else t.totalMs)
  }

  /** `total / count`, or 0 before the first operation. */
  function Average(t: Tally): (avg: real)
    ensures t.count == 0 ==> avg == 0.0
    ensures t.count > 0 ==> avg * t.count as real == t.totalMs as real
    ensures t.count > 0 && t.totalMs >= 0 ==> avg >= 0.0
  {
    if t.count > 0 then t.totalMs as real / t.count as real else 0.0
  }

  /** The tally after recording a run of operations, each a duration and whether it succeeded. */
  function Replay(t: Tally, ops: seq<(int, bool)>): Tally
  {
    if ops == [] then t else Counted(Replay(t, ops[..|ops| - 1]), ops[|ops| - 1].0, ops[|ops| - 1].1)
  }

  /** The durations of the operations that succeeded, added up. */
  function SucceededMs(ops: seq<(int, bool)>): int
  {
    if ops == [] then 0 else (if ops[0].1 then ops[0].0 else 0) + SucceededMs(ops[1..])
  }

  lemma {:induction false} SucceededMsAppend(ops: seq<(int, bool)>, op: (int, bool))
    ensures SucceededMs(ops + [op]) == SucceededMs(ops) + (if op.1 then op.0 else 0)
  {
    if ops != [] {
      assert (ops + [op])[1..] == ops[1..] + [op];
      SucceededMsAppend(ops[1..], op);
    }
  }

  /** Every recorded operation is counted, but only the successful ones add their duration. */
  lemma {:induction false} ReplayCountsEveryOperation(ops: seq<(int, bool)>)
    ensures Replay(Zero, ops).count == |ops|
    ensures Replay(Zero, ops).totalMs == SucceededMs(ops)
  {
    if ops != [] {
      var init := ops[..|ops| - 1];
      ReplayCountsEveryOperation(init);
      SucceededMsAppend(init, ops[|ops| - 1]);
      assert init + [ops[|ops| - 1]] == ops;
    }
  }

  /** Two appends of 100 ms and 150 ms average 125 ms; a failed append is counted but adds nothing. */
  lemma AverageExamples()
    ensures Average(Replay(Zero, [(100, true), (150, true)])) == 125.0
    ensures Average(Replay(Zero, [(100, true), (200, false)])) == 50.0
  {
    assert [(100, true), (150, true)][..1] == [(100, true)];
    assert [(100, true), (200, false)][..1] == [(100, true)];
  }

  /** The id `startSpan` makes: the operation name, the start time and a random part. */
  function SpanId(operationName: string, now: Time, random: string): string
  {
    operationName + "-" + JsString.NumberText(now) + "-" + random
  }

  /** `endSpan` on the span map: the span's name and elapsed time with the span removed, or "unknown" with nothing changed. */
  function EndSpan(spans: map<string, Span>, spanId: string, now: Time): (SpanEnd, map<string, Span>)
  {
    if spanId !in spans then (UnknownSpan, spans)
    else (SpanEnd(now - spans[spanId].startTime, spans[spanId].operationName), spans - {spanId})
  }

  /**
   * Ending a started span reports its name and the time since it started and
   * leaves every other span open; ending it again reports "unknown".
   */
  lemma SpanRoundTrip(spans: map<string, Span>, spanId: string, name: string, attributes: Option<Json>, start: Time, end: Time, later: Time)
    ensures var started := spans[spanId := Span(name, start, attributes.OrElse(JObject(map[])))];
            var (result, closed) := EndSpan(started, spanId, end);
            && result == SpanEnd(end - start, name)
            && closed == spans - {spanId}
            && EndSpan(closed, spanId, later) == (UnknownSpan, closed)
  {
  }

  /** Ending an unknown span changes nothing. */
  lemma EndUnknownSpan(spans: map<string, Span>, spanId: string, now: Time)
    requires spanId !in spans
    ensures EndSpan(spans, spanId, now) == (SpanEnd(0, "unknown"), spans)
  {
  }

  class ObservabilityService {
    var appends: Tally
    var storeQueries: Tally
    var rebuilds: Tally
    var stateTransitionCount: nat
    var breakerFailureCount: nat
    var recoveryCount: nat
    var commands: Tally
    var cqrsQueries: Tally
    var spans: map<string, Span>

    /** Every counter at zero. */
    predicate Zeroed()
      reads this
    {
      && appends == Zero && storeQueries == Zero && rebuilds == Zero
      && stateTransitionCount == 0 && breakerFailureCount == 0 && recoveryCount == 0
      && commands == Zero && cqrsQueries == Zero
    }

    constructor ()
      ensures Zeroed() && spans == map[]
    {
      appends, storeQueries, rebuilds := Zero, Zero, Zero;
      stateTransitionCount, breakerFailureCount, recoveryCount := 0, 0, 0;
      commands, cqrsQueries := Zero, Zero;
      spans := map[];
    }

    method RecordEventStoreAppend(durationMs: int, success: bool)
      modifies this`appends
      ensures appends == Counted(old(appends), durationMs, success)
    {
      appends := Tally(appends.count + 1, appends.totalMs);
      if success {
        appends := appends.(totalMs := appends.totalMs + durationMs);
      }
    }

    method RecordEventStoreQuery(durationMs: int, itemCount: int)
      modifies this`storeQueries
      ensures storeQueries == Counted(old(storeQueries), durationMs, true)
    {
      storeQueries := Tally(storeQueries.count + 1, storeQueries.totalMs + durationMs);
    }

    method RecordAuditProjectionRebuild(durationMs: int, itemCount: int)
      modifies this`rebuilds
      ensures rebuilds == Counted(old(rebuilds), durationMs, true)
    {
      rebuilds := Tally(rebuilds.count + 1, rebuilds.totalMs + durationMs);
    }

    method RecordCircuitBreakerTransition(from: string, to: string, reason: Option<string>)
      modifies this`stateTransitionCount
      ensures stateTransitionCount == old(stateTransitionCount) + 1
    {
      stateTransitionCount := stateTransitionCount + 1;
    }

    method RecordCircuitBreakerFailure()
      modifies this`breakerFailureCount
      ensures breakerFailureCount == old(breakerFailureCount) + 1
    {
      breakerFailureCount := breakerFailureCount + 1;
    }

    method RecordCircuitBreakerRecovery()
      modifies this`recoveryCount
      ensures recoveryCount == old(recoveryCount) + 1
    {
      recoveryCount := recoveryCount + 1;
    }

    method RecordCqrsCommand(command: string, durationMs: int, success: bool)
      modifies this`commands
      ensures commands == Counted(old(commands), durationMs, success)
    {
      commands := Tally(commands.count + 1, commands.totalMs);
      if success {
        commands := commands.(totalMs := commands.totalMs + durationMs);
      }
    }

    method RecordCqrsQuery(query: string, durationMs: int, itemCount: int)
      modifies this`cqrsQueries
      ensures cqrsQueries == Counted(old(cqrsQueries), durationMs, true)
    {
      cqrsQueries := Tally(cqrsQueries.count + 1, cqrsQueries.totalMs + durationMs);
    }

    /** `startSpan`: opens a span under a new id and returns the id. */
    method StartSpan(operationName: string, attributes: Option<Json>, now: Time, random: string) returns (spanId: string)
      modifies this`spans
      ensures spanId == SpanId(operationName, now, random)
      ensures spans == old(spans)[spanId := Span(operationName, now, attributes.OrElse(JObject(map[])))]
    {
      spanId := SpanId(operationName, now, random);
      spans := spans[spanId := Span(operationName, now, attributes.OrElse(JObject(map[])))];
    }

    /** `endSpan`; the status and error message only go to the log. */
    method EndSpanAt(spanId: string, now: Time) returns (result: SpanEnd)
      modifies this`spans
      ensures (result, spans) == EndSpan(old(spans), spanId, now)
    {
      if spanId !in spans {
        return UnknownSpan;
      }
      var span := spans[spanId];
      spans := spans - {spanId};
      result := SpanEnd(now - span.startTime, span.operationName);
    }

    /** `getMetrics`: the counters with their averages. */
    function GetMetrics(timestamp: string): (m: Metrics)
      reads this
      ensures m.eventStore.appendCount == appends.count && m.eventStore.appendAvgDurationMs == Average(appends)
      ensures m.eventStore.queryCount == storeQueries.count && m.eventStore.queryAvgDurationMs == Average(storeQueries)
      ensures m.eventStore.rebuildCount == rebuilds.count && m.eventStore.rebuildAvgDurationMs == Average(rebuilds)
      ensures m.cqrs.commandCount == commands.count && m.cqrs.commandAvgDurationMs == Average(commands)
      ensures m.cqrs.queryCount == cqrsQueries.count && m.cqrs.queryAvgDurationMs == Average(cqrsQueries)
      ensures m.circuitBreaker == BreakerMetrics(stateTransitionCount, breakerFailureCount, recoveryCount)
    {
      Metrics(
        EventStoreMetrics(appends.count, appends.totalMs, storeQueries.count, storeQueries.totalMs,
                          rebuilds.count, rebuilds.totalMs, Average(appends), Average(storeQueries), Average(rebuilds)),
        BreakerMetrics(stateTransitionCount, breakerFailureCount, recoveryCount),
        CqrsMetrics(commands.count, commands.totalMs, cqrsQueries.count, cqrsQueries.totalMs,
                    Average(commands), Average(cqrsQueries)),
        timestamp)
    }

    /** `reset`: every counter back to zero; the open spans stay. */
    method Reset()
      modifies this
      ensures Zeroed() && spans == old(spans)
    {
      appends, storeQueries, rebuilds := Zero, Zero, Zero;
      stateTransitionCount, breakerFailureCount, recoveryCount := 0, 0, 0;
      commands, cqrsQueries := Zero, Zero;
    }
  }
}
