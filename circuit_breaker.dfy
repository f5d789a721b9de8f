/**
 * The circuit breaker that guards calls to a failing service: CLOSED lets
 * calls through and counts failures, OPEN fails fast until the timeout has
 * passed since the last failure, HALF_OPEN lets a trial call through and
 * closes again after enough successes. The wrapped call is outside the
 * model: its outcome and latency are parameters, as is the clock.
 */
module CircuitBreaker {
  import opened Wrappers
  import JsString

  type Time = int

  datatype BreakerState = Closed | Open | HalfOpen
  {
    function Name(): string
    {
      match this
      case Closed => "CLOSED"
      case Open => "OPEN"
      case HalfOpen => "HALF_OPEN"
    }
  }

  datatype Transition = Transition(from: BreakerState, to: BreakerState, timestamp: Time, reason: Option<string>)

  /** The three settings (`failureThreshold`, `timeoutMs`, `halfOpenSuccessThreshold`). */
  datatype Config = Config(failureThreshold: int, timeoutMs: int, halfOpenSuccessThreshold: int)

  /** Everything the breaker tracks. */
  datatype Breaker = Breaker(
    state: BreakerState,
    lastFailureTime: Option<Time>,
    lastSuccessTime: Option<Time>,
    successCount: nat,
    failureCount: nat,
    totalRequests: nat,
    latencies: seq<int>,
    transitions: seq<Transition>,
    halfOpenSuccessCount: nat,
    halfOpenAttemptCount: nat)

  /** What `getMetrics` reports. */
  datatype Metrics = Metrics(
    successCount: nat, failureCount: nat, lastFailureTime: Option<Time>, lastSuccessTime: Option<Time>,
    totalRequests: nat, successRate: real, averageLatencyMs: real, stateTransitions: seq<Transition>)

  const HistoryLimit := 100
  const OpenMessage := "Circuit breaker is OPEN - service unavailable"
  const DefaultConfig := Config(5, 60000, 1)
  const Initial := Breaker(Closed, None, None, 0, 0, 0, [], [], 0, 0)

  /** `push` followed by `shift` when the buffer has grown past 100 entries. */
  function Keep<T>(buf: seq<T>, x: T): (r: seq<T>)
    ensures |buf| < HistoryLimit ==> r == buf + [x]
    ensures |buf| >= HistoryLimit ==> r == buf[1..] + [x]
    ensures |buf| <= HistoryLimit ==> |r| <= HistoryLimit
  {
    var pushed := buf + [x];
    if |pushed| > HistoryLimit then pushed[1..] else pushed
  }

  /** The buffer keeps the newest entries: it is always a suffix of the history pushed so far. */
  lemma KeepDropsOldest<T>(buf: seq<T>, x: T)
    ensures var r := Keep(buf, x);
            && |r| >= 1 && r[|r| - 1] == x
            && r == (buf + [x])[|buf| + 1 - |r|..]
  {
    var pushed := buf + [x];
    if |pushed| > HistoryLimit {
      assert Keep(buf, x) == pushed[1..];
    }
  }

  /** `transitionTo`: the new state, with the change recorded in the bounded history. */
  function TransitionTo(b: Breaker, to: BreakerState, reason: Option<string>, at: Time): (r: Breaker)
    ensures r == b.(state := to, transitions := Keep(b.transitions, Transition(b.state, to, at, reason)))
  {
    b.(state := to, transitions := Keep(b.transitions, Transition(b.state, to, at, reason)))
  }

  /** `recordSuccess`, at time `at` after a call of `latency` milliseconds. */
  function RecordSuccess(b: Breaker, cfg: Config, latency: int, at: Time): Breaker
  {
    var counted := b.(successCount := b.successCount + 1, lastSuccessTime := Some(at), latencies := Keep(b.latencies, latency));
    if b.state != HalfOpen then counted else TrialSuccess(counted, cfg, at)
  }

  /** A success while HALF_OPEN: one more trial success, and CLOSED again once there are enough. */
  function TrialSuccess(b: Breaker, cfg: Config, at: Time): Breaker
  {
    var trial := b.(halfOpenSuccessCount := b.halfOpenSuccessCount + 1, halfOpenAttemptCount := b.halfOpenAttemptCount + 1);
    if trial.halfOpenSuccessCount >= cfg.halfOpenSuccessThreshold then
      TransitionTo(trial, Closed, Some("Recovery successful"), at).(failureCount := 0, halfOpenSuccessCount := 0, halfOpenAttemptCount := 0)
    else trial
  }

  /** `recordFailure`, at time `at` after a call of `latency` milliseconds. */
  function RecordFailure(b: Breaker, cfg: Config, latency: int, at: Time): Breaker
  {
    var counted := b.(failureCount := b.failureCount + 1, lastFailureTime := Some(at), latencies := Keep(b.latencies, latency));
    FailureReaction(counted, cfg, at)
  }

  /** After a failure is counted: CLOSED opens at the threshold, HALF_OPEN opens at once, OPEN stays. */
  function FailureReaction(b: Breaker, cfg: Config, at: Time): Breaker
  {
    if b.state == Closed then
      if b.failureCount >= cfg.failureThreshold then
        TransitionTo(b, Open, Some("Failures exceeded threshold (" + JsString.NumberText(b.failureCount) + ")"), at)
      else b
    else if b.state == HalfOpen then
      TransitionTo(b, Open, Some("Failed during recovery test"), at).(halfOpenSuccessCount := 0, halfOpenAttemptCount := 0)
    else b
  }

  /** `shouldAttemptReset`: some failure happened and at least `timeoutMs` have passed since the last one. */
  predicate ShouldAttemptReset(b: Breaker, cfg: Config, now: Time)
  {
    b.lastFailureTime.Some? && now - b.lastFailureTime.value >= cfg.timeoutMs
  }

  /** Whether `execute` calls the wrapped function. */
  predicate Admits(b: Breaker, cfg: Config, now: Time)
  {
    b.state != Open || ShouldAttemptReset(b, cfg, now)
  }

  /** The breaker after an admitted call that started at `now`, succeeded or not, and took `latency`. */
  function AfterCall(b: Breaker, cfg: Config, now: Time, succeeded: bool, latency: int): Breaker
  {
    var counted := b.(totalRequests := b.totalRequests + 1);
    Outcome(Ready(counted, now), cfg, succeeded, latency, now + latency)
  }

  /** The breaker just before an admitted call: an open one has moved to HALF_OPEN. */
  function Ready(b: Breaker, now: Time): Breaker
  {
    if b.state == Open then TransitionTo(b, HalfOpen, Some("Timeout elapsed"), now) else b
  }

  /** A call's outcome recorded at `at`: `recordSuccess` or `recordFailure`. */
  function Outcome(b: Breaker, cfg: Config, succeeded: bool, latency: int, at: Time): Breaker
  {
    if succeeded then RecordSuccess(b, cfg, latency, at) else RecordFailure(b, cfg, latency, at)
  }

  /** `reset`: back to CLOSED with the counters and latencies cleared; the request total stays. */
  function Reset(b: Breaker, at: Time): (r: Breaker)
    ensures r.state == Closed && r.successCount == 0 && r.failureCount == 0 && r.latencies == []
    ensures r.halfOpenSuccessCount == 0 && r.halfOpenAttemptCount == 0
    ensures r.totalRequests == b.totalRequests
    ensures r.lastFailureTime == b.lastFailureTime && r.lastSuccessTime == b.lastSuccessTime
    ensures |r.transitions| >= 1 && r.transitions[|r.transitions| - 1] == Transition(b.state, Closed, at, Some("Manual reset"))
  {
    KeepDropsOldest(b.transitions, Transition(b.state, Closed, at, Some("Manual reset")));
    TransitionTo(b, Closed, Some("Manual reset"), at)
      .(failureCount := 0, successCount := 0, latencies := [], halfOpenSuccessCount := 0, halfOpenAttemptCount := 0)
  }

  function Sum(xs: seq<int>): int
  {
    if xs == [] then 0 else Sum(xs[..|xs| - 1]) + xs[|xs| - 1]
  }

  /** `successCount / totalRequests * 100`, or 100 before any request. */
  function SuccessRate(b: Breaker): (rate: real)
    ensures b.totalRequests == 0 ==> rate == 100.0
    ensures b.successCount <= b.totalRequests ==> 0.0 <= rate <= 100.0
  {
    if b.totalRequests > 0 then
      PercentBound(b.successCount as real, b.totalRequests as real);
      (b.successCount as real / b.totalRequests as real) * 100.0
    else 100.0
  }

  /** A part of a positive whole is between 0 and 100 percent of it. */
  lemma PercentBound(part: real, whole: real)
    requires 0.0 <= part && whole > 0.0
    ensures part / whole >= 0.0
    ensures part <= whole ==> part / whole * 100.0 <= 100.0
  {
    var q := part / whole;
    assert q * whole == part;
  }

  /** The mean of the kept latencies, or 0 when there are none. */
  function AverageLatency(b: Breaker): (avg: real)
    ensures b.latencies == [] ==> avg == 0.0
    ensures (forall k :: 0 <= k < |b.latencies| ==> b.latencies[k] >= 0) ==> avg >= 0.0
  {
    SumNonNegative(b.latencies);
    if |b.latencies| > 0 then Sum(b.latencies) as real / |b.latencies| as real else 0.0
  }

  lemma {:induction false} SumNonNegative(xs: seq<int>)
    ensures (forall k :: 0 <= k < |xs| ==> xs[k] >= 0) ==> Sum(xs) >= 0
  {
    if xs != [] {
      SumNonNegative(xs[..|xs| - 1]);
    }
  }

  function MetricsOf(b: Breaker): Metrics
  {
    Metrics(b.successCount, b.failureCount, b.lastFailureTime, b.lastSuccessTime, b.totalRequests,
            SuccessRate(b), AverageLatency(b), b.transitions)
  }

  /**
   * What every reachable breaker satisfies: an open breaker has seen a failure,
   * every counted outcome was a request, and both histories hold at most 100 entries.
   */
  predicate Valid(b: Breaker)
  {
    && (b.state == Open ==> b.lastFailureTime.Some?)
    && b.successCount + b.failureCount <= b.totalRequests
    && |b.latencies| <= HistoryLimit && |b.transitions| <= HistoryLimit
  }

  /** Every `execute` keeps the breaker valid, whether it fails fast or calls through. */
  lemma ExecuteKeepsValid(b: Breaker, cfg: Config, now: Time, succeeded: bool, latency: int)
    requires Valid(b)
    ensures Valid(b.(totalRequests := b.totalRequests + 1))
    ensures Valid(AfterCall(b, cfg, now, succeeded, latency))
  {
  }

  lemma ResetKeepsValid(b: Breaker, at: Time)
    requires Valid(b)
    ensures Valid(Reset(b, at))
  {
  }

  /** In CLOSED a failure adds one to the count, and the breaker opens exactly when the count reaches the threshold. */
  lemma ClosedFailure(b: Breaker, cfg: Config, now: Time, latency: int)
    requires b.state == Closed
    ensures var r := AfterCall(b, cfg, now, false, latency);
            && r.failureCount == b.failureCount + 1
            && (r.state == Open <==> b.failureCount + 1 >= cfg.failureThreshold)
            && (r.state != Open ==> r.state == Closed)
  {
  }

  /** In CLOSED a success does not reset the failure count. */
  lemma ClosedSuccess(b: Breaker, cfg: Config, now: Time, latency: int)
    requires b.state == Closed
    ensures var r := AfterCall(b, cfg, now, true, latency);
            r.state == Closed && r.failureCount == b.failureCount && r.successCount == b.successCount + 1
  {
  }

  /** A default breaker opens on the fifth failure in a row and not before. */
  lemma FifthFailureOpens(now: Time)
    ensures var b4 := AfterCall(AfterCall(AfterCall(AfterCall(Initial, DefaultConfig, now, false, 0),
                                DefaultConfig, now, false, 0), DefaultConfig, now, false, 0), DefaultConfig, now, false, 0);
            && b4.state == Closed && b4.failureCount == 4
            && AfterCall(b4, DefaultConfig, now, false, 0).state == Open
  {
    var b1 := AfterCall(Initial, DefaultConfig, now, false, 0);
    ClosedFailure(Initial, DefaultConfig, now, 0);
    var b2 := AfterCall(b1, DefaultConfig, now, false, 0);
    ClosedFailure(b1, DefaultConfig, now, 0);
    var b3 := AfterCall(b2, DefaultConfig, now, false, 0);
    ClosedFailure(b2, DefaultConfig, now, 0);
    var b4 := AfterCall(b3, DefaultConfig, now, false, 0);
    ClosedFailure(b3, DefaultConfig, now, 0);
    ClosedFailure(b4, DefaultConfig, now, 0);
  }

  /** An open breaker that is valid lets a call through exactly once the timeout has passed since the last failure. */
  lemma OpenWaitsForTimeout(b: Breaker, cfg: Config, now: Time)
    requires Valid(b) && b.state == Open
    ensures Admits(b, cfg, now) <==> now - b.lastFailureTime.value >= cfg.timeoutMs
  {
  }

  /** An admitted call on an open breaker runs in HALF_OPEN, recorded as a "Timeout elapsed" transition. */
  lemma OpenMovesToHalfOpen(b: Breaker, cfg: Config, now: Time, succeeded: bool, latency: int)
    requires b.state == Open && |b.transitions| < HistoryLimit
    ensures var ready := TransitionTo(b.(totalRequests := b.totalRequests + 1), HalfOpen, Some("Timeout elapsed"), now);
            && ready.state == HalfOpen
            && ready.transitions == b.transitions + [Transition(Open, HalfOpen, now, Some("Timeout elapsed"))]
            && AfterCall(b, cfg, now, succeeded, latency)
                 == (if succeeded then RecordSuccess(ready, cfg, latency, now + latency) else RecordFailure(ready, cfg, latency, now + latency))
  {
  }

  /** In HALF_OPEN any failure reopens the breaker and clears the trial counters. */
  lemma HalfOpenFailureReopens(b: Breaker, cfg: Config, now: Time, latency: int)
    requires b.state == HalfOpen
    ensures var r := AfterCall(b, cfg, now, false, latency);
            r.state == Open && r.halfOpenSuccessCount == 0 && r.halfOpenAttemptCount == 0 && r.lastFailureTime == Some(now + latency)
  {
  }

  /** In HALF_OPEN the success that reaches the threshold closes the breaker and clears the failure count; one short of it stays. */
  lemma HalfOpenSuccess(b: Breaker, cfg: Config, now: Time, latency: int)
    requires b.state == HalfOpen
    ensures var r := AfterCall(b, cfg, now, true, latency);
            && (b.halfOpenSuccessCount + 1 >= cfg.halfOpenSuccessThreshold ==>
                  r.state == Closed && r.failureCount == 0 && r.halfOpenSuccessCount == 0)
            && (b.halfOpenSuccessCount + 1 < cfg.halfOpenSuccessThreshold ==>
                  r.state == HalfOpen && r.halfOpenSuccessCount == b.halfOpenSuccessCount + 1)
  {
  }

  /** Every `execute`, admitted or not, adds one request. */
  lemma EveryExecuteCounts(b: Breaker, cfg: Config, now: Time, succeeded: bool, latency: int)
    ensures AfterCall(b, cfg, now, succeeded, latency).totalRequests == b.totalRequests + 1
  {
  }

  /** The circuit breaker service: the breaker's fields and its settings, changed by each call. */
  class CircuitBreakerService {
    var state: BreakerState
    var lastFailureTime: Option<Time>
    var lastSuccessTime: Option<Time>
    var failureThreshold: int
    var timeoutMs: int
    var halfOpenSuccessThreshold: int
    var successCount: nat
    var failureCount: nat
    var totalRequests: nat
    var latencies: seq<int>
    var stateTransitions: seq<Transition>
    var halfOpenSuccessCount: nat
    var halfOpenAttemptCount: nat

    /** The fields as one value. */
    function Current(): Breaker
      reads this
    {
      Breaker(state, lastFailureTime, lastSuccessTime, successCount, failureCount, totalRequests,
              latencies, stateTransitions, halfOpenSuccessCount, halfOpenAttemptCount)
    }

    function Settings(): Config
      reads this
    {
      Config(failureThreshold, timeoutMs, halfOpenSuccessThreshold)
    }

    /** A new breaker is CLOSED with no history and the default settings. */
    constructor ()
      ensures Current() == Initial && Settings() == DefaultConfig
    {
      state := Closed;
      lastFailureTime, lastSuccessTime := None, None;
      failureThreshold, timeoutMs, halfOpenSuccessThreshold := 5, 60000, 1;
      successCount, failureCount, totalRequests := 0, 0, 0;
      latencies, stateTransitions := [], [];
      halfOpenSuccessCount, halfOpenAttemptCount := 0, 0;
    }

    /**
     * `execute`: `outcome` is what the wrapped function gives (its value or its
     * error), `fallback` the fallback's value if one was given. `called` says
     * whether the wrapped function was run.
     */
    method Execute<T>(outcome: Result<T, string>, fallback: Option<T>, latency: int, now: Time)
      returns (r: Result<T, string>, called: bool)
      modifies this
      ensures Settings() == old(Settings())
      ensures called == Admits(old(Current()), old(Settings()), now)
      ensures !called ==> && Current() == old(Current()).(totalRequests := old(totalRequests) + 1)
                          && r == (if fallback.Some? then Ok(fallback.value) else Err(OpenMessage))
      ensures called ==> r == outcome && Current() == AfterCall(old(Current()), Settings(), now, outcome.Ok?, latency)
    {
      totalRequests := totalRequests + 1;
      called := Admit(now);
      if !called {
        if fallback.Some? {
          r := Ok(fallback.value);
        } else {
          r := Err(OpenMessage);
        }
        return;
      }
      RecordOutcomeAt(outcome.Ok?, latency, now + latency);
      r := outcome;
    }

    /** The OPEN check at the start of `execute`: refuse, or move to HALF_OPEN once the timeout has passed. */
    method Admit(now: Time) returns (admitted: bool)
      modifies this
      ensures Settings() == old(Settings())
      ensures admitted == Admits(old(Current()), Settings(), now)
      ensures admitted ==> Current() == Ready(old(Current()), now)
      ensures !admitted ==> Current() == old(Current())
    {
      if state == Open {
        if ShouldAttemptReset(Current(), Settings(), now) {
          TransitionToState(HalfOpen, Some("Timeout elapsed"), now);
        } else {
          return false;
        }
      }
      return true;
    }

    /** The `try`/`catch` around the wrapped call: its success or its failure is recorded. */
    method RecordOutcomeAt(succeeded: bool, latency: int, at: Time)
      modifies this
      ensures Settings() == old(Settings())
      ensures Current() == Outcome(old(Current()), Settings(), succeeded, latency, at)
    {
      if succeeded {
        RecordSuccessAt(latency, at);
      } else {
        RecordFailureAt(latency, at);
      }
    }

    function GetMetrics(): (m: Metrics)
      reads this
      ensures m == MetricsOf(Current())
    {
      MetricsOf(Current())
    }

    method ResetBreaker(at: Time)
      modifies this
      ensures Settings() == old(Settings())
      ensures Current() == Reset(old(Current()), at)
    {
      TransitionToState(Closed, Some("Manual reset"), at);
      failureCount, successCount := 0, 0;
      latencies := [];
      halfOpenSuccessCount, halfOpenAttemptCount := 0, 0;
    }

    method SetFailureThreshold(threshold: int)
      modifies this`failureThreshold
      ensures failureThreshold == threshold
    {
      failureThreshold := threshold;
    }

    method SetTimeout(ms: int)
      modifies this`timeoutMs
      ensures timeoutMs == ms
    {
      timeoutMs := ms;
    }

    method SetHalfOpenSuccessThreshold(threshold: int)
      modifies this`halfOpenSuccessThreshold
      ensures halfOpenSuccessThreshold == threshold
    {
      halfOpenSuccessThreshold := threshold;
    }

    method RecordSuccessAt(latency: int, at: Time)
      modifies this
      ensures Settings() == old(Settings())
      ensures Current() == RecordSuccess(old(Current()), Settings(), latency, at)
    {
      successCount := successCount + 1;
      lastSuccessTime := Some(at);
      PushLatency(latency);
      if state == HalfOpen {
        CountTrialSuccess(at);
      }
    }

    /** The HALF_OPEN part of `recordSuccess`. */
    method CountTrialSuccess(at: Time)
      modifies this
      ensures Settings() == old(Settings())
      ensures Current() == TrialSuccess(old(Current()), Settings(), at)
    {
      halfOpenSuccessCount := halfOpenSuccessCount + 1;
      halfOpenAttemptCount := halfOpenAttemptCount + 1;
      if halfOpenSuccessCount >= halfOpenSuccessThreshold {
        TransitionToState(Closed, Some("Recovery successful"), at);
        failureCount := 0;
        halfOpenSuccessCount := 0;
        halfOpenAttemptCount := 0;
      }
    }

    method RecordFailureAt(latency: int, at: Time)
      modifies this
      ensures Settings() == old(Settings())
      ensures Current() == RecordFailure(old(Current()), Settings(), latency, at)
    {
      failureCount := failureCount + 1;
      lastFailureTime := Some(at);
      PushLatency(latency);
      ReactToFailure(at);
    }

    /** The state-dependent part of `recordFailure`, once the failure is counted. */
    method ReactToFailure(at: Time)
      modifies this
      ensures Settings() == old(Settings())
      ensures Current() == FailureReaction(old(Current()), Settings(), at)
    {
      if state == Closed {
        if failureCount >= failureThreshold {
          TransitionToState(Open, Some("Failures exceeded threshold (" + JsString.NumberText(failureCount) + ")"), at);
        }
      } else if state == HalfOpen {
        TransitionToState(Open, Some("Failed during recovery test"), at);
        halfOpenSuccessCount := 0;
        halfOpenAttemptCount := 0;
      }
    }

    /** `this.latencies.push(latency)`, then the oldest one dropped past the limit. */
    method PushLatency(latency: int)
      modifies this`latencies
      ensures latencies == Keep(old(latencies), latency)
    {
      latencies := latencies + [latency];
      if |latencies| > HistoryLimit {
        latencies := latencies[1..];
      }
    }

    method TransitionToState(to: BreakerState, reason: Option<string>, at: Time)
      modifies this`state, this`stateTransitions
      ensures Current() == TransitionTo(old(Current()), to, reason, at)
    {
      stateTransitions := stateTransitions + [Transition(state, to, at, reason)];
      state := to;
      if |stateTransitions| > HistoryLimit {
        stateTransitions := stateTransitions[1..];
      }
    }
  }
}
