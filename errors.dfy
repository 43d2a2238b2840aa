/**
 * Error handling and retries (`ErrorHandler`, `MessageErrorHandler`): the
 * ordered substring classifier, the per-strategy retry delay with jitter and
 * cap, the bounded retry loop that logs one attempt per call, and the error
 * history capped at the newest 1000 entries.
 *
 * An exception is represented by its class name and its `str()`. The wall
 * clock, the event-loop clock that drives the jitter and the callable being
 * retried are parameters; `asyncio.sleep` is recorded, not performed.
 */
module Errors {
  import opened Common
  import opened Message

  datatype ErrorType =
    | NetworkError | LlmProviderError | MessageBrokerError | ValidationError
    | PermissionError | TimeoutError | UnknownError

  /** The string value of each `ErrorType` member (it is a `str` enum). */
  function ErrorTypeName(t: ErrorType): string {
    match t
    case NetworkError => "network_error"
    case LlmProviderError => "llm_provider_error"
    case MessageBrokerError => "message_broker_error"
    case ValidationError => "validation_error"
    case PermissionError => "permission_error"
    case TimeoutError => "timeout_error"
    case UnknownError => "unknown_error"
  }

  datatype RetryStrategy = Immediate | ExponentialBackoff | LinearBackoff | FixedDelay

  /** Delays are in seconds. */
  datatype RetryConfig = RetryConfig(
    maxRetries: int,
    baseDelay: real,
    maxDelay: real,
    backoffMultiplier: real,
    strategy: RetryStrategy,
    retryableErrors: seq<ErrorType>)

  const DefaultRetryConfig: RetryConfig :=
    RetryConfig(3, 1.0, 60.0, 2.0, ExponentialBackoff, [NetworkError, TimeoutError, MessageBrokerError])

  /** A raised exception: `type(error).__name__` and `str(error)`. */
  datatype Failure = Failure(className: string, text: string)

  // ---------------------------------------------------------------------------
  // Classification
  // ---------------------------------------------------------------------------

  /** The clause of `_classify_error` that selects `t`, on the lowered class name and message. */
  predicate Signals(t: ErrorType, e: Failure) {
    var name, text := Lower(e.className), Lower(e.text);
    match t
    case TimeoutError => IsSubstring("timeout", name) || IsSubstring("timeout", text)
    case NetworkError => IsSubstring("network", name) || IsSubstring("connection", text)
    case MessageBrokerError => IsSubstring("kafka", name) || IsSubstring("redpanda", text)
    case LlmProviderError =>
      IsSubstring("openai", name) || IsSubstring("anthropic", name) || IsSubstring("llm", text)
    case ValidationError => IsSubstring("validation", name) || IsSubstring("invalid", text)
    case PermissionError => IsSubstring("permission", name) || IsSubstring("unauthorized", text)
    case UnknownError => false
  }

  /** The order in which `_classify_error` tries the clauses. */
  const ClassOrder: seq<ErrorType> :=
    [TimeoutError, NetworkError, MessageBrokerError, LlmProviderError, ValidationError, PermissionError]

  /** `_classify_error`. */
  function Classify(e: Failure): ErrorType {
    if Signals(TimeoutError, e) then TimeoutError
    else if Signals(NetworkError, e) then NetworkError
    else if Signals(MessageBrokerError, e) then MessageBrokerError
    else if Signals(LlmProviderError, e) then LlmProviderError
    else if Signals(ValidationError, e) then ValidationError
    else if Signals(PermissionError, e) then PermissionError
    else UnknownError
  }

  /** The class is the first one in `ClassOrder` whose clause holds, and unknown when none does. */
  lemma ClassifyFirstMatch(e: Failure)
    ensures forall i :: 0 <= i < |ClassOrder| ==>
      (Classify(e) == ClassOrder[i] <==> Signals(ClassOrder[i], e) && forall j :: 0 <= j < i ==> !Signals(ClassOrder[j], e))
    ensures Classify(e) == UnknownError <==> forall i :: 0 <= i < |ClassOrder| ==> !Signals(ClassOrder[i], e)
  {
    assert ClassOrder[0] == TimeoutError && ClassOrder[1] == NetworkError && ClassOrder[2] == MessageBrokerError;
    assert ClassOrder[3] == LlmProviderError && ClassOrder[4] == ValidationError && ClassOrder[5] == PermissionError;
  }

  /** `ConnectionError("Connection failed")` is a network error. */
  lemma ConnectionFailedIsNetwork()
    ensures Classify(Failure("ConnectionError", "Connection failed")) == NetworkError
  {
    ConnectionErrorName();
    ConnectionFailedNoTimeout();
    ConnectionFailedText();
  }

  lemma ConnectionErrorName()
    ensures !IsSubstring("timeout", Lower("ConnectionError"))
  {
    var name := Lower("ConnectionError");
    assert 'm' !in name;
    SubstringNeedsChar("timeout", name, 'm');
  }

  lemma ConnectionFailedNoTimeout()
    ensures !IsSubstring("timeout", Lower("Connection failed"))
  {
    var text := Lower("Connection failed");
    assert 'm' !in text;
    SubstringNeedsChar("timeout", text, 'm');
  }

  lemma ConnectionFailedText()
    ensures IsSubstring("connection", Lower("Connection failed"))
  {
    var text := Lower("Connection failed");
    assert text[..10] == "connection";
  }

  /** Any exception whose class is `TimeoutError` is a timeout, whatever its message. */
  lemma TimeoutClassIsTimeout(text: string)
    ensures Classify(Failure("TimeoutError", text)) == TimeoutError
  {
    assert Lower("TimeoutError")[..7] == "timeout";
  }

  /** `ValueError("Invalid input")` is a validation error. */
  lemma InvalidInputIsValidation()
    ensures Classify(Failure("ValueError", "Invalid input")) == ValidationError
  {
    ValueErrorName();
    InvalidInputText();
  }

  lemma ValueErrorName()
    ensures var name := Lower("ValueError");
      !IsSubstring("timeout", name) && !IsSubstring("network", name) && !IsSubstring("kafka", name)
      && !IsSubstring("openai", name) && !IsSubstring("anthropic", name)
  {
    var name := Lower("ValueError");
    assert 'm' !in name && 'k' !in name && 'p' !in name && 'h' !in name;
    NoEarlierNameKeyword(name);
  }

  lemma InvalidInputText()
    ensures var text := Lower("Invalid input");
      !IsSubstring("timeout", text) && !IsSubstring("connection", text) && !IsSubstring("redpanda", text)
      && !IsSubstring("llm", text) && IsSubstring("invalid", text)
  {
    var text := Lower("Invalid input");
    assert 'm' !in text && 'c' !in text && 'r' !in text;
    assert text[..7] == "invalid";
    NoEarlierTextKeyword(text);
  }

  /** A lowered class name without `m`, `k`, `p` and `h` matches none of the name keywords before `validation`. */
  lemma NoEarlierNameKeyword(name: string)
    requires 'm' !in name && 'k' !in name && 'p' !in name && 'h' !in name
    ensures !IsSubstring("timeout", name) && !IsSubstring("network", name) && !IsSubstring("kafka", name)
    ensures !IsSubstring("openai", name) && !IsSubstring("anthropic", name)
  {
    SubstringNeedsChar("timeout", name, 'm');
    SubstringNeedsChar("network", name, 'k');
    SubstringNeedsChar("kafka", name, 'k');
    SubstringNeedsChar("openai", name, 'p');
    SubstringNeedsChar("anthropic", name, 'h');
  }

  /** A lowered message without `m`, `c` and `r` matches none of the message keywords before `invalid`. */
  lemma NoEarlierTextKeyword(text: string)
    requires 'm' !in text && 'c' !in text && 'r' !in text
    ensures !IsSubstring("timeout", text) && !IsSubstring("connection", text)
    ensures !IsSubstring("redpanda", text) && !IsSubstring("llm", text)
  {
    SubstringNeedsChar("timeout", text, 'm');
    SubstringNeedsChar("connection", text, 'c');
    SubstringNeedsChar("redpanda", text, 'r');
    SubstringNeedsChar("llm", text, 'm');
  }

  /** `is_error_retryable`. */
  predicate IsRetryable(config: RetryConfig, e: Failure) {
    Classify(e) in config.retryableErrors
  }

  /** By default exactly network, timeout and broker errors are retried, so `ValueError("Invalid input")` is not. */
  lemma DefaultRetryable(e: Failure)
    ensures IsRetryable(DefaultRetryConfig, e) <==> Classify(e) in {NetworkError, TimeoutError, MessageBrokerError}
  {
  }

  lemma InvalidInputNotRetried()
    ensures !IsRetryable(DefaultRetryConfig, Failure("ValueError", "Invalid input"))
  {
    InvalidInputIsValidation();
  }

  // ---------------------------------------------------------------------------
  // Delays
  // ---------------------------------------------------------------------------

  function Pow(b: real, n: nat): real {
    if n == 0 then 1.0 else b * Pow(b, n - 1)
  }

  lemma {:induction false} PowAtLeastOne(b: real, n: nat)
    requires b >= 1.0
    ensures Pow(b, n) >= 1.0
  {
    if n > 0 {
      PowAtLeastOne(b, n - 1);
    }
  }

  /** Python's `t % 1` on a float: the fractional part, counted upwards. */
  function Frac(t: real): (f: real)
    ensures 0.0 <= f < 1.0
  {
    t - t.Floor as real
  }

  /** The jitter added to a delay `d` when the event-loop clock reads `clock`. */
  function Jitter(d: real, clock: real): real {
    d * 0.1 * (0.5 - Frac(clock))
  }

  /** The jitter lies in (-5%, +5%] of the delay. */
  lemma JitterBounds(d: real, clock: real)
    requires d >= 0.0
    ensures -d / 20.0 <= Jitter(d, clock) <= d / 20.0
    ensures d > 0.0 ==> -d / 20.0 < Jitter(d, clock)
  {
    var f := Frac(clock);
    assert Jitter(d, clock) == d / 20.0 - d * f / 10.0;
    assert 0.0 <= d * f;
    assert d > 0.0 ==> d * f < d;
  }

  /** The delay before jitter for the two backoff strategies (and the base delay otherwise). */
  function RawDelay(config: RetryConfig, attempt: nat): real {
    match config.strategy
    case LinearBackoff => config.baseDelay * (attempt + 1) as real
    case ExponentialBackoff => config.baseDelay * Pow(config.backoffMultiplier, attempt)
    case _ => config.baseDelay
  }

  function Min(a: real, b: real): real {
    if a <= b then a else b
  }

  /** `_calculate_delay` for the 0-based `attempt`. */
  function Delay(config: RetryConfig, attempt: nat, clock: real): real {
    match config.strategy
    case Immediate => 0.0
    case FixedDelay => config.baseDelay
    case _ =>
      var raw := RawDelay(config, attempt);
      Min(raw + Jitter(raw, clock), config.maxDelay)
  }

  predicate IsBackoff(s: RetryStrategy) {
    s == LinearBackoff || s == ExponentialBackoff
  }

  /**
   * No delay for `Immediate`; exactly the base delay, uncapped, for `FixedDelay`;
   * for the backoff strategies, the jittered delay cut off at `maxDelay`.
   */
  lemma DelayBounds(config: RetryConfig, attempt: nat, clock: real)
    ensures config.strategy == Immediate ==> Delay(config, attempt, clock) == 0.0
    ensures config.strategy == FixedDelay ==> Delay(config, attempt, clock) == config.baseDelay
    ensures IsBackoff(config.strategy) ==> Delay(config, attempt, clock) <= config.maxDelay
    ensures IsBackoff(config.strategy) && RawDelay(config, attempt) >= 0.0 ==>
      var d, raw := Delay(config, attempt, clock), RawDelay(config, attempt);
      d <= raw * 1.05 && (d == config.maxDelay || raw * 0.95 <= d)
      && (raw > 0.0 && d < config.maxDelay ==> raw * 0.95 < d)
  {
    if IsBackoff(config.strategy) && RawDelay(config, attempt) >= 0.0 {
      JitterBounds(RawDelay(config, attempt), clock);
    }
  }

  /** With a non-negative base delay and a multiplier of at least one, backoff never shrinks from one attempt to the next. */
  lemma BackoffGrows(config: RetryConfig, attempt: nat)
    requires IsBackoff(config.strategy) && config.baseDelay >= 0.0
    requires config.strategy == ExponentialBackoff ==> config.backoffMultiplier >= 1.0
    ensures 0.0 <= RawDelay(config, attempt) <= RawDelay(config, attempt + 1)
  {
    if config.strategy == ExponentialBackoff {
      var m := config.backoffMultiplier;
      PowAtLeastOne(m, attempt);
      var p := Pow(m, attempt);
      assert Pow(m, attempt + 1) == m * p;
      assert p <= m * p;
      assert config.baseDelay * p <= config.baseDelay * (m * p);
    }
  }

  /** With the default configuration the delays before jitter are 1, 2 and 4 seconds. */
  lemma DefaultDelays()
    ensures RawDelay(DefaultRetryConfig, 0) == 1.0
    ensures RawDelay(DefaultRetryConfig, 1) == 2.0
    ensures RawDelay(DefaultRetryConfig, 2) == 4.0
  {
    assert Pow(2.0, 2) == 4.0;
  }

  // ---------------------------------------------------------------------------
  // The retry loop, as functions of the callable's outcomes
  // ---------------------------------------------------------------------------

  /** What the `i`-th call of the retried callable does. */
  datatype CallResult<V> = Ok(value: V) | Err(error: Failure)

  datatype RetryAttempt = RetryAttempt(attemptNumber: nat, timestamp: Instant, delay: real,
                                       error: Option<Failure>, success: bool)

  /** How many calls the loop makes when it starts at call `i`: up to the first success, at most `maxRetries` in all. */
  function CallsFrom<V>(call: nat -> CallResult<V>, i: nat, maxRetries: int): (k: nat)
    ensures i < maxRetries ==> i < k <= maxRetries
    ensures maxRetries <= i ==> k == i
    ensures forall j :: i <= j < k - 1 ==> call(j).Err?
    ensures i < k < maxRetries ==> call(k - 1).Ok?
    decreases maxRetries - i
  {
    if i >= maxRetries then i
    else if call(i).Ok? then i + 1
    else CallsFrom(call, i + 1, maxRetries)
  }

  function CallsMade<V>(call: nat -> CallResult<V>, maxRetries: int): nat {
    CallsFrom(call, 0, maxRetries)
  }

  /** The result: the value of the last call if it succeeded, else none. */
  function RetryResult<V>(call: nat -> CallResult<V>, maxRetries: int): Option<V> {
    var k := CallsMade(call, maxRetries);
    if k > 0 && call(k - 1).Ok? then Some(call(k - 1).value) else None
  }

  /** The record of the `i`-th call. */
  function Attempt<V>(config: RetryConfig, call: nat -> CallResult<V>, clock: nat -> real, now: nat -> Instant,
                      i: nat): RetryAttempt
  {
    RetryAttempt(i + 1, now(i), Delay(config, i, clock(i)),
                 if call(i).Err? then Some(call(i).error) else None, call(i).Ok?)
  }

  function AttemptLog<V>(config: RetryConfig, call: nat -> CallResult<V>, clock: nat -> real, now: nat -> Instant,
                         n: nat): seq<RetryAttempt>
  {
    seq(n, i requires 0 <= i < n => Attempt(config, call, clock, now, i))
  }

  /** The delays slept when `n` calls are made: one before each call but the first. */
  function Sleeps(config: RetryConfig, clock: nat -> real, n: nat): seq<real> {
    seq(if n > 0 then n - 1 else 0, i requires 0 <= i => Delay(config, i + 1, clock(i + 1)))
  }

  lemma AttemptLogSnoc<V>(config: RetryConfig, call: nat -> CallResult<V>, clock: nat -> real, now: nat -> Instant,
                          n: nat)
    ensures AttemptLog(config, call, clock, now, n + 1)
         == AttemptLog(config, call, clock, now, n) + [Attempt(config, call, clock, now, n)]
  {
    assert AttemptLog(config, call, clock, now, n + 1)[..n] == AttemptLog(config, call, clock, now, n);
  }

  lemma SleepsSnoc(config: RetryConfig, clock: nat -> real, n: nat)
    requires n > 0
    ensures Sleeps(config, clock, n + 1) == Sleeps(config, clock, n) + [Delay(config, n, clock(n))]
  {
    assert Sleeps(config, clock, n + 1)[..n - 1] == Sleeps(config, clock, n);
  }

  /**
   * The loop's outcome: at most `maxRetries` calls numbered 1, 2, ...; every
   * call but the last failed; there is a result iff the last call succeeded;
   * without one, all `maxRetries` calls were made; one sleep per call after the first.
   */
  lemma RetryOutcome<V>(config: RetryConfig, call: nat -> CallResult<V>, clock: nat -> real, now: nat -> Instant)
    ensures var k, log := CallsMade(call, config.maxRetries), AttemptLog(config, call, clock, now, CallsMade(call, config.maxRetries));
      (config.maxRetries <= 0 ==> k == 0)
      && (config.maxRetries > 0 ==> 0 < k <= config.maxRetries)
      && (forall i :: 0 <= i < k ==> log[i].attemptNumber == i + 1)
      && (forall i :: 0 <= i < k - 1 ==> !log[i].success && log[i].error.Some?)
      && (RetryResult(call, config.maxRetries).Some? <==> k > 0 && log[k - 1].success)
      && (RetryResult(call, config.maxRetries).None? ==> k == if config.maxRetries > 0 then config.maxRetries else 0)
      && |Sleeps(config, clock, k)| == (if k > 0 then k - 1 else 0)
  {
  }

  /** The first call succeeding ends the loop at once: one call, no sleep. */
  lemma FirstCallSucceeds<V>(config: RetryConfig, call: nat -> CallResult<V>, clock: nat -> real)
    requires config.maxRetries > 0 && call(0).Ok?
    ensures CallsMade(call, config.maxRetries) == 1
    ensures RetryResult(call, config.maxRetries) == Some(call(0).value)
    ensures Sleeps(config, clock, 1) == []
  {
  }

  // ---------------------------------------------------------------------------
  // The handler
  // ---------------------------------------------------------------------------

  const MaxHistorySize: nat := 1000

  /** An error record; the retry loop updates its message and retry count in place while it sits in the history. */
  class ErrorContext {
    const errorType: ErrorType
    var errorMessage: string
    const timestamp: Instant
    const agentId: Option<string>
    const topic: Option<string>
    const messageId: Option<string>
    var retryCount: int
    const metadata: map<string, string>

    constructor (errorType: ErrorType, errorMessage: string, timestamp: Instant, agentId: Option<string>,
                 topic: Option<string>, messageId: Option<string>, metadata: map<string, string>)
      ensures this.errorType == errorType && this.errorMessage == errorMessage && this.timestamp == timestamp
      ensures this.agentId == agentId && this.topic == topic && this.messageId == messageId
      ensures this.metadata == metadata && retryCount == 0
    {
      this.errorType := errorType;
      this.errorMessage := errorMessage;
      this.timestamp := timestamp;
      this.agentId := agentId;
      this.topic := topic;
      this.messageId := messageId;
      this.metadata := metadata;
      retryCount := 0;
    }
  }

  /** The history after recording `ctx` `n` times. */
  function Recorded(h: seq<ErrorContext>, ctx: ErrorContext, n: nat): seq<ErrorContext> {
    if n == 0 then h else AppendCapped(Recorded(h, ctx, n - 1), ctx, MaxHistorySize)
  }

  /** Recording never takes the history past its cap, and the newest entry is the recorded context. */
  lemma {:induction false} RecordedBounded(h: seq<ErrorContext>, ctx: ErrorContext, n: nat)
    requires |h| <= MaxHistorySize
    ensures |Recorded(h, ctx, n)| <= MaxHistorySize
    ensures |Recorded(h, ctx, n)| == if |h| + n <= MaxHistorySize then |h| + n else MaxHistorySize
    ensures n > 0 ==> Recorded(h, ctx, n)[|Recorded(h, ctx, n)| - 1] == ctx
  {
    if n > 0 {
      RecordedBounded(h, ctx, n - 1);
      AppendCappedBounded(Recorded(h, ctx, n - 1), ctx, MaxHistorySize);
    }
  }

  function TimestampOf(c: ErrorContext): int {
    c.timestamp
  }

  /** The contexts of the given type, in history order (all of them when no type is given). */
  function OfKind(h: seq<ErrorContext>, kind: Option<ErrorType>): (r: seq<ErrorContext>)
    ensures forall i :: 0 <= i < |r| ==> r[i] in h && (kind.None? || r[i].errorType == kind.value)
    ensures forall i :: 0 <= i < |h| && (kind.None? || h[i].errorType == kind.value) ==> h[i] in r
  {
    if kind.None? || h == [] then h
    else
      var rest := OfKind(h[..|h| - 1], kind);
      var last := h[|h| - 1];
      assert forall i :: 0 <= i < |h| - 1 ==> h[i] == h[..|h| - 1][i];
      if last.errorType == kind.value then rest + [last] else rest
  }

  /** The contexts recorded at or after `cutoff`, in history order. */
  function Since(h: seq<ErrorContext>, cutoff: Instant): (r: seq<ErrorContext>)
    ensures |r| <= |h|
    ensures forall i :: 0 <= i < |r| ==> r[i] in h && r[i].timestamp >= cutoff
    ensures forall i :: 0 <= i < |h| && h[i].timestamp >= cutoff ==> h[i] in r
  {
    if h == [] then []
    else
      var rest := Since(h[..|h| - 1], cutoff);
      var last := h[|h| - 1];
      assert forall i :: 0 <= i < |h| - 1 ==> h[i] == h[..|h| - 1][i];
      if last.timestamp >= cutoff then rest + [last] else rest
  }

  /** The type filter keeps every occurrence of a context of the kind, as often as the history holds it, and no other. */
  lemma {:induction false} OfKindCounts(h: seq<ErrorContext>, kind: Option<ErrorType>)
    ensures forall i :: 0 <= i < |h| ==>
      multiset(OfKind(h, kind))[h[i]] == if kind.None? || h[i].errorType == kind.value then multiset(h)[h[i]] else 0
  {
    if kind.Some? && h != [] {
      var init, last := h[..|h| - 1], h[|h| - 1];
      OfKindCounts(init, kind);
      assert h == init + [last];
      assert OfKind(h, kind) == OfKind(init, kind) + (if last.errorType == kind.value then [last] else []);
      forall i | 0 <= i < |h|
        ensures multiset(OfKind(h, kind))[h[i]] == if h[i].errorType == kind.value then multiset(h)[h[i]] else 0
      {
        if i < |h| - 1 {
          assert h[i] == init[i];
        } else if last in init {
          var j :| 0 <= j < |init| && init[j] == last;
        } else {
          assert last !in OfKind(init, kind);
        }
      }
    }
  }

  /** The window filter keeps every occurrence of a context at or after the cutoff, and no other. */
  lemma {:induction false} SinceCounts(h: seq<ErrorContext>, cutoff: Instant)
    ensures forall i :: 0 <= i < |h| ==>
      multiset(Since(h, cutoff))[h[i]] == if h[i].timestamp >= cutoff then multiset(h)[h[i]] else 0
  {
    if h != [] {
      var init, last := h[..|h| - 1], h[|h| - 1];
      SinceCounts(init, cutoff);
      assert h == init + [last];
      assert Since(h, cutoff) == Since(init, cutoff) + (if last.timestamp >= cutoff then [last] else []);
      forall i | 0 <= i < |h|
        ensures multiset(Since(h, cutoff))[h[i]] == if h[i].timestamp >= cutoff then multiset(h)[h[i]] else 0
      {
        if i < |h| - 1 {
          assert h[i] == init[i];
        } else if last in init {
          var j :| 0 <= j < |init| && init[j] == last;
        } else {
          assert last !in Since(init, cutoff);
        }
      }
    }
  }

  /** The contexts `get_error_stats` counts: those in the window, or all of them when the window is absent or zero. */
  function Windowed(h: seq<ErrorContext>, now: Instant, window: Option<int>): seq<ErrorContext> {
    if window.Some? && window.value != 0 then Since(h, now - window.value) else h
  }

  function TypeNameOf(c: ErrorContext): string {
    ErrorTypeName(c.errorType)
  }

  function Succeeded(a: RetryAttempt): bool {
    a.success
  }

  /** `sort(key=timestamp, reverse=True)[:limit]`: at most `limit` of the contexts, newest first. */
  lemma NewestFirst(kept: seq<ErrorContext>, limit: int)
    ensures var r := PyHead(SortDesc(kept, TimestampOf), limit);
      && SortedDesc(r, TimestampOf)
      && multiset(r) <= multiset(kept)
      && (forall i :: 0 <= i < |r| ==> r[i] in kept)
      && (limit >= |kept| ==> multiset(r) == multiset(kept))
      && |r| == (if limit >= 0 then (if limit < |kept| then limit else |kept|)
                 else (if |kept| + limit > 0 then |kept| + limit else 0))
  {
    var sorted := SortDesc(kept, TimestampOf);
    SortDescFacts(kept, TimestampOf);
    var r := PyHead(sorted, limit);
    SortedPrefixNewest(sorted, |r|, TimestampOf);
    forall i | 0 <= i < |r| ensures r[i] in kept {
      assert r[i] in multiset(kept);
    }
  }

  /** What the cut leaves out is never newer than what it keeps. */
  lemma NewestKept(kept: seq<ErrorContext>, limit: int)
    ensures var r := PyHead(SortDesc(kept, TimestampOf), limit);
      forall j, i :: 0 <= j < |kept| && multiset(r)[kept[j]] < multiset(kept)[kept[j]] && 0 <= i < |r| ==>
        TimestampOf(kept[j]) <= TimestampOf(r[i])
  {
    var sorted := SortDesc(kept, TimestampOf);
    SortDescFacts(kept, TimestampOf);
    var r := PyHead(sorted, limit);
    SortedPrefixNewest(sorted, |r|, TimestampOf);
    forall j, i | 0 <= j < |kept| && multiset(r)[kept[j]] < multiset(kept)[kept[j]] && 0 <= i < |r|
      ensures TimestampOf(kept[j]) <= TimestampOf(r[i])
    {
      assert kept[j] in multiset(sorted) - multiset(sorted[..|r|]);
    }
  }

  /** The number of calls that raised. */
  function FailedCalls<V>(call: nat -> CallResult<V>, maxRetries: int): nat {
    var k := CallsMade(call, maxRetries);
    if k > 0 && call(k - 1).Ok? then k - 1 else k
  }

  /** The context's retry count afterwards: the number of the last failed call, if any. */
  function LastRetryCount<V>(call: nat -> CallResult<V>, maxRetries: int, before: int): int {
    var f := FailedCalls(call, maxRetries);
    if f == 0 then before else f
  }

  /** The context's message afterwards: that of the last failure that was followed by another call. */
  function LastMessage<V>(call: nat -> CallResult<V>, maxRetries: int, before: string): string {
    var k := CallsMade(call, maxRetries);
    if k >= 2 then call(k - 2).error.text else before
  }

  /**
   * The loop of `_retry_operation` on values: `count` and `message` are the
   * context's fields and `history` the error history, as they evolve; every
   * failure but the one on the last permitted call is recorded with `ctx`.
   */
  method RetryLoop<V>(config: RetryConfig, call: nat -> CallResult<V>, clock: nat -> real, now: nat -> Instant,
                      history: seq<ErrorContext>, ctx: ErrorContext, count: int, message: string)
    returns (result: Option<V>, slept: seq<real>, attempts: seq<RetryAttempt>, history': seq<ErrorContext>,
             count': int, message': string)
    requires |history| <= MaxHistorySize
    ensures var k := CallsMade(call, config.maxRetries);
      result == RetryResult(call, config.maxRetries)
      && slept == Sleeps(config, clock, k)
      && attempts == AttemptLog(config, call, clock, now, k)
      && history' == Recorded(history, ctx, if k > 0 then k - 1 else 0)
      && |history'| <= MaxHistorySize
      && message' == LastMessage(call, config.maxRetries, message)
      && count' == LastRetryCount(call, config.maxRetries, count)
  {
    var maxRetries := config.maxRetries;
    var attempt: nat := 0;
    RecordedBounded(history, ctx, if CallsMade(call, maxRetries) > 0 then CallsMade(call, maxRetries) - 1 else 0);
    slept, attempts, history', count', message' := [], [], history, count, message;
    while attempt < maxRetries
      invariant attempt == 0 || attempt < maxRetries
      invariant CallsFrom(call, attempt, maxRetries) == CallsMade(call, maxRetries)
      invariant forall j :: 0 <= j < attempt ==> call(j).Err?
      invariant slept == Sleeps(config, clock, attempt)
      invariant attempts == AttemptLog(config, call, clock, now, attempt)
      invariant history' == Recorded(history, ctx, attempt)
      invariant message' == if attempt == 0 then message else call(attempt - 1).error.text
      invariant count' == if attempt == 0 then count else attempt
    {
      var delay := Delay(config, attempt, clock(attempt));
      if attempt > 0 {
        SleepsSnoc(config, clock, attempt);
        slept := slept + [delay];
      }
      var outcome := call(attempt);
      AttemptLogSnoc(config, call, clock, now, attempt);
      attempts := attempts + [Attempt(config, call, clock, now, attempt)];
      if outcome.Ok? {
        assert CallsMade(call, maxRetries) == attempt + 1;
        return Some(outcome.value), slept, attempts, history', count', message';
      }
      count' := attempt + 1;
      if attempt == maxRetries - 1 {
        assert CallsMade(call, maxRetries) == attempt + 1;
        return None, slept, attempts, history', count', message';
      }
      message' := outcome.error.text;
      assert Recorded(history, ctx, attempt + 1) == AppendCapped(history', ctx, MaxHistorySize);
      history' := AppendCapped(history', ctx, MaxHistorySize);
      attempt := attempt + 1;
    }
    assert attempt == 0;
    return None, slept, attempts, history', count', message';
  }

  /** `part / whole * 100`. */
  function Percentage(part: nat, whole: nat): (p: real)
    requires 0 < whole && part <= whole
    ensures 0.0 <= p <= 100.0
  {
    var q := part as real / whole as real;
    assert q * whole as real == part as real;
    assert q <= 1.0 by {
      if q > 1.0 {
        assert q * whole as real > 1.0 * whole as real;
      }
    }
    q * 100.0
  }

  datatype ErrorStats = ErrorStats(
    totalErrors: nat,
    errorTypes: Dict<string, nat>,
    totalRetries: nat,
    successfulRetries: nat,
    retrySuccessRate: real,
    timeWindow: Option<int>)

  class ErrorHandler {
    var retryConfig: RetryConfig
    /** The newest errors, oldest first; one context may appear several times. */
    var errorHistory: seq<ErrorContext>
    var retryHistory: seq<RetryAttempt>

    ghost predicate Valid()
      reads this
    {
      |errorHistory| <= MaxHistorySize
    }

    /** `retry_config or RetryConfig()`. */
    constructor (config: Option<RetryConfig>)
      ensures Valid() && errorHistory == [] && retryHistory == []
      ensures retryConfig == if config.Some? then config.value else DefaultRetryConfig
    {
      retryConfig := if config.Some? then config.value else DefaultRetryConfig;
      errorHistory := [];
      retryHistory := [];
    }

    /** `_record_error`: append, then keep the newest `MaxHistorySize` entries. */
    method RecordError(ctx: ErrorContext)
      requires Valid()
      modifies this`errorHistory
      ensures Valid()
      ensures errorHistory == AppendCapped(old(errorHistory), ctx, MaxHistorySize)
    {
      AppendCappedBounded(errorHistory, ctx, MaxHistorySize);
      errorHistory := AppendCapped(errorHistory, ctx, MaxHistorySize);
    }

    /** `_retry_operation`: the loop runs in `RetryLoop`; the log, the history and `ctx` take its results. */
    method RetryOperation<V>(call: nat -> CallResult<V>, ctx: ErrorContext, clock: nat -> real, now: nat -> Instant)
      returns (result: Option<V>, slept: seq<real>)
      requires Valid()
      modifies this`retryHistory, this`errorHistory, ctx`retryCount, ctx`errorMessage
      ensures Valid()
      ensures var k := CallsMade(call, retryConfig.maxRetries);
        result == RetryResult(call, retryConfig.maxRetries)
        && slept == Sleeps(retryConfig, clock, k)
        && retryHistory == old(retryHistory) + AttemptLog(retryConfig, call, clock, now, k)
        && errorHistory == Recorded(old(errorHistory), ctx, if k > 0 then k - 1 else 0)
        && ctx.errorMessage == LastMessage(call, retryConfig.maxRetries, old(ctx.errorMessage))
        && ctx.retryCount == LastRetryCount(call, retryConfig.maxRetries, old(ctx.retryCount))
    {
      var attempts, history, count, message;
      result, slept, attempts, history, count, message :=
        RetryLoop(retryConfig, call, clock, now, errorHistory, ctx, ctx.retryCount, ctx.errorMessage);
      retryHistory := retryHistory + attempts;
      errorHistory := history;
      ctx.retryCount := count;
      ctx.errorMessage := message;
    }

    /**
     * `handle_error`: classify and record a new context (returned as `ctx`);
     * retry only when the class is retryable and a callable is given.
     */
    method HandleError<V>(error: Failure, metadata: map<string, string>, retry: Option<nat -> CallResult<V>>,
                          timestamp: Instant, clock: nat -> real, now: nat -> Instant)
      returns (result: Option<V>, ctx: ErrorContext, slept: seq<real>)
      requires Valid()
      modifies this`retryHistory, this`errorHistory
      ensures Valid() && fresh(ctx)
      ensures ctx.errorType == Classify(error) && ctx.timestamp == timestamp && ctx.metadata == metadata
      ensures ctx.agentId == None && ctx.topic == None && ctx.messageId == None
      ensures !IsRetryable(retryConfig, error) || retry.None? ==>
        result == None && slept == [] && retryHistory == old(retryHistory)
        && errorHistory == AppendCapped(old(errorHistory), ctx, MaxHistorySize)
        && ctx.errorMessage == error.text && ctx.retryCount == 0
      ensures IsRetryable(retryConfig, error) && retry.Some? ==>
        var k := CallsMade(retry.value, retryConfig.maxRetries);
        result == RetryResult(retry.value, retryConfig.maxRetries)
        && slept == Sleeps(retryConfig, clock, k)
        && retryHistory == old(retryHistory) + AttemptLog(retryConfig, retry.value, clock, now, k)
        && errorHistory == Recorded(AppendCapped(old(errorHistory), ctx, MaxHistorySize), ctx, if k > 0 then k - 1 else 0)
        && ctx.errorMessage == LastMessage(retry.value, retryConfig.maxRetries, error.text)
        && ctx.retryCount == LastRetryCount(retry.value, retryConfig.maxRetries, 0)
    {
      ctx := new ErrorContext(Classify(error), error.text, timestamp, None, None, None, metadata);
      RecordError(ctx);
      if ctx.errorType in retryConfig.retryableErrors && retry.Some? {
        result, slept := RetryOperation(retry.value, ctx, clock, now);
      } else {
        result, slept := None, [];
      }
    }

    /** `is_error_retryable`. */
    function IsErrorRetryable(error: Failure): bool
      reads this
    {
      IsRetryable(retryConfig, error)
    }

    /**
     * `get_recent_errors`: the contexts of the given type, newest first (ties
     * in history order), at most `limit` of them (Python's `[:limit]`).
     */
    function RecentErrors(limit: int, kind: Option<ErrorType>): (r: seq<ErrorContext>)
      reads this
      ensures limit >= 0 ==> |r| <= limit
      ensures SortedDesc(r, TimestampOf)
      ensures forall i :: 0 <= i < |r| ==> r[i] in errorHistory && (kind.None? || r[i].errorType == kind.value)
      ensures limit >= |OfKind(errorHistory, kind)| ==> multiset(r) == multiset(OfKind(errorHistory, kind))
      ensures var n := |OfKind(errorHistory, kind)|;
        |r| == if limit >= 0 then (if limit < n then limit else n) else (if n + limit > 0 then n + limit else 0)
      ensures multiset(r) <= multiset(OfKind(errorHistory, kind))
      ensures var kept := OfKind(errorHistory, kind);
        forall j, i :: 0 <= j < |kept| && multiset(r)[kept[j]] < multiset(kept)[kept[j]] && 0 <= i < |r| ==>
          TimestampOf(kept[j]) <= TimestampOf(r[i])
    {
      NewestFirst(OfKind(errorHistory, kind), limit);
      NewestKept(OfKind(errorHistory, kind), limit);
      PyHead(SortDesc(OfKind(errorHistory, kind), TimestampOf), limit)
    }

    /** `get_error_stats`; a zero window, like no window, means all time. */
    function Stats(now: Instant, window: Option<int>): (s: ErrorStats)
      reads this
      ensures SumValues(s.errorTypes.entries) == s.totalErrors
      ensures s.errorTypes.Valid()
      ensures forall t :: t in s.errorTypes.entries ==> s.errorTypes.entries[t] > 0
      ensures s.totalErrors <= |errorHistory|
      ensures s.successfulRetries <= s.totalRetries == |retryHistory|
      ensures 0.0 <= s.retrySuccessRate <= 100.0
      ensures s.totalErrors == |Windowed(errorHistory, now, window)|
      ensures forall t :: Get(s.errorTypes.entries, t, 0) == CountKey(Windowed(errorHistory, now, window), TypeNameOf, t)
      ensures s.successfulRetries == CountWhere(retryHistory, Succeeded)
      ensures s.retrySuccessRate == if |retryHistory| > 0 then Percentage(s.successfulRetries, |retryHistory|) else 0.0
      ensures s.timeWindow.None? <==> window.None? || window.value == 0
      ensures s.timeWindow.Some? ==> s.timeWindow == window
    {
      var errors := Windowed(errorHistory, now, window);
      var tally := Tally(errors, TypeNameOf);
      TallyFacts(errors, TypeNameOf);
      TallyTotal(errors, TypeNameOf);
      var total := |retryHistory|;
      var successful := CountWhere(retryHistory, Succeeded);
      var rate := if total > 0 then Percentage(successful, total) else 0.0;
      ErrorStats(|errors|, tally, total, successful, rate, if window.Some? && window.value != 0 then window else None)
    }

    method ClearHistory()
      requires Valid()
      modifies this`errorHistory, this`retryHistory
      ensures Valid() && errorHistory == [] && retryHistory == []
    {
      errorHistory := [];
      retryHistory := [];
    }

    method UpdateRetryConfig(config: RetryConfig)
      modifies this`retryConfig
      ensures retryConfig == config
    {
      retryConfig := config;
    }

    /**
     * `MessageErrorHandler.handle_message_error`: records a context that names
     * the message, its topic and sender. The source calls the coroutine
     * `is_error_retryable` without awaiting it, and a coroutine object is
     * truthy, so only `should_retry()` decides.
     */
    method HandleMessageError(error: Failure, m: Message, operation: string, timestamp: Instant, now: Instant)
      returns (willRetry: bool, ctx: ErrorContext)
      requires Valid()
      modifies this`errorHistory
      ensures Valid() && fresh(ctx)
      ensures willRetry == ShouldRetry(m, now)
      ensures errorHistory == AppendCapped(old(errorHistory), ctx, MaxHistorySize)
      ensures ctx.errorType == Classify(error) && ctx.errorMessage == error.text && ctx.timestamp == timestamp
      ensures ctx.agentId == Some(m.senderId) && ctx.topic == Some(m.topic) && ctx.messageId == Some(m.id)
      ensures ctx.metadata == map["message_id" := m.id, "topic" := m.topic, "sender_id" := m.senderId,
                                  "operation" := operation]
    {
      var metadata := map["message_id" := m.id, "topic" := m.topic, "sender_id" := m.senderId,
                          "operation" := operation];
      ctx := new ErrorContext(Classify(error), error.text, timestamp, Some(m.senderId), Some(m.topic),
                              Some(m.id), metadata);
      RecordError(ctx);
      willRetry := ShouldRetry(m, now);
    }
  }

  /** A validation error on a message that may still be retried is reported as retryable. */
  method ValidationErrorStillRetried(handler: ErrorHandler, m: Message, now: Instant) returns (willRetry: bool)
    requires handler.Valid() && handler.retryConfig == DefaultRetryConfig
    requires m.retryCount < m.maxRetries && m.ttl.None?
    modifies handler`errorHistory
    ensures willRetry && !handler.IsErrorRetryable(Failure("ValueError", "Invalid input"))
  {
    var ctx;
    willRetry, ctx := handler.HandleMessageError(Failure("ValueError", "Invalid input"), m, "publish", now, now);
    assert handler.retryConfig == DefaultRetryConfig;
    InvalidInputNotRetried();
  }
}
