/** The retry policy: attempts, waits between them, and the bounds on both. */
module Retry {
  import opened Wrappers
  import opened Errors
  import opened Strings
  import opened Words

  /** Durations are whole nanoseconds. */
  datatype Policy = Policy(maxRetries: int, baseDelay: int, maxDelay: int, jitter: bool, retryable: set<ErrorKind>)

  function DefaultRetryPolicy(maxRetries: int, baseDelay: int): Policy {
    Policy(maxRetries, baseDelay, 30_000_000_000, true, DEFAULT_RETRYABLE)
  }

  /** How a call of Execute ends; `Empty` is the zero result of a policy that allows no attempt. */
  datatype Outcome<R> = Success(value: R) | Failed(kind: ErrorKind, err: GoError) | ContextDone | Empty

  /** The world one call meets: what each attempt returns, whether the context ends each wait, each jitter drawn. */
  datatype World<!R> = World(attempt: nat -> Result<R, GoError>, cancelled: nat -> bool, jitter: nat -> real)

  // ---------------------------------------------------------------- attempts

  ghost predicate RetryableFailure<R>(p: Policy, w: World<R>, k: nat) {
    w.attempt(k).Err? && KindOf(w.attempt(k).error) in p.retryable
  }

  /** Attempt `k` is the last one, and `outcome` is what is returned after it. */
  ghost predicate EndsWith<R>(p: Policy, w: World<R>, k: nat, outcome: Outcome<R>) {
    match w.attempt(k)
    case Ok(value) => outcome == Success(value)
    case Err(err) =>
      if !RetryableFailure(p, w, k) || k == p.maxRetries then outcome == Failed(KindOf(err), err)
      else outcome == ContextDone && w.cancelled(k)
  }

  /** `calls` attempts were made and `outcome` returned. */
  ghost predicate Executes<R>(p: Policy, w: World<R>, calls: nat, outcome: Outcome<R>) {
    if p.maxRetries < 0 then calls == 0 && outcome == Empty
    else
      && 1 <= calls <= p.maxRetries + 1
      && (forall k: nat :: k < calls - 1 ==> RetryableFailure(p, w, k) && !w.cancelled(k))
      && EndsWith(p, w, calls - 1, outcome)
  }

  /** That description leaves no choice: the world decides both the number of calls and the result. */
  lemma ExecutionIsDetermined<R>(p: Policy, w: World<R>, c1: nat, o1: Outcome<R>, c2: nat, o2: Outcome<R>)
    requires Executes(p, w, c1, o1) && Executes(p, w, c2, o2)
    ensures c1 == c2 && o1 == o2
  {
    if p.maxRetries >= 0 {
      NoShorterExecution(p, w, c1, o1, c2, o2);
      NoShorterExecution(p, w, c2, o2, c1, o1);
    }
  }

  lemma NoShorterExecution<R>(p: Policy, w: World<R>, c1: nat, o1: Outcome<R>, c2: nat, o2: Outcome<R>)
    requires p.maxRetries >= 0 && Executes(p, w, c1, o1) && Executes(p, w, c2, o2)
    ensures c1 >= c2
  {
    var last: nat := c1 - 1;
    assert last < c2 - 1 ==> RetryableFailure(p, w, last) && !w.cancelled(last);
  }

  /** The loop has made `n` attempts and none has ended it; `outcome` is what running out now would return. */
  ghost predicate Pending<R>(p: Policy, w: World<R>, n: nat, outcome: Outcome<R>) {
    if n == 0 then outcome == Empty
    else
      && n <= p.maxRetries + 1
      && (forall k: nat :: k < n && k < p.maxRetries ==> RetryableFailure(p, w, k) && !w.cancelled(k))
      && (n == p.maxRetries + 1 ==> EndsWith(p, w, n - 1, outcome) && outcome.Failed?)
  }

  /** What the next attempt does to the loop: it ends it, or leaves it pending. */
  lemma AttemptMade<R>(p: Policy, w: World<R>, n: nat, outcome: Outcome<R>)
    requires Pending(p, w, n, outcome) && n < p.maxRetries + 1
    ensures match w.attempt(n)
            case Ok(value) => Executes(p, w, n + 1, Success(value))
            case Err(err) =>
              var failed := Failed(KindOf(err), err);
              if !RetryableFailure(p, w, n) then Executes(p, w, n + 1, failed)
              else if n < p.maxRetries && w.cancelled(n) then Executes(p, w, n + 1, ContextDone)
              else Pending(p, w, n + 1, failed)
  {
  }

  lemma AttemptsExhausted<R>(p: Policy, w: World<R>, n: nat, outcome: Outcome<R>)
    requires Pending(p, w, n, outcome) && n >= p.maxRetries + 1
    ensures Executes(p, w, n, outcome)
    ensures outcome.Empty? || outcome.Failed?
  {
  }

  ghost predicate AreBackoffs<R>(p: Policy, w: World<R>, waits: seq<int>) {
    forall k :: 0 <= k < |waits| ==> waits[k] == Backoff(p, k, w.jitter(k))
  }

  /** One backoff after every attempt but the last, and one more when the context ended that wait. */
  ghost predicate WaitsBetween<R>(p: Policy, w: World<R>, calls: nat, outcome: Outcome<R>, waits: seq<int>) {
    && |waits| == (if outcome.ContextDone? || outcome.Empty? then calls else calls - 1)
    && AreBackoffs(p, w, waits)
  }

  method Execute<R>(p: Policy, w: World<R>) returns (outcome: Outcome<R>, calls: nat, waits: seq<int>)
    ensures Executes(p, w, calls, outcome)
    ensures WaitsBetween(p, w, calls, outcome, waits)
  {
    outcome, calls, waits := Empty, 0, [];
    while calls < p.maxRetries + 1
      invariant Pending(p, w, calls, outcome) && AreBackoffs(p, w, waits)
      invariant |waits| == if calls == p.maxRetries + 1 && calls > 0 then calls - 1 else calls
    {
      var attempt := calls;
      AttemptMade(p, w, attempt, outcome);
      var result := w.attempt(attempt);
      calls := calls + 1;
      if result.Ok? {
        return Success(result.value), calls, waits;
      }
      var kind := ClassifyFromError(result.error);
      outcome := Failed(kind, result.error);
      if kind !in p.retryable {
        return outcome, calls, waits;
      }
      if attempt < p.maxRetries {
        waits := waits + [Backoff(p, attempt, w.jitter(attempt))];
        if w.cancelled(attempt) {
          return ContextDone, calls, waits;
        }
      }
    }
    AttemptsExhausted(p, w, calls, outcome);
  }

  /** The streaming form: same loop, no response value. */
  method ExecuteStream(p: Policy, w: World<()>) returns (outcome: Outcome<()>, calls: nat, waits: seq<int>)
    ensures Executes(p, w, calls, outcome)
    ensures WaitsBetween(p, w, calls, outcome, waits)
  {
    outcome, calls, waits := Empty, 0, [];
    while calls < p.maxRetries + 1
      invariant Pending(p, w, calls, outcome) && AreBackoffs(p, w, waits)
      invariant |waits| == if calls == p.maxRetries + 1 && calls > 0 then calls - 1 else calls
    {
      var attempt := calls;
      AttemptMade(p, w, attempt, outcome);
      var result := w.attempt(attempt);
      calls := calls + 1;
      if result.Ok? {
        return Success(result.value), calls, waits;
      }
      var kind := ClassifyFromError(result.error);
      outcome := Failed(kind, result.error);
      if kind !in p.retryable {
        return outcome, calls, waits;
      }
      if attempt < p.maxRetries {
        waits := waits + [Backoff(p, attempt, w.jitter(attempt))];
        if w.cancelled(attempt) {
          return ContextDone, calls, waits;
        }
      }
    }
    AttemptsExhausted(p, w, calls, outcome);
  }

  // ---------------------------------------------------------------- the default policy

  /** Every attempt fails with the same formatted status, and the context stays alive. */
  ghost predicate AlwaysAnswers<R>(w: World<R>, prefix: string, code: nat, body: string) {
    forall k: nat :: w.attempt(k) == Err(Plain(Cause(Format(prefix, code, body), false))) && !w.cancelled(k)
  }

  /**
   * From the status line to the number of calls: under the default policy a provider that
   * keeps answering 429 or 5xx is called MaxRetries + 1 times, whatever the body; one that
   * answers 401 or 403 is called once, unless the text mentions a deadline.
   */
  lemma StatusDecidesCalls<R>(maxRetries: nat, baseDelay: int, w: World<R>, prefix: string, code: nat, body: string,
                              calls: nat, outcome: Outcome<R>)
    requires !Contains(prefix, STATUS) && code < TWO63 && AlwaysAnswers(w, prefix, code, body)
    requires Executes(DefaultRetryPolicy(maxRetries, baseDelay), w, calls, outcome)
    ensures code == 429 || code >= 500 ==> calls == maxRetries + 1 && outcome.Failed?
    ensures (code == 401 || code == 403) && !Contains(Format(prefix, code, body), DEADLINE) ==>
      calls == 1 && outcome.Failed? && outcome.kind == ErrAuth
  {
    RetriedExactlyWhen(prefix, code, body, false);
    var last: nat := calls - 1;
    assert w.attempt(last) == w.attempt(0) && !w.cancelled(last);
    ParseUndoesFormat(prefix, code, body);
  }

  // ---------------------------------------------------------------- waits

  function Power2(n: nat): nat {
    if n == 0 then 1 else 2 * Power2(n - 1)
  }

  /** base * 2^k, by repeated doubling (`ScaleIsPower`). */
  function Scale(base: int, k: nat): int {
    if k == 0 then base else 2 * Scale(base, k - 1)
  }

  lemma {:induction false} ScaleIsPower(base: int, k: nat)
    ensures Scale(base, k) == base * Power2(k)
  {
    if k > 0 { ScaleIsPower(base, k - 1); }
  }

  /** Conversion of a float to a Duration drops the fraction. */
  function Truncate(x: real): int {
    if x >= 0.0 then x.Floor else -((-x).Floor)
  }

  function RawDelay(p: Policy, attempt: nat, jitter: real): real {
    Scale(p.baseDelay, attempt) as real + if p.jitter then jitter else 0.0
  }

  /** Delay before the next attempt; `jitter` is a random fraction of the base delay. */
  function Backoff(p: Policy, attempt: nat, jitter: real): int {
    var delay := RawDelay(p, attempt, jitter);
    Truncate(if delay > p.maxDelay as real then p.maxDelay as real else delay)
  }

  predicate IsJitter(p: Policy, jitter: real) {
    0.0 <= jitter <= p.baseDelay as real
  }

  lemma TruncateMonotone(x: real, y: real)
    requires x <= y
    ensures Truncate(x) <= Truncate(y)
    ensures Truncate(y) <= y.Floor + 1 && (y >= 0.0 ==> Truncate(y) as real <= y)
  {
  }

  lemma {:induction false} ScaleAtLeastBase(base: int, k: nat)
    requires base >= 0
    ensures Scale(base, k) >= base
  {
    if k > 0 { ScaleAtLeastBase(base, k - 1); }
  }

  lemma {:induction false} RawDelayRange(p: Policy, attempt: nat, u: real)
    requires IsJitter(p, u)
    ensures 0.0 <= Scale(p.baseDelay, attempt) as real <= RawDelay(p, attempt, u)
    ensures RawDelay(p, attempt, u) <= Scale(p.baseDelay, attempt) as real + p.baseDelay as real
    ensures RawDelay(p, attempt, u) <= Scale(p.baseDelay, attempt + 1) as real
  {
    ScaleAtLeastBase(p.baseDelay, attempt);
  }

  lemma {:induction false} RawDelayGrows(p: Policy, i: nat, j: nat, u: real, v: real)
    requires i < j && IsJitter(p, u) && IsJitter(p, v)
    ensures RawDelay(p, i, u) <= RawDelay(p, j, v)
    decreases j
  {
    RawDelayRange(p, j, v);
    if i == j - 1 {
      RawDelayRange(p, i, u);
    } else {
      RawDelayGrows(p, i, j - 1, u, 0.0);
      RawDelayRange(p, j - 1, 0.0);
    }
  }

  /** Whatever the jitter, no wait is shorter than an earlier one. */
  lemma WaitsNeverDecrease(p: Policy, i: nat, j: nat, u: real, v: real)
    requires i < j && IsJitter(p, u) && IsJitter(p, v)
    ensures Backoff(p, i, u) <= Backoff(p, j, v)
  {
    RawDelayGrows(p, i, j, u, v);
    var cap := p.maxDelay as real;
    var x, y := RawDelay(p, i, u), RawDelay(p, j, v);
    TruncateMonotone(if x > cap then cap else x, if y > cap then cap else y);
  }

  /** The lesser of base * 2^k and the cap. */
  function Capped(p: Policy, k: nat): int {
    if p.baseDelay * Power2(k) < p.maxDelay then p.baseDelay * Power2(k) else p.maxDelay
  }

  /**
   * Exponential backoff: the wait after attempt k is at least min(BaseDelay * 2^k, MaxDelay), exactly that
   * without jitter, and with it at most BaseDelay more.
   */
  lemma WaitIsExponential(p: Policy, k: nat, u: real)
    requires IsJitter(p, u) && p.maxDelay >= 0
    ensures Capped(p, k) <= Backoff(p, k, u) <= Capped(p, k) + p.baseDelay
    ensures !p.jitter ==> Backoff(p, k, u) == Capped(p, k)
    ensures p.jitter && p.baseDelay * Power2(k) + u.Floor < p.maxDelay ==> Backoff(p, k, u) == p.baseDelay * Power2(k) + u.Floor
    ensures Backoff(p, k, u) <= p.maxDelay
  {
    ScaleIsPower(p.baseDelay, k);
    RawDelayRange(p, k, u);
    OneWait(p, k, u);
    var cap, x := p.maxDelay as real, RawDelay(p, k, u);
    var y := if x > cap then cap else x;
    TruncateMonotone(Capped(p, k) as real, y);
  }

  /** By default no wait exceeds thirty seconds, and up to there they double. */
  lemma DefaultWaits(maxRetries: int, baseDelay: nat, k: nat, u: real)
    requires 0.0 <= u <= baseDelay as real
    ensures var wait := Backoff(DefaultRetryPolicy(maxRetries, baseDelay), k, u);
      && wait <= 30_000_000_000
      && (baseDelay * Power2(k) + baseDelay < 30_000_000_000 ==> wait == baseDelay * Power2(k) + u.Floor)
      && (baseDelay * Power2(k) >= 30_000_000_000 ==> wait == 30_000_000_000)
  {
    WaitIsExponential(DefaultRetryPolicy(maxRetries, baseDelay), k, u);
  }

  function Sum(s: seq<int>): int {
    if s == [] then 0 else Sum(s[..|s| - 1]) + s[|s| - 1]
  }

  lemma OneWait(p: Policy, k: nat, u: real)
    requires IsJitter(p, u)
    ensures Backoff(p, k, u) <= p.maxDelay
    ensures p.maxDelay >= 0 ==> Backoff(p, k, u) <= Scale(p.baseDelay, k) + p.baseDelay
  {
    RawDelayRange(p, k, u);
    var cap, x := p.maxDelay as real, RawDelay(p, k, u);
    var y := if x > cap then cap else x;
    TruncateMonotone(y, y);
  }

  /** n waits take at most n * MaxDelay, and at most BaseDelay * (2^n - 1 + n). */
  lemma {:induction false} TotalWaitIsBounded(p: Policy, jitter: nat -> real, waits: seq<int>)
    requires p.baseDelay >= 0 && p.maxDelay >= 0
    requires forall k :: 0 <= k < |waits| ==> IsJitter(p, jitter(k)) && waits[k] == Backoff(p, k, jitter(k))
    ensures Sum(waits) <= |waits| * p.maxDelay
    ensures Sum(waits) <= p.baseDelay * (Power2(|waits|) - 1 + |waits|)
  {
    if waits != [] {
      var n := |waits| - 1;
      TotalWaitIsBounded(p, jitter, waits[..n]);
      OneWait(p, n, jitter(n));
      ScaleIsPower(p.baseDelay, n);
      Accumulate(p.baseDelay, p.maxDelay, Power2(n), n);
    } else {
      Accumulate(p.baseDelay, p.maxDelay, 1, 0);
    }
  }

  lemma Accumulate(b: int, m: int, q: int, n: nat)
    ensures b * (q - 1 + n) + (b * q + b) == b * (2 * q - 1 + (n + 1))
    ensures n * m + m == (n + 1) * m
  {
  }
}
