/**
 * The router: availability check, in-flight count, retries, and one cooldown event
 * and at most one usage record per call.
 */
module Routing {
  import opened Wrappers
  import opened Errors
  import Cooldown
  import Usage
  import Retry
  import Fallback
  import ChainErrors

  /** A response, as far as routing looks at it. */
  datatype Response = Response(id: string, totalTokens: int)

  datatype Routed = InCooldown | Routed(outcome: Retry.Outcome<Response>)

  class Router {
    const policy: Retry.Policy
    const cooldown: Cooldown.CooldownTracker
    const usage: Usage.UsageTracker
    var counts: map<string, int>

    function InFlight(id: string): int
      reads this
    {
      if id in counts then counts[id] else 0
    }

    ghost predicate Valid()
      reads this, cooldown, usage
    {
      cooldown.Valid() && usage.Valid() && forall id :: InFlight(id) >= 0
    }

    constructor (policy: Retry.Policy, cooldown: Cooldown.CooldownTracker, usage: Usage.UsageTracker)
      requires cooldown.Valid() && usage.Valid()
      ensures Valid() && this.policy == policy && this.cooldown == cooldown && this.usage == usage
    {
      this.policy, this.cooldown, this.usage := policy, cooldown, usage;
      counts := map[];
    }

    method Increment(id: string)
      modifies this
      ensures forall x :: InFlight(x) == old(InFlight(x)) + if x == id then 1 else 0
    {
      counts := counts[id := InFlight(id) + 1];
    }

    method Decrement(id: string)
      modifies this
      ensures forall x :: InFlight(x) ==
                            if x != id then old(InFlight(x)) else if old(InFlight(x)) - 1 < 0 then 0 else old(InFlight(x)) - 1
    {
      counts := counts[id := InFlight(id) - 1];
      if counts[id] < 0 { counts := counts[id := 0]; }
    }

    /**
     * A cooling provider is refused with no call and no event. Otherwise the retry loop runs
     * as specified and, however many attempts it made, exactly one event is logged: a success
     * if and only if no error is returned. In-flight counts are back where they were.
     */
    method ChatCompletion(provider: string, w: Retry.World<Response>, start: int, end: int)
      returns (r: Routed, calls: nat)
      requires Valid() && usage.Follows(end)
      modifies this, cooldown, usage
      ensures Valid()
      ensures r.InCooldown? <==> Cooldown.Cooling(cooldown.config, old(cooldown.log), provider, start)
      ensures r.InCooldown? ==> calls == 0 && cooldown.log == old(cooldown.log) && usage.log == old(usage.log)
      ensures r.Routed? ==>
        && Retry.Executes(policy, w, calls, r.outcome)
        && cooldown.log == old(cooldown.log) + [Cooldown.Event(provider, end, r.outcome.Success? || r.outcome.Empty?)]
        && usage.log == old(usage.log)
             + if r.outcome.Success? then [Usage.Entry(provider, r.outcome.value.totalTokens, end)] else []
      ensures forall id :: InFlight(id) == old(InFlight(id))
    {
      calls := 0;
      var available := cooldown.IsAvailable(provider, start);
      if !available { return InCooldown, 0; }
      Increment(provider);
      var outcome, made, waits := Retry.Execute(policy, w);
      calls := made;
      if outcome.Failed? || outcome.ContextDone? {
        cooldown.RecordFailure(provider, end);
      } else {
        cooldown.RecordSuccess(provider, end);
        if outcome.Success? {
          usage.Record(provider, outcome.value.totalTokens, end);
        }
      }
      Decrement(provider);
      r := Routed(outcome);
    }

    /** The streaming form: no usage record. */
    method ChatCompletionStream(provider: string, w: Retry.World<()>, start: int, end: int)
      returns (refused: bool, outcome: Retry.Outcome<()>, calls: nat)
      requires Valid()
      modifies this, cooldown
      ensures Valid()
      ensures refused <==> Cooldown.Cooling(cooldown.config, old(cooldown.log), provider, start)
      ensures refused ==> calls == 0 && cooldown.log == old(cooldown.log)
      ensures !refused ==> Retry.Executes(policy, w, calls, outcome)
      ensures !refused ==>
        cooldown.log == old(cooldown.log) + [Cooldown.Event(provider, end, outcome.Success? || outcome.Empty?)]
      ensures forall id :: InFlight(id) == old(InFlight(id))
    {
      outcome, calls := Retry.Empty, 0;
      var available := cooldown.IsAvailable(provider, start);
      if !available { return true, outcome, 0; }
      Increment(provider);
      var waits;
      outcome, calls, waits := Retry.ExecuteStream(policy, w);
      if outcome.Failed? || outcome.ContextDone? {
        cooldown.RecordFailure(provider, end);
      } else {
        cooldown.RecordSuccess(provider, end);
      }
      Decrement(provider);
      refused := false;
    }

    /**
     * The router in front of a fallback chain: the retry loop of `Retry.Execute` with a whole
     * pass over the chain as its attempt. The passes run one after the other on the shared
     * cooldown tracker (`trail` holds every pass the policy allows), and the chain as such
     * then gets its one closing event.
     */
    method RouteFallback(name: string, q: Fallback.Request, m: Meets, start: int, end: int)
      returns (r: Routed, attempts: nat, calls: nat, ghost trail: Trail)
      requires Valid() && usage.Follows(end)
      modifies this, cooldown, usage
      ensures Valid()
      ensures r.InCooldown? <==> Cooldown.Cooling(cooldown.config, old(cooldown.log), name, start)
      ensures r.InCooldown? ==>
        attempts == 0 && calls == 0 && cooldown.log == old(cooldown.log) && usage.log == old(usage.log)
      ensures |trail| == Allowed(policy) && IsTrail(cooldown.config, q, m, old(cooldown.log), trail)
      ensures r.Routed? ==>
        && Retry.Executes(policy, AsProvider(FailureOf(name), m, trail), attempts, r.outcome)
        && calls == CallsOver(trail, attempts)
        && cooldown.log == LogBefore(old(cooldown.log), trail, attempts) + [Cooldown.Event(name, end, r.outcome.Success? || r.outcome.Empty?)]
        && usage.log == old(usage.log)
             + if r.outcome.Success? then [Usage.Entry(name, r.outcome.value.totalTokens, end)] else []
      ensures calls <= 2 * |q.chain| * Allowed(policy)
      ensures forall id :: InFlight(id) == old(InFlight(id))
    {
      attempts, calls := 0, 0;
      trail := TrailExists(cooldown.config, q, m, cooldown.log, Allowed(policy));
      var available := cooldown.IsAvailable(name, start);
      if !available {
        PassesAreShort(cooldown.config, q, m, cooldown.log, trail, 0, Allowed(policy));
        return InCooldown, 0, 0, trail;
      }
      Increment(name);
      ghost var log := cooldown.log;
      var outcome;
      outcome, attempts, calls := RetryPasses(policy, cooldown, FailureOf(name), q, m, trail);
      PassesAreShort(cooldown.config, q, m, log, trail, attempts, Allowed(policy));
      if outcome.Failed? || outcome.ContextDone? {
        cooldown.RecordFailure(name, end);
      } else {
        cooldown.RecordSuccess(name, end);
        if outcome.Success? {
          usage.Record(name, outcome.value.totalTokens, end);
        }
      }
      Decrement(name);
      r := Routed(outcome);
    }
  }

  // ---------------------------------------------------------------- retrying a chain

  /** What each pass over the chain meets, and whether the context ends the wait after it. */
  datatype Meets = Meets(passes: nat -> Fallback.World<Response>, cancelled: nat -> bool, jitter: nat -> real)

  /** The error a failed pass returns, made from the last error of the chain. */
  type Failure = Option<GoError> -> GoError

  function FailureOf(name: string): Failure {
    lastErr => Fallback.ChainError(name, lastErr)
  }

  /** Attempts a policy allows. */
  function Allowed(p: Retry.Policy): nat {
    if p.maxRetries < 0 then 0 else p.maxRetries + 1
  }

  /** Passes over the chain, one after the other. */
  type Trail = seq<Fallback.Pass<Response>>

  /** The log when pass `k` begins. */
  function LogBefore(log: Cooldown.Log, trail: Trail, k: nat): Cooldown.Log
    requires k <= |trail|
  {
    if k == 0 then log else trail[k - 1].log
  }

  /** Pass `k` is what its own circumstances make it, on the log that the one before it left. */
  ghost predicate IsPass(c: Cooldown.Config, q: Fallback.Request, m: Meets, log: Cooldown.Log, trail: Trail, k: nat)
    requires k < |trail|
  {
    Fallback.Passes(c, q, m.passes(k), LogBefore(log, trail, k), trail[k])
  }

  ghost predicate IsTrail(c: Cooldown.Config, q: Fallback.Request, m: Meets, log: Cooldown.Log, trail: Trail) {
    forall k: nat :: k < |trail| ==> IsPass(c, q, m, log, trail, k)
  }

  /** Upstream calls of the first `n` passes. */
  function CallsOver(trail: Trail, n: nat): nat
    requires n <= |trail|
  {
    if n == 0 then 0 else CallsOver(trail, n - 1) + trail[n - 1].calls
  }

  function ResultOf(failure: Failure, a: Fallback.Answer<Response>): Result<Response, GoError> {
    match a
    case Served(_, _, value) => Ok(value)
    case AllFailed(lastErr) => Err(failure(lastErr))
  }

  /** The chain as the retry policy sees it: one provider whose attempt `k` is pass `k`. */
  function AsProvider(failure: Failure, m: Meets, trail: Trail): Retry.World<Response> {
    Retry.World((k: nat) => if k < |trail| then ResultOf(failure, trail[k].answer) else Err(failure(None)),
                m.cancelled, m.jitter)
  }

  lemma TrailExists(c: Cooldown.Config, q: Fallback.Request, m: Meets, log: Cooldown.Log, n: nat) returns (trail: Trail)
    ensures |trail| == n && IsTrail(c, q, m, log, trail)
  {
    trail := [];
    for k := 0 to n
      invariant |trail| == k && IsTrail(c, q, m, log, trail)
    {
      var p := Fallback.PassExists(c, q, m.passes(k), LogBefore(log, trail, k));
      trail := OnePassMore(c, q, m, log, trail, p);
    }
  }

  lemma OnePassMore(c: Cooldown.Config, q: Fallback.Request, m: Meets, log: Cooldown.Log, trail: Trail,
                    p: Fallback.Pass<Response>) returns (longer: Trail)
    requires IsTrail(c, q, m, log, trail)
    requires Fallback.Passes(c, q, m.passes(|trail|), LogBefore(log, trail, |trail|), p)
    ensures longer == trail + [p] && IsTrail(c, q, m, log, longer)
  {
    longer := trail + [p];
    forall k: nat | k < |longer| ensures IsPass(c, q, m, log, longer, k) {
      assert LogBefore(log, longer, k) == LogBefore(log, trail, k);
      if k < |trail| {
        assert IsPass(c, q, m, log, trail, k) && longer[k] == trail[k];
      }
    }
  }

  /** And the circumstances leave no choice. */
  lemma {:induction false} TrailIsDetermined(c: Cooldown.Config, q: Fallback.Request, m: Meets, log: Cooldown.Log,
                                             t1: Trail, t2: Trail, n: nat)
    requires IsTrail(c, q, m, log, t1) && IsTrail(c, q, m, log, t2) && n <= |t1| && n <= |t2|
    ensures t1[..n] == t2[..n]
  {
    if n > 0 {
      TrailIsDetermined(c, q, m, log, t1, t2, n - 1);
      var k := n - 1;
      assert k > 0 ==> t1[..k][k - 1] == t2[..k][k - 1];
      assert LogBefore(log, t1, k) == LogBefore(log, t2, k);
      assert IsPass(c, q, m, log, t1, k) && IsPass(c, q, m, log, t2, k);
      Fallback.PassIsDetermined(c, q, m.passes(k), LogBefore(log, t1, k), t1[k], t2[k]);
    }
  }

  /** Pass number `k` of the trail, on the tracker that the earlier passes left. */
  method RunPass(cooldown: Cooldown.CooldownTracker, failure: Failure, q: Fallback.Request, m: Meets, k: nat,
                 ghost log: Cooldown.Log, ghost trail: Trail) returns (result: Result<Response, GoError>, made: nat)
    requires cooldown.Valid() && k < |trail| && IsTrail(cooldown.config, q, m, log, trail)
    requires cooldown.log == LogBefore(log, trail, k)
    modifies cooldown
    ensures cooldown.Valid() && cooldown.log == LogBefore(log, trail, k + 1)
    ensures result == ResultOf(failure, trail[k].answer) && made == trail[k].calls
  {
    ghost var before := cooldown.log;
    var a;
    a, made := Fallback.ChatCompletion(q, m.passes(k), cooldown);
    assert IsPass(cooldown.config, q, m, log, trail, k);
    Fallback.PassIsDetermined(cooldown.config, q, m.passes(k), before, Fallback.Pass(a, made, cooldown.log), trail[k]);
    result := ResultOf(failure, a);
  }

  /** The retry loop, its attempts being the passes. */
  method RetryPasses(p: Retry.Policy, cooldown: Cooldown.CooldownTracker, failure: Failure, q: Fallback.Request, m: Meets,
                     ghost trail: Trail)
    returns (outcome: Retry.Outcome<Response>, attempts: nat, calls: nat)
    requires cooldown.Valid() && |trail| == Allowed(p) && IsTrail(cooldown.config, q, m, cooldown.log, trail)
    modifies cooldown
    ensures cooldown.Valid()
    ensures Retry.Executes(p, AsProvider(failure, m, trail), attempts, outcome) && attempts <= |trail|
    ensures calls == CallsOver(trail, attempts) && cooldown.log == LogBefore(old(cooldown.log), trail, attempts)
  {
    ghost var log, w := cooldown.log, AsProvider(failure, m, trail);
    outcome, attempts, calls := Retry.Empty, 0, 0;
    while attempts < p.maxRetries + 1
      invariant cooldown.Valid() && attempts <= |trail|
      invariant calls == CallsOver(trail, attempts) && cooldown.log == LogBefore(log, trail, attempts)
      invariant Retry.Pending(p, w, attempts, outcome)
    {
      var k := attempts;
      Retry.AttemptMade(p, w, k, outcome);
      var result, made := RunPass(cooldown, failure, q, m, k, log, trail);
      attempts, calls := attempts + 1, calls + made;
      if result.Ok? {
        return Retry.Success(result.value), attempts, calls;
      }
      var kind := ClassifyFromError(result.error);
      outcome := Retry.Failed(kind, result.error);
      if kind !in p.retryable {
        return outcome, attempts, calls;
      }
      if k < p.maxRetries && m.cancelled(k) {
        return Retry.ContextDone, attempts, calls;
      }
    }
    Retry.AttemptsExhausted(p, w, attempts, outcome);
  }

  lemma ShortPass(c: Cooldown.Config, q: Fallback.Request, m: Meets, log: Cooldown.Log, trail: Trail, k: nat)
    requires IsTrail(c, q, m, log, trail) && k < |trail|
    ensures trail[k].calls <= 2 * |q.chain|
  {
    assert IsPass(c, q, m, log, trail, k);
    Fallback.PassIsShort(c, q, m.passes(k), LogBefore(log, trail, k), trail[k]);
  }

  lemma OnceMore(chain: nat, n: nat, most: nat)
    ensures 2 * chain * (n + 1) == 2 * chain * n + 2 * chain
    ensures n <= most ==> 2 * chain * n <= 2 * chain * most
  {
    assert 2 * chain * most == 2 * chain * n + 2 * chain * (most - n);
  }

  lemma {:induction false} ShortTrail(c: Cooldown.Config, q: Fallback.Request, m: Meets, log: Cooldown.Log, trail: Trail, n: nat)
    requires IsTrail(c, q, m, log, trail) && n <= |trail|
    ensures CallsOver(trail, n) <= 2 * |q.chain| * n
  {
    if n > 0 {
      ShortTrail(c, q, m, log, trail, n - 1);
      ShortPass(c, q, m, log, trail, n - 1);
      OnceMore(|q.chain|, n - 1, n);
    }
  }

  /** However the passes fall out, `n` of at most `most` make at most 2 * chain length * most upstream calls. */
  lemma PassesAreShort(c: Cooldown.Config, q: Fallback.Request, m: Meets, log: Cooldown.Log, trail: Trail, n: nat, most: nat)
    requires IsTrail(c, q, m, log, trail) && n <= |trail| && n <= most
    ensures CallsOver(trail, n) <= 2 * |q.chain| * most
  {
    ShortTrail(c, q, m, log, trail, n);
    OnceMore(|q.chain|, n, most);
  }

  /** A failed pass is retried exactly when the policy would have retried the last error of the chain. */
  lemma PassIsRetriedIff(p: Retry.Policy, name: string, m: Meets, trail: Trail, k: nat)
    requires ChainErrors.Harmless(name) && k < |trail|
    ensures Retry.RetryableFailure(p, AsProvider(FailureOf(name), m, trail), k) <==>
      match trail[k].answer
      case Served(_, _, _) => false
      case AllFailed(None) => ErrUnknown in p.retryable
      case AllFailed(Some(err)) => KindOf(err) in p.retryable
  {
    match trail[k].answer
    case Served(_, _, _) =>
    case AllFailed(None) => ChainErrors.EmptyChainIsUnknown(name);
    case AllFailed(Some(err)) => ChainErrors.ChainErrorKeepsKind(name, err);
  }

  /** The outcome of a routed chain is that of its last pass: its answer, its error, or a context that ended the wait after it. */
  lemma OutcomeIsLastPass(p: Retry.Policy, failure: Failure, m: Meets, trail: Trail, attempts: nat,
                          outcome: Retry.Outcome<Response>)
    requires Retry.Executes(p, AsProvider(failure, m, trail), attempts, outcome) && 0 < attempts <= |trail|
    ensures match trail[attempts - 1].answer
            case Served(_, _, value) => outcome == Retry.Success(value)
            case AllFailed(lastErr) =>
              || outcome == Retry.Failed(KindOf(failure(lastErr)), failure(lastErr))
              || (outcome == Retry.ContextDone && m.cancelled(attempts - 1))
  {
    var k: nat := attempts - 1;
    assert AsProvider(failure, m, trail).attempt(k) == ResultOf(failure, trail[k].answer);
  }
}
