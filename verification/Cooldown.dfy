/** The cooldown tracker, and the event log it summarises. */
module Cooldown {

  /** One recorded result of a provider; times are clock readings. */
  datatype Event = Event(provider: string, at: int, ok: bool)

  type Log = seq<Event>

  datatype Config = Config(threshold: int, period: int) {
    /** A threshold below one acts like one: a provider that never failed is not cooling. */
    function Needed(): int {
      if threshold < 1 then 1 else threshold
    }
  }

  /** Failures of `p` since its last success. */
  function Streak(log: Log, p: string): nat {
    if log == [] then 0
    else
      var e := log[|log| - 1];
      if e.provider != p then Streak(log[..|log| - 1], p)
      else if e.ok then 0
      else Streak(log[..|log| - 1], p) + 1
  }

  /** Time of the most recent failure of `p` (0 if there is none). */
  function LastFailure(log: Log, p: string): int {
    if log == [] then 0
    else
      var e := log[|log| - 1];
      if e.provider == p && !e.ok then e.at else LastFailure(log[..|log| - 1], p)
  }

  /** Cooling: enough failures in a row, and the period after the last of them is not over. */
  predicate Cooling(c: Config, log: Log, p: string, t: int) {
    Streak(log, p) >= c.Needed() && t <= LastFailure(log, p) + c.period
  }

  lemma LogGrows(log: Log, e: Event, p: string)
    ensures Streak(log + [e], p) == if e.provider != p then Streak(log, p) else if e.ok then 0 else Streak(log, p) + 1
    ensures LastFailure(log + [e], p) == if e.provider == p && !e.ok then e.at else LastFailure(log, p)
  {
    assert (log + [e])[..|log|] == log;
  }

  function CountOf(failures: map<string, int>, p: string): int {
    if p in failures then failures[p] else 0
  }

  /** What the two maps say of `p` is what the log says. */
  predicate Summarises(c: Config, log: Log, failures: map<string, int>, until: map<string, int>, p: string) {
    && CountOf(failures, p) == Streak(log, p)
    && (p in until <==> Streak(log, p) >= c.Needed())
    && (p in until ==> until[p] == LastFailure(log, p) + c.period)
  }

  lemma FailureSummarised(c: Config, log: Log, failures: map<string, int>, until: map<string, int>, e: Event, p: string)
    requires Summarises(c, log, failures, until, p) && Summarises(c, log, failures, until, e.provider) && !e.ok
    ensures var n := CountOf(failures, e.provider) + 1;
      Summarises(c, log + [e], failures[e.provider := n],
                 if n >= c.threshold then until[e.provider := e.at + c.period] else until, p)
  {
    LogGrows(log, e, p);
  }

  lemma SuccessSummarised(c: Config, log: Log, failures: map<string, int>, until: map<string, int>, e: Event, p: string)
    requires Summarises(c, log, failures, until, p) && e.ok
    ensures Summarises(c, log + [e], failures[e.provider := 0], until - {e.provider}, p)
  {
    LogGrows(log, e, p);
  }

  class CooldownTracker {
    const config: Config
    var failures: map<string, int>
    var cooldownUntil: map<string, int>
    ghost var log: Log

    ghost predicate Valid()
      reads this
    {
      forall p :: Summarises(config, log, failures, cooldownUntil, p)
    }

    constructor (threshold: int, cooldownPeriod: int)
      ensures Valid() && log == [] && config == Config(threshold, cooldownPeriod)
    {
      config := Config(threshold, cooldownPeriod);
      failures, cooldownUntil, log := map[], map[], [];
    }

    method RecordFailure(provider: string, now: int)
      requires Valid()
      modifies this
      ensures Valid() && log == old(log) + [Event(provider, now, false)]
    {
      ghost var e := Event(provider, now, false);
      failures := failures[provider := CountOf(failures, provider) + 1];
      if failures[provider] >= config.threshold {
        cooldownUntil := cooldownUntil[provider := now + config.period];
      }
      log := log + [e];
      forall p ensures Summarises(config, log, failures, cooldownUntil, p) {
        FailureSummarised(config, old(log), old(failures), old(cooldownUntil), e, p);
      }
    }

    method RecordSuccess(provider: string, now: int)
      requires Valid()
      modifies this
      ensures Valid() && log == old(log) + [Event(provider, now, true)]
    {
      ghost var e := Event(provider, now, true);
      failures := failures[provider := 0];
      cooldownUntil := cooldownUntil - {provider};
      log := log + [e];
      forall p ensures Summarises(config, log, failures, cooldownUntil, p) {
        SuccessSummarised(config, old(log), old(failures), old(cooldownUntil), e, p);
      }
    }

    /** Available exactly when the log does not have the provider cooling. */
    method IsAvailable(provider: string, now: int) returns (r: bool)
      requires Valid()
      ensures r == !Cooling(config, log, provider, now)
    {
      assert Summarises(config, log, failures, cooldownUntil, provider);
      if provider !in cooldownUntil { return true; }
      return now > cooldownUntil[provider];
    }
  }

  // ---------------------------------------------------------------- cooling, without the counters

  /** Failures of `p` among the events from position `k` on. */
  function FailuresFrom(log: Log, p: string, k: nat): nat {
    if |log| <= k then 0
    else
      var n := |log| - 1;
      FailuresFrom(log[..n], p, k) + if log[n].provider == p && !log[n].ok then 1 else 0
  }

  ghost predicate NoSuccessFrom(log: Log, p: string, k: nat) {
    forall i :: k <= i < |log| && log[i].provider == p ==> !log[i].ok
  }

  ghost predicate IsLastFailure(log: Log, p: string, j: nat) {
    && j < |log| && log[j].provider == p && !log[j].ok
    && forall i :: j < i < |log| && log[i].provider == p ==> log[i].ok
  }

  lemma {:induction false} StreakSince(log: Log, p: string) returns (k: nat)
    ensures k <= |log| && NoSuccessFrom(log, p, k) && FailuresFrom(log, p, k) == Streak(log, p)
  {
    if log == [] {
      k := 0;
    } else {
      var n := |log| - 1;
      if log[n].provider == p && log[n].ok {
        k := |log|;
      } else {
        k := StreakSince(log[..n], p);
        assert forall i :: 0 <= i < n ==> log[..n][i] == log[i];
      }
    }
  }

  lemma {:induction false} StreakCoversThem(log: Log, p: string, k: nat)
    requires NoSuccessFrom(log, p, k)
    ensures FailuresFrom(log, p, k) <= Streak(log, p)
  {
    if |log| > k {
      var n := |log| - 1;
      assert forall i :: 0 <= i < n ==> log[..n][i] == log[i];
      StreakCoversThem(log[..n], p, k);
    }
  }

  lemma {:induction false} LastFailureIs(log: Log, p: string, j: nat)
    requires IsLastFailure(log, p, j)
    ensures LastFailure(log, p) == log[j].at
  {
    var n := |log| - 1;
    if j < n {
      assert forall i :: 0 <= i < n ==> log[..n][i] == log[i];
      LastFailureIs(log[..n], p, j);
    }
  }

  lemma {:induction false} LastFailureExists(log: Log, p: string) returns (j: nat)
    requires Streak(log, p) > 0
    ensures IsLastFailure(log, p, j)
  {
    var n := |log| - 1;
    if log[n].provider == p {
      j := n;
    } else {
      j := LastFailureExists(log[..n], p);
      assert forall i :: 0 <= i < n ==> log[..n][i] == log[i];
    }
  }

  /** From position `k` on `p` never succeeded and failed often enough, last at `j`, less than a period ago. */
  ghost predicate CoolsBecause(c: Config, log: Log, p: string, t: int, k: nat, j: nat) {
    && NoSuccessFrom(log, p, k)
    && FailuresFrom(log, p, k) >= 1 && FailuresFrom(log, p, k) >= c.threshold
    && IsLastFailure(log, p, j) && t <= log[j].at + c.period
  }

  /** A provider is cooling exactly when the events themselves say so. */
  lemma CoolingExactlyWhen(c: Config, log: Log, p: string, t: int)
    ensures Cooling(c, log, p, t) <==> exists k: nat, j: nat :: CoolsBecause(c, log, p, t, k, j)
  {
    if Cooling(c, log, p, t) {
      var k := StreakSince(log, p);
      var j := LastFailureExists(log, p);
      LastFailureIs(log, p, j);
      assert CoolsBecause(c, log, p, t, k, j);
    }
    if k: nat, j: nat :| CoolsBecause(c, log, p, t, k, j) {
      StreakCoversThem(log, p, k);
      LastFailureIs(log, p, j);
    }
  }

  /** Events of other providers make no difference. */
  lemma {:induction false} ProvidersAreIndependent(c: Config, log: Log, p: string, t: int)
    ensures Cooling(c, log, p, t) <==> Cooling(c, Of(log, p), p, t)
    ensures Streak(Of(log, p), p) == Streak(log, p) && LastFailure(Of(log, p), p) == LastFailure(log, p)
  {
    if log != [] {
      var front, e := log[..|log| - 1], log[|log| - 1];
      ProvidersAreIndependent(c, front, p, t);
      if e.provider == p {
        LogGrows(Of(front, p), e, p);
      } else {
        assert Of(log, p) == Of(front, p);
      }
    }
  }

  function Of(log: Log, p: string): Log {
    if log == [] then []
    else Of(log[..|log| - 1], p) + if log[|log| - 1].provider == p then [log[|log| - 1]] else []
  }
}
