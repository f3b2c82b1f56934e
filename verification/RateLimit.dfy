/**
 * The two Redis-backed limiters of one key, on sequential runs with a fixed limit.
 * Time is real seconds since the epoch; the request limiter sees whole seconds.
 */
module RateLimit {
  import opened Sets

  const WINDOW: int := 60

  // ---------------------------------------------------------------- requests per minute

  /** The sorted set (member and score are the second of the request) and when its key expires. */
  datatype RequestSet = RequestSet(members: set<int>, expiresAt: real)

  const NO_REQUESTS := RequestSet({}, 0.0)

  /** Removes the scores from 0 up to `now - 60`. */
  function Trim(members: set<int>, now: int): set<int> {
    set m | m in members && !(0 <= m <= now - WINDOW)
  }

  /** What Redis still holds at time `t`. */
  function Present(s: RequestSet, t: real): set<int> {
    if t >= s.expiresAt then {} else s.members
  }

  datatype Checked = Checked(state: RequestSet, admitted: bool)

  function Check(s: RequestSet, t: real, limit: int): Checked {
    if limit <= 0 then Checked(s, true)
    else
      var recent := Trim(Present(s, t), t.Floor);
      if |recent| >= limit then Checked(s.(members := recent), false)
      else Checked(RequestSet(recent + {t.Floor}, t + 120.0), true)
  }

  class RequestLimiter {
    var members: set<int>
    var expiresAt: real

    ghost function View(): RequestSet
      reads this
    {
      RequestSet(members, expiresAt)
    }

    constructor ()
      ensures View() == NO_REQUESTS
    {
      members, expiresAt := {}, 0.0;
    }

    method CheckRateLimit(rpmLimit: int, t: real) returns (admitted: bool)
      modifies this
      ensures Checked(View(), admitted) == Check(old(View()), t, rpmLimit)
      ensures !admitted || rpmLimit <= 0 ==> expiresAt == old(expiresAt)
      ensures admitted && rpmLimit > 0 ==> t.Floor in members && expiresAt == t + 120.0
    {
      if rpmLimit <= 0 { return true; }
      var now := t.Floor;
      var windowStart := now - 60;
      if t >= expiresAt { members := {}; }
      members := set m | m in members && !(0 <= m <= windowStart);
      if |members| >= rpmLimit { return false; }
      members, expiresAt := members + {now}, t + 120.0;
      return true;
    }
  }

  type Times = seq<real>

  predicate Monotone(times: Times) {
    && (forall k :: 0 <= k < |times| ==> times[k] >= 0.0)
    && forall j, k :: 0 <= j < k < |times| ==> times[j] <= times[k]
  }

  /** The set after the requests made at `times`. */
  function StateAfter(times: Times, limit: int): RequestSet {
    if times == [] then NO_REQUESTS
    else Check(StateAfter(times[..|times| - 1], limit), times[|times| - 1], limit).state
  }

  predicate LastAdmitted(times: Times, limit: int)
    requires times != []
  {
    Check(StateAfter(times[..|times| - 1], limit), times[|times| - 1], limit).admitted
  }

  predicate InWindow(second: int, end: int) {
    end - 60 < second <= end
  }

  /** The distinct seconds in (end - 60, end] that hold an admitted request. */
  function AdmittedSeconds(times: Times, limit: int, end: int): set<int> {
    if times == [] then {}
    else
      var second := times[|times| - 1].Floor;
      AdmittedSeconds(times[..|times| - 1], limit, end)
      + if LastAdmitted(times, limit) && InWindow(second, end) then {second} else {}
  }

  /** The number of admitted requests in (end - 60, end]. */
  function AdmittedRequests(times: Times, limit: int, end: int): nat {
    if times == [] then 0
    else
      AdmittedRequests(times[..|times| - 1], limit, end)
      + if LastAdmitted(times, limit) && InWindow(times[|times| - 1].Floor, end) then 1 else 0
  }

  /** Members are past seconds, and the key outlives the newest of them by two minutes. */
  predicate Fresh(s: RequestSet, t: real) {
    forall m :: m in s.members ==> 0 <= m && m as real <= t && m as real <= s.expiresAt - 120.0
  }

  /** When the key has expired nothing would have survived the trimming anyway. */
  lemma ExpiryRemovesNothingRecent(s: RequestSet, t: real)
    requires t >= 0.0 && Fresh(s, t)
    ensures Trim(Present(s, t), t.Floor) == Trim(s.members, t.Floor)
  {
    if t >= s.expiresAt {
      forall m | m in s.members ensures 0 <= m <= t.Floor - WINDOW {
        assert m as real <= t - 120.0;
      }
    }
  }

  lemma CheckKeepsFresh(s: RequestSet, t: real, limit: int)
    requires t >= 0.0 && Fresh(s, t)
    ensures Fresh(Check(s, t, limit).state, t)
  {
  }

  lemma {:induction false} RunIsFresh(times: Times, limit: int, t: real)
    requires Monotone(times) && t >= 0.0 && (times == [] || times[|times| - 1] <= t)
    ensures Fresh(StateAfter(times, limit), t)
  {
    if times != [] {
      var n := |times| - 1;
      RunIsFresh(times[..n], limit, times[n]);
      CheckKeepsFresh(StateAfter(times[..n], limit), times[n], limit);
    }
  }

  /** The same limiter on a set that never expires. */
  function CheckForever(members: set<int>, t: real, limit: int): (set<int>, bool) {
    if limit <= 0 then (members, true)
    else
      var recent := Trim(members, t.Floor);
      if |recent| >= limit then (recent, false) else (recent + {t.Floor}, true)
  }

  function ForeverAfter(times: Times, limit: int): set<int> {
    if times == [] then {} else CheckForever(ForeverAfter(times[..|times| - 1], limit), times[|times| - 1], limit).0
  }

  /** The two-minute expiry never changes a decision. */
  lemma {:induction false} ExpiryIsInvisible(times: Times, limit: int)
    requires Monotone(times)
    ensures ForeverAfter(times, limit) == StateAfter(times, limit).members
    ensures times != [] ==>
      LastAdmitted(times, limit) == CheckForever(ForeverAfter(times[..|times| - 1], limit), times[|times| - 1], limit).1
  {
    if times != [] {
      var n := |times| - 1;
      ExpiryIsInvisible(times[..n], limit);
      RunIsFresh(times[..n], limit, times[n]);
      ExpiryRemovesNothingRecent(StateAfter(times[..n], limit), times[n]);
    }
  }

  lemma TrimLater(members: set<int>, second: int, now: int)
    requires 0 <= second <= now
    ensures Trim(Trim(members, second), now) == Trim(members, now)
    ensures Trim(Trim(members, second) + {second}, now)
            == Trim(members, now) + if InWindow(second, now) then {second} else {}
  {
  }

  /** The set holds exactly the admitted seconds of the last minute. */
  lemma {:induction false} SetIsWindow(times: Times, limit: int, now: int)
    requires Monotone(times) && limit > 0 && now >= 0
    requires times != [] ==> times[|times| - 1].Floor <= now
    ensures Trim(ForeverAfter(times, limit), now) == AdmittedSeconds(times, limit, now)
  {
    if times != [] {
      var n := |times| - 1;
      assert n > 0 ==> times[n - 1] <= times[n];
      SetIsWindow(times[..n], limit, now);
      ExpiryIsInvisible(times, limit);
      TrimLater(ForeverAfter(times[..n], limit), times[n].Floor, now);
    }
  }

  lemma {:induction false} SetIsSmall(times: Times, limit: int)
    requires limit > 0
    ensures |ForeverAfter(times, limit)| <= limit
  {
    if times != [] {
      var n := |times| - 1;
      var before := ForeverAfter(times[..n], limit);
      SetIsSmall(times[..n], limit);
      SubsetCount(Trim(before, times[n].Floor), before);
    }
  }

  /** In any window of sixty seconds at most `limit` distinct seconds hold an admitted request. */
  lemma {:induction false} SecondsPerMinute(times: Times, limit: int, end: int)
    requires Monotone(times) && limit > 0
    ensures |AdmittedSeconds(times, limit, end)| <= limit
  {
    if times != [] {
      var n := |times| - 1;
      var last := times[n].Floor;
      if last > end {
        SecondsPerMinute(times[..n], limit, end);
      } else {
        SetIsWindow(times, limit, last);
        NarrowerWindow(times, limit, last, end);
        SubsetCount(AdmittedSeconds(times, limit, end), AdmittedSeconds(times, limit, last));
        SetIsSmall(times, limit);
        SubsetCount(Trim(ForeverAfter(times, limit), last), ForeverAfter(times, limit));
      }
    }
  }

  lemma {:induction false} NarrowerWindow(times: Times, limit: int, last: int, end: int)
    requires last <= end && forall k :: 0 <= k < |times| ==> times[k].Floor <= last
    ensures AdmittedSeconds(times, limit, end) <= AdmittedSeconds(times, limit, last)
  {
    if times != [] {
      NarrowerWindow(times[..|times| - 1], limit, last, end);
    }
  }

  /** Whether a request is admitted: always without a limit, else while fewer than `limit` seconds of the last minute are taken. */
  lemma AdmittedExactlyWhen(times: Times, limit: int)
    requires Monotone(times) && times != []
    ensures var front, now := times[..|times| - 1], times[|times| - 1].Floor;
      LastAdmitted(times, limit) <==> limit <= 0 || |AdmittedSeconds(front, limit, now)| < limit
  {
    var n := |times| - 1;
    if limit > 0 {
      assert n > 0 ==> times[n - 1] <= times[n];
      ExpiryIsInvisible(times, limit);
      SetIsWindow(times[..n], limit, times[n].Floor);
    }
  }

  /** Without a limit nothing is ever recorded. */
  lemma {:induction false} NoLimitNoRecord(times: Times, limit: int)
    requires limit <= 0
    ensures StateAfter(times, limit) == NO_REQUESTS
  {
    if times != [] {
      NoLimitNoRecord(times[..|times| - 1], limit);
    }
  }

  // ---------------------------------------------------------------- the limit on requests

  lemma {:induction false} NoSecondNoRequest(times: Times, limit: int, end: int)
    ensures AdmittedSeconds(times, limit, end) == {} <==> AdmittedRequests(times, limit, end) == 0
  {
    if times != [] {
      NoSecondNoRequest(times[..|times| - 1], limit, end);
    }
  }

  /** With a limit of one, an admitted request is alone in its minute. */
  lemma {:induction false} OnePerMinute(times: Times, end: int)
    requires Monotone(times)
    ensures AdmittedRequests(times, 1, end) <= 1
  {
    if times != [] {
      var n := |times| - 1;
      var last := times[n].Floor;
      OnePerMinute(times[..n], end);
      if LastAdmitted(times, 1) && InWindow(last, end) {
        assert n > 0 ==> times[n - 1] <= times[n];
        ExpiryIsInvisible(times, 1);
        SetIsWindow(times[..n], 1, last);
        NarrowerWindow(times[..n], 1, last, end);
        assert |Trim(ForeverAfter(times[..n], 1), last)| < 1;
        assert AdmittedSeconds(times[..n], 1, end) == {};
        NoSecondNoRequest(times[..n], 1, end);
      }
    }
  }

  /** With any larger limit, requests of one second are all admitted: they share one member of the set. */
  lemma {:induction false} SameSecondFlood(n: nat, limit: int)
    requires limit >= 2
    ensures var times := seq(n, _ => 100.0);
      && Monotone(times)
      && AdmittedRequests(times, limit, 100) == n
      && StateAfter(times, limit).members == (if n == 0 then {} else {100})
      && (n > 0 ==> StateAfter(times, limit).expiresAt == 220.0)
  {
    if n > 0 {
      var times := seq(n, _ => 100.0);
      SameSecondFlood(n - 1, limit);
      assert times[..n - 1] == seq(n - 1, _ => 100.0);
      var s := StateAfter(times[..n - 1], limit);
      assert Trim(Present(s, 100.0), 100) <= {100};
      SubsetCount(Trim(Present(s, 100.0), 100), {100});
      assert Trim(Present(s, 100.0), 100) + {100} == {100};
    }
  }

  /**
   * "At most `limit` requests per minute" holds on every run exactly when the limit is one:
   * the set's member is the second, so requests within one second count once.
   */
  lemma RequestsPerMinuteIff(limit: int)
    requires limit > 0
    ensures (forall times: Times, end: int :: Monotone(times) ==> AdmittedRequests(times, limit, end) <= limit)
            <==> limit == 1
  {
    if limit == 1 {
      forall times: Times, end: int | Monotone(times) ensures AdmittedRequests(times, limit, end) <= limit {
        OnePerMinute(times, end);
      }
    } else {
      SameSecondFlood(limit + 1, limit);
    }
  }

  // ---------------------------------------------------------------- tokens per minute

  /** The counter key: absent, or a value and when it expires. */
  datatype Counter = Absent | Counter(value: int, expiresAt: real)

  datatype Usage = Usage(at: real, tokens: int)

  function Current(c: Counter, t: real): int {
    if c.Absent? || t >= c.expiresAt then 0 else c.value
  }

  predicate Fits(c: Counter, u: Usage, limit: int) {
    Current(c, u.at) + u.tokens <= limit
  }

  /** Recording moves the expiry to a minute from now; a refused record changes nothing. */
  function Record(c: Counter, u: Usage, limit: int): Counter {
    if limit <= 0 || !Fits(c, u, limit) then c else Counter(Current(c, u.at) + u.tokens, u.at + 60.0)
  }

  class TokenLimiter {
    var counter: Counter

    constructor ()
      ensures counter == Absent
    {
      counter := Absent;
    }

    /** The answer is nil exactly when there is no limit or the tokens fit under it. */
    method RecordTokenUsage(u: Usage, tpmLimit: int) returns (ok: bool)
      modifies this
      ensures counter == Record(old(counter), u, tpmLimit)
      ensures ok <==> tpmLimit <= 0 || Fits(old(counter), u, tpmLimit)
      ensures !ok || tpmLimit <= 0 ==> counter == old(counter)
      ensures ok && tpmLimit > 0 ==>
        var alive := old(counter).Counter? && u.at < old(counter).expiresAt;
        counter == Counter((if alive then old(counter).value else 0) + u.tokens, u.at + 60.0)
    {
      if tpmLimit <= 0 { return true; }
      var current := 0;
      if counter.Counter? && u.at < counter.expiresAt { current := counter.value; }
      if current + u.tokens > tpmLimit { return false; }
      counter := Counter(current + u.tokens, u.at + 60.0);
      return true;
    }
  }

  type Usages = seq<Usage>

  predicate Orderly(us: Usages) {
    && (forall k :: 0 <= k < |us| ==> us[k].tokens >= 0)
    && forall j, k :: 0 <= j < k < |us| ==> us[j].at <= us[k].at
  }

  function CounterAfter(us: Usages, limit: int): Counter {
    if us == [] then Absent else Record(CounterAfter(us[..|us| - 1], limit), us[|us| - 1], limit)
  }

  /** Tokens recorded at or after `from` and before `until`. */
  function Recorded(us: Usages, limit: int, from: real, until: real): int {
    if us == [] then 0
    else
      var u := us[|us| - 1];
      Recorded(us[..|us| - 1], limit, from, until)
      + if Fits(CounterAfter(us[..|us| - 1], limit), u, limit) && from <= u.at < until then u.tokens else 0
  }

  /** Records older than the live key's last minute are at least a minute away from it. */
  lemma {:induction false} LiveKeyHoldsLastMinute(us: Usages, limit: int, from: real, until: real)
    requires Orderly(us) && limit > 0
    ensures var c := CounterAfter(us, limit);
      && (c.Absent? ==> Recorded(us, limit, from, until) == 0)
      && (c.Counter? ==> 0 <= c.value <= limit)
      && (c.Counter? ==> us != [] && c.expiresAt - 60.0 <= us[|us| - 1].at)
      && (c.Counter? && from > c.expiresAt - 60.0 ==> Recorded(us, limit, from, until) == 0)
      && (c.Counter? && from > c.expiresAt - 120.0 ==> Recorded(us, limit, from, until) <= c.value)
  {
    if us != [] {
      var n := |us| - 1;
      LiveKeyHoldsLastMinute(us[..n], limit, from, until);
      assert n > 0 ==> us[n - 1].at <= us[n].at;
    }
  }

  /** On any orderly run at most `limit` tokens are recorded in any half-open window of sixty seconds. */
  lemma {:induction false} TokensPerMinute(us: Usages, limit: int, from: real)
    requires Orderly(us) && limit > 0
    ensures Recorded(us, limit, from, from + 60.0) <= limit
  {
    if us != [] {
      var n := |us| - 1;
      var u := us[n];
      TokensPerMinute(us[..n], limit, from);
      if Fits(CounterAfter(us[..n], limit), u, limit) && from <= u.at < from + 60.0 {
        LiveKeyHoldsLastMinute(us, limit, from, from + 60.0);
      }
    }
  }

  lemma {:induction false} ShorterWindow(us: Usages, limit: int, from: real, until: real, later: real)
    requires Orderly(us) && until <= later
    ensures Recorded(us, limit, from, until) <= Recorded(us, limit, from, later)
  {
    if us != [] {
      ShorterWindow(us[..|us| - 1], limit, from, until, later);
    }
  }

  /** Two full records a minute apart are both accepted: any longer window can hold twice the limit. */
  lemma LongerWindowHoldsTwice(limit: int, length: real)
    requires limit > 0 && length > 60.0
    ensures var us := [Usage(0.0, limit), Usage(60.0, limit)];
      Orderly(us) && Recorded(us, limit, 0.0, 0.0 + length) == 2 * limit
  {
    var us := [Usage(0.0, limit), Usage(60.0, limit)];
    var one := [Usage(0.0, limit)];
    assert us[..1] == one && one[..0] == [];
    assert CounterAfter(one, limit) == Counter(limit, 60.0);
    assert Recorded(one, limit, 0.0, length) == limit;
  }

  predicate KeepsLimit(us: Usages, limit: int, from: real, length: real) {
    Recorded(us, limit, from, from + length) <= limit
  }

  /** The windows that never hold more than `limit` tokens on any orderly run are exactly those of at most a minute. */
  lemma TokenWindowIff(limit: int, length: real)
    requires limit > 0
    ensures (forall us: Usages, from: real :: Orderly(us) ==> KeepsLimit(us, limit, from, length))
            <==> length <= 60.0
  {
    if length <= 60.0 {
      forall us: Usages, from: real | Orderly(us) ensures KeepsLimit(us, limit, from, length) {
        TokensPerMinute(us, limit, from);
        ShorterWindow(us, limit, from, from + length, from + 60.0);
      }
    } else {
      LongerWindowHoldsTwice(limit, length);
      assert !KeepsLimit([Usage(0.0, limit), Usage(60.0, limit)], limit, 0.0, length);
    }
  }
}
