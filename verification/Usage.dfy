/** The windowed token counter, and the log of records it summarises. */
module Usage {
  import opened Wrappers

  datatype Entry = Entry(id: string, tokens: int, at: int)

  type Log = seq<Entry>

  /** Tokens recorded for `id` at or after `from`. */
  function SumSince(log: Log, id: string, from: int): int {
    if log == [] then 0
    else
      var e := log[|log| - 1];
      SumSince(log[..|log| - 1], id, from) + if e.id == id && e.at >= from then e.tokens else 0
  }

  lemma SumGrows(log: Log, e: Entry, id: string, from: int)
    ensures SumSince(log + [e], id, from) == SumSince(log, id, from) + if e.id == id && e.at >= from then e.tokens else 0
  {
    assert (log + [e])[..|log|] == log;
  }

  lemma {:induction false} NothingSince(log: Log, id: string, from: int)
    requires forall k :: 0 <= k < |log| && log[k].id == id ==> log[k].at < from
    ensures SumSince(log, id, from) == 0
  {
    if log != [] {
      NothingSince(log[..|log| - 1], id, from);
    }
  }

  /** A shorter look-back never holds more tokens, if no record is negative. */
  lemma {:induction false} SumIsMonotone(log: Log, id: string, from: int, later: int)
    requires from <= later && forall k :: 0 <= k < |log| ==> log[k].tokens >= 0
    ensures 0 <= SumSince(log, id, later) <= SumSince(log, id, from)
  {
    if log != [] {
      SumIsMonotone(log[..|log| - 1], id, from, later);
    }
  }

  /** When the current window of `id` began: at a record that came more than a period after the one before. */
  function WindowStart(log: Log, id: string, period: int): Option<int> {
    if log == [] then None
    else
      var e, start := log[|log| - 1], WindowStart(log[..|log| - 1], id, period);
      if e.id == id && (start.None? || e.at - start.value > period) then Some(e.at) else start
  }

  /** What the tracker reports at `now`: the records of the current window, or nothing once it is over. */
  function WindowUsage(log: Log, id: string, period: int, now: int): int {
    match WindowStart(log, id, period)
    case None => 0
    case Some(start) => if now - start > period then 0 else SumSince(log, id, start)
  }

  /** The counter of `id` is the sum of exactly its records since its window began. */
  predicate Summarises(log: Log, period: int, usage: map<string, int>, start: map<string, int>, id: string) {
    if id in start then
      && WindowStart(log, id, period) == Some(start[id])
      && id in usage && usage[id] == SumSince(log, id, start[id])
      && forall k :: 0 <= k < |log| && log[k].id == id ==> log[k].at <= start[id] + period
    else
      && WindowStart(log, id, period) == None
      && forall k :: 0 <= k < |log| ==> log[k].id != id
  }

  lemma RecordSummarised(log: Log, period: int, usage: map<string, int>, start: map<string, int>, e: Entry, id: string)
    requires period > 0 && Summarises(log, period, usage, start, id)
    requires e.id in start ==> e.id in usage && start[e.id] <= e.at
    ensures
      var reset := e.id !in start || e.at - start[e.id] > period;
      Summarises(log + [e], period,
        usage[e.id := (if reset then 0 else usage[e.id]) + e.tokens],
        if reset then start[e.id := e.at] else start, id)
  {
    var reset := e.id !in start || e.at - start[e.id] > period;
    assert (log + [e])[..|log|] == log;
    if id == e.id && reset {
      NothingSince(log, id, e.at);
      SumGrows(log, e, id, e.at);
    } else if id in start {
      SumGrows(log, e, id, start[id]);
    }
  }

  class UsageTracker {
    const resetPeriod: int
    var usage: map<string, int>
    var windowStart: map<string, int>
    ghost var log: Log

    ghost predicate Valid()
      reads this
    {
      resetPeriod > 0 && forall id :: Summarises(log, resetPeriod, usage, windowStart, id)
    }

    /** `now` is not before any record: the clock does not run backwards. */
    ghost predicate Follows(now: int)
      reads this
    {
      && (forall k :: 0 <= k < |log| ==> log[k].at <= now)
      && (forall id :: id in windowStart ==> windowStart[id] <= now)
    }

    constructor (period: int)
      ensures Valid() && log == [] && resetPeriod == if period <= 0 then 60_000_000_000 else period
    {
      resetPeriod := if period <= 0 then 60_000_000_000 else period;
      usage, windowStart, log := map[], map[], [];
    }

    method Record(id: string, tokens: int, now: int)
      requires Valid() && Follows(now)
      modifies this
      ensures Valid() && Follows(now) && log == old(log) + [Entry(id, tokens, now)]
    {
      ghost var e := Entry(id, tokens, now);
      assert Summarises(log, resetPeriod, usage, windowStart, id);
      if id !in windowStart || now - windowStart[id] > resetPeriod {
        usage := usage[id := 0];
        windowStart := windowStart[id := now];
      }
      usage := usage[id := usage[id] + tokens];
      log := log + [e];
      forall i ensures Summarises(log, resetPeriod, usage, windowStart, i) {
        RecordSummarised(old(log), resetPeriod, old(usage), old(windowStart), e, i);
      }
    }

    /**
     * Either nothing, or exactly the records since the window's start, which lies within the
     * reset period; so never more than the true sliding sum over [now - period, now].
     */
    method Current(id: string, now: int) returns (u: int)
      requires Valid() && Follows(now)
      ensures u == WindowUsage(log, id, resetPeriod, now)
      ensures u == 0 || (id in windowStart && now - resetPeriod <= windowStart[id] && u == SumSince(log, id, windowStart[id]))
      ensures id in windowStart && now - windowStart[id] <= resetPeriod ==> u == SumSince(log, id, windowStart[id])
      ensures (forall k :: 0 <= k < |log| ==> log[k].tokens >= 0) ==> 0 <= u <= SumSince(log, id, now - resetPeriod)
    {
      assert Summarises(log, resetPeriod, usage, windowStart, id);
      if forall k :: 0 <= k < |log| ==> log[k].tokens >= 0 {
        SumIsMonotone(log, id, now - resetPeriod, now - resetPeriod);
        if id in windowStart && now - resetPeriod <= windowStart[id] {
          SumIsMonotone(log, id, now - resetPeriod, windowStart[id]);
        }
      }
      if id !in windowStart || now - windowStart[id] > resetPeriod { return 0; }
      return usage[id];
    }
  }

  ghost predicate IsFirst(log: Log, id: string, k: nat) {
    k < |log| && log[k].id == id && forall j :: 0 <= j < k ==> log[j].id != id
  }

  /** Records within one period of the first all fall into its window. */
  lemma {:induction false} OneWindow(log: Log, id: string, period: int, k: nat)
    requires period > 0 && IsFirst(log, id, k)
    requires forall j :: 0 <= j < |log| && log[j].id == id ==> log[k].at <= log[j].at <= log[k].at + period
    ensures WindowStart(log, id, period) == Some(log[k].at)
  {
    var n := |log| - 1;
    if k < n {
      OneWindow(log[..n], id, period, k);
    } else {
      NoWindow(log[..n], id, period);
    }
  }

  lemma {:induction false} NoWindow(log: Log, id: string, period: int)
    requires forall j :: 0 <= j < |log| ==> log[j].id != id
    ensures WindowStart(log, id, period) == None
  {
    if log != [] { NoWindow(log[..|log| - 1], id, period); }
  }

  /** All tokens ever recorded for `id`. */
  function Total(log: Log, id: string): int {
    if log == [] then 0 else Total(log[..|log| - 1], id) + if log[|log| - 1].id == id then log[|log| - 1].tokens else 0
  }

  lemma {:induction false} SumIsTotal(log: Log, id: string, from: int)
    requires forall j :: 0 <= j < |log| && log[j].id == id ==> from <= log[j].at
    ensures SumSince(log, id, from) == Total(log, id)
  {
    if log != [] { SumIsTotal(log[..|log| - 1], id, from); }
  }

  /** No record is forgotten early: within one period of the first record everything recorded is reported. */
  lemma NothingForgottenEarly(log: Log, id: string, period: int, k: nat, now: int)
    requires period > 0 && IsFirst(log, id, k) && now <= log[k].at + period
    requires forall j :: 0 <= j < |log| && log[j].id == id ==> log[k].at <= log[j].at <= log[k].at + period
    ensures WindowUsage(log, id, period, now) == Total(log, id)
  {
    OneWindow(log, id, period, k);
    SumIsTotal(log, id, log[k].at);
  }

  /** A record more than a period after the window's start begins a new window of its own. */
  lemma NewWindow(log: Log, e: Entry, period: int, now: int)
    requires period > 0 && e.at <= now <= e.at + period
    requires WindowStart(log, e.id, period).Some? && e.at - WindowStart(log, e.id, period).value > period
    requires forall j :: 0 <= j < |log| && log[j].id == e.id ==> log[j].at < e.at
    ensures WindowUsage(log + [e], e.id, period, now) == e.tokens
  {
    assert (log + [e])[..|log|] == log;
    NothingSince(log, e.id, e.at);
    SumGrows(log, e, e.id, e.at);
  }
}
