/**
 * The fallback chain. Positions of the chain are tried in order; a provider that is
 * cooling is skipped; a token-limit error is answered by one try of a larger model.
 * Providers are oracles, one answer per position, so a chain may repeat a provider.
 */
module Fallback {
  import opened Wrappers
  import opened Errors
  import opened Cooldown
  import opened Strings
  import opened Words

  const LARGER_MODEL: map<string, string> := map[
    "gpt-4o" := "gpt-4-turbo",
    "gpt-4o-mini" := "gpt-4o",
    "gpt-3.5-turbo" := "gpt-4o",
    "claude-haiku-4-20250414" := "claude-sonnet-4-20250514",
    "claude-3-5-sonnet-20241022" := "claude-sonnet-4-20250514",
    "gemini-2.0-flash-lite" := "gemini-2.0-flash",
    "gemini-2.0-flash" := "gemini-1.5-pro",
    "gemini-1.5-flash" := "gemini-1.5-pro",
    "llama-3.1-8b-instant" := "llama-3.3-70b-versatile",
    "deepseek-chat" := "deepseek-reasoner"]

  /** What one pass over the chain meets: answers per position and model, and clock readings. */
  datatype World<!R> = World(
    call: (nat, string) -> Result<R, GoError>,
    checkedAt: nat -> int,
    recordedAt: nat -> int)

  /** The request as the chain sees it. */
  datatype Request = Request(chain: seq<string>, model: string, larger: map<string, string>)

  datatype Answer<R> =
    | Served(position: nat, model: string, value: R)
    | AllFailed(lastErr: Option<GoError>)

  /** The request as the gateway sends it: with its own table of larger models. */
  function RequestFor(chain: seq<string>, model: string): Request {
    Request(chain, model, LARGER_MODEL)
  }

  /** The text in front of the last error when the whole chain has failed. */
  function ChainPrefix(name: string): string {
    "all providers in fallback chain \"" + name + "\" failed, last error: "
  }

  /** The error of a failed chain wraps the last one; a ProviderError inside stays visible to errors.As. */
  function ChainError(name: string, lastErr: Option<GoError>): GoError {
    match lastErr
    case None => Plain(Cause(ChainPrefix(name) + "%!w(<nil>)", false))
    case Some(Plain(cause)) => Plain(Cause(ChainPrefix(name) + cause.text, cause.deadline))
    case Some(Structured(cause, status, body)) => Structured(cause, status, body)
  }

  // ---------------------------------------------------------------- specification

  /** The log when position `i` is reached, every earlier position having been skipped or having failed. */
  function LogAt<R>(c: Config, q: Request, w: World<R>, log: Log, i: nat): Log
    requires i <= |q.chain|
  {
    if i == 0 then log
    else
      var before := LogAt(c, q, w, log, i - 1);
      if Cooling(c, before, q.chain[i - 1], w.checkedAt(i - 1)) then before
      else before + [Event(q.chain[i - 1], w.recordedAt(i - 1), false)]
  }

  predicate Tried<R>(c: Config, q: Request, w: World<R>, log: Log, i: nat)
    requires i < |q.chain|
  {
    !Cooling(c, LogAt(c, q, w, log, i), q.chain[i], w.checkedAt(i))
  }

  /** The first call failed on the context window and a larger model is known. */
  ghost predicate Enlarges<R>(q: Request, w: World<R>, i: nat) {
    var first := w.call(i, q.model);
    first.Err? && KindOf(first.error) == ErrTokenLimit && q.model in q.larger
  }

  ghost predicate Works<R>(q: Request, w: World<R>, i: nat) {
    w.call(i, q.model).Ok? || (Enlarges(q, w, i) && w.call(i, q.larger[q.model]).Ok?)
  }

  /** Calls made to the provider at position `i`, if it is tried. */
  ghost function CallsAt<R>(q: Request, w: World<R>, i: nat): nat {
    if Enlarges(q, w, i) then 2 else 1
  }

  ghost function CallsBefore<R>(c: Config, q: Request, w: World<R>, log: Log, i: nat): nat
    requires i <= |q.chain|
  {
    if i == 0 then 0
    else CallsBefore(c, q, w, log, i - 1) + if Tried(c, q, w, log, i - 1) then CallsAt(q, w, i - 1) else 0
  }

  ghost predicate NoneServes<R>(c: Config, q: Request, w: World<R>, log: Log, n: nat)
    requires n <= |q.chain|
  {
    forall i: nat :: i < n ==> !(Tried(c, q, w, log, i) && Works(q, w, i))
  }

  ghost predicate LastError<R>(c: Config, q: Request, w: World<R>, log: Log, n: nat, lastErr: Option<GoError>)
    requires n <= |q.chain|
  {
    match lastErr
    case None => forall i: nat :: i < n ==> !Tried(c, q, w, log, i)
    case Some(err) => exists i: nat :: i < n && Tried(c, q, w, log, i) && w.call(i, q.model) == Err(err)
                        && forall j: nat :: i < j < n ==> !Tried(c, q, w, log, j)
  }

  // ---------------------------------------------------------------- one pass

  /** Position `i` is the earliest that is available when reached and answers, with model `m` and value `v`. */
  ghost predicate Serves<R>(c: Config, q: Request, w: World<R>, log: Log, i: nat, m: string, v: R) {
    && i < |q.chain|
    && Tried(c, q, w, log, i)
    && NoneServes(c, q, w, log, i)
    && w.call(i, m) == Ok(v)
    && (m == q.model || (w.call(i, q.model).Err? && Enlarges(q, w, i) && m == q.larger[q.model]))
  }

  /** What one pass over the chain returns, how many calls it makes, and the log it leaves. */
  datatype Pass<R> = Pass(answer: Answer<R>, calls: nat, log: Log)

  /**
   * The earliest position that is available when reached and answers, itself or through
   * the larger model, serves the request. Every earlier available position was called and
   * has exactly one failure recorded; a first-call success adds one success, while a
   * larger-model success leaves its own recorded failure in place.
   */
  ghost predicate Passes<R>(c: Config, q: Request, w: World<R>, log: Log, p: Pass<R>) {
    match p.answer
    case Served(i, m, v) =>
      && Serves(c, q, w, log, i, m, v)
      && p.calls == CallsBefore(c, q, w, log, i) + CallsAt(q, w, i)
      && p.log == LogAt(c, q, w, log, i) + [Event(q.chain[i], w.recordedAt(i), w.call(i, q.model).Ok?)]
    case AllFailed(lastErr) =>
      && NoneServes(c, q, w, log, |q.chain|)
      && LastError(c, q, w, log, |q.chain|, lastErr)
      && p.calls == CallsBefore(c, q, w, log, |q.chain|)
      && p.log == LogAt(c, q, w, log, |q.chain|)
  }

  /** The loop's variables on reaching position `i`. */
  ghost predicate Reached<R>(c: Config, q: Request, w: World<R>, log: Log, i: nat,
                             lastErr: Option<GoError>, calls: nat, now: Log) {
    && i <= |q.chain|
    && NoneServes(c, q, w, log, i)
    && LastError(c, q, w, log, i, lastErr)
    && calls == CallsBefore(c, q, w, log, i)
    && now == LogAt(c, q, w, log, i)
  }

  /** What one position of the chain did. */
  datatype Attempt<R> = Skipped | Answered(model: string, value: R) | Failed(err: GoError)

  /** The turn at position `i`, from log `before` to log `after`. */
  ghost predicate Turn<R>(c: Config, q: Request, w: World<R>, i: nat, before: Log, t: Attempt<R>, calls: nat, after: Log)
    requires i < |q.chain|
  {
    if Cooling(c, before, q.chain[i], w.checkedAt(i)) then t.Skipped? && calls == 0 && after == before
    else
      && calls == CallsAt(q, w, i)
      && after == before + [Event(q.chain[i], w.recordedAt(i), w.call(i, q.model).Ok?)]
      && match t
         case Skipped => false
         case Answered(m, v) =>
           && w.call(i, m) == Ok(v)
           && (m == q.model || (w.call(i, q.model).Err? && Enlarges(q, w, i) && m == q.larger[q.model]))
         case Failed(err) => !Works(q, w, i) && w.call(i, q.model) == Err(err)
  }

  function ErrorAfter<R>(t: Attempt<R>, lastErr: Option<GoError>): Option<GoError> {
    if t.Failed? then Some(t.err) else lastErr
  }

  lemma NextError<R>(c: Config, q: Request, w: World<R>, log: Log, i: nat, lastErr: Option<GoError>, t: Attempt<R>)
    requires i < |q.chain| && LastError(c, q, w, log, i, lastErr) && !t.Answered?
    requires t.Skipped? <==> !Tried(c, q, w, log, i)
    requires t.Failed? ==> w.call(i, q.model) == Err(t.err)
    ensures LastError(c, q, w, log, i + 1, ErrorAfter(t, lastErr))
  {
    if !t.Failed? && lastErr.Some? {
      var k: nat :| k < i && Tried(c, q, w, log, k) && w.call(k, q.model) == Err(lastErr.value)
                    && forall j: nat :: k < j < i ==> !Tried(c, q, w, log, j);
      assert forall j: nat :: k < j < i + 1 ==> !Tried(c, q, w, log, j);
    }
  }

  /** The log and the calls after a turn that did not answer are those on reaching the next position. */
  lemma TurnCounts<R>(c: Config, q: Request, w: World<R>, log: Log, i: nat, t: Attempt<R>, made: nat, after: Log)
    requires i < |q.chain| && Turn(c, q, w, i, LogAt(c, q, w, log, i), t, made, after) && !t.Answered?
    ensures after == LogAt(c, q, w, log, i + 1)
    ensures CallsBefore(c, q, w, log, i + 1) == CallsBefore(c, q, w, log, i) + made
    ensures t.Skipped? <==> !Tried(c, q, w, log, i)
    ensures t.Failed? ==> !Works(q, w, i) && w.call(i, q.model) == Err(t.err)
  {
  }

  lemma NoneServesYet<R>(c: Config, q: Request, w: World<R>, log: Log, i: nat)
    requires i < |q.chain| && NoneServes(c, q, w, log, i) && !(Tried(c, q, w, log, i) && Works(q, w, i))
    ensures NoneServes(c, q, w, log, i + 1)
  {
  }

  /** A turn that does not answer leads on to the next position. */
  lemma TurnFails<R>(c: Config, q: Request, w: World<R>, log: Log, i: nat, lastErr: Option<GoError>, calls: nat, now: Log,
                     t: Attempt<R>, made: nat, after: Log)
    requires i < |q.chain| && Reached(c, q, w, log, i, lastErr, calls, now)
    requires Turn(c, q, w, i, now, t, made, after) && !t.Answered?
    ensures Reached(c, q, w, log, i + 1, ErrorAfter(t, lastErr), calls + made, after)
  {
    TurnCounts(c, q, w, log, i, t, made, after);
    NoneServesYet(c, q, w, log, i);
    NextError(c, q, w, log, i, lastErr, t);
  }

  /** A turn that answers ends the pass. */
  lemma TurnServes<R>(c: Config, q: Request, w: World<R>, log: Log, i: nat, lastErr: Option<GoError>, calls: nat, now: Log,
                      t: Attempt<R>, made: nat, after: Log)
    requires i < |q.chain| && Reached(c, q, w, log, i, lastErr, calls, now)
    requires Turn(c, q, w, i, now, t, made, after) && t.Answered?
    ensures Passes(c, q, w, log, Pass(Served(i, t.model, t.value), calls + made, after))
  {
  }

  lemma PassStarts<R>(c: Config, q: Request, w: World<R>, log: Log)
    ensures Reached(c, q, w, log, 0, None, 0, log)
  {
  }

  lemma PassEnds<R>(c: Config, q: Request, w: World<R>, log: Log, lastErr: Option<GoError>, calls: nat, now: Log)
    requires Reached(c, q, w, log, |q.chain|, lastErr, calls, now)
    ensures Passes(c, q, w, log, Pass(AllFailed(lastErr), calls, now))
  {
  }

  // ---------------------------------------------------------------- the chain

  /** One turn of the loop: check the cooldown, call, record, and on a token limit try the larger model. */
  method TryPosition<R>(q: Request, w: World<R>, cooldown: CooldownTracker, i: nat) returns (t: Attempt<R>, calls: nat)
    requires cooldown.Valid() && i < |q.chain|
    modifies cooldown
    ensures cooldown.Valid()
    ensures Turn(cooldown.config, q, w, i, old(cooldown.log), t, calls, cooldown.log)
    ensures t.Skipped? <==> Cooling(cooldown.config, old(cooldown.log), q.chain[i], w.checkedAt(i))
    ensures cooldown.log == old(cooldown.log)
              + if t.Skipped? then [] else [Event(q.chain[i], w.recordedAt(i), w.call(i, q.model).Ok?)]
  {
    var p := q.chain[i];
    var available := cooldown.IsAvailable(p, w.checkedAt(i));
    if !available { return Skipped, 0; }
    var first := w.call(i, q.model);
    calls := 1;
    if first.Ok? {
      cooldown.RecordSuccess(p, w.recordedAt(i));
      return Answered(q.model, first.value), calls;
    }
    var kind := ClassifyFromError(first.error);
    cooldown.RecordFailure(p, w.recordedAt(i));
    if kind == ErrTokenLimit && q.model in q.larger {
      var second := w.call(i, q.larger[q.model]);
      calls := calls + 1;
      if second.Ok? {
        return Answered(q.larger[q.model], second.value), calls;
      }
    }
    t := Failed(first.error);
  }

  /** The turn at position `i`, and where it leaves the loop's variables: at an answer, or at the next position. */
  method TakeTurn<R>(q: Request, w: World<R>, cooldown: CooldownTracker, i: nat, lastErr: Option<GoError>, calls: nat,
                     ghost log: Log) returns (served: Option<Answer<R>>, error: Option<GoError>, total: nat)
    requires cooldown.Valid() && i < |q.chain|
    requires Reached(cooldown.config, q, w, log, i, lastErr, calls, cooldown.log)
    modifies cooldown
    ensures cooldown.Valid()
    ensures served.Some? ==> Passes(cooldown.config, q, w, log, Pass(served.value, total, cooldown.log))
    ensures served.None? ==> Reached(cooldown.config, q, w, log, i + 1, error, total, cooldown.log)
  {
    ghost var c, now := cooldown.config, cooldown.log;
    var t, made := TryPosition(q, w, cooldown, i);
    total := calls + made;
    if t.Answered? {
      TurnServes(c, q, w, log, i, lastErr, calls, now, t, made, cooldown.log);
      return Some(Served(i, t.model, t.value)), lastErr, total;
    }
    TurnFails(c, q, w, log, i, lastErr, calls, now, t, made, cooldown.log);
    served, error := None, if t.Failed? then Some(t.err) else lastErr;
  }

  method ChatCompletion<R>(q: Request, w: World<R>, cooldown: CooldownTracker) returns (a: Answer<R>, calls: nat)
    requires cooldown.Valid()
    modifies cooldown
    ensures cooldown.Valid()
    ensures Passes(cooldown.config, q, w, old(cooldown.log), Pass(a, calls, cooldown.log))
  {
    ghost var log := cooldown.log;
    var lastErr, i, served := None, 0, None;
    calls := 0;
    PassStarts(cooldown.config, q, w, log);
    while i < |q.chain| && served.None?
      invariant cooldown.Valid()
      invariant served.Some? ==> Passes(cooldown.config, q, w, log, Pass(served.value, calls, cooldown.log))
      invariant served.None? ==> Reached(cooldown.config, q, w, log, i, lastErr, calls, cooldown.log)
      decreases |q.chain| - i
    {
      served, lastErr, calls := TakeTurn(q, w, cooldown, i, lastErr, calls, log);
      i := i + 1;
    }
    if served.None? {
      PassEnds(cooldown.config, q, w, log, lastErr, calls, cooldown.log);
      return AllFailed(lastErr), calls;
    }
    a := served.value;
  }

  // ---------------------------------------------------------------- a pass is a function of what it meets

  /** Every position can take its turn. */
  lemma TurnExists<R>(c: Config, q: Request, w: World<R>, i: nat, before: Log) returns (t: Attempt<R>, calls: nat, after: Log)
    requires i < |q.chain|
    ensures Turn(c, q, w, i, before, t, calls, after)
  {
    var first := w.call(i, q.model);
    calls, after := CallsAt(q, w, i), before + [Event(q.chain[i], w.recordedAt(i), first.Ok?)];
    if Cooling(c, before, q.chain[i], w.checkedAt(i)) {
      t, calls, after := Skipped, 0, before;
    } else if first.Ok? {
      t := Answered(q.model, first.value);
    } else if Works(q, w, i) {
      t := Answered(q.larger[q.model], w.call(i, q.larger[q.model]).value);
    } else {
      t := Failed(first.error);
    }
  }

  /** From a position reached, the pass is either over or reaches the next one. */
  lemma OneTurn<R>(c: Config, q: Request, w: World<R>, log: Log, i: nat, lastErr: Option<GoError>, calls: nat, now: Log)
    returns (over: Option<Pass<R>>, error: Option<GoError>, total: nat, after: Log)
    requires i < |q.chain| && Reached(c, q, w, log, i, lastErr, calls, now)
    ensures over.Some? ==> Passes(c, q, w, log, over.value)
    ensures over.None? ==> Reached(c, q, w, log, i + 1, error, total, after)
  {
    var t, made, later := TurnExists(c, q, w, i, now);
    after, total, error := later, calls + made, ErrorAfter(t, lastErr);
    if t.Answered? {
      TurnServes(c, q, w, log, i, lastErr, calls, now, t, made, after);
      over := Some(Pass(Served(i, t.model, t.value), total, after));
    } else {
      TurnFails(c, q, w, log, i, lastErr, calls, now, t, made, after);
      over := None;
    }
  }

  /** Whatever it meets, a pass comes to an end. */
  lemma PassExists<R>(c: Config, q: Request, w: World<R>, log: Log) returns (p: Pass<R>)
    ensures Passes(c, q, w, log, p)
  {
    var lastErr, calls, now := None, 0, log;
    PassStarts(c, q, w, log);
    for i := 0 to |q.chain|
      invariant Reached(c, q, w, log, i, lastErr, calls, now)
    {
      var over;
      over, lastErr, calls, now := OneTurn(c, q, w, log, i, lastErr, calls, now);
      if over.Some? { return over.value; }
    }
    PassEnds(c, q, w, log, lastErr, calls, now);
    p := Pass(AllFailed(lastErr), calls, now);
  }

  lemma ServingIsFirst<R>(c: Config, q: Request, w: World<R>, log: Log, i: nat, m: string, v: R, j: nat)
    requires Serves(c, q, w, log, i, m, v) && j <= |q.chain| && NoneServes(c, q, w, log, j)
    ensures j <= i
  {
    assert Works(q, w, i);
  }

  lemma LastErrorIsUnique<R>(c: Config, q: Request, w: World<R>, log: Log, n: nat, e1: Option<GoError>, e2: Option<GoError>)
    requires n <= |q.chain| && LastError(c, q, w, log, n, e1) && LastError(c, q, w, log, n, e2)
    ensures e1 == e2
  {
    if e1.Some? && e2.Some? {
      var i: nat :| i < n && Tried(c, q, w, log, i) && w.call(i, q.model) == Err(e1.value)
                    && forall j: nat :: i < j < n ==> !Tried(c, q, w, log, j);
      var k: nat :| k < n && Tried(c, q, w, log, k) && w.call(k, q.model) == Err(e2.value)
                    && forall j: nat :: k < j < n ==> !Tried(c, q, w, log, j);
      assert i == k;
    }
  }

  /** What a pass meets decides its answer (position, model and value, or last error), its calls and its log. */
  lemma PassIsDetermined<R>(c: Config, q: Request, w: World<R>, log: Log, p1: Pass<R>, p2: Pass<R>)
    requires Passes(c, q, w, log, p1) && Passes(c, q, w, log, p2)
    ensures p1 == p2
  {
    match (p1.answer, p2.answer)
    case (Served(i, m, v), Served(j, m', v')) =>
      ServingIsFirst(c, q, w, log, i, m, v, j);
      ServingIsFirst(c, q, w, log, j, m', v', i);
    case (Served(i, m, v), AllFailed(_)) => ServingIsFirst(c, q, w, log, i, m, v, |q.chain|);
    case (AllFailed(_), Served(i, m, v)) => ServingIsFirst(c, q, w, log, i, m, v, |q.chain|);
    case (AllFailed(e1), AllFailed(e2)) => LastErrorIsUnique(c, q, w, log, |q.chain|, e1, e2);
  }

  lemma {:induction false} AtMostTwoEach<R>(c: Config, q: Request, w: World<R>, log: Log, i: nat)
    requires i <= |q.chain|
    ensures CallsBefore(c, q, w, log, i) <= 2 * i
  {
    if i > 0 { AtMostTwoEach(c, q, w, log, i - 1); }
  }

  /** A pass makes at most two calls per position. */
  lemma PassIsShort<R>(c: Config, q: Request, w: World<R>, log: Log, p: Pass<R>)
    requires Passes(c, q, w, log, p)
    ensures p.calls <= 2 * |q.chain|
  {
    AtMostTwoEach(c, q, w, log, if p.answer.Served? then p.answer.position else |q.chain|);
  }

  // ---------------------------------------------------------------- what the specification implies

  function FailuresOf(log: Log, p: string): nat {
    if log == [] then 0
    else FailuresOf(log[..|log| - 1], p) + if log[|log| - 1].provider == p && !log[|log| - 1].ok then 1 else 0
  }

  ghost function TimesTried<R>(c: Config, q: Request, w: World<R>, log: Log, i: nat, p: string): nat
    requires i <= |q.chain|
  {
    if i == 0 then 0
    else TimesTried(c, q, w, log, i - 1, p) + if q.chain[i - 1] == p && Tried(c, q, w, log, i - 1) then 1 else 0
  }

  /** Position by position: one failure per position that was tried, and nothing else. */
  lemma {:induction false} OneFailurePerTry<R>(c: Config, q: Request, w: World<R>, log: Log, i: nat, p: string)
    requires i <= |q.chain|
    ensures FailuresOf(LogAt(c, q, w, log, i), p) == FailuresOf(log, p) + TimesTried(c, q, w, log, i, p)
  {
    if i > 0 {
      OneFailurePerTry(c, q, w, log, i - 1, p);
      var before := LogAt(c, q, w, log, i - 1);
      var e := Event(q.chain[i - 1], w.recordedAt(i - 1), false);
      assert (before + [e])[..|before|] == before;
    }
  }

  /** A chain whose providers are all cooling makes no call, changes nothing and has no error to report. */
  lemma {:induction false} AllCooling<R>(c: Config, q: Request, w: World<R>, log: Log, i: nat)
    requires i <= |q.chain|
    requires forall k: nat :: k < i ==> Cooling(c, log, q.chain[k], w.checkedAt(k))
    ensures LogAt(c, q, w, log, i) == log && CallsBefore(c, q, w, log, i) == 0
    ensures forall k: nat :: k < i ==> !Tried(c, q, w, log, k)
  {
    if i > 0 {
      AllCooling(c, q, w, log, i - 1);
    }
  }

  // ---------------------------------------------------------------- which errors are tried again

  /**
   * A position is called a second time, with the larger model, exactly when its first error is
   * a token limit and a larger model is known. For an error formatted from a status that the
   * body decides, that is when the body holds one of the token-limit patterns.
   */
  lemma TriedTwiceExactlyWhen<R>(q: Request, w: World<R>, i: nat, prefix: string, code: nat, body: string)
    requires !Contains(prefix, STATUS) && code < TWO63 && ByBody(code) && !Contains(Format(prefix, code, body), DEADLINE)
    requires w.call(i, q.model) == Err(Plain(Cause(Format(prefix, code, body), false)))
    ensures CallsAt(q, w, i) == 2 <==> ContainsAny(Lower(TrimSpace(body)), TOKEN_LIMIT) && q.model in q.larger
    ensures CallsAt(q, w, i) == 1 || CallsAt(q, w, i) == 2
  {
    FormattedKind(prefix, code, body, false);
    KindExactlyWhen(Cause(Format(prefix, code, body), false), code, TrimSpace(body));
  }

  lemma ContextLengthBody(body: string)
    requires body == "context_length_exceeded"
    ensures ContainsAny(Lower(TrimSpace(body)), TOKEN_LIMIT)
  {
    TrimNothing(body);
    assert forall k :: 0 <= k < |body| ==> LowerChar(body[k]) == body[k];
    assert Lower(body) == body == TOKEN_LIMIT[0];
    assert OccursAt(body, body, 0);
  }

  /** The plain case: a 400 that says "context_length_exceeded". */
  lemma ContextLengthIsTriedTwice<R>(q: Request, w: World<R>, i: nat, prefix: string)
    requires !Contains(prefix, STATUS) && !Contains(Format(prefix, 400, "context_length_exceeded"), DEADLINE)
    requires w.call(i, q.model) == Err(Plain(Cause(Format(prefix, 400, "context_length_exceeded"), false)))
    requires q.model in q.larger
    ensures CallsAt(q, w, i) == 2
    ensures w.call(i, q.larger[q.model]).Ok? ==> Works(q, w, i)
  {
    ContextLengthBody("context_length_exceeded");
    TriedTwiceExactlyWhen(q, w, i, prefix, 400, "context_length_exceeded");
  }
}
