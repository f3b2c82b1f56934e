/**
 * The agent loop: send the conversation, run the tools the model asks for, append
 * their results, repeat. The provider and the tools are arbitrary oracles.
 */
module Agents {
  import opened Wrappers
  import Anthropic

  type ToolCall = Anthropic.ToolCall

  datatype Message = Message(role: string, content: string, toolCalls: seq<ToolCall>, toolCallId: string)

  datatype Usage = Usage(prompt: int, completion: int, total: int)

  datatype Choice = Choice(finishReason: string, message: Message)

  datatype Response = Response(usage: Usage, choices: seq<Choice>)

  /** The provider's answer to call number `n` with the given messages; a tool's answer to its `k`-th call in turn `n`. */
  datatype World<!E> = World(
    provider: (nat, seq<Message>) -> Result<Response, E>,
    tool: (nat, nat, ToolCall) -> string)

  datatype Step = Step(
    iteration: nat, messages: seq<Message>, toolCalls: seq<ToolCall>, toolResults: seq<Message>, finishReason: string)

  datatype AgentRunResponse = AgentRunResponse(
    steps: seq<Step>, finalMessage: Message, usage: Usage, finishReason: string)

  datatype Failure<E> = MissingParam | UnknownModel | ProviderFailed(error: E)

  const ZERO := Message("", "", [], "")

  function Plus(a: Usage, b: Usage): Usage {
    Usage(a.prompt + b.prompt, a.completion + b.completion, a.total + b.total)
  }

  /** Ten iterations by default, fifty at most. */
  function Clamp(maxIterations: int): (n: nat)
    ensures 1 <= n <= 50
  {
    if maxIterations <= 0 then 10 else if maxIterations > 50 then 50 else maxIterations
  }

  // ---------------------------------------------------------------- specification

  predicate AsksForTools(choice: Choice) {
    choice.finishReason == "tool_calls" && choice.message.toolCalls != []
  }

  function ToolMessage(w: World, n: nat, k: nat, call: ToolCall): Message {
    Message("tool", w.tool(n, k, call), [], call.id)
  }

  /** One tool message per call, in order. */
  function ToolMessages(w: World, n: nat, calls: seq<ToolCall>): seq<Message> {
    seq(|calls|, k requires 0 <= k < |calls| => ToolMessage(w, n, k, calls[k]))
  }

  function Assistant(choice: Choice): Message {
    Message("assistant", choice.message.content, choice.message.toolCalls, "")
  }

  datatype Stop<E> = Going | Stopped | Broken(error: E)

  /** The loop's variables, and the messages of every call made so far. */
  datatype Progress<E> = Progress(
    sent: seq<seq<Message>>, messages: seq<Message>, steps: seq<Step>, usage: Usage, reason: string, stop: Stop<E>)

  function Start<E>(messages: seq<Message>): Progress<E> {
    Progress([], messages, [], Usage(0, 0, 0), "stop", Going)
  }

  /** Iteration number `n` of at most `limit`. */
  function Iterate<E>(w: World<E>, limit: nat, n: nat, p: Progress<E>): Progress<E> {
    var q := p.(sent := p.sent + [p.messages]);
    match w.provider(n, p.messages)
    case Err(error) => q.(stop := Broken(error))
    case Ok(resp) => Absorb(w, limit, n, q.(usage := Plus(p.usage, resp.usage)), resp)
  }

  function Absorb<E>(w: World<E>, limit: nat, n: nat, q: Progress<E>, resp: Response): Progress<E> {
    if resp.choices == [] then q.(stop := Stopped)
    else
      var choice := resp.choices[0];
      if !AsksForTools(choice) then
        q.(reason := choice.finishReason, stop := Stopped,
           steps := q.steps + [Step(n, q.messages, [], [], choice.finishReason)],
           messages := q.messages + [choice.message])
      else
        var calls := choice.message.toolCalls;
        var results := ToolMessages(w, n, calls);
        q.(reason := if n == limit then "max_iterations" else choice.finishReason,
           steps := q.steps + [Step(n, q.messages, calls, results, choice.finishReason)],
           messages := q.messages + [Assistant(choice)] + results)
  }

  /** The loop after at most `n` iterations. */
  function After<E>(w: World<E>, messages: seq<Message>, limit: nat, n: nat): Progress<E> {
    if n == 0 then Start(messages) else Next(w, limit, n, After(w, messages, limit, n - 1))
  }

  function Next<E>(w: World<E>, limit: nat, n: nat, p: Progress<E>): Progress<E> {
    if p.stop.Going? then Iterate(w, limit, n, p) else p
  }

  function LastMessage(messages: seq<Message>): Message {
    if messages == [] then ZERO else messages[|messages| - 1]
  }

  function Report<E>(p: Progress<E>): Result<AgentRunResponse, Failure<E>> {
    if p.stop.Broken? then Err(ProviderFailed(p.stop.error))
    else Ok(AgentRunResponse(p.steps, LastMessage(p.messages), p.usage, p.reason))
  }

  // ---------------------------------------------------------------- the two loops

  method RunTools<E>(w: World<E>, n: nat, calls: seq<ToolCall>) returns (results: seq<Message>)
    ensures results == ToolMessages(w, n, calls)
  {
    results := [];
    for k := 0 to |calls|
      invariant results == ToolMessages(w, n, calls[..k])
    {
      var result := w.tool(n, k, calls[k]);
      results := results + [Message("tool", result, [], calls[k].id)];
    }
    assert calls[..|calls|] == calls;
  }

  /** The handler's own loop, behind its two parameter checks. */
  method AgentRun<E>(model: string, resolved: bool, request: seq<Message>, maxIterations: int, w: World<E>)
    returns (r: Result<AgentRunResponse, Failure<E>>, ghost sent: seq<seq<Message>>)
    ensures model == "" || request == [] ==> r == Err(MissingParam)
    ensures model != "" && request != [] && !resolved ==> r == Err(UnknownModel)
    ensures model != "" && request != [] && resolved ==>
      var p := After(w, request, Clamp(maxIterations), Clamp(maxIterations));
      r == Report(p) && sent == p.sent
  {
    sent := [];
    if model == "" { return Err(MissingParam), sent; }
    if |request| == 0 { return Err(MissingParam), sent; }
    var maxIter := maxIterations;
    if maxIter <= 0 { maxIter := 10; }
    if maxIter > 50 { maxIter := 50; }
    if !resolved { return Err(UnknownModel), sent; }

    var messages, steps, usage, reason := request, [], Usage(0, 0, 0), "stop";
    var iteration := 1;
    while iteration <= maxIter
      invariant 1 <= iteration <= maxIter + 1 && maxIter == Clamp(maxIterations)
      invariant After(w, request, maxIter, iteration - 1) == Progress(sent, messages, steps, usage, reason, Going)
    {
      ghost var before := Progress(sent, messages, steps, usage, reason, Going);
      assert After(w, request, maxIter, iteration) == Iterate(w, maxIter, iteration, before);
      var resp := w.provider(iteration, messages);
      sent := sent + [messages];
      if resp.Err? {
        StaysStopped(w, request, maxIter, iteration, maxIter);
        return Err(ProviderFailed(resp.error)), sent;
      }
      usage := Plus(usage, resp.value.usage);
      if |resp.value.choices| == 0 {
        StaysStopped(w, request, maxIter, iteration, maxIter);
        break;
      }
      var choice := resp.value.choices[0];
      reason := choice.finishReason;
      if choice.finishReason != "tool_calls" || |choice.message.toolCalls| == 0 {
        steps := steps + [Step(iteration, messages, [], [], choice.finishReason)];
        messages := messages + [choice.message];
        StaysStopped(w, request, maxIter, iteration, maxIter);
        break;
      }
      var results := RunTools(w, iteration, choice.message.toolCalls);
      steps := steps + [Step(iteration, messages, choice.message.toolCalls, results, choice.finishReason)];
      messages := messages + [Message("assistant", choice.message.content, choice.message.toolCalls, "")] + results;
      if iteration == maxIter {
        reason := "max_iterations";
      }
      iteration := iteration + 1;
    }
    r := Ok(AgentRunResponse(steps, LastMessage(messages), usage, reason));
  }

  /** The copy used by assistants: no parameter checks. */
  method RunAgentLoop<E>(resolved: bool, request: seq<Message>, maxIterations: int, w: World<E>)
    returns (r: Result<AgentRunResponse, Failure<E>>, ghost sent: seq<seq<Message>>)
    ensures !resolved ==> r == Err(UnknownModel)
    ensures resolved ==>
      var p := After(w, request, Clamp(maxIterations), Clamp(maxIterations));
      r == Report(p) && sent == p.sent
  {
    sent := [];
    var maxIter := maxIterations;
    if maxIter <= 0 { maxIter := 10; }
    if maxIter > 50 { maxIter := 50; }
    if !resolved { return Err(UnknownModel), sent; }

    var messages, steps, usage, reason := request, [], Usage(0, 0, 0), "stop";
    var iteration := 1;
    while iteration <= maxIter
      invariant 1 <= iteration <= maxIter + 1 && maxIter == Clamp(maxIterations)
      invariant After(w, request, maxIter, iteration - 1) == Progress(sent, messages, steps, usage, reason, Going)
    {
      ghost var before := Progress(sent, messages, steps, usage, reason, Going);
      assert After(w, request, maxIter, iteration) == Iterate(w, maxIter, iteration, before);
      var resp := w.provider(iteration, messages);
      sent := sent + [messages];
      if resp.Err? {
        StaysStopped(w, request, maxIter, iteration, maxIter);
        return Err(ProviderFailed(resp.error)), sent;
      }
      usage := Plus(usage, resp.value.usage);
      if |resp.value.choices| == 0 {
        StaysStopped(w, request, maxIter, iteration, maxIter);
        break;
      }
      var choice := resp.value.choices[0];
      reason := choice.finishReason;
      if choice.finishReason != "tool_calls" || |choice.message.toolCalls| == 0 {
        steps := steps + [Step(iteration, messages, [], [], choice.finishReason)];
        messages := messages + [choice.message];
        StaysStopped(w, request, maxIter, iteration, maxIter);
        break;
      }
      var results := RunTools(w, iteration, choice.message.toolCalls);
      steps := steps + [Step(iteration, messages, choice.message.toolCalls, results, choice.finishReason)];
      messages := messages + [Message("assistant", choice.message.content, choice.message.toolCalls, "")] + results;
      if iteration == maxIter {
        reason := "max_iterations";
      }
      iteration := iteration + 1;
    }
    r := Ok(AgentRunResponse(steps, LastMessage(messages), usage, reason));
  }

  lemma {:induction false} StaysStopped<E>(w: World<E>, messages: seq<Message>, limit: nat, n: nat, m: nat)
    requires n <= m && !After(w, messages, limit, n).stop.Going?
    ensures After(w, messages, limit, m) == After(w, messages, limit, n)
    decreases m
  {
    if n < m {
      StaysStopped(w, messages, limit, n, m - 1);
    }
  }

  // ---------------------------------------------------------------- the history it keeps

  /** Tool messages answer the calls one by one: same number, same order, same ids. */
  predicate Paired(calls: seq<ToolCall>, results: seq<Message>) {
    && |results| == |calls|
    && forall k :: 0 <= k < |calls| ==> results[k].role == "tool" && results[k].toolCallId == calls[k].id
  }

  /** `after` is `before`, the assistant's request for the step's calls, and the step's results. */
  predicate Extends(before: seq<Message>, after: seq<Message>, step: Step) {
    && |after| == |before| + 1 + |step.toolResults|
    && after[..|before|] == before
    && after[|before|].role == "assistant" && after[|before|].toolCalls == step.toolCalls != []
    && after[|before| + 1..] == step.toolResults
    && Paired(step.toolCalls, step.toolResults)
  }

  function UsageOf<E>(w: World<E>, sent: seq<seq<Message>>): Usage {
    if sent == [] then Usage(0, 0, 0)
    else
      var n := |sent| - 1;
      var before := UsageOf(w, sent[..n]);
      match w.provider(n + 1, sent[n])
      case Err(_) => before
      case Ok(resp) =>
        Usage(before.prompt + resp.usage.prompt, before.completion + resp.usage.completion, before.total + resp.usage.total)
  }

  /** Steps are numbered from one and hold what was sent. */
  predicate Recorded(sent: seq<seq<Message>>, steps: seq<Step>) {
    && |steps| <= |sent| <= |steps| + 1
    && forall k :: 0 <= k < |steps| ==> steps[k].messages == sent[k] && steps[k].iteration == k + 1
  }

  /** The first call sends the request; each later call extends the one before by its step. */
  predicate Chained(messages: seq<Message>, sent: seq<seq<Message>>, steps: seq<Step>) {
    && |sent| <= |steps| + 1
    && (sent != [] ==> sent[0] == messages)
    && forall k :: 0 <= k < |sent| - 1 ==> Extends(sent[k], sent[k + 1], steps[k])
  }

  predicate History<E>(w: World<E>, messages: seq<Message>, p: Progress<E>) {
    && Recorded(p.sent, p.steps)
    && Chained(messages, p.sent, p.steps)
    && (p.stop.Going? ==> |p.steps| == |p.sent| && Chained(messages, p.sent + [p.messages], p.steps))
    && p.usage == UsageOf(w, p.sent)
  }

  /** What one iteration adds to the history. */
  lemma IterateAdds<E>(w: World<E>, limit: nat, n: nat, p: Progress<E>)
    requires p.stop.Going?
    ensures var q := Iterate(w, limit, n, p);
      && q.sent == p.sent + [p.messages]
      && (q.steps == p.steps || (|q.steps| == |p.steps| + 1 && q.steps[..|p.steps|] == p.steps
           && q.steps[|p.steps|].messages == p.messages && q.steps[|p.steps|].iteration == n))
      && (q.stop.Going? ==> |q.steps| == |p.steps| + 1 && Extends(p.messages, q.messages, q.steps[|p.steps|]))
      && q.usage == match w.provider(n, p.messages) { case Ok(resp) => Plus(p.usage, resp.usage) case Err(_) => p.usage }
  {
    var q := Iterate(w, limit, n, p);
    if q.stop.Going? {
      var choice := w.provider(n, p.messages).value.choices[0];
      var results := ToolMessages(w, n, choice.message.toolCalls);
      assert q.messages == p.messages + [Assistant(choice)] + results;
      assert q.messages[|p.messages|] == Assistant(choice);
    }
  }

  lemma RecordedGrows(sent: seq<seq<Message>>, steps: seq<Step>, ms: seq<Message>, more: seq<Step>)
    requires Recorded(sent, steps) && |steps| == |sent|
    requires more == steps || (|more| == |steps| + 1 && more[..|steps|] == steps
               && more[|steps|].messages == ms && more[|steps|].iteration == |sent| + 1)
    ensures Recorded(sent + [ms], more)
  {
    forall k | 0 <= k < |more| ensures more[k].messages == (sent + [ms])[k] && more[k].iteration == k + 1 {
      if k < |steps| {
        assert more[k] == steps[k];
      }
    }
  }

  lemma ChainedGrows(messages: seq<Message>, sent: seq<seq<Message>>, steps: seq<Step>, ms: seq<Message>, more: seq<Step>)
    requires Chained(messages, sent + [ms], steps) && |steps| == |sent|
    requires more == steps || (|more| == |steps| + 1 && more[..|steps|] == steps)
    ensures Chained(messages, sent + [ms], more)
    ensures forall next: seq<Message> :: |more| == |steps| + 1 && Extends(ms, next, more[|steps|]) ==>
              Chained(messages, sent + [ms] + [next], more)
  {
    var all := sent + [ms];
    forall k | 0 <= k < |all| - 1 ensures Extends(all[k], all[k + 1], more[k]) {
      assert more[k] == more[..|steps|][k] == steps[k];
    }
    forall next: seq<Message> | |more| == |steps| + 1 && Extends(ms, next, more[|steps|])
      ensures Chained(messages, all + [next], more)
    {
      var longer := all + [next];
      forall k | 0 <= k < |longer| - 1 ensures Extends(longer[k], longer[k + 1], more[k]) {
        if k < |all| - 1 {
          assert longer[k] == all[k] && longer[k + 1] == all[k + 1];
        }
      }
    }
  }

  lemma IterateKeepsHistory<E>(w: World<E>, messages: seq<Message>, limit: nat, p: Progress<E>)
    requires History(w, messages, p) && p.stop.Going?
    ensures History(w, messages, Iterate(w, limit, |p.sent| + 1, p))
    ensures |Iterate(w, limit, |p.sent| + 1, p).sent| == |p.sent| + 1
  {
    var n := |p.sent| + 1;
    var q := Iterate(w, limit, n, p);
    IterateAdds(w, limit, n, p);
    RecordedGrows(p.sent, p.steps, p.messages, q.steps);
    ChainedGrows(messages, p.sent, p.steps, p.messages, q.steps);
    assert q.sent[..|p.sent|] == p.sent;
  }

  predicate HistoryAt<E>(w: World<E>, messages: seq<Message>, n: nat, p: Progress<E>) {
    History(w, messages, p) && |p.sent| <= n && (p.stop.Going? ==> |p.sent| == n)
  }

  lemma HistoryStarts<E>(w: World<E>, messages: seq<Message>)
    ensures HistoryAt(w, messages, 0, Start(messages))
  {
    assert [] + [messages] == [messages];
  }

  lemma NextKeepsHistory<E>(w: World<E>, messages: seq<Message>, limit: nat, n: nat, p: Progress<E>)
    requires HistoryAt(w, messages, n, p)
    ensures HistoryAt(w, messages, n + 1, Next(w, limit, n + 1, p))
  {
    if p.stop.Going? {
      IterateKeepsHistory(w, messages, limit, p);
    }
  }

  /**
   * Each step records exactly the messages that were sent, the first call sends the request
   * itself, each later call sends the previous one's messages extended by one assistant
   * message with its calls and one tool message per call, and usage is the sum over all calls.
   */
  lemma {:induction false} EveryRunHasItsHistory<E>(w: World<E>, messages: seq<Message>, limit: nat, n: nat)
    ensures HistoryAt(w, messages, n, After(w, messages, limit, n))
  {
    if n == 0 {
      HistoryStarts(w, messages);
    } else {
      EveryRunHasItsHistory(w, messages, limit, n - 1);
      NextKeepsHistory(w, messages, limit, n - 1, After(w, messages, limit, n - 1));
    }
  }

  /** The assistant message at `i` is directly followed by one tool message per call. */
  predicate AnsweredAt(ms: seq<Message>, i: nat)
    requires i < |ms|
  {
    && i + |ms[i].toolCalls| < |ms|
    && forall j :: i < j <= i + |ms[i].toolCalls| ==>
         ms[j].role == "tool" && ms[j].toolCallId == ms[i].toolCalls[j - i - 1].id
  }

  predicate CallsTools(m: Message) {
    m.role == "assistant" && m.toolCalls != []
  }

  predicate Answered(ms: seq<Message>, from: nat) {
    forall i :: from <= i < |ms| && CallsTools(ms[i]) ==> AnsweredAt(ms, i)
  }

  lemma ExtendsKeepsAnswered(before: seq<Message>, after: seq<Message>, step: Step, from: nat)
    requires Extends(before, after, step) && Answered(before, from)
    ensures Answered(after, from)
  {
    var b := |before|;
    TurnIsAnswered(before, after, step);
    forall i | from <= i < |after| && CallsTools(after[i]) ensures AnsweredAt(after, i) {
      if i < b {
        assert after[i] == after[..b][i] == before[i];
        StillAnswered(before, after, i);
      }
    }
  }

  /** The turn just added is answered, and none of its tool messages asks for anything. */
  lemma TurnIsAnswered(before: seq<Message>, after: seq<Message>, step: Step)
    requires Extends(before, after, step)
    ensures AnsweredAt(after, |before|)
    ensures forall j :: |before| < j < |after| ==> !CallsTools(after[j])
  {
    var b := |before|;
    forall j | b < j < |after|
      ensures after[j].role == "tool" && after[j].toolCallId == step.toolCalls[j - b - 1].id
    {
      assert after[j] == after[b + 1..][j - b - 1] == step.toolResults[j - b - 1];
    }
    assert "tool"[0] != "assistant"[0];
  }

  lemma StillAnswered(before: seq<Message>, after: seq<Message>, i: nat)
    requires |before| <= |after| && after[..|before|] == before && i < |before| && AnsweredAt(before, i)
    ensures AnsweredAt(after, i)
  {
    forall j | 0 <= j < |before| ensures after[j] == before[j] {
      assert after[..|before|][j] == before[j];
    }
  }

  lemma {:induction false} SentIsAnswered<E>(w: World<E>, messages: seq<Message>, p: Progress<E>, k: nat)
    requires History(w, messages, p) && k < |p.sent|
    ensures Answered(p.sent[k], |messages|)
  {
    if k > 0 {
      SentIsAnswered(w, messages, p, k - 1);
      ExtendsKeepsAnswered(p.sent[k - 1], p.sent[k], p.steps[k - 1], |messages|);
    }
  }

  /** Whatever the provider answers, every conversation it is sent has all the loop's tool calls answered. */
  lemma ConversationsStayAnswered<E>(w: World<E>, messages: seq<Message>, limit: nat, n: nat)
    ensures var p := After(w, messages, limit, n);
      forall k :: 0 <= k < |p.sent| ==> Answered(p.sent[k], |messages|)
  {
    EveryRunHasItsHistory(w, messages, limit, n);
    var p := After(w, messages, limit, n);
    forall k | 0 <= k < |p.sent| ensures Answered(p.sent[k], |messages|) {
      SentIsAnswered(w, messages, p, k);
    }
  }

  // ---------------------------------------------------------------- how it ends

  predicate WantsTools<E>(w: World<E>, n: nat, ms: seq<Message>) {
    var resp := w.provider(n, ms);
    resp.Ok? && resp.value.choices != [] && AsksForTools(resp.value.choices[0])
  }

  /** The loop is still going exactly when every one of its `n` calls was answered by a request for tools. */
  predicate Asked<E>(w: World<E>, n: nat, p: Progress<E>) {
    && |p.sent| <= n
    && (p.stop.Going? <==> |p.sent| == n && forall k :: 0 <= k < n ==> WantsTools(w, k + 1, p.sent[k]))
  }

  /** The reason to report: the last step's, except when the limit cut the loop off. */
  function ReasonToReport<E>(limit: nat, n: nat, p: Progress<E>): string {
    if p.steps == [] then "stop"
    else if p.stop.Going? && n == limit then "max_iterations"
    else p.steps[|p.steps| - 1].finishReason
  }

  /** A loop that is still going after some iterations ended the last of them with tool results. */
  predicate JustRanTools<E>(p: Progress<E>) {
    && p.steps != [] && p.steps[|p.steps| - 1].finishReason == "tool_calls"
    && LastMessage(p.messages).role == "tool"
  }

  lemma IterateKeepsAsked<E>(w: World<E>, limit: nat, n: nat, p: Progress<E>)
    requires Asked(w, n, p) && p.stop.Going?
    ensures Asked(w, n + 1, Iterate(w, limit, n + 1, p))
  {
    var q := Iterate(w, limit, n + 1, p);
    assert q.sent[..n] == p.sent && q.sent[n] == p.messages;
    assert forall k :: 0 <= k < n ==> q.sent[k] == p.sent[k];
    assert q.stop.Going? <==> WantsTools(w, n + 1, q.sent[n]);
  }

  lemma IterateReasons<E>(w: World<E>, limit: nat, n: nat, p: Progress<E>)
    requires p.reason == ReasonToReport(limit, n, p) && p.stop.Going? && n < limit
    ensures var q := Iterate(w, limit, n + 1, p); q.reason == ReasonToReport(limit, n + 1, q)
  {
  }

  lemma GoingMeansTools<E>(w: World<E>, limit: nat, n: nat, p: Progress<E>)
    ensures var q := Next(w, limit, n, p); q.stop.Going? ==> JustRanTools(q)
  {
    var q := Next(w, limit, n, p);
    if q.stop.Going? {
      var calls := w.provider(n, p.messages).value.choices[0].message.toolCalls;
      assert LastMessage(q.messages) == ToolMessages(w, n, calls)[|calls| - 1];
    }
  }

  lemma NextKeepsAsked<E>(w: World<E>, limit: nat, n: nat, p: Progress<E>)
    requires Asked(w, n, p)
    ensures Asked(w, n + 1, Next(w, limit, n + 1, p))
  {
    if p.stop.Going? {
      IterateKeepsAsked(w, limit, n, p);
    }
  }

  lemma {:induction false} EveryRunAsked<E>(w: World<E>, messages: seq<Message>, limit: nat, n: nat)
    ensures Asked(w, n, After(w, messages, limit, n))
  {
    if n > 0 {
      EveryRunAsked(w, messages, limit, n - 1);
      NextKeepsAsked(w, limit, n - 1, After(w, messages, limit, n - 1));
    }
  }

  lemma {:induction false} EveryRunReasons<E>(w: World<E>, messages: seq<Message>, limit: nat, n: nat)
    requires n <= limit
    ensures var p := After(w, messages, limit, n); p.reason == ReasonToReport(limit, n, p)
  {
    if n > 0 {
      EveryRunReasons(w, messages, limit, n - 1);
      var p := After(w, messages, limit, n - 1);
      if p.stop.Going? {
        IterateReasons(w, limit, n - 1, p);
      }
    }
  }

  /**
   * Calls never exceed the clamped limit. The reported reason is max_iterations exactly when
   * every allowed response asked for tools (and the last message is then a tool result), or
   * the provider itself used that word as its last finish reason.
   */
  lemma MaxIterationsExactlyWhen<E>(w: World<E>, messages: seq<Message>, maxIterations: int)
    ensures var limit := Clamp(maxIterations);
      var p := After(w, messages, limit, limit);
      var exhausted := |p.sent| == limit && forall k :: 0 <= k < limit ==> WantsTools(w, k + 1, p.sent[k]);
      && |p.sent| <= limit <= 50
      && (exhausted ==> p.reason == "max_iterations" && LastMessage(p.messages).role == "tool")
      && (p.reason == "max_iterations" <==>
            exhausted || (p.steps != [] && p.steps[|p.steps| - 1].finishReason == "max_iterations"))
  {
    var limit := Clamp(maxIterations);
    EveryRunAsked(w, messages, limit, limit);
    EveryRunReasons(w, messages, limit, limit);
    GoingMeansTools(w, limit, limit, After(w, messages, limit, limit - 1));
    assert "tool_calls" != "max_iterations" && "stop" != "max_iterations" by {
      assert "tool_calls"[0] == 't' && "stop"[0] == 's' && "max_iterations"[0] == 'm';
    }
  }

  // ---------------------------------------------------------------- what was said

  /** The tool messages are the tools' own answers, each under its call's id. */
  predicate Reported<E>(w: World<E>, n: nat, step: Step) {
    && |step.toolResults| == |step.toolCalls|
    && forall j :: 0 <= j < |step.toolCalls| ==>
         step.toolResults[j] == Message("tool", w.tool(n, j, step.toolCalls[j]), [], step.toolCalls[j].id)
  }

  /** Step number `n`, after sending `ms`, against the response it got. */
  predicate StepTells<E>(w: World<E>, n: nat, ms: seq<Message>, step: Step) {
    var resp := w.provider(n, ms);
    && resp.Ok? && resp.value.choices != []
    && var choice := resp.value.choices[0];
    && step.finishReason == choice.finishReason
    && step.toolCalls == (if choice.finishReason == "tool_calls" then choice.message.toolCalls else [])
    && Reported(w, n, step)
  }

  /** The conversation that follows a request for tools repeats the provider's words and appends the results. */
  predicate Continues<E>(w: World<E>, n: nat, ms: seq<Message>, step: Step, next: seq<Message>) {
    var resp := w.provider(n, ms);
    && resp.Ok? && resp.value.choices != []
    && var said := resp.value.choices[0].message;
    next == ms + [Message("assistant", said.content, said.toolCalls, "")] + step.toolResults
  }

  predicate Spoken<E>(w: World<E>, p: Progress<E>) {
    && |p.steps| <= |p.sent| <= |p.steps| + 1
    && (forall k :: 0 <= k < |p.steps| ==> StepTells(w, k + 1, p.sent[k], p.steps[k]))
    && (forall k :: 0 <= k < |p.sent| - 1 ==> Continues(w, k + 1, p.sent[k], p.steps[k], p.sent[k + 1]))
    && (p.stop.Going? ==> |p.steps| == |p.sent|)
    && (p.stop.Going? && p.sent != [] ==>
          Continues(w, |p.sent|, p.sent[|p.sent| - 1], p.steps[|p.steps| - 1], p.messages))
  }

  /** What one iteration adds, in the provider's and the tools' words. */
  lemma IterateTells<E>(w: World<E>, limit: nat, n: nat, p: Progress<E>)
    requires p.stop.Going?
    ensures var q := Iterate(w, limit, n, p);
      && q.sent == p.sent + [p.messages]
      && (q.steps == p.steps || (|q.steps| == |p.steps| + 1 && q.steps[..|p.steps|] == p.steps
                                 && StepTells(w, n, p.messages, q.steps[|p.steps|])))
      && (q.stop.Going? ==> |q.steps| == |p.steps| + 1 && Continues(w, n, p.messages, q.steps[|p.steps|], q.messages))
  {
  }

  lemma StepsGrow<E>(w: World<E>, p: Progress<E>, q: Progress<E>, k: nat)
    requires Spoken(w, p) && p.stop.Going? && q.sent == p.sent + [p.messages] && k < |q.steps|
    requires q.steps == p.steps || (|q.steps| == |p.steps| + 1 && q.steps[..|p.steps|] == p.steps
                                    && StepTells(w, |p.sent| + 1, p.messages, q.steps[|p.steps|]))
    ensures StepTells(w, k + 1, q.sent[k], q.steps[k])
  {
    if k < |p.steps| {
      assert q.steps[k] == q.steps[..|p.steps|][k] == p.steps[k] && q.sent[k] == p.sent[k];
    }
  }

  lemma TurnsGrow<E>(w: World<E>, p: Progress<E>, q: Progress<E>, k: nat)
    requires Spoken(w, p) && p.stop.Going? && q.sent == p.sent + [p.messages] && k < |q.sent| - 1
    requires |p.steps| <= |q.steps| && q.steps[..|p.steps|] == p.steps
    ensures Continues(w, k + 1, q.sent[k], q.steps[k], q.sent[k + 1])
  {
    assert q.steps[k] == q.steps[..|p.steps|][k] == p.steps[k] && q.sent[k] == p.sent[k];
    if k < |p.sent| - 1 {
      assert q.sent[k + 1] == p.sent[k + 1];
    }
  }

  lemma SpokenGrows<E>(w: World<E>, p: Progress<E>, q: Progress<E>)
    requires Spoken(w, p) && p.stop.Going? && q.sent == p.sent + [p.messages]
    requires q.steps == p.steps || (|q.steps| == |p.steps| + 1 && q.steps[..|p.steps|] == p.steps
                                    && StepTells(w, |p.sent| + 1, p.messages, q.steps[|p.steps|]))
    requires q.stop.Going? ==>
      |q.steps| == |p.steps| + 1 && Continues(w, |p.sent| + 1, p.messages, q.steps[|p.steps|], q.messages)
    ensures Spoken(w, q)
  {
    forall k | 0 <= k < |q.steps| ensures StepTells(w, k + 1, q.sent[k], q.steps[k]) {
      StepsGrow(w, p, q, k);
    }
    forall k | 0 <= k < |q.sent| - 1 ensures Continues(w, k + 1, q.sent[k], q.steps[k], q.sent[k + 1]) {
      TurnsGrow(w, p, q, k);
    }
  }

  predicate SpokenAt<E>(w: World<E>, n: nat, p: Progress<E>) {
    Spoken(w, p) && (p.stop.Going? ==> |p.sent| == n)
  }

  lemma NextKeepsSpoken<E>(w: World<E>, limit: nat, n: nat, p: Progress<E>)
    requires SpokenAt(w, n, p)
    ensures SpokenAt(w, n + 1, Next(w, limit, n + 1, p))
  {
    if p.stop.Going? {
      IterateTells(w, limit, n + 1, p);
      SpokenGrows(w, p, Iterate(w, limit, n + 1, p));
    }
  }

  lemma SpokenStarts<E>(w: World<E>, messages: seq<Message>)
    ensures SpokenAt(w, 0, Start(messages))
  {
  }

  lemma {:induction false} RunIsSpoken<E>(w: World<E>, messages: seq<Message>, limit: nat, n: nat)
    ensures SpokenAt(w, n, After(w, messages, limit, n))
  {
    if n == 0 {
      SpokenStarts(w, messages);
    } else {
      RunIsSpoken(w, messages, limit, n - 1);
      NextKeepsSpoken(w, limit, n - 1, After(w, messages, limit, n - 1));
    }
  }

  /**
   * In every run each tool message holds the answer of its tool, and each assistant message the
   * loop adds holds the content and the calls of the provider's own message.
   */
  lemma ConversationsRepeatWhatWasSaid<E>(w: World<E>, messages: seq<Message>, limit: nat, n: nat)
    ensures var p := After(w, messages, limit, n);
      && |p.steps| <= |p.sent| <= |p.steps| + 1
      && (forall k :: 0 <= k < |p.steps| ==> StepTells(w, k + 1, p.sent[k], p.steps[k]))
      && (forall k :: 0 <= k < |p.sent| - 1 ==> Continues(w, k + 1, p.sent[k], p.steps[k], p.sent[k + 1]))
  {
    RunIsSpoken(w, messages, limit, n);
  }

  // ---------------------------------------------------------------- the report

  /** How many calls were made, and what they used. */
  lemma SentSoFar<E>(w: World<E>, messages: seq<Message>, limit: nat, n: nat)
    ensures var p := After(w, messages, limit, n);
      |p.sent| <= n && (p.stop.Going? ==> |p.sent| == n) && p.usage == UsageOf(w, p.sent)
  {
    EveryRunHasItsHistory(w, messages, limit, n);
  }

  lemma IterateSends<E>(w: World<E>, limit: nat, n: nat, p: Progress<E>)
    ensures Iterate(w, limit, n, p).sent == p.sent + [p.messages]
  {
  }

  /** A run is its last call, number `m`, on top of a loop that was still going. */
  lemma {:induction false} LastCall<E>(w: World<E>, messages: seq<Message>, limit: nat, n: nat)
    returns (m: nat, before: Progress<E>)
    requires n > 0
    ensures 0 < m <= n && before == After(w, messages, limit, m - 1) && before.stop.Going?
    ensures After(w, messages, limit, n) == Iterate(w, limit, m, before)
    ensures After(w, messages, limit, n).stop.Going? ==> m == n
  {
    before := After(w, messages, limit, n - 1);
    m := n;
    if !before.stop.Going? {
      assert n - 1 > 0;
      m, before := LastCall(w, messages, limit, n - 1);
    }
  }

  /** The report on a loop that made its last call, number `m`, with `before.messages`. */
  ghost predicate ReportsLastCall<E>(w: World<E>, limit: nat, m: nat, before: Progress<E>, r: Result<AgentRunResponse, Failure<E>>) {
    match w.provider(m, before.messages)
    case Err(error) => r == Err(ProviderFailed(error))
    case Ok(resp) =>
      && r.Ok?
      && if resp.choices == [] then
           r.value.finalMessage == LastMessage(before.messages) && r.value.finishReason == (if m == 1 then "stop" else "tool_calls")
         else
           var choice := resp.choices[0];
           var calls := choice.message.toolCalls;
           if choice.finishReason == "tool_calls" && calls != [] then
             && m == limit && r.value.finishReason == "max_iterations"
             && r.value.finalMessage
                == Message("tool", w.tool(m, |calls| - 1, calls[|calls| - 1]), [], calls[|calls| - 1].id)
           else r.value.finalMessage == choice.message && r.value.finishReason == choice.finishReason
  }

  lemma LastCallIsReported<E>(w: World<E>, limit: nat, m: nat, before: Progress<E>)
    requires before.stop.Going? && 0 < m <= limit
    requires before.reason == if m == 1 then "stop" else "tool_calls"
    requires Iterate(w, limit, m, before).stop.Going? ==> m == limit
    ensures ReportsLastCall(w, limit, m, before, Report(Iterate(w, limit, m, before)))
  {
    var p := Iterate(w, limit, m, before);
    if p.stop.Going? {
      var calls := w.provider(m, before.messages).value.choices[0].message.toolCalls;
      assert LastMessage(p.messages) == ToolMessages(w, m, calls)[|calls| - 1];
    }
  }

  lemma ReasonBeforeLastCall<E>(w: World<E>, messages: seq<Message>, limit: nat, m: nat)
    requires 0 < m <= limit && After(w, messages, limit, m - 1).stop.Going?
    ensures After(w, messages, limit, m - 1).reason == if m == 1 then "stop" else "tool_calls"
  {
    EveryRunReasons(w, messages, limit, m - 1);
    if m > 1 {
      GoingMeansTools(w, limit, m - 1, After(w, messages, limit, m - 2));
    }
  }

  lemma ReportOfRun<E>(w: World<E>, messages: seq<Message>, limit: nat, m: nat, before: Progress<E>)
    requires 0 < m <= limit && before == After(w, messages, limit, m - 1) && before.stop.Going?
    requires After(w, messages, limit, limit) == Iterate(w, limit, m, before)
    requires After(w, messages, limit, limit).stop.Going? ==> m == limit
    ensures ReportsLastCall(w, limit, m, before, Report(After(w, messages, limit, limit)))
  {
    ReasonBeforeLastCall(w, messages, limit, m);
    LastCallIsReported(w, limit, m, before);
  }

  lemma SentByRun<E>(w: World<E>, messages: seq<Message>, limit: nat, m: nat, before: Progress<E>, p: Progress<E>)
    requires 0 < m && before == After(w, messages, limit, m - 1) && before.stop.Going?
    requires p == Iterate(w, limit, m, before)
    ensures |p.sent| == m && p.sent[m - 1] == before.messages
  {
    SentSoFar(w, messages, limit, m - 1);
    IterateSends(w, limit, m, before);
  }

  /**
   * What the caller is told. A provider error is passed on. Otherwise the usage is the sum over
   * all calls, and message and reason are those of the last response; a response without choices
   * leaves the last message sent, and a loop cut off at its limit ends with the last tool's answer.
   */
  lemma ReportTells<E>(w: World<E>, messages: seq<Message>, maxIterations: int)
    returns (m: nat, before: Progress<E>, p: Progress<E>)
    ensures p == After(w, messages, Clamp(maxIterations), Clamp(maxIterations))
    ensures 0 < m <= Clamp(maxIterations) && |p.sent| == m && p.sent[m - 1] == before.messages
    ensures ReportsLastCall(w, Clamp(maxIterations), m, before, Report(p))
    ensures Report(p).Ok? ==> Report(p).value.usage == UsageOf(w, p.sent) && Report(p).value.steps == p.steps
  {
    var limit := Clamp(maxIterations);
    p := After(w, messages, limit, limit);
    m, before := LastCall(w, messages, limit, limit);
    SentSoFar(w, messages, limit, limit);
    SentByRun(w, messages, limit, m, before, p);
    ReportOfRun(w, messages, limit, m, before);
  }

  /** A provider that never stops asking is called ten times by default, fifty times at most, else as often as requested. */
  lemma EndlessToolUse<E>(w: World<E>, messages: seq<Message>, maxIterations: int)
    requires forall n: nat, ms: seq<Message> :: WantsTools(w, n, ms)
    ensures var p := After(w, messages, Clamp(maxIterations), Clamp(maxIterations));
      && (maxIterations <= 0 ==> |p.sent| == 10)
      && (1 <= maxIterations <= 50 ==> |p.sent| == maxIterations)
      && (maxIterations > 50 ==> |p.sent| == 50)
  {
    StillAsking(w, messages, Clamp(maxIterations), Clamp(maxIterations));
  }

  lemma {:induction false} StillAsking<E>(w: World<E>, messages: seq<Message>, limit: nat, n: nat)
    requires forall n: nat, ms: seq<Message> :: WantsTools(w, n, ms)
    ensures After(w, messages, limit, n).stop.Going? && |After(w, messages, limit, n).sent| == n
  {
    if n > 0 {
      StillAsking(w, messages, limit, n - 1);
      assert WantsTools(w, n, After(w, messages, limit, n - 1).messages);
    }
  }

  /** A provider that leaves the message's own call list empty. */
  ghost predicate KeepsCallsOutOfMessage<E>(w: World<E>) {
    forall n: nat, ms: seq<Message> :: w.provider(n, ms).Ok? ==>
      forall k :: 0 <= k < |w.provider(n, ms).value.choices| ==> w.provider(n, ms).value.choices[k].message.toolCalls == []
  }

  /** The loop reads tool calls from the message only, so with such a provider it makes one call and runs no tool. */
  lemma SuchProvidersNeverLoop<E>(w: World<E>, messages: seq<Message>, limit: nat)
    requires limit >= 1 && KeepsCallsOutOfMessage(w)
    ensures var p := After(w, messages, limit, limit);
      p.sent == [messages] && |p.steps| <= 1 && forall k :: 0 <= k < |p.steps| ==> p.steps[k].toolCalls == []
  {
    var p := After(w, messages, limit, 1);
    assert After(w, messages, limit, 0) == Start(messages);
    assert w.provider(1, messages).Ok? ==>
      forall k :: 0 <= k < |w.provider(1, messages).value.choices| ==>
        w.provider(1, messages).value.choices[k].message.toolCalls == [];
    assert p == Iterate(w, limit, 1, Start(messages));
    assert !p.stop.Going?;
    StaysStopped(w, messages, limit, 1, limit);
  }

  // ---------------------------------------------------------------- the Anthropic provider in the loop

  /** What the Anthropic service answers: its blocks, stop reason and token counts. */
  datatype Reply<J> = Reply(blocks: seq<Anthropic.Block<J>>, stopReason: string, input: int, output: int)

  /** A translated reply as the loop receives it. */
  function AsResponse<J>(reply: Reply<J>, encode: J -> string): Response {
    var c := Anthropic.Delivered(Anthropic.OneShot(reply.blocks, reply.stopReason, encode));
    Response(Usage(reply.input, reply.output, reply.input + reply.output),
             [Choice(c.finishReason, Message("assistant", c.content, c.messageToolCalls, ""))])
  }

  /** The loop's world when its provider is the Anthropic translation in front of some service. */
  function AnthropicWorld<J, E>(service: (nat, seq<Message>) -> Result<Reply<J>, E>, encode: J -> string,
                                tool: (nat, nat, ToolCall) -> string): World<E> {
    World((n: nat, ms: seq<Message>) =>
            match service(n, ms)
            case Ok(reply) => Ok(AsResponse(reply, encode))
            case Err(error) => Err(error),
          tool)
  }

  /** Whatever the service answers, tool calls included, the loop calls it once and runs no tool. */
  lemma AnthropicNeverLoops<J, E>(service: (nat, seq<Message>) -> Result<Reply<J>, E>, encode: J -> string,
                                  tool: (nat, nat, ToolCall) -> string, messages: seq<Message>, limit: nat)
    requires limit >= 1
    ensures var p := After(AnthropicWorld(service, encode, tool), messages, limit, limit);
      p.sent == [messages] && |p.steps| <= 1 && forall k :: 0 <= k < |p.steps| ==> p.steps[k].toolCalls == []
  {
    var w := AnthropicWorld(service, encode, tool);
    forall n: nat, ms: seq<Message> | w.provider(n, ms).Ok?
      ensures forall k :: 0 <= k < |w.provider(n, ms).value.choices| ==>
        w.provider(n, ms).value.choices[k].message.toolCalls == []
    {
      assert w.provider(n, ms) == Ok(AsResponse(service(n, ms).value, encode));
    }
    SuchProvidersNeverLoop(w, messages, limit);
  }

  /** A service that always asks for one tool: the run stops at once, says "tool_calls", and no tool was run. */
  lemma ToolUseIsDropped<J>(id: string, name: string, input: J, encode: J -> string, messages: seq<Message>)
    ensures
      var reply := Reply([Anthropic.ToolUse(id, name, input)], "tool_use", 1, 1);
      var w := AnthropicWorld<J, ()>((n, ms) => Ok(reply), encode, (n, k, call) => "");
      var p := After(w, messages, 10, 10);
      && Anthropic.OneShot(reply.blocks, reply.stopReason, encode).toolCalls == [Anthropic.ToolCall(id, name, encode(input))]
      && p.sent == [messages] && p.reason == "tool_calls" && p.stop.Stopped? && p.usage == Usage(1, 1, 2)
      && p.messages == messages + [Message("assistant", "", [], "")]
  {
    var reply := Reply([Anthropic.ToolUse(id, name, input)], "tool_use", 1, 1);
    var w := AnthropicWorld<J, ()>((n, ms) => Ok(reply), encode, (n, k, call) => "");
    Anthropic.OneToolUse(id, name, input, "tool_use", encode);
    var p := After(w, messages, 10, 1);
    assert After(w, messages, 10, 0) == Start(messages);
    assert w.provider(1, messages) == Ok(AsResponse(reply, encode));
    assert p == Iterate(w, 10, 1, Start(messages));
    StaysStopped(w, messages, 10, 1, 10);
  }
}
