# A verified model of the LLM gateway's core

litellm-go is a gateway in front of many LLM providers. This project models, in
Dafny 4.11, the parts of it that are state machines or transformations, and proves
what holds of them on every input, every run and every interleaving:

- **Batches** (`Batches.dfy`, `BatchOutcomes.dfy`, `BatchRows.dfy`): item rows, batch counters and
  status under any interleaving of the submitter, the workers and cancellations. Each
  SQL statement or channel operation is one step.
- **Worker pool** (`WorkerPool.dfy`, `PoolCounts.dfy`): the task channel, its workers, submission and
  shutdown, again step by step, including the panics of sending on a closed channel.
- **Batches on the pool** (`BatchPool.dfy`): the two state machines composed, for any number
  of batches on one pool, up to what a graceful shutdown leaves of every batch.
- **Wire translation** (`Anthropic.dfy`, `ToolExtraction.dfy`): streaming against
  non-streaming, and a text scanner against its printer.
- **Agent loop** (`Agents.dfy`): the bounded tool-calling conversation.
- **Routing** (`Errors.dfy`, `Retry.dfy`, `Cooldown.dfy`, `Fallback.dfy`, `ChainErrors.dfy`,
  `Router.dfy`, `Strategy.dfy`, `Usage.dfy`): from the text of an error to the retry decision,
  waits, cooldown, fallback chains and their retries, weighted selection, usage windows.
- **Limits and caches** (`RateLimit.dfy`, `Budget.dfy`, `Keys.dfy`): sliding windows,
  budget overshoot, the key table and its in-memory copy.

State that the source updates in place is a class whose methods are proved against a
function of the old state; the theorems are lemmas about those functions and about
whole runs. The network, the clock, randomness, UUIDs, hashing and JSON are
parameters. HTTP statuses have the meanings of sections 15.5.2, 15.5.4 and 15.6 of
RFC 9110 and section 4 of RFC 6585.

Check everything with `dafny verify dfyconfig.toml`.

## What turned out differently from the documentation

Each of these has a lemma with a concrete case, next to the exact condition.

- A batch can stay in `processing` for ever: when a rejected submission is counted last
  (`RejectionCanStrandTheBatch`), and when a cancellation precedes the opening update,
  which overwrites it (`EarlyCancelCanStrandTheBatch`). `Outcome` says exactly when a
  finished run settles and when its counters reach the total.
- A graceful shutdown that overtakes the spawning loop of `Start` waits for nobody and
  leaves accepted tasks in the queue (`ShutdownCanOvertakeStart`). It drains the pool
  exactly when a worker had been spawned or nothing was accepted (`GracefulShutdownDrains`),
  which is always so once `Start` has returned (`StartedPoolDrains`).
- The per-minute request limit bounds the number of distinct *seconds* with an admitted
  request, not the number of requests (`SameSecondFlood`); it bounds requests only for a
  limit of one (`RequestsPerMinuteIff`).
- The per-minute token limit bounds windows of at most sixty seconds, the end excluded
  (`TokenWindowIff`); any longer window can hold twice the limit (`LongerWindowHoldsTwice`).
- With several text blocks, the Anthropic stream delivers all of them and the one-shot
  translation only the last (`TwoVoices`); they agree exactly when every text block but the
  last is empty (`StreamingAgreesIff`).
- The Anthropic translation leaves the message's own tool-call list empty, which is the
  list the agent loop reads: whatever the service answers, it is called once and no tool
  runs (`AnthropicNeverLoops`; `ToolUseIsDropped` is the run on one tool_use block).
- An error text whose prefix already says "status " is misread (`PrefixMatters`), and only
  such a text (`ParseUndoesFormatIff`).
- Rotating a key whose INSERT fails deactivates the old row but leaves the old key valid in
  memory (`FailedInsertLeavesStaleKey`); reloading does not repair it, a complete delete
  does (`OnlyDeleteHeals`). `StoreAgreesIff` gives the exact condition over every run and
  every pattern of failing statements.
- Round robin is unfair across the wrap of its 64-bit counter (`UnfairRound`) unless the
  number of deployments divides 2^64 (`RoundRobinFairIff`).

## Model

| member | source | states |
|---|---|---|
| Batches.StepKeepsInv | batch/processor.go:44-158 | every statement of submitter, worker or canceller keeps the row/counter invariant |
| Batches.RunKeepsInv | batch/processor.go:44-158 | the invariant holds after every schedule of any batch |
| Batches.CountersBounded | batch/processor.go:91-95 | counters plus actors about to count never exceed the total |
| Batches.Tables.constructor | handler/batch.go:44-46 | a new batch row is pending with zero counters and no items |
| Batches.Tables.InsertRow | handler/batch.go:53-68 | one more pending item; the last one lets processing start |
| Batches.Tables.UpdateStatusProcessing | batch/processor.go:46-49 | the opening update is unconditional |
| Batches.Tables.LoadPending | batch/processor.go:52-78 | loads every pending row exactly once and no other |
| Batches.Tables.SubmitNext | batch/processor.go:85-90 | an accepted item is queued, a refused one goes to the refusal path |
| Batches.Tables.RefusalUpdatesItem | batch/processor.go:91-93 | the refused item is marked failed |
| Batches.Tables.RefusalUpdatesCounter | batch/processor.go:94-95 | one more failed request, and no completion check |
| Batches.Tables.WorkerUpdatesItem | batch/processor.go:130-144 | the worker overwrites the item's status with its outcome, whatever it was |
| Batches.Tables.WorkerUpdatesCounter | batch/processor.go:134-147 | exactly the counter of the item's outcome grows by one |
| Batches.Tables.CheckBatchComplete | batch/processor.go:153-158 | completed if the counters reach the total and the batch is not cancelled |
| Batches.Tables.CancelBatchRow | handler/batch.go:178-189 | one row is affected exactly when the batch was pending or processing |
| Batches.Tables.CancelPendingRows | handler/batch.go:191-193 | pending items become cancelled, all others keep their status |
| Batches.CancelKeepsCounts | handler/batch.go:191-193 | cancelling pending rows changes no count of completed or failed items |
| BatchOutcomes.CountersInEveryRun | batch/processor.go:85-158 | in every interleaving the counters trail the marked items by exactly the actors between their two updates, never pass the total, and a completed batch has counted all |
| BatchOutcomes.FinalStatusIsStable | batch/processor.go:153-158 | after the opening update, completed and cancelled are never left, whatever follows |
| BatchOutcomes.Outcome | batch/processor.go:44-158 | a finished run is completed or cancelled iff a cancellation came after the opening update, or all rows were loaded and a check followed the last count; its counters reach the total iff no pending row was cancelled before the load |
| BatchOutcomes.CompletionIsNotLost | batch/processor.go:130-158 | without rejections, a fully counted batch that is still processing has a worker between count and check |
| BatchOutcomes.EveryOrderlyRunSettles | batch/processor.go:85-158 | without rejections and early cancellations every finished run settles, and completes with full counters if it was not cancelled |
| BatchOutcomes.QuiescentCounts | batch/processor.go:85-158 | when nothing is under way the counters sum to the number of loaded items |
| BatchOutcomes.LoadIsFull | batch/processor.go:52-53 | the load misses a row iff some row was no longer pending |
| BatchOutcomes.RejectionCanStrandTheBatch | batch/processor.go:90-96 | a run whose last count is a rejection ends processing with all requests counted |
| BatchOutcomes.EarlyCancelCanStrandTheBatch | batch/processor.go:46-53 | a cancellation before the opening update is lost and the batch never settles |
| BatchOutcomes.LateCancelCanLeaveCountersShort | handler/batch.go:178-193 | a cancellation between opening and load ends cancelled with counters below the total |
| BatchOutcomes.SomeStepIsEnabled | batch/processor.go:44-158 | no deadlock: an unfinished batch always has a step of its own to take |
| BatchOutcomes.RunsAreShort | batch/processor.go:44-158 | however scheduled, a batch of n requests takes at most 5n + 2 steps of its own |
| BatchRows.RowsTellOutcomes | batch/processor.go:91-144 | in every interleaving a row is completed iff its task succeeded, failed iff its task failed or it was refused, else cancelled iff a cancellation found it pending |
| BatchRows.CountersTellOutcomes | batch/processor.go:94-147 | at rest completed_requests is the number of successes and failed_requests the number of failures and refusals |
| BatchRows.EveryRunTells | batch/processor.go:44-158 | and under way the counters plus the outcomes about to be counted are those numbers |
| BatchPool.EveryPartIsARun | batch/processor.go:85-96 | any composition of batches on one pool is a run of the pool and a run of each batch |
| BatchPool.EveryRunIsLinked | batch/processor.go:85-96 | an item whose task is unfinished is in the queue or with a worker whose function has not returned; an accepted item has a task |
| BatchPool.ShutdownSettlesEveryBatch | workerpool/pool.go:194-218 | when a graceful shutdown returns, every accepted item of every batch is marked, counted, checked and settled, and no task is half done |
| BatchPool.ShutdownSettlesTheBatch | workerpool/pool.go:194-218 | then a batch whose submitter is through has counted exactly its loaded items, and is final if nothing was rejected or cancelled early |
| WorkerPools.EveryTaskIsAccountedFor | workerpool/pool.go:93-172 | accepted = queued + held uncounted + completed + timed out; tasks start in acceptance order, each once; the queue fits its capacity |
| WorkerPools.GracefulShutdownDrains | workerpool/pool.go:194-218 | when the wait ends, queue empty and all accepted tasks counted iff some worker had been spawned or nothing was accepted |
| WorkerPools.ShutdownCanOvertakeStart | workerpool/pool.go:98-104 | a run whose shutdown ends with an accepted task still queued |
| WorkerPools.StartedPoolDrains | workerpool/pool.go:93-107 | once every Start has finished spawning, a shutdown always drains |
| WorkerPools.DrainedForGood | workerpool/pool.go:194-218 | a closed drained pool stays drained and its counters stop |
| WorkerPools.QuietCloseNeverPanics | workerpool/pool.go:157-200 | closing with no submission or second close in flight never leads to a panic |
| WorkerPools.StraddlingCallCanPanic | workerpool/pool.go:157-200 | any call in flight at the close can panic the pool |
| WorkerPools.StepKeepsInv | workerpool/pool.go:93-243 | every step of every actor keeps conservation and flag consistency |
| WorkerPools.RunKeepsInv | workerpool/pool.go:93-243 | so they hold after every schedule |
| WorkerPools.NewWorkerPool | workerpool/pool.go:61-90 | refused iff workers or queue size is not positive |
| PoolCounts.CountersTellOutcomes | workerpool/pool.go:122-154 | completed counts the tasks counted after return and before their deadline, timedOut all others counted, panicked the panics |
| PoolCounts.GivenUpExactlyWhen | workerpool/pool.go:149-153 | a running task can be given up on iff its deadline passed or the pool was cancelled |
| WorkerPools.WorkerPool.constructor | workerpool/pool.go:80-90 | a new pool is empty, not started, all counters zero |
| WorkerPools.WorkerPool.Start | workerpool/pool.go:93-107 | refused if already started, otherwise exactly `size` idle workers are launched |
| WorkerPools.WorkerPool.Submit | workerpool/pool.go:157-172 | which of the three tests refused the task, in their order; only an accepted task changes the pool, and it is the three atomic steps |
| WorkerPools.WorkerPool.TakeTask | workerpool/pool.go:113-115 | the worker takes the oldest queued task |
| WorkerPools.WorkerPool.FinishFunction | workerpool/pool.go:125-139 | the function ends, a panic is counted, the worker is not yet released |
| WorkerPools.WorkerPool.CountFinished | workerpool/pool.go:142-148 | timed out iff the deadline had passed, else completed |
| WorkerPools.WorkerPool.CountOverdue | workerpool/pool.go:149-152 | counted as timed out at once, and the worker still waits for the function |
| WorkerPools.WorkerPool.FinishDraining | workerpool/pool.go:152-153 | the waiting worker becomes idle without a second count |
| WorkerPools.WorkerPool.LeaveLoop | workerpool/pool.go:110-116 | a worker exits only from a closed, empty queue |
| WorkerPools.WorkerPool.StopAccepting | workerpool/pool.go:194-200 | nothing before Start; otherwise closing and closed, as two steps |
| WorkerPools.WorkerPool.CancelContext | workerpool/pool.go:212-214 | every running task's context ends; nothing is counted yet |
| Anthropic.TranslateFromAnthropic | provider/anthropic.go:422-472 | last text, all tool calls in order beside the message, mapped finish reason; the message's own call list is empty |
| Anthropic.HandleEvent | provider/anthropic.go:233-313 | the chunks of one event and the tool index after it |
| Anthropic.ParseAnthropicSSE | provider/anthropic.go:200-317 | a role chunk, then the chunks of all events up to message_stop |
| Anthropic.ParsedStream | provider/anthropic.go:200-317 | for any blocks, split into any deltas with pings anywhere, a client reassembles all text, each tool call with its concatenated arguments, and the finish reason |
| Anthropic.FinishReasonsAreReported | provider/anthropic.go:291-299 | in both forms "length" iff max_tokens, "tool_calls" iff tool_use, "stop" otherwise |
| Anthropic.StreamingAgreesIff | provider/anthropic.go:200-317 | streaming equals the one-shot translation iff every text block but the last is empty; tool calls and finish reason always agree |
| Anthropic.TwoVoices | provider/anthropic.go:426-430 | of two text blocks the stream delivers both, the one-shot form the second |
| Anthropic.ToolIndicesIncrease | provider/anthropic.go:285-289 | tool indices strictly increase, so clients order calls alike |
| Anthropic.TranslateAssistantMessage | provider/anthropic.go:385-416 | a plain string without tool calls; otherwise a non-empty text block first, then one tool_use block per call |
| Anthropic.TurnRoundTripsIff | provider/anthropic.go:385-448 | sending an answer back restores its blocks iff they were text-first, free of empty or other blocks, and held a tool call; otherwise a call-free turn goes back as its last text |
| ToolExtraction.NextBlock | provider/tool_extraction.go:19-38 | the first complete block, or none when any of the three searches fails |
| ToolExtraction.Scan | provider/tool_extraction.go:14-61 | the loop ends and returns the calls of all complete blocks in order |
| ToolExtraction.ExtractToolCalls | provider/tool_extraction.go:14-61 | the scan with the real marks; undecodable or unnamed blocks are skipped |
| ToolExtraction.ExtractUndoesRender | provider/tool_extraction.go:14-61 | scanning rendered segments yields exactly their bodies' calls |
| ToolExtraction.EveryTextIsRendered | provider/tool_extraction.go:14-61 | every text splits into such segments and a tail without a complete block, so the scanner is determined on all inputs |
| ToolExtraction.EachBlockStandsAlone | provider/tool_extraction.go:38-58 | a block that is undecodable or unnamed adds no call and disturbs no neighbour; any other adds exactly its call |
| ToolExtraction.MarksAreUsable | provider/tool_extraction.go:20-33 | the opening marker overlaps itself nowhere, so no match straddles filler text |
| ToolExtraction.PrintedCallsComeBack | provider/tool_injection.go:20-21 | named calls printed as the prompt prescribes, amid marker-free text, come back exactly and in order |
| Agents.AgentRun | handler/agents.go:31-158 | parameter errors, unknown model, or the report of the specified loop |
| Agents.RunAgentLoop | handler/agents.go:162-266 | the same report as the handler for the same request |
| Agents.RunTools | handler/agents.go:119-130 | one tool message per call, in order, with the tool's answer |
| Agents.Clamp | handler/agents.go:46-53 | between 1 and 50 iterations whatever was asked |
| Agents.EveryRunHasItsHistory | handler/agents.go:69-139 | steps hold exactly what was sent; each call extends the previous one by the assistant message and one matching tool message per call; usage is the sum over calls |
| Agents.ConversationsStayAnswered | handler/agents.go:110-130 | every conversation sent has each of the loop's tool calls answered directly, same ids and order |
| Agents.ConversationsRepeatWhatWasSaid | handler/agents.go:110-130 | each tool message holds its tool's answer under its call's id, each assistant message the provider's content and calls, each step the provider's reason and calls |
| Agents.MaxIterationsExactlyWhen | handler/agents.go:46-139 | calls within the clamped limit; max_iterations iff every allowed response asked for tools or the provider used that word itself |
| Agents.ReportTells | handler/agents.go:69-156 | a provider error is passed on; otherwise usage is the sum, and message and reason are those of the last response, or the last tool's answer and max_iterations at the limit |
| Agents.EndlessToolUse | handler/agents.go:46-53 | a provider that never stops asking is called ten times by default, at most fifty, else as often as requested |
| Agents.SuchProvidersNeverLoop | handler/agents.go:104-108 | a provider that leaves the message's call list empty gets one call and no tool runs |
| Agents.AnthropicNeverLoops | provider/anthropic.go:451-456 | the provider built on the Anthropic translation is one of these, whatever its service answers |
| Agents.ToolUseIsDropped | handler/agents.go:104-108 | the run on one tool_use block: one call, reason tool_calls, no tool run |
| Errors.ParseProviderErrorString | routing/errors.go:170-195 | code and trimmed body, or 0 and the whole text for any other shape |
| Errors.ParseUndoesFormat | provider/openai_compat.go:111 | parsing recovers code and trimmed body for every code, body and prefix free of "status " |
| Errors.ParseUndoesFormatIff | routing/errors.go:170-195 | and for no other prefix |
| Errors.MisreadAfterStatus | routing/errors.go:172-195 | behind an earlier "status " what is taken for the body is always longer than the body |
| Errors.PrefixMatters | routing/errors.go:172-192 | a prefix with "status " under which a 429 reads as no code |
| Errors.HasAny | routing/errors.go:197-205 | true iff some pattern occurs |
| Errors.ClassifyError | routing/errors.go:57-130 | deadline first, then status, then body patterns in their order |
| Errors.ClassifyFromError | routing/errors.go:151-166 | structured errors by their fields, plain ones by parsing |
| Errors.KindExactlyWhen | routing/errors.go:57-130 | the exact condition for each of the seven kinds, over every error, status and body |
| Errors.FormattedKind | routing/errors.go:151-166 | a formatted error has the kind of its code and trimmed body |
| Errors.KindIgnoresCase | routing/errors.go:81-120 | upper and lower case of the body make no difference below 500 |
| Errors.OverloadedIsCaseSensitive | routing/errors.go:72-78 | but they do to "overloaded" in a 5xx |
| Errors.RetriedExactlyWhen | routing/retry.go:24-41 | the default policy retries every 429 and 5xx, 401/403 only for a deadline, other codes iff deadline or a pure rate-limit body |
| Errors.WrappingKeepsKind | routing/errors.go:151-166 | an error wrapped behind a label free of the patterns is classified as before |
| ChainErrors.ChainErrorKeepsKind | provider/fallback.go:118-118 | the error of a failed chain is classified as its last error |
| ChainErrors.EmptyChainIsUnknown | provider/fallback.go:118-118 | the error of a chain that was cooling throughout is of no known kind |
| Strings.FindIndex | middleware/keystore.go:96-107 | the search loop returns the first occurrence or none |
| Retry.Execute | routing/retry.go:46-79 | 1 to MaxRetries+1 calls, all but the last retryable failures without cancellation, and the returned outcome of the last; the waits are the backoffs |
| Retry.ExecuteStream | routing/retry.go:82-114 | the same for streams, waits included |
| Retry.StatusDecidesCalls | routing/retry.go:24-79 | under the default policy a provider that keeps answering 429 or 5xx is called MaxRetries+1 times, one that answers 401 or 403 without a deadline once |
| Retry.ExecutionIsDetermined | routing/retry.go:46-79 | that description fixes number of calls and result |
| Retry.WaitsNeverDecrease | routing/retry.go:117-130 | for every jitter, no wait is shorter than an earlier one |
| Retry.WaitIsExponential | routing/retry.go:117-130 | wait k is at least min(BaseDelay * 2^k, MaxDelay), exactly that without jitter, at most BaseDelay more with it |
| Retry.DefaultWaits | routing/retry.go:24-36 | by default waits double up to thirty seconds, jitter included, and stay there |
| Retry.TotalWaitIsBounded | routing/retry.go:117-130 | n waits total at most n * MaxDelay and BaseDelay * (2^n - 1 + n) |
| Cooldown.CooldownTracker.constructor | routing/cooldown.go:20-27 | an empty tracker for an empty log |
| Cooldown.CooldownTracker.RecordFailure | routing/cooldown.go:31-40 | the maps keep summarising the log with one more failure |
| Cooldown.CooldownTracker.RecordSuccess | routing/cooldown.go:43-49 | the maps keep summarising the log with one more success |
| Cooldown.CooldownTracker.IsAvailable | routing/cooldown.go:52-62 | unavailable iff at least max(threshold, 1) failures since the last success and the period since the last failure not over |
| Cooldown.CoolingExactlyWhen | routing/cooldown.go:31-62 | cooling iff the events have, from some point on, no success and at least max(threshold, 1) failures, the last one at most a period ago |
| Cooldown.ProvidersAreIndependent | routing/cooldown.go:31-62 | other providers' events make no difference |
| Fallback.TryPosition | provider/fallback.go:58-116 | one position: skipped iff cooling, else called once or, on a token limit, twice, with one event |
| Fallback.ChatCompletion | provider/fallback.go:55-119 | the earliest position available when reached whose call or larger-model call succeeds serves; earlier ones failed with one failure each; calls, log and last error are exact |
| Fallback.OneFailurePerTry | provider/fallback.go:79-81 | failures logged per provider equal the positions tried |
| Fallback.PassIsDetermined | provider/fallback.go:55-119 | what a pass meets decides position, model, value or last error, calls and log |
| Fallback.PassExists | provider/fallback.go:55-119 | and there always is such a pass |
| Fallback.PassIsShort | provider/fallback.go:58-116 | at most two calls per position |
| Fallback.TriedTwiceExactlyWhen | provider/fallback.go:89-103 | a second call iff the error is a token limit and a larger model is known; for a formatted error iff its body holds a token-limit pattern |
| Fallback.ContextLengthIsTriedTwice | provider/fallback.go:89-103 | a 400 that says context_length_exceeded is tried twice |
| Fallback.AllCooling | provider/fallback.go:58-63 | a chain that is cooling throughout makes no call and changes nothing |
| Routing.Router.ChatCompletion | routing/router.go:48-90 | refused iff cooling; otherwise one event however many retries, usage only on success, in-flight counts restored |
| Routing.Router.ChatCompletionStream | routing/router.go:93-130 | the same without usage |
| Routing.Router.Increment | routing/inflight.go:17-21 | one more for this id only |
| Routing.Router.Decrement | routing/inflight.go:24-31 | one less for this id only, not below zero |
| Routing.Router.RouteFallback | routing/router.go:48-90 | the retry loop with whole passes over the chain as attempts: outcome, attempts, calls, log, usage and in-flight counts follow from the passes, which run on each other's logs, plus one closing event; upstream calls at most 2 * chain length * (MaxRetries + 1) |
| Routing.TrailIsDetermined | routing/router.go:66-69 | the circumstances decide every pass of the trail |
| Routing.OutcomeIsLastPass | routing/router.go:66-77 | the outcome is the last pass's answer or error, or the context's end after it |
| Routing.PassesAreShort | provider/fallback.go:58-116 | passes of a trail make at most two calls per position each |
| Routing.PassIsRetriedIff | routing/retry.go:57-65 | a failed pass is retried iff the policy would retry the chain's last error |
| Strategy.BuildSlots | routing/strategy.go:48-64 | each deployment repeated by override, own weight, or one |
| Strategy.WeightedStrategy.Select | routing/strategy.go:43-73 | none for an empty list, else the slot under the counter, which advances modulo 2^64 |
| Strategy.WeightedStrategy.SelectMany | routing/strategy.go:43-73 | consecutive selections read consecutive counter values |
| Strategy.RoundRobinStrategy.Select | routing/strategy.go:26-34 | position counter modulo count, counter advances modulo 2^64 |
| Strategy.WeightedFairness | routing/strategy.go:43-73 | from any counter value, k * W selections choose each deployment exactly k times its weight, without a wrap or when W divides 2^64 |
| Strategy.FairShares | routing/strategy.go:51-64 | k rounds give k * override if that is positive, k * own weight without an override if that is positive, else k |
| Strategy.SlotsByWeight | routing/strategy.go:51-64 | each deployment owns exactly its effective weight in slots |
| Strategy.SlotsInOrder | routing/strategy.go:48-64 | slots follow the order of the list |
| Strategy.RoundRobinIsAllOnes | routing/strategy.go:26-34 | round robin is the weighted strategy with weights one |
| Strategy.RoundRobinFairIff | routing/strategy.go:26-34 | every round is fair, wrap included, iff the count divides 2^64 |
| Strategy.UnfairRound | routing/strategy.go:26-34 | otherwise the round from the last counter value skips the last deployment |
| Usage.UsageTracker.constructor | routing/usage.go:17-27 | non-positive periods become a minute |
| Usage.UsageTracker.Record | routing/usage.go:30-43 | every counter stays the exact sum of its records since its window began |
| Usage.UsageTracker.Current | routing/usage.go:46-56 | zero or the exact sum of the current window, so never above the true sliding sum |
| Usage.NothingForgottenEarly | routing/usage.go:30-43 | within one period of the first record everything recorded is reported |
| Usage.NewWindow | routing/usage.go:34-40 | a record more than a period after the window's start begins a new window |
| RateLimit.RequestLimiter.CheckRateLimit | middleware/ratelimit.go:13-40 | trims, counts, admits and records as one specified transition |
| RateLimit.SecondsPerMinute | middleware/ratelimit.go:13-40 | at most `limit` distinct seconds with an admitted request in any (T-60, T] |
| RateLimit.SetIsWindow | middleware/ratelimit.go:22-36 | the set holds exactly the admitted seconds of the last minute |
| RateLimit.AdmittedExactlyWhen | middleware/ratelimit.go:13-40 | admitted iff there is no limit or fewer than `limit` seconds of the last minute hold an admitted request |
| RateLimit.NoLimitNoRecord | middleware/ratelimit.go:14-16 | without a limit nothing is recorded |
| RateLimit.ExpiryIsInvisible | middleware/ratelimit.go:37 | the two-minute expiry never changes a decision |
| RateLimit.RequestsPerMinuteIff | middleware/ratelimit.go:11-36 | a bound on requests per minute holds on all runs iff the limit is one |
| RateLimit.TokenLimiter.RecordTokenUsage | middleware/ratelimit.go:77-99 | refused iff over the limit; a record restarts the minute |
| RateLimit.TokensPerMinute | middleware/ratelimit.go:77-99 | at most `limit` tokens recorded in any half-open 60-second window |
| RateLimit.TokenWindowIff | middleware/ratelimit.go:77-99 | the windows that hold at most `limit` tokens on every run are exactly those of at most sixty seconds |
| RateLimit.LongerWindowHoldsTwice | middleware/ratelimit.go:93-96 | any longer window holds twice the limit on some run |
| Budget.Ledger.CheckBudget | budget/budget.go:12-32 | proceed iff no row, no positive limit, or below it |
| Budget.Ledger.RecordSpend | budget/budget.go:35-72 | every counter equals its opening value plus what the log charges to it |
| Budget.WhoIsCharged | budget/budget.go:47-70 | exactly the budget rows named by the spend's key, user, team and organisation are charged |
| Budget.OvershootIsBounded | budget/budget.go:12-62 | in every interleaving spend plus in-flight cost stays below budget plus K dearest requests |
| Budget.OvershootInNumbers | handler/chat.go:74-160 | current_spend + inflight * c < max_budget + K * c |
| Budget.OvershootIsReached | budget/budget.go:12-62 | any spending below the budget can be topped by a full round of the dearest requests |
| Budget.SpendsReachedExactly | budget/budget.go:12-62 | with nothing in flight the reachable spends are exactly those below max_budget + K * c |
| Budget.SpendIsBoundedIff | budget/budget.go:24-31 | spending is bounded iff the budget is positive |
| Keys.KeyAdmin.LoadFromDB | middleware/keystore.go:27-52 | adds exactly the active hashes, or nothing if the query fails |
| Keys.KeyAdmin.KeyGenerate | handler/keys.go:104-133 | ok iff the insert goes through on a new hash; then one more active row and one more hash in memory, otherwise nothing changes |
| Keys.KeyAdmin.KeyDelete | handler/keys.go:197-212 | the row is deactivated and its hash, if it could be looked up, dropped from memory; a failed update changes nothing |
| Keys.KeyAdmin.KeyRotate | handler/keys.go:230-277 | not found iff inactive; a failed insert leaves memory unchanged after the old row was deactivated |
| Keys.KeyAdmin.IsValid | middleware/keystore.go:69-76 | under agreement, valid iff an active row has the key's hash |
| Keys.StepAgreesIff | handler/keys.go:197-277 | one operation keeps memory equal to the active hashes iff it deactivates a row exactly when it forgets its hash |
| Keys.TableFollowsOperations | handler/keys.go:104-277 | after any run the table holds the old rows and those issued, with their hashes; a row is active iff it was or was issued, and has not been revoked since |
| Keys.ValidWhileItLives | middleware/keystore.go:69-76 | while all SQL succeeds a key is valid exactly as long as its row lives |
| Keys.RunIsExplained | handler/keys.go:104-277 | in every run, whichever statements fail, a row's key is valid iff it is active and not lost, or inactive and stale |
| Keys.StoreAgreesIff | middleware/keystore.go:27-82 | memory equals the active hashes after a run iff no row is stale and none is lost |
| Keys.StoreAgreesInEveryRun | middleware/keystore.go:27-82 | agreement after every run whose SQL succeeds |
| Keys.ActiveKeysAreNeverRefused | handler/keys.go:254-255 | as long as no rotation's update fails, each active key is valid |
| Keys.OnlyDeleteHeals | handler/keys.go:197-212 | whatever follows, a stale key stays valid exactly until a complete delete of its row |
| Keys.FailedInsertLeavesStaleKey | handler/keys.go:254-267 | a rotation whose insert fails deactivates the row and leaves its key valid |

## Left out

- HTTP clients, headers, request signing and the thin provider constructors: no algorithm.
- Gemini, Cohere, Ollama and Bedrock translators: they repeat the Anthropic shape.
- SSE line framing: the stream model starts from decoded events, with lines that carry none as ignored events.
- Guardrails, response and tool caches, cost tables, web search, assistants, files, fine-tuning, teams, users, audit, settings, configuration, migrations, metrics and the admin UI.
- Latency averages, the least-of strategies and the unused request queue.
- Failing SQL and Redis statements of batches, budgets and limits (which the source mostly ignores or fails open on), and rows that fail to scan. The key store models every failing statement but the second query of a rotation, whose failure changes nothing.
- Item results, error texts and timestamps of batch rows: only statuses and counters are modelled.
- Responses and item bodies of batches: whether an item succeeds is the environment's choice.
- The fallback chain's streaming form, and a chain without a cooldown tracker, which behaves as one that never cools.
- Optional trackers of the router: in-flight and usage trackers are always present.
- Random tool-call ids of extracted calls.
- Concurrency of the key store, the usage and cooldown trackers and the Redis limiters: their theorems are about sequential runs.
- Errors.ClassifyError: lower-casing covers ASCII and the two other letters whose lower case is ASCII, which is all its ASCII patterns can see.
- Retry.Execute: the backoff is computed in exact arithmetic, and the jitter is any amount between zero and the base delay.
- Usage.UsageTracker.Record: 64-bit wrap-around of the token sum is not modelled.
- Budget.Ledger.RecordSpend: money is exact, without the rounding of the DECIMAL columns.
- RateLimit.RequestLimiter.CheckRateLimit: times are not negative.
- WorkerPools.WorkerPool.Start: specified for a call without interference; racing calls are covered by the transition system.
- BatchPool.EveryPartIsARun: the pool serves batches only, as in the gateway, and processItem does not panic.
- ChainErrors.ChainErrorKeepsKind: for names of lower-case text without the letters that make up the patterns, such as the gateway's own "fallback", which the quoting leaves as they are.
- Keys.ActiveKeysAreNeverRefused: a rotation whose update fails and whose insert succeeds drops an active key from memory; `RunIsExplained` says exactly which.
- Batches.Tables.LoadPending: returns the rows in row order; the schedules allow any order.
