# A verified model of gopherclaw's core

gopherclaw is an agent gateway: it dispatches graphs of agent tasks, keeps chat histories and rewrites them, talks to
model providers, and runs background work. This Dafny project models the parts of it whose correctness is hardest to
see from the code, and proves what they are relied on for. `dafny verify dfyconfig.toml` checks all of it.

**Dispatcher.** `TaskGraph`, `TopoSort` and `Cancellation` hold graph validation, Kahn's algorithm and the depth-first
walk that marks everything downstream of a failure. `DispatchMachine` turns the goroutines of one dispatch into atomic
steps (one per channel operation or critical section) over program counters, results, outputs, the cancelled table, the
context and the semaphore. `DispatchRuns` proves safety of every run of that machine, `DispatchProgress` that it never
gets stuck and ends, and `DispatchRace` exactly when a dependent of a failed blocking task can run after all.
`Interpolate` and `Text` cover the messages passed from task to task.

**Conversations.** `History` defines a well-formed history (every run of tool results directly behind the assistant
message that issued the calls). `HistoryCuts`, `TokenChunks`, `SessionStore` and `AgentLoop` follow it through pruning,
compaction, trimming, storage and a whole chat turn; `LoopRounds` says what each iteration of the tool loop adds and how
it ends, `StoredTurns` what a turn leaves on disk. `AnthropicEncoder` and `AnthropicStream` cover the wire format:
encoding loses nothing and has exactly one possible output, and streaming refines the one-shot decoder.

**Lifecycles.** `TaskQueue`, `TaskQueueRuns` and `TaskQueueEnds` model the background task queue under all
interleavings, `SessionLock` the reference-counted lock per session (with real, shared lock objects), `Cron` and
`CronRuns` slot scheduling and the guard against overlapping runs, `RateLimiter` the token bucket, `Cooldown`, `Router`
and `RouterRuns` fallback, retries and cooldowns over any sequence of calls and for calls that interleave.

**Text and ranking.** `FenceChunker` splits messages without breaking fenced code blocks; `MMR` re-ranks search results.
`Options` and `Sets` hold what several modules share.

Objects that the program updates in place are classes whose methods are proved against specification functions;
goroutines are state machines whose runs are arbitrary interleavings. What comes from outside (model replies, tool
results, summaries, clocks, random IDs, disk failures) is a parameter and may be anything.

## What was found

- A dependent of a failed blocking task can run if the caller cancels the dispatch first: the tasks between the two
  leave through the context and open their channels early. That is possible exactly for dependents that do not name
  the failed task among their own dependencies (`DispatchRace.OutrunsExactlyIfIndirect`); with a living context it never
  happens.
- The cycle error names every task that reaches a cycle, so also tasks that are merely behind one.
- A streamed message equals the one-shot message exactly when there are at most 128 tool calls, each with an ID and a
  nonempty input; for an empty input one decoder writes `{}` and the other an empty string.
- A turn is stored twice, at least in part, when overflow recovery has rewritten the history: the rewritten history
  already holds messages of the turn, and the whole turn is appended to it (`StoredTurns.StoredOnceIff`; one overflow
  followed by a reply is enough, `StoredTurns.RecoveredTwice`). Whether that happens is read off the model's answers and
  the disk: there is a session, and some overflow within the limit of three is reached and its rewrite succeeds, or the
  first attempt is given up and clearing the history succeeds (`StoredTurns.RecoveryIsDecided`).
- Cancelling a running queue task is not final: the finishing run overwrites the status, unless its function reports
  the cancellation (`TaskQueueEnds.CancelledIsFinalIff`).
- Shutting the queue down cancels running tasks only. Afterwards the function of a task can still be called if and only
  if the task was pending, and then its context is cancelled already (`TaskQueueEnds.PendingRunsAfterShutdown`).
- The rate limiter's wait is cut to whole nanoseconds and can be too short by less than one, in which case the loop
  goes round again; with a burst below one it never grants anything.
- The first cooldown is not capped. All cooldowns respect the cap exactly when the base does. With a multiplier that is
  not whole, fractions of a nanosecond are cut off at every step (`Cooldown.DelayIsExponentialIff`).
- With requests in parallel a model can be called during a cooldown that another request has just set
  (`RouterRuns.OverlapCallsDuringCooldown`). It never happens while visits to one model do not overlap
  (`RouterRuns.AloneIsSafe`), and can happen from every state in which they do and one of them has calls left
  (`RouterRuns.ClashIff`).
- A job's time of last run 0 doubles as "never run". Only starts in the first millisecond of 1970 are affected, and
  only in wake mode "now"; for all others a slot sees at most one start.
- With a limiter shared with the task queue a dispatch is blocked exactly while others hold every slot, its context
  lives, and each of its unfinished tasks waits for a slot or for a channel that is still open
  (`DispatchProgress.NeverStuck`).

## Model

| member | source | states |
|---|---|---|
| `Cancellation.Validate` | internal/orchestrator/dispatcher.go:288-325 | accepts exactly the valid graphs (nonempty, complete tasks, unique IDs, known agents and dependencies); a rejection names the first defect of the first task that has one |
| `TopoSort.TopoSort` | internal/orchestrator/dispatcher.go:329-377 | for unique IDs and known dependencies, repeated edges allowed: sorts if and only if the dependency relation is acyclic; the order is a permutation of the IDs with every dependency first; the error lists exactly the tasks that reach a cycle |
| `TopoSort.BuildTables` | internal/orchestrator/dispatcher.go:330-342 | in-degrees and dependents count every edge occurrence |
| `TopoSort.LeftoversReachCycles` | internal/orchestrator/dispatcher.go:349-375 | when the queue is empty, positive in-degree, absence from the order and reaching a cycle are the same thing |
| `TopoSort.DependencyIsEarlier` | internal/orchestrator/dispatcher.go:329-377 | in such an order even transitive dependencies come earlier |
| `Cancellation.CancelTable.MarkCancelled` | internal/orchestrator/dispatcher.go:114-128 | adds exactly the strict transitive dependents of the failed task |
| `Cancellation.CancelTable.Walk` | internal/orchestrator/dispatcher.go:117-128 | the recursive walk ends, adds only dependents of its argument, and leaves the table closed under dependents except for the tasks still on the call stack |
| `Cancellation.ClosureReaches` | internal/orchestrator/dispatcher.go:117-128 | a table closed under direct dependents holds all transitive ones |
| `DispatchProgress.Prepare` | internal/orchestrator/dispatcher.go:48-68 | goroutines are started exactly for valid acyclic graphs, on a configuration that satisfies the machine's assumptions, with five slots when none are configured; every rejection is justified |
| `DispatchMachine.StepKeepsInv` | internal/orchestrator/dispatcher.go:130-273 | every step of every goroutine, of the scheduling loop, of the caller and of other limiter users keeps the machine's invariant |
| `DispatchRuns.StartFollowsDependencies` | internal/orchestrator/dispatcher.go:136-215 | a task enters Running only when all direct dependencies have final statuses, and all transitive ones too while the context lives |
| `DispatchRuns.ClosedIsTerminal` | internal/orchestrator/dispatcher.go:270-271 | a closed done channel belongs to a goroutine that has left with a final status |
| `DispatchRuns.OutputsAreSuccesses` | internal/orchestrator/dispatcher.go:238-256 | at every moment outputs holds exactly the successful tasks, each with the text of its result |
| `DispatchRuns.ResultIsTheChats` | internal/orchestrator/dispatcher.go:233-271 | in every run, once a task whose chat returned has closed its channel: a reply is its result and its output, word for word, with Success; a missed deadline of a task with a timeout is TimedOut, any other error Failed, neither with an output |
| `DispatchRuns.NoChatMeansCancelled` | internal/orchestrator/dispatcher.go:136-209 | a task whose chat never returned ends Cancelled and without a text |
| `DispatchRuns.TableIsDownstreamOfFailures` | internal/orchestrator/dispatcher.go:110-128 | at every moment a task is in the cancelled table exactly when a marked blocking failure lies upstream of it |
| `DispatchRuns.TableIsClosed` | internal/orchestrator/dispatcher.go:261-265 | every call of the marking walk finds the table closed, as the walk needs |
| `DispatchRuns.BlockingFailureStopsDownstream` | internal/orchestrator/dispatcher.go:153-177 | a blocking failure marked while the context lives: no transitive dependent runs at any time in any interleaving, and each one that finishes is Cancelled |
| `DispatchRuns.BlockingFailureStopsDirectDependents` | internal/orchestrator/dispatcher.go:136-177 | for direct dependents the same holds even when the context was cancelled before |
| `DispatchRace.OutrunsExactlyIfIndirect` | internal/orchestrator/dispatcher.go:130-273 | for every accepted graph, blocking task f and transitive dependent d: some run has d Running when f's failure is marked, or at any other moment of a run that marks it, if and only if d does not name f among its own dependencies |
| `DispatchRace.FailureMarkedAfterDependentStarted` | internal/orchestrator/dispatcher.go:139-150 | such a run of a graph that validation accepts, with a single slot: the caller cancels first, and the transitive dependent is running when the failure is marked |
| `DispatchRace.Outrun` | internal/orchestrator/dispatcher.go:136-214 | builds the run for any graph: everybody else leaves through the context, f runs and fails, d sees all its channels closed and runs |
| `DispatchRuns.NothingCancelledWithoutCause` | internal/orchestrator/dispatcher.go:153-177 | while the context lives no task is Cancelled and no task reads itself as cancelled |
| `DispatchRuns.MovesHappenOnce` | internal/orchestrator/dispatcher.go:134-272 | no channel is closed twice, no task starts twice, no chat returns twice |
| `DispatchRuns.ExitedIsFinal` | internal/orchestrator/dispatcher.go:270-271 | what an exited task recorded never changes |
| `DispatchRuns.PromptUsesFinalOutputs` | internal/orchestrator/dispatcher.go:211-215 | the message sent is the task's own with the outputs known at its start put in, cut to 4000 bytes each, and for direct dependencies those outputs are already the final ones |
| `DispatchProgress.NeverStuck` | internal/orchestrator/dispatcher.go:130-273 | in an unfinished reachable state no goroutine can step if and only if users outside hold every slot of a shared limiter, the context lives, all goroutines are started and each unfinished one waits for a slot or for an open channel; with its own semaphore one can always step |
| `DispatchProgress.RunsAreBounded` | internal/orchestrator/dispatcher.go:130-276 | a dispatch takes at most 13 steps per task and one per dependency, in every interleaving |
| `DispatchProgress.FinishedIsSettled` | internal/orchestrator/dispatcher.go:275-284 | at the end all channels are closed, all statuses final and no slot is held |
| `DispatchProgress.ConcurrencyBounded` | internal/orchestrator/dispatcher.go:182-209 | running tasks plus slots lent to others never exceed the limit |
| `DispatchProgress.Collect` | internal/orchestrator/dispatcher.go:278-283 | the result set lists the results in graph order |
| `Interpolation.Interpolate` | internal/orchestrator/interpolate.go:14-58 | the loop computes the rendering of the unique reading of the message as literals and markers |
| `Interpolation.ParseRejoins` | internal/orchestrator/interpolate.go:14-58 | the unsubstituted segments join to the message |
| `Interpolation.ParseIsUnique` | internal/orchestrator/interpolate.go:14-58 | any alternation of literals without an opening marker and bodies without a closing one that joins to a message is the reading of it |
| `Interpolation.ParseIsCanonical` | internal/orchestrator/interpolate.go:14-58 | every message has such a reading |
| `Interpolation.UnknownIsIdentity` | internal/orchestrator/interpolate.go:34-54 | a message without a marker of the form id.output for an ID with an output is unchanged |
| `Interpolation.OutputIsNotRescanned` | internal/orchestrator/interpolate.go:34-54 | a marker of that form becomes the output, whatever it contains, cut at the limit with a note when longer, and the rest of the message is rendered on its own |
| `History.AnsweredIsWellFormed` | internal/session/manager.go:357-379 | the message-by-message and the indexed form of well-formedness agree |
| `History.SanitizeOrphans` | internal/session/manager.go:360-379 | keeps exactly the messages with no tool call ID or one issued by an earlier assistant message, and counts the rest |
| `History.SanitizedMeans` | internal/session/manager.go:360-379 | message by message: a tool result with an ID is dropped exactly when no earlier message has issued that ID, everything else is kept |
| `History.SanitizeHeals` | internal/session/manager.go:360-379 | a history with its front cut off becomes well-formed |
| `History.TrimThenSanitize` | internal/session/manager.go:221-236 | trimming a well-formed history anywhere and sanitizing gives a well-formed one |
| `History.WellFormedIsSanitized` | internal/session/manager.go:360-379 | sanitizing does not touch a well-formed history |
| `History.SanitizeIdempotent` | internal/session/manager.go:360-379 | sanitizing twice is sanitizing once, for any history |
| `HistoryCuts.PruneKeepLast` | internal/session/manager.go:514-547 | keeps the history from the common cut on |
| `HistoryCuts.FindCompactionSplitPoint` | internal/agent/compaction.go:171-196 | splits at the same cut |
| `HistoryCuts.ForceSoftTrim` | internal/agent/agent.go:440-508 | replaces what lies before the same cut by a summary message, or leaves the history alone |
| `HistoryCuts.SoftTrimMeans` | internal/agent/agent.go:440-508 | with more than N assistant messages and a summary of what is cut off the result is one assistant message with that summary and the end of the history with N or N+1 of them; otherwise the history itself |
| `HistoryCuts.CutKeepsAssistants` | internal/session/manager.go:514-547 | with more than N assistant messages the cut keeps N+1 exactly when, behind one user message at most and any tool results, a message that issued calls stands before the N-th last one, and then begins with that message; otherwise N |
| `HistoryCuts.CutTakesAlong` | internal/session/manager.go:523-545 | in front of the N-th last assistant message the cut keeps the user message directly before it, the tool results before that and the message that called for them, as far as they are there, and nothing else |
| `HistoryCuts.IndicesAreExact` | internal/session/manager.go:514-525 | the positions collected are those of all assistant messages, in order |
| `HistoryCuts.CutKeepsWellFormed` | internal/session/manager.go:514-547 | what the cut keeps of a well-formed history is well-formed, no sanitizing needed |
| `HistoryCuts.SoftTrimKeepsWellFormed` | internal/agent/agent.go:440-508 | soft trimming keeps a history well-formed |
| `HistoryCuts.PruneToolResults` | internal/session/manager.go:458-509 | compresses exactly the long tool results before the last N assistant messages |
| `HistoryCuts.PruneMeans` | internal/session/manager.go:458-509 | a result of more than 200 bytes before the N-th last assistant message becomes its first 100 and last 80 bytes, unless only tool results stand between the two; nothing else changes |
| `HistoryCuts.PruneKeepsWellFormed` | internal/session/manager.go:458-509 | compressing keeps a history well-formed |
| `HistoryCuts.PruneIsIdempotent` | internal/session/manager.go:458-509 | compressing twice is compressing once |
| `HistoryCuts.PruneKeepsRecent` | internal/session/manager.go:458-509 | the messages from the N-th last assistant message on are untouched |
| `HistoryCuts.PruneSavesTokens` | internal/session/manager.go:435-509 | compressing never raises the token estimate |
| `HistoryCuts.EstimateTokens` | internal/session/manager.go:435-448 | the estimate is the sum of what each message costs |
| `HistoryCuts.TokensOfOne` | internal/session/manager.go:435-448 | a plain message counts four and a quarter of its text; each image URL and each call's name and arguments add a quarter of theirs |
| `HistoryCuts.TokensConcat` | internal/session/manager.go:435-448 | the estimate of two parts is the sum of theirs |
| `TokenChunks.ChunkByTokenBudget` | internal/agent/compaction.go:220-243 | the loop packs greedily |
| `TokenChunks.CostIsEstimate` | internal/agent/compaction.go:224-229 | chunks are measured by the same estimate without images |
| `TokenChunks.PackIsSplit` | internal/agent/compaction.go:220-243 | the chunks join to the input, none is empty, each fits the budget or is a single message |
| `TokenChunks.PackIsFewest` | internal/agent/compaction.go:220-243 | no contiguous split within the same limits has fewer chunks |
| `TokenChunks.CompactHistory` | internal/agent/compaction.go:85-168 | the result is the history itself, or one message holding the summaries of the greedy chunks of the part before the cut, in order, followed by the rest; the budget error has an exact condition; well-formedness is kept |
| `TokenChunks.CompactionMeans` | internal/agent/compaction.go:85-168 | nothing is lost: the part in front of the cut goes whole, split into chunks within the budget, into one summary message, the rest with N or N+1 assistant messages stays as it is behind it |
| `TokenChunks.BudgetMeans` | internal/agent/compaction.go:99-103 | the budget is the window divided by 1.2 less 4096, in whole tokens |
| `TokenChunks.ChunkBudgetMeans` | internal/agent/compaction.go:105-110 | a chunk gets its share of the budget in whole tokens, at least 500 |
| `TokenChunks.RatioMeans` | internal/agent/compaction.go:199-217 | the share falls from 0.4 by half of the average message's share of the window, down to 0.15 |
| `SessionStore.Manager.GetHistory` | internal/session/manager.go:116-184 | the full state change for missing, expired, unreadable and live sessions, with the expiry and cache-time tests written out; with sound files the returned history is well-formed and the files stay sound, whichever rewrite fails |
| `SessionStore.SeenMeans` | internal/session/manager.go:136-184 | what a read shows: the history without its orphans, whole unless it may be pruned and its estimate is above the threshold; then with its old tool results compressed if so configured, and cut back, to its end with N or N+1 assistant messages, only when that does not bring it to the threshold; the last N assistant messages and what follows them are always shown unchanged |
| `SessionStore.KeptMeans` | internal/session/manager.go:136-184 | what a read leaves on disk: what it shows if it shortened the history and that rewrite succeeds, else the history without orphans if that rewrite succeeds, else what was there |
| `SessionStore.ReadingStores` | internal/session/manager.go:136-184 | a read touches no other session's file and makes none |
| `SessionStore.ThresholdIsShare` | internal/session/manager.go:166-168 | the threshold is the configured share of the window in whole tokens |
| `SessionStore.Manager.AppendMessages` | internal/session/manager.go:187-203 | makes the session if needed and appends to its file; a failed append leaves the session and the messages that got through; whole rounds, even cut short, keep the store sound |
| `SessionStore.Manager.ReplaceHistory` | internal/session/manager.go:207-217 | replaces exactly the key's history, whole or not at all, and does nothing without a session |
| `SessionStore.Manager.TrimMessages` | internal/session/manager.go:221-236 | keeps the last messages of the key's history only, reports failed loads and rewrites, and keeps the store sound |
| `SessionStore.Manager.Reset` | internal/session/manager.go:239-252 | removes exactly the key's session, file and cache time |
| `SessionStore.ReadingHeals` | internal/session/manager.go:136-184 | reading a trimmed history shows a well-formed one and leaves a trimmed one on disk, even when a rewrite fails |
| `AgentLoop.ExecuteTools` | internal/agent/agent.go:1050-1083 | in whatever order the tools finish, the results come in the order of the calls |
| `AgentLoop.RoundIsAnswered` | internal/agent/agent.go:932-990 | an assistant message followed by any prefix of its results is a well-formed piece |
| `AgentLoop.Loop` | internal/agent/agent.go:848-1034 | what the model sees, what is added, the outcome and every file are those of the loop function for any script of answers, errors and disk failures; both message lists stay well-formed and only this key's file and cache time change |
| `LoopRounds.AnswerIsKept` | internal/agent/agent.go:932-990 | in every iteration the loop reaches, an answer adds to what the model sees and to what is stored its message and, directly behind it, one tool message per call in the order of the calls, with the call's ID and the text its tool returned; a stuck or call-free answer adds the message alone; the nudge comes in front, once, in the first iteration past four fifths of the limit |
| `LoopRounds.AnswerIsStored` | internal/agent/agent.go:932-990 | those messages are still there, at the same place, when the loop ends |
| `LoopRounds.OverflowIsTrimmed` | internal/agent/agent.go:899-915 | an overflow within the limit of three soft-trims what the model sees and adds nothing to what is stored |
| `LoopRounds.LoopOutcome` | internal/agent/agent.go:880-1034 | the loop ends with the first iteration it cannot go on behind: a reply for an answer without calls, a stop for a stuck one, a failure for anything else; with none it stops at the limit |
| `LoopRounds.SomewhereItEnds` | internal/agent/agent.go:880-1034 | there is always such an iteration or the limit is reached |
| `AgentLoop.TakeAnswer` | internal/agent/agent.go:932-990 | an answer adds the same round to what the model sees and to what is stored: the message and, unless the loop ends there, one tool message per call, the i-th with the i-th call's ID and its tool's text |
| `AgentLoop.CompactMidLoop` | internal/agent/agent.go:901-915 | overflow recovery turns the working history into its soft-trimmed form, stores exactly that if the rewrite succeeds and a session exists, and keeps both well-formed |
| `AgentLoop.SoftTrim` | internal/agent/agent.go:514-543 | gives the compacted history, or the plainly summarized one when there is no budget, above the threshold only; the file becomes exactly that if the rewrite succeeds |
| `AgentLoop.ChatTurn` | internal/agent/agent.go:563-620 | the result and all files after the turn are exactly those of the turn functions, for every mixture of disk failures; an unreadable history changes nothing; other sessions are untouched |
| `LoopRounds.AttemptsMean` | internal/agent/agent.go:593-607 | the first attempt is the loop on the working history and the user's message; the second is made exactly when that ends with the context overflowing, on the user's message alone |
| `LoopRounds.WorkingMeans` | internal/agent/agent.go:514-543 | a turn works on the history it has read unless that is above the soft threshold; then on its compacted form, or on the soft-trimmed one when there is no room for summaries |
| `LoopRounds.BeforeTheLoop` | internal/agent/agent.go:514-543 | that form is on disk before the first call exactly when it was made, there is a session and the rewrite succeeds |
| `StoredTurns.StoredOnceIff` | internal/agent/agent.go:593-613 | without a history stored by recovery a turn leaves the earlier history followed by the turn; with one exactly when that history equals the earlier one, which is impossible for a turn new to it |
| `StoredTurns.RecoveryIsDecided` | internal/agent/agent.go:873-915 | recovery stores a history if and only if a session exists and, in an attempt that is made, an overflow within the limit is reached and its rewrite succeeds, or the first attempt meets one overflow too many and the clearing succeeds |
| `StoredTurns.RecoveredTwice` | internal/agent/agent.go:901-915 | one overflow and then a reply: the file is the user's message, and then the user's message and the reply |
| `StoredTurns.ClearedTwice` | internal/agent/agent.go:593-613 | an endless overflow and a reply at the second attempt: the same |
| `StoredTurns.RewriteStoresTwice` | internal/agent/agent.go:901-915 | when recovery stores a history some message of the turn is in the file more often than the turn has it, unless clearing a given-up attempt failed |
| `StoredTurns.NoRewriteStoresOnce` | internal/agent/agent.go:609-613 | when it stores none every message is there as often as in the earlier history and the turn together |
| `StoredTurns.NormalTurn` | internal/agent/agent.go:593-613 | when recovery stores no history the turn is appended to the one it started with |
| `StoredTurns.RecoveredTurn` | internal/agent/agent.go:901-915 | otherwise it is appended to the stored one, which already ends with a message of the turn's attempts |
| `StoredTurns.ClearedTurnStoresUserTwice` | internal/agent/agent.go:597-613 | given up, cleared and answered at the second attempt without further rewrites: the file is the user's message twice and then what was added |
| `StoredTurns.FailedAppendLosesTail` | internal/agent/agent.go:611-613 | a failed append is only logged: the reply is delivered and the turn, or its tail, is not stored |
| `StoredTurns.OtherFilesUntouched` | internal/agent/agent.go:563-620 | a turn changes no other session's file |
| `StoredTurns.ReplyComesLast` | internal/agent/agent.go:945-950 | a loop that replies has added the reply last, an assistant message without calls |
| `AnthropicEncoder.Convert` | internal/models/anthropic.go:327-405 | given that {} is JSON, fails exactly when some call of an assistant message has nonempty arguments that are not; otherwise computes the encoding |
| `AnthropicEncoder.DecodeRecoversHistory` | internal/models/anthropic.go:327-405 | a decoder recovers all non-system messages in order, with all texts, IDs, names and arguments |
| `AnthropicEncoder.CallsSurvive` | internal/models/anthropic.go:365-385 | call by call, the arguments read back are those of the message, and {} where those are empty |
| `AnthropicEncoder.EncodingIsCanonical` | internal/models/anthropic.go:327-405 | batches of results are never adjacent and never mixed with other content |
| `AnthropicEncoder.EncodingIsUnique` | internal/models/anthropic.go:327-405 | it is the only such sequence that reads back as the history, so each stretch of results is exactly one user message |
| `AnthropicEncoder.SystemIsLast` | internal/models/anthropic.go:343-346 | the system prompt is the last system message |
| `AnthropicStream.ConvertResponse` | internal/models/anthropic.go:437-487 | the one-shot message joins the text blocks and lists the calls, empty inputs as an empty object |
| `AnthropicStream.Decoder.ProcessEvent` | internal/models/anthropic.go:571-666 | one event changes the block table and emits as the stream function says |
| `AnthropicStream.Absorb` | internal/agent/agent.go:778-811 | one chunk merges into content and calls, capped at 128 |
| `AnthropicStream.StreamModelCall` | internal/agent/agent.go:746-844 | reading to the end gives the outcome of feeding all events |
| `AnthropicStream.StreamFailsIff` | internal/agent/agent.go:746-844 | a streamed call fails exactly when an error arrives before the end of the message; a stream that just stops gives what has arrived |
| `AnthropicStream.StrayInputIsDropped` | internal/models/anthropic.go:600-640 | input for an index under which no tool call was started is dropped |
| `AnthropicStream.DecoderRemembers` | internal/models/anthropic.go:571-666 | a block's kind and the token counts are the last ones received |
| `AnthropicStream.SentBlock` | internal/models/anthropic.go:571-666 | one block, cut into any deltas with noise between them, adds exactly its text or its call |
| `AnthropicStream.StreamingRefinesOneShot` | internal/models/anthropic.go:571-666 | for all blocks, all cuttings and all noise, the streamed message is the one-shot message if and only if there are at most 128 calls, each with an ID and a nonempty input |
| `FenceChunker.FindBreakPoint` | internal/channels/common/chunker.go:51-84 | the cut lies within the limit and is the latest one of the first kind there is: paragraph anywhere after the start, then line, sentence or word within the last 400 characters, then the limit itself |
| `FenceChunker.BreakMeans` | internal/channels/common/chunker.go:51-84 | the same rules read off the characters: behind the last blank line that does not begin the window, else behind the last newline of its last 400 bytes, else behind the last sentence there, else behind the last space there, else at the limit |
| `FenceChunker.SentenceMeans` | internal/channels/common/chunker.go:68-76 | a sentence ends at a full stop, exclamation or question mark with a space behind it |
| `FenceChunker.SmartChunk` | internal/channels/common/chunker.go:27-46 | a text within the limit is returned whole; otherwise the raw pieces join to it, each ends at the best break of what is left, and the result is the healed pieces |
| `FenceChunker.ChunksAreDecided` | internal/channels/common/chunker.go:27-118 | that description leaves no choice: the text and the limit alone decide the chunks |
| `FenceChunker.HealFences` | internal/channels/common/chunker.go:88-118 | pieces are healed from left to right, carrying the open fence |
| `FenceChunker.TrackFence` | internal/channels/common/chunker.go:121-140 | the fence open after a text, by the opening and closing rules |
| `FenceChunker.LineMeans` | internal/channels/common/chunker.go:121-174 | what a line does: three backticks or tildes at its start open a fence, a line of nothing but the fence's character, at least as many as opened it, closes it, any other line changes nothing |
| `FenceChunker.TrimMeans` | internal/channels/common/chunker.go:121-136 | lines are looked at without the white space at both ends, all of it |
| `FenceChunker.RawPiecesBounded` | internal/channels/common/chunker.go:27-46 | no raw piece is empty or longer than the limit |
| `FenceChunker.HealedPiece` | internal/channels/common/chunker.go:88-118 | a healed piece is the carried header in a line of its own, if there is one, the raw piece, and the closing mark in a line of its own if a fence is open there and more pieces follow |
| `FenceChunker.HealedIsClosed` | internal/channels/common/chunker.go:88-118 | every piece but the last leaves no fence open |
| `FenceChunker.MarkCloses` | internal/channels/common/chunker.go:143-174 | the mark taken from a header closes the fence that header opened |
| `FenceChunker.ReopenedTracks` | internal/channels/common/chunker.go:95-110 | reopening a fence in front of a piece is tracking the piece with the fence open |
| `FenceChunker.HeaderIsOriginalFence` | internal/channels/common/chunker.go:88-118 | if all cuts follow a newline, the header on a piece is the fence open there in the original |
| `TaskQueue.Manager.constructor` | internal/taskqueue/manager.go:430-451 | loading turns interrupted tasks into failed ones and starts with an empty running index |
| `TaskQueue.Manager.Submit` | internal/taskqueue/manager.go:127-154 | adds one pending record at the end |
| `TaskQueue.Manager.Begin` | internal/taskqueue/manager.go:162-190 | a task cancelled meanwhile is not started; any other becomes Running and indexed |
| `TaskQueue.Manager.Finish` | internal/taskqueue/manager.go:194-212 | stores the outcome and leaves the running index |
| `TaskQueue.Manager.Cancel` | internal/taskqueue/manager.go:223-250 | cancels exactly a live task, with its context if it is running, and says whether there was one |
| `TaskQueue.Manager.CancelAll` | internal/taskqueue/manager.go:253-283 | cancels every live task of the session, running ones with their contexts, and counts each once |
| `TaskQueue.Manager.Shutdown` | internal/taskqueue/manager.go:370-393 | cancels the root context and stops exactly what is running |
| `TaskQueue.CancelAllMeans` | internal/taskqueue/manager.go:253-283 | cancelling a session ends exactly its live tasks, with the time of the call, and changes no other record |
| `TaskQueue.CancelAllCount` | internal/taskqueue/manager.go:253-283 | the two loops together count every live task of the session once |
| `TaskQueue.ShutdownMeans` | internal/taskqueue/manager.go:370-393 | shutting down ends exactly the running tasks; pending ones keep their records; every context, also of tasks still to start, is cancelled |
| `TaskQueue.Manager.Prune` | internal/taskqueue/manager.go:408-427 | drops exactly the expired finished tasks from the list, in order |
| `TaskQueue.SubmitMeans` | internal/taskqueue/manager.go:127-154 | the new record is pending, belongs to the session, is listed last and has nothing in it |
| `TaskQueue.BeginMeans` | internal/taskqueue/manager.go:168-190 | a task cancelled meanwhile is left as it is; any other is Running from now on and indexed, and nothing else changes |
| `TaskQueue.EndMeans` | internal/taskqueue/manager.go:194-212 | what the function returned is what the record says: the text of a success or the error of a failure, cut to 2000 bytes, or the cancellation, with end and duration |
| `TaskQueue.CancelMeans` | internal/taskqueue/manager.go:223-250 | a pending task ends at the time of the call, a running one with its duration and its context; any other stays |
| `TaskQueue.PruneMeans` | internal/taskqueue/manager.go:408-427 | pruning drops, task by task, exactly those that ended before the cutoff, and keeps the order of the rest |
| `TaskQueue.RecoveredMeans` | internal/taskqueue/manager.go:430-451 | a restart fails what was live at its time, and keeps everything else |
| `TaskQueueRuns.StepKeepsInv` | internal/taskqueue/manager.go:127-427 | every step of every goroutine and every operation keeps the queue's invariant |
| `TaskQueueRuns.IndexIsExact` | internal/taskqueue/manager.go:176-212 | in every run the running index holds exactly the Running tasks, and every live task is listed |
| `TaskQueueRuns.TerminalStays` | internal/taskqueue/manager.go:156-220 | a finished task never becomes pending or running again |
| `TaskQueueRuns.CancelledPendingNeverRuns` | internal/taskqueue/manager.go:161-247 | a task cancelled while pending stays Cancelled; its function and callback are never called |
| `TaskQueueRuns.CallbackExactlyOnce` | internal/taskqueue/manager.go:191-220 | no function or callback is called twice; a task that ran has its callback called once |
| `TaskQueueRuns.FinishOverwritesCancel` | internal/taskqueue/manager.go:194-212 | after a run finishes its status is Cancelled exactly when the function reported the cancellation |
| `TaskQueueEnds.CancelledIsFinalIff` | internal/taskqueue/manager.go:194-212 | in any reachable state a Cancelled task can still end otherwise if and only if its function is executing or has returned something else than the cancellation |
| `TaskQueueEnds.CancelledThenSuccess` | internal/taskqueue/manager.go:156-250 | a run in which a cancelled running task ends as a success |
| `TaskQueueEnds.OutcomeIsRecorded` | internal/taskqueue/manager.go:184-220 | in every run, once stored, the record of a task says what its function returned, cut to 2000 bytes, whatever is cancelled or shut down afterwards |
| `TaskQueueEnds.CancellingReachesContext` | internal/taskqueue/manager.go:223-283 | a running task that is cancelled has its context cancelled |
| `TaskQueueEnds.ContextDoneHasCause` | internal/taskqueue/manager.go:168-390 | a context is cancelled only by a shutdown, or by cancelling the task, by ID or with its session, while it runs |
| `TaskQueueEnds.BegunAfterShutdown` | internal/taskqueue/manager.go:168-390 | a function begun after a shutdown has a cancelled context from the start |
| `TaskQueueEnds.CanBeginIff` | internal/taskqueue/manager.go:156-190 | in any reachable state the function of a task can still be called if and only if the task is pending, even when every slot is taken at the moment |
| `TaskQueueEnds.PendingRunsAfterShutdown` | internal/taskqueue/manager.go:156-390 | after a shutdown in any reachable state the function of a task can still be called if and only if the task was pending; its context is cancelled in every continuation |
| `TaskQueueEnds.StartedAfterShutdown` | internal/taskqueue/manager.go:156-390 | a run in which one is |
| `TaskQueueEnds.NeverStuck` | internal/taskqueue/manager.go:156-220 | no goroutine can step if and only if each one is through, inside its function, or waiting for a slot while none is free; while one is not through, that takes an executing function or users outside the queue that hold every slot |
| `TaskQueueEnds.StepsAreBounded` | internal/taskqueue/manager.go:156-220 | each task's goroutine makes at most six steps in any interleaving |
| `TaskQueueRuns.PruneKeepsLive` | internal/taskqueue/manager.go:408-427 | pruning never drops a live task |
| `TaskQueueRuns.ConcurrencyBounded` | internal/taskqueue/manager.go:156-367 | executing functions plus slots lent to others never exceed the limit |
| `TaskQueueRuns.Drained` | internal/taskqueue/manager.go:156-220 | when all goroutines are gone nothing is live, indexed or held |
| `RateLimiter.Limiter.TryTake` | internal/taskqueue/ratelimit.go:32-50 | refill and take are one atomic step; a refusal returns the wait for the deficit, cut to nanoseconds, for any rate |
| `RateLimiter.AttemptMeans` | internal/taskqueue/ratelimit.go:32-46 | an attempt finds the old tokens and the refill, as far as the burst has room, is granted exactly when that is a whole token, and takes one |
| `RateLimiter.TokensAtOnce` | internal/taskqueue/ratelimit.go:32-46 | of attempts at one moment, as many as there are tokens, each is granted |
| `RateLimiter.TruncatedMeans` | internal/taskqueue/ratelimit.go:46-50 | the wait is cut to whole nanoseconds towards zero |
| `RateLimiter.Limiter.Wait` | internal/taskqueue/ratelimit.go:30-59 | the loop ends with a grant at its last pass or with the context |
| `RateLimiter.WindowBound` | internal/taskqueue/ratelimit.go:30-59 | for any callers, any nondecreasing clock and any rate from zero up, every window sees at most burst + rate * length grants |
| `RateLimiter.TokensStayLegal` | internal/taskqueue/ratelimit.go:32-45 | tokens stay between zero and the burst |
| `RateLimiter.RetryGrantedIff` | internal/taskqueue/ratelimit.go:46-57 | a pause suffices exactly when it covers the deficit and the burst holds a token |
| `RateLimiter.WaitSufficesIff` | internal/taskqueue/ratelimit.go:46-57 | the computed wait suffices exactly when no fraction of a nanosecond was cut off |
| `RateLimiter.ThirdOfASecondIsTooShort` | internal/taskqueue/ratelimit.go:46-57 | with three tokens a second an empty bucket's wait is cut to 333333333 nanoseconds, after which the caller is refused again |
| `RateLimiter.GrantedByThirdPass` | internal/taskqueue/ratelimit.go:30-59 | a caller nobody overtakes that sleeps the computed wait is granted at its next pass, or at the one after once a nanosecond has gone by |
| `RateLimiter.WaitAlmostSuffices` | internal/taskqueue/ratelimit.go:46-57 | one more nanosecond always suffices |
| `RateLimiter.SmallBurstNeverGrants` | internal/taskqueue/ratelimit.go:20-45 | with a burst below one nothing is granted |
| `Cooldown.Tracker.RecordFailure` | internal/models/cooldown.go:55-80 | the multiplying loop sets the cooldown for the number of failures in a row |
| `Cooldown.DefaultsMean` | internal/models/cooldown.go:36-53 | configured values are kept; without any the cooldowns are a minute, five, twenty-five, and then an hour |
| `Cooldown.Tracker.RecordSuccess` | internal/models/cooldown.go:83-87 | forgets the model |
| `Cooldown.Tracker.IsAvailable` | internal/models/cooldown.go:102-116 | a model is available unless its cooldown lasts |
| `Cooldown.DelayIsExponentialIff` | internal/models/cooldown.go:64-76 | for every multiplier at least one: the k-th failure in a row sets min(max, base * multiplier^(k-1)) if and only if the cap is reached or no multiplication on the way had a fraction to cut off |
| `Cooldown.FractionIsLost` | internal/models/cooldown.go:67-68 | base 1 and multiplier 1.5: the second failure sets 1, not 1.5 |
| `Cooldown.DelayIsExponential` | internal/models/cooldown.go:64-76 | so for whole multipliers m it is always min(max, base * m^(k-1)) |
| `Cooldown.GrownNearExponential` | internal/models/cooldown.go:64-76 | below the cap truncation loses less than 1 + m + ... + m^(n-1) nanoseconds in n multiplications |
| `Cooldown.GrownBelowExponential` | internal/models/cooldown.go:64-76 | with any multiplier, truncation keeps the delay at or below the exact exponential |
| `Cooldown.DelayMonotone` | internal/models/cooldown.go:64-76 | delays grow from the base up to the cap |
| `Cooldown.CapHoldsIff` | internal/models/cooldown.go:64-76 | every delay respects the cap if and only if the base does |
| `Router.Router.Chat` | internal/models/router.go:79-140 | the models of the list, the requested one alone if it is not the primary, are visited in order up to the first success, each as a visit goes; "all in cooldown" is answered exactly when every one was skipped; over the whole history no model is called during its cooldown and every cooldown fits the failures since the last success |
| `Router.Router.TryModel` | internal/models/router.go:106-134 | one model's calls are transient failures and one last call of any kind; its result decides success, cooldown or neither |
| `Router.Router.Visit` | internal/models/router.go:84-134 | a model is skipped exactly when the log has a cooldown of it since its last success that still lasts; it is called exactly when it is not skipped, known and admitted; every call is one the provider answered; the calls end with a success, a permanent error, the last retry, or an interrupted sleep |
| `Router.AvailableIff` | internal/models/cooldown.go:90-116 | the tracker refuses a model exactly while such a cooldown lasts |
| `Router.CallsAreBounded` | internal/models/router.go:106-128 | one request makes at most (retries + 1) calls per listed model |
| `Router.CoolStep` | internal/models/router.go:131-134 | noting a transient failure keeps the whole history's cooldown laws |
| `Router.Router.SetModels` | internal/models/router.go:65-72 | changes the list for later requests and keeps the history's laws |
| `RouterRuns.CallDuringCooldownWasCheckedBefore` | internal/models/router.go:85-134 | with any number of requests interleaved: a model called during the cooldown in force was found available before that cooldown was set, and another request set it |
| `RouterRuns.AloneIsSafe` | internal/models/router.go:85-134 | in every run in which no two requests are busy with one model at once no model is called during its cooldown |
| `RouterRuns.ClashIff` | internal/models/router.go:85-134 | from any reachable state the requests under way can end up calling a model during its cooldown if and only if one with calls left has its model in cooldown already or shares it with another request |
| `RouterRuns.InCooldownIff` | internal/models/cooldown.go:83-116 | a model is in cooldown exactly when its last note in the log is a cooldown that still lasts |
| `RouterRuns.OverlapCallsDuringCooldown` | internal/models/router.go:85-134 | a run of two requests in which one calls the model during the cooldown that the other has set |
| `RouterRuns.CooldownsHaveTheirLength` | internal/models/cooldown.go:55-80 | interleaved or not, each cooldown has the length the failures since the last success demand |
| `SessionLock.Agent.LookUp` | internal/agent/agent.go:167-178 | finds the key's lock or makes one, counts the caller, keeps the invariant |
| `SessionLock.Agent.Take` | internal/agent/agent.go:178-179 | taking the free mutex enters the key's critical section |
| `SessionLock.Agent.Unlock` | internal/agent/agent.go:182-183 | leaves the critical section |
| `SessionLock.Agent.Release` | internal/agent/agent.go:184-189 | uncounts the caller; the entry goes exactly with the last one |
| `SessionLock.Agent.Run` | internal/agent/agent.go:157-190 | every schedule of any number of goroutines leaves them and the log where its steps lead, with entry allowed exactly when the log has nobody inside the key, and keeps the logged critical sections of a key apart |
| `SessionLock.Agent.MutualExclusion` | internal/agent/agent.go:569-575 | two goroutines inside the same key are the same goroutine |
| `SessionLock.Agent.OneLockPerKey` | internal/agent/agent.go:167-180 | two goroutines hold the same lock object exactly when they are on the same key |
| `SessionLock.Agent.EntryWhileUsed` | internal/agent/agent.go:157-190 | the table has an entry exactly while someone is between acquire and release on the key |
| `SessionLock.Agent.EmptyWhenIdle` | internal/agent/agent.go:157-190 | the table is empty when nobody is |
| `SessionLock.Agent.WaitsForOneWhoCanStep` | internal/agent/agent.go:167-190 | whoever waits, waits for a holder of its key that can unlock, or can step itself |
| `SessionLock.FirstLeavesBeforeSecondEnters` | internal/agent/agent.go:569-575 | between two entries on one key the first goroutine has left |
| `Cron.Job.ScheduleJob` | internal/cron/cron.go:460-487 | sets the timer to the clamped wait plus backoff and records the expected time, for interval jobs, spec jobs and jobs without a readable schedule |
| `Cron.TimerWaitMeans` | internal/cron/cron.go:444-487 | the timer gets the wait, never negative, and for a job with errors its interval on top, doubled by each error after the first up to the eleventh, at most four hours |
| `Cron.OtherWaits` | internal/cron/cron.go:523-567 | before its anchor a job waits for it; one without interval waits for the next time of its spec, or an hour |
| `Cron.Job.Record` | internal/cron/cron.go:595-614 | keeps the start in whole milliseconds and counts errors in a row |
| `Cron.ErrorsAreInARow` | internal/cron/cron.go:595-614 | after any rounds the state counts the failures since the last success and keeps the last start in whole milliseconds |
| `Cron.BackoffGrows` | internal/cron/cron.go:444-458 | one interval after the first error, doubled by each further one up to the eleventh, never shrinking, cut off at four hours |
| `Cron.MillisecondsSuffice` | internal/cron/cron.go:543-546 | storing whole milliseconds never moves a start across a slot boundary |
| `Cron.FiresNowIfMissed` | internal/cron/cron.go:538-555 | wake mode "now" fires at once exactly when the present slot has seen no run (or the stored time reads as never), otherwise the wait ends at the next slot |
| `Cron.NextSlotIsLater` | internal/cron/cron.go:460-567 | after a start, the next round starts in a later slot, for both wake modes, any failures, any lateness |
| `Cron.RepeatsOnlyIfUnrun` | internal/cron/cron.go:543-552 | a slot can see a second start if and only if the first one's stored time reads as never run |
| `Cron.SlotsIncrease` | internal/cron/cron.go:460-567 | in every run driven by the job's own timer the starts lie in strictly increasing slots from the anchor on |
| `Cron.AtMostOncePerSlot` | internal/cron/cron.go:460-567 | no slot sees two starts |
| `Cron.PunctualStartIsAligned` | internal/cron/cron.go:538-555 | a punctual timer after a short successful run starts exactly at the next slot's beginning |
| `CronRuns.Manager.TryStart` | internal/cron/cron.go:575-583 | a run starts exactly when no run of that job ID is executing |
| `CronRuns.Manager.Finish` | internal/cron/cron.go:584-588 | the end of a run reopens the guard for its ID only |
| `CronRuns.Manager.Remove` | internal/cron/cron.go:332-348 | removing a job stops its timer and leaves the guard of its run in place |
| `CronRuns.Manager.SetEnabled` | internal/cron/cron.go:353-384 | disabling stops the timer, enabling sets one once the manager is started; the guard is left in place |
| `CronRuns.Manager.Run` | internal/cron/cron.go:570-588 | any schedule of timers, manual runs, ends and edits leaves jobs, timers, runs and log where its steps lead; in the whole log, of two starts of one job ID the first run has ended before the second starts |
| `CronRuns.GuardKeepsApart` | internal/cron/cron.go:575-588 | a guard that looks only at the present keeps all runs of one job apart over the whole log |
| `MMR.Rerank` | internal/eidetic/mmr.go:14-71 | short inputs and nonpositive limits return the input; otherwise the picks start with the first entry, each next one has the greatest score among the rest and is the earliest with it, and selection ends at the limit, at the end, or when every score is at or below the least float; the length is min(limit, length) unless all the weight is on a least float |
| `MMR.GreedyUnique` | internal/eidetic/mmr.go:36-69 | that description determines the ranking |
| `MMR.ScoreMeans` | internal/eidetic/mmr.go:44-55 | the score is the weighted relevance less the penalty, which has the rest of the weight |
| `MMR.PicksAreDistinct` | internal/eidetic/mmr.go:36-69 | no position is picked twice |
| `MMR.RankingIsFull` | internal/eidetic/mmr.go:36-69 | with a weight in [0,1] and not all of it on a least float, selection does not stop before every entry is picked; Rerank's result then has length min(limit, length) |
| `MMR.StopsEarlyIff` | internal/eidetic/mmr.go:38-66 | with a weight in [0,1] and floats as relevances, selection stops early if and only if all the weight is on relevance and every entry left has the least float |
| `MMR.PureRelevanceKeepsOrder` | internal/eidetic/mmr.go:7-13 | weight one on sorted input returns the leading entries |
| `MMR.DiversityBreaksTies` | internal/eidetic/mmr.go:44-61 | below weight one, among equally relevant entries the pick is least similar to the earlier picks |
| `MMR.RemoveVal` | internal/eidetic/mmr.go:132-139 | drops the first occurrence of the value, if there is one, and keeps the order |
| `MMR.ContentSimilarity` | internal/eidetic/mmr.go:76-95 | the counting loop computes common words over all words |
| `MMR.SimilarityIsShare` | internal/eidetic/mmr.go:73-95 | it is the number of common words over that of all words |
| `MMR.SimilarityLaws` | internal/eidetic/mmr.go:73-95 | similarity is symmetric, in [0,1], one exactly for equal nonempty word sets, zero exactly for disjoint ones |
| `MMR.WordSet` | internal/eidetic/mmr.go:97-121 | one pass finds exactly the maximal words of more than one character, lower-cased |
| `MMR.CharactersMean` | internal/eidetic/mmr.go:116-130 | words are made of letters, digits and underscores, and compared in lower case |
| `MMR.MaxSimIsUpperBound` | internal/eidetic/mmr.go:44-52 | the penalty is at least the similarity to every picked entry |
| `MMR.MaxSimIsReached` | internal/eidetic/mmr.go:44-52 | and is the similarity to one of them |

## Left out

- Channel bots, gateway, WebSocket and event serving, browser, shell, MCP and embedding code: I/O around the modelled
  core.
- Error texts, durations and progress callbacks of dispatched tasks, none of which decides anything.
- Real time, JSON, HTTP: clocks are parameters, JSON validity is a parameter of the encoder, streams are sequences of
  parsed events. Usage totals per session are not modelled.
- Floats are reals and machine integers are unbounded: rounding and overflow (a backoff base of more than a hundred
  days, say) are outside the model. Truncation to nanoseconds and milliseconds is modelled.
- Go strings are sequences of characters: byte offsets inside a multi-byte character and Unicode white space beyond
  the ASCII characters are not distinguished.
- Fairness of mutexes and channels: progress is stated as "some step is possible" and "runs are bounded", not as
  scheduling guarantees.
- TaskQueue.Manager.Cancel: records are named by ID instead of shared by reference, so aliasing between the list and
  the running index is not represented; announcements and disk saves are left out.
- TaskQueueRuns.CallbackExactlyOnce: every submitted task has a callback; one submitted without any is the same run
  with nothing to call.
- RateLimiter.Limiter.Wait: a bound on the passes looked at stands for a loop that need not end, and what the
  conversion to nanoseconds makes of a division by a zero rate is a parameter.
- Router.Router.Chat: describes requests one after another; interleaved ones are the subject of RouterRuns, which
  leaves the order of the list to each request. The streaming variant has the same loop and is not repeated; the
  lengths of backoff sleeps, retry hints and per-model timeouts are left out, as are the unused sweep and reset of
  cooldowns.
- Cron.SlotsIncrease: covers jobs of kind "every"; what a spec string stands for is a parameter of the schedule.
  Manual runs are covered by the guard in CronRuns but not by the slot theorem, which is about the job's own timer.
- SessionStore.Manager.GetHistory: skipped corrupt lines, timestamps, the reaping loop and a failing removal of an
  expired file are left out.
- AgentLoop.Loop: image parts, streaming callbacks, hooks, loop detection details, usage and the text of the reply
  (its messages are there) are left out; which iteration ends the turn is arbitrary input.
- TokenChunks.CompactHistory: the retries and fallbacks of a chunk's summary are one arbitrary function.
- FenceChunker.SmartChunk: healed pieces may exceed the limit by the added fence lines, so the bound is on raw pieces.
- MMR.RemoveVal: works on a sequence value, so the shifting inside the shared backing array is not represented.
- Image content in the encoder, the write lock across processes, loop detection thresholds, the memory retry queue,
  config and migration: easy or resting on assumptions about the operating system.
