# ElastraX: a verified model of the plumbing

ElastraX is a chat bot. This project models the parts of it that keep messages,
locks, budgets and tables in order, and proves what they are there for. One
module stands for one component:

- **Durable messaging.** `Outbox` and `Inbox` are the two SQLite tables with
  every statement as one atomic step; `OutboxRuns` and `InboxRuns` take any
  sequence of statements. `Delivery`, `DeliveryProof` and `DeliveryLimits` put
  the agent's own send and the pollers on one clock: a message is delivered at
  most once *exactly when* the agent spends less than 5 s and a poller less than
  105 s around its send.
- **Stream decoding.** `Sse` proves the incremental decoder against a scan of the
  whole text, for every way of cutting it; `SseClient` is the client's loop around
  it, and `SsePrint` closes the circle with every way of writing events down. `Utf8`
  is the encoding and the lossy decoding of the WHATWG Encoding Standard.
- **The turn.** `TurnBudgets` is the per-turn budget, `ToolRun` its worker pool in
  any interleaving, `AgentLoop` the inference loop for any model and any tools.
- **Concurrency.** `FlowLock` and `FlowSession` are the promise-chain lock and the
  sessions written under it; `Semaphore` and `SemaphoreRuns` the cancellable
  semaphore; `Lease`, `LeaseRuns` and `Startup` the database lease, its heartbeat
  and the migration section; `ProcessRun` a bounded child process.
- **Fast form against simple form.** `ToolIndex` and `ToolWords` (inverted index
  against scoring every tool by its words), `Retention` (batches against one filter), `Media` (JPEG marker walk
  against the segment grammar), `RoomKeyFormat` and `RoomRegistry` (keys that read
  back, and who can share one), `Throttle` (a fixed window against every interval).

`Prelude` and `Strings` hold small helpers. Methods of classes follow the code; they
say what they do to each field and are proved equal to functions on values, which
the lemmas are about.
`dafny verify dfyconfig.toml` checks everything.

Where code and comments disagree the model follows the code. The proofs turned up
the following, each stated with the exact condition where there is one:

- A late direct send, or a late poller, is overtaken (`DeliveryLimits.SlackIsExact`).
  A direct send is a second delivery exactly when its key has been delivered
  (`DeliveryLimits.RepeatedKeyIsSentAgain`). A write-back marks its row exactly when
  the provider id is free in the room; otherwise it gives the row up after a poller's
  last attempt (`DeliveryLimits.WriteBackExactly`), and before that a poller sends the
  message again (`DeliveryLimits.ClashedSendIsRepeated`).
- The comment on `prune` says failed outbox rows are never claimed; a failed row that
  it removes was due to be claimed (`OutboxRuns.PrunedFailureWasDue`).
- A task that rejects with `undefined` leaves a hole in the results
  (`ToolRun.UndefinedRejectionLeavesHole`).
- Versions start again after a clear deletes the session: an old version is accepted
  again exactly when as many writes went through since
  (`FlowLock.DeletionRepeatsVersions`). A clear that falls back writes a session
  without its lock: call order holds after every step exactly when no such clear
  writes something other than what is stored (`FlowLock.RunsInCallOrder`); one that
  has read the session as it is always does (`FlowLock.IntruderBreaksOrder`), and a
  set beside it can be lost (`FlowLock.FallbackLosesUpdate`).
- A semaphore leaves a fitting head waiting exactly when an abort uncovers one
  (`SemaphoreRuns.HeadNeverFitsExactly`). A request above the capacity blocks the
  queue for good (`SemaphoreRuns.OversizedHeadBlocks`); any other is served once all
  permits in use come back (`SemaphoreRuns.HeadServedExactly`).
- One process can run while another migrates (`Startup.RunsWhileAnotherMigrates`),
  exactly when a runtime lease is granted during a migration
  (`Startup.ApartExactly`); a heartbeat is in time only for leases of
  more than a second (`LeaseRuns.BeatsInTime`).
- Two rooms share a key exactly when a colon of one platform is where the other pair
  is divided (`RoomKeyFormat.SharedKeyExactly`), and a room shares its key with some
  other exactly when the key can be divided at another colon
  (`RoomKeyFormat.SharesKeyExactly`).
- An admission trips over the inbox's second unique index exactly when its provider
  id, spelt with a Kelvin sign, is "unknown" to JavaScript but not to SQLite and is
  there already (`InboxRuns.ProviderIndexExactly`).
  The `created` flag of `resolveOrCreateRoomKeySync` is also true for a caller that
  lost the race, although its comment says otherwise (`RoomRegistry.Registry.Register`).
- A directory scan under way when a process run settles can still send a signal
  (`ProcessRun.QuietAfterSettling`).

## Model

| member | source | states |
|---|---|---|
| Utf8.DecodeEncode | src/ai/turnBudget.ts:130-143 | lossy decoding of whole encoded text gives the text back |
| Utf8.OnlyEncodedTextDecodes | src/ai/turnBudget.ts:143 | bytes that decode without a U+FFFD are the encoding of what they decode to |
| Utf8.DecodeCut | src/ai/turnBudget.ts:143 | decoding a cut encoding gives the characters that fit, plus one U+FFFD when the cut falls inside a character |
| Utf8.TruncationKeepsPrefix | src/ai/turnBudget.ts:143 | cutting, decoding and stripping one U+FFFD leaves a prefix of whole characters that fits |
| Utf8.KeptPrefixIsLongest | src/ai/turnBudget.ts:143 | that prefix is the longest that fits, unless the longest ends in a literal U+FFFD |
| Strings.TrimSplits | src/messaging/OutboxService.ts:56 | trimming removes white space at both ends and nothing else |
| Strings.SpacesAreKnown | src/messaging/OutboxService.ts:56 | white space is the white space and line ends of ECMAScript, by code point |
| Strings.SignificantExactly | src/db/schema.ts:396 | the unique indexes pass over an empty id, unknown and null, in any case and with blanks around |
| Strings.LowerAsciiLetters | src/db/schema.ts:396 | lower case changes the 26 capitals to their letters and nothing else |
| TurnBudgets.NormalizeLimit | src/ai/turnBudget.ts:44-47 | a limit is at least 1, at most its ceiling, and otherwise the request rounded down or the default |
| TurnBudgets.TurnBudget.constructor | src/ai/turnBudget.ts:66-79 | valid limits, with the fallbacks between them, and zero counters |
| TurnBudgets.TurnBudget.ClaimToolCalls | src/ai/turnBudget.ts:81-92 | a batch is claimed whole or not at all |
| TurnBudgets.TurnBudget.BeginParallelCall | src/ai/turnBudget.ts:94-102 | one more running call, or an error and no change at the limit |
| TurnBudgets.TurnBudget.EndParallelCall | src/ai/turnBudget.ts:104-106 | one running call fewer, never below zero |
| TurnBudgets.TurnBudget.RecordToolResult | src/ai/turnBudget.ts:108-127 | bytes are added to the total, or one of three errors and no change |
| TurnBudgets.TurnBudget.ConstrainTextResult | src/ai/turnBudget.ts:129-149 | the text or its longest fitting prefix, with its bytes recorded; fails only when no byte is left; the trimming loop is never entered |
| TurnBudgets.TotalsAreSums | src/ai/turnBudget.ts:81-149 | over any call sequence the totals are the sums of what was accepted and stay within the limits |
| TurnBudgets.ConstrainSucceedsWhileBytesRemain | src/ai/turnBudget.ts:129-149 | a text result is accepted if and only if the total is below its limit |
| ToolRun.PoolSafety | src/ai/turnBudget.ts:151-185 | in every interleaving no task starts twice, running calls stay within the limit, the counter is their number and ends at zero, and an unfinished pool has a worker that can move |
| ToolRun.PoolResults | src/ai/turnBudget.ts:151-185 | an error is reported if and only if some task failed visibly; otherwise each slot holds its own task's result, except for rejections with undefined |
| ToolRun.ErrorStopsStarts | src/ai/turnBudget.ts:161-176 | after the first error nothing starts and the error stays |
| ToolRun.UndefinedRejectionLeavesHole | src/ai/turnBudget.ts:170-171 | a task rejecting with undefined: the run succeeds with an empty slot |
| AgentLoop.ExchangeKeepsWellFormed | src/agent/index.ts:1154-1175 | an assistant message followed by one result per call, same ids, names and order, keeps the transcript well formed |
| AgentLoop.RunCall | src/agent/index.ts:268-334 | one call: it runs iff the name, trimmed and without slashes, means a registered tool that is permitted under its own name, and the arguments are well formed; its output is a prefix of the tool's within the budget, none iff the tool fails or no byte is left; what throws and what discovery adds |
| AgentLoop.NameIsNormalised | src/tools/registry.ts:370-375 | white space around a requested name and slashes before it make no difference |
| AgentLoop.ExecuteRequestedToolCalls | src/agent/index.ts:229-338 | one result per call in order; a refused batch runs nothing; of an accepted one exactly the permitted and well-formed calls are run, once each and in order, and their outputs are the results; discovery stays within the permitted tools |
| AgentLoop.Infer | src/agent/index.ts:1065-1270 | for any model and tools: every prompt is well formed and continues the one before by the reply and its results; a batch is run exactly when the calls claimed so far leave room for all of it, and then every permitted call of it is; the model is shown the outputs; bytes within the total; at most maxToolIterations model calls; the final text is the usable text of a last reply without tool calls, else the error text |
| Outbox.NormalizedText | src/messaging/OutboxService.ts:55-63 | the stored text is the trimmed text or a fitting prefix with the suffix, and is empty only for blank text |
| Outbox.OutboxService.EnqueueText | src/messaging/OutboxService.ts:79-113 | a pending row, or the row that already has the key |
| Outbox.OutboxService.EnqueueDirectText | src/messaging/OutboxService.ts:122-133 | the same, out of the pollers' reach for the grace period |
| Outbox.OutboxService.RecordTextDelivered | src/messaging/OutboxService.ts:135-169 | a row that is sent from the start, or the row that already has the key |
| Outbox.OutboxService.Select | src/messaging/OutboxService.ts:173-188 | the rows taken are due and of a listed platform, at most max(1, min(50, limit)); a due row is left only when that many come before it by availability and creation time |
| Outbox.OutboxService.Claim | src/messaging/OutboxService.ts:173-238 | those rows spend an attempt and are leased for two minutes, or are dead when they hold no text; every other row is unchanged; the texts are handed over once each and in order |
| Outbox.OutboxService.MarkEnqueuedSent | src/messaging/OutboxService.ts:268-283 | sent from pending or failed; a constraint error exactly on a used provider id |
| Outbox.OutboxService.MarkSent | src/messaging/OutboxService.ts:285-296 | sent by the lease owner only |
| Outbox.OutboxService.Fail | src/messaging/OutboxService.ts:298-326 | the owner's row fails or is dead-lettered at five attempts; the verdict says which |
| Outbox.OutboxService.Prune | src/messaging/OutboxService.ts:333-343 | old failed and dead-lettered rows go, and the count is theirs |
| Outbox.OutboxService.RetryOutbox | src/admin/data.ts:456-474 | only failed or dead-lettered rows go back to pending with no attempts |
| OutboxRuns.StepKeepsInv | src/messaging/OutboxService.ts:79-343 | each statement, admin retry included, keeps the row invariant and both unique indexes |
| OutboxRuns.EmptyHolds | src/messaging/OutboxService.ts:79-343 | the empty table has the invariant |
| OutboxRuns.RunKeepsInv | src/messaging/OutboxService.ts:79-343 | in every run: one row per key; leased iff both lease fields are set; pending has 0 attempts, failed 1 to 4 |
| OutboxRuns.SentIsForever | src/messaging/OutboxService.ts:171-343 | a sent row never changes |
| OutboxRuns.DeadLetterStays | src/messaging/OutboxService.ts:171-343 | without an admin retry a dead letter never changes |
| OutboxRuns.GoneStaysGone | src/messaging/OutboxService.ts:333-343 | a pruned id never returns |
| OutboxRuns.ClaimsAreBounded | src/messaging/OutboxService.ts:171-326 | without lease expiry or admin retry a row is claimed at most five times |
| OutboxRuns.ExpiryAllowsAnyNumberOfClaims | src/messaging/OutboxService.ts:182 | with expiring leases any number of claims is possible |
| OutboxRuns.PrunedFailureWasDue | src/messaging/OutboxService.ts:328-341 | a failed row pruned after more than the back-off was due for the next claim |
| DeliveryProof.LiveIsNotClaimable | src/agent/index.ts:156-189 | while a send in time is going on no poller can claim its row |
| DeliveryProof.NotYetDelivered | src/runtime/AppRuntime.ts:872-897 | the message of a send still going on has not been delivered |
| DeliveryProof.SettleMarksSent | src/messaging/OutboxService.ts:268-296 | the write-back of a delivery in time always marks the row sent |
| DeliveryProof.StepKeepsInv | src/runtime/AppRuntime.ts:854-897 | every event of the timed system keeps the delivery invariant |
| DeliveryProof.DeliveredAtMostOnce | src/agent/index.ts:156-189 | in every timed run in which senders keep within their slack no message is delivered twice, streamed messages included |
| DeliveryLimits.SlackIsExact | src/messaging/OutboxService.ts:27 | at most one delivery in every run if and only if the agent's slack is below 5 s and a poller's below 105 s |
| DeliveryLimits.LateAgentIsOvertaken | src/agent/index.ts:1288-1304 | with 5 s of delay the agent's message is delivered a second time by a poller |
| DeliveryLimits.LatePollerIsOvertaken | src/runtime/AppRuntime.ts:872-897 | with 105 s of delay a poller's message is delivered again after the lease |
| DeliveryLimits.RepeatedKeyIsSentAgain | src/agent/index.ts:167-185 | from every world and under any timing a direct send is a second delivery if and only if a message with its key has been delivered |
| DeliveryLimits.KeysMustBeFresh | src/agent/index.ts:167-185 | any text sent twice under one key is delivered twice |
| DeliveryLimits.WriteBackExactly | src/messaging/OutboxService.ts:268-320 | the write-back of either kind of sender marks its open row if and only if no other row of the room carries the provider id; on a clash a poller's fifth attempt gives the row up, and otherwise the row is due again from a stated time on |
| DeliveryLimits.AbandonExactly | src/runtime/AppRuntime.ts:892-896 | a send given up leaves the agent's row alone; a poller's own row is given up at five attempts and otherwise fails and is due 5 s later |
| DeliveryLimits.ClashedSendIsRepeated | src/runtime/AppRuntime.ts:872-897 | from every world in which only this send goes on, the agent's or a poller's before its fifth attempt: after a clashing write-back the first poller that selects the row delivers the message again |
| DeliveryLimits.ProviderIdsMustBeFresh | src/runtime/AppRuntime.ts:854-897 | two messages of a room with one provider id: the second is delivered twice, whatever the timing and though every key is fresh |
| Inbox.InboxService.Admit | src/messaging/InboxService.ts:46-84 | one row per event; the answer says new, duplicate, completed or dead, and the constraint error comes exactly on a new event whose provider id the chat has |
| Inbox.InboxService.Claim | src/messaging/InboxService.ts:112-124 | the claim, and exactly when it succeeds |
| Inbox.InboxService.Complete | src/messaging/InboxService.ts:126-137 | only the lease owner completes |
| Inbox.InboxService.DeferUnclaimed | src/messaging/InboxService.ts:139-150 | only a received row is deferred, with one attempt spent |
| Inbox.InboxService.Fail | src/messaging/InboxService.ts:166-189 | the owner's row fails or is dead-lettered; the verdict says which |
| Inbox.InboxService.RecoverStranded | src/messaging/InboxService.ts:198-221 | stranded rows fail, expired ones are received again, and both counts are right |
| InboxRuns.StepKeepsInv | src/messaging/InboxService.ts:46-221 | each statement keeps the row invariant and the unique event key |
| InboxRuns.RunKeepsInv | src/messaging/InboxService.ts:46-221 | in every run: one row per (platform, event key), processing iff a lease is set |
| InboxRuns.ProviderIndexExactly | src/messaging/InboxService.ts:32-62 | an admission trips over the second unique index if and only if its provider id is one that JavaScript lower-cases to unknown and SQLite does not, and a row of the chat has it |
| InboxRuns.KelvinIsDisputed | src/messaging/InboxService.ts:34 | only ids with a Kelvin sign are such, and one is |
| InboxRuns.FinishedIsForever | src/messaging/InboxService.ts:112-221 | completed and dead-lettered rows never change |
| InboxRuns.CompletedAtMostOnce | src/messaging/InboxService.ts:126-137 | complete returns true at most once per event |
| InboxRuns.ClaimsAreSpaced | src/messaging/InboxService.ts:112-221 | two successful claims with no failure between are at least 120 s apart |
| InboxRuns.ClaimAtExpiry | src/messaging/InboxService.ts:112-124 | and 120 s are enough |
| Sse.SSEDecoder.Push | src/ai/sse.ts:38-50 | the new state and the events of one chunk |
| Sse.SSEDecoder.Finish | src/ai/sse.ts:52-63 | the last line and the last event; the second limit check of drain is never reached |
| Sse.SSEDecoder.Process | src/ai/sse.ts:96-121 | one line, or the event limit error |
| Sse.DrainHolds | src/ai/sse.ts:65-94 | after any text the buffer is the unfinished line, without a line break except one final CR |
| Sse.DrainIsReference | src/ai/sse.ts:65-94 | draining a whole text feeds the lines that a character scan finds (section 9.2.6 of the WHATWG HTML standard) |
| Sse.DecodingIgnoresChunking | src/ai/sse.ts:38-142 | for every text and every cutting the decoder succeeds iff no event is too large and no chunk overflows, and then gives the events of the reference |
| Sse.FittingFailsByEvent | src/ai/sse.ts:38-102 | while the chunks fit the only error is the event limit |
| Sse.OverflowFails | src/ai/sse.ts:38-46 | a chunk that does not fit with what is held is the buffer limit error |
| SseClient.DecodeStream | src/ai/client.ts:516-560 | the client's loop: it ends at the [DONE] event exactly when that arrives before a limit error, and hands over the reference's events up to it; before a limit error a prefix of those |
| SseClient.DoneIsSpelt | src/ai/client.ts:523-528 | the event that ends a stream says [DONE] with nothing but white space around |
| SseClient.ReadsReference | src/ai/client.ts:516-560 | a stream within the limits is handed over whole, up to its [DONE] event |
| SsePrint.PrintedEventsComeBack | src/ai/sse.ts:38-142 | events come back under any chunking however they are written: fields in any order, with or without the space behind the colon, with comments, unknown fields and fields without a colon between them, lines ended by LF, CR or CRLF, the last record open or closed; a record over the size limit is the event limit error |
| FlowSession.SetActivates | src/core/FlowHandler.ts:221-246 | a set that goes through stores its flow with the expiry asked for (1 s to a day, else 300 s), makes it active, and keeps exactly the unexpired others |
| FlowSession.FlowLivesExactly | src/core/FlowHandler.ts:83-94 | after a later set of another flow a flow is still there if and only if its expiry has not passed |
| FlowSession.ClearRemoves | src/core/FlowHandler.ts:343-350 | a clear that goes through removes exactly its flow, or deletes the session when it was the last |
| FlowSession.EffectKeepsSound | src/core/FlowHandler.ts:225-243 | after every write the active flow is null iff no flow remains and otherwise names a live flow |
| FlowSession.UserSession.SelectFallbackActiveFlow | src/core/FlowHandler.ts:76-80 | the active flow when it is there, else the last one |
| FlowSession.UserSession.PruneExpiredFlows | src/core/FlowHandler.ts:82-93 | deleting one by one keeps exactly the unexpired flows, in order, and reports whether any went |
| FlowSession.UserSession.CountVersion | src/core/FlowHandler.ts:177-178 | the version counts up and is stamped on every flow |
| FlowLock.StartHolds | src/core/FlowHandler.ts:56 | with no caller yet the invariants hold for whatever is stored |
| FlowLock.StepKeepsLock | src/core/FlowHandler.ts:137-154 | every step of every caller keeps the lock invariant |
| FlowLock.LockSafety | src/core/FlowHandler.ts:137-154 | in every run the tasks of a key run one at a time in call order, and the map holds a key exactly while one of its calls is unfinished |
| FlowLock.NoDeadlock | src/core/FlowHandler.ts:137-154 | the first unfinished call of a key can always move |
| FlowLock.CallOrderStep | src/core/FlowHandler.ts:221-246 | a step keeps the call order of a key if and only if it is no clear of another key that writes something other than what is stored |
| FlowLock.RunsInCallOrder | src/core/FlowHandler.ts:221-246 | however callers interleave, after every step the session and all outcomes are those of running the key's tasks one after another in call order, if and only if no clear of another key changes the session |
| FlowLock.NoFallbackKeepsOrder | src/core/FlowHandler.ts:336-342 | a key that no call falls back on never meets such a clear |
| FlowLock.IntruderBreaksOrder | src/core/FlowHandler.ts:343-350 | a clear of another key that read the session as it is and goes through always changes it and breaks the call order |
| FlowLock.ReplayIsSound | src/core/FlowHandler.ts:221-246 | any history of tasks leaves a sound session |
| FlowLock.VersionCountsWrites | src/core/FlowHandler.ts:176-178 | while nothing deletes the session its version counts the writes |
| FlowLock.SameVersionTwice | src/core/FlowHandler.ts:227 | of two calls that expect the same version only the first goes through, unless a clear deletes the session between |
| FlowLock.OneSetSucceeds | src/core/FlowHandler.ts:227 | in a history of sets with one expected version exactly the first succeeds when it is the version, and none otherwise |
| FlowLock.ConcurrentSets | src/core/FlowHandler.ts:221-246 | concurrent sets on one key with one expected version, in any interleaving: exactly the first in call order succeeds when it is the version, the others conflict, and the version rises by one |
| FlowLock.DeletionRepeatsVersions | src/core/FlowHandler.ts:347-349 | after any history with a deletion, a set that expects a version goes through if and only if that many writes went through since the last deletion |
| FlowLock.VersionZeroAgain | src/core/FlowHandler.ts:347-349 | for every session: after a clear of its only flow every set that expects version 0 goes through |
| FlowLock.FallbackLosesUpdate | src/core/FlowHandler.ts:336-350 | for every session, clear and set that are not stale: both report success and what is left is what the clear alone makes of the old session |
| Semaphore.DrainTakesPrefix | src/providers/semaphore.ts:78-91 | draining grants the longest fitting prefix of the queue and moves exactly its permits |
| Semaphore.CancellableSemaphore.TryAcquire | src/providers/semaphore.ts:31-36 | granted iff the count is valid and fits |
| Semaphore.CancellableSemaphore.Acquire | src/providers/semaphore.ts:38-58 | granted, queued or refused |
| Semaphore.CancellableSemaphore.Abort | src/providers/semaphore.ts:49-53 | an abort removes its own waiter and nothing else |
| Semaphore.CancellableSemaphore.Release | src/providers/semaphore.ts:69-76 | permits come back and the queue is served; an excess is refused |
| SemaphoreRuns.SemaphoreSafety | src/providers/semaphore.ts:31-91 | in every run, with releases of any counts, available plus used is the capacity, used is what was granted less what was released, every call settles exactly once or waits, and queued calls are granted in order |
| SemaphoreRuns.HeadBlockedAfterRelease | src/providers/semaphore.ts:69-91 | after every release the queue is empty or its head does not fit |
| SemaphoreRuns.NoIdlePermit | src/providers/process.ts:88-97 | with unit requests nobody waits while a permit is free, aborts included |
| SemaphoreRuns.FittingHeadStep | src/providers/semaphore.ts:38-91 | an operation leaves a head that fits if and only if it aborts the head in front of a waiter that fits |
| SemaphoreRuns.HeadNeverFitsExactly | src/providers/semaphore.ts:38-91 | over every run the head never fits after an operation if and only if no such abort happens |
| SemaphoreRuns.AbortLeavesFittingHead | src/providers/semaphore.ts:49-53 | for every capacity of two or more such an abort is reached |
| SemaphoreRuns.OversizedHeadBlocks | src/providers/semaphore.ts:38-58 | a request above the capacity at the head blocks every later one until it is aborted |
| SemaphoreRuns.HeadServedExactly | src/providers/semaphore.ts:69-91 | with permits in use, the release of all of them grants the head if and only if it asks for no more than the capacity |
| Lease.LeaseTable.Acquire | src/db/runtime.ts:62-81 | taken iff free, expired or one's own; the row and its expiry |
| Lease.LeaseTable.Renew | src/db/runtime.ts:83-99 | renewed iff held and not expired |
| Lease.LeaseTable.Release | src/db/runtime.ts:115-122 | only the owner's row is removed |
| Lease.LeaseTable.IsActive | src/db/runtime.ts:101-113 | active iff somebody would be refused the lease, and then everybody but its owner would |
| LeaseRuns.StepKeepsInv | src/db/runtime.ts:62-122 | whoever still believes in an unexpired lease has the row |
| LeaseRuns.OneHolder | src/db/runtime.ts:62-122 | in every run at most one owner believes in an unexpired lease of a name |
| LeaseRuns.OthersStay | src/db/runtime.ts:62-122 | nobody touches another's unexpired lease, and a release never touches another's row |
| LeaseRuns.BeatsInTime | src/db/index.ts:94-109 | the heartbeat is faster than the lease iff the lease is over a second |
| LeaseRuns.PunctualHolderStays | src/db/index.ts:94-109 | a holder whose beats come less than the ttl apart is never displaced and all its beats succeed |
| Startup.StepKeepsSection | src/db/index.ts:225-276 | every step of every process keeps the section invariant |
| Startup.StepsAreGuarded | src/db/index.ts:212-286 | where each step leads: the section is entered with its lease, migration starts only while no runtime lease is active, a process runs on only while its heartbeats succeed |
| Startup.LeasesAreGivenUp | src/db/index.ts:94-109 | whoever leaves the section or stops running no longer has the lease |
| Startup.OneMigrates | src/db/index.ts:225-276 | in every run at most one process migrates, and at most one runs, under an unexpired lease |
| Startup.StartIsApart | src/db/index.ts:225-234 | with no process and an empty lease table the invariant holds |
| Startup.ApartStep | src/db/index.ts:238-276 | a step brings a running and a migrating process together if and only if it is granted the runtime lease while the owner of an active migration lease migrates |
| Startup.ApartExactly | src/db/index.ts:225-276 | in every run no process runs while another migrates if and only if no such step happens |
| Startup.AskingFirstIsEnough | src/db/index.ts:264-276 | taking the runtime lease only while no migration lease is active keeps them apart in every run |
| Startup.RunsWhileAnotherMigrates | src/db/index.ts:264-276 | the code does not ask, and for any two processes the overlap is reached |
| ProcessRun.BoundedProcess.OnStdout | src/providers/process.ts:221-228 | stdout is kept up to its limit, and more terminates the child |
| ProcessRun.BoundedProcess.OnStderr | src/providers/process.ts:230-235 | stderr is kept up to its limit, and more sets the flag |
| ProcessRun.BoundedProcess.OnAbort | src/providers/process.ts:183-188 | the first abort or timeout terminates the child, later ones do nothing |
| ProcessRun.BoundedProcess.OnError | src/providers/process.ts:237-242 | a child that never started rejects at once |
| ProcessRun.BoundedProcess.OnScanEnd | src/providers/process.ts:270-290 | a directory scan that finds too much terminates the child |
| ProcessRun.BoundedProcess.OnClose | src/providers/process.ts:244-260 | the outcome by termination, spawn error and exit code |
| ProcessRun.SettlesOnce | src/providers/process.ts:160-188 | in every order of callbacks the promise settles once, the first cause stays, and at most one termination signal is sent |
| ProcessRun.ResolvedRunsAreWhole | src/providers/process.ts:221-260 | a resolved run has the whole of stdout, and stderr whole or flagged and cut at its limit |
| ProcessRun.QuietAfterSettling | src/providers/process.ts:270-290 | after settling a signal is sent iff a directory scan under way finds too much |
| ToolIndex.ToolSearchIndex.Build | src/agent/ToolSearchIndex.ts:15-41 | tokens and postings are exactly the words of at least three characters and the tools that have them |
| ToolIndex.ToolSearchIndex.Search | src/agent/ToolSearchIndex.ts:43-67 | the answer is the best of all tools scored by hand: 3 per shared word, 1 for partial matches only while fewer than limit match, by score then name, cut at max(1, limit) |
| ToolWords.WordsExactly | src/agent/ToolSearchIndex.ts:19-41 | cutting finds exactly the maximal runs of word characters |
| ToolWords.WordCharacters | src/agent/ToolSearchIndex.ts:19-41 | word characters are the ASCII letters, the digits and the underscore |
| ToolWords.ContainsMeans | src/agent/ToolSearchIndex.ts:54 | containing a part means being that part with something before and behind it |
| ToolIndex.ToolSearchIndex.ExactScores | src/agent/ToolSearchIndex.ts:47-52 | the postings give three points for each query word an entry has |
| ToolIndex.BestIsUnique | src/agent/ToolSearchIndex.ts:63-66 | when no two names collate equal there is only one such answer |
| Retention.DeleteBatches | src/db/retention.ts:60-87 | for every batch size and every choice of batches the rows left are those one filter leaves, and the count is that of a dry run |
| Retention.ChangeBatches | src/db/retention.ts:89-121 | the same for clearing rows, which ends because a cleared row no longer matches |
| Retention.BatchSize | src/db/retention.ts:140 | for every finite size, and none, between 1 and 10000 |
| Retention.ClearThenDelete | src/db/retention.ts:143-157 | clearing raw parts changes neither which messages go nor how many |
| Retention.DisjointSweeps | src/db/retention.ts:166-203 | sweeps over disjoint states do not change each other's matches |
| Retention.Store.ApplyRetentionPolicy | src/db/retention.ts:123-220 | a live run reports the eight counts of a dry run and leaves what one filter per table leaves |
| Retention.SweptKeepsByAge | src/db/retention.ts:125-215 | what a live run keeps, table by table and in days, and which messages lose their raw parts |
| Retention.CountsAreLosses | src/db/retention.ts:142-215 | the counts are what each table loses, raw parts and the two sweeps of a delivery table on their own |
| Retention.SweptIsDone | src/db/retention.ts:143-213 | a second run finds nothing |
| Media.GetJpegDimensions | src/providers/media.ts:143-164 | the loop stays in bounds, ends, and computes the walk |
| Media.WalkFindsFrame | src/providers/media.ts:143-164 | after SOI, parts with fill bytes and a first frame header (sections B.1.1 and B.2.2 of ITU-T T.81): exactly its X and Y once it is wholly read, and nothing before |
| Media.LosslessReadsBack | src/providers/media.ts:180-185 | a VP8L header gives back its width and height |
| Media.LossyReadsBack | src/providers/media.ts:177-179 | a VP8 frame header gives back its width and height whatever the scales |
| Media.OtherHeadersGiveNothing | src/providers/media.ts:165-188 | there are dimensions if and only if the header is one of the three kinds |
| Media.ExtendedReadsBack | src/providers/media.ts:168-176 | a VP8X header gives back its width and height |
| RoomKeyFormat.ParsesBackExactly | src/core/roomKeyFormat.ts:44-68 | a key parses back to its trimmed pair iff the platform is non-empty and free of colons and the id non-empty |
| RoomKeyFormat.SharedKeyExactly | src/core/roomKeyFormat.ts:44-48 | two rooms have one key if and only if their trimmed pairs are equal or one platform is the other, a colon and some part, and the other id is that part, a colon and the first id |
| RoomKeyFormat.SharesKeyExactly | src/core/roomKeyFormat.ts:44-48 | a room shares its key with another room if and only if its key has a second colon that divides it in trimmed parts |
| RoomKeyFormat.KeysAreInjective | src/core/roomKeyFormat.ts:44-48 | colon-free platforms: equal keys come from equal rooms |
| RoomKeyFormat.ColonsCollide | src/core/roomKeyFormat.ts:44-48 | an instance: the platforms a:b and a |
| RoomKeyFormat.IdOnlyForItsPlatform | src/core/roomKeyFormat.ts:103-130 | the room id comes out for the key's platform and for no other |
| RoomKeyFormat.ReferenceAgrees | src/core/roomKeyFormat.ts:57-91 | both parsers agree on canonical keys |
| RoomKeyFormat.KeysAreSpelt | src/core/roomKeyFormat.ts:44-91 | how a key is spelt, and that a reference may go without the word at its head |
| RoomRegistry.TrimValue | src/db/rooms.ts:84-96 | an accepted value is a trimmed identifier, and a refused one is none |
| RoomRegistry.Utf16LengthAdds | src/db/rooms.ts:82-96 | a length counts one for each character and two beyond U+FFFF |
| RoomRegistry.Registry.Register | src/db/rooms.ts:272-298 | fails iff the room is unknown and another room has its key; else the room is found under its key |
| RoomRegistry.Registry.ResolveOrCreateRoomKey | src/db/rooms.ts:243-299 | the key of the pair, created iff it was missing, every row stays canonical |
| RoomRegistry.NeverFailsWithoutColons | src/db/rooms.ts:287-289 | without colons in platforms the registering error is never reached |
| RoomRegistry.EveryCallerIsServed | src/db/rooms.ts:243-299 | any number of callers in any order: each finds its room under the key of its pair |
| Throttle.LoginThrottle.Attempt | src/admin/auth.ts:230-240 | the verdict and the new buckets |
| Throttle.LoginThrottle.Prune | src/admin/auth.ts:246-250 | exactly the expired buckets go |
| Throttle.PruningChangesNothing | src/admin/auth.ts:221-251 | in every run pruning changes no verdict |
| Throttle.AtMostTwiceTheLimit | src/admin/auth.ts:221-251 | in every interval of one window length an address gets at most twice the limit |
| Throttle.TwiceIsReached | src/admin/auth.ts:221-251 | and twice the limit can be reached |

## Left out

- SseClient.DecodeStream: chunks are cut between characters, because the client's streaming text decoder never hands out part of one; blank events, and what the JSON of the others is made into, are not part of it.
- AgentLoop.RunCall: lower-casing is an arbitrary function; the rate limit and the queue of mutating tools count as part of the tool.
- Inbox.InboxService.Admit: of JavaScript's lower-casing only what can give ASCII letters is modelled.
- Sse.DecodingIgnoresChunking: a retry value is an exact number here, so the rounding of very large ones is not modelled.
- AgentLoop.Infer: the streamed edits of the live message, the model tier and the wording of error texts are not modelled; the model and the tools are arbitrary functions.
- ToolIndex.ToolSearchIndex.Search: lower-casing and collation are arbitrary functions, and the order among equal scores whose names collate equal is left open.
- RoomRegistry.Registry.Register: databases without the room_keys table are not modelled.
- Semaphore.CancellableSemaphore.constructor: takes a valid capacity; the error thrown for another is not modelled.
- Throttle.AtMostTwiceTheLimit: stated for a positive window; without one every attempt opens a new bucket.
- FlowLock.RunsInCallOrder: session writes outside the lock, the in-memory copy used after a database error, and flow ids that look like array indices (which JavaScript orders first) are not modelled.
- FlowSession.SetActivates: one instant stands for the two clock reads of a write, and a flow's data is an opaque text.
- DeliveryProof.DeliveredAtMostOnce: nobody crashes, a send that throws or is aborted delivers nothing, and retention sweeps do not run.
- FlowSession.UserSession.PruneExpiredFlows: a stored flow without a finite expiry counts as expired; one that is null is not modelled.
- Retention.BatchSize: NaN and infinite settings, which the maintenance job never passes, are not modelled.
- Startup.StepKeepsSection: the leaseName option, which renames or skips the runtime lease, is not modelled, and a process names the owner of both of its leases.
- JSON is a stored text or undecodable; digests are injective and UUIDs fresh.
- The room_key columns of inbox and outbox rows, diagnostic reads, and log lines.
- Error texts are cut at characters, not at UTF-16 units.
- The in-memory message queue, timers and provider adapters.
- SQLite itself: a statement or an immediate transaction is one step.
- Retention ages: every cutoff is a plain number; the units of the columns are not compared.
- The escalation to SIGKILL and the environment of a child process.
- PNG and GIF dimensions.
