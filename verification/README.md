# PipeLens: a verified model

PipeLens analyses failed GitHub workflow runs. A webhook stores a failed run as a row and puts it
into a Redis queue; workers take deliveries from the queue, run a six-stage pipeline, and write
what they do back to the row. This project models that delivery protocol, the unified-diff engine
behind suggested fixes, resolution tracking, keyset pagination, and three smaller algorithms, and
proves what they guarantee.

## How the model is laid out

| module | what it holds |
|---|---|
| `Domain` | shared vocabulary |
| `RedisQueue` | the Redis keys and every script as one atomic step; counting laws over entries |
| `QueueClients` | the Redis and in-process queue objects; the proof that they agree |
| `Rows`, `Resolutions`, `Paging` | the `analyses` table, what each transaction does to it, follow-up runs, the ordered list |
| `Store` | `AnalysisStore` as an object, one method per transaction |
| `Protocol`, `Safety`, `Timing`, `Delivery`, `Scenarios` | the transition system over any number of workers, its invariants, and schedules that show where its assumptions are needed |
| `Worker`, `Api` | the worker loop, its queue maintenance, the pipeline, the webhook and the reconciliation, each shown to be a sequence of protocol steps |
| `Lines`, `Patching`, `PatchSoundness`, `PatchRoundTrip`, `PatchInsertions`, `PatchExactness`, `PatchVerification` | `splitlines`, the hunk parser, locator and applier, what a successful application means, rendering and reading back, exactly when that succeeds, hunks without an old side, which patches are kept |
| `Codec`, `ErrorContext`, `ScannerTable`, `HttpRetry` | the pagination cursor, log windows, scanner tables, bounded retries |

The protocol takes each Lua script, each `BRPOPLPUSH` and each database transaction as one step.
Steps of all workers interleave freely with crashes, lease expiry, recovery, clock ticks, webhooks
and reconciliation. A worker's clock reading may be older than the transaction that stores it.
`Row.lastBegun`, `Row.mark` and `Event.writer` are history variables; no transaction reads them.

Where the source performs I/O or calls a library, the model takes a parameter: which stage body
raises, clock readings, fresh tokens, the category found, whether Redis fails, random jitter, the error-signal test,
`str.lower`, the secret scanner, policy patterns and document parsers, and the JSON form of a cursor.

## What the proofs found

- Completion is final in every interleaving, whatever leases do. The unfenced status write of the
  worker (`src/pipelens/worker.py:137` and `:142`) is harmless because at most one worker per run
  can owe it, and only on a FAILED row without a token.
- "An admitted QUEUED or RUNNING row has a queue entry" holds whenever leases lapse only for stopped
  workers. In general it holds throughout a run if and only if no worker acknowledges a held delivery
  of a row that is active again, and none sets a row back to QUEUED after its entry has gone
  (`Delivery.KeptExactlyWhenNoStepLoses`). `Scenarios.RunCanBeLost` is a schedule that does.
- `queue_wait + duration <= total_latency` can fail without accurate leases
  (`Scenarios.LatencyCanBeExceeded`); `Timing.LatencyCoversWaitExactly` says when it holds.
- A rendered diff gives the updated text if and only if every line of the rendering but the last ends
  in a line break (`PatchExactness.DiffRoundTripsExactlyWhen`). Texts that end in a line break always
  do (`PatchRoundTrip.DiffRoundTrip`); a diff that replaces an unterminated last line never does, as in
  `PatchRoundTrip.UnterminatedTextsDoNotRoundTrip`.
- A hunk without an old side lands one line early, or has no definite place when it follows another
  hunk directly. Any script's hunks give the update if and only if each has a definite place and adds,
  where it lands early, only copies of the line it should follow
  (`PatchInsertions.HunksApplyExactlyWhen`, and `SpacedHunksApplyExactlyWhen` on the script alone).
- Without an error line `extract_error_context` returns the last `2 * context_lines` lines of the log
  if and only if the context is positive or the log shows nothing; at a context of zero it returns the
  whole log (`ErrorContext.QuietTextIsRightExactlyWhen`).
- The back-off of the 1025th attempt overflows (`HttpRetry.OverflowsExactlyWhen`); no policy of at
  most 1025 attempts reaches it.
- Below a scanner table's header some log line makes the reader fail with `IndexError` if and only if
  the header repeats a column name (`ScannerTable.LogFailsExactlyWhenRepeated`).
- More than one text decodes to the same cursor; `Codec.CanonicalExactlyWhen` says which one an
  encoder writes.

## Model

| member | source | states |
|---|---|---|
| `RedisQueue.Ledger` | src/pipelens/queue.py:89-125 | what one queue step adds to or takes from any weighted sum over all entries: dequeue and recovery move entries without changing it, and an ack or retry whose receipt is gone changes nothing |
| `RedisQueue.StepConserves` | src/pipelens/queue.py:89-125 | any script call of any worker, with any stale receipt, keeps exactly one entry per run of the dedupe set and none for other runs |
| `RedisQueue.Conservation` | src/pipelens/queue.py:160-224 | the same after every sequence of operations from an empty queue |
| `RedisQueue.SettlingSpends` | src/pipelens/queue.py:191-201 | the attempts a run has left strictly decrease at an effective ack or retry, grow only at admission, and are unchanged by everything else |
| `RedisQueue.LeavesAfterMaxOutcomes` | src/pipelens/worker.py:128-146 | a run settles at most max_attempts times per admission and has left the queue after the last |
| `QueueClients.RedisServer.EvalRecover` | src/pipelens/queue.py:110-125 | the RPOP/LPUSH loop yields processing followed by pending, returns the length moved, and does nothing under a live lease |
| `QueueClients.RedisAnalysisQueue.Enqueue` | src/pipelens/queue.py:160-170 | adds one fresh entry at the head exactly when the run was unknown, and reports it |
| `QueueClients.RedisAnalysisQueue.Heartbeat` | src/pipelens/queue.py:203-207 | registers the worker and renews its lease, and nothing else |
| `QueueClients.RedisAnalysisQueue.Dequeue` | src/pipelens/queue.py:172-178 | after the heartbeat, moves the oldest pending entry to this worker's list and returns it |
| `QueueClients.RedisAnalysisQueue.Acknowledge` | src/pipelens/queue.py:180-189 | removes the receipt and forgets the run; a receipt no longer held changes nothing |
| `QueueClients.RedisAnalysisQueue.Retry` | src/pipelens/queue.py:191-201 | moves the receipt back to pending with one more attempt; a receipt no longer held changes nothing |
| `QueueClients.RedisAnalysisQueue.RecoverOrphaned` | src/pipelens/queue.py:209-224 | empties and unregisters every other registered worker without a lease, touches no other list, and returns the number of entries moved |
| `QueueClients.InMemoryAnalysisQueue.Enqueue` | src/pipelens/queue.py:48-53 | the in-process form of enqueue |
| `QueueClients.InMemoryAnalysisQueue.Dequeue` | src/pipelens/queue.py:55-60 | the oldest entry, or nothing |
| `QueueClients.InMemoryAnalysisQueue.Acknowledge` | src/pipelens/queue.py:62-64 | one task done and the run forgotten, or `task_done` raises and nothing changes |
| `QueueClients.InMemoryAnalysisQueue.Retry` | src/pipelens/queue.py:66-70 | the entry goes to the back with one more attempt, or `task_done` raises and nothing changes |
| `QueueClients.BackendsAgree` | src/pipelens/queue.py:43-85 | every session of one sequential worker gets identical replies from both backends, and task_done is never called too often |
| `Store.AnalysisStore.CreateIfAbsent` | src/pipelens/store.py:240-277 | inserts exactly when neither the run id nor the delivery id is present |
| `Store.AnalysisStore.BeginAnalysis` | src/pipelens/store.py:522-576 | with a token takes the row exactly when it is QUEUED or RUNNING and closes open events, without one takes any row; keeps the first start and wait; otherwise no change |
| `Store.AnalysisStore.FinishAnalysis` | src/pipelens/store.py:578-607 | writes status and timing and drops the token exactly when the given token is current, or the row exists and none is given; otherwise no change |
| `Store.AnalysisStore.RecordStage` | src/pipelens/store.py:609-637 | appends one event exactly when the token is current |
| `Store.AnalysisStore.Update` | src/pipelens/store.py:383-427 | the fenced and the unfenced status write, with or without the category of the diagnosis |
| `Store.AnalysisStore.QueuedRequests` | src/pipelens/store.py:504-520 | one request per runnable QUEUED row, no other, oldest first |
| `Store.AnalysisStore.ListPage` | src/pipelens/store.py:457-502 | returns the records and next cursor of the page that the plain sorted list defines, under all four filters |
| `Store.AnalysisStore.RecordFollowupRun` | src/pipelens/store.py:279-370 | settles the first candidate in the query's order, and changes no other row |
| `Safety.StepKeepsInv` | src/pipelens/store.py:543-563 | every step of every worker and of the environment keeps the inductive invariant over all rows and workers |
| `Safety.CompletedStays` | src/pipelens/worker.py:125-146 | no step takes a COMPLETED row out of COMPLETED or changes anything but its resolution |
| `Safety.CompletesAtMostOnce` | src/pipelens/worker.py:125-146 | in every run of the system a row enters COMPLETED at most once, and is COMPLETED afterwards |
| `Safety.OneWriterDue` | src/pipelens/worker.py:128-142 | in every reachable state at most one worker owes the unfenced write for a run, and the row is then FAILED with no token |
| `Safety.StageHistoryIsFenced` | src/pipelens/store.py:564-637 | in every reachable state open events and everything after the last begin were written by the newest attempt; a COMPLETED row ends in exactly the six STARTED/COMPLETED pairs, a FAILED one in the pairs before the failing stage, its start and its failure |
| `Safety.HistoryStep` | src/pipelens/store.py:564-637 | every step of every worker and of the environment leaves a run's stage events alone, closes the open ones at a new begin, or appends one event of the current attempt |
| `Timing.FirstStartIsKept` | src/pipelens/store.py:538-560 | no step overwrites the first start or the queue wait |
| `Timing.FirstStartReportedOnce` | src/pipelens/store.py:522-576 | over a whole run at most one begin reports first_start, and exactly one once the row has started |
| `Timing.LatencyCoversWaitExactly` | src/pipelens/store.py:578-607 | queue wait plus duration is within total latency if and only if the attempt read its start time no earlier than the recorded first start |
| `Scenarios.LatencyCanBeExceeded` | src/pipelens/store.py:522-607 | a concrete schedule in which the inequality fails |
| `Delivery.NoRunIsLost` | src/pipelens/worker.py:118-148 | with accurate leases every admitted run that is QUEUED or RUNNING has exactly one entry, and every non-empty processing list belongs to a registered worker |
| `Delivery.NoConcurrentAttempts` | src/pipelens/queue.py:172-224 | with accurate leases no run is worked on by two workers at once |
| `Delivery.NoAttemptIsSuperseded` | src/pipelens/store.py:592-606 | with accurate leases every attempt's token stays current until the attempt finishes |
| `Delivery.StepKeepsExactlyWhen` | src/pipelens/worker.py:128-146 | with any leases, a step takes the last entry from an admitted active run if and only if it is one of two worker moves, recognised by their guards |
| `Delivery.KeptExactlyWhenNoStepLoses` | src/pipelens/worker.py:118-148 | over every run of the system, an admitted active run is in the queue at every moment if and only if no such step is made |
| `Delivery.LatencyCoversWait` | src/pipelens/store.py:578-607 | with accurate leases queue wait plus duration fits in total latency on every row |
| `Delivery.AttemptsAreBounded` | src/pipelens/worker.py:128-146 | in every interleaving, with any leases, attempts and outcomes of a run are bounded and the queue is conserved |
| `Scenarios.RunCanBeLost` | src/pipelens/worker.py:137-146 | a concrete schedule, with a lease lapsing on a live worker, that leaves a QUEUED row without an entry |
| `Worker.AnalysisPipeline.Stage` | src/pipelens/pipeline.py:334-351 | the fenced stage bracket is a sequence of protocol steps ending normally, superseded, or with the failure recorded; the COLLECTING body may fail before or after its RUNNING update |
| `Worker.AnalysisPipeline.RunStages` | src/pipelens/pipeline.py:115-288 | the six stages in order refine the protocol's program |
| `Worker.AnalysisPipeline.Analyze` | src/pipelens/pipeline.py:56-113 | an attempt refines begin, stages and finish; it raises only with the row FAILED, and a superseded attempt changes nothing and raises nothing |
| `Worker.AnalysisWorker.Conclude` | src/pipelens/worker.py:126-146 | the status write and the choice between retry and ack; if Redis fails the entry stays in this worker's list |
| `Worker.AnalysisWorker.MaintainQueueOnce` | src/pipelens/worker.py:111-116 | one round of maintenance is a lease renewal followed by recoveries of other workers: those without a lease end empty and unregistered, and the count is what was moved |
| `Worker.AnalysisWorker.Deliver` | src/pipelens/worker.py:124-146 | a delivery that cannot begin changes no row; one that begins ends COMPLETED, QUEUED again with one more attempt, or FAILED; the entry and the dedupe set follow |
| `Worker.AnalysisWorker.ProcessNext` | src/pipelens/worker.py:118-148 | one turn is a sequence of protocol steps, and settles its delivery as the outcome and the attempts require; if Redis fails on the queue's size first, no row changes and the entry stays in this worker's list |
| `Api.ReconcileQueuedAnalyses` | src/pipelens/main.py:56-61 | the loop refines protocol steps; afterwards every runnable QUEUED row has exactly one entry, and the entries added are fresh, in front, and exactly as many as returned |
| `Api.EnqueueingAgainAddsNothing` | src/pipelens/main.py:58-60 | enqueueing known runs changes nothing, so a second reconciliation returns 0 |
| `Api.GithubWebhook` | src/pipelens/main.py:333-402 | the handler refines protocol steps, and says `accepted` exactly when it stored the run or put it back in the queue; a Redis failure at the enqueue or at the queue's size afterwards is an error reply, and after the latter the run is in the queue |
| `Resolutions.OneDelivery` | src/pipelens/store.py:297-370 | a webhook changes at most one stored row, in an allowed way, adds at most its own row, and keeps every resolution after its row with non-negative recovery time |
| `Resolutions.ResolutionsOnlyAdvance` | src/pipelens/store.py:308-370 | for deliveries in any order, RESOLVED is final and STILL_FAILING changes only by a strictly later attempt of the same run |
| `Resolutions.InOrderTracks` | src/pipelens/store.py:297-370 | the tracking invariant over every in-order stream with repeats |
| `Resolutions.AtMostOneUnresolved` | src/pipelens/store.py:297-370 | for in-order deliveries of one branch at most one stored row is unresolved and it is the newest stored |
| `Resolutions.RedeliveryIsHarmless` | src/pipelens/main.py:333-374 | redelivering any earlier event leaves every row as it is |
| `Paging.SortedLists` | src/pipelens/store.py:488-490 | the ordered list holds exactly the selected rows, strictly descending |
| `Paging.SortedIsUnique` | src/pipelens/store.py:488-490 | it is the only such list |
| `Paging.PagesMakeTheList` | src/pipelens/store.py:457-502 | for every limit of at least one and every combination of the four filters, following the cursors yields the whole ordered list, no gap and no repeat |
| `Paging.InsertsDoNotDisturbPaging` | src/pipelens/store.py:478-502 | with rows inserted between calls, every row present throughout appears exactly once and none twice |
| `Codec.PaddingIsRestored` | src/pipelens/main.py:64-71 | the padding the decoder restores is the padding the encoder stripped, for every length |
| `Codec.DecodeEncode` | src/pipelens/main.py:64-79 | decoding an encoded payload returns it |
| `Codec.DecodesExactlyWhen` | src/pipelens/main.py:69-72 | which texts pass the base64 check, exactly |
| `Codec.CanonicalExactlyWhen` | src/pipelens/main.py:64-79 | a text that decodes is its payload's encoding exactly when it is unpadded, URL-safe and ends in zero bits |
| `Codec.CursorComesBack` | src/pipelens/main.py:64-79 | a cursor handed out comes back as itself if and only if its run id is positive |
| `Lines.JoinSplit` | src/pipelens/patching.py:105-114 | joining the kept-ends lines of a text gives the text |
| `Lines.SplitJoin` | src/pipelens/patching.py:105-126 | joined lines, none of them continuing a CR with LF, split back into themselves exactly when every line but the last ends in a break |
| `Patching.ParseHunks` | src/pipelens/patching.py:305-335 | the parser's loop and its three errors against the fold that specifies it |
| `Patching.LocateHunk` | src/pipelens/patching.py:338-354 | the stated position, else the only match at or after the cursor, else which error |
| `Patching.ApplyHunks` | src/pipelens/patching.py:105-114 | the applier's loop against its recursive meaning |
| `Patching.ApplyUnifiedDiff` | src/pipelens/patching.py:102-114 | the whole application, with every error |
| `PatchSoundness.AppliesExactlyWhenPlaced` | src/pipelens/patching.py:102-114 | hunks, with or without old sides, apply if and only if there are ordered, disjoint positions obeying the rule, in bounds for every hunk with an old side |
| `PatchSoundness.OnlyPlacedRangesChange` | src/pipelens/patching.py:102-114 | at given rule-abiding places the result is the file with exactly the lines at those places replaced by the new sides; the lines there equal the old sides up to CR/LF; the line count is n - sum(old) + sum(new) |
| `PatchRoundTrip.RenderingParsesBack` | src/pipelens/patching.py:117-126 | the rendering of any edit script with separate lines parses into exactly its hunks, including bodies that look like headers |
| `PatchRoundTrip.RenderingApplies` | src/pipelens/patching.py:102-126 | applied to the original, that rendering gives the updated text |
| `PatchRoundTrip.DiffRoundTrip` | src/pipelens/patching.py:102-126 | the round trip for all newline-terminated texts and every anchored script between them |
| `PatchExactness.DiffRoundTripsExactlyWhen` | src/pipelens/patching.py:102-126 | for all texts, terminated or not, and every anchored script between them, applying the rendering gives the update if and only if every rendered line but the last ends in a line break |
| `PatchExactness.ApplyNet` | src/pipelens/patching.py:102-114 | wherever its hunks land, a patch that applies changes the number of characters other than CR and LF by exactly its new sides less its old sides |
| `PatchRoundTrip.UnterminatedTextsDoNotRoundTrip` | src/pipelens/patching.py:117-126 | a family of such failures: the diff of two one-line texts without a line break never applies |
| `PatchInsertions.HunksApplyExactlyWhen` | src/pipelens/patching.py:338-354 | for every script, with or without old sides, its hunks turn the original into the update if and only if each has a definite place and adds, where it is put in front of a line, only copies of that line |
| `PatchInsertions.SpacedHunksApplyExactlyWhen` | src/pipelens/patching.py:338-354 | the same read off the script, when unchanged lines separate its hunks as difflib's do: each hunk has an old side, starts the file, or repeats the line above it |
| `PatchInsertions.PlaceableRenderingApplies` | src/pipelens/patching.py:102-126 | the rendering of such a script, its lines kept apart, gives the updated text |
| `PatchInsertions.InsertionWithoutContext` | src/pipelens/patching.py:346-348 | a zero-length old range inside a file gives the update if and only if every inserted line equals the line it should follow |
| `PatchVerification.KeptPatchesApply` | src/pipelens/patching.py:194-266 | every hunk of a published patch, with or without an old side, lands at a rule-abiding place, and the file it gives differs from the original at those places only |
| `PatchVerification.VerifyingIsFinal` | src/pipelens/patching.py:194-214 | verifying a whole result again changes no suggestion, adds no note and counts no rejection |
| `PatchVerification.VerifyPatchSuggestions` | src/pipelens/patching.py:194-214 | every suggestion in order with its outcome, one note per rejection, and counters equal to the number of such suggestions |
| `PatchVerification.EveryPatchIsCounted` | src/pipelens/patching.py:198-213 | verified and rejected counts add up to the patches suggested, and notes to the rejected ones |
| `PatchVerification.VerifiedExactlyWhen` | src/pipelens/patching.py:194-266 | a suggestion leaves with its patch if and only if the file is known, the sizes are in bounds, no header names another file, no secret or policy violation is found, and the patch applies to a document that parses |
| `ErrorContext.MergeWindows` | src/pipelens/classifier.py:206-214 | the ranges are exactly the first max_sections maximal runs of lines near an error line, sorted and separated by a dropped line |
| `ErrorContext.ExtractErrorContext` | src/pipelens/classifier.py:200-215 | the text of those ranges, or the tail of the log when no line signals an error |
| `ErrorContext.FirstRunsAreUnique` | src/pipelens/classifier.py:206-214 | those ranges are the only ones that show what they must |
| `ErrorContext.QuietTextIsRightExactlyWhen` | src/pipelens/classifier.py:203-204 | without an error line the text is the last 2 * context_lines lines of the log if and only if the context is positive or the log has no text; at zero it is the whole log, and otherwise it has fewer than 2 * context_lines line breaks |
| `ScannerTable.ReadTables` | src/pipelens/patching.py:390-414 | one entry per accepted row, each merged column holding its nearest non-blank cell since the header; IndexError exactly when some row is too short for its columns |
| `ScannerTable.EntryIsUnique` | src/pipelens/patching.py:402-412 | what a row's entry must hold determines the entry |
| `ScannerTable.ScannerTableBumps` | src/pipelens/patching.py:390-418 | the bumps read from those entries, in order |
| `ScannerTable.RowsBelongToATable` | src/pipelens/patching.py:395-410 | no row is read after an interruption until a new header |
| `ScannerTable.TableTextReadsBack` | src/pipelens/patching.py:400-401 | a line written from clean cells reads back as those cells |
| `ScannerTable.LogFailsExactlyWhenRepeated` | src/pipelens/patching.py:390-410 | below a written header, blank cells included, some log line raises IndexError if and only if two of its cells name the same column |
| `HttpRetry.BackoffIsBounded` | src/pipelens/http_retry.py:135-139 | back-off lies between the capped exponential delay and that delay with full jitter |
| `HttpRetry.PauseIsBounded` | src/pipelens/http_retry.py:102-139 | every pause is in [0, max_delay] and never shorter than the server's stated delay |
| `HttpRetry.RequestWithRetry` | src/pipelens/http_retry.py:37-74 | requests go on exactly until the first reply that is not waited for, which is the outcome unless the back-off overflows, with the specified sleep after each earlier one; the last assertion is unreachable |
| `HttpRetry.ExchangeIsUnique` | src/pipelens/http_retry.py:51-74 | the replies determine the number of requests and every sleep |
| `HttpRetry.OverflowsExactlyWhen` | src/pipelens/http_retry.py:135-139 | the exponent overflows if and only if an attempt from the 1025th on, not the last, would back off without a stated delay |
| `HttpRetry.ExchangeIsBounded` | src/pipelens/http_retry.py:51-74 | for every reply sequence at most max_attempts requests and at most (max_attempts - 1) * max_delay of sleep |
| `HttpRetry.UnsafeRequestsAreNotRepeated` | src/pipelens/http_retry.py:57-59 | a non-idempotent request is never sent again after a transport error |

## Left out

- Publication: it is fenced only by the PUBLISHING-started record, so nothing is claimed about how often a comment is posted.
- Store.AnalysisStore.RecordStage: always takes an attempt token, as the pipeline does; the form without one appends an event without looking at the row.
- Store calls are assumed to fail only by supersession, and a database's isolation anomalies are not modelled.
- Attempt tokens are assumed fresh; the source draws random UUIDs.
- `AnalysisStore.delete`, error texts, diagnosis columns other than the category, model columns, and `updated_at`.
- Worker.AnalysisPipeline.Analyze: these classes run undisturbed, one call at a time; interleaving is the subject of `Protocol`, whose steps they are shown to take.
- The worker's outer loops, back-off after Redis errors, metrics and SLO counters.
- Resolutions.AtMostOneUnresolved: is stated for one branch without pull requests and for conclusions the handler forwards; any other order or target is covered by `Resolutions.ResolutionsOnlyAdvance`.
- Where NULL completion times sort differs between databases; every result holds for both orders.
- difflib's choice of edit script: `PatchInsertions` quantifies over every script, and the exact round trip over every script whose hunks have a non-empty old side or start the file.
- Patching.ParseHunks: hunk headers with non-ASCII decimal digits, which Python's pattern would accept, are not read as headers here; and Python's ValueError for a start number of more than 4300 digits, which the verifier of suggestions does not catch, is not modelled.
- PatchVerification.VerifyPatchSuggestions: notes hold the reason of a rejection, not its Korean sentence.
- Generating version-bump diffs, manifest discovery, classifier rules and the sanitizer: regular-expression content.
- `_scanner_row_bump`: a parameter that reads one entry, for the same reason.
- HttpRetry.RequestWithRetry: delays are exact reals, so rounding, NaN and infinities in a header are not modelled; the overflow of the exponent is.
- Codec.CursorComesBack: takes the JSON and ISO-8601 text of a cursor as a parameter that reads back.
- GitHub and model clients, authentication, publication rendering, configuration, migrations, operations scripts and the dashboard.
