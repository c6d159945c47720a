# Verified model of Logtailr's delivery path and limiters

Logtailr reads lines from many sources, filters them, queues them, and delivers them to outputs such
as OpenSearch; around that path sit limiters, an alert engine, an aggregator, file tailers and a
WebSocket hub. This project models those parts in Dafny and proves what they keep over every run.

How the model is laid out:

- Concurrent components are state machines: one event per critical section, channel operation or
  foreign call, and the results range over every sequence of events that can happen
  (`OpenSearchMachine`, `OutputQueue`, `DeliveryPath`, `AlertEngine`, `Hub`). Beside what never happens
  they say what does: lines get through when there is room and the server answers, and from every state
  of the whole path some continuation completes the shutdown (`CleanShutdown`).
- The code that updates fields in place is written as classes and loops, and each method is proved to
  be a run, or a step, of the state machine or of a specification function (`OpenSearchWriter.Writer`,
  `OutputManager.Manager`, `AlertEngine.Engine`, `ErrorRate.Evaluator`, `Aggregator.Table`,
  `FileTailer.Tailer`, `TailerManager.Manager`, `FixedWindow.RateLimiter`, `Hub.Registry`,
  `SecretMask.JsonObject`). `Pipeline` and `TokenBucket` are loops over the outcomes of successive
  selects and reads.
- Servers, parsers, filters, JSON encoding, regular expressions, lower-casing and the creation of
  tailers and writers are arbitrary functions or scripts of outcomes; clocks are monotone inputs.
  Goroutine scheduling is the choice of the next event. Maps are walked in an arbitrary order.
- Histories (`written`, `acked`, `dropped`, `offered`, `handled`, `log`, …) are ghost: they record what
  happened so that the results can speak about it. The code keeps at most their lengths.

## What the code does that its documentation does not say

- `docs/configuration.md` line 159 says an `error_rate` rule fires when the count *exceeds* the
  threshold; the code fires when it reaches it (`ErrorRate.CountIsThreshold`).
- `readLines` is commented as reading complete lines; an unterminated last line is emitted too.
  `FileTailer.OnlyCompleteLinesIff` says exactly when only complete lines are emitted, and
  `FileTailer.SplitReadIff` exactly when what is appended later changes the messages.
- `finalFlush` is commented as a loss that is counted, never silent. That holds in every continuation
  if and only if no goroutine still holds documents when the last snapshot is taken
  (`OpenSearchMachine.CloseCompleteIffQuiet`). The output manager does guarantee it, because the
  writer goroutine has ended by then; `DeliveryPath.NothingLostSilently` proves it for the whole path.
- The retry queue keeps the order of writing as long as flushes do not overlap
  (`OpenSearchOrder.QueueInWriteOrder`). The ticker's flush and a caller's flush can overlap;
  `OpenSearchOrder.OverlapReordersIff` says exactly when that puts the order at risk.
- Only the first of the pipeline's three selects checks for a closed line channel; the other two would
  hand a missing line to `process`. `Pipeline.SafeIffNotClosedAndCancelled` gives the exact condition.
  The program never closes that channel (`cmd/tail.go` line 230 makes it), so it is safe as used.

## Model

| member | source | states |
|---|---|---|
| BulkSend.RefusedSplits | internal/output/opensearch_writer.go:434-440 | The items of a bulk response split the request's documents into refused and accepted ones, both in order; documents beyond the items count as accepted |
| BulkSend.RequestSplits | internal/output/opensearch_writer.go:393-446 | A failed request delivers nothing; a decoded one splits the request, in order, into delivered and left documents |
| BulkSend.RequestByPosition | internal/output/opensearch_writer.go:393-446 | Position by position, the document there is delivered if and only if the response arrived, its status is below 400, its body decodes, and it reports no errors or has no status of 300 or more at that position; a response that cannot be used leaves everything |
| BulkSend.DoRequest | internal/output/opensearch_writer.go:393-446 | A request succeeds if and only if it gets a response of a status below 400 whose body decodes; otherwise it fails as a whole. A success without errors leaves nothing, one with errors exactly the refused documents |
| BulkSend.CollectRefused | internal/output/opensearch_writer.go:434-440 | The index loop over the response's items collects exactly the refused documents |
| BulkSend.DeliverPartitions | internal/output/opensearch_writer.go:275-306 | For every script of responses and cancellations, acknowledged and returned documents together are the input, and the returned ones keep their order |
| BulkSend.DeliveredNeverResent | internal/output/opensearch_writer.go:275-306 | Request number k carries, in order, exactly what the requests before it did not deliver |
| BulkSend.DeliveredDocAbsentLater | internal/output/opensearch_writer.go:275-306 | A document delivered by one request is in no later request and is not returned |
| BulkSend.ErrorTellsUndelivered | internal/output/opensearch_writer.go:275-306 | For a non-empty input the error is nil if and only if nothing is returned |
| BulkSend.NothingSentNothingReturned | internal/output/opensearch_writer.go:264-272 | Sending an empty batch, which flush does, can neither create nor return documents |
| BulkSend.RoundsMade | internal/output/opensearch_writer.go:275-306 | The rounds made are exactly those due: each next one carries what the one before left, unless nothing was left, its wait was cancelled or the script ended, which decides the error and what is returned |
| BulkSend.AllFailedReturnsAll | internal/output/opensearch_writer.go:275-306 | If every round gets a transport error, a status of 400 or more or an undecodable body, every document is returned, none is delivered, and there is an error |
| BulkSend.TakenAtOnce | internal/output/opensearch_writer.go:275-306 | If the first response takes everything, there is one request and nothing is returned |
| BulkSend.AllOrNothingDelivery | internal/output/opensearch_writer.go:275-306 | When every response takes the whole request or none of it, so does the delivery as a whole |
| BulkSend.SendBulk | internal/output/opensearch_writer.go:275-306 | The retry loop computes the delivery, makes exactly the rounds that are due and at most maxRetries requests, partitions the input and returns a nil error exactly when all was delivered |
| OpenSearchMachine.StepMoves | internal/output/opensearch_writer.go:172-328 | Every step only moves copies of a document between buffer, retry queue, hands of goroutines, acknowledged and dropped; only Write creates one |
| OpenSearchMachine.NoSilentLoss | internal/output/opensearch_writer.go:172-328 | In every interleaving of any number of writers, the ticker and Close, each written document is in exactly one of those places, the counter equals the number dropped, and the retry queue keeps within its bound |
| OpenSearchMachine.RequeueKeepsNewest | internal/output/opensearch_writer.go:308-328 | A re-queue keeps as many of the newest documents as the bound allows; exactly the older ones leave, and are counted |
| OpenSearchMachine.NothingDroppedWithinBound | internal/output/opensearch_writer.go:172-328 | As long as queued and in-flight documents together fit into the bound, no step before the final flush drops any |
| OpenSearchMachine.HealthyServerGetsAll | internal/output/opensearch_writer.go:172-328 | With a server that takes every bulk nothing is re-queued or dropped, in any interleaving, and what is not acknowledged is buffered or being sent |
| OpenSearchMachine.FullBufferIsFlushed | internal/output/opensearch_writer.go:172-187 | In every run, while the buffer holds a full bulk some writer is about to flush it |
| OpenSearchMachine.CloseLosesNothing | internal/output/opensearch_writer.go:189-237 | If no goroutine holds documents at the final snapshot and none writes after it, Close leaves nothing behind: written is acknowledged plus counted drops |
| OpenSearchMachine.CloseCompleteIffQuiet | internal/output/opensearch_writer.go:189-237 | That guard is exact: if some goroutine holds documents then, some continuation strands them uncounted |
| OpenSearchMachine.StrandingRunStrands | internal/output/opensearch_writer.go:241-272 | The run that strands them: the goroutine's deliveries fail and it re-queues after the final flush |
| OpenSearchMachine.StrandingReachable | internal/output/opensearch_writer.go:172-237 | Such a state is reached from the start: Close gets to its last snapshot while a caller is delivering, and documents can then be stranded |
| OpenSearchOrder.QueueInWriteOrder | internal/output/opensearch_writer.go:241-328 | With flushes that do not overlap, retry queue followed by buffer is always in the order of writing |
| OpenSearchOrder.NoOvertaking | internal/output/opensearch_writer.go:239-272 | While a batch is being sent, everything written before it is already acknowledged or counted as dropped |
| OpenSearchOrder.RequeueUnsettled | internal/output/opensearch_writer.go:308-328 | Re-queueing removes only the oldest of what is unsettled |
| OpenSearchOrder.AckedInWriteOrder | internal/output/opensearch_writer.go:241-328 | If moreover the server takes each bulk whole or not at all, documents are acknowledged in the order of writing, ahead of all that is queued |
| OpenSearchOrder.OverlapReordersIff | internal/output/opensearch_writer.go:241-328 | With a flush under way in any phase, a second one can lead, without a third, to a retry queue out of the order of writing if and only if the first still holds documents and the second finds some (distinct documents, a bound that drops none) |
| OpenSearchOrder.OverlapReorders | internal/output/opensearch_writer.go:172-272 | Such an overlap is reached from the start: the ticker's and a caller's flush leave the retry queue out of that order |
| OpenSearchWriter.Writer.TakeAll | internal/output/opensearch_writer.go:241-247 | The snapshot empties retry queue and buffer and hands out both |
| OpenSearchWriter.Writer.EnqueuePending | internal/output/opensearch_writer.go:308-328 | Afterwards the queue holds the newest of its old content followed by the new documents, as many as the bound allows; the older ones are dropped and counted |
| OpenSearchWriter.Writer.SendBatch | internal/output/opensearch_writer.go:264-271 | The last part of flush is a delivery step, followed by a re-queue step exactly when documents came back; these join the end of the queue within the bound |
| OpenSearchWriter.Writer.RequeueBoth | internal/output/opensearch_writer.go:251-259 | Failed documents go back before the batch that was not sent, in two separate steps; the queue keeps the newest of all |
| OpenSearchWriter.Writer.Flush | internal/output/opensearch_writer.go:239-272 | An uninterrupted flush is the machine's run: the queue is sent first, the batch only if nothing of the queue is left; what is left of either stays, as far as the bound allows the newest of it; the error is the queue's or the batch's, and nil exactly when no batch failed |
| OpenSearchWriter.Writer.Write | internal/output/opensearch_writer.go:172-187 | A line that cannot be encoded changes nothing; any other is appended, and stays in the buffer unless that is now full; a full buffer is flushed, and the error is that flush's, or nil |
| OpenSearchWriter.Writer.FinalFlush | internal/output/opensearch_writer.go:217-237 | Everything left, queue before buffer, is sent once more; what is delivered is acknowledged, the rest is dropped and counted, and the error is nil exactly when nothing was |
| OutputQueue.ReplayShape | cmd/output_manager.go:145-188 | The sequential reference writes each line once, in order, to writers that only advance, and closes each replaced writer once, in order |
| OutputQueue.LineGoesToCurrent | cmd/output_manager.go:160-188 | The line handled n-th goes to the writer number k, where k swaps succeeded before it |
| OutputQueue.RefinesSequential | cmd/output_manager.go:81-188 | In every interleaving the outputs are those of the sequential reference on the handled items; handled, in-hand and queued items are the accepted ones in order; offered lines are accepted plus dropped; the queue never exceeds 4096 |
| OutputQueue.NothingRefusedWithRoom | cmd/output_manager.go:81-98 | A line is dropped only when 4096 items wait: in every run with room at each offer none is, and all offered lines are accepted |
| OutputQueue.NoWriteToClosed | cmd/output_manager.go:113-188 | No line is written to a writer that is closed or being closed |
| OutputQueue.CloseCompletes | cmd/output_manager.go:113-158 | When Close returns, every writer ever current was closed exactly once and everything enqueued before the cancel was handled |
| OutputQueue.StrandedExactly | cmd/output_manager.go:145-158 | What stays in the queue for good is exactly what was accepted after the writer goroutine's last look |
| OutputManager.Manager.Write | cmd/output_manager.go:81-98 | Write never fails: with fewer than 4096 items waiting the line joins the end of the queue, otherwise it is dropped and counted and the queue is left alone |
| OutputManager.Manager.RequestSwap | cmd/output_manager.go:100-108 | A swap request queues behind the accepted items, or gives up only after the cancel and then changes nothing |
| OutputManager.Manager.WriteOne | cmd/output_manager.go:160-167 | The line in hand goes to the current writer |
| OutputManager.Manager.PerformSwap | cmd/output_manager.go:169-188 | A failed creation keeps the writer; a successful one makes the new writer current before the old is closed |
| OutputManager.Manager.HandleNext | cmd/output_manager.go:126-142 | One turn of the writer goroutine handles exactly the head of the queue |
| OutputManager.Manager.DrainQueue | cmd/output_manager.go:145-158 | Draining handles everything queued, in order, and leaves the queue empty |
| OutputManager.Manager.Close | cmd/output_manager.go:113-124 | Without concurrent producers, Close handles every accepted item and closes every writer exactly once |
| Pipeline.Process | cmd/pipeline.go:39-74 | A line is offered to the output exactly when it passes the filters after parsing |
| DeliveryPath.PassingByPosition | cmd/pipeline.go:39-74 | A line passes exactly when the filters pass what it is once parsed, whatever the other lines are; passing lines keep their order |
| Pipeline.OfferedInOrder | cmd/pipeline.go:39-74 | Lines offered one after the other are queued in order up to the bound of 4096; the rest is dropped and counted |
| Pipeline.RunPipeline | cmd/pipeline.go:85-137 | Whatever the selects come back with, in whichever mode, the output manager is offered exactly the passing lines received, in order, and the loop ends as its specification says |
| Pipeline.Sweep | cmd/pipeline.go:116-128 | The final sweep, from the turn that saw the tailers' stop on |
| Pipeline.EndsExactly | cmd/pipeline.go:85-137 | The loop returns exactly at a closed channel before the cancel, or when the sweep after cancel and stop finds nothing ready; it fails exactly when it receives from a closed channel after the cancel; it has then received exactly the lines of the turns before |
| Pipeline.SafeIffNotClosedAndCancelled | cmd/pipeline.go:85-137 | No schedule makes process get a missing line if and only if the line channel is never closed or the context is never cancelled |
| DeliveryPath.EveryLineAccounted | cmd/pipeline.go:39-137 | At every step of pipeline, queue and OpenSearch writer together, each copy of a passing line is in exactly one place, and both drop counters are right |
| DeliveryPath.SetAsideExactly | internal/output/opensearch_writer.go:172-177 | In every run of the whole path, the lines set aside are ones that cannot be encoded, and the writer was given only ones that can |
| DeliveryPath.NothingLostSilently | cmd/output_manager.go:113-124 | After the shutdown closed both, passing lines are acknowledged, counted drops of either kind, or could not be encoded |
| DeliveryPath.HealthyPathDeliversAll | cmd/output_manager.go:81-124 | With room in the output queue and a server that takes every bulk, after the shutdown exactly the passing lines that could be encoded are acknowledged, and both drop counters are zero |
| CleanShutdown.CanAlwaysClose | cmd/output_manager.go:113-158 | The shutdown cannot get stuck: every run of the whole path, whatever its goroutines are in the middle of, can be continued until Close has returned and the accounting is complete |
| TokenBucket.ReadPump | internal/api/websocket.go:115-149 | The connection is closed by the first text message that ends a window holding more than 20 + 10 t text messages, and by none if there is no such window |
| TokenBucket.RefillShiftsLevels | internal/api/websocket.go:130-135 | Refilling and capping keeps the tokens equal to the minimum over all possible full-bucket starts |
| TokenBucket.EmptyIffTooFast | internal/api/websocket.go:137-149 | Less than one token is left exactly when the message arrives too fast |
| TokenBucket.OpenMeansBounded | internal/api/websocket.go:115-149 | While the connection stays open every window of length t lets through at most 20 + 10 t text messages |
| TokenBucket.TextsIsCount | internal/api/websocket.go:137-149 | What is counted in a window is the number of its text messages |
| TokenBucket.FloodRefused | internal/api/websocket.go:137-149 | More than 20 + 10 t text messages in a row within t seconds do not get through |
| TokenBucket.BurstAccepted | internal/api/server.go:29-30 | A burst of the first twenty messages is never refused |
| FixedWindow.CleanupUnobservable | internal/api/middleware.go:124-139 | Cleanup passes inserted anywhere in a run change no decision |
| FixedWindow.OwnRequestsDecide | internal/api/middleware.go:141-183 | The decisions on the counted requests of an address are those of a limiter that sees only them |
| FixedWindow.ExemptAccepted | internal/api/middleware.go:144-150 | Exempt requests are always let through |
| FixedWindow.UnderTwiceTheLimit | internal/api/middleware.go:115-184 | In any closed interval no longer than the window, at most 2 * limit - 1 counted requests of one address are let through, and none for a limit below one |
| FixedWindow.BoundReached | internal/api/middleware.go:164-181 | That bound is reached for every limit and window of at least one, every address and starting time |
| FixedWindow.RateLimiter.Handle | internal/api/middleware.go:141-183 | A counted request starts a new window if the address has none or its window has passed, counts one more otherwise, and is refused exactly when the count exceeds the limit; an exempt one is let through and changes nothing |
| FixedWindow.RateLimiter.CleanupPass | internal/api/middleware.go:130-136 | A pass in any order removes exactly the expired entries |
| ErrorRate.PruningIsFiltering | internal/alert/engine.go:372-377 | On a sorted window, dropping the leading old times is the filter by time |
| ErrorRate.ReferenceDecides | internal/alert/engine.go:353-393 | The reference fires if and only if the number of errors since the last firing that are not older than the window reaches the threshold, and reports that number |
| ErrorRate.WindowRefinesHistory | internal/alert/engine.go:353-393 | With a monotone clock the window pruned in place fires at the same errors, with the same counts, as a filter over all errors since the last firing |
| ErrorRate.CountIsThreshold | internal/alert/engine.go:353-393 | For a threshold of at least one every emitted count equals the threshold |
| ErrorRate.FirstRecent | internal/alert/engine.go:372-377 | The pruning loop finds the first time that is recent enough |
| ErrorRate.Evaluator.Slide | internal/alert/engine.go:366-382 | Append, prune, and clear on firing |
| ErrorRate.Evaluator.Evaluate | internal/alert/engine.go:353-393 | A line of another source or a level other than error and fatal changes nothing; one that counts decides by all errors since the last firing within the window |
| AlertEngine.StatisticsAndRecent | internal/alert/engine.go:193-273 | In every interleaving of firings and reloads, the recent list is the last hundred recorded events, statistics exist for exactly the current rule names, and each counts the firings since its name last entered the rule set |
| AlertEngine.EntryUnique | internal/alert/engine.go:193-218 | That entry point is unique, so the count is determined |
| AlertEngine.CooldownBound | internal/alert/ratelimit.go:19-34 | For a rule with fixed cooldown C > 0, firings k apart are at least k C apart in time, so an interval of length L holds at most 1 + L / C, across reloads |
| AlertEngine.GrantedUnlessCooling | internal/alert/ratelimit.go:19-34 | After any run a firing is granted if and only if its rule has no cooldown, was never granted one, or was last granted one at least the cooldown ago; a refused one changes nothing |
| AlertEngine.CompileRule | internal/alert/engine.go:407-432 | A rule compiles if and only if it is a pattern rule with a valid pattern, a level rule with a level name, an error rate rule or a health rule |
| AlertEngine.Engine.Allow | internal/alert/ratelimit.go:19-34 | Refused exactly within the cooldown of the last firing; a granted firing is remembered |
| AlertEngine.Engine.FireEvent | internal/alert/engine.go:256-273 | An uninterrupted firing is the machine's three steps, or nothing when the limiter refuses; when granted, the event is the last of the at most hundred recent ones, and its rule's count grows by one |
| AlertEngine.Engine.ReloadRules | internal/alert/engine.go:193-218 | A rule set with a rule that does not compile changes nothing; any other replaces the rules and keeps the statistics of names that stay |
| AlertEngine.Engine.RecentEvents | internal/alert/engine.go:149-164 | The result is the last events, up to the limit |
| Aggregator.NothingLostOrDoubled | internal/aggregator/aggregator.go:64-168 | Over every sequence of operations and any clock, for each key the counts of the results handed out or abandoned plus the held count are the lines processed with it; a result carries a line of its key, and a duration, within the window, exactly when its count reaches the minimum |
| Aggregator.FlushHandsOutAll | internal/aggregator/aggregator.go:94-99 | After a flush of an aggregator that was not stopped, for each key the counts of all results handed out are the lines processed |
| Aggregator.WindowMerges | internal/aggregator/aggregator.go:64-92 | As long as the window of an entry lasts and nothing is flushed, it stays, nothing of its key is handed out, and its count grows with every line of its key |
| Aggregator.KeysTellLinesApart | internal/aggregator/aggregator.go:170-172 | When source and level contain no bar, two lines share a key if and only if source, level and message agree |
| Aggregator.OwnKeyIffBarFree | internal/aggregator/aggregator.go:170-172 | A line is never merged with one of different source, level or message if and only if none of its three parts, the message included, contains a bar |
| Aggregator.TwinSharesKey | internal/aggregator/aggregator.go:170-172 | Otherwise Twin names a different line with the same key |
| Aggregator.Table.EmitEntry | internal/aggregator/aggregator.go:144-156 | The entry leaves; the result carries its line and its count, and the time between its first and last line exactly when the count reaches the minimum |
| Aggregator.Table.CollectExpired | internal/aggregator/aggregator.go:134-142 | In any order, exactly the expired entries leave; there is one result for each, with its line, count and duration |
| Aggregator.Table.ProcessLine | internal/aggregator/aggregator.go:64-92 | Expired entries are handed out, then the line is counted or begins an entry; the branch that would emit an expired entry of the same key is never taken |
| Aggregator.Table.TickOnce | internal/aggregator/aggregator.go:109-132 | A tick hands out, or after Stop may abandon, exactly the expired entries |
| Aggregator.Table.FlushAll | internal/aggregator/aggregator.go:158-168 | There is one result for every entry, with its line, count and duration, and no entry stays |
| FileTailer.ResumeExactlyOnce | internal/tailer/file_tailer.go:54-70 | Stopping after any number of lines and starting again at the offset reached gives together the messages of one uninterrupted read |
| FileTailer.LinesUnique | internal/tailer/file_tailer.go:124-134 | The lines are the one way to cut the content so that newlines end pieces and all pieces but the last end with one |
| FileTailer.MessageExact | internal/tailer/file_tailer.go:134-166 | A line loses its newline, one carriage return before that, and what exceeds 256 KiB; if nothing is left, nothing is sent |
| FileTailer.EveryByteOnce | internal/tailer/file_tailer.go:98-171 | Over appends, replacements, reads, cancellations and restarts, all that was ever emitted is the messages of all that was ever consumed, and the lines consumed since reading last began from scratch are the file's bytes up to the offset, each once, unless the file was replaced unnoticed |
| FileTailer.AppendOnlyExactlyOnce | internal/tailer/file_tailer.go:54-171 | On an append-only file everything consumed, over any number of tailers, is exactly the bytes from the start offset to the last offset |
| FileTailer.AppendOnlyMessages | internal/tailer/file_tailer.go:54-171 | If moreover the uncancelled reads find nothing or a newline at the end, the messages emitted are those of one read of those bytes |
| FileTailer.ReplacedReadFullyIff | internal/tailer/file_tailer.go:124-264 | Of a file replaced under a running tailer the next check and read consume everything if and only if it is shorter than the position reached, or nothing was read; otherwise exactly its first bytes up to that position are skipped |
| FileTailer.RestartedOnceIff | internal/tailer/file_tailer.go:89-106 | After a restart the bytes are read exactly once over both tailers if and only if the seek succeeds or is not needed; when it fails the whole file is read, what was read before a second time |
| FileTailer.OnlyCompleteLinesIff | internal/tailer/file_tailer.go:123-171 | A read to the end emits only complete lines if and only if the file is empty, ends with a newline, or has just a carriage return after the last one |
| FileTailer.CutHarmlessIff | internal/tailer/file_tailer.go:124-171 | Exactly when a line cut in two gives the messages of the whole line |
| FileTailer.SplitReadIff | internal/tailer/file_tailer.go:124-171 | Content read in two parts gives the messages of one read if and only if the first part ends with a newline or is empty, the second is empty, or the cut is harmless |
| FileTailer.ReadOnIff | internal/tailer/file_tailer.go:124-171 | The same for a tailer that reads a file, and reads on after an append |
| FileTailer.PartialLineIsSplit | internal/tailer/file_tailer.go:124-171 | A run of such a tailer in which one line becomes two messages |
| FileTailer.Tailer.Start | internal/tailer/file_tailer.go:89-106 | The opening step of the machine: the start offset is sought, or reading and counting begin at zero |
| FileTailer.Tailer.ReadLines | internal/tailer/file_tailer.go:124-171 | Under any cancellation, the reading step of the machine for some number of lines; uncancelled, for all; a cancelled call has not consumed an unterminated line |
| FileTailer.Tailer.HandleWrite | internal/tailer/file_tailer.go:198-208 | A write event: the truncation check, then the read |
| FileTailer.Tailer.HandleTruncation | internal/tailer/file_tailer.go:242-264 | The truncation step of the machine: a file shorter than the position is read again from its start, and only such a file |
| TailerManager.UnchangedMeansEqual | cmd/tailer_manager.go:150-163 | Between configurations of one name, the comparison misses no field |
| TailerManager.ByNameIsLast | cmd/tailer_manager.go:100-104 | Of several sources with one name the last one counts |
| TailerManager.Manager.Add | cmd/tailer_manager.go:49-63 | A created tailer is tracked and runs; a failed creation changes nothing |
| TailerManager.Manager.Remove | cmd/tailer_manager.go:65-79 | A tracked tailer is forgotten and stopped |
| TailerManager.Manager.Reconcile | cmd/tailer_manager.go:100-141 | For any order and any failures: the sources are the wanted ones minus those that needed creation and failed, unchanged names keep their tailer, exactly the removed or changed ones were stopped once, tracked is running |
| TailerManager.SecondReloadOnlyRetries | cmd/tailer_manager.go:100-141 | Reloading the same configuration again stops nothing and only retries the failures |
| TailerManager.ReloadConverges | cmd/tailer_manager.go:100-141 | If everything needed can be created, exactly the wanted configuration runs |
| TailerManager.Manager.StopAll | cmd/tailer_manager.go:81-96 | Every tracked tailer is stopped once, none is tracked or runs, and the Stopped channel is closed, once over any number of calls |
| SecretMask.MaskRestoreRoundTrip | internal/api/handlers_outputs.go:165-179 | Sending a masked configuration back unchanged restores it exactly, whatever it contains |
| SecretMask.MaskIdempotent | internal/api/helpers.go:119-134 | Masking twice is masking once |
| SecretMask.SensitiveWords | internal/api/helpers.go:119-134 | A key is sensitive if and only if its lower-case form has password, token, secret, api_key or apikey somewhere in it |
| SecretMask.NoSecretLeft | internal/api/helpers.go:119-134 | At every path of nested objects a non-empty string under a sensitive key is the mask, and every other value is what it was |
| SecretMask.RestoreByPath | internal/api/handlers_outputs.go:165-179 | At every path a mask stands for the stored value if there is one; any other value that is not an object is the incoming one; keys stay |
| SecretMask.SavingWhatWasShown | internal/api/handlers_outputs.go:143-163 | Saving what was shown never changes the stored configuration |
| SecretMask.IsSensitive | internal/api/helpers.go:121-124 | A key is sensitive exactly when its lower-case form contains one of the five words |
| SecretMask.MaskMapSecrets | internal/api/helpers.go:119-134 | Overwriting the decoded objects in place, in any order, yields the masked tree in the same objects |
| SecretMask.RestoreMaskedSecrets | internal/api/handlers_outputs.go:165-179 | Overwriting the incoming objects in place, in any order, yields the restored tree, which may share parts of the unchanged stored one |
| SecretMask.MaskOutputSecrets | internal/api/helpers.go:98-117 | An object is masked; anything else is shown as it is |
| SecretMask.MergeMaskedSecrets | internal/api/handlers_outputs.go:143-163 | The stored configuration when nothing is submitted, the submitted one when either is not an object, otherwise the restored one |
| Hub.ChannelsSafe | internal/api/hub.go:40-114 | If each client registers at most once, in every run no closed channel is sent to or closed again, and registered clients are open |
| Hub.ReceivedInOrder | internal/api/hub.go:40-94 | What a client receives is, in order, part of the lines given to Broadcast that match its filter; what was put into its channel is what it received and what still waits |
| Hub.RegisteredGetsAll | internal/api/hub.go:59-70 | An open client that stays registered and has fewer than 64 lines waiting at each matching one is given exactly the matching lines that the hub takes, in order |
| Hub.OfferPuts | internal/api/hub.go:59-70 | A line offered to an open client that matches and has room joins the end of its channel |
| Hub.NothingDroppedWithRoom | internal/api/hub.go:87-92 | With fewer than 256 lines waiting at each Broadcast, the lines taken and those waiting are all the lines given to it, in order |
| Hub.RegisterSafeIff | internal/api/hub.go:40-110 | In a hub not stopped, registering a client can never lead, without a further registration, to a send on a closed channel if and only if the client was never given to Register before |
| Hub.SecondFails | internal/api/hub.go:40-110 | The run that makes a second registration fail, whatever became of the first |
| Hub.Registry.Broadcast | internal/api/hub.go:87-92 | Never blocks: with fewer than 256 lines waiting the line joins them, otherwise it is dropped |
| Hub.Registry.PumpOne | internal/api/websocket.go:66-98 | A client's write pump takes the next waiting line: the receive step of the machine |
| Hub.Registry.HandleRegister | internal/api/hub.go:43-46 | The step of the machine that registers the first waiting client, open or not |
| Hub.Registry.HandleUnregister | internal/api/hub.go:48-57 | The step that removes a registered client and closes its channel, once; another client is not touched |
| Hub.Registry.SendOne | internal/api/hub.go:62-68 | One client of a delivery: the line joins its channel if the client matches, is open and has room, and otherwise nothing does |
| Hub.Registry.HandleBroadcast | internal/api/hub.go:59-70 | For some order of the registered clients, the machine's run that offers each the line; every open registered client that matches and has room ends up with the line at the end of its channel, all others with what they had |
| Hub.Registry.HandleDone | internal/api/hub.go:72-82 | The step that closes every registered client's channel and forgets them all |
| Hub.Matches | internal/api/hub.go:122-140 | The early returns amount to: source equal if set, level at least the minimum if both are known |
| Hub.MatchesExactly | internal/api/hub.go:122-140 | A line matches if and only if the source is not set or the line's, and the level names, if both are among the five known ones, are in order |
| LogLines.LevelsInOrder | pkg/logline/logline.go:58-65 | Severity is the place of a name in debug, info, warn, error, fatal, and there are no other level names |

## Left out

- OpenSearchWriter: HTTP, authentication, index templates, body encoding, back-off times and the statistics sink; a request is a script of outcomes. The methods are proved as uninterrupted runs, the interleavings are those of the state machine.
- OpenSearchOrder.QueueInWriteOrder: states the order for runs whose flushes do not overlap; OverlapReordersIff says exactly when a second flush can break it.
- OpenSearchOrder.OverlapReordersIff: is about distinct documents and a queue bound that no document of the state exceeds; equal documents cannot be told out of order, and a smaller bound can drop what would have been reordered.
- Pipeline, DeliveryPath: only without aggregation. After cancellation the pipeline flushes the aggregator once and then keeps feeding it, so the clean accounting does not hold there. Metrics, alerts and the broadcast to the hub have no effect on the accounting.
- DeliveryPath: no swap of the writer and a single OpenSearch writer; fan-out to several writers is not modelled. The line channel is closed, if at all, before the cancel; what happens otherwise is in Pipeline.SafeIffNotClosedAndCancelled.
- OutputManager: a missing initial writer, a second Close, and the drop callback.
- FileTailer: reopening after a rename (the offset is not reset there), read errors other than the end of the file, negative start offsets, and the waiting for file system events; appending to the file and replacing it are events.
- FileTailer.ResumeExactlyOnce: is about one content; growth, restarts and replacement between reads are in AppendOnlyMessages, ReadOnIff, RestartedOnceIff and ReplacedReadFullyIff.
- TailerManager: operations run one at a time, so the window in which Add has published a tailer it has not started is not seen; a start that fails later in its own goroutine is not an error here.
- AlertEngine: notifiers, the event store, the pattern and level evaluators, the periodic deletion of stored events and the closing of the queue.
- Aggregator: the text of the count annotation, which is here the duration that it shows, and that it is written into the first line in place.
- TokenBucket: floating-point rounding; tokens are real numbers.
- FixedWindow: how the address and the exemption are derived from a request; both are inputs.
- SecretMask: decoding and encoding of JSON text; objects inside arrays are not visited by the code either, and arrays are values here.
- Hub: a second Stop, a panic's effect on the process (the model notes it and goes on), and the write and read pumps beyond taking lines off the channel.
- Not modelled at all: CRUD handlers, configuration validation, discovery, bookmarks on disk, health counters, database polling, FileWriter rotation, SSRF and authentication middleware, the web interface; they would only add easy members or foreign calls.
