# Shudo, modelled and proved

Shudo is a local broker: an unprivileged process submits an exact command, a process of UID 0
approves or denies it, and a root daemon runs it once. This project models the broker's
protocol and the algorithms around it, and proves what they promise.

**The protocol.** `Tables` is the database as a value, with each SQL statement or transaction as
one atomic operation (the daemon has one connection, `internal/state/state.go:63`). `Protocol`
is the daemon: submissions, decisions, cancellations, inspections, pruning passes and goroutines
of `execute` are threads that issue one operation at a time. Any thread may move at any time, any
transaction may fail, or commit and still report an error, the process may die at any time, and
it starts again statement by statement. A run is a list of such steps from the empty store; it
leaves a history of calls, answers, inspections and spawns. `Cells` proves per request what every
operation keeps, `Invariant` and `Preservation` lift that to all threads through a rely relation
(`Later`), and `Safety`, `Expiry`, `Exits`, `Finality`, `Executors`, `Reconciliation`,
`CapturedRuns` and `WatchedRuns` draw the claims about all runs. `Effects`, `Executions` and
`Startup` say what each operation does from every reachable state, as the whole new state, failures
included. `Reachability` shows that the claims are not empty: every request the policy does not
deny can be submitted, approved, spawned and finished.

**The store and the limiter.** `Store` and `Limiter` are classes in the form of the source:
statements that update tables, transactions that roll back, slices that are compacted in the
buffers a map holds. Each method is proved against the operation that the protocol uses.

**The algorithms.** `Output` and `Watch` model the capped log, its pages, the streaming loop and
the reconnecting client; `Endings` says what a client has when it is told the end, and `Pipes`
models the pipes between a command and the drains. `Admission` models the sliding minute and the
paired counters. `Glob` gives the emitted regular expressions a meaning of their own and compares
it with a direct matcher; `Policy` evaluates rules. `Display` has the parser that inverts the
command printer. `Timestamps` and `Retention` model the text order that pruning sorts by.

Four promises turn out to hold only under a condition, and the code is kept as it is:

- *A watcher told "finished" has all output.* The watcher reads the chunks and then the status.
  `MissedOutput.EndCanMissOutput` is a run of the daemon and a watcher, from the empty store, in
  which the last chunk is stored in between; `Endings.EndIsComplete` and
  `WatchedRuns.WatcherEndIsComplete` give the exact condition on the steps of the run.
- *A request that succeeded untruncated has all its output stored.* `execute` calls Wait, which
  closes the pipes when the process has exited, before it waits for the drains
  (`internal/daemon/service.go:631-633`). `Pipes.SuccessCanLoseOutput` is a run that loses a byte
  without a trace; `Pipes.WrittenIsStored` and `Pipes.CommandOutputIsStored` give the exact
  condition.
- *Pruning keeps the latest requests.* The order is that of the texts of `created_at`, which drop
  trailing zeros of the fraction (section 5.1 of RFC 3339 asks for a fixed format).
  `Store.PruneTheLatest` is a pass that keeps the earlier of two requests and deletes the later
  one; `Retention.LatestAreKept` says for which tables no pass does so.
- *A policy pattern means the text it is written as.* The compiler reads bytes.
  `Glob.NonAsciiPatternsDiffer` shows a pattern that does not match its own text;
  `Glob.PatternMeansItsText` says that this is so exactly for patterns outside ASCII.

## Model

| member | source | states |
|---|---|---|
| Safety.SpawnedAtMostOnce | internal/daemon/service.go:496-596 | In every run, with any interleaving, retries, deaths and restarts, no request is spawned twice. |
| Safety.SpawnsAreApproved | internal/daemon/service.go:321-393 | Every spawn comes after a UID-0 approve call that echoed the hash of the request stored under its id, and runs the executable, arguments and directory of that request, which was stored exactly once. |
| Safety.ChecksHoldAtBegin | internal/daemon/service.go:501-571 | The hash and approval checks of `execute`, made in separate reads, still hold of the tables when BeginExecution commits. |
| Safety.LateExecuteIsInert | internal/daemon/service.go:496-571 | A late or duplicate `execute` of a request that is no longer APPROVED changes neither the database nor the history and never comes to own an execution. |
| Finality.TerminalIsFinal | internal/daemon/service.go:496-596 | Once a request is terminal, in every continuation of the run its status and output stay and it is never spawned; late executes, retries and restarts included. |
| Safety.IntegrityHolds | internal/daemon/service.go:501-527 | Unless a read or a hash computation fails, no reachable `execute` rejects its request for a wrong hash or a mismatched approval; it moves on, or expires it exactly at its deadline. |
| Exits.ExitIsReported | internal/daemon/service.go:634-654 | In every run, the exit code and signal stored for an execution that ended by its own process are those that the process reported, in some step, to the thread that ran that request; or code 127 after a start that failed. |
| Exits.SuccessIsReported | internal/daemon/service.go:634-654 | A request is SUCCEEDED exactly when code 0 was stored and so reported, and then its command was spawned. |
| Safety.TablesAgree | internal/state/state.go:336-407 | In every reachable state the status, the approval (its decision, whether it is consumed, its hash) and the execution (whether it is there, finished, and with exit code 0) of each request agree, status by status. |
| Safety.OneAnswer | internal/daemon/service.go:321-418 | All successful decision answers about one request in a run are the same: approval id, status and decider; approve and deny never both succeed. |
| Safety.AnswersStay | internal/daemon/service.go:395-418 | After an answer, however the run goes on, the stored decision is the one answered; the same decision gets the same answer again and the other one a conflict. |
| Effects.DecideReads | internal/daemon/service.go:332-376 | From any reachable state, a call that finds the request WAITING, to deny it or to approve it with the stored hash, goes on to store exactly that decision of root, bound to that request and hash. |
| Effects.AcceptApplies | internal/state/state.go:336-359 | In every reachable state a decision can be stored exactly when it is complete, under a new id, on a WAITING request; then it is stored unconsumed and the request is DENIED or APPROVED, and nothing else changes. |
| Effects.DecideAccepts | internal/daemon/service.go:373-392 | A reported commit stores the decision, answers DENIED or APPROVED in the name of the decider, and starts one executor for an approval and none for a denial. |
| Effects.DecisionTakesEffect | internal/daemon/service.go:321-393 | In every reachable state every WAITING request can be denied by root, and approved by root with its hash: the whole new state after the call's steps. |
| Effects.RootCalls | internal/daemon/service.go:101-110 | A decision call of anybody but root changes nothing. |
| Effects.DecideReadsAgain | internal/daemon/service.go:344-352 | A call on a request that is not WAITING looks for the stored decision; only a repeated approval of an APPROVED request may launch it again. |
| Effects.DecideRefuses | internal/daemon/service.go:333-343 | A call for a missing or unreadable request, or an approval with another hash, ends without any change. |
| Effects.CorruptIsRejected | internal/daemon/service.go:353-358 | A WAITING request whose hash cannot be confirmed becomes POLICY_REJECTED, without a decision or an answer. |
| Effects.AcceptFallsBack | internal/daemon/service.go:373-381 | An accept that fails, or reports failure, looks for the stored decision and launches nothing. |
| Effects.ExistingIsAnswered | internal/daemon/service.go:395-418 | The stored decision is answered exactly when it can be read and is the one asked for. |
| Effects.AnswersAreAsked | internal/daemon/service.go:321-393 | In every run, every answer DENIED or APPROVED comes after a call of root for that request and decision; for an approval, with the hash that the stored approval is bound to. |
| Safety.DeniedIsNeverDecided | internal/daemon/service.go:190-199 | A request that the policy denied at submission never gets an approval, an execution, output, an answer or a spawn in any later state. |
| Safety.CancelledByOwnerOrRoot | internal/daemon/service.go:472-494 | A CANCELLED request shows a cancel call by root or by its submitter, and no decision about it was ever stored or answered. |
| Effects.CancelTakesEffect | internal/daemon/service.go:472-494 | In every reachable state root and the submitter can cancel a CREATED or WAITING request, and nothing else changes. |
| Effects.CancelIsRefused | internal/daemon/service.go:480-488 | Any other call to cancel changes nothing. |
| Effects.CancelLoses | internal/daemon/service.go:489-491 | A cancellation that finds another status by then, or fails, changes nothing. |
| Effects.InspectionShows | internal/daemon/service.go:420-444 | An inspection by root shows the stored hash and status and, once decided, the decision, its id and the decider's name. |
| Effects.InspectionIsRefused | internal/daemon/service.go:298-310 | Nobody else inspects, and a missing request shows nothing. |
| Effects.InspectionIsBlank | internal/daemon/service.go:437-442 | When the approval cannot be read, the record shows no decision. |
| Safety.QuotaHolds | internal/daemon/service.go:175-199 | In every reachable state outstanding requests stay within the limits per user and in total, although only submissions take the lock. |
| Effects.SubmissionCounts | internal/daemon/service.go:175-183 | A submission goes on exactly when both counts are below their limits. |
| Effects.SubmissionTakesEffect | internal/daemon/service.go:175-201 | In every reachable state with room, a new request is stored with its own hash and is WAITING, or POLICY_REJECTED if the policy denied it; the whole new state. |
| Effects.SubmissionIsRefused | internal/daemon/service.go:181-183 | Without room the state after the call is the state before. |
| Effects.SubmissionFails | internal/daemon/service.go:184-189 | Without storage or after a failed insertion nothing is stored; after one that only reports an error the request stays CREATED. |
| Safety.OnlyClosedRequestsDisappear | internal/state/state.go:497-549 | Whatever runs between a pruning pass's SELECT and its DELETE, a request that disappears is at that moment terminal, without approval, execution or output. |
| Safety.PruneDeletes | internal/state/state.go:533-549 | The DELETE transaction of every reachable pruning pass commits, removes exactly the selected requests, and touches no approval, execution or output. |
| Effects.PruneTakesEffect | internal/state/state.go:497-549 | In every reachable state a pass that selects prunable requests and deletes at once removes exactly these and changes nothing else. |
| Effects.PruneFails | internal/state/state.go:533-549 | A pass whose transaction fails removes nothing. |
| Safety.OpenLeavesNothingRunning | internal/state/state.go:105-113 | However often startup died before, once Open returns no request is EXECUTING, every execution is finished and the migration marker is set. |
| Safety.HistoryIsKept | internal/state/state.go:89-96 | From any state to any later one, requests keep content and hash, approvals stay and stay consumed, finished executions keep their result, output only grows, and decided requests never disappear. |
| Safety.RelaunchesUnexpiredApprovals | internal/daemon/service.go:665-675 | Startup relaunches exactly the APPROVED requests, and all of them are unexpired at the reading it took. |
| Startup.RestartTakesEffect | internal/state/state.go:575-597 | From any reachable state, a death and the statements of startup leave no thread, guard or lock, fail exactly the EXECUTING requests, finish exactly the unfinished executions with DAEMON_RESTART, and expire exactly the due ones. |
| Startup.RelaunchTakesEffect | internal/daemon/service.go:670-674 | Each listed request gets one executor, and the daemon serves only when all have theirs. |
| Startup.SkippedRelaunch | internal/daemon/service.go:666-670 | A startup whose expiry or query fails serves without relaunching. |
| Safety.EveryWriteIsAnEdge | internal/state/state.go:165-188 | Every status change of every step, bulk updates included, is an edge of the transition table, and new rows are CREATED under an id never issued before. |
| Safety.AtMostFourChanges | internal/state/state.go:17-26 | A request changes status at most four times in any run. |
| Safety.OutputGrowsWhileExecuting | internal/state/state.go:434-468 | In every run output is only appended, in increasing sequence order, and only while the request is EXECUTING. |
| Expiry.ExpiringStep | internal/state/state.go:313-317 | A step that turns a request EXPIRED is a bulk expiry whose own clock reading is at or past the stored deadline, or the rejection by a thread of `execute` that read such a time itself, for that request. |
| Expiry.ExpiredIsPastDeadline | internal/state/state.go:313-317 | No request expires early: for every EXPIRED request the run has the step that turned it, and that step goes by such a reading. |
| Expiry.SpawnedHadTimeLeft | internal/daemon/service.go:505-511 | Nothing is spawned without a look at the clock: before every spawn, a step of an `execute` of that very request read the request and a time before its stored deadline. |
| Effects.ExpiryTakesEffect | internal/state/state.go:313-317 | A bulk expiry of the serving daemon closes exactly the WAITING and APPROVED requests that are due, and nothing else changes. |
| Executions.ExecuteTakesEffect | internal/daemon/service.go:496-596 | In every reachable state, `execute` of an APPROVED request before its deadline, with every outside check passing, consumes the approval and spawns that very command; the whole new state. |
| Executions.GuardDecides | internal/daemon/service.go:497-500 | A goroutine passes the guard exactly when no other holds the request. |
| Executions.ReadDecides | internal/daemon/service.go:501-519 | A request at or past its deadline is to be expired, one in time goes on. |
| Executions.ReadFails | internal/daemon/service.go:501-516 | A request that cannot be read is left alone; one whose hash cannot be confirmed is to be rejected. |
| Executions.FailedCheckRejects | internal/daemon/service.go:520-566 | A failed check rejects the request as POLICY_REJECTED. |
| Executions.RejectionCloses | internal/daemon/service.go:508-566 | The rejection of an APPROVED request always commits, as EXPIRED or POLICY_REJECTED. |
| Executions.BeginTakesEffect | internal/state/state.go:361-386 | BeginExecution always commits on an APPROVED request in a reachable state, inserts the execution and consumes the approval. |
| Executions.BeginFails | internal/daemon/service.go:569-571 | A begin that fails, or only reports failure, spawns nothing. |
| Executions.StartDecides | internal/daemon/service.go:582-596 | A start that works is the spawn; one that fails ends with code 127. |
| Executions.FinishTakesEffect | internal/state/state.go:388-407 | The finish of the thread that owns an execution always commits, SUCCEEDED exactly for code 0, with its code and signal. |
| Executions.FinishFails | internal/daemon/service.go:654-656 | A finish that fails leaves the tables alone. |
| Executions.AppendFails | internal/daemon/service.go:614-625 | An append that fails is dropped and the drain goes on with the next number. |
| Executions.ExitTakesEffect | internal/daemon/service.go:631-656 | When a process ends, its code and signal are stored, the request is SUCCEEDED exactly for code 0 and FAILED otherwise, and the guard is free; the whole new state. |
| Executions.DoneFreesTheGuard | internal/daemon/service.go:500-500 | At its end a goroutine leaves the guard, and nothing else changes. |
| Executors.OneExecutorPerRequest | internal/daemon/service.go:496-500 | Past the in-memory guard, two goroutines never work on the same request at the same time. |
| Reachability.EveryRequestCanSucceed | internal/daemon/service.go:496-656 | With positive quotas, every request that the policy does not deny has a run from the empty store that spawns it and ends in SUCCEEDED. |
| Reconciliation.ReconciliationMatchesServer | apps/cli/cmd/shudo/main.go:363-404 | A decision that the client confirms from an inspected record is the answer that the server gives to a repeated call, then and in every later state, although inspection reads in two steps. |
| Reconciliation.ReconciliationMatchesAnswers | apps/cli/cmd/shudo/main.go:377-404 | A decision confirmed from a record equals every answer that any decision call on that request got. |
| Reconciliation.InspectionConfirms | apps/cli/cmd/shudo/main.go:363-404 | From the record of a decided request the client rebuilds exactly the stored decision when it asks for it with the stored hash, and refuses the other decision and another hash. |
| Reconciliation.InspectionOfUndecided | apps/cli/cmd/shudo/main.go:381-386 | From the record of an undecided request it says whether it is still pending. |
| Reconciliation.WrongRecordIsRefused | apps/cli/cmd/shudo/main.go:378-380 | A record of another request is never taken. |
| Cells.OpKeeps | internal/state/state.go:336-407 | Every operation that the service issues keeps the tables in agreement and moves each request along the table, keeping immutable fields, approvals and finished executions. |
| Preservation.OpIsLater | internal/state/state.go:89-96 | Every operation keeps the facts that other threads rely on: content, hashes, approvals, closed requests. |
| Safety.NextKeeps | internal/daemon/service.go:496-656 | Every step of the system keeps the whole invariant: tables, threads, owners, history, startup phase and quota. |
| Model.TableIsRanked | internal/state/state.go:17-26 | The table is acyclic with a strictly increasing rank, and its sinks are exactly the terminal statuses. |
| Model.TableByTarget | internal/state/state.go:17-26 | The table read backwards: for every status, exactly from where it can be reached. |
| Model.OutstandingStatus | internal/model/model.go:96-103 | The statuses that count as outstanding are exactly those that are not terminal. |
| CapturedRuns.StoredOutputIsAPrefix | internal/daemon/service.go:607-626 | In every state of a run, in the middle of an append and after deaths too, the stored output of a request is a prefix of the blocks read by its drains, within the cap, numbered 0 to k-1. |
| CapturedRuns.FinishedOutputIsExact | internal/daemon/service.go:607-656 | For every execution that ended by its own process, whatever its exit code or signal, the byte count is that of the stored output, the flag is set exactly when a block read by the drains was not stored in full, and the stored length is min(cap, read) unless the storage refused a block. |
| Pipes.RunConserves | internal/daemon/service.go:607-633 | Stream by stream, what the drains read followed by what is still in the pipe is what the command wrote. |
| Pipes.WrittenIsStored | internal/daemon/service.go:607-633 | All that the command wrote is stored, on both streams, if and only if the capture was not cut and both pipes were empty when Wait closed them. |
| Pipes.CommandOutputIsStored | internal/daemon/service.go:607-656 | The same for the stored chunks and the flag of a request in any run of the daemon whose execution ended by its own process. |
| Pipes.TailCanBeLost | internal/daemon/service.go:631-633 | A byte written just before the exit and not read before Wait is lost, and the capture does not count as cut. |
| Pipes.ShortOutputIsStored | internal/daemon/service.go:610-626 | Output that is read before Wait is stored, byte for byte and under its stream. |
| Pipes.SuccessCanLoseOutput | internal/daemon/service.go:631-656 | From the empty store, any request that can succeed can do so with its output lost in the pipe and the flag not set. |
| Output.DrainKeepsAPrefix | internal/state/state.go:434-468 | The appends of one execution store a prefix of the offered bytes within the cap, numbered without gaps, with the flag set exactly when something was lost. |
| Output.DrainFillsTheCap | internal/state/state.go:447-466 | If the storage never refuses, exactly min(cap, offered) bytes are stored. |
| Output.TruncationLatches | internal/state/state.go:444-446 | Once truncated, no further append changes the capture. |
| Output.PageIsGreedy | internal/state/state.go:475-495 | A page is not empty while rows remain, is at most max(limit, its first chunk) bytes, and stops only where the next row would not fit. |
| Output.ScanRows | internal/state/state.go:480-495 | The loop over the rows returns the greedy page, and `more` exactly when rows are left. |
| Output.FromSplits | internal/state/state.go:475-476 | Reading on from the number after the last chunk read selects exactly the rows not yet read. |
| Output.ReadPages | internal/daemon/service.go:223-240 | On a fixed log the repeated page reads end and return together exactly the chunks from the start number on. |
| Watch.ClientEmitsAPrefix | apps/cli/cmd/shudo/main.go:143-163 | Over any number of broken connections on a growing log, the client emits a prefix of the stored chunks, each once and in order. |
| Endings.EndHasReads | internal/daemon/service.go:223-264 | A client that was told the end was served by a page read and then a status read. |
| Endings.EndIsComplete | internal/daemon/service.go:223-264 | A client told the end has all chunks if and only if the log was the same at the last page read and at the last status read; so always when the request had ended before that page read. The status it is told is the one that read saw. |
| Endings.StatusReadDecides | internal/daemon/service.go:241-263 | A status read of a terminal request sends its status as the end and closes; of any other it reads on; of a missing one it closes without an end. |
| Endings.EndedIsDelivered | internal/daemon/service.go:223-264 | A client that connects to a request that has ended, and is not interrupted, gets every chunk it does not have, and the end with its status. |
| MissedOutput.EndCanMissOutput | internal/daemon/service.go:228-241 | From the empty store, any request that can succeed can do so in a run whose watcher is told the end with nothing received, although output is stored. |
| Watch.ReceiveAll | apps/cli/cmd/shudo/main.go:151-163 | The receive loop emits the chunks at or above the wanted number, keeps the next number, and stops at the first end message. |
| Watch.FreshIsFrom | apps/cli/cmd/shudo/main.go:158-162 | On a stream in order, the client's skipping is the server's selection from the wanted number. |
| WatchedRuns.DaemonStepsEvolve | internal/daemon/service.go:496-656 | Every step of the daemon is a change that the watcher model allows. |
| WatchedRuns.DaemonLeavesTheClient | apps/cli/cmd/shudo/main.go:143-163 | A step of the daemon changes only what the database shows; its death also breaks the connection and leaves the client what it has. |
| WatchedRuns.WatcherSeesThePrefix | internal/daemon/service.go:204-264 | Beside any run of the daemon, deaths included, the client has emitted a prefix of the request's chunks in the database. |
| WatchedRuns.WatcherEndHasReads | internal/daemon/service.go:223-264 | Beside any run of the daemon, a client told the end was served by a last page read and a last status read. |
| WatchedRuns.WatcherEndIsComplete | internal/daemon/service.go:223-264 | Beside any run of the daemon, a client told the end has all the request's chunks if and only if the daemon stored none between the last page read and the last status read; so always when the request was terminal at that page read. |
| Admission.RateLimitHolds | internal/daemon/service.go:677-696 | In every run of calls with a clock that never runs back, no window of 60 000 000 000 nanoseconds (t-1m, t] holds more admissions of a user than the limit. |
| Admission.RateIsExact | internal/daemon/service.go:677-696 | A submission is refused for its rate exactly when the minute up to now is full, so forgetting old times never matters. |
| Admission.CountersAreExact | internal/daemon/service.go:677-730 | Over all interleavings of paired calls, the total is the sum of the map and the number of live submissions, both watcher maps sum to the live watchers, keys exist exactly for positive counts, and all limits hold. |
| Limiter.Compact | internal/daemon/service.go:681-687 | Compacting the times in the buffer they are read from gives the simple filter of the old contents. |
| Limiter.Append | internal/daemon/service.go:685-692 | Appending extends the slice in its buffer when there is room, and in a larger copy otherwise. |
| Limiter.TimeTable.CompactTimes | internal/daemon/service.go:681-687 | Compacting a user's slice in the buffer that the map holds keeps exactly the recent times of that user, and all times of the others. |
| Limiter.TimeTable.Submit | internal/daemon/service.go:677-692 | The recent times stay in both cases, and the new time joins them exactly within the limits. |
| Limiter.Limiter.constructor | internal/daemon/service.go:74-79 | A new limiter counts nothing. |
| Limiter.Limiter.AcquireSubmission | internal/daemon/service.go:677-696 | Admits exactly within the three limits; stores the compacted times in both cases and counts the admission. |
| Limiter.Limiter.ReleaseSubmission | internal/daemon/service.go:698-706 | Undoes one admission in both counters and drops a key at zero. |
| Limiter.Limiter.AcquireWatcher | internal/daemon/service.go:708-717 | Admits exactly within both limits and counts in both maps, or changes nothing. |
| Limiter.Limiter.ReleaseWatcher | internal/daemon/service.go:719-730 | Undoes one watcher in both maps and drops keys at zero. |
| Limiter.Decrement | internal/daemon/service.go:701-705 | Decrementing and then deleting at zero keeps only positive counts. |
| Store.Store.constructor | internal/state/state.go:58-115 | A new store is empty. |
| Store.Store.Create | internal/state/state.go:120-132 | Inserts the request as CREATED unless the id is taken or the storage is full; otherwise nothing changes. |
| Store.Store.MoveStatus | internal/state/state.go:165-188 | Moves the status exactly when the row exists, has the expected status and the table allows it; otherwise nothing changes. |
| Store.Store.Transition | internal/state/state.go:159-163 | The same as one transaction of the protocol. |
| Store.Store.AcceptApproval | internal/state/state.go:336-359 | Stores the approval and moves WAITING to its outcome together, or rolls back to the old tables, and reports which. |
| Store.Store.BeginExecution | internal/state/state.go:361-386 | Moves to EXECUTING, inserts the execution and consumes the approval together, or rolls back, and reports which. |
| Store.Store.FinishExecution | internal/state/state.go:388-407 | Ends the execution in SUCCEEDED exactly for exit code 0, with its result, only from EXECUTING. |
| Store.Store.ExpireOutstanding | internal/state/state.go:313-317 | Expires exactly the outstanding requests, CREATED and EXECUTING ones excepted, whose deadline has come; all other rows and tables stay. |
| Store.Store.RecoverStatuses | internal/state/state.go:577-580 | Fails exactly the EXECUTING requests and touches nothing else. |
| Store.Store.RecoverExecutions | internal/state/state.go:581-582 | Finishes every execution; those that were finished keep their result. |
| Store.Store.RecoverInterrupted | internal/state/state.go:575-583 | Both statements in turn: nothing is EXECUTING and every execution is finished. |
| Store.Store.MigrateLocalOnly | internal/state/state.go:585-624 | Rejects exactly the queued, synced, waiting and approved requests, once, and sets the marker; later calls change nothing. |
| Store.Store.OutstandingCounts | internal/state/state.go:264-271 | The six listed statuses count exactly the requests that are not terminal, in total and per user. |
| Store.Store.InsertOutput | internal/state/state.go:459-464 | Inserts the chunk in sequence order, and fails without a change on a number that is taken. |
| Tables.InsertChunkOrders | internal/state/state.go:476-476 | Chunks are kept in the order of their numbers, wherever a new number falls. |
| Store.Store.CountOutput | internal/state/state.go:465-466 | Adds to the byte count and sets the flag of one request. |
| Store.Store.AppendOutput | internal/state/state.go:434-468 | Its statements in turn append the part under the cap and update count and flag; a taken number fails without a change, and after truncation nothing changes. |
| Store.Store.OutputAfter | internal/state/state.go:475-495 | Returns the greedy page of the rows from `after` on, and whether rows are left. |
| Store.Store.DeleteRows | internal/state/state.go:537-545 | Deletes the three kinds of rows of a request unless an approval refers to it. |
| Store.Store.DeleteAll | internal/state/state.go:533-549 | Deletes all listed requests, or none if one of them has an approval. |
| Store.Store.PruneUnapproved | internal/state/state.go:497-549 | After an undisturbed pass at most `retain` unapproved terminal requests are left, each with a time that parses and is not before the cutoff; exactly those gone stood at place `retain` or later, did not parse, or were before the cutoff; all else stays, and a negative limit changes nothing. |
| Retention.SelectDoomed | internal/state/state.go:510-523 | The loop collects exactly the ids of rows at place `retain` or later, that do not parse, or that are before the cutoff. |
| Retention.SurvivorsAreKept | internal/state/state.go:497-549 | After the deletion, the requests that may still be pruned are exactly the kept rows, and exactly the collected ones are gone. |
| Retention.FewAndRecentSurvive | internal/state/state.go:497-549 | At most `retain` requests that may be pruned survive, all of them with a time that parses and is not before the cutoff. |
| Retention.LatestAreKept | internal/state/state.go:497-549 | No pass, with any limit and cutoff, deletes a request that is later than one it keeps, if and only if no two creation times fall in one second with one written fraction the beginning of the other. |
| Store.PruneTheLatest | internal/state/state.go:497-549 | A concrete pass that may keep one of two requests keeps the earlier one and deletes the later one. |
| Timestamps.TextOrderIsChronological | internal/state/state.go:502-505 | Two stored times sort as they happened if and only if they are equal, fall in different seconds, or neither written fraction begins the other. |
| Timestamps.SecondsDecide | internal/state/state.go:502-505 | Across different seconds the text order is the order in time. |
| Timestamps.DateTimeLooksLike | internal/state/state.go:642-642 | The stored date and time, spelled out character by character. |
| Timestamps.TextsLookLike | internal/state/state.go:642-642 | A whole second is stored without a fraction, half a second with `.5`. |
| Timestamps.PrefixesAreReversed | internal/state/state.go:502-505 | Within a second, when one written fraction begins the other, the text order is the reverse of the order in time. |
| Timestamps.SameSecondCounterexample | internal/state/state.go:502-505 | A later time that sorts before an earlier one. |
| Glob.Piece | internal/policy/policy.go:128-140 | One turn of the switch emits the text of exactly the next token and skips its bytes. |
| Glob.Compile | internal/policy/policy.go:125-143 | The index-skipping loop emits the text of the pattern's tokens between anchors. |
| Glob.CompiledTextParses | internal/policy/policy.go:125-144 | The emitted text is a valid expression and parses back to the intended tokens, for every pattern. |
| Glob.CompiledGlobIsCorrect | internal/policy/policy.go:125-145 | For every byte pattern and value, the compiled expression matches exactly when the direct matcher does. |
| Glob.WildcardsSplit | internal/policy/policy.go:130-136 | `**` stands for exactly the texts without a newline and `*` for exactly those without a slash. |
| Glob.CharactersMatch | internal/policy/policy.go:137-140 | `?` stands for exactly one character other than a slash, any other character for itself. |
| Glob.TextsByExample | internal/policy/policy.go:125-143 | The emitted text of each wildcard and of a plain and a special character. |
| Glob.PatternMeansItsText | internal/policy/policy.go:128-140 | A pattern means the text it was written as if and only if it is ASCII. |
| Glob.NonAsciiPatternsDiffer | internal/policy/policy.go:138-140 | A one-letter pattern that does not match its own text. |
| Glob.MatchGlob | internal/policy/policy.go:125-145 | Compiling and then matching with the expression accepts exactly what the direct matcher accepts. |
| Policy.MatchesRequest | internal/policy/policy.go:92-123 | A rule matches exactly when every field it gives does, by its compiled patterns: executable, user, all arguments in number and form, some path. |
| Policy.RulesMeanTheirPatterns | internal/policy/policy.go:92-123 | What a rule matches by its compiled patterns is what it covers by the direct matcher, field by field. |
| Policy.Evaluate | internal/policy/policy.go:74-90 | Over all rules, by the direct meaning of their patterns: deny if some deny rule covers the request; approval if none does and some approval rule does; the default if no rule does. |
| Policy.OrderDoesNotMatter | internal/policy/policy.go:74-90 | The order and repetition of rules do not change the verdict. |
| Policy.DenyCannotBeShadowed | internal/policy/policy.go:75-81 | No rules before or after take back a deny rule that applies. |
| Display.Command | internal/daemon/service.go:751-757 | The loop displays every word and joins them with single spaces. |
| Display.PlainLooksLike | internal/daemon/service.go:759-764 | A non-empty word of letters, digits and `_@%+=:,./-` is shown as it is. |
| Display.OthersLookLike | internal/daemon/service.go:764-766 | Every other word, the empty one included, is shown between double quotes. |
| Display.LinesLookLike | internal/daemon/service.go:751-757 | A line is the shown words with single spaces between them. |
| Display.PrintableLooksLike | internal/daemon/service.go:766-766 | Between quotes printable ASCII is shown as it is, with quotes and backslashes escaped. |
| Display.LettersLookLike | internal/daemon/service.go:766-766 | The seven control characters with one-letter escapes, spelled out. |
| Display.CodesByExample | internal/daemon/service.go:766-766 | The escapes `\x7f`, `\u00e9` and `\U0001f600`, spelled out. |
| Display.EscapeKinds | internal/daemon/service.go:766-766 | Which kind of escape, and of what length, each other character gets. |
| Display.CommandReadsBack | internal/daemon/service.go:751-767 | A parser recovers executable and arguments from the displayed line, for every Unicode text: empty words, spaces, quotes, backslashes, control characters. |
| Display.DisplayIsInjective | internal/daemon/service.go:751-767 | Two commands displayed alike are the same command. |
| Display.DisplayIsPrintable | internal/daemon/service.go:759-767 | A displayed command holds only printable ASCII characters. |

## Left out

- SQLite, its files and JSON columns: tables are maps, transactions are atomic and may fail; the size probe of the storage is an arbitrary answer per call.
- SHA-256 and canonical JSON: the hash is an arbitrary function of the request; nothing needs it to be injective.
- File inspection, descriptors, process start, signals, the execution timer and the kernel's pipe buffers: each check in `execute` passes or fails freely, and the exit code and signal are inputs.
- Peer credentials and gRPC: the caller's UID is a parameter of the call.
- Fields of a request that no modelled step reads: environment, metadata of files, risk notes, reason and nonce.
- Clocks: readings are integers given to each step; a stored deadline that does not parse, and the rounding of SQLite's julianday, are not modelled. `Retention` takes the time parser as a parameter.
- Identifiers: request ids are fresh, so a submission with an id issued before fails; approval ids are not assumed fresh.
- The first, advisory count in Submit (`internal/daemon/service.go:125-133`): it only refuses earlier.
- ExpireOutstanding inside Submit, Watch and decide: expiry may happen at any moment of a run, which includes those.
- The exit code and signal that a wait status stands for: they are inputs of the step in which the process ends.
- Security events, list queries and the migration's schema changes: they do not feed back into the protocol.
- Path resolution in policyPaths: the list of paths is an input of `Policy.MatchesRequest`.
- Command-line parsing, printing and the retry delay of the client.
- Text that is not valid Unicode in `Display`: Dafny's characters are Unicode scalar values.
- Liveness: beyond `Reachability`, no claim is made that a step happens.
- CapturedRuns.StoredOutputIsAPrefix: for runs in which no append statement of the request itself fails, because the drain ignores such errors and goes on.
- CapturedRuns.FinishedOutputIsExact: for runs in which no append statement of the request itself fails, for the same reason; an execution that a restart interrupted may have lost its last block.
- Pipes.CommandOutputIsStored: for runs in which no append statement of the request itself fails, for the same reason.
- Safety.RelaunchesUnexpiredApprovals: a startup whose expiry or query fails relaunches nothing and is a step of its own.
- Store.Store.AppendOutput: a call without interruption; other threads and deaths between its statements are runs of `Protocol`, with the claims in `CapturedRuns`.
- Store.Store.RecoverInterrupted: a call without interruption; a death between its statements is a run of `Protocol`.
