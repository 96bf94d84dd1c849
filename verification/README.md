# Verified models of execution lifecycle, credentials and activation

Dafny 4.11 models of the parts of `packages/cli/src` in which many actors change shared state, with proofs over every
run, every hierarchy or every input. `dafny verify dfyconfig.toml` checks all of it.

| file | models |
|---|---|
| `ResumeProtocol.dfy` | taking over executions across processes: the database row, the compare-and-swap that claims it, and completing children that patch their waiting parent with an unguarded read-check-write; who wins, and how often |
| `ResumeOutcomes.dfy` | on the same machine: how attempts end, at once, after a retry or after a crash, and that a final status is final |
| `ParentResume.dfy`, `ResumeScenarios.dfy` | on the same machine: what the winner runs on, and what becomes of concurrent children's results; four runs in which results are lost |
| `Processes.dfy`, `ProcessRuns.dfy` | that machine joined with one lifecycle machine per process, and how every play projects to runs of its parts |
| `ParentResults.dfy` | what one child writes into its parent's stored data, and what any sequence of children amounts to |
| `ExecutionLifecycle.dfy`, `ConcurrencyQueue.dfy` | one process: reserving capacity, registering, settling, the post-execute callback, and the concurrency queue |
| `Admission.dfy`, `Settlements.dfy` | on the same machine: who waits for capacity and who goes on; by what an execution's status and promise are decided |
| `ExecutionTable.dfy` | on the same machine: what the table remembers, when entries leave it, which windows lose a promise, how shutdown drains |
| `ActiveExecutions.dfy` | the class as it updates its fields in place, each method refining one step of that machine |
| `WaitTracker.dfy` | timers for waiting executions over polls, starts, stops and leadership changes; bounded retries |
| `CredentialTypes.dfy`, `ProxyAuth.dfy` | the worklist that grows while it is iterated; the depth-first walk with one shared `seen` set |
| `CredentialsOverwrites.dfy` | flattening overwrites in place with a memo, looking them up, applying them, saving and reloading them |
| `CredentialRepair.dfy` | repairing credential references through a cache with three kinds of keys |
| `Webhooks.dfy`, `ActivationQueue.dfy`, `LeaderTriggers.dfy` | webhook ownership and rollback, activation retries with backoff, leader-only triggers |
| `Deadlines.dfy` | execution deadlines on the main path, on the sub-workflow path, over resumes and through nested calls |
| `Common.dfy` | `Option` and a little arithmetic |

The state machines have a `Step` datatype for what happens between two awaits, a function `Apply` for its effect and
`Run` for a sequence of steps; theorems quantify over all sequences. Code that updates objects, maps or arrays in place
is a class or a method with its loops. Clocks, identifiers, database failures and outcomes of awaited calls are
parameters or steps. Where a property needs something the callers are relied on to respect, this is a predicate on steps
(`Orderly`, `Unhurried`, `NoOverlap`, `NoAddInFlight`, `TakesOverAbandoned`, and `IsTimely` and `IsUpToDate` for
children's writes), asked only of the execution, key or workflow that the theorem is about. Beside each stand a lemma
that says which steps keep the property, in both directions, and one about its loss.

What the code does differently from what its comments or its callers suggest:

- Removing a waiting execution from the concurrency queue is meant to release its capacity, but it also lets another one
  through while no slot became free (`ExecutionLifecycle.RemoveQueuedOverAdmits`).
- `shutdown` collects ids to cancel, but has disabled concurrency control before, which makes `removeAll` return before
  it writes them (`ActiveExecutions.ActiveExecutions.Shutdown`).
- `determineWorkflowDeadline` says it mirrors the main path; with a maximum of zero or less it does not
  (`Deadlines.PathsAgreeIff`).
- `storeWebhook` rejects a path held by another workflow when it looks, but its update does not look again, nor does
  `deleteWorkflowWebhooks` before it deletes (`Webhooks.HurriedUpdateStealsPath`,
  `Webhooks.OverlappingClearingsDeleteOthersRow`).
- Concurrent children are documented as a harmless last-write-wins; a success can thereby erase a sibling's error, exactly
  as `ParentResume.OverlappingFailureIsErased` says.
- The compare-and-swap looks at the status only, so a claimant held up since an earlier wait can win in a later one and take
  the execution back to the earlier one (`ResumeScenarios.StaleClaimGoesBack`).
- A stop asserts that the execution is stoppable, but its write of `canceled` does not look again
  (`ResumeOutcomes.LateStopReplacesSuccess`).
- Executions tracked when leadership is lost get no timer from the next takeover on
  (`WaitTracker.WaitTracker.LoseAndRegainLeadership`).
- A retry whose `add` returns early, because the workflow is archived or no longer active, is logged as successful and
  leaves its entry in the queue without a timer (`ActivationQueue.NothingLeftBehind`).
- Only the leader is meant to hold triggers, but the check precedes the awaits of an activation
  (`LeaderTriggers.StepDownUnderAddDuplicates`).
- With several `extends` parents `get` and `getOverwrites` rank them in opposite order, and lookups do not survive flattening
  (`CredentialsOverwrites.LookupsSurviveIffSingleInheritance`).

## Model

| member | source | states |
|---|---|---|
| `ResumeProtocol.WinsNeverExceedWaits` | packages/cli/src/active-executions.ts:116-140 | Over every run of any number of timers, child completions, webhooks, retries, recoveries, cancellations and crashes, counted on the run itself: claims of a waiting execution that win plus the wait going on now never exceed the times its row became waiting |
| `ResumeProtocol.ClaimsMatchWaits` | packages/cli/src/active-executions.ts:116-145 | For each execution whose recoveries only take over an abandoned row, whatever happens to others: at most one live run of it, none while its row waits; and runs claimed from `waiting` + cancellations while waiting + the wait going on now = how often the row became waiting |
| `ResumeProtocol.NoRecoveryIsOrderly` | packages/cli/src/interfaces.ts:141-143 | Without claims of the execution that expect `new` that proviso is empty |
| `ResumeProtocol.NewIsClaimedOnce` | packages/cli/src/active-executions.ts:130-140 | In every run, disorderly recoveries included, an execution is taken over from `new` at most once |
| `ResumeProtocol.ClaimKeepsExclusiveIff` | packages/cli/src/executions/enqueued-execution-recovery.service.ts:55-91 | A winning claim leaves a single live run exactly if nobody runs the row, which is always so for a waiting one |
| `ResumeProtocol.RecoveryUnderStarterRunsTwice` | packages/cli/src/active-executions.ts:104-114 | A recovery while the starter still waits for capacity runs the execution a second time |
| `ResumeProtocol.ApplyKeepsSafe` | packages/cli/src/wait-tracker.ts:120-171 | A step keeps one execution exclusive and in balance unless it takes over that one from `new` while somebody runs it |
| `ResumeProtocol.ChangeKeepsBalance` | packages/cli/src/active-executions.ts:130-140 | Of all that can happen to a row only winning the compare-and-swap turns a wait into a resumed run; cancelling withdraws it and a final write begins one |
| `ResumeProtocol.EndRunKeepsSafe` | packages/@n8n/db/src/repositories/execution.repository.ts:413-474 | The final write of a run enters `waiting` once or not at all, and leaves all rows alone if its row is canceled |
| `ResumeOutcomes.UndisturbedAttemptResumes` | packages/cli/src/wait-tracker.ts:120-222 | From any state: a child that ends while its parent waits, undisturbed, resumes it on its results, and a timer or webhook resumes it on the data that is there |
| `ResumeOutcomes.RetriedAttemptResumes` | packages/cli/src/wait-tracker.ts:204-252 | An attempt that failed in patching or starting, even after its claim was won, ends like a new one when it is made again |
| `ResumeOutcomes.EnqueuedIsRecovered` | packages/cli/src/executions/enqueued-execution-recovery.service.ts:55-91 | A row left for somebody to take over is run by an undisturbed recovery, on the data it was left with |
| `ResumeOutcomes.RecoveredAfterCrash` | packages/cli/src/executions/enqueued-execution-recovery.service.ts:55-91 | When the only run of a `new` execution dies with its process, a recovery runs it again and is the only one to |
| `ResumeOutcomes.GivenUpForGood` | packages/cli/src/wait-tracker.ts:130-135 | An attempt that finds its execution missing or succeeded, or gives up, never claims anything |
| `ResumeOutcomes.EndedChangesIff` | packages/@n8n/db/src/repositories/execution.repository.ts:394-474 | Once a row has ended, the two unconditional writes are the only steps that change its status, and always do: `setRunning` by a canceled run that goes on, and the late write of a stop; nobody starts to run it again |
| `ResumeOutcomes.FinalStatusIsFinal` | packages/@n8n/db/src/repositories/execution.repository.ts:413-474 | In runs orderly for an execution: the status it finishes with stays whatever happens later, except for a late stop; `canceled` stays except for a canceled run that marks its row running |
| `ResumeOutcomes.LateStopReplacesSuccess` | packages/cli/src/executions/execution.service.ts:616-737 | A run in which a stop that looked at the status before writes `canceled` over a success |
| `ParentResume.RunKeepsFacts` | packages/cli/src/workflow-helpers.ts:487-572 | The invariant: every row, and everything read from one, is what the chain of patches it has gone through makes of the data at the start of the chain, ends with the last writer seen, and is as complete as the assumptions on this parent's children make it |
| `ParentResume.DataIsFoldOfChain` | packages/cli/src/workflow-helpers.ts:471-572 | In every run: the data of a parent is the fold of the chain of children through whose patches it has gone; its input is that of the last success and its error that of the last failure in this chain, every member of which has ended; node and rest of the stack are as at its start |
| `ParentResume.ClaimRunsOnLastWrite` | packages/cli/src/wait-tracker.ts:125-158 | In every run, whoever claims in the wait in which it has read the parent: it runs on exactly what the pause wrote if no child had written by the read, else on data that ends with the child that had written last: its output if it succeeded, its error if it failed |
| `ParentResume.ChildClaimRunsOnChildOutput` | packages/cli/src/workflow-helpers.ts:471-572 | In every run, a child that ended in the current wait, reports something and claims the parent never runs it on the paused data alone, but on that which ends with the child that had written last in this wait |
| `ParentResume.TimelyClaimStaysInTheWait` | packages/cli/src/workflow-helpers.ts:505-510 | If no child of this parent writes in a later wait than it has read in, the resumed parent is at the node and on the stack on which it waits, and only children of this wait have left results in it |
| `ParentResume.ClaimStaysInTheWaitIff` | packages/cli/src/active-executions.ts:119-135 | In every run, a claim leaves the parent at the node and stack on which it waits exactly if the chain of what was read starts from data that was there |
| `ParentResume.WriteStaysInTheWaitIff` | packages/cli/src/workflow-helpers.ts:568-571 | In every run, a write keeps the parent there exactly if the chain of what the child has read starts there, which is so if no child of this parent ever wrote in a later wait |
| `ParentResume.SerialisedRunsFold` | packages/cli/src/workflow-helpers.ts:471-482 | If no write to this parent overtakes another, its data while it waits is the fold of this wait's writers over the paused data; so its input is the last success, its error the last failure |
| `ParentResume.WriteLosesNothingIff` | packages/cli/src/workflow-helpers.ts:568-571 | The chain goes on through all writers of the wait exactly if the next write overtakes none |
| `ParentResume.WriteKeepsFoldIff` | packages/cli/src/workflow-helpers.ts:568-571 | The first write to a parent that overtakes another keeps the fold exactly if patching what was read and patching what is there give the same |
| `ParentResume.WriteKeepsErrorIff` | packages/cli/src/workflow-helpers.ts:552-566 | In any run, a write by a child without an error keeps the parent's error exactly if it still is the one the child has read |
| `ParentResume.OverlappingFailureIsErased` | packages/cli/src/workflow-helpers.ts:476-481 | The first overtaking write to a parent erases its error exactly if a sibling has failed and written since the read, with another error than the one read |
| `ParentResume.UpToDateIff` | packages/cli/src/workflow-helpers.ts:496-499 | In any run, a write overtakes none exactly if no sibling has written in this wait since the read |
| `ParentResume.ClaimRunsOnWhatWasRead` | packages/cli/src/active-executions.ts:119-135 | Whatever happens in between, a run starts from the data as read; it is the row's data at the claim if the row's version is still the one read |
| `ResumeScenarios.EarlyChildResumesOnOriginalInput` | packages/cli/src/workflow-helpers.ts:501-503 | A run in which a child that ends before its parent waits resumes it on its original input |
| `ResumeScenarios.ConcurrentSiblingErasesError` | packages/cli/src/workflow-helpers.ts:568-571 | A run in which a success erases a sibling's error that writing one after the other would have kept |
| `ResumeScenarios.StaleClaimGoesBack` | packages/cli/src/active-executions.ts:119-135 | A run in which a claimant held up since one wait wins in the next and goes back to the first |
| `ResumeScenarios.LeftOverWriteGoesBack` | packages/cli/src/workflow-helpers.ts:568-571 | A run in which a write left over from one wait puts its stack into the next |
| `Processes.OneRunnerPerExecution` | packages/cli/src/active-executions.ts:116-162 | Over every play of any number of processes on one database, for each execution whose recoveries only take it over when it is abandoned: no two registered calls run it, and while one does its row does not wait |
| `Processes.ReplacedEntryHasEnded` | packages/cli/src/active-executions.ts:151-162 | Likewise, a call that registers with a live run never replaces an entry that is still running: its predecessor has written its final status |
| `Processes.LostClaimOnlyFails` | packages/cli/src/active-executions.ts:137-149 | In every play, a call whose claim was lost changes no row, cannot register, and holds no slot after failing |
| `Processes.WinningClaimRuns` | packages/cli/src/active-executions.ts:130-162 | In every play, a call whose claim wins registers, is the one its table leads to, and runs its execution |
| `Processes.CreatingCallRuns` | packages/cli/src/active-executions.ts:83-104 | And so does a call that creates its row, as soon as it is not throttled |
| `Processes.EventKeepsCoherent` | packages/cli/src/active-executions.ts:83-162 | Each event, orderly or not, keeps processes, rows and the assignment of runs to calls in agreement |
| `ProcessRuns.PlayRunsTheDatabase` | packages/cli/src/active-executions.ts:83-162 | The database in every play is that of a run of `ResumeProtocol`, the play's accesses in their order: all that is proved of its runs holds with any number of processes |
| `ProcessRuns.PlayRunsEachProcess` | packages/cli/src/active-executions.ts:83-185 | And every process in it is in the state of a run of `ExecutionLifecycle` of its own steps |
| `ParentResults.UpdateParentExecutionWithChildResults` | packages/cli/src/workflow-helpers.ts:487-572 | Writes exactly when the child reports something and a waiting parent with a non-empty stack is found; what it writes is the patched parent about which the three folds below are proved |
| `ParentResults.FoldedResults` | packages/cli/src/workflow-helpers.ts:552-566 | Any sequence of children: stack length and all entries but the first are kept; the first entry's data is the last successful child's output, its error (and link to the failed child) the last failing child's even after later successes |
| `ParentResults.FoldedUsage` | packages/cli/src/workflow-helpers.ts:512-525 | A credential-usage flag of the first entry is set at the end exactly if it was set before or some reporting child set it; the user is that of the last child reporting one, also in the runtime data |
| `ParentResults.FoldedTasks` | packages/cli/src/workflow-helpers.ts:527-549 | Of all tasks of all nodes only the waiting task changes, gaining exactly the flags that reporting children have set |
| `ExecutionLifecycle.CapacityIsConserved` | packages/cli/src/active-executions.ts:69-185 | Over every run: free slots + waiting calls + holders = limit, and a reservation is held exactly by calls that have reserved and neither thrown nor had their callback run; without removals from the queue, holders stay within the limit and nobody waits while a slot is free |
| `ExecutionLifecycle.ReleasedExactlyOnce` | packages/cli/src/concurrency/concurrency-capacity-reservation.ts:23-36 | Each `add` gives its reservation back exactly once, by failing or by its callback, and not before |
| `ExecutionLifecycle.StepsOnlyMoveForward` | packages/cli/src/active-executions.ts:83-185 | A call never goes back from finished to holding a slot, and never finishes without having held one |
| `ExecutionLifecycle.FailKeeps` | packages/cli/src/active-executions.ts:146-149 | A lost resume race or database error returns its slot to the longest waiting call |
| `ExecutionLifecycle.CallbackKeeps` | packages/cli/src/active-executions.ts:165-180 | The post-execute callback keeps the accounting, and the limit |
| `ExecutionLifecycle.ReleaseKeeps` | packages/cli/src/concurrency/concurrency-control.service.ts:183-188 | Releasing hands the slot to the longest waiting call, so holders and limit stay in balance |
| `ExecutionLifecycle.LetNextThroughKeeps` | packages/cli/src/concurrency/concurrency-queue.ts:64-74 | The first waiter is admitted and holds the freed slot; the others keep their order |
| `ExecutionLifecycle.RemoveQueuedOverAdmits` | packages/cli/src/concurrency/concurrency-queue.ts:44-54 | Removing a waiting execution drops the call of it that began first and lets another through although no slot was given back: the limit survives exactly when nobody else was waiting |
| `Admission.QueueIsTheLine` | packages/cli/src/concurrency/concurrency-queue.ts:21-42 | In every run the queue holds exactly the throttled calls, each for its execution, in the order in which they began, counted on the run |
| `Admission.ThrottledIffQueued` | packages/cli/src/active-executions.ts:104-121 | A call is throttled exactly if it stands in the queue; without removals nobody is throttled unless all slots are held, so with a free slot `add` goes on at once |
| `Admission.FirstComeFirstServed` | packages/cli/src/concurrency/concurrency-queue.ts:38-74 | Whoever a returned slot lets through began before all others that wait, holds the slot, and the others go on waiting |
| `Admission.DroppedNeverGoesOn` | packages/cli/src/concurrency/concurrency-queue.ts:44-54 | A call taken out of the queue never goes on, whatever happens later |
| `ConcurrencyQueue.IndexOf` | packages/cli/src/concurrency/concurrency-queue.ts:44-46 | The first waiter of an execution, or none |
| `ConcurrencyQueue.ConcurrencyQueue.Enqueue` | packages/cli/src/concurrency/concurrency-queue.ts:21-32 | The caller is let through exactly if a slot is free, else joins the end of the line |
| `ConcurrencyQueue.ConcurrencyQueue.Dequeue` | packages/cli/src/concurrency/concurrency-queue.ts:38-42 | One slot more, and the longest waiting call is released |
| `ConcurrencyQueue.ConcurrencyQueue.Remove` | packages/cli/src/concurrency/concurrency-queue.ts:44-54 | An unknown id changes nothing; a known one leaves the line and the one then longest waiting is released with it |
| `ExecutionTable.TableRemembers` | packages/cli/src/active-executions.ts:151-162 | Over any number of wait/resume cycles an entry keeps the start time of the first registration since the id was last absent and the response promise attached last |
| `ExecutionTable.OrderlyRunsAreTidy` | packages/cli/src/active-executions.ts:164-180 | If the resumes of an id follow settlement as waiting, whatever is done with others: its unsettled promise is the one in the table, and its entry whose callback ran is a waiting one |
| `ExecutionTable.OrderlyIff` | packages/cli/src/active-executions.ts:151-180 | A step keeps the table in this order for an id exactly if it does not register over its entry that has not settled as waiting, re-mark it when its callback ran, or stop it waiting but not settled |
| `ExecutionTable.LeavingTheTable` | packages/cli/src/active-executions.ts:170-180 | In runs orderly about an id its entry leaves the table only when its own promise settled as non-waiting and the callback ran, or, settled as waiting, it was stopped |
| `ExecutionTable.EndOfARun` | packages/cli/src/active-executions.ts:246-265 | In runs orderly about an id the end of a run settles its own promise; its callback returns the slot and keeps the entry exactly if the execution waits |
| `Settlements.CallsAreAsAccounted` | packages/cli/src/active-executions.ts:217-266 | In every run the status of a registered execution is the one set last through its id, running if none was; its promise is resolved or rejected as the first end, or stop of an execution not marked waiting, that reached it has decided, and pending if none did |
| `ExecutionTable.TableLeadsToLatest` | packages/cli/src/active-executions.ts:162-162 | In every run an id in the table leads to its latest registered incarnation |
| `ExecutionTable.FinalizeReachesOwnRunIff` | packages/cli/src/active-executions.ts:247-264 | In every run, the end of a run settles it exactly if it is the latest incarnation of its id and still listed |
| `ExecutionTable.LateFinalizeHitsTheNewRun` | packages/cli/src/active-executions.ts:151-162 | Registering an id before its previous incarnation settles: the old run's end settles, releases and removes the new one |
| `ExecutionTable.StopLosesPromiseIff` | packages/cli/src/active-executions.ts:234-243 | Stopping puts a pending promise out of reach exactly when the entry is marked waiting |
| `ExecutionTable.LostSlotNeverComesBack` | packages/cli/src/active-executions.ts:234-238 | Such a promise is never settled again and its slot is held forever, whatever follows |
| `ExecutionTable.ReMarkedEntryIsStuck` | packages/cli/src/active-executions.ts:314-316 | About the parameter of `setStatus`, for which the program only passes `waiting`: an entry marked running after its callback has run would have nobody left to remove it |
| `ExecutionTable.StuckEntryBlocksShutdown` | packages/cli/src/active-executions.ts:354-363 | Such an entry would outlive any callbacks, and the wait loop with it |
| `ExecutionTable.DrainsIffNothingStuck` | packages/cli/src/active-executions.ts:331-350 | After cancel-all every entry left is settled and its callback is due exactly if no entry whose callback had run was marked as something else than waiting |
| `ExecutionTable.NothingEverStuck` | packages/core/src/execution-engine/node-execution-context/base-execute-context.ts:133-138 | In every run that marks entries as waiting only, which is the one status the program passes, no entry is stuck, however disorderly the run |
| `ExecutionTable.ShutdownDrains` | packages/cli/src/active-executions.ts:354-363 | So cancel-all at any point of any such run leaves, under any callbacks in any order, only entries with a due callback that removes them: the wait loop exits once none is due |
| `ActiveExecutions.ActiveExecutions.ReserveCapacity` | packages/cli/src/active-executions.ts:104-121 | First part of `add`: refines the machine's `Begin` |
| `ActiveExecutions.ActiveExecutions.ReleaseCapacity` | packages/cli/src/concurrency/concurrency-capacity-reservation.ts:30-36 | Only the first release of a reservation has an effect; refines `Release` |
| `ActiveExecutions.ActiveExecutions.AddFailed` | packages/cli/src/active-executions.ts:137-149 | Last part of a failed `add`: refines `Fail` |
| `ActiveExecutions.ActiveExecutions.AddSucceeded` | packages/cli/src/active-executions.ts:151-162 | Last part of `add`: refines `Register`, inheriting from the entry it replaces |
| `ActiveExecutions.ActiveExecutions.SetStatus` | packages/cli/src/active-executions.ts:314-316 | Refines the step; an unlisted id is reported and changes nothing |
| `ActiveExecutions.ActiveExecutions.AttachResponsePromise` | packages/cli/src/active-executions.ts:195-200 | Refines the step; an unlisted id is reported and changes nothing |
| `ActiveExecutions.ActiveExecutions.FinalizeExecution` | packages/cli/src/active-executions.ts:247-266 | Refines `Finalize`; settling twice has no effect |
| `ActiveExecutions.ActiveExecutions.StopExecution` | packages/cli/src/active-executions.ts:217-244 | Refines `Stop`: a waiting entry is removed, any other rejected |
| `ActiveExecutions.ActiveExecutions.PostExecuteCallback` | packages/cli/src/active-executions.ts:164-180 | Refines `Callback`: releases its own reservation but removes whatever the id leads to |
| `ActiveExecutions.ActiveExecutions.RemoveAll` | packages/cli/src/concurrency/concurrency-control.service.ts:205-223 | Does nothing once disabled; otherwise each execution that waits is removed from the queue once, and the given rows are canceled |
| `ActiveExecutions.ActiveExecutions.VisitEntry` | packages/cli/src/active-executions.ts:341-350 | One iteration of the shutdown loop finds its id still present and deals with that entry only |
| `ActiveExecutions.ActiveExecutions.VisitEntries` | packages/cli/src/active-executions.ts:339-350 | The loop deals with every entry, in any order, and collects each snapshot id once when cancelling, none otherwise |
| `ActiveExecutions.ActiveExecutions.Shutdown` | packages/cli/src/active-executions.ts:331-352 | Ends in the shut-down state of the machine, removing exactly waiting (or waiting and new) entries; the ids collected for cancellation are never written |
| `WaitTracker.WaitTracker.GetWaitingExecutions` | packages/cli/src/wait-tracker.ts:82-110 | A poll arms exactly one timer for each due id that was untracked, to fire when the execution is due or at once, and touches no other; if every tracked id had a live timer, all due ids have one now |
| `WaitTracker.WaitTracker.TimerFires` | packages/cli/src/wait-tracker.ts:102-107 | A timer starts the execution it was set for and goes away with its entry |
| `WaitTracker.WaitTracker.StartExecution` | packages/cli/src/wait-tracker.ts:120-122 | A direct start drops the entry and leaves a timer set for it armed |
| `WaitTracker.WaitTracker.StopExecution` | packages/cli/src/wait-tracker.ts:112-118 | Entry and its own timer go, nothing else |
| `WaitTracker.WaitTracker.StartTracking` | packages/cli/src/wait-tracker.ts:70-80 | Polling starts and due untracked ids get timers |
| `WaitTracker.WaitTracker.StopTracking` | packages/cli/src/wait-tracker.ts:254-264 | All timers of the table are cleared, the table is kept |
| `WaitTracker.WaitTracker.LoseAndRegainLeadership` | packages/cli/src/wait-tracker.ts:70-110 | Of the due executions, exactly those not tracked before a stepdown have a timer after the next takeover |
| `WaitTracker.WithRetry` | packages/cli/src/wait-tracker.ts:238-252 | Succeeds exactly if an attempt within the bound succeeds after retryable failures only; sleeps add up to 100·(2^(n-1) - 1) ms over n attempts |
| `WaitTracker.ResumeParentExecution` | packages/cli/src/wait-tracker.ts:194-229 | The parent is resumed exactly if the child finished and both an update and a start succeed within three attempts, after retryable failures only; a finished child always attempts the update, a successful update is always followed by a start, and the caller never sees a failure |
| `CredentialTypes.GetParentTypes` | packages/cli/src/credential-types.ts:26-38 | The loop over its own growing list terminates on every acyclic hierarchy and lists exactly the strict ancestors |
| `CredentialTypes.WorklistEquation` | packages/cli/src/credential-types.ts:29-37 | The finished list is the direct parents followed by the parent lists of its own elements: nothing unvisited, nothing visited twice |
| `CredentialTypes.VisitStaysWithin` | packages/cli/src/credential-types.ts:33-35 | Visiting one entry keeps the worklist a prefix of the finished list and recurses on fewer ancestors (the termination measure) |
| `CredentialTypes.WorklistEnds` | packages/cli/src/credential-types.ts:33-37 | A worklist whose every entry was visited is the finished list |
| `CredentialTypes.ParentTypesAreAncestors` | packages/cli/src/credential-types.ts:23-25 | The names in the list are exactly the types reachable by one or more `extends` edges |
| `CredentialTypes.FiniteResultIffAcyclic` | packages/cli/src/credential-types.ts:26-38 | The defining equation has a finite solution for every type exactly on acyclic hierarchies |
| `CredentialTypes.CycleFeedsItself` | packages/cli/src/credential-types.ts:33-35 | For a type on a cycle there is no finite list at all |
| `CredentialTypes.SingleParentShape` | packages/cli/src/credential-types.ts:31-37 | With one parent: the parent, the parent's list, then only repeats |
| `CredentialTypes.FirstOccurrencesAreTheChain` | packages/cli/src/credential-types.ts:26-38 | On a single-inheritance hierarchy first occurrences come in order of distance |
| `ProxyAuth.SupportsProxyAuthByInheritance` | packages/cli/src/load-nodes-and-credentials.ts:358-375 | On every graph, cyclic ones included, terminates and is true exactly if an OAuth base type is reachable by one or more edges |
| `ProxyAuth.Walk.ExtendsProxyAuthBaseType` | packages/cli/src/load-nodes-and-credentials.ts:364-375 | A false answer means that all this call has added to the shared set, and the type itself, has been explored without a base type |
| `ProxyAuth.BranchExplored` | packages/cli/src/load-nodes-and-credentials.ts:367-374 | Branches that share and mutate one set together leave a closed set |
| `ProxyAuth.ClosedSetTrapsPaths` | packages/cli/src/load-nodes-and-credentials.ts:369-370 | No path leaves a set closed in this way |
| `CredentialsOverwrites.CredentialsOverwrites.SetPlainData` | packages/cli/src/credentials-overwrites.ts:110-123 | For every order of the keys: each field configured for a type or a known ancestor that was not touched before is stored with the type, and every stored field is configured for it or an ancestor. With single inheritance each type is stored as what a climb from it finds, cut off at the first type touched before; wherever no earlier key shares an ancestor that is the whole nearest lookup; and no lookup through the table changes |
| `CredentialsOverwrites.FlatteningStoresClimbs` | packages/cli/src/credentials-overwrites.ts:110-123 | With single inheritance the order of the visits and the table as configured determine, climb by climb, all that is stored |
| `CredentialsOverwrites.FlattenedIsComplete` | packages/cli/src/credentials-overwrites.ts:110-123 | A type that no earlier key shares itself or an ancestor with is stored with its whole nearest lookup |
| `CredentialsOverwrites.FlatteningCollects` | packages/cli/src/credentials-overwrites.ts:178-208 | On every acyclic hierarchy, with any number of parents: no field of a known ancestor not touched before is missed |
| `CredentialsOverwrites.FlattenedMemo` | packages/cli/src/credentials-overwrites.ts:178-208 | The memo is exactly the known types visited and their known ancestors |
| `CredentialsOverwrites.CredentialsOverwrites.GetOverwrites` | packages/cli/src/credentials-overwrites.ts:178-208 | Exactly what is visible past the memo with single inheritance; with several parents own fields over ancestors' fields; memoises the known among the type and its ancestors, and nothing else |
| `CredentialsOverwrites.CredentialsOverwrites.Get` | packages/cli/src/credentials-overwrites.ts:210-223 | Undefined exactly if no self-or-ancestor has an entry; otherwise each field is that of the first type in worklist order, which with single inheritance is the nearest |
| `CredentialsOverwrites.FlatteningKeepsLookups` | packages/cli/src/credentials-overwrites.ts:110-123 | However much flattening the memo skipped, the nearest-ancestor lookup of the stored table equals that of the raw one |
| `CredentialsOverwrites.VisibleIsNearest` | packages/cli/src/credentials-overwrites.ts:178-182 | What the memo lets through is never wrong, only incomplete |
| `CredentialsOverwrites.FreshVisibleIsComplete` | packages/cli/src/credentials-overwrites.ts:184-207 | With an empty memo and known ancestors it is complete |
| `CredentialsOverwrites.StoringFlattenedIsSound` | packages/cli/src/credentials-overwrites.ts:116-121 | Writing a partially flattened type back keeps raw ⊆ stored ⊆ resolved |
| `CredentialsOverwrites.FirstWithIsNearest` | packages/cli/src/credentials-overwrites.ts:210-223 | Repeated ancestors further down the worklist never win over the nearest one |
| `CredentialsOverwrites.SoundLookup` | packages/cli/src/credentials-overwrites.ts:110-123 | For any number of parents: flattening neither adds nor loses a field of any lookup, keeps a type's own, and takes the others from its ancestors |
| `CredentialsOverwrites.LookupsSurviveIffSingleInheritance` | packages/cli/src/credentials-overwrites.ts:110-223 | On hierarchies whose named types are known and whose parents are distinct: flattening keeps every lookup of every table in every key order exactly with single inheritance, and otherwise some table loses a lookup in every key order |
| `CredentialsOverwrites.ParentsRankedDifferently` | packages/cli/src/credentials-overwrites.ts:196-223 | For every acyclic hierarchy: of two parents with the same field `get` finds the first one's, and `getOverwrites` the last one's |
| `CredentialsOverwrites.FlattenedIsSandwiched` | packages/cli/src/credentials-overwrites.ts:110-123 | raw ⊆ stored ⊆ resolved after any visits in any order, single inheritance given |
| `CredentialsOverwrites.ResolvedIsMerged` | packages/cli/src/credentials-overwrites.ts:178-208 | For any number of parents: own fields win, every other field is some ancestor's, and only the type and its ancestors are memoised |
| `CredentialsOverwrites.CredentialsOverwrites.ApplyOverwrite` | packages/cli/src/credentials-overwrites.ts:140-176 | Fills exactly the unset fields that have an overwrite, and nothing at all for a customized credential of a skip-list type |
| `CredentialsOverwrites.ApplyLaws` | packages/cli/src/credentials-overwrites.ts:150-175 | Applying keeps every filled-in field, is idempotent, and leaves nothing to inject that would differ, skip-list types included (so applied data is not managed) |
| `CredentialsOverwrites.AppliedUnlessCustomized` | packages/cli/src/credentials-overwrites.ts:150-175 | A skip-list credential with a field filled in differently stays as it is; in any other every missing, null or empty field that has an overwrite is filled |
| `CredentialsOverwrites.CredentialsOverwrites.UsesManagedAuth` | packages/cli/src/credentials-overwrites.ts:259-267 | True exactly if applying injects a value the data does not have |
| `CredentialsOverwrites.CredentialsOverwrites.IsManagedOAuthType` | packages/cli/src/credentials-overwrites.ts:238-257 | True exactly for known types off the skip list, descending from an OAuth base, whose client fields (by OAuth version) some self-or-ancestor provides |
| `CredentialsOverwrites.LookupIsUnique` | packages/cli/src/credentials-overwrites.ts:210-223 | The lookup determines the fields `get` returns |
| `CredentialsOverwrites.CredentialsOverwrites.SetData` | packages/cli/src/credentials-overwrites.ts:125-138 | What is saved is the table flattened in place, and lookups are those of the data given |
| `CredentialsOverwrites.CredentialsOverwrites.LoadOverwriteDataFromDB` | packages/cli/src/credentials-overwrites.ts:64-84 | Loading flattens the saved table again and gives its lookups; without one nothing changes |
| `CredentialsOverwrites.CredentialsOverwrites.SaveAndReload` | packages/cli/src/credentials-overwrites.ts:64-138 | Saving and reloading any number of times leaves every lookup unchanged (single inheritance), and never which fields it has (any hierarchy) |
| `CredentialRepair.ReplaceInvalidCredentials` | packages/cli/src/workflow-helpers.ts:307-436 | Every node, whatever the order and whatever the same project cached before, is repaired as the rows of the database have it; disabled nodes and unsafe types are untouched |
| `CredentialRepair.RepairNode` | packages/cli/src/workflow-helpers.ts:318-433 | One node: repaired, or passed over if disabled or without credentials |
| `CredentialRepair.ReplaceReference` | packages/cli/src/workflow-helpers.ts:325-431 | With an id: the row of that id and type, if there is one; else, or with a bare name or null id, the only row of that name and type in the project; else the reference stays, through whatever cache. Every cache entry stays justified by the rows |
| `CredentialRepair.ReplaceNodeCredentials` | packages/cli/src/workflow-helpers.ts:319-432 | All references of a node, in any order, with the same set of types |
| `CredentialRepair.ReferenceIsRepairedOnce` | packages/cli/src/workflow-helpers.ts:337-431 | Repairing a repaired reference changes nothing |
| `CredentialRepair.RepairIsUnique` | packages/cli/src/workflow-helpers.ts:325-431 | The rows determine the repair, but for the form of an unresolved bare name |
| `CredentialRepair.RepairIsIdempotent` | packages/cli/src/workflow-helpers.ts:307-436 | Two repairs with unrelated caches end in the same references as one |
| `CredentialRepair.FindOneBy` | packages/cli/src/workflow-helpers.ts:390-393 | The one credential of that id and type, or none |
| `CredentialRepair.FindUniqueByName` | packages/@n8n/db/src/repositories/credentials.repository.ts:397-403 | Some credential exactly if there is a single one of that name and type in the project |
| `Webhooks.WebhookRegistry.StoreWebhook` | packages/cli/src/webhooks/webhook.service.ts:214-239 | Registers on the primary key, never over another workflow's path; which of the three accesses fails decides the error, and any failure leaves the table alone |
| `Webhooks.WebhookRegistry.ClearWebhooks` | packages/cli/src/active-workflow-manager.ts:236-273 | When nothing interleaves: no row of the workflow and all rows of others are left, or it fails before touching the table |
| `Webhooks.WebhookRegistry.AddWebhooks` | packages/cli/src/active-workflow-manager.ts:148-230 | Whatever happens, other workflows' rows are untouched; throws only if some webhook is blocked, and with that webhook's error, a failed query being reported as a taken path; with a successful rollback it then leaves no row of its own; when it returns normally every webhook is registered, except where the database failed on startup or takeover, the last one of each key with its node, and no other row has changed |
| `Webhooks.UndisturbedRegistration` | packages/cli/src/webhooks/webhook.service.ts:214-239 | The interleaved accesses refine the method: with nothing in between they store or refuse as `storeWebhook` does |
| `Webhooks.UndisturbedClearing` | packages/cli/src/webhooks/webhook.service.ts:279-299 | And a clearing deletes exactly the rows of its workflow |
| `Webhooks.StepTouchesOnlyItsOwnIff` | packages/cli/src/webhooks/webhook.service.ts:214-299 | Across interleavings of the single accesses, a step alters another workflow's row exactly if it updates or deletes by its key, which has come into other hands since it was looked up |
| `Webhooks.LookupsHoldIff` | packages/cli/src/webhooks/webhook.service.ts:279-299 | What was looked up under a key stays valid exactly if the row is not deleted while another registration or clearing that has looked it up is pending |
| `Webhooks.UnhurriedRunsHold` | packages/cli/src/webhooks/webhook.service.ts:214-299 | In runs without such deletes of a key, whatever they do elsewhere, whoever is about to update or delete its row owns it |
| `Webhooks.NoWorkflowLosesRows` | packages/cli/src/webhooks/webhook.service.ts:214-299 | In such runs, of any number of registrations and clearings, no step ever alters another workflow's row under this key |
| `Webhooks.HurriedUpdateStealsPath` | packages/cli/src/webhooks/webhook.service.ts:235-238 | A run in which an update takes back a path that changed hands |
| `Webhooks.OverlappingClearingsDeleteOthersRow` | packages/cli/src/webhooks/webhook.service.ts:279-299 | A run in which the second of two clearings of one workflow deletes the row of another |
| `ActivationQueue.OneTimerWithBackoff` | packages/cli/src/active-workflow-manager.ts:876-951 | If a workflow is not queued again during its own retry, whatever happens to others: at most one armed timer for it, with delay min(1000·2^k, 86400000) after k failed retries since it was queued, counted on the run, isolate errors excepted |
| `ActivationQueue.DelayFollowsFailures` | packages/cli/src/active-workflow-manager.ts:914-930 | In every run, re-queues during a retry included, the delay kept for a queued workflow is that of its failures since it was queued, counted on the run |
| `ActivationQueue.OwnTimerFollowsFailures` | packages/cli/src/active-workflow-manager.ts:930-931 | And it is the delay of the timer the entry knows of |
| `ActivationQueue.BackoffStep` | packages/cli/src/active-workflow-manager.ts:914-917 | A failure goes from the k-th to the (k+1)-th delay, an isolate failure keeps it |
| `ActivationQueue.NoOverlapIff` | packages/cli/src/active-workflow-manager.ts:940-950 | A step keeps a workflow's one timer or retry known to its entry exactly if it does not queue the workflow during its own retry |
| `ActivationQueue.NothingLeftBehind` | packages/cli/src/active-workflow-manager.ts:889-937 | In such runs success, policy refusal and removal leave the workflow neither queued nor with a timer; if `add` returns early the entry stays in the queue with neither timer nor retry |
| `ActivationQueue.ApplyKeepsOrderly` | packages/cli/src/active-workflow-manager.ts:876-961 | Each such step keeps the workflow's one timer or retry known to its entry |
| `ActivationQueue.RunsAreFresh` | packages/cli/src/active-workflow-manager.ts:907-950 | In every run each queueing of a workflow has at most one timer or retry, re-queues during a retry included |
| `ActivationQueue.AttendedIff` | packages/cli/src/active-workflow-manager.ts:554-587 | The queued workflow keeps a timer or retry of its own entry exactly unless `add` returns early in that retry: archived, or no longer active |
| `ActivationQueue.QueuedIsTriedAgain` | packages/cli/src/active-workflow-manager.ts:876-961 | Over all runs, re-queues during retries included, in which no retry of the queued entry ends so: a queued workflow is always about to be tried again |
| `ActivationQueue.EntryStaysIff` | packages/cli/src/active-workflow-manager.ts:894-961 | In every run an entry goes exactly by being replaced, by success of a retry of its workflow, by removal, or by refusal of its own retry; a refused older retry leaves a newer entry alone |
| `ActivationQueue.FailingRetryArmsSecondTimerIff` | packages/cli/src/active-workflow-manager.ts:909-931 | A failing retry leaves at most one timer exactly if its workflow is no longer queued or had none armed |
| `ActivationQueue.RequeueDuringRetryLeavesTimer` | packages/cli/src/active-workflow-manager.ts:930-960 | A re-queue during a retry, then a removal, leaves a timer that still tries to activate |
| `ActivationQueue.ActivationQueue.AddQueuedWorkflowActivation` | packages/cli/src/active-workflow-manager.ts:940-950 | Refines the machine's `Queue` |
| `ActivationQueue.ActivationQueue.RemoveQueuedWorkflowActivation` | packages/cli/src/active-workflow-manager.ts:956-961 | Refines `Remove` |
| `ActivationQueue.ActivationQueue.RetryStarts` | packages/cli/src/active-workflow-manager.ts:884-890 | Refines `Fire` |
| `ActivationQueue.ActivationQueue.RetryFails` | packages/cli/src/active-workflow-manager.ts:907-932 | Refines `Fail`, editing whichever entry is queued now |
| `ActivationQueue.ActivationQueue.RetrySucceeds` | packages/cli/src/active-workflow-manager.ts:681-682 | Refines `Succeed`, for an `add` that gets to the end |
| `ActivationQueue.ActivationQueue.RetrySkipped` | packages/cli/src/active-workflow-manager.ts:554-587 | Refines `Skip`, for an `add` that returns early: the queue is not touched |
| `ActivationQueue.ActivationQueue.RetryRefused` | packages/cli/src/active-workflow-manager.ts:894-905 | Refines `Refuse`, removing only the retry's own entry |
| `LeaderTriggers.TriggersHeldOnce` | packages/cli/src/active-workflow-manager.ts:500-516 | For each workflow: if nobody steps down under an activation of it, the loop's own included, then over all runs of any number of instances only the leader holds its triggers, so they are not held twice |
| `LeaderTriggers.ApplyKeepsIff` | packages/cli/src/active-workflow-manager.ts:576-577 | Stepping down between check and registration of the workflow is the only step that endangers this, and always does |
| `LeaderTriggers.RegistrationKeepsIff` | packages/cli/src/active-workflow-manager.ts:667-674 | Completing an activation keeps it exactly if its early check was negative or the instance still leads |
| `LeaderTriggers.HoldsIffRegisteredSince` | packages/cli/src/active-workflow-manager.ts:667-674 | In every run an instance holds exactly the triggers whose activation was started while it led and has been completed, and that were neither removed nor torn down by a stepdown since; a failed, refused or follower's activation adds none |
| `LeaderTriggers.AddsAreAsStarted` | packages/cli/src/active-workflow-manager.ts:576-577 | An activation in progress is for the workflow it was started with and keeps the answer of its early check, until it registers or fails |
| `LeaderTriggers.LoopIsAsBegun` | packages/cli/src/active-workflow-manager.ts:394-423 | What a loop has still to start on is the list of the first activation begun since the last loop ended, less those started on: one begun meanwhile is skipped |
| `LeaderTriggers.StepDownUnderAddDuplicates` | packages/cli/src/active-workflow-manager.ts:409-417 | A run in which a leader stepping down under its activation loop ends up holding triggers next to the new leader |
| `LeaderTriggers.ReachIsConserved` | packages/cli/src/active-workflow-manager.ts:409-492 | While an instance leads, what it holds, is adding or has still to start on is conserved, whatever the interleaving, except for activations that fail or are refused |
| `LeaderTriggers.TakeOverCoversIff` | packages/cli/src/active-workflow-manager.ts:394-423 | If no activation fails, the new leader comes to hold every active workflow exactly if no loop was in progress at the takeover or it had passed none of them over |
| `LeaderTriggers.TakeOverMissesOnlyFailures` | packages/cli/src/active-workflow-manager.ts:453-490 | With failures, all that is missing has failed or been refused |
| `Deadlines.RunMainProcessTimeouts` | packages/cli/src/workflow-runner.ts:368-483 | Lines 368-372, 391-397 and 461-483: the soft deadline counts from the first clock reading; the hard timer, armed later, fires one limit after that in a first run and at max(armed, startedAt + limit) in a resume |
| `Deadlines.RunAndResume` | packages/cli/src/workflow-runner.ts:461-483 | However often an execution is resumed, the hard timers of all resumes aim at the row's start + limit |
| `Deadlines.ResumesStopNoLater` | packages/cli/src/workflow-runner.ts:463-469 | No resume is stopped later than the first run would have been, unless its timer is armed only then |
| `Deadlines.PathsAgreeIff` | packages/cli/src/workflow-execute-additional-data.ts:247-275 | The main and the sub-workflow deadline agree exactly when the maximum is positive or no timeout is requested |
| `Deadlines.DeadlineIsTheEarlierLimit` | packages/cli/src/workflow-runner.ts:368-372 | With a positive maximum the deadline is the earlier of the requested and the maximal one, and there is one exactly if a timeout is requested |
| `Deadlines.SoftAgainstHard` | packages/cli/src/workflow-runner.ts:391-397 | In a first run the soft deadline is never later than the hard stop; in a resume it is never earlier exactly if arming the timer took no longer than the limit |
| `Deadlines.NestedDeadlineIsEarliest` | packages/cli/src/workflow-execute-additional-data.ts:280-292 | For any depth: the minimum of own deadlines back to the nearest detached call |
| `Deadlines.EarliestGoverningIsUnique` | packages/cli/src/workflow-execute-additional-data.ts:280-292 | That property determines the deadline |
| `Deadlines.WaitedOnNeverOutlives` | packages/cli/src/workflow-execute-additional-data.ts:625-631 | A call that is waited on never has a later deadline than any level it is waited on by |

## Left out

- CredentialsOverwrites.CredentialsOverwrites.SetPlainData: with several parents per type, which of the ancestors' values for a field is stored depends on the key order and is stated only as the spec function `Flattened`; which fields are stored and whose values they can be is proved.
- CredentialsOverwrites.LookupsSurviveIffSingleInheritance: hierarchies that name unknown types or one parent twice are not covered in the second direction.
- CredentialTypes.GetParentTypes: on cyclic hierarchies the loop does not end, so only acyclic ones are called; `FiniteResultIffAcyclic` shows nothing is lost.
- ResumeProtocol.ClaimsMatchWaits: that a recovery only meets abandoned rows is assumed, as `ClaimKeepsExclusiveIff` shows it must be; marking executions as crashed is not modelled, and retries are not bounded.
- ResumeProtocol.EndRunKeepsSafe: final writes of data, and the data a stop writes back with `canceled`, are not modelled, since nobody is resumed on them.
- ParentResume.ClaimRunsOnLastWrite: claims in another wait than the one that was read in are covered by `ClaimRunsOnWhatWasRead` and `ClaimStaysInTheWaitIff`.
- Processes.OneRunnerPerExecution: a process that dies keeps its state as it was, its runs being ended by `Crash`; shutdown is not part of this machine.
- ActiveExecutions.ActiveExecutions.AddSucceeded: executions are numbered values in a map instead of heap objects; the callback keeps the number, the table maps ids to numbers.
- ActiveExecutions.ActiveExecutions.Shutdown: ends before the wait loop, whose exit is `ExecutionTable.ShutdownDrains`; time between its looks at the table is not modelled.
- Webhooks.WebhookRegistry.ClearWebhooks: the rows are read and deleted with nothing in between; the interleaving of the two accesses is in `Webhooks.NoWorkflowLosesRows`. The webhook cache is not modelled.
- LeaderTriggers.TriggersHeldOnce: the publication-service flag is off, at most one instance leads at a time, and a stepdown and its teardown are one step; batches are not delimited, so any number of the loop's activations may overlap.
- LeaderTriggers.TakeOverCoversIff: a loop that is broken off because an activation throws is a step of the machine but not part of this statement.
- CredentialRepair.ReplaceInvalidCredentials: the database does not change during a repair and belongs to one project; ids and names are present except for a null id; cache keys are a datatype instead of JSON text.
- ParentResults.UpdateParentExecutionWithChildResults: the last executed node's data and the summary of credential usage are inputs, a user being summarised only together with use.
- Credential values that are objects: fields are scalars, so the deep copy is the identity.
- A type without `extends` and one with an empty list are the same, and the registry of known types and that of loaded types are taken to agree.
- That every admitted execution is eventually finalized: false in general, since errors can occur outside the guarded part of a run.
- Response modes, HTTP responses, streaming, response-promise rejection, events, logging and telemetry: nothing proved here depends on them.
- The evaluation queue's lazy set-up and queue mode with its workers: the process modelled has one limited queue.
- `shouldRestartParentExecution`, `supportsManagedAuth`, `getAll` and similar one-line lookups: there is nothing to prove about them.
- The data-deduplication service: a lookup table over two calls of a deduplicator that is not part of this model.
- Workflow publication, static data, policy checks and expression isolates during activation: outcomes only.
