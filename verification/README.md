# Verified model of the agent platform's protocols

Dafny models of eight protocols and algorithms of the repository, with proofs of what they
guarantee on every input and in every interleaving.

| area | files |
|---|---|
| Fleet leased-DAG orchestrator | FleetDag, FleetState, FleetOps, FleetRuns, FleetOrchestrator, FleetProgress, FleetAnswers |
| SoulX child processes | SoulX, SoulXProgress |
| HarnessLab traces and event bus | TraceContract, TraceRuntime, TraceProducer, TraceOutcomes, TraceReports, EventBus |
| Semantic chunker | Chunker |
| VAD span pipeline | Spans, SpanStages |
| WebSocket client codec, sections 5.2 to 5.5 of RFC 6455 | WebSocket, WebSocketWire |
| Gateway flow control | OutboundPump, OutboundProgress, TokenBucket, RateGateway, RateLimits, RateDecisions |
| Replay cache | ReplayCache |
| shared | Options, Sequences, Sets |

How the pieces fit:

- State machines are given twice: as a transition function on values, over whose runs the
  theorems are proved, and as a class whose methods update fields in place as the source does and
  are proved to perform exactly those transitions.
- A concurrent object is cut into one step per stretch of code between awaits; a run is any legal
  sequence of steps. A Fleet call is one step, because its HTTP handlers contain no await.
- Clock readings, identifiers, query row orders, adapter and tool behaviour, network chunking and
  mask keys are parameters. Fleet clock readings may be in any order; identifiers are fresh.
- Each transition function is also described without naming it: which answers a call gives, which
  rows, events or bytes it leaves, and, where waiting is involved, that what is due can still be done.
- Fleet events carry the lease token as history, so that grants and endings can be counted.

Where the code promises less than one might expect, the model follows the code and the exact
condition is proved:

- An expired lease fails a node without failing its workflow (`ExpiryLeavesWorkflowRunning`); a
  workflow is marked failed exactly when a worker or an approver recorded a failure.
- A heartbeat revives an overdue lease exactly if it was not swept (`HeartbeatRevives`,
  `HeartbeatRevivesExactly`).
- A workflow can be completed exactly while none of its nodes has failed (`CanCompleteExactly`).
- `complete` and `fail` by a worker whose registration is gone would stop at the metrics lookup;
  `SchedulerSafety` shows that a leased node's worker is always registered.
- The replay cache can accept a token again after its expiry: inside the skew window, and with
  zero skew when the clock passes the expiry between screening and consuming
  (`SecondUseExactly`, `ReuseExactly`, `ClockMayPassExpiry`).
- Evicting idle buckets keeps the rate limit, and goes unnoticed, exactly if a bucket fills in the
  120 idle seconds (`WindowBoundExactly`, `EvictionUnobservableExactly`), which the validation of
  the settings does not guarantee (`SomeSettingsAreTooSlow`).
- A flush pending while `stop` runs returns normally although items may have been discarded; all
  it waited for was sent exactly if it had been when `stop` was called (`StopBreaksFlush`,
  `FlushExactly`).
- A subscriber whose `after` lies beyond the log is handed later events that are not above
  `after` (`DeliveryExactly`, `BeyondTheLog`), and one closed during replay stays registered
  (`ClosedEarlyStaysRegistered`, `ReplayLeaks`).
- Repeated call ids and reused run ids break the trace contract (`RunConformsExactly`,
  `RepeatedIdBreaks`).
- A piece of a split span can exceed the maximum (`OversizeExactly`, `OversizeHappens`).
- The inference lock cannot be given back once the reaper reported a tree alive, even if the tree
  dies before the close acts on the report (`ReleasableExactly`, `DyingTooLate`).

`dafny verify dfyconfig.toml` checks the project.

## Model

| member | source | states |
|---|---|---|
| `FleetDag.DagSearch.Visit` | services/fleet/src/evoagent_fleet/models.py:56-65 | The recursive visit terminates; a normal return has finished the node with `visiting` as before; a rejection hands back the calls in progress, which extend the stack and match `visiting`, and the place from which they form a cycle. |
| `FleetDag.ValidateDag` | services/fleet/src/evoagent_fleet/models.py:40-69 | Accepts exactly the specifications with unique ids, known dependencies and a rank function; each rejection says which defect comes first, and a cycle rejection comes with a cycle. |
| `FleetDag.CheckDependencies` | services/fleet/src/evoagent_fleet/models.py:46-51 | The first offending row decides between unknown and self dependency; no offence exactly when every dependency is known and none is the node itself. |
| `FleetDag.SearchAll` | services/fleet/src/evoagent_fleet/models.py:52-69 | Starting the search from every node succeeds exactly on acyclic graphs. |
| `FleetDag.FinishOrderRanks` | services/fleet/src/evoagent_fleet/models.py:61-65 | The order in which visits finish is a rank function of the graph. |
| `FleetDag.CycleRefutesRank` | services/fleet/src/evoagent_fleet/models.py:57-58 | A cycle excludes every rank function, so rejection is never wrong. |
| `FleetDag.DistinctCount` | services/fleet/src/evoagent_fleet/models.py:42-44 | Comparing the list length with the set size detects exactly the repeated ids. |
| `FleetState.MoveLowersMeasure` | services/fleet/src/evoagent_fleet/orchestrator.py:90-334 | Every status write lowers the measure: blocked 2m+2, awaiting 2m+1, leased 2r+1, queued 2r, terminal 0. |
| `FleetState.MoveKeepsToken` | services/fleet/src/evoagent_fleet/orchestrator.py:90-273 | A move keeps the token books: granted at most once, held by at most one node, ended exactly when no longer held. |
| `FleetState.MoveKeepsInv` | services/fleet/src/evoagent_fleet/orchestrator.py:20-334 | The whole row, order, work, token and failure invariant survives every status write. |
| `FleetOps.SubmitKeepsOpInv` | services/fleet/src/evoagent_fleet/orchestrator.py:20-66 | Submitting a validated DAG extends the rank function and keeps roots released and all others waiting. |
| `FleetOps.RegisterKeepsOpInv` | services/fleet/src/evoagent_fleet/orchestrator.py:68-83 | Registering again, with any capabilities and concurrency, keeps the invariant. |
| `FleetOps.AssignKeepsOpInv` | services/fleet/src/evoagent_fleet/orchestrator.py:92-152 | Handing a queued row to a worker keeps the invariant. |
| `FleetOps.SweepKeepsOpInv` | services/fleet/src/evoagent_fleet/orchestrator.py:256-273 | Expiring any enumeration of overdue leases keeps the invariant. |
| `FleetOps.HeartbeatKeepsOpInv` | services/fleet/src/evoagent_fleet/orchestrator.py:154-164 | Renewing a lease keeps the invariant, whatever the deadline was. |
| `FleetOps.ReadyRestoresSaturation` | services/fleet/src/evoagent_fleet/orchestrator.py:307-327 | Releasing every child whose parents are done leaves no blocked node that could run. |
| `FleetOps.CompleteKeepsOpInv` | services/fleet/src/evoagent_fleet/orchestrator.py:166-204 | Completion with release of children and closing of the workflow keeps the invariant, error paths included. |
| `FleetOps.FailKeepsOpInv` | services/fleet/src/evoagent_fleet/orchestrator.py:206-229 | Retry and final failure keep the invariant. |
| `FleetOps.ApproveKeepsOpInv` | services/fleet/src/evoagent_fleet/orchestrator.py:231-254 | Approval and refusal keep the invariant. |
| `FleetRuns.ReachableOpInv` | services/fleet/src/evoagent_fleet/orchestrator.py:20-348 | Every state reachable by any interleaving of calls satisfies the invariant. |
| `FleetRuns.SchedulerSafety` | services/fleet/src/evoagent_fleet/orchestrator.py:90-334 | A node leaves blocked only after all parents completed; approval-required nodes run only after a recorded approval; attempts equal grants and never exceed the maximum. |
| `FleetRuns.FlowStatusExact` | services/fleet/src/evoagent_fleet/orchestrator.py:166-332 | A workflow is completed exactly when all its nodes are, and failed exactly when a failure was recorded, which implies a failed node. |
| `FleetRuns.TerminalIsAbsorbing` | services/fleet/src/evoagent_fleet/orchestrator.py:90-273 | Completed and failed rows never change again, whatever is called afterwards. |
| `FleetRuns.NoStuckWorkflow` | services/fleet/src/evoagent_fleet/orchestrator.py:307-332 | With nothing queued, leased or awaiting approval, every open node has a failed ancestor; with no failed node the workflow is completed. |
| `FleetRuns.BoundedWork` | services/fleet/src/evoagent_fleet/orchestrator.py:90-273 | Any run makes at most the sum of 2m+2 moves and at most the sum of m grants per workflow. |
| `FleetRuns.LeaseExclusivity` | services/fleet/src/evoagent_fleet/orchestrator.py:90-229 | A token is granted once, held by one node at a time, and ends at most once. |
| `FleetRuns.DeadTokenChangesNothing` | services/fleet/src/evoagent_fleet/orchestrator.py:154-229 | Complete, fail and heartbeat with a token never granted or already ended leave the state untouched. |
| `FleetRuns.ExpiredLeaseIsRefused` | services/fleet/src/evoagent_fleet/orchestrator.py:298-305 | Complete and fail are refused for the lease, changing nothing, exactly when every row held under the token is overdue or there is none. |
| `FleetRuns.HeartbeatRevivesExactly` | services/fleet/src/evoagent_fleet/orchestrator.py:154-164 | After a heartbeat the lease is accepted again exactly when the worker still held a row under the token before it, whatever its deadline; never once the lease has ended. |
| `FleetRuns.HeartbeatRevives` | services/fleet/src/evoagent_fleet/orchestrator.py:154-164 | A run in which completing an overdue lease changes nothing, while a heartbeat first makes the same call complete the node. |
| `FleetRuns.ConcurrencyBound` | services/fleet/src/evoagent_fleet/orchestrator.py:68-103 | A worker never holds more leases than the largest concurrency it ever registered. |
| `FleetRuns.ExpiryLeavesWorkflowRunning` | services/fleet/src/evoagent_fleet/orchestrator.py:256-273 | A run in which an expired last attempt fails the node while its workflow stays running. |
| `FleetProgress.WorkflowCanFinish` | services/fleet/src/evoagent_fleet/orchestrator.py:90-332 | From every reachable state in which no node of a workflow failed, one free worker that can run its nodes, the holders of its leases and the approvers can complete it, at any clock reading and however overdue the leases are. |
| `FleetProgress.CanCompleteExactly` | services/fleet/src/evoagent_fleet/orchestrator.py:90-332 | Over all continuations of any run, a workflow can still complete exactly if none of its nodes has failed. |
| `FleetAnswers.SubmittedRows` | services/fleet/src/evoagent_fleet/orchestrator.py:20-66 | One row per node of the specification with its approval flag, parents, capabilities, budgets and attempts, no attempt made and no lease; blocked exactly with parents, awaiting exactly without parents when approval is required, else queued; other rows untouched. |
| `FleetAnswers.SubmissionGates` | services/fleet/src/evoagent_fleet/orchestrator.py:38-56 | Over any run a submitted node keeps its columns, leaves blocked only after the parents it names completed, and, if its specification asks for approval, is queued, leased or completed only after a call of approve for it. |
| `FleetAnswers.ApprovalsAreCalls` | services/fleet/src/evoagent_fleet/orchestrator.py:231-254 | An approval or refusal on record was made by such a call. |
| `FleetAnswers.SweepExactly` | services/fleet/src/evoagent_fleet/orchestrator.py:256-273 | A sweep changes exactly the leased rows whose deadline lies before now: requeued while attempts remain, failed otherwise, lease cleared. |
| `FleetAnswers.LeaseOutlivesClaims` | services/fleet/src/evoagent_fleet/orchestrator.py:90-94 | Over any run, a claim or sweep takes a lease away, and ends its token, exactly if its deadline lies before the clock reading. |
| `FleetAnswers.ClaimExactly` | services/fleet/src/evoagent_fleet/orchestrator.py:90-152 | Unknown worker, busy worker or nothing eligible, or else the earliest eligible row leased with one more attempt and nothing else changed. |
| `FleetAnswers.StringLessExactly` | services/fleet/src/evoagent_fleet/orchestrator.py:105-114 | Ties in creation time are broken by the lexicographic order of the node ids. |
| `FleetAnswers.HeartbeatExactly` | services/fleet/src/evoagent_fleet/orchestrator.py:154-164 | The new deadline goes to exactly the rows leased to this worker under this token; refused if there is none. |
| `FleetAnswers.CompleteRefusals` | services/fleet/src/evoagent_fleet/orchestrator.py:166-174 | Refused without a lease in force, then over either budget, then for an artifact name that is no plain file name; a refusal changes nothing. |
| `FleetAnswers.CompleteEffect` | services/fleet/src/evoagent_fleet/orchestrator.py:166-204 | The row completes and hands its lease back, the blocked rows of the workflow whose parents are now all completed become ready, and no other row changes. |
| `FleetAnswers.FailExactly` | services/fleet/src/evoagent_fleet/orchestrator.py:206-229 | Refused without a lease in force; requeued exactly if a retry is asked for and attempts remain, otherwise node and workflow fail. |
| `FleetAnswers.ApproveExactly` | services/fleet/src/evoagent_fleet/orchestrator.py:231-254 | Refused unless the row awaits approval; approval queues it, refusal fails node and workflow. |
| `FleetOrchestrator.Orchestrator.Submit` | services/fleet/src/evoagent_fleet/orchestrator.py:20-66 | The row-by-row insertion yields the specified state and keeps the invariant. |
| `FleetOrchestrator.Orchestrator.Register` | services/fleet/src/evoagent_fleet/orchestrator.py:68-83 | Adds or overwrites the worker row and nothing else. |
| `FleetOrchestrator.Orchestrator.SweepExpired` | services/fleet/src/evoagent_fleet/orchestrator.py:256-273 | The loop over the snapshot expires exactly the overdue rows, each once. |
| `FleetOrchestrator.Orchestrator.QueuedRows` | services/fleet/src/evoagent_fleet/orchestrator.py:105-114 | The rows come sorted by creation time and node id, and are exactly the queued ones of the workflow. |
| `FleetOrchestrator.Orchestrator.PickRow` | services/fleet/src/evoagent_fleet/orchestrator.py:115-124 | The row picked is the first in order whose required capabilities the worker has, if there is one. |
| `FleetOrchestrator.Orchestrator.Claim` | services/fleet/src/evoagent_fleet/orchestrator.py:90-152 | Sweep, concurrency check, pick and grant together are one legal step of the specified claim. |
| `FleetOrchestrator.Orchestrator.Heartbeat` | services/fleet/src/evoagent_fleet/orchestrator.py:154-164 | Renews every row held under the token, also when its deadline has passed. |
| `FleetOrchestrator.Orchestrator.FindLease` | services/fleet/src/evoagent_fleet/orchestrator.py:298-305 | Finds a row leased to this worker under this token exactly if there is one. |
| `FleetOrchestrator.Orchestrator.ReleaseReady` | services/fleet/src/evoagent_fleet/orchestrator.py:308-325 | The loop releases exactly the blocked children whose parents are all completed, each once. |
| `FleetOrchestrator.Orchestrator.Advance` | services/fleet/src/evoagent_fleet/orchestrator.py:307-332 | The release loop and the closing query together are the specified advance. |
| `FleetOrchestrator.Orchestrator.Complete` | services/fleet/src/evoagent_fleet/orchestrator.py:166-204 | Lease, budget and artifact-name errors change nothing; otherwise one legal completion step. |
| `FleetOrchestrator.Orchestrator.Fail` | services/fleet/src/evoagent_fleet/orchestrator.py:206-229 | One legal failure step, with retry exactly when asked for and attempts remain. |
| `FleetOrchestrator.Orchestrator.Approve` | services/fleet/src/evoagent_fleet/orchestrator.py:231-254 | One legal approval step, refused unless the node awaits approval. |
| `SoulX.StepKeepsInv` | services/realtime/services/soulx_api.py:671-802 | Every step of a request, a child or a close keeps the handshake, lock, directory and quarantine invariant for all requests. |
| `SoulX.FreeLockMeansQuiet` | services/realtime/services/soulx_api.py:785-802 | A request with a live child or descendant holds the inference lock, so a free lock means nothing is alive. |
| `SoulX.OneTreeAtMost` | services/realtime/services/soulx_api.py:883-907 | At most one request has a live process tree. |
| `SoulX.DirectoryOutlivesTree` | services/realtime/services/soulx_api.py:785-798 | A request directory is deleted only after its own process tree is dead. |
| `SoulX.DescendantsAreIsolated` | services/realtime/services/soulx_api.py:680-700 | While a descendant lives, `isolated` is set and the child leads its own group. |
| `SoulX.ReportCoversTree` | services/realtime/services/soulx_api.py:727-764 | The reaper may report success exactly when the whole tree is dead, although without `isolated` it looks only at the child. |
| `SoulX.TerminateAndJoin` | services/realtime/services/soulx_api.py:727-767 | Against processes that may survive every signal: without an error, success is reported exactly when the whole tree is dead; a live child is sent SIGTERM first, a reported survivor was last sent SIGKILL, and a tree that dies within the polling time is reported dead. |
| `SoulX.Lifecycle.Reap` | services/realtime/services/soulx_api.py:785-792 | The thread's verdict on the real process tree is one that a reaping step of the lifecycle may report. |
| `SoulX.ReportedDeadStaysDead` | services/realtime/services/soulx_api.py:785-798 | Once a close was told that the tree is dead, it is dead in every later state. |
| `SoulX.QuarantineIsFinal` | services/realtime/services/soulx_api.py:785-802 | After quarantine the flag and the lock owner never change and no child ever starts. |
| `SoulX.CloseOutcome` | services/realtime/services/soulx_api.py:785-802 | A finished close either deleted the directory and gave up the lock, or kept both and quarantined the worker. |
| `SoulX.LockIsAccountedFor` | services/realtime/services/soulx_api.py:770-802 | Whoever holds the lock is still generating, has a close under way, or quarantined the worker. |
| `SoulX.CloseRunsOnce` | services/realtime/services/soulx_api.py:780-798 | A close finishes only from a verdict it received, never twice, and keeps that verdict. |
| `SoulX.LockChangesHands` | services/realtime/services/soulx_api.py:785-798 | The lock changes only by a request taking it free or by the finishing close of its owner after a dead tree was reported. |
| `SoulX.CloseOnlyAdvances` | services/realtime/services/soulx_api.py:780-783 | However often `aclose` is called, the one close task only moves forward. |
| `SoulX.QuarantineHappens` | services/realtime/services/soulx_api.py:785-802 | A run that ends quarantined with a live child, the lock and the directory kept. |
| `SoulXProgress.DeadTreeIsReleased` | services/realtime/services/soulx_api.py:780-802 | From every reachable state in which the lock owner's tree is dead and was not reported alive, at most four steps of its own clean-up delete the directory and free the lock. |
| `SoulXProgress.ReleasableExactly` | services/realtime/services/soulx_api.py:780-802 | A held lock can still be given back, its directory deleted, exactly if the worker is not quarantined and the owner's tree was not reported alive. |
| `SoulXProgress.DyingTooLate` | services/realtime/services/soulx_api.py:785-802 | A run in which the tree dies just after it was reported alive, and no continuation frees the lock. |
| `SoulXProgress.RequestCanBeServed` | services/realtime/services/soulx_api.py:883-942 | From every reachable state with a free lock and no quarantine a staged request can be served: child started, isolated, told to start, working with a descendant, chunk yielded. |
| `SoulXProgress.LockExactly` | services/realtime/services/soulx_api.py:884-909 | Taking the lock starts the child, or closes without one if the worker is quarantined or the start fails. |
| `SoulXProgress.ReadyStarts` | services/realtime/services/soulx_api.py:916-919 | After ready the request is isolated and its start event set, and nothing else changed. |
| `SoulXProgress.CloseIsRequested` | services/realtime/services/soulx_api.py:943-962 | Once a generator was unwound or a response ended, the close has been asked for in every continuation. |
| `SoulX.Lifecycle.OnLock` | services/realtime/services/soulx_api.py:884-909 | From the lock to the first await: quarantine check, failed start or a running child, as one step. |
| `SoulX.Lifecycle.OnReady` | services/realtime/services/soulx_api.py:916-919 | Receiving `ready` sets `isolated` together with the start event. |
| `SoulX.Lifecycle.Unwind` | services/realtime/services/soulx_api.py:943-962 | Every way out of the generator requests the close. |
| `SoulX.Lifecycle.FinalizeResponse` | services/realtime/services/soulx_api.py:120-124 | The response requests the close even if the generator never ran. |
| `SoulX.Lifecycle.CloseBegins` | services/realtime/services/soulx_api.py:785-792 | The close hands the process and the isolation flag of that moment to the reaping thread. |
| `SoulX.Lifecycle.CloseEnds` | services/realtime/services/soulx_api.py:785-802 | The effects of the reaping verdict on directory, lock and quarantine flag. |
| `TraceContract.CheckerExactly` | services/observability/src/harnesslab/trace_contract.py:275-329 | Nothing is reported exactly on traces numbered 1..n, with one terminal event that is last, in which each call has one request, one later decision and a completion exactly after approval. |
| `TraceReports.CallReportsExactly` | services/observability/src/harnesslab/trace_contract.py:309-328 | Each report about a call means its own fault: missing, early or forbidden decision or completion, judged by the last event of each role, or an orphan. |
| `TraceReports.RepetitionsExactly` | services/observability/src/harnesslab/trace_contract.py:284-308 | A repetition is reported once for each place after the first. |
| `TraceReports.HeaderReportsExactly` | services/observability/src/harnesslab/trace_contract.py:276-282 | The numbering and terminal reports, in terms of places of the trace. |
| `TraceContract.TerminalExactly` | services/observability/src/harnesslab/trace_contract.py:279-282 | The two terminal checks pass exactly when the only terminal event is the last event. |
| `TraceContract.IndexIsLast` | services/observability/src/harnesslab/trace_contract.py:284-308 | The dictionaries hold, for each call id, the last index at which it plays the role. |
| `TraceContract.CountFacts` | services/observability/src/harnesslab/trace_contract.py:291-308 | A repetition is reported exactly when an id plays a role at two different places. |
| `TraceContract.HeaderViolations` | services/observability/src/harnesslab/trace_contract.py:276-282 | Numbering and terminal violations are reported exactly as often as due. |
| `TraceContract.Scan` | services/observability/src/harnesslab/trace_contract.py:284-308 | The first loop reports exactly the repetitions and leaves the last indices in the dictionaries. |
| `TraceContract.CallViolations` | services/observability/src/harnesslab/trace_contract.py:309-324 | The loop over requested calls reports exactly the missing, early and forbidden decisions and completions. |
| `TraceContract.Orphans` | services/observability/src/harnesslab/trace_contract.py:325-328 | Decisions and completions without a request are each reported once per id. |
| `TraceContract.TraceViolations` | services/observability/src/harnesslab/trace_contract.py:275-329 | Every violation is reported exactly as often as it is due, and the list is empty exactly on conforming traces. |
| `TraceContract.ProjectViolations` | services/observability/src/harnesslab/trace_contract.py:145-157 | Collecting the terminal events and checking gives the empty list exactly on conforming traces. |
| `TraceRuntime.HarnessRuntime.Emit` | services/observability/src/harnesslab/runtime.py:40-54 | An event is numbered by the length of the bus log and appended to log and record alike. |
| `TraceRuntime.HarnessRuntime.ExecuteTool` | services/observability/src/harnesslab/runtime.py:150-199 | What one call emits and how it ends, for unknown, denied, raising and unserializable tools. |
| `TraceRuntime.HarnessRuntime.TakeTurn` | services/observability/src/harnesslab/runtime.py:92-140 | What one turn emits and how it ends: adapter error, unserializable arguments, answer, or tool calls. |
| `TraceRuntime.HarnessRuntime.Run` | services/observability/src/harnesslab/runtime.py:56-148 | The nested loops emit exactly the specified trail; the run is completed exactly when the adapter answered without tool calls. |
| `TraceOutcomes.CallsTrailExactly` | services/observability/src/harnesslab/runtime.py:139-199 | The calls of an answer run through with three events each up to the first that does not, which leaves the events of its kind of stop. |
| `TraceOutcomes.DeniedCallsStop` | services/observability/src/harnesslab/runtime.py:163-176 | A tool that is not read-only is requested and denied, nothing of it is approved or completed, and the run halts there. |
| `TraceOutcomes.ApprovalsAreReadOnly` | services/observability/src/harnesslab/runtime.py:150-199 | Over a whole run, approvals and completions go only to read-only tools that the adapter asked for, denials only to others. |
| `TraceOutcomes.RunCompletesExactly` | services/observability/src/harnesslab/runtime.py:91-148 | A run completes exactly if some turn within the limit answers without calls and all calls of the turns before it ran through; so a denied call makes it fail. |
| `TraceOutcomes.RunExactly` | services/observability/src/harnesslab/runtime.py:56-148 | A run consists of its start, its turns up to the last one, and the end that tells whether an answer was reached. |
| `TraceOutcomes.TurnTrailExactly` | services/observability/src/harnesslab/runtime.py:92-140 | When a turn goes on, answers or halts, and which events it leaves. |
| `TraceProducer.RunEndsOnce` | services/observability/src/harnesslab/runtime.py:91-148 | Any run, even with no turns, has exactly one terminal event and it is the last. |
| `TraceProducer.RunConformsExactly` | services/observability/src/harnesslab/runtime.py:56-199 | The trace conforms exactly when the run id was fresh, no non-empty call id was requested twice and no approved handler with an id raised. |
| `TraceProducer.RunReportsExactly` | services/observability/src/harnesslab/runtime.py:150-199 | Without repeated ids the checker reports one missing completion if an approved handler raised, and nothing else. |
| `TraceProducer.RequestsAreAsked` | services/observability/src/harnesslab/runtime.py:139-140 | Calls are requested in the order the adapter asks for them, as a prefix of what it asks. |
| `TraceProducer.DistinctIdsConform` | services/observability/src/harnesslab/runtime.py:56-199 | If the adapter uses distinct call ids, only a handler raising after approval can break the contract. |
| `TraceProducer.RepeatedIdBreaks` | services/observability/src/harnesslab/runtime.py:139-140 | A run that breaks the contract only because one answer asks for two calls under the same id. |
| `TraceProducer.RunAndCheck` | services/observability/src/harnesslab/runtime.py:56-148 | Running on a fresh id and checking gives the empty list, or the single missing completion of the call that raised. |
| `Chunker.SplitIsUnique` | services/realtime/src/echoweave/chunking.py:45-58 | The search computes the one split that the rule prescribes, or none. |
| `Chunker.SplitInMarks` | services/realtime/src/echoweave/chunking.py:45-58 | The cut in positions of the text: after the first strong mark in range, else after the last break of a full buffer, else after all of it. |
| `Chunker.TokenizationExactly` | services/realtime/src/echoweave/chunking.py:23-38 | The text is cut by the rule into segments and a residue; the phrases are the trimmed segments without the blank ones. |
| `Chunker.StripExactly` | services/realtime/src/echoweave/chunking.py:33-43 | Trimming removes whitespace at both ends and nothing else. |
| `Chunker.SplitIsStable` | services/realtime/src/echoweave/chunking.py:45-58 | Text arriving later never moves a split already found. |
| `Chunker.TokenizeResumes` | services/realtime/src/echoweave/chunking.py:23-38 | Tokenizing may stop anywhere and resume from the residue. |
| `Chunker.StreamingAgreesWithWhole` | services/realtime/src/echoweave/chunking.py:23-38 | Pushing a text in any deltas gives the phrases and the residue of the whole text. |
| `Chunker.DeltaBoundariesDoNotMatter` | services/realtime/src/echoweave/chunking.py:23-38 | Two ways of cutting the same text cannot be told apart. |
| `Chunker.NothingSpokenIsLost` | services/realtime/src/echoweave/chunking.py:23-43 | Phrases plus the flushed residue keep every non-whitespace character in order. |
| `Chunker.PhrasesFit` | services/realtime/src/echoweave/chunking.py:26-36 | Every phrase is non-empty, trimmed and at most `max_chars` long. |
| `Chunker.ResidueWaits` | services/realtime/src/echoweave/chunking.py:26-36 | The residue has no split and is shorter than `max_chars`. |
| `Chunker.SemanticChunker.Create` | services/realtime/src/echoweave/chunking.py:10-21 | Construction fails exactly on bounds outside 1 <= min <= max. |
| `Chunker.SemanticChunker.FindSplitPoint` | services/realtime/src/echoweave/chunking.py:45-58 | The two scans compute the prescribed split. |
| `Chunker.SemanticChunker.Push` | services/realtime/src/echoweave/chunking.py:23-38 | The consuming loop returns the tokenizer's phrases and keeps its residue. |
| `Chunker.SemanticChunker.Flush` | services/realtime/src/echoweave/chunking.py:40-43 | Returns the trimmed residue and empties the buffer. |
| `Spans.RawSpansOk` | services/realtime/scripts/segment_silero_ranges.py:138-168 | For any decisions and non-negative settings raw spans are non-empty, inside the recording and sorted by start. |
| `Spans.DetectRawSpans` | services/realtime/scripts/segment_silero_ranges.py:138-168 | The frame loop computes the specified spans, which satisfy the above. |
| `SpanStages.DetectionExactly` | services/realtime/scripts/segment_silero_ranges.py:138-168 | Raw spans are those of the stretches from the first start after a stretch to the first end from there, padded, without the closing silence, cut to the recording, empty ones dropped. |
| `Spans.MergeSpans` | services/realtime/scripts/segment_silero_ranges.py:171-182 | Raises exactly when some span is invalid; otherwise the specified merge. |
| `Spans.MergeKeepsInv` | services/realtime/scripts/segment_silero_ranges.py:176-181 | Merged spans are non-empty, more than the gap apart, and end where the last raw span ends. |
| `Spans.MergeCoverage` | services/realtime/scripts/segment_silero_ranges.py:176-181 | A sample is covered after merging exactly if it was covered before or lies in a pause of at most the gap. |
| `Spans.MergeIsIdempotent` | services/realtime/scripts/segment_silero_ranges.py:171-182 | Merging twice is merging once. |
| `Spans.SplitTiles` | services/realtime/scripts/segment_silero_ranges.py:191-205 | A span of at least min is tiled exactly by pieces between min and max(max, 2*min-1). |
| `SpanStages.CutsExactly` | services/realtime/scripts/segment_silero_ranges.py:191-205 | Every piece but the last is full, or just so much shorter that the last keeps the minimum. |
| `SpanStages.SplitCoverage` | services/realtime/scripts/segment_silero_ranges.py:185-206 | Splitting and filtering keep exactly the samples of spans of at least the minimum length. |
| `Spans.ShortSpansVanish` | services/realtime/scripts/segment_silero_ranges.py:191-205 | A span yields no piece exactly when it is shorter than min. |
| `Spans.OversizeExactly` | services/realtime/scripts/segment_silero_ranges.py:194-205 | Every piece is at most max exactly unless the last remainder lies strictly between max and 2*min. |
| `Spans.OversizeHappens` | services/realtime/scripts/segment_silero_ranges.py:194-205 | Fifteen samples with minimum and maximum ten stay in one oversize piece. |
| `Spans.LastRemainderClosedForm` | services/realtime/scripts/segment_silero_ranges.py:194-203 | The last remainder is min + (length - min) mod max. |
| `Spans.SplitCount` | services/realtime/scripts/segment_silero_ranges.py:191-205 | When 2*min <= max+1 every piece fits and their number is ceil(length/max). |
| `Spans.NoTilingIsShorter` | services/realtime/scripts/segment_silero_ranges.py:191-205 | No tiling by pieces of at most max has fewer pieces. |
| `Spans.SplitAndFilterSpans` | services/realtime/scripts/segment_silero_ranges.py:185-206 | The nested loops compute the specified split of every span and terminate. |
| `Spans.Segment` | services/realtime/scripts/segment_silero_ranges.py:300-315 | Detection, merging and splitting composed: merging never raises and the clips are valid, disjoint and in range. |
| `WebSocket.MaskTwice` | services/realtime/scripts/benchmark_realtime.py:272-275 | Masking with the same key twice gives the payload back. |
| `WebSocketWire.MaskExactly` | services/realtime/scripts/benchmark_realtime.py:272-275 | Each bit of a masked byte is the exclusive or of payload and key bit; a zero key leaves the payload as it is. |
| `WebSocket.LengthRoundTrip` | services/realtime/scripts/benchmark_realtime.py:262-265 | Big-endian lengths are read back. |
| `WebSocket.EncodeRoundTrip` | services/realtime/scripts/benchmark_realtime.py:253-276 | Every encoding of a frame, in any length form and under any mask, is read back. |
| `WebSocket.PrintRoundTrip` | services/realtime/scripts/benchmark_realtime.py:295-309 | The client's own frames are read back with FIN, opcode and payload. |
| `WebSocketWire.FrameLayout` | services/realtime/scripts/benchmark_realtime.py:253-276 | Every byte of a frame: FIN and opcode, mask flag and length form, key, masked payload. |
| `WebSocketWire.ClientFrames` | services/realtime/scripts/benchmark_realtime.py:289-309 | Client frames are final and masked in the shortest length form; pongs have opcode 10 and the ping payload. |
| `WebSocketWire.FramesRefused` | services/realtime/scripts/benchmark_realtime.py:253-276 | Which well-formed frames are refused, with which error, and that all others are accepted. |
| `WebSocketWire.TruncationCloses` | services/realtime/scripts/benchmark_realtime.py:253-287 | A stream that ends inside an acceptable frame reads as a closed connection. |
| `WebSocketWire.TurnExactly` | services/realtime/scripts/benchmark_realtime.py:146-177 | One turn of the receive loop by opcode, with the close code, protocol errors and the size limit in numbers. |
| `WebSocket.ParsedIsEncoded` | services/realtime/scripts/benchmark_realtime.py:253-276 | Whatever the parser accepts is an encoding of the frame it reports, followed by the rest. |
| `WebSocket.MessageIsReassembled` | services/realtime/scripts/benchmark_realtime.py:146-177 | Any legal fragmentation with interleaved pings and pongs is received with the opcode of its first fragment, as the exact concatenation, with one pong per ping, in order. |
| `WebSocket.DeliveredWasFragmented` | services/realtime/scripts/benchmark_realtime.py:146-177 | Conversely, a message is delivered only for a legal fragmentation of it. |
| `WebSocket.StandardWebSocket.ReadExact` | services/realtime/scripts/benchmark_realtime.py:278-287 | However the transport chops the stream, exactly the asked-for bytes are read, or the end is reported. |
| `WebSocket.StandardWebSocket.ReceiveFrame` | services/realtime/scripts/benchmark_realtime.py:253-276 | Reads one frame as the parser specifies. |
| `WebSocket.StandardWebSocket.SendFrame` | services/realtime/scripts/benchmark_realtime.py:289-309 | Writes the specified masked frame. |
| `WebSocket.StandardWebSocket.HandleFrame` | services/realtime/scripts/benchmark_realtime.py:150-177 | One frame: close ends the message, data is appended or refused, and the bytes written are exactly one masked pong for a ping and none otherwise. |
| `WebSocket.StandardWebSocket.Receive` | services/realtime/scripts/benchmark_realtime.py:146-177 | The receive loop returns what the reassembly function specifies; the bytes written are exactly its pongs, each under a mask key. |
| `OutboundPump.StepKeepsInv` | services/realtime/src/echoweave/app.py:155-281 | Every step of callers, sender, cancellation, flush and stop keeps the books, the order and the flush promises. |
| `OutboundPump.BoundsHold` | services/realtime/src/echoweave/app.py:176-184 | Queued bytes equal queued plus in-flight sizes within both limits, and are zero once the sender ended with an empty queue. |
| `OutboundPump.DeliveredIsPrefix` | services/realtime/src/echoweave/app.py:210-251 | Delivered items are a prefix of accepted items, in order. |
| `OutboundPump.FailureIsFinal` | services/realtime/src/echoweave/app.py:186-208 | A failure is recorded once and nothing is accepted after it or after stop. |
| `OutboundPump.FlushExactly` | services/realtime/src/echoweave/app.py:265-281 | When a flush returns normally, everything accepted before it was sent exactly if stop was not called or that much had been sent when it was. |
| `OutboundPump.StopFreezesDelivery` | services/realtime/src/echoweave/app.py:272-281 | After stop nothing more is ever delivered. |
| `OutboundPump.StopBreaksFlush` | services/realtime/src/echoweave/app.py:265-281 | A run in which stop interrupts a running send, an item is discarded, and the pending flush returns normally all the same. |
| `OutboundProgress.EnqueueExactly` | services/realtime/src/echoweave/app.py:162-184 | An item is taken exactly if the pump is open and both limits have room; an open pump without room fails as a slow client and cancels its sender. |
| `OutboundProgress.EverythingCanBeSent` | services/realtime/src/echoweave/app.py:210-251 | From every reachable open state the sender alone can deliver all that was accepted, in order, empty the books and wake every flush. |
| `OutboundProgress.StopCanReturn` | services/realtime/src/echoweave/app.py:272-281 | A pending stop can end in at most two steps with empty books and every flush woken. |
| `OutboundProgress.SendFailureCloses` | services/realtime/src/echoweave/app.py:218-251 | A failed send is recorded if it is the first failure, closes the pump, drops the queue and wakes every flush. |
| `OutboundProgress.SendMayFail` | services/realtime/src/echoweave/app.py:210-251 | From every open state with something unfinished each of the two send failures can happen; it closes the pump, delivers nothing more and wakes every flush. |
| `OutboundProgress.CancellationExactly` | services/realtime/src/echoweave/app.py:210-251 | A sender cancelled before its first step leaves queue and books alone; one cancelled later drops the item in flight and the queue. |
| `OutboundProgress.FlushEnds` | services/realtime/src/echoweave/app.py:265-270 | A pending flush may time out at any moment and may return normally exactly once it has been woken; only the flush itself is forgotten. |
| `OutboundProgress.FlushBegins` | services/realtime/src/echoweave/app.py:265-268 | A flush waits for all that had been accepted, unless nothing is unfinished. |
| `OutboundProgress.StopCloses` | services/realtime/src/echoweave/app.py:272-281 | Stop closes the entrance, cancels a running sender, or drops the queue if there is no task. |
| `OutboundPump.Transport.Start` | services/realtime/src/echoweave/app.py:155-160 | Creates the sender unless there is one; see below for a pending stop. |
| `OutboundPump.Transport.Put` | services/realtime/src/echoweave/app.py:162-184 | Refuses when closed or over a limit, recording the overrun; otherwise queues in order. |
| `OutboundPump.Transport.DiscardQueued` | services/realtime/src/echoweave/app.py:253-260 | The loop empties the queue, settles the bytes and wakes flushes exactly when nothing is left unfinished. |
| `OutboundPump.Transport.SenderTakes` | services/realtime/src/echoweave/app.py:213 | Takes the oldest item; its bytes stay on the books. |
| `OutboundPump.Transport.SendReturns` | services/realtime/src/echoweave/app.py:215-219 | A finished send delivers the item and settles it. |
| `OutboundPump.Transport.SendRaises` | services/realtime/src/echoweave/app.py:218-251 | A failed send records the failure, settles the item and discards the queue. |
| `OutboundPump.Transport.CancellationArrives` | services/realtime/src/echoweave/app.py:210-251 | A cancellation before the first step ends the sender without its clean-up; later it settles and discards. |
| `OutboundPump.Transport.Stop` | services/realtime/src/echoweave/app.py:272-281 | Closes the pump and cancels the sender, or discards the queue if there is none. |
| `OutboundPump.Transport.StopReturns` | services/realtime/src/echoweave/app.py:278-281 | Once the sender has ended, what is left in the queue is discarded. |
| `TokenBucket.BudgetInRange` | services/realtime/src/echoweave/app.py:680-696 | With a monotone clock and non-negative amounts the budget stays in [0, capacity]. |
| `TokenBucket.BucketWindowBound` | services/realtime/src/echoweave/app.py:680-696 | Any window of requests to one bucket grants at most capacity plus refill times its length. |
| `TokenBucket.WindowEndingInGrant` | services/realtime/src/echoweave/app.py:680-696 | A window closed by a grant is bounded so for clock readings in any order. |
| `TokenBucket.GrantsArePaid` | services/realtime/src/echoweave/app.py:680-696 | Every grant is paid for out of the potential of the bucket. |
| `RateLimits.WindowBoundExactly` | services/realtime/src/echoweave/app.py:680-696 | Over all runs of the gateway, any window of a host's requests is granted at most capacity plus refill times its length, exactly when the burst is at most 120 times the refill (always for audio). |
| `RateLimits.EvictionUnobservableExactly` | services/realtime/src/echoweave/app.py:973-997 | Over all runs of the gateway, eviction decides no request differently exactly under the same condition. |
| `RateLimits.SomeSettingsAreTooSlow` | services/realtime/src/echoweave/config.py:415-418 | Some settings in the validated ranges (burst 1 to 10000, refill 0.1 to 1000) fail both; the defaults 20 and 10 meet both. |
| `RateGateway.TableFollowsBucket` | services/realtime/src/echoweave/app.py:680-696 | Without eviction, over a whole run of the gateway, a host's entry is the single bucket spent on that host's own requests. |
| `RateGateway.WindowPays` | services/realtime/src/echoweave/app.py:680-696 | Up to the end of any window, grants plus the remaining budget are at most capacity plus refill times its length, through evictions and reconnections. |
| `RateGateway.RunAgrees` | services/realtime/src/echoweave/app.py:973-997 | Where buckets fill in time, a run with eviction and one without agree on every host's budget. |
| `RateDecisions.GrantedExactly` | services/realtime/src/echoweave/app.py:680-696 | Where idle buckets fill in time, a request is refused exactly if granting it would exceed capacity plus refill in some window ending with it. |
| `RateDecisions.ConnectExactly` | services/realtime/src/echoweave/app.py:973-997 | Above 8192 buckets admission evicts exactly the hosts idle for more than 120 seconds without a connection; admission depends on the count alone and seeds full buckets. |
| `RateDecisions.OthersExactly` | services/realtime/src/echoweave/app.py:1154-1181 | A request touches only its host in its own table; a disconnection counts down and forgets at zero. |
| `RateDecisions.ConnectionsBounded` | services/realtime/src/echoweave/app.py:973-997 | Over any run, connection counts lie between one and the limit. |
| `TokenBucket.ConsumeBudget` | services/realtime/src/echoweave/app.py:680-696 | Refills, caps, and spends exactly when the budget covers the amount. |
| `TokenBucket.PopStale` | services/realtime/src/echoweave/app.py:973-990 | Removes exactly the idle hosts without a connection. |
| `RateGateway.Limiter.Admit` | services/realtime/src/echoweave/app.py:973-997 | Evicts in both tables only when together they are large, then seeds full buckets for an admitted host and counts the connection. |
| `RateGateway.Limiter.TakeFrame` | services/realtime/src/echoweave/app.py:1154-1161 | Spends the duration of a microphone frame from the host's audio budget, or refuses it. |
| `RateGateway.Limiter.TakeMessage` | services/realtime/src/echoweave/app.py:1175-1181 | Spends one from the host's control budget, or refuses it. |
| `RateGateway.Limiter.Leave` | services/realtime/src/echoweave/app.py:1578-1582 | Counts the connection down and forgets a host without one. |
| `EventBus.LogsAreNumbered` | services/observability/src/harnesslab/events.py:19-38 | Each log is numbered 1..n under any interleaving. |
| `EventBus.DeliveryExactly` | services/observability/src/harnesslab/events.py:43-55 | An open subscriber has or will get exactly the events above `after`, precisely when `after` was not beyond the log at subscription or nothing was published since. |
| `EventBus.ResumptionDelivers` | services/observability/src/harnesslab/events.py:48-53 | Resuming an open subscriber hands over the first waiting event, from backlog or queue, and keeps the rest. |
| `EventBus.EverythingIsHandedOver` | services/observability/src/harnesslab/events.py:43-55 | Over any run, as many resumptions as events wait have handed over exactly the events above `after`, if it was not beyond the log. |
| `EventBus.SubscriptionStarts` | services/observability/src/harnesslab/events.py:43-53 | A new subscriber is open and registered and is due the logged events above `after`, the first of them at once. |
| `EventBus.OpenUntilClosed` | services/observability/src/harnesslab/events.py:43-55 | A subscriber is open exactly until it is closed and keeps what it asked for. |
| `EventBus.BeyondTheLog` | services/observability/src/harnesslab/events.py:43-55 | A run in which a subscriber that asked for events above 5 is handed event 1. |
| `EventBus.DeliveredInOrder` | services/observability/src/harnesslab/events.py:43-55 | What is delivered is consecutive and in order, with no gap or duplicate at the handover. |
| `EventBus.ClosedEarlyStaysRegistered` | services/observability/src/harnesslab/events.py:48-55 | A subscriber closed while it replays its backlog keeps receiving into its queue; closed after that, or with no backlog from the start, it does not. |
| `EventBus.ReplayLeaks` | services/observability/src/harnesslab/events.py:48-55 | A run in which a subscriber is closed after the first of two replayed events and a later event is still queued for it. |
| `EventBus.Hub.PublishEvent` | services/observability/src/harnesslab/events.py:19-38 | Appends the next number and reaches every registered queue of the run once. |
| `EventBus.Hub.SubscribeTo` | services/observability/src/harnesslab/events.py:43-53 | Takes the backlog, registers, and runs to the first suspension: the first replayed event, or waiting on the queue. |
| `EventBus.Hub.History` | services/observability/src/harnesslab/events.py:40-41 | Returns the log, numbered 1..n. |
| `EventBus.Hub.NextEvent` | services/observability/src/harnesslab/events.py:48-53 | Resumes the generator up to its next suspension: the backlog first, filtered by `after`, then the queue. |
| `EventBus.Hub.CloseSub` | services/observability/src/harnesslab/events.py:51-55 | Unregisters the queue only if replay was over. |
| `ReplayCache.RefusedExactly` | services/realtime/src/echoweave/auth.py:96-109 | A valid token is refused as used exactly when its last acceptance is still remembered. |
| `ReplayCache.AnswersExactly` | services/realtime/src/echoweave/auth.py:96-109 | Which of the six answers a call gets: the claim checks in order, a remembered token, a cache full of unlapsed entries, or acceptance. |
| `ReplayCache.EntriesExactly` | services/realtime/src/echoweave/auth.py:96-109 | Lapsed entries go, an accepted token is remembered, and nothing else changes. |
| `ReplayCache.SecondUseExactly` | services/realtime/src/echoweave/auth.py:238-246 | A used token is accepted again exactly if it passes the screen at the first clock reading and its entry has lapsed by the second. |
| `ReplayCache.ReuseExactly` | services/realtime/src/echoweave/auth.py:314-353 | A call can ever reuse a token exactly if it passes the screen and consumes after the expiry; with zero skew those are the calls that straddle the expiry. |
| `ReplayCache.UseBound` | services/realtime/src/echoweave/auth.py:346-352 | If nothing is consumed later than the screen would pass, a token is accepted at most twice, and once with zero skew; for calls in sequence the bounds are three and two. |
| `ReplayCache.SkewAllowsSecondUse` | services/realtime/src/echoweave/auth.py:346-352 | A run of prompt calls with the default skew in which one token is accepted twice. |
| `ReplayCache.ClockMayPassExpiry` | services/realtime/src/echoweave/auth.py:346-352 | A run with zero skew in which a token is accepted twice because the clock passes the expiry between the two readings. |
| `ReplayCache.ThirdUseHappens` | services/realtime/src/echoweave/auth.py:346-352 | A run of calls in sequence in which one token is accepted three times. |
| `ReplayCache.AgreesExactly` | services/realtime/src/echoweave/auth.py:84-109 | The evicting cache answers as a set that never forgets exactly on calls that fail the screen, bring a new token, or consume while the last use is remembered. |
| `ReplayCache.AgreesUntilExpiry` | services/realtime/src/echoweave/auth.py:84-109 | In particular on every call that consumes no later than the expiry. |
| `ReplayCache.SizeBound` | services/realtime/src/echoweave/auth.py:107-109 | The cache never holds more than its capacity. |
| `ReplayCache.Cache.Create` | services/realtime/src/echoweave/auth.py:87-94 | Construction fails exactly outside 1 to 1000000 entries. |
| `ReplayCache.Cache.EvictExpired` | services/realtime/src/echoweave/auth.py:99-104 | Removes exactly the entries whose expiry lies before now. |
| `ReplayCache.Cache.ConsumeToken` | services/realtime/src/echoweave/auth.py:96-109 | Eviction, replay check, capacity check and insertion in that order. |
| `ReplayCache.Cache.VerifySession` | services/realtime/src/echoweave/auth.py:314-353 | Claims are checked at the first clock reading, so a rejected token is never consumed; consumption uses the second; without `consume` nothing changes. |

## Left out

- SoulX: the worker is modelled on values with one class for the lifecycle of a request; messages from a child other than `ready` are arbitrary, a failed start leaves no process behind, descendants stay in the child's process group, and process ids are not reused.
- SoulX: the response's finalizer runs only while the generator is not executing, which is the contract of the ASGI response that owns it.
- SoulX: upload limits, image and audio validation, output path checks, watermarking and the admission middleware.
- Fleet: SQLite, HTTP, authentication, artifact contents and hashes, route metrics, events other than status changes, and columns that do not influence scheduling.
- Fleet: thread-level races inside one call, since the served code runs each call without interleaving.
- TraceRuntime: message contents, durations, redaction, the message history and cancellation of the run's task.
- TraceContract: the path comparison, fingerprints and scores, which rest on library behaviour.
- EventBus: the asyncio lock; publishing and registering are atomic because they contain no await under it.
- Chunker: characters are Unicode scalar values; other encodings are not part of this model.
- Spans: the rounding of sample counts to milliseconds, WAV decoding, hashing and the report file.
- WebSocket: TLS, the handshake, UTF-8 decoding of text and socket timeouts; bytes are integers from 0 to 255 and bit tests are arithmetic.
- OutboundPump.Transport.Start: starting again while a `stop` still awaits the old sender is excluded, because the gateway calls `start` once per connection, before any `stop` (app.py:1007).
- OutboundPump: the race between a send's timeout and its completion.
- TokenBucket: floating-point rounding; budgets and times are reals.
- ReplayCache: token encoding, signatures and constant-time comparison; a token is its id, issue time and expiry.
- VoxCPM worker, dataset and review tools, web pages, command lines and Forge.
