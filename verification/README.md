# The bridge, verified

Two coding agents share one workspace. The bridge decides who may write where, which process may launch a
runtime, when a scope may be handed on, and what both agents remember. This project models that control plane in
Dafny and proves what it promises over whole runs, together with the algorithms it relies on.

`dafny verify dfyconfig.toml` checks everything.

## What is modelled

| Modules | Subject |
|---|---|
| `Scope`, `PathSegments`, `Globs`, `GlobMeaning`, `GlobPaths`, `WriteScopes`, `ScopeMeaning`, `Text` | path normalisation, glob compilation and matching, the conservative overlap test, write scopes |
| `ControlStore`, `LeaseManager`, `ExecutionService`, `Orchestrator` | leases, executions and the transactions that combine them, as classes that change the database in place |
| `Protocol`, `ProtocolRows`, `ProtocolInvariant`, `ProtocolSafety`, `ProtocolTheorems`, `ProtocolEffects`, `ProtocolBound`, `AdmissionOrder` | the same transactions as a step system run by processes that may die, and what holds in every run |
| `ProtocolWitnesses` | runs that show what happens outside the hypotheses |
| `DelegationOperations`, `OneLauncher` | durable delegation reservations, takeover after a crash, at most one launcher |
| `TaskGraph`, `TaskService`, `TaskRuns`, `TaskMoves`, `TaskReadiness` | the task state machine and its dependency graph |
| `MemoryLog`, `MemoryPaging`, `PageChoice`, `MemoryPageText`, `ChangePaging` | the append-only shared memory, its snapshots, and byte-budgeted reading |
| `TurnClient`, `TurnCalls`, `TurnEvidence`, `TurnHandlers`, `TurnTheorems`, `TurnWitness` | the turn lifecycle of the Codex App Server client, which produces the stop evidence that leases wait for |
| `Utf16`, `CanonicalJson`, `CanonicalText`, `CanonicalProofs`, `CanonicalOrder`, `Idempotency` | canonical JSON texts, and mutations applied at most once per key |
| `Utf8Split`, `CampaignHistory`, `CampaignMeaning`, `IntervalUnion` | UTF-8 chunks, hash-chained campaign histories, covered session time |

Each service is written twice on purpose: as a function on the value of its tables, and as a class whose methods
change the tables in place and are proved to compute exactly that function. The theorems are about the functions.

### How the protocol is set up

One `store.transaction` is one step. The clock is a number that only grows. `processAlive` answers from a set of
process ids that only grows; a process in that set takes no further step. Lease ids and generations are fresh.

The guarantees of `ProtocolTheorems` and `AdmissionOrder` hold under these hypotheses, each visible as a guard of one step:

- *Stop evidence is not taken back.* Once an execution's stop is confirmed it stays so, except for a legal new
  "running" (`ReportRunning`, guarded by `assertCallback`). The program can also take it back without looking at the
  lease (shared/control-plane/src/orchestrator.ts:425-429 and 1205-1209). `EvidenceLossKeepsFence` and
  `EvidenceLossKeepsExclusion` say for which states that would be harmless: they are equivalences.
  `RetractedEvidenceRun` is a run after which it is not: the lease has expired between a confirmed stop and the decision.
- *A recovery launches under its reservation.* When the recovery launch commits, the lease reserved for it is still
  HELD and has not timed out. The program does not look (shared/control-plane/src/orchestrator.ts:824-837).
  `ReleasedReservationRun` is a run in which the reserved lease is released first, which `bridge_release_lease` permits
  (shared/mcp-server-core/src/tools.ts:450-458), and the launch leaves a running execution without a fence;
  `ExpiredReservationRun` is one in which a reservation that timed out breaks write exclusion.
- *The final admission check and the launch after it are one step*, and so are `assertCallback` and the update it guards.

A takeover is only known to find the process of the *reservation* dead, as in `reserveTask`; the process of the execution
may be alive, and exclusion, fence and admission order hold all the same. The concurrency bound does not:
`StepKeepsBoundExactly` says exactly which step breaks it, `BoundUntilOverfilled` lifts that to runs, and `BoundBreaks` is
such a run: the takeover of a dead process's reservation meets the recovery that another process runs. `ConcurrencyBound` holds in every run whose takeovers find the execution's own process dead.

### What turned out to be false, and exactly when it holds

- *Overlap of globs.* `globToRegExp` compiles a separator with two stars in the middle of a pattern to a tail that can
  be empty, so the parts on both sides can meet: `CollapsedSeparatorExample`. The condition is that the first wildcard
  of a pattern is not such a separator unless it ends the pattern (`EndsAtFirst`). `OverlapExact` proves it necessary and
  sufficient for arbitrary texts. On legal paths a pattern is also safe when its two parts can only meet in a drive letter or
  a parent segment (`SafeOnPaths`), and `OverlapExactOnPaths` proves that condition exact; `GluedPathMissed` gives a missed
  pair of raw globs. The remark in shared/protocol/src/scope.ts:12 that a bare directory implies everything below it is
  not what the code does, and is not claimed.
- *PENDING exactly when unowned.* `transition` to PENDING keeps the owner. `OwnershipExact` proves that the equivalence
  is kept by a step if and only if the step is not such a request; `OwnedPendingExample` is a run that breaks it, after
  which the task is never ready. The tool interface does not offer PENDING as a target (shared/mcp-server-core/src/tools.ts:467).
- *Cancelling a PENDING task.* The transition table allows it, and `PendingIsNeverCancelled` proves that no operation does it
  while PENDING tasks are unowned: `transition` asks for the owner.
- *Ready tasks.* `readyTasks` lists at most 1000 PENDING rows, the oldest. Up to that many, an idle store always has a
  ready task (`NoDeadlock`); with one more it may show none (`LimitIsSharp`, on a store reached by a run).
- *DONE tasks and their dependencies.* `unblock` skips the dependency gate: `UnblockSkipsGateExample`.
- *The closing byte check of `getContext`.* It can fail, exactly on a last page whose last key has one character and
  filled the budget to the byte (`InternalExactly`; `InternalExample` prints such a page). The one of `getChanges` cannot.
- *Reports of a stopped turn.* Each is backed by a terminal completion of that turn, except exactly when a completion
  arrives again after its turn has left the bounded set of retired turns while a late interrupt still waits for it
  (`ReportsExact`, `StaleIsRepeated`; `StaleExample` is such a run).
- *A completion that overtakes the start of its turn.* On a thread given up as unconfirmed, a late start and then the completion
  free the thread (`StartThenCompletion`); in the other order the stop is reported but the thread stays occupied
  (`CompletionThenStart`).
- *A commit after a confirmed stop.* It is refused exactly when the lease has been quarantined (`CommitRefusedExactly`), which a
  reap does only while the stop is unconfirmed (`ReapAfterStopExpires`). `CommitGetsStuck` is a run that ends with the row
  RUNNING, its slot taken, and its living executor done, and by `StuckForGood` it stays so while that executor lives and
  nobody takes its reservation over as never authorised.
- *`stableStringify`.* It prints undefined array items, NaN and the infinities as null and drops undefined properties, so it
  identifies values exactly when they agree after that: `StableDecides`, `StableCollides`.
- *`unionHours`.* It starts from time zero, so it measures the part of the union that is not negative:
  `NothingBeforeZero` says when that is all of it.

## Model

| member | source | states |
|---|---|---|
| Scope.NormalizePath | shared/protocol/src/scope.ts:31-46 | the loops compute the specified normal form, or refuse with INVALID_ARGUMENT |
| Scope.NormalizedIdempotent | shared/protocol/src/scope.ts:31-46 | normalisation is idempotent, and its fixed points are exactly the strings of normal shape (no backslash, no double or trailing separator, no leading dot segment, no parent segment, not absolute, no control character) |
| PathSegments.NormalizingKeepsPath | shared/protocol/src/scope.ts:31-46 | a path is accepted if and only if, after empty and leading `.` segments are dropped, something is left, it begins with no separator and no drive, never climbs and has no control character; the result is those segments joined by single separators |
| Globs.GlobToRegExp | shared/protocol/src/scope.ts:53-86 | the compilation loop, which takes back an emitted separator before two stars, yields the left-to-right translation of the glob |
| GlobMeaning.MatchingDecides | shared/protocol/src/scope.ts:53-91 | a compiled glob matches exactly the texts that can be split along it: a run without separators for a star, a run on one line for two stars, nothing or a separator and such a run for a separator before two stars |
| GlobMeaning.MatchesGlobMeans | shared/protocol/src/scope.ts:53-91 | matchesGlob fails exactly on paths or globs that are refused, and otherwise decides this for their joined segments |
| GlobMeaning.StarStaysInSegment | shared/protocol/src/scope.ts:1-16 | a literal and a star match exactly what begins with the literal and has no separator after it |
| GlobMeaning.SingleIsOneCharacter | shared/protocol/src/scope.ts:1-16 | a literal and a question mark match exactly one character more, which is no separator |
| GlobMeaning.TailIsBelow | shared/protocol/src/scope.ts:53-91 | a literal directory and two stars match exactly the directory and, line terminators apart, every path below it |
| GlobMeaning.AnyDepthEnds | shared/protocol/src/scope.ts:53-91 | two stars, a separator and a literal match exactly the texts on one line that end with the literal |
| GlobMeaning.SeparatorsAreKept | shared/protocol/src/scope.ts:1-16 | a glob without adjacent stars matches only texts with as many separators as it has |
| Globs.RemainderCheckIsRedundant | shared/protocol/src/scope.ts:122-128 | the comparison of literal remainders never changes the answer |
| Globs.OverlapMeaning | shared/protocol/src/scope.ts:101-131 | the overlap test answers yes exactly when the patterns are equal, one is literal and matched by the other, or one has a wildcard and their literal prefixes are comparable |
| Globs.OverlapSymmetric | shared/protocol/src/scope.ts:101-131 | the overlap test is symmetric on all strings, errors included |
| Globs.LiteralAcceptsItself | shared/protocol/src/scope.ts:53-90 | a pattern without wildcards matches exactly itself |
| Globs.AcceptedBegins | shared/protocol/src/scope.ts:53-90 | under the exact condition, a matched text begins with the literal prefix of the pattern, or is that prefix without its separator |
| Globs.SharedTextOverlaps | shared/protocol/src/scope.ts:101-131 | two patterns meeting the condition that match one common text are reported as overlapping |
| GlobPaths.OverlapSound | shared/protocol/src/scope.ts:89-131 | if a path falls inside both globs and both are safe on paths, globsOverlap is true |
| Globs.OverlapExact | shared/protocol/src/scope.ts:60-131 | no partner of a pattern is ever missed if and only if the pattern meets the condition |
| GlobPaths.OverlapExactOnPaths | shared/protocol/src/scope.ts:31-131 | on legal paths no safe partner of a pattern is missed if and only if the pattern is safe: it meets the condition, or its two parts can only meet in a drive letter or a parent segment |
| GlobPaths.BeginsOrSkips | shared/protocol/src/scope.ts:53-90 | a text matched by a pattern outside the condition begins with its literal prefix, or joins the part before the separator to a text of the part after it |
| Globs.GluedPathMissed | shared/protocol/src/scope.ts:60-131 | for every pattern outside the condition whose joined text is a legal path, a concrete partner sharing that path is missed |
| Globs.CollapsedSeparatorExample | shared/protocol/src/scope.ts:60-131 | the smallest missed pair and the path both match |
| WriteScopes.ListConflictingPairs | shared/protocol/src/scope.ts:149-158 | the nested loops list every overlapping pair in order, none for read-only scopes, and stop at the first error |
| ScopeMeaning.ConflictingPairsExactly | shared/protocol/src/scope.ts:149-158 | for stored scopes the pairs are exactly the overlapping ones, and none if either scope has only reserved patterns |
| ScopeMeaning.ReadOnlyMeans | shared/protocol/src/scope.ts:18-29 | a pattern is read-only if and only if its first segment is the reserved one |
| ScopeMeaning.ScopeAllowsMeans | shared/protocol/src/scope.ts:160-164 | a stored scope allows a path if and only if some pattern is not reserved and some pattern accepts the path; a refused path is an error |
| WriteScopes.NormalizeScope | shared/protocol/src/scope.ts:166-176 | the result is the increasing list of distinct normal forms; empty, illegal and mixed scopes are refused, and nothing else |
| WriteScopes.ConflictMeaning | shared/protocol/src/scope.ts:144-158 | on stored scopes nothing throws, and scopes conflict exactly when both are writable and some pair of patterns overlaps |
| WriteScopes.ConflictSymmetric | shared/protocol/src/scope.ts:144-158 | conflict of stored scopes is symmetric |
| WriteScopes.SharedPathConflicts | shared/protocol/src/scope.ts:149-164 | two scopes that both allow one path conflict, if their patterns are safe on paths |
| LeaseManager.Leases.ListConflicts | shared/control-plane/src/lease-manager.ts:137-166 | the loop reports exactly the live leases that conflict or fence the task, each once |
| LeaseManager.Leases.AcquireLease | shared/control-plane/src/lease-manager.ts:66-134 | a lease is inserted with the first clock reading exactly when both conflict checks are empty; otherwise the error and no change |
| ProtocolEffects.AcquireExactly | shared/control-plane/src/lease-manager.ts:66-166 | a lease is granted if and only if its time is positive and no live lease conflicts with it or fences its task, held leases of the same task and holder apart |
| LeaseManager.WritableExactly | shared/control-plane/src/lease-manager.ts:169-201 | a path is writable under a lease if and only if it is the holder's, held, unexpired, covers the path, and no quarantined scope covers it |
| LeaseManager.AcquiredIsWritable | shared/control-plane/src/lease-manager.ts:101-201 | whoever acquires a scope may write its paths until the lease times out and no longer, quarantine apart |
| LeaseManager.RenewedRunsOn | shared/control-plane/src/lease-manager.ts:204-223 | renewal succeeds if and only if the lease is the holder's, held and unexpired; it is then live exactly to its new time or while it fences, and no other lease becomes more or less live |
| LeaseManager.ReleasedForGood | shared/control-plane/src/lease-manager.ts:225-253 | the holder is refused if and only if the lease is live at every time; a released lease is live at none, others are as live as before, and releasing again changes nothing |
| LeaseManager.Leases.Reap | shared/control-plane/src/lease-manager.ts:260-287 | every timed-out held lease expires, or is quarantined when it fences an unconfirmed execution; exactly the expired ones are returned |
| ProtocolEffects.ReapExactly | shared/control-plane/src/lease-manager.ts:260-287 | what has timed out is over, live at no time and writable for nobody, or sealed if it fences: live at all times and closed to writes; every other row stays |
| LeaseManager.QuarantinedForNow | shared/control-plane/src/lease-manager.ts:294-307 | quarantine succeeds if and only if the lease is live at some time; it is then live at every time, cannot be released, and quarantining again changes nothing |
| LeaseManager.ConfirmedForGood | shared/control-plane/src/lease-manager.ts:309-321 | confirmation succeeds if and only if the execution that names the lease has stop evidence; the lease is then live at no time |
| LeaseManager.ConfirmUndoesQuarantine | shared/control-plane/src/lease-manager.ts:294-321 | confirming after a quarantine leaves what the release would have left without it |
| ExecutionService.MaxTicket | shared/control-plane/src/execution-service.ts:22-22 | the greatest ticket of all records, or zero |
| ExecutionService.Executions.NextTicket | shared/control-plane/src/execution-service.ts:22-22 | the next ticket exceeds every ticket in use by exactly one over the greatest |
| ExecutionService.Executions.QueueExecution | shared/control-plane/src/execution-service.ts:10-28 | a new record replaces only a stopped one, at most 64 wait per agent, and nothing else changes |
| ExecutionService.Executions.ReconcileExecutors | shared/control-plane/src/execution-service.ts:47-70 | the loop over records has the effect of treating every orphan and the lease it names at once: released before launch, quarantined after |
| ProtocolEffects.ReconcileLeavesNoOrphan | shared/control-plane/src/execution-service.ts:47-70 | no execution of a dead process is left waiting or running: it has stopped and its lease is over if its stop is known, and is quarantined and its lease sealed if not |
| ProtocolEffects.ReconcileSparesTheLiving | shared/control-plane/src/execution-service.ts:47-70 | the rows of living processes, and the leases no orphan names, stay as they are |
| ExecutionService.Executions.LeastLimit | shared/control-plane/src/execution-service.ts:38-38 | the least of the record's own limit and those of all unstopped executions of the agent |
| ExecutionService.Executions.First | shared/control-plane/src/execution-service.ts:35-39 | the uncancelled queued execution with the least ticket, if there is one |
| ExecutionService.Executions.Admit | shared/control-plane/src/execution-service.ts:30-44 | after reconciling, exactly the head of the queue is admitted, and only into a free slot; an obsolete generation rolls everything back |
| ExecutionService.UpdateStaysCurrent | shared/control-plane/src/execution-service.ts:72-81 | after an update the same executor may update again; no identity and no other row changes |
| ExecutionService.ObsoleteIsRefused | shared/control-plane/src/execution-service.ts:72-111 | once a new generation is queued, updates, admissions and callbacks of any other are refused |
| ExecutionService.CancelledIsFenced | shared/control-plane/src/execution-service.ts:30-111 | a cancelled execution is never admitted and its callbacks are refused, while all others wait in line as before |
| Orchestrator.Transactions.Launch | shared/control-plane/src/orchestrator.ts:300-310 | lease acquisition and loss of stop evidence commit together or not at all |
| ProtocolEffects.LaunchExactly | shared/control-plane/src/orchestrator.ts:300-310 | a launch is refused if and only if it was cancelled or something is in the way at either check; the row then names the new lease and has no stop evidence |
| Orchestrator.Transactions.PrepareRecovery | shared/control-plane/src/orchestrator.ts:714-808 | queueing, reserving the lease and binding it commit together or not at all, and never beside a live lease of the task or of a conflicting scope |
| ProtocolEffects.PrepareRecoveryExactly | shared/control-plane/src/orchestrator.ts:714-808 | a recovery is prepared if and only if the execution has stopped, fewer than 64 wait, and no live lease is of the task or conflicts; it waits with its evidence, the next ticket and a lease of its own |
| Orchestrator.Transactions.LaunchRecovery | shared/control-plane/src/orchestrator.ts:825-837 | the recovery launch gives up the stop evidence without looking at the reserved lease |
| Orchestrator.Transactions.AbandonRecovery | shared/control-plane/src/orchestrator.ts:838-851 | before launch, execution and reserved lease are given back together |
| ProtocolEffects.AbandonRecoveryEnds | shared/control-plane/src/orchestrator.ts:838-851 | it succeeds if and only if the stop is confirmed and the lease not quarantined; the execution has then stopped, its lease is over, and no other lease changes |
| Orchestrator.Transactions.ReportStopped | shared/control-plane/src/orchestrator.ts:1210-1216 | a late stop report ends a quarantined execution and frees its lease in one transaction |
| ProtocolEffects.StopReportEnds | shared/control-plane/src/orchestrator.ts:1210-1216 | a stop report is never refused; it confirms the stop, and ends a quarantined execution with its lease |
| Orchestrator.Transactions.Commit | shared/control-plane/src/orchestrator.ts:472-475 | a confirmed stop releases the lease with the execution, an unconfirmed one quarantines it |
| ProtocolEffects.UnconfirmedCommitSeals | shared/control-plane/src/orchestrator.ts:472-475 | a commit without stop evidence succeeds if and only if the lease is held or quarantined; the lease is then live at all times, cannot be released or renewed, and closes its paths to every writer |
| ProtocolEffects.ConfirmedCommitEnds | shared/control-plane/src/orchestrator.ts:472-475 | a commit after a confirmed stop succeeds if and only if the lease is not quarantined; the execution has then stopped, its lease is live at no time, and no other lease changes |
| Orchestrator.Transactions.CancelTask | shared/control-plane/src/orchestrator.ts:538-548 | cancelling before launch stops the execution and releases a held lease, never a quarantined one |
| ProtocolEffects.CancelExactly | shared/control-plane/src/orchestrator.ts:538-548 | cancelling is never refused; what is queued or stopped ends with its held lease, what runs is only asked to |
| Orchestrator.Transactions.TakeOver | shared/control-plane/src/delegation-operation.ts:45-60 | a dead executor's execution is stopped before launch and quarantined with its lease after it |
| ProtocolEffects.TakeOverExactly | shared/control-plane/src/delegation-operation.ts:45-60 | a takeover never fails; what was not launched stops, what was launched and is not known to have stopped is quarantined and its lease sealed, the rest stays |
| ProtocolSafety.StepKeepsInv | shared/control-plane/src/orchestrator.ts:283-552 | every step of every process keeps the invariant: leases of own tasks, distinct tickets and generations, the fence, exclusion, and agreement with the living executors; and no lease is held again once it is not |
| ProtocolSafety.RunKeepsInv | shared/control-plane/src/orchestrator.ts:283-552 | the invariant holds in every state of every run |
| ProtocolTheorems.WriteExclusion | shared/control-plane/src/lease-manager.ts:52-201 | in every state of every run, two leases that may both write one path, with patterns safe on paths, have the same holder and the same task |
| ProtocolTheorems.QuarantineFence | shared/control-plane/src/lease-manager.ts:146-193 | an execution without stop evidence is not stopped and names a lease of its task that is HELD or QUARANTINED, live at any time, that nobody can release, and beside which no lease for the task can be acquired; once it is quarantined nobody can write the paths it covers |
| ProtocolTheorems.OnlyEvidenceFrees | shared/control-plane/src/orchestrator.ts:425-478 | only a stop report, a stop decision with evidence or its commit can end the fence; release, reap, cancel, death, takeover even from a living process, recovery and time leave generation, lease and fence alone |
| ProtocolTheorems.FencePersists | shared/control-plane/src/execution-service.ts:47-70 | over any stretch of a run without evidence the fence and its lease persist |
| ProtocolTheorems.CommitRefusedExactly | shared/control-plane/src/orchestrator.ts:472-475 | the commit after a confirmed stop is refused if and only if the lease has been quarantined |
| ProtocolTheorems.ReapAfterStopExpires | shared/control-plane/src/lease-manager.ts:260-287 | after a confirmed stop a reap quarantines no lease that was not quarantined |
| ProtocolBound.DecideKeepsBoundExactly | shared/control-plane/src/orchestrator.ts:425-429 | a stop decision with evidence keeps the bound if and only if its row holds a slot already or every limit concerned leaves room |
| ProtocolBound.StepKeepsBoundExactly | shared/control-plane/src/execution-service.ts:30-44 | every step keeps the bound, except exactly such a decision without room |
| ProtocolBound.BoundUntilOverfilled | shared/control-plane/src/execution-service.ts:30-44 | a run keeps the bound up to some state if and only if no step before it is such a decision |
| ProtocolBound.ConcurrencyBound | shared/control-plane/src/execution-service.ts:30-44 | in every state of a run whose takeovers find the execution's process dead, an agent occupies no more slots, quarantined ones included, than any occupying execution declares |
| ProtocolWitnesses.BoundBreaks | shared/control-plane/src/delegation-operation.ts:54-60 | a run in which a task is recovered by another process, the takeover of the dead process's reservation meets that execution, and the bound ends broken |
| ProtocolWitnesses.CommitGetsStuck | shared/control-plane/src/orchestrator.ts:472-475 | a run that ends stuck: the row RUNNING with stop evidence and a lease no longer held, its living executor finished |
| ProtocolWitnesses.StuckForGood | shared/control-plane/src/orchestrator.ts:472-475 | in every continuation of any run in which the executor lives and no takeover treats the reservation as never authorised, a stuck row stays RUNNING and keeps its slot |
| ProtocolWitnesses.RetractedEvidenceRun | shared/control-plane/src/orchestrator.ts:1205-1209 | a run after which taking stop evidence back leaves a RUNNING execution without a fence |
| ProtocolWitnesses.ReleasedReservationRun | shared/control-plane/src/orchestrator.ts:824-837 | a run in which a recovery launches without a fence |
| ProtocolWitnesses.ExpiredReservationRun | shared/control-plane/src/orchestrator.ts:824-837 | a run in which a recovery launch breaks write exclusion |
| ProtocolTheorems.EvidenceLossKeepsFence | shared/control-plane/src/orchestrator.ts:1205-1209 | losing stop evidence keeps the fence if and only if the execution occupies a slot and names a HELD or QUARANTINED lease |
| ProtocolTheorems.EvidenceLossKeepsExclusion | shared/control-plane/src/orchestrator.ts:1205-1209 | it keeps exclusion if and only if that lease is live already or conflicts with no live lease of another owner |
| ProtocolTheorems.ReleasedReservationUnfenced | shared/control-plane/src/orchestrator.ts:824-837 | releasing the reserved lease before a recovery launch succeeds, and the launch then leaves no fence |
| ProtocolTheorems.ExpiredReservationCollides | shared/control-plane/src/orchestrator.ts:824-837 | launching under a timed-out reservation breaks exclusion once another owner holds a conflicting lease |
| AdmissionOrder.AdmittedIsFirst | shared/control-plane/src/execution-service.ts:35-41 | whoever still waits after an admission has a later ticket |
| AdmissionOrder.WaitedBefore | shared/control-plane/src/execution-service.ts:10-44 | nothing returns to the queue: a waiting row of a known generation waited before the step |
| AdmissionOrder.NoOvertaking | shared/control-plane/src/execution-service.ts:30-44 | while an execution waits uncancelled, no later ticket of its agent is admitted |
| AdmissionOrder.TicketsGrow | shared/control-plane/src/execution-service.ts:20-25 | a ticket stays or is replaced by one above all others, and the maximum never falls |
| AdmissionOrder.HeadIsAdmitted | shared/control-plane/src/execution-service.ts:30-44 | with a free slot under every limit and only orphans ahead, the next attempt of a living executor is admitted |
| DelegationOperations.ReservedForOne | shared/control-plane/src/delegation-operation.ts:36-95 | while the owner's process lives, whoever else asks for the key neither owns nor changes the reservation, and cannot launch |
| DelegationOperations.FirstRequestReserves | shared/control-plane/src/delegation-operation.ts:36-95 | the first request opens a preparation of its own, and asking again gives the same one, still owned |
| DelegationOperations.ContinuationReserves | shared/control-plane/src/orchestrator.ts:573-606 | a continuation is a preparation of its own with the task and budget of the earlier request, which stays; asking again gives the same one |
| DelegationOperations.TakenOverForGood | shared/control-plane/src/delegation-operation.ts:44-65 | a takeover needs a dead process; the former executor can then neither launch nor, after a takeover in preparation, finish |
| DelegationOperations.AuthorizedIsUncertain | shared/control-plane/src/delegation-operation.ts:54-103 | a takeover after authorisation owns nothing, and nobody can authorise any more |
| DelegationOperations.FirstOutcomeWins | shared/control-plane/src/delegation-operation.ts:36-113 | whoever finishes or asks again gets the first outcome, and nobody can launch any more |
| OneLauncher.OneLauncherPerDelegation | shared/control-plane/src/orchestrator.ts:180-281 | in every run all launch authorisations of a delegation come from one executor and number at most max_attempts + 1 |
| OneLauncher.StepIsLegal | shared/control-plane/src/delegation-operation.ts:36-113 | phases only move PREPARING, AUTHORIZED, then FINISHED or UNCERTAIN (or PREPARING to FINISHED); the executor changes only in PREPARING and only from a dead process; a row with an outcome never changes |
| OneLauncher.OutcomeIsFinal | shared/control-plane/src/delegation-operation.ts:105-113 | an outcome once written is the outcome, with the same authorisations, in every later state |
| OneLauncher.DeadLaunchIsNotRepeated | shared/control-plane/src/delegation-operation.ts:54-65 | once the executor of an authorised launch is dead the delegation is never launched again |
| TaskGraph.NewEdgeCycle | shared/control-plane/src/task-service.ts:360-376 | adding an edge to an acyclic graph keeps it acyclic if and only if its target does not reach its source |
| TaskGraph.FreshSourceKeepsAcyclic | shared/control-plane/src/task-service.ts:97-103 | edges out of a new task close no cycle |
| TaskGraph.MinimalElement | shared/control-plane/src/task-service.ts:419-424 | in an acyclic graph every non-empty set of tasks has one that depends on no other of them |
| TaskService.TaskTables.GetDependencies | shared/control-plane/src/store/sqlite-store.ts:539-544 | exactly the edges of the task, in increasing order |
| TaskService.Tasks.CreateTask | shared/control-plane/src/task-service.ts:97-161 | the row and its edges are inserted exactly when all dependencies exist |
| TaskMoves.CreateExactly | shared/control-plane/src/task-service.ts:97-161 | in a reachable store a task is created if and only if its dependencies exist; it is pending and unowned, and the edges out of it are exactly those |
| TaskMoves.ClaimExactly | shared/control-plane/src/task-service.ts:286-333 | an unowned task can be claimed exactly while it is pending or blocked, an owned one exactly by its owner |
| TaskRuns.FirstClaimWins | shared/control-plane/src/task-service.ts:286-333 | of two agents who claim an unowned task the first has it, may repeat its claim, and the other is refused |
| TaskRuns.ReleaseUndoesClaim | shared/control-plane/src/task-service.ts:292-355 | claiming and giving back leaves the task as it was, two versions later |
| TaskService.Tasks.Reaches | shared/control-plane/src/task-service.ts:396-407 | the search with stack and seen set terminates and answers true if and only if a path exists |
| TaskService.Tasks.AddDependencyTo | shared/control-plane/src/task-service.ts:360-393 | the edge enters row and table together, unless it is missing an end, is a loop or would close a cycle |
| TaskMoves.DependExactly | shared/control-plane/src/task-service.ts:360-393 | a dependency is accepted if and only if both tasks exist and no path leads back; it is recorded once, in the row and in the table |
| TaskService.Tasks.CheckDependencies | shared/control-plane/src/task-service.ts:409-417 | exactly the dependencies that are missing or not DONE, none if and only if all are DONE |
| TaskService.Tasks.ReadyTasks | shared/control-plane/src/task-service.ts:420-424 | of the listed rows exactly the unowned PENDING tasks whose dependencies are DONE |
| TaskService.Tasks.TransitionTask | shared/control-plane/src/task-service.ts:428-480 | an owner moves along the table, with the dependency gate at WORKING only |
| TaskMoves.TransitionExactly | shared/protocol/src/types.ts:41-60 | an owner can move a task to a state exactly from the states listed for it, into work exactly with every dependency of the row DONE; one write, and nothing else changes |
| TaskService.Tasks.RecoverTask | shared/control-plane/src/task-service.ts:483-568 | recovery raises the attempt by one from a recoverable state with all dependencies DONE |
| TaskMoves.RecoverExactly | shared/control-plane/src/task-service.ts:483-568 | recovery is accepted if and only if the owner asks for the next attempt of a task at work, or of a failed one that was interrupted, with every dependency of the row DONE and the evidence in order |
| TaskService.Tasks.FinalizeTask | shared/control-plane/src/task-service.ts:584-644 | the loop over the path reaches DONE from WORKING by way of VERIFYING in one transaction, and refuses without a change |
| TaskMoves.FinalizeExactly | shared/protocol/src/types.ts:48-75 | each of the three outcomes is accepted from WORKING and from VERIFYING, and from no other state but the outcome itself, CLAIMED for BLOCKED and BLOCKED for FAILED; the task ends in it |
| TaskRuns.UnblockUndoesBlock | shared/control-plane/src/task-service.ts:647-687 | blocking and unblocking leaves a task at work as it was, two versions later, and puts a claimed or verifying one to work without a gate |
| TaskRuns.RetriesAreBounded | shared/control-plane/src/task-service.ts:689-732 | in every run whose retries grant at most max attempts a task is retried fewer than max times, however often it is recovered |
| TaskRuns.GraphOfEveryRun | shared/control-plane/src/store/sqlite-store.ts:470-544 | in every reachable store the graph is acyclic, between existing tasks, and the edge table equals the dependencies in the rows as a set |
| TaskRuns.RefusedIffCyclic | shared/control-plane/src/task-service.ts:360-376 | an edge is refused for a cycle if and only if it would close one |
| TaskRuns.OwnershipExact | shared/control-plane/src/task-service.ts:292-480 | a step keeps PENDING and unowned equivalent if and only if it does not move a task to PENDING without releasing it |
| TaskRuns.OwnershipOfEveryRun | shared/control-plane/src/task-service.ts:292-480 | PENDING means unowned, and the reverse, in every run without such a step |
| TaskRuns.PendingIsNeverCancelled | shared/protocol/src/types.ts:39-40 | while PENDING tasks are unowned, a PENDING task stays PENDING or is claimed; the table edge to CANCELLED is never taken |
| TaskRuns.OwnedPendingExample | shared/control-plane/src/task-service.ts:428-480 | a run that leaves a PENDING task with an owner, which is not ready |
| TaskRuns.StepIsLegal | shared/protocol/src/types.ts:39-70 | every state change is a table edge, two edges through VERIFYING in a submission, or a way out of FAILED by retry or evidenced recovery that raises the attempt by one; attempts change in no other way, versions grow with every change |
| TaskRuns.NoLostUpdate | shared/control-plane/src/store/sqlite-store.ts:478-505 | a write computed from a row as it was at one moment of a run goes through at a later moment if and only if the row is unchanged, and no operation meets that refusal itself |
| TaskRuns.AttemptCountsRaises | shared/control-plane/src/task-service.ts:483-732 | in every run the attempt of a task is the number of its retries and recoveries |
| TaskRuns.VersionIdentifiesRow | shared/control-plane/src/store/sqlite-store.ts:478-505 | between two moments of a run an equal version means an unchanged row |
| TaskRuns.FinalForEver | shared/protocol/src/types.ts:39-58 | DONE and CANCELLED are never left |
| TaskRuns.GateAtStart | shared/control-plane/src/task-service.ts:440-502 | work entered by transition or recovery starts with every dependency DONE |
| TaskRuns.GatedWorkKeepsDependencies | shared/control-plane/src/task-service.ts:440-502 | those dependencies are DONE in every later state |
| TaskRuns.UnblockSkipsGateExample | shared/control-plane/src/task-service.ts:668-687 | a run that ends with a DONE task whose dependency is PENDING |
| TaskReadiness.NoDeadlock | shared/control-plane/src/task-service.ts:419-424 | an idle store with a PENDING task, and no more of them than the listing limit, has a ready task |
| TaskReadiness.NoDeadlockInRuns | shared/control-plane/src/task-service.ts:419-424 | the same in every run that releases what it moves to PENDING |
| TaskReadiness.ReadyCanStart | shared/control-plane/src/task-service.ts:292-480 | a ready task can be claimed by any agent and then moved to WORKING |
| TaskReadiness.LimitIsSharp | shared/control-plane/src/store/sqlite-store.ts:507-529 | for every limit there is a reachable idle store with one PENDING task more whose listing shows no ready task |
| MemoryLog.InsertedIffValid | shared/control-plane/src/store/sqlite-store.ts:916-961 | a row that continues its key's numbering is inserted if and only if the log stays valid with it |
| MemoryLog.NoteTable.UpsertNote | shared/control-plane/src/memory-service.ts:70-107 | event and row are written together, or the event is rolled back |
| MemoryLog.UpsertKeepsInv | shared/control-plane/src/memory-service.ts:81-107 | revisions of a key stay contiguous and cursors globally increasing; upsert succeeds if and only if the expected revision is current, and the checks of the insertion never fail |
| MemoryLog.UpsertRecords | shared/control-plane/src/memory-service.ts:95-113 | a successful upsert adds one row with the body and lifecycle given, which is then the latest of its key; the latest rows of other keys stay |
| MemoryLog.LatestMeaning | shared/control-plane/src/store/sqlite-store.ts:906-994 | getMemoryNote at a cursor is the very row that the NOT EXISTS query selects |
| MemoryLog.ReplayIsSnapshot | shared/control-plane/src/store/sqlite-store.ts:906-1005 | folding the changes up to a cursor, last change of each key wins, gives the latest revision per key at that cursor |
| MemoryLog.CatchUp | shared/control-plane/src/store/sqlite-store.ts:996-1005 | the snapshot at one cursor and the changes after it give the snapshot at a later one |
| MemoryLog.ChangesExact | shared/control-plane/src/store/sqlite-store.ts:996-1005 | listMemoryChanges returns exactly the rows of its interval in cursor order |
| MemoryLog.ListNotesExact | shared/control-plane/src/store/sqlite-store.ts:964-994 | listMemoryNotes returns exactly the accepted latest revisions, each once, in key order |
| MemoryLog.ListedExactly | shared/control-plane/src/store/sqlite-store.ts:964-994 | a note is listed if and only if it is the latest of its key at the cursor, its lifecycle and key are asked for, and its key comes after the one given, in the order of first differences |
| MemoryLog.FrozenSnapshot | shared/control-plane/src/store/sqlite-store.ts:906-1005 | over any run the answers for a cursor already reached never change |
| MemoryLog.EachRevisionIsWrittenOnce | shared/control-plane/src/memory-service.ts:90-92 | no two upserts of a key succeed with the same expected revision, however far apart |
| MemoryPaging.BuildContext | shared/control-plane/src/memory-service.ts:137-170 | the loop with its breaks and omissions computes the specified page or error |
| MemoryPaging.PageIsExact | shared/control-plane/src/memory-service.ts:137-170 | a page carries exactly the first rows, at least one, each as a note or a named omission; it fits the budget, and tells whether and where there is more |
| PageChoice.PageIsChosen | shared/control-plane/src/memory-service.ts:147-171 | a row is named without its content only if the page with it as a note exceeds the budget, by the size it states; every note that fits is carried; and a page stops short of its limit only when the next row fits in no way |
| PageChoice.ChoiceIsUnique | shared/control-plane/src/memory-service.ts:147-171 | there is only one such page |
| PageChoice.PageRefusedExactly | shared/control-plane/src/memory-service.ts:137-160 | a budget is refused if and only if the empty page exceeds it, or the first row fits in no way |
| PageChoice.ContextDefaults | shared/control-plane/src/memory-service.ts:127-137 | a request that leaves something out is answered like one that asks for 20 notes, 16 KiB, active notes and the newest state |
| MemoryPaging.InternalExactly | shared/control-plane/src/memory-service.ts:166-169 | the closing check fails if and only if the last page ends with a one-character key and filled the budget to the byte |
| MemoryPageText.PageBytesArePrinted | shared/control-plane/src/memory-service.ts:36-37 | weighing a page by its other bytes and adding has_more and next_key measures its printed text |
| MemoryPageText.InternalExample | shared/control-plane/src/memory-service.ts:166-169 | a note written by a run whose printed page makes the closing check fail |
| MemoryPaging.AskAgain | shared/control-plane/src/store/sqlite-store.ts:964-994 | the query after the key of the n-th row returns the rest of the listing |
| MemoryPaging.PagingIsExact | shared/control-plane/src/memory-service.ts:127-171 | following next_key while the log grows and rows change size delivers every matching row exactly once in order, in at most as many pages |
| ChangePaging.BuildChanges | shared/control-plane/src/memory-service.ts:180-193 | the loop computes the specified page or error |
| ChangePaging.ChangePageIsExact | shared/control-plane/src/memory-service.ts:180-193 | a page has the first changes, at least one, within the budget, and the closing check never fails |
| PageChoice.ChangePageIsLongest | shared/control-plane/src/memory-service.ts:180-193 | a page takes every change that fits, one after the other, up to its limit; a budget is refused if and only if the first change, or the empty page, exceeds it |
| ChangePaging.AskForRest | shared/control-plane/src/store/sqlite-store.ts:996-1005 | the query after the cursor of the n-th change returns the rest of the changes |
| ChangePaging.ChangePagingIsExact | shared/control-plane/src/memory-service.ts:173-194 | following change_cursor delivers every change up to the frozen head once and in order; a reader who held the snapshot at the start then holds the one at the head |
| TurnClient.AppServerClient.FinishIfDone | codex/codex-side/src/codex-app-server-client.ts:614-666 | a wait is settled by a failed, interrupted or completed turn of its own thread, after usage or the grace timer |
| TurnCalls.SuccessfulCall | codex/codex-side/src/codex-app-server-client.ts:451-554 | a call whose turn completes with known usage returns, reports once, retires the turn and frees its thread; everything else is as it was |
| TurnCalls.FailedCall | codex/codex-side/src/codex-app-server-client.ts:528-553 | a call whose turn fails reports the stop and frees its thread; everything else is as it was |
| TurnCalls.CallWithoutUsage | codex/codex-side/src/codex-app-server-client.ts:614-666 | without usage a call that does not insist on it returns when its timer or its time ends |
| TurnCalls.StrictCallWithoutUsage | codex/codex-side/src/codex-app-server-client.ts:614-666 | a call that insists on usage fails when its time ends, but knows of the stop |
| TurnCalls.InterruptedCall | codex/codex-side/src/codex-app-server-client.ts:528-567 | an aborted or timed-out call interrupts its turn; whatever way that ends, the stop is reported and the thread is free |
| TurnCalls.AbandonedCall | codex/codex-side/src/codex-app-server-client.ts:528-567 | if the interrupt times out too, the call returns without a report and its thread stays held as unconfirmed |
| TurnCalls.UnstartedCall | codex/codex-side/src/codex-app-server-client.ts:480-553 | a call whose turn could not be started leaves its thread held as unconfirmed, without a report |
| TurnCalls.SeenTurnIsInterrupted | codex/codex-side/src/codex-app-server-client.ts:536-537 | if the request for a turn fails after its start was seen, that turn is interrupted |
| TurnCalls.UnannouncedCall | codex/codex-side/src/codex-app-server-client.ts:463-553 | a call that could not be announced asks for no turn, reports the stop and frees its thread |
| TurnCalls.ThrowingCall | codex/codex-side/src/codex-app-server-client.ts:500-553 | a call whose answer cannot be read reports the stop and frees its thread |
| TurnHandlers.RetiredIsIgnored | codex/codex-side/src/codex-app-server-client.ts:569-573 | a retired turn is remembered, at most 1024 are, and notifications about it change nothing |
| TurnHandlers.InterruptIsAnswered | codex/codex-side/src/codex-app-server-client.ts:555-567 | a call that interrupts its turn and then sees one completion is told that the runtime stopped if and only if the completion of that turn on its thread was known already or is the one that arrives; if the connection is lost first, if and only if it was known already |
| TurnHandlers.StartThenCompletion | codex/codex-side/src/codex-app-server-client.ts:912-979 | a late start, any number of other starts announced on the thread, and then the completion of the first report once and free a thread given up as unconfirmed |
| TurnHandlers.CompletionThenStart | codex/codex-side/src/codex-app-server-client.ts:912-988 | in the other order the stop is reported and the thread stays occupied |
| TurnClient.AppServerClient.TurnHasCompleted | codex/codex-side/src/codex-app-server-client.ts:953-988 | a completion reports, frees an unconfirmed thread, resolves a stop waiter and settles a wait, in this order |
| TurnHandlers.UsageInEitherOrder | codex/codex-side/src/codex-app-server-client.ts:614-666 | usage and completion may arrive in either order, and the call resolves as completed |
| TurnClient.AppServerClient.RejectEverything | codex/codex-side/src/codex-app-server-client.ts:1001-1013 | the loops settle every pending start, every registered wait and every stop waiter without evidence |
| TurnCalls.LossSettlesExactly | codex/codex-side/src/codex-app-server-client.ts:1001-1013 | a lost connection answers exactly the calls that await a start, a registered wait or an interrupt, without evidence, and leaves no waiter |
| TurnEvidence.StepKeepsInv | codex/codex-side/src/codex-app-server-client.ts:451-679 | every event keeps the invariant that ties stages, waiters and completions to terminal notifications received |
| TurnEvidence.HistoryKeepsInv | codex/codex-side/src/codex-app-server-client.ts:451-679 | the invariant holds under every interleaving |
| TurnTheorems.FreedOnlyWithEvidence | codex/codex-side/src/codex-app-server-client.ts:528-553 | a thread leaves the active ones only after a terminal completion of its turn on that thread, or by a call that never asked for a turn |
| TurnTheorems.FreedAfterCompletion | codex/codex-side/src/codex-app-server-client.ts:451-554 | in every history, whatever the order of responses, notifications, aborts, timers and connection loss, a freed thread's turn has completed before, unless the call never asked for one |
| TurnTheorems.UnconfirmedFreedExactly | codex/codex-side/src/codex-app-server-client.ts:969-979 | a thread given up as unconfirmed becomes free if and only if its last known turn completes, not retired meanwhile |
| TurnTheorems.OneCallPerThread | codex/codex-side/src/codex-app-server-client.ts:463-465 | at most one call holds a thread, and no other can enter |
| TurnTheorems.UnconfirmedAdmitsNoCall | codex/codex-side/src/codex-app-server-client.ts:463-465 | an unconfirmed thread admits no call |
| TurnTheorems.StoppedMeansEnded | codex/codex-side/src/codex-app-server-client.ts:483-541 | a call that asked for a turn and says the runtime stopped has seen a terminal completion of that turn on its thread |
| TurnTheorems.ReportsExact | codex/codex-side/src/codex-app-server-client.ts:969-985 | a step reports a stop without evidence if and only if it is a stale repeated completion |
| TurnTheorems.StaleIsRepeated | codex/codex-side/src/codex-app-server-client.ts:968-985 | a stale completion had arrived before |
| TurnWitness.StaleExample | codex/codex-side/src/codex-app-server-client.ts:968-985 | a run, with 1024 retirements in between, in which such a completion reports a turn that has not ended |
| TurnTheorems.AllReportsSound | codex/codex-side/src/codex-app-server-client.ts:528-553 | if the server completes no turn twice, every stop report in every run is backed by a completion |
| Utf16.CodePointsOfScalars | shared/protocol/src/artifact-transport.ts:37-37 | scalars put together are read back as the same code points |
| CanonicalProofs.ReadEscaped | shared/web-audit/src/model.ts:158-158 | an escaped string is read back to its code units, lone surrogates included, whatever follows |
| CanonicalProofs.Unambiguous | shared/web-audit/src/model.ts:157-165 | printed values are self-delimiting, so equal texts mean equal values |
| CanonicalOrder.NormalDecides | shared/web-audit/src/model.ts:162-162 | sorting keys at every depth identifies exactly the values that agree up to key order |
| CanonicalOrder.CanonicalDecides | shared/web-audit/src/model.ts:157-165 | canonical texts are equal if and only if the values are the same JSON value up to key order |
| CanonicalText.PrintedForm | shared/web-audit/src/model.ts:157-165 | literals, brackets, commas and colons of the text are those of JSON, without a space |
| CanonicalText.NormalKeysAscend | shared/web-audit/src/model.ts:162-162 | an object is printed with exactly its own keys, in strictly ascending order of code units |
| CanonicalText.BeforeMeans | shared/web-audit/src/model.ts:162-162 | one key comes before another if it is a proper beginning of it, or has the smaller code unit where they first differ |
| CanonicalText.PlainTextIsKept | shared/web-audit/src/model.ts:158-158 | text without quotes, backslashes, control characters and lone surrogates is copied |
| CanonicalOrder.StableDecides | shared/control-plane/src/idempotency.ts:23-30 | stableStringify texts are equal if and only if the values are the same after what it leaves out |
| CanonicalText.CleanDropsUndefined | shared/control-plane/src/idempotency.ts:26-29 | of an object exactly the undefined properties are left out |
| CanonicalOrder.StableIsCanonical | shared/control-plane/src/idempotency.ts:23-30 | on JSON values both printers agree |
| CanonicalOrder.StableCollides | shared/control-plane/src/idempotency.ts:23-30 | two pairs of different values with the same text |
| Idempotency.EarlyLookupAgrees | shared/control-plane/src/idempotency.ts:52-74 | the lookup ahead of the transaction never answers differently from the one inside it, however early it was |
| Idempotency.FingerprintsDecide | shared/control-plane/src/idempotency.ts:17-30 | unless these two texts collide, fingerprints are equal if and only if the requests agree up to key order and what stableStringify leaves out |
| Idempotency.RowsStay | shared/control-plane/src/idempotency.ts:53-64 | a row once written stays as it is in every later state |
| Idempotency.AtMostOnce | shared/control-plane/src/idempotency.ts:44-86 | of all calls with one key, in any history of concurrent calls, only the first answered applies; a later one gets the same response if and only if operation and fingerprint are the same, and is refused otherwise |
| Utf8Split.GroupsAreFewest | shared/protocol/src/artifact-transport.ts:37-46 | no grouping of the code points within the budget uses fewer groups than the greedy one |
| Utf8Split.CountsEncodedBytes | shared/protocol/src/artifact-transport.ts:37-46 | the bytes counted for a code point are those of its UTF-8 encoding |
| Utf8Split.ChunksAreBest | shared/protocol/src/artifact-transport.ts:28-49 | the chunks are a split, none is empty unless the text is, and no split has fewer |
| Utf8Split.SplitUtf8 | shared/protocol/src/artifact-transport.ts:28-49 | lossless, whole code points, within the budget, as few chunks as possible; it throws exactly on a bad budget or an unpaired surrogate |
| CampaignHistory.CheckHistory | shared/web-audit/src/validation.ts:162-172 | the loop with its running hash accepts exactly the histories that meet every condition |
| CampaignMeaning.HypothesisOkMeans | shared/web-audit/src/validation.ts:162-172 | a hypothesis is accepted if and only if every event is numbered, dated, reasoned, chained, hashed and names known receipts, time never runs backwards between any two events, it began untested, and its status and evidence time are those of its last event and last beginning |
| CampaignMeaning.ReviewRecords | shared/web-audit/src/evidence.ts:27-31 | a review goes through if and only if its time is a date not before the last event; it appends that one event and changes the status alone |
| CampaignMeaning.ReopenRecords | shared/web-audit/src/evidence.ts:124-132 | a reopening needs a reason and a time not before the last event; it appends one event without receipts, and evidence counts from then on |
| CampaignMeaning.ImportRecords | shared/web-audit/src/evidence.ts:32-40 | every imported hypothesis has one event, its creation untested at that moment |
| CampaignHistory.ImportIsAccepted | shared/web-audit/src/evidence.ts:32-40 | an imported campaign is accepted |
| CampaignHistory.ReviewIsAccepted | shared/web-audit/src/evidence.ts:116-123 | a reviewed campaign is accepted again |
| CampaignHistory.ReopenIsAccepted | shared/web-audit/src/evidence.ts:124-132 | a reopened campaign is accepted again |
| CampaignHistory.EveryRunIsAccepted | shared/web-audit/src/validation.ts:162-172 | so is every campaign reached by import and any sequence of reviews, reopenings and new receipts |
| CampaignHistory.HistoriesOnlyGrow | shared/web-audit/src/evidence.ts:116-132 | histories are only appended to, and definitions never change |
| CampaignHistory.LastHashFixesHistory | shared/web-audit/src/evidence.ts:27-31 | two accepted hypotheses whose histories end in the same hash are the same, or two of their own event bodies or definitions collide |
| IntervalUnion.SortIntervals | shared/web-audit/src/metrics.ts:20-20 | the array is sorted in place: ordered by start, a permutation, and intervals with one start keep their order |
| IntervalUnion.SweepStep | shared/web-audit/src/metrics.ts:22-25 | one step of the sweep keeps the count of covered milliseconds |
| IntervalUnion.UnionHours | shared/web-audit/src/metrics.ts:19-27 | whatever their order, overlap or repetition, the hours are those of the union of the intervals at or after time zero |
| IntervalUnion.NothingBeforeZero | shared/web-audit/src/metrics.ts:19-27 | that is the whole union if and only if no session reaches back before time zero |

## Left out

- MemoryPageText.InternalExample: the printed notes have no references and no related tasks, and their texts need no escapes.
- TaskService.Tasks.CreateTask: does not model run ids, parents and delegation depth; the stored-lineage check of recovery is an answer passed in.
- TaskService.Tasks.RecoverTask: telemetry, attempts and deliverables that `assertRecoverable` reads are three answers passed in.
- MemoryLog.NoteTable.UpsertNote: task ownership, artifact references and draft validation come before it and are not modelled.
- MemoryPaging.BuildContext: pending tasks and reference states enter only through the byte count of a page, which may differ in every call.
- LeaseManager.Leases.AcquireLease: the scope is already normalised, and inside the method the first conflict check sees the same store as the second; the protocol's step is the transaction alone, whatever the first check saw.
- DelegationOperations.ReservedForOne: artifacts and the fingerprint of the contract are a hash passed in; creating or checking the task is an answer passed in.
- DelegationOperations.ContinuationReserves: that only a prelaunch scope conflict may be continued is checked before it and not modelled.
- Idempotency.RowsStay: recovery reservations, which rewrite their own idempotency rows, are not modelled.
- TurnTheorems.AllReportsSound: a late confirmation is reported in the step that confirms it, and timers of late interrupts may fire at any time.
- CampaignHistory.CheckHistory: captures, sessions and the other checks of `parseCampaign` are not modelled; the form of digests is not checked.
- IntervalUnion.UnionHours: the division is over reals, without rounding.
- The orchestrator's loops, timers and promises between transactions: `Protocol` allows the transactions in any order its guards permit.
- Error details, events, blockers and timestamps such as `released_at`, `updated_at` and `completed_at`.
- Paths and patterns with characters above U+FFFF: the program sees two code units where the model sees one character.
- `runReady`, `wait`, capability checks and authorisation of cancellation and recovery.
- SQLite itself, migrations and journal modes; tables are maps and sequences, a transaction is one step or no change.
- SHA-256, random ids and timestamps: functions or fresh names passed in.
- Child processes, transports, the tracking interface, telemetry, prompts and release scripts.
- `uniqueExecutions`, `assessHypothesis`, `queryShape` and session metrics other than the sweep: filters and tables with one-branch claims.
