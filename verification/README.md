# Verified model of the study agent's gateway and persistence core

A Dafny model of the parts of the agent that decide what may happen to a
power-system study, and in which order: the serialized owner of gateway
operations, the durable execution-admission protocol over one database file,
the strict typed codec, and the deterministic harness with the inventory
service above it.

- `Operations` holds durable operation records and their compare-and-swap
  store. `Worker` is the owner of those operations as a step relation over
  submitters, waiting clients, the owner thread, the watchdog and closers; a
  step is one lock section, one store transaction or one read of shared state,
  and a crash with a new process is a step too. `WorkerInvariant` proves the
  joint invariant, `WorkerSafety` what follows over every schedule, and
  `WorkerQuarantine` what quarantine does not stop. `WorkerHistory` explains
  every record by what happened before, and `WorkerAnswers` says what whole
  sections do: a submission, a watchdog pass, a close, a restart.
- `Tables` holds the tables and the transaction-local writers; `Workflows`,
  `Leases`, `Approvals`, `Reconciliation` and `Coordinator` are the four stores
  and the coordinator as classes over one database, each method proved against
  a function of the tables. `Protocol` defines calls and runs.
  `ProtocolInvariant` and `ProtocolPreservation` prove one invariant over all
  tables, `ProtocolSafety` and `ProtocolHistory` theorems over every run, and
  `ProtocolStores` that the classes really make those runs. `ProtocolTerms` says
  what the stored rows tell about the calls that made them, `ProtocolPaths` which
  ways a workflow can take, and `ProtocolAnswers` exactly when each call succeeds.
- `Decimals` and `Codec` are the canonical decimal text and the codec.
- `Harness` and `HarnessSafety` are apply, rollback and verification, and
  `HarnessAnswers` exactly when each call succeeds; `Inventory` is cursor paging
  with the traversal, lookup and summary above it, and `InventoryAnswers` exactly
  what pages, cursors and summaries answer.

Times are integers, and every clock reading is a parameter. Identifiers,
digests, principals and wire names are opaque values that the code only
compares. Where the code's comments or documents and its behaviour differ, the
model follows the behaviour: quarantine stops admission but not queued work,
decisions inserted before a raise are not durable, fence rejections are,
EXECUTING alone implies neither an authorization nor an envelope, and a preview
that names a cell twice can change it with nothing recorded. Each of these is a
theorem below.

## Model

| member | source | states |
|---|---|---|
| Operations.Lifecycle | src/powerfactory_agent/persistence/operation_store.py:203-440 | Over any sequence of store calls in any order: a terminal record is never written again, `version` counts exactly the state changes and stays at most 4, `finished_at` is set exactly in terminal states, a timed-out record never becomes COMPLETED, an unresponsive one can finish only as RECONCILIATION_REQUIRED, and the key never changes |
| Operations.TouchKeeps | src/powerfactory_agent/persistence/operation_store.py:397-440 | One call changes a record only along its lifecycle, raising `version` by exactly one, or leaves it wholly alone; columns stay consistent with the state |
| Operations.CountsWhatMoves | src/powerfactory_agent/persistence/operation_store.py:328-395 | The count that a call over every row returns is exactly the number of rows it changes |
| Operations.OperationStore.Admit | src/powerfactory_agent/persistence/operation_store.py:110-172 | A key is admitted once: a repeat returns the existing record and inserts nothing, and is a conflict when handler or payload differ |
| Operations.OperationStore.Transition | src/powerfactory_agent/persistence/operation_store.py:397-440 | The compare-and-swap raises without effect unless the record is in an expected state, and otherwise writes that one record |
| Operations.OperationStore.UpdateMatching | src/powerfactory_agent/persistence/operation_store.py:328-344 | `reconcile_orphans` and `cancel_all_queued` move every matching record and no other, and return how many |
| Operations.OperationStore.CancelExpiredQueued | src/powerfactory_agent/persistence/operation_store.py:346-373 | Cancels exactly the queued records whose deadline has passed and returns exactly their ids in `sequence` order |
| WorkerInvariant.InitInv | src/powerfactory_agent/gateway/worker.py:97-109 | A first process on an empty store satisfies the joint invariant |
| WorkerInvariant.NextInv | src/powerfactory_agent/gateway/worker.py:156-382 | Every step of every submitter, client, owner, watchdog and closer, every crash and every constructor step keeps the invariant that joins queue contents, record states, the dequeued operation and the holder of the admission lock |
| WorkerInvariant.RunInv | src/powerfactory_agent/gateway/worker.py:156-382 | So does every schedule |
| WorkerSafety.AtMostOneRunning | src/powerfactory_agent/gateway/worker.py:258-331 | Under every interleaving at most one record is IN_FLIGHT, CLIENT_TIMED_OUT or ENGINE_UNRESPONSIVE; it is the one the owner dequeued and is executing; the handler runs only on such a record; the record is terminal when `_execute` has returned, and which terminal record it is `WorkerHistory.OutcomeDecides` states |
| WorkerSafety.AtMostOneLive | src/powerfactory_agent/gateway/worker.py:97-109 | At every moment of every schedule, the constructor's two phases after a crash included, at most one record is IN_FLIGHT, CLIENT_TIMED_OUT or ENGINE_UNRESPONSIVE |
| WorkerSafety.QueueAgreesWithStore | src/powerfactory_agent/gateway/worker.py:162-182 | The queue is strictly sorted by `sequence`; every QUEUED record is in the queue, in the owner's hands or being put under the lock, and in only one of these; `put_nowait` never finds the queue full |
| WorkerSafety.EnteredAtMostOnce | src/powerfactory_agent/gateway/worker.py:272-288 | Over any run with any number of restarts, starts and handler entries happen in strictly increasing `sequence` order, so a handler is entered at most once per idempotency key |
| WorkerSafety.EntryIsFresh | src/powerfactory_agent/gateway/worker.py:106-109 | A handler is only ever entered for a record admitted by the running process, not entered before, live, and under a registered name |
| WorkerSafety.RecordsPersist | src/powerfactory_agent/persistence/operation_store.py:203-440 | Over every schedule no record is lost, renamed or moved off its lifecycle, and terminal records stay as they are |
| WorkerSafety.UnresponsiveShuts | src/powerfactory_agent/gateway/worker.py:368-377 | In every reachable state with an ENGINE_UNRESPONSIVE record of this process the worker admits nothing more |
| WorkerSafety.NoAdmissionOnceShut | src/powerfactory_agent/gateway/worker.py:162-172 | Once shut (closing, quarantined, or about to be), no record is created, the owner's dequeues use up the queue one for one, and only what was queued or in hand can start |
| WorkerSafety.NothingStartsAfterClose | src/powerfactory_agent/gateway/worker.py:214-229 | After `close` has cancelled the queue under the lock, this process starts nothing more and no record is QUEUED |
| WorkerQuarantine.QuarantinedWorkerStartsQueuedWork | src/powerfactory_agent/gateway/worker.py:262-288 | A concrete reachable schedule, its clock never going back, in which a quarantined worker goes on to start queued work: the owner loop never reads the flag |
| WorkerQuarantine.MayStillStartIff | src/powerfactory_agent/gateway/worker.py:262-288 | A worker that is quarantined or closing, wherever its owner is, can still start something under a clock that never goes back from `t` exactly when the owner is alive and either a QUEUED record with a queue deadline after `t` is in the queue or just dequeued, or the owner is past the deadline check of a QUEUED record |
| WorkerHistory.RecordsAreExplained | src/powerfactory_agent/gateway/worker.py:156-382 | In every reachable state every record is explained by what happened before: it carries its request with deadlines counted from its admission; it was started in time; it timed out or became unresponsive only when a client or the watchdog read the clock that late or a closer gave it up; FAILED means its handler raised a known failure, now stored, COMPLETED and COMPLETED_AFTER_CLIENT_TIMEOUT that it returned the stored result, and RECONCILIATION_REQUIRED that its outcome was uncertain, unserializable or came after it was unresponsive, or that the process ended first |
| WorkerHistory.OutcomeDecides | src/powerfactory_agent/gateway/worker.py:290-331 | The outcome of a handler decides its record: once the owner lets go of the operation, a known failure has left FAILED with its evidence, or RECONCILIATION_REQUIRED exactly when the record was unresponsive first; an uncertain or unserializable outcome has left RECONCILIATION_REQUIRED; a returned result is stored as COMPLETED, or late exactly when it was |
| WorkerAnswers.RepeatedSubmission | src/powerfactory_agent/gateway/worker.py:162-182 | A repeated key gets its own record back, even from a full, stopping or quarantined worker, unless it carries another request; no record changes |
| WorkerAnswers.NewSubmission | src/powerfactory_agent/gateway/worker.py:162-182 | A new key is admitted exactly when the worker is open, its queue has room and the request is valid, and then its QUEUED record and its place in the queue come into being together |
| WorkerAnswers.ClientWaits | src/powerfactory_agent/gateway/worker.py:239-256 | A waiting client reads on exactly while its record is queued or in flight and its deadline is ahead; past it, it marks a record in flight and otherwise returns |
| WorkerAnswers.WatchdogPass | src/powerfactory_agent/gateway/worker.py:349-367 | A watchdog pass cancels only queued records and goes for exactly the operation that was active as it began, when that has run past its health threshold |
| WorkerAnswers.WatchdogQuarantines | src/powerfactory_agent/gateway/worker.py:368-379 | Having the lock, it marks that record unresponsive and quarantines the worker before it lets go |
| WorkerAnswers.WatchdogLeavesIff | src/powerfactory_agent/gateway/worker.py:380-381 | The watchdog ends exactly when the worker was stopping as its pass began and the owner has ended |
| WorkerAnswers.CloseCancelsTheQueued | src/powerfactory_agent/gateway/worker.py:214-218 | The locked section of `close` stops the worker and cancels exactly the queued records |
| WorkerAnswers.CloserGivesUp | src/powerfactory_agent/gateway/worker.py:220-231 | When the wait for a living owner runs out, `close` marks the active record unresponsive if it runs, quarantines the worker and returns False |
| WorkerAnswers.CloserReturnsIff | src/powerfactory_agent/gateway/worker.py:220-237 | `close` gets on only when the thread it waits for has ended or its time is up, and returns True exactly when both have ended in time |
| WorkerAnswers.OwnerLeavesIff | src/powerfactory_agent/gateway/worker.py:262-265 | The owner leaves its loop exactly when the worker is stopping and nothing is queued or active |
| WorkerAnswers.EndsAreClean | src/powerfactory_agent/gateway/worker.py:207-237 | In every reachable state an owner that left its loop left nothing queued behind, and `close` has returned True only if both threads ended, False only if the worker is quarantined |
| WorkerAnswers.RestartSettles | src/powerfactory_agent/gateway/worker.py:97-109 | A crash at any point and the next constructor settle every record: what may have had an effect needs reconciliation, without result or error, what was queued is cancelled, the rest is untouched |
| Tables.FindCommand | src/powerfactory_agent/persistence/workflow_store.py:145-152 | The lookup by workflow and key finds a matching command exactly when there is one |
| Tables.SQLiteDatabase.MintFencingToken | src/powerfactory_agent/persistence/_transactional_writers.py:28-50 | Returns one more than the scope's stored counter, or 1, and stores it; other scopes keep theirs |
| Tables.SQLiteDatabase.WriteLeaseRow | src/powerfactory_agent/persistence/_transactional_writers.py:53-91 | Replaces the scope's row, or changes nothing when another scope holds the same lease id |
| Tables.SQLiteDatabase.InsertWorkflowCommand | src/powerfactory_agent/persistence/_transactional_writers.py:118-139 | Appends the command, or changes nothing when its id or its workflow's key is taken |
| Workflows.WorkflowStore.Record | src/powerfactory_agent/persistence/workflow_store.py:106-125 | A new row is stored as given, in any state, unless the id exists |
| Workflows.WorkflowStore.Transition | src/powerfactory_agent/persistence/workflow_store.py:173-316 | Key replay, version check, legality check, command insert and row update, or no change at all |
| Leases.ContextLeaseStore.Acquire | src/powerfactory_agent/persistence/lease_store.py:136-204 | An occupied scope, a stale version or a clash leaves no trace, not even in the token counter; otherwise the next token, the row and two events are written together |
| Leases.ContextLeaseStore.Release | src/powerfactory_agent/persistence/lease_store.py:418-455 | The holder frees the scope with its event; a refused claim changes only the event log |
| Leases.ContextLeaseStore.StartAtomicCall | src/powerfactory_agent/persistence/lease_store.py:261-295 | The holder of an idle lease marks its operation in flight; a refused claim changes only the event log |
| Leases.ContextLeaseStore.FinishAtomicCall | src/powerfactory_agent/persistence/lease_store.py:297-333 | The holder clears exactly the operation in flight, and succeeds exactly when `ProtocolAnswers.HolderSucceedsIff` says; a refused claim changes only the event log |
| Leases.ContextLeaseStore.Expire | src/powerfactory_agent/persistence/lease_store.py:335-393 | A held lease past its time frees its scope when idle and blocks it when a call is in flight |
| Approvals.ApprovalAuthorityStore.CreateRequest | src/powerfactory_agent/persistence/approval_store.py:55-74 | A request is stored only over a matching workflow awaiting authorization |
| Approvals.ApprovalAuthorityStore.Approve | src/powerfactory_agent/persistence/approval_store.py:96-178 | A decision, an ISSUED authorization and its event together, or nothing: decisions inserted before a raise are rolled back |
| Approvals.ApprovalAuthorityStore.Decide | src/powerfactory_agent/persistence/approval_store.py:180-212 | `reject`, `cancel` and `expire` decide an undecided request within or after its lifetime |
| Approvals.ApprovalAuthorityStore.Admit | src/powerfactory_agent/persistence/approval_store.py:253-297 | The first presentation settles an authorization; later ones get the stored answer |
| Approvals.ApprovalAuthorityStore.InvalidateAuthorization | src/powerfactory_agent/persistence/approval_store.py:234-251 | Only an ISSUED authorization is invalidated; any other keeps its state |
| Approvals.ApprovalAuthorityStore.MarkConsumed | src/powerfactory_agent/persistence/approval_store.py:299-315 | Only a CONSUMING authorization is consumed; any other keeps its state |
| Reconciliation.ReconciliationStore.CommitIntent | src/powerfactory_agent/persistence/reconciliation_store.py:49-95 | An intent is stored only for the workflow's current version and operation; an equal repeat is a no-op and a different one a conflict |
| Reconciliation.ReconciliationStore.AppendObservation | src/powerfactory_agent/persistence/reconciliation_store.py:115-146 | Observations attach only to a stored intent with the same operation; an equal repeat is a no-op |
| Reconciliation.ReconciliationStore.RecordClassification | src/powerfactory_agent/persistence/reconciliation_store.py:158-194 | A classification is stored only when its listed observations support it, that is, show what `ProtocolTerms.ClassificationsAreShown` writes out, checked again for a repeat |
| Reconciliation.AtMostOneClaim | src/powerfactory_agent/persistence/reconciliation_store.py:242-297 | When before and after values differ, observations support at most one of BEFORE, AFTER_OBSERVED and DIVERGED, and none exactly when there is no fresh value read or all fresh reads match bindings and show both values |
| Reconciliation.ClaimsOnlyWeaken | src/powerfactory_agent/persistence/reconciliation_store.py:242-297 | Adding observations never turns one value claim into the opposite one, and never takes back DIVERGED |
| Coordinator.ExecutionAdmissionCoordinator.CreateStartedLease | src/powerfactory_agent/persistence/execution_admission.py:327-376 | Mints, checks the intent's token and writes the started lease with its three events, or says which check failed |
| Coordinator.ExecutionAdmissionCoordinator.AdmitAndBeginWrite | src/powerfactory_agent/persistence/execution_admission.py:74-272 | Command, workflow move, lease, intent, consumed authorization, admission and envelope together, or nothing; a replay returns the stored envelope; when it succeeds is `ProtocolAnswers.AdmissionSucceedsIff` |
| ProtocolInvariant.EmptyIsValid | src/powerfactory_agent/persistence/database.py:515-568 | An empty database satisfies the joint invariant |
| ProtocolInvariant.ExecGrows | src/powerfactory_agent/persistence/database.py:496-506 | No call takes back a command, event, decision, admission, intent, observation, record or envelope, lowers a token counter, frees a scope that expired with a call in flight, or moves a workflow or authorization backwards |
| ProtocolInvariant.TransitionRaisesRank | src/powerfactory_agent/persistence/workflow_store.py:30-55 | Every legal transition raises a rank that never exceeds 13 |
| ProtocolPreservation.ExecValid | src/powerfactory_agent/persistence/database.py:496-506 | Each of the twenty public calls keeps one joint invariant over all tables |
| ProtocolStores.Perform | src/powerfactory_agent/persistence/database.py:496-506 | The store methods on the shared database do exactly what the run semantics says, keep the invariant and take nothing back |
| ProtocolStores.Session | src/powerfactory_agent/persistence/database.py:496-506 | A session of store calls from an empty file ends in the state of the run of those calls, and that state is valid |
| ProtocolSafety.RunKeeps | src/powerfactory_agent/persistence/database.py:496-506 | So does any run of them, whatever succeeds or fails |
| ProtocolSafety.FailedCallChangesNothing | src/powerfactory_agent/persistence/lease_store.py:281-294 | A call that raises leaves every table as it was, except that a fence rejection commits exactly one event, on the row it was refused for, with the caller's token |
| ProtocolSafety.EnvelopeReplay | src/powerfactory_agent/persistence/execution_admission.py:121-139 | Repeating a successful admission after any later run returns the same envelope and changes nothing |
| ProtocolSafety.CommandReplay | src/powerfactory_agent/persistence/workflow_store.py:212-236 | Repeating a successful transition after any later run returns the same command and changes nothing |
| ProtocolSafety.HolderIsCurrent | src/powerfactory_agent/persistence/lease_store.py:493-527 | A release, start or finish succeeds only with the scope's newest minted token, by its owner, in time, and at the workflow's current version |
| ProtocolSafety.SupersededForever | src/powerfactory_agent/persistence/lease_store.py:493-527 | Once a scope has minted a newer token, an older claim on it is refused in every later state and moves no lease |
| ProtocolSafety.StrandedEndsOnlyByExpiry | src/powerfactory_agent/persistence/lease_store.py:345-394 | A held lease whose workflow has moved on stays untouched over any run unless an expiry, not before its time, ends it |
| ProtocolSafety.InFlightExpiryIsFinal | src/powerfactory_agent/persistence/execution_admission.py:140-141 | A scope in IN_FLIGHT_EXPIRED keeps its row and its acquired tokens over any run: it is never leased again |
| ProtocolSafety.LogsRebuildLeases | src/powerfactory_agent/persistence/_transactional_writers.py:28-50 | In every reachable state folding a scope's events rebuilds its row or its absence, its ACQUIRED events carry exactly 1..n in order, n is the stored counter, and a live row carries n |
| ProtocolSafety.AuthorizationIsSingleUse | src/powerfactory_agent/persistence/approval_store.py:461-477 | Over `admit` and `admit_and_begin_write` an authorization leaves ISSUED for CONSUMING at most once, exactly when an ADMITTED admission exists, exactly when its state is CONSUMING or CONSUMED |
| ProtocolSafety.UnsafeStateIsUnreachable | src/powerfactory_agent/persistence/approval_store.py:432-459 | No presentation in any reachable state takes the unsafe-authorization-state branch or returns a stored admission that did |
| ProtocolSafety.EnvelopesAreWhole | src/powerfactory_agent/persistence/execution_admission.py:148-272 | Every envelope of a reachable state has its command, intent, ADMITTED admission, ISSUED-to-CONSUMING event and ACQUIRED and ATOMIC_CALL_STARTED events with the same operation and token, in a scope of the intent's configuration; a workflow has one exactly when it has a coordinator command, and never two |
| ProtocolSafety.ClassificationsStaySupported | src/powerfactory_agent/persistence/reconciliation_store.py:158-194 | A stored classification stays supported by the very observations it lists over any run |
| ProtocolTerms.RowsTellTheirCalls | src/powerfactory_agent/persistence/execution_admission.py:74-272 | In every reachable state each envelope has its stored authorization and intent, was written before that authorization expired, and the intent repeats its proposal, configuration, fingerprint, workspace and policies for the next version; each admission carries its outcome's reason and time bound, an ADMITTED one before expiry; decisions, leases and commands were made in time and as their events say |
| ProtocolTerms.ClassificationsAreShown | src/powerfactory_agent/persistence/reconciliation_store.py:242-297 | In every reachable state a stored BEFORE lists a fresh read and only fresh reads with the intent's bindings and before value; AFTER_OBSERVED the same with the after value; DIVERGED lists a fresh read with a changed binding or a third value; UNAVAILABLE lists an observation without a value |
| ProtocolTerms.ClassifiedIff | src/powerfactory_agent/persistence/reconciliation_store.py:158-194 | A classification is refused exactly when its listed observations do not show that, are missing or of another intent, or it names another workflow or an earlier version |
| ProtocolPaths.LegalIffLeads | src/powerfactory_agent/persistence/workflow_store.py:30-55 | A command is legal from a state to a target exactly when it lies so on one of the written-out ways of a workflow |
| ProtocolPaths.WorkflowsFollowWays | src/powerfactory_agent/persistence/workflow_store.py:173-316 | Whatever runs after a workflow is recorded as NEW, its commands are, name by name, one of the written-out ways to the state it is in |
| ProtocolAnswers.HolderSucceedsIff | src/powerfactory_agent/persistence/lease_store.py:206-333 | A release, start or finish succeeds exactly for the current holder when the row fits the call: no operation in flight, or for a finish exactly its own, and PREVIEW for a release towards authorization; it then leaves just the stated row and event |
| ProtocolAnswers.HolderRefusals | src/powerfactory_agent/persistence/lease_store.py:493-527 | Any other claim on a known lease gets the first objection in the order of the checks, and commits one event with the caller's token |
| ProtocolAnswers.UnknownLease | src/powerfactory_agent/persistence/lease_store.py:471-479 | A claim on an unknown lease is not found, and changes nothing |
| ProtocolAnswers.StartThenFinish | src/powerfactory_agent/persistence/lease_store.py:261-333 | A call started and finished in time by its holder gives back the row as it was, and all leases with it |
| ProtocolAnswers.AcquireAnswers | src/powerfactory_agent/persistence/lease_store.py:136-204 | A lease is acquired exactly in a free scope, for a workflow's current version and a time ahead, under an unused id, with the token after the scope's last; each refusal has its exact condition |
| ProtocolAnswers.ExpireAnswers | src/powerfactory_agent/persistence/lease_store.py:335-393 | A lease expires exactly when held and past its time: an idle one frees its scope, one with a call in flight blocks it |
| ProtocolAnswers.RecordAnswers | src/powerfactory_agent/persistence/workflow_store.py:106-125 | A workflow is recorded exactly when its id is free and its row sound |
| ProtocolAnswers.TransitionAnswers | src/powerfactory_agent/persistence/workflow_store.py:173-316 | A transition with a known key is answered by its recorded command, or is a conflict when it differs; a new one is made exactly against the current version, along a way, not before creation and under an unused id; each refusal has its exact condition |
| ProtocolAnswers.RequestAnswers | src/powerfactory_agent/persistence/approval_store.py:55-74 | A request is stored exactly when its workflow awaits it and its id is free |
| ProtocolAnswers.ApproveAnswers | src/powerfactory_agent/persistence/approval_store.py:96-178 | An approval succeeds exactly for an undecided, awaited request in time, for a time ahead within the request's, under unused ids, and issues the authorization with the request's terms; each refusal has its exact condition |
| ProtocolAnswers.DecideAnswers | src/powerfactory_agent/persistence/approval_store.py:180-212 | Rejecting and cancelling decide an undecided request in time, expiring one past its time; each refusal has its exact condition |
| ProtocolAnswers.SettleAnswers | src/powerfactory_agent/persistence/approval_store.py:234-315 | Invalidating takes exactly an ISSUED authorization and consuming a CONSUMING one; any other keeps its state, which is the answer |
| ProtocolAnswers.PresentAnswers | src/powerfactory_agent/persistence/approval_store.py:253-297 | The first presentation of an authorization ends in CONSUMING exactly when it is the stored one, at its authority, in time and still awaited; otherwise it expires or is invalidated for the stated reason, and a later presentation gets the same answer |
| ProtocolAnswers.IntentAnswers | src/powerfactory_agent/persistence/reconciliation_store.py:49-95 | A new intent is stored exactly when its workflow executes, or rolls back, its operation at its version |
| ProtocolAnswers.ObservationAnswers | src/powerfactory_agent/persistence/reconciliation_store.py:115-146 | An observation is stored exactly when its intent is stored with its operation and its id is new or repeats it |
| ProtocolAnswers.ClassificationAnswers | src/powerfactory_agent/persistence/reconciliation_store.py:158-194 | A classification is answered exactly when its listed observations show it and its id is new or repeats it |
| ProtocolAnswers.AdmissionSucceedsIff | src/powerfactory_agent/persistence/execution_admission.py:74-272 | A first admission succeeds exactly when the lease ends ahead, the intent repeats the authorization's terms, the authorization is stored, issued, in time and unpresented, its workflow awaits it, the scope is free, the token is the scope's next and no id is in use; each refusal has its exact condition |
| ProtocolAnswers.AdmissionCommits | src/powerfactory_agent/persistence/execution_admission.py:148-272 | What it then commits, row by row: command, workflow move, started lease with three events, intent, consumed authorization with event and admission, envelope |
| ProtocolAnswers.AdmissionRepeats | src/powerfactory_agent/persistence/execution_admission.py:121-139 | A repeated admission is answered by its envelope exactly when it is for the same intent, execution and proposal, and nothing refused or repeated changes anything |
| ProtocolHistory.LawfulIsBounded | src/powerfactory_agent/persistence/workflow_store.py:30-55 | A log that replays lawfully raises the version by its length and is at most 13 less the starting rank long |
| ProtocolHistory.WorkflowIsItsCommands | src/powerfactory_agent/persistence/workflow_store.py:212-316 | Once recorded, whatever runs, a workflow row is the lawful fold of its commands over the row first recorded, version difference equals their number, and a NEW workflow gets at most 13 |
| ProtocolHistory.EveryWorkflowIsHistoried | src/powerfactory_agent/persistence/workflow_store.py:106-125 | Every workflow of every reachable state has such a history |
| ProtocolHistory.DecisionsComeFromTheirCalls | src/powerfactory_agent/persistence/approval_store.py:112-121 | Every durable decision was made by the call of the run that decides it so: none is INVALIDATED, and only `expire` leaves an EXPIRED one |
| ProtocolHistory.LateApprovalDecidesNothing | src/powerfactory_agent/persistence/approval_store.py:330-346 | Approving an expired request raises and leaves it undecided, although an EXPIRED decision is inserted first; `expire` with the same arguments makes it durable |
| ProtocolHistory.ExecutingNeedsNoEnvelope | src/powerfactory_agent/persistence/workflow_store.py:34-35 | A concrete run of plain transitions reaches EXECUTING with no authorization and no envelope |
| Decimals.PrintReadsBack | src/powerfactory_agent/serialization.py:61-71 | For every sign, coefficient and exponent, printing matches the accepted grammar in canonical form and reads back as an equal number |
| Decimals.PrintAlikeIffEqual | src/powerfactory_agent/serialization.py:61-71 | Two decimals print alike exactly when they are numerically equal |
| Decimals.CanonicalIsUnique | src/powerfactory_agent/serialization.py:23 | A text of the grammar without trailing fraction zeros or negative zero is determined by its number |
| Decimals.ReprintIsIdempotent | src/powerfactory_agent/serialization.py:159-168 | Printing any accepted text gives a text that prints as itself, and gives the text back exactly when it is canonical |
| Decimals.ParseIff | src/powerfactory_agent/serialization.py:23 | Exactly the texts of the grammar are read: an optional minus, a whole part without leading zeros, and after a point at least one digit |
| Decimals.ReadIsPlaceValue | src/powerfactory_agent/serialization.py:159-168 | A text that is read means its place value: the whole part plus the fraction over its power of ten, negated after a minus |
| Codec.EncodeSucceedsIff | src/powerfactory_agent/serialization.py:48-93 | Encoding raises exactly for non-finite decimals, naive times, oversized collections and floats, at any depth |
| Codec.EncodesIff | src/powerfactory_agent/serialization.py:48-93 | Encoding gives exactly the primitive that shows the value: NFC text, the canonical text of an equal decimal, the timestamp text of the instant, an object of exactly the fields with the last value of each name |
| Codec.RoundTrip | src/powerfactory_agent/serialization.py:124-221 | For every description whose union members are apart and every well-typed value that encodes, decoding gives its normal form: NFC strings, canonical decimals, UTC times |
| Codec.NormEqualsIff | src/powerfactory_agent/serialization.py:55-56 | That normal form equals the value, within its class and with decimals as numbers and times as instants, exactly when its strings are in NFC |
| Codec.EncodingIsInjective | src/powerfactory_agent/serialization.py:48-93 | For one description, values with NFC strings encode alike exactly when they are equal |
| Codec.DecodedShape | src/powerfactory_agent/serialization.py:124-221 | A description decodes only primitives of a shape it takes; which of these, and to what, is `Codec.DecodesIff` |
| Codec.DecodesIff | src/powerfactory_agent/serialization.py:124-221 | Decoding succeeds exactly on a primitive that stands for a value of the type, and gives that value: in a model exactly its fields in their order with a value its class accepts, in a union the first member for which it stands for any |
| Codec.DecodeIsSound | src/powerfactory_agent/serialization.py:124-221 | Whatever is decoded is a value of the described type: finite decimals, aware times, collections within the limit, texts of the enum, and at every model a value its class has accepted |
| Codec.EncodedShape | src/powerfactory_agent/serialization.py:48-93 | A value is encoded only in a shape its description takes |
| Codec.DomainUnionsAreDescribed | src/powerfactory_agent/domain/models.py:156-159 | The three unions the domain models use besides `Optional`, and the optional one, are apart, so the round trip covers them |
| Codec.OptionalIsDescribed | src/powerfactory_agent/serialization.py:128-148 | `Optional[T]` is covered by the round trip exactly when `T` is and takes no null itself |
| Codec.MemberRoundTripsIff | src/powerfactory_agent/serialization.py:128-135 | A value of one member of any union comes back in normal form exactly when each earlier member that decodes its encoding to something else comes after one that decodes it to that normal form |
| Codec.UnionRoundTripsIff | src/powerfactory_agent/serialization.py:128-135 | A union of described members, of disjoint shapes or texts of different classes, gives all its values back exactly when no text a later member writes is read by an earlier one |
| Codec.EnumUnionIsDescribedIff | src/powerfactory_agent/serialization.py:169-173 | A union of two enums is covered exactly when they are different enums without a common text |
| Codec.OverlappingUnionLosesType | src/powerfactory_agent/serialization.py:128-135 | Under a union with overlapping shapes the first member wins: every decimal under `str or Decimal` comes back as a string |
| Harness.DeterministicHeadlineHarness.RegisterTestAuthorization | src/powerfactory_agent/gateway/fake.py:840-851 | An authorization registers once, with direct-ledger semantics only, and sets up its workflow's counter if it has none |
| Harness.DeterministicHeadlineHarness.InjectPartialMutation | src/powerfactory_agent/gateway/fake.py:817-821 | Arms the interruption of a later apply after a positive number of writes, and refuses any other |
| Harness.DeterministicHeadlineHarness.ForceExternalChange | src/powerfactory_agent/gateway/fake.py:824-837 | An out-of-band write changes one existing cell in its own unit, or nothing |
| Harness.DeterministicHeadlineHarness.MakeWrites | src/powerfactory_agent/gateway/fake.py:464-496 | The nested write loops make the preview's writes in asset and attribute order, re-reading each target, up to the first mismatch or the injected fault |
| Harness.DeterministicHeadlineHarness.ApplyChange | src/powerfactory_agent/gateway/fake.py:422-504 | All checks come before any write; a full or interrupted apply records what it wrote, a torn one only spends the authorization |
| Harness.DeterministicHeadlineHarness.PlanRollback | src/powerfactory_agent/gateway/fake.py:659-721 | The plan restores every recorded write in order and lists exactly the cells whose live value is not the confirmed one |
| Harness.DeterministicHeadlineHarness.ExecuteRollback | src/powerfactory_agent/gateway/fake.py:724-783 | A plan with conflicts, a changed target or a stale binding is refused without effect; otherwise every value is put back |
| Harness.DeterministicHeadlineHarness.RunLoadFlow | src/powerfactory_agent/gateway/fake.py:507-556 | Stores the deterministic results of the live loads, or raises above 90 MW |
| Harness.DeterministicHeadlineHarness.VerifyRollbackBaseline | src/powerfactory_agent/gateway/fake.py:786-814 | Records VERIFIED when nothing material changed and no violation was added, FAILED otherwise |
| HarnessSafety.PerformWrites | src/powerfactory_agent/gateway/fake.py:464-496 | On distinct cells that hold their expected values the loop is never torn, and the table afterwards is the one before with the first writes made |
| HarnessSafety.AppliedWrites | src/powerfactory_agent/gateway/fake.py:446-504 | For a preview of distinct assets an apply past its checks records exactly the writes it made, all of them unless a fault was due |
| HarnessSafety.RecordedWrites | src/powerfactory_agent/gateway/fake.py:446-504 | For any preview an apply that is not torn records exactly the writes it made, none of which changes a cell that a later one names; the table is that of these writes |
| HarnessSafety.RollbackRestores | src/powerfactory_agent/gateway/fake.py:724-783 | For any recorded apply, full or stopped at any write, and no other write in between, executing the plan restores the whole table |
| HarnessSafety.RecordedPlanSucceedsIff | src/powerfactory_agent/gateway/fake.py:659-691 | A plan for any recorded apply is refused exactly for a stale workflow version or when its writes times their attributes exceed the 100-cell read limit |
| HarnessSafety.PlanSucceedsIff | src/powerfactory_agent/gateway/fake.py:659-691 | For a preview of distinct assets a plan is refused exactly for a stale workflow version: its own read never exceeds the limit and finds every cell |
| HarnessSafety.NoConflictIffAgree | src/powerfactory_agent/gateway/fake.py:672-683 | With no other write, the plan for recorded writes has no conflict exactly when no two writes of one cell wrote different values |
| HarnessSafety.FreshPlanExecutes | src/powerfactory_agent/gateway/fake.py:724-783 | A plan without conflicts goes through on the state it was made in, once a fresh authorization for it is registered and before it expires |
| HarnessSafety.UndoableIff | src/powerfactory_agent/gateway/fake.py:659-783 | Any recorded apply, full or interrupted, is undone by planning at the new workflow version and executing in time exactly when its writes fit in one read and those of each cell agree |
| HarnessSafety.ApplyCanBeUndone | src/powerfactory_agent/gateway/fake.py:659-783 | So every apply of distinct assets that is not refused can be undone: the plan succeeds, its execution succeeds in time, and the whole table is as it was |
| HarnessSafety.RollbackOverwritesOnlyItsOwn | src/powerfactory_agent/gateway/fake.py:742-758 | A rollback that goes through overwrites only values its own change wrote, so an external write to any of them, before or after planning, makes it refuse |
| HarnessSafety.FinishesIffHarmless | src/powerfactory_agent/gateway/fake.py:464-496 | From a table where every target matches, the write loop finishes exactly when no write changes a cell that a later one names again and no interruption is due, is interrupted exactly when that is due before a harmed write, and is torn exactly when a harmed write comes first; the table is that of the writes made |
| HarnessSafety.TornApplyIsUnrecorded | src/powerfactory_agent/gateway/fake.py:470-472 | An apply past its checks fails as stale exactly when it is torn, whatever fault is armed: then the table holds exactly the writes before the harmed one and so has changed, the authorization is spent, and nothing is recorded |
| HarnessSafety.TwiceNamedTears | src/powerfactory_agent/domain/models.py:156-193 | A concrete preview that names load 1 twice, 10 to 11 MW, passes every check on the fixture, is torn after its first write, and leaves 11 MW with no record to roll back |
| HarnessSafety.ReproducedIff | src/powerfactory_agent/gateway/fake.py:604-656 | VERIFIED means exactly that the total load differs by less than 2.5 MW and has not risen across 40 or 50 MW |
| HarnessAnswers.ReadAnswers | src/powerfactory_agent/gateway/fake.py:368-419 | A read succeeds exactly when every asset exists, has every attribute and the limit is kept, and shows the live values; the first asset in order that cannot be read says how it fails |
| HarnessAnswers.ApplyAnswers | src/powerfactory_agent/gateway/fake.py:428-460 | An apply spends its authorization exactly when that is registered and unspent, the preview is unexpired and current, the live values are those it shows and expects, and the authorization is in time and names it; anything else changes nothing and gets the error of the first check that fails |
| HarnessAnswers.ApplyRecords | src/powerfactory_agent/gateway/fake.py:462-504 | An accepted apply takes the next number; a full one is recorded as verified, an interrupted one as needing reconciliation, each raising the workspace revision and the workflow's counter by one; a torn one does neither |
| HarnessAnswers.WritesAreTheTargets | src/powerfactory_agent/gateway/fake.py:466-476 | The writes are the preview's targets in the order of its changes and, within one, of its attributes, each exactly once |
| HarnessAnswers.ApplyReachesTheTargets | src/powerfactory_agent/gateway/fake.py:446-504 | After a full apply every target holds its proposed value, that of the last change naming it, and every other cell its old one |
| HarnessAnswers.PlanAnswers | src/powerfactory_agent/gateway/fake.py:659-721 | A plan is made exactly for a recorded change at the current workflow version whose cells fit in one read; it restores each write in order to its value before, lists exactly the cells whose value is no longer the written one, and holds for 300 seconds |
| HarnessAnswers.RollbackAnswers | src/powerfactory_agent/gateway/fake.py:724-767 | A rollback goes through exactly when its authorization is registered, unspent, in time and names it, the plan is unexpired, current and without conflicts, and the live values are those it shows and saw; anything else changes nothing and gets the error of the first check that fails |
| HarnessAnswers.RollbackLeaves | src/powerfactory_agent/gateway/fake.py:768-783 | It gives each cell the value of the last item for it, changes no other, spends the authorization, raises revision and counter by one, and is recorded as not yet verified |
| HarnessAnswers.RegisterAnswers | src/powerfactory_agent/gateway/fake.py:840-851 | Registration succeeds exactly for a new direct-ledger authorization, which is then unspent; every other authorization and every existing counter stays as it was |
| HarnessAnswers.RunAnswers | src/powerfactory_agent/gateway/fake.py:507-556 | A load flow runs exactly for the fixture's configuration, with admitted settings, at a live load of at most 90 MW, and stores the voltages and loading of that load under the next number |
| HarnessAnswers.VerifyAnswers | src/powerfactory_agent/gateway/fake.py:786-814 | A rollback is verified against two runs exactly when the request can hold the three metrics and all records exist; it is VERIFIED exactly when the load differs by less than 2.5 MW and has not risen across 40 or 50 MW, else FAILED |
| HarnessSafety.CycleVerifies | src/powerfactory_agent/gateway/fake.py:786-814 | Baseline run, recorded apply, plan, rollback and second run with no other write: the table is back, the second run succeeds and verifies against the baseline |
| Inventory.HarnessInventory.Inventory | src/powerfactory_agent/gateway/fake.py:281-341 | One page: cursor authentication, lifetime and binding checks, then the slice at the cursor's offset and a cursor exactly when more follows |
| Inventory.InventoryService.Scan | src/powerfactory_agent/operations/inventory.py:267-300 | The traversal ends, never repeats a cursor, and unless a cursor expired before its page was fetched yields the filtered inventory once, in order, up to the limit, for every page size |
| Inventory.InventoryService.Lookup | src/powerfactory_agent/operations/inventory.py:192-231 | With the clock inside the cursor lifetime the answer is a function of the inventory and the request without its page size; an asset is only ever returned when it is that answer |
| Inventory.LookupAnswers | src/powerfactory_agent/operations/inventory.py:192-231 | A lookup returns an asset exactly when it sees all assets of the kind and the only one of that identity is active and of the requested class; not found, unresolved and class mismatch are answered exactly when there is none, it is inactive, or it is of another class; an inventory not of one project is rejected |
| Inventory.InventoryService.SummarizeKind | src/powerfactory_agent/operations/inventory.py:92-139 | One kind's traversal, checks, counts, samples and warnings extend the summary of the kinds before it |
| Inventory.InventoryService.Summarize | src/powerfactory_agent/operations/inventory.py:85-150 | With the clock inside the cursor lifetime the counts, samples and warnings are a function of the inventory and the request without its page size |
| Inventory.SummaryCountsEachOnce | src/powerfactory_agent/operations/inventory.py:85-150 | In a summary that succeeds each kind's tally counts the inventory's assets of that kind, and those with each verdict; together they count every asset once, and the warnings those of all kinds |
| Inventory.KindApart | src/powerfactory_agent/operations/inventory.py:327-348 | Items of the next kind are ordered, of that kind, in the project, and new, so the duplicate check never fires on a scanned inventory |
| InventoryAnswers.PageAnswers | src/powerfactory_agent/gateway/fake.py:281-341 | A page is given exactly when the query names the current configuration and revision and has no cursor or one in time, bound to this query and to a position of its selection; it starts there and has a cursor exactly when more follows |
| InventoryAnswers.IssuedCursorIsHonouredIff | src/powerfactory_agent/gateway/fake.py:1002-1045 | The cursor of a page is honoured for exactly the same query, for 300 seconds, and continues where the page ended; later it is stale, under another query invalid |
| InventoryAnswers.VerdictAnswers | src/powerfactory_agent/operations/inventory.py:33-40 | An inactive asset is unresolved whatever its class; an active one is supported exactly when its class is listed for its kind |
| InventoryAnswers.ExamplesAreFirst | src/powerfactory_agent/operations/inventory.py:350-360 | A warning's examples are the first items with its verdict, as many as allowed, in order |
| InventoryAnswers.SummaryAnswers | src/powerfactory_agent/operations/inventory.py:85-150 | A summary succeeds exactly on an inventory of the requested project alone, provenance included, within the limit |
| InventoryAnswers.SummarySamples | src/powerfactory_agent/operations/inventory.py:106-118 | Its samples are each kind's first assets by identity, as many as asked for, and each warning's examples are of assets with that verdict |

## Left out

- Worker as a class: threads interleave inside its methods, so it is modelled on values as a step relation; in-place update of `_queue` and the flags is a new value per step.
- Worker timing: condition variables, join timeouts and polling intervals are free choices of the schedule, so nothing is claimed about when a step happens, only about what can happen; fairness and liveness are not stated.
- Worker.Request: `admissible` stands for the name, key and size checks of `OperationStore.admit`; JSON payloads are opaque strings.
- Worker exceptions outside `Exception` in a handler are the outcome `Killed`; SQLite errors are not modelled.
- Two processes serving one store at the same time: a crash ends one process before the next begins.
- Audit events, correlation ids, reason codes, event ids and recovery references: written beside the modelled rows and read by none of the modelled decisions. `append_audit` takes arbitrary state fields, so no claim is made from audit events.
- Field validation in `domain/` beyond what the state machines rely on: UUID and text formats, digest formats, page and sample bounds of requests.
- SQLite itself: pragmas, migrations, serialization of JSON columns; kept are transaction atomicity, primary keys, UNIQUE constraints and append-only tables.
- `ContextLeaseStore.expire_due`: it compares timestamps as text after dropping zero microseconds, which is not chronological; only `expire` is modelled.
- Tables.Lease: `issuedAt`, `expiresAt`, `owner` and `mode` of a row are not rebuilt from events, which do not carry them all.
- `canonical_json`, `canonical_digest`, SHA-256, HMAC, base64url, JSON text and its byte limit: digests and cursor tokens are injective opaque values, and any token that was not issued fails.
- Codec.RoundTrip: Unicode normalisation, timestamp text and model-class validation are parameters with the stated laws; a model class must accept the normal form of its fields. Mapping values, which encode but have no description to decode with, are left out.
- Equality of values across classes (`True == 1`, a string enum and its text): `Codec` compares values within one class, which is what decoding has to give back.
- Codec type descriptions are finite trees: the domain models do not refer to themselves.
- HarnessSafety.ReproducedIff: exact real arithmetic; the original rounds to 28 significant digits.
- Harness.FingerprintOf: compares quantities as numbers, where the original digests their decimal text; previews whose equal numbers are written differently are treated as unchanged.
- Harness.Preview: asset references are identities; locator evidence and its comparison, settings normalisation and calculation digests are left out, and `settings` says whether command settings are admitted.
- Inventory.InventoryService.Scan: the generator is collected into a list; its consumers check items in the same order, so the first failure is the same.
- `list_components`, `area_assets` and result paging: one call over the same page function.
- Identity, calculation and model-graph stores, calculation services, MCP server, CLI, configuration, native adapters and probes: vendor calls, I/O and thin record keeping.
