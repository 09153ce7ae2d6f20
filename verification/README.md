# Verified core of the agent-room backend

This project models the parts of the backend where state, interleaving and
arithmetic meet, and proves what they promise:

- **Answering a questionnaire** (`HitlStore`, `HitlInvariant`, `HitlProtocol`,
  `HitlSafety`, `HitlBatch`, `HitlTheorems`, `HitlRecovery`, `HitlCoordinator`,
  `HitlProgress`, `HitlFailure`, `HitlAlone`). Answers to an interaction are recorded
  row by row, referenced by the aggregate and applied exactly once through a claimed,
  journaled resume command. `HitlStore` holds the store operations with the guards of
  their queries, `HitlProtocol` the machine in which any number of workers perform one
  store operation per step, crash, lose replies and are replayed by the reconciler.
  `HitlSafety`, `HitlBatch` and `HitlTheorems` say what no run does, racing batches
  included. `HitlProgress`, `HitlRecovery`, `HitlFailure` and `HitlAlone` say what can
  still be done from every reachable state: which submissions can be recorded, that
  recorded ones can be applied, what a failure leaves behind, and what repair, replay
  and the closing of an interaction achieve. `HitlCoordinator` proves the three member
  loops over a mutable store.
- **The fenced effect** (`FencedEffect`, `FencedBound`, `FencedOrphan`): the same leases
  with time, the exact latency below which two workers never run one command's effect
  together, and what a cancelled caller leaves behind.
- **The SSE size guard** (`SseGuard`): an incremental scanner against a one-shot
  split of the stream (LF LF and CRLF CRLF separators, a part of the framing in
  section 9.2.5 of the WHATWG HTML Living Standard), for every chunking.
- **Artifact materialization** (`ArtifactBudget`, `ArtifactExact`): two separately
  written loops under count, raw-byte and Base64 budgets (lengths as in section 4 of
  RFC 4648), and exactly which parts of a list they convert.
- **Agent records** (`AgentRecord`, `AgentTheorems`, `AgentGating`, `AgentWitness`,
  `AgentPass`, `AgentRegistry`): gating, boot reconciliation, registration takeover, local discovery, health and
  liveness writing one collection, every repository read and write a step of its own.
- **Agent health** (`AgentHealth`): failure counts and retry tasks; one method is
  the code between two awaits, so what all methods keep holds in any interleaving.
- **Run recovery** (`RunRecovery`, `RunLease`): leases, retry delays and quarantine.

## Findings

- A worker whose lease renewal completes within `LEASE_SECONDS - HEARTBEAT_SECONDS`
  is not yet exclusive. A reply may be as late as the call may be long, so the exact
  bound is twice the latency plus 15 below 300 (`FencedBound.ExclusionBound`).
- Cancelling the caller of an effect while it waits cancels neither the effect nor its
  heartbeat. Exclusion survives that below the same bound, a loose effect included
  (`FencedEffect.EffectExclusive`), but the heartbeat goes on after the effect has
  ended: for as long as that process lives the command stays DELIVERING, is never
  acknowledged and is out of reach of every other worker and of the reconciler
  (`FencedOrphan.OrphanNeverLetsGo`, reached in `FencedOrphan.OrphanReachable`).
- The store accepts APPLIED only once the run projection is applied. Without a bound
  projector no interaction is ever applied (`HitlTheorems.UnboundNeverApplied`).
- A submission after the deadline expires the interaction before it looks at the
  answers. When they are all recorded and nobody has claimed their application yet,
  submitting them once more therefore ends it unapplied; every other resubmission
  writes nothing (`HitlTheorems.ResubmissionWritesNothing`, `HitlProgress.LateSubmissionExpires`).
- The rollback of `apply_interaction` from APPLYING to ANSWERS_RECORDED is dead code
  (`HitlTheorems.RollbackUnreachable`).
- An event is safe under every chunking exactly when it fits together with all but
  the last byte of its separator (`SseGuard.EveryChunkingAccepted`).
- The inline loop counts a confirmed room reference before it checks the raw limit;
  its count exceeds its successes by exactly those it then rejects
  (`ArtifactBudget.LoopsAgree`, `ArtifactBudget.OvercountHappens`).
- A discovery insert writes by the hash of its URL without looking at the record that
  already has that id. When boot reconciliation has moved that record to another
  address, the insert makes a gated record active and ownerless
  (`AgentWitness.InsertOverGatedRecord`). Gating is lost exactly when the record is gated
  or a running gating pass has read it and will give it a reason
  (`AgentGating.InsertExact`, over whole runs `AgentGating.GatingKeptExactly`): in the
  second case the write itself does no harm, but the pass then writes its reason, by id,
  to what is now a discovered record, and the next discovery makes that active
  (`AgentWitness.InsertOverPendingRecord`). Ownership is lost exactly when the record is
  owned (`AgentTheorems.InsertKeepsOwners`, over whole runs `OwnersKeptExactly`).
- The stored conflict count of a Run depends on three delays. It is exact in all runs
  that keep given bounds on them if and only if the bounds say: a claimer writes its
  lease within 60 seconds of the moment it claims for, an outcome is written before the
  retry time it carries, and a wake is set later than the last outcome
  (`RunRecovery.ExactBounds`). Any one of them loosened by a second, the other two as
  tight as can be, lets a recorded conflict be lost (`LateLeaseWriteLosesTheCount`,
  `LateOutcomeLosesTheCount`, `EarlyWakeLosesTheCount`).

## Model

A store operation is *legal* when it keeps the store invariant (`DbInv`) and the store
only evolves (`Evolves`): answers, references and their order, responses, projected
marks, settled commands, the application revision and final statuses are never undone.

| member | source | states |
|---|---|---|
| HitlInvariant.ClaimRowGood | backend/approval/repository/hitl_store.py:207-220 | claiming a row with an answer is legal from any sound store, and a claimed row holds the digest of its text |
| HitlInvariant.SetProjectedGood | backend/approval/application.py:895-899 | the unconditional projected mark is legal on a responded row |
| HitlInvariant.TerminateRowGood | backend/approval/service.py:1123-1195 | the row compare-and-set of an ended interaction is legal and never takes back a response |
| HitlInvariant.RecordAnswerGood | backend/approval/repository/hitl_lifecycle_store.py:182-237 | referencing a row by the digest it stores is legal; references stay matched with rows and the status complete exactly when they are |
| HitlInvariant.ClaimApplicationGood | backend/approval/repository/hitl_lifecycle_store.py:239-292 | claiming an application, first or after a lapsed lease, is legal: one revision per interaction, started only with complete answers |
| HitlInvariant.ClaimProjectionGood | backend/approval/repository/hitl_lifecycle_store.py:343-378 | claiming the run projection is legal and never undoes an applied one |
| HitlInvariant.MarkProjectionGood | backend/approval/repository/hitl_lifecycle_store.py:404-431 | settling the run projection is legal and never undoes an applied one |
| HitlInvariant.MarkApplicationGood | backend/approval/repository/hitl_lifecycle_store.py:433-485 | every outcome but the rollback to ANSWERS_RECORDED, which would undo the start and which no run reaches, is legal; APPLIED for a caller that knows rows and command projected: the store itself checks the run projection |
| HitlInvariant.TerminalizeGood | backend/approval/repository/hitl_lifecycle_store.py:487-522 | ending an interaction from the statuses its callers expect is legal; expiry and cancellation only before an application |
| HitlInvariant.CreateCommandGood | backend/approval/repository/hitl_lifecycle_store.py:648-674 | creating the command over the rows as they are succeeds, again and again, with the one command journaled for the revision |
| HitlInvariant.ClaimCommandGood | backend/approval/repository/hitl_lifecycle_store.py:689-717 | claiming a command is legal: a settled command stays settled |
| HitlInvariant.ReclaimCommandGood | backend/approval/repository/hitl_lifecycle_store.py:742-779 | taking back a stale delivery is legal: a settled command stays settled |
| HitlInvariant.MarkCommandGood | backend/approval/repository/hitl_lifecycle_store.py:781-817 | the transitions the coordinator and reconciler ask for are legal, and a successful one leaves the target status |
| HitlSafety.ExecSafe | backend/approval/application.py:303-955 | every step of every worker keeps the store invariant, lets the store only evolve and knows at its next control point what that point relies on |
| HitlSafety.EnvSafe | backend/approval/reconciler.py:94-324 | expiry, cancellation, failure, row endings and all reconciler writes keep the store invariant |
| HitlSafety.NextSafe | backend/approval/application.py:520-704 | no step of one worker, crash or lost reply breaks what another worker relies on |
| HitlSafety.RunInv | backend/approval/application.py:60-955 | the invariant holds in every state of every run |
| HitlBatch.BatchesKept | backend/approval/application.py:383-456 | every event of a run keeps, for every worker in a batch, the members recorded so far |
| HitlTheorems.AppliedIsComplete | backend/approval/application.py:597-697 | an APPLIED interaction has every row responded, answered and projected, its run projection applied and its command PROJECTED |
| HitlTheorems.UnboundNeverApplied | backend/approval/application.py:231-301 | without a bound projector no run reaches APPLIED |
| HitlTheorems.EffectRunsOnDurableAnswers | backend/approval/application.py:706-735 | while the effect runs every answer is durable with its own digest, the references are exactly those and the command covers them in inventory order |
| HitlTheorems.OneEffectIdentity | backend/approval/application.py:55-57 | any two invocations of the effect, by any workers at any time, carry one identity, and there is only that command |
| HitlTheorems.FenceNeedsDelivering | backend/approval/application.py:114-150 | a worker passes the fence only while the command is DELIVERING under its own claim |
| HitlTheorems.NoEffectAfterAcknowledgement | backend/approval/application.py:736-824 | once the command is acknowledged no continuation of the run gets past the fence again |
| HitlTheorems.StatusNeverReturns | backend/approval/application.py:559-695 | terminal statuses are final and a started application never goes back to collecting answers |
| HitlTheorems.ExpiryExcludesEffect | backend/approval/application.py:159-184 | an interaction whose effect has run is never expired or canceled, before or after |
| HitlTheorems.RollbackUnreachable | backend/approval/application.py:585-595 | no run reaches the rollback branch |
| HitlTheorems.AnswersWriteOnce | backend/approval/application.py:383-456 | text and digest of a recorded answer never change and references are only appended |
| HitlTheorems.PassedIsHeld | backend/approval/application.py:383-456 | under any interleaving a batch past a member has its own non-blank text durable there |
| HitlTheorems.ThroughIsRecorded | backend/approval/application.py:383-458 | a batch that got through, whatever raced with it, has exactly its own texts durable, digested and referenced for every member |
| HitlTheorems.DifferentAnswerNeverPasses | backend/approval/application.py:400-425 | a text recorded for a member at any moment of a run is the text of every batch that ever gets past it: a batch that differs never gets through |
| HitlTheorems.ThroughBatchesAgree | backend/approval/application.py:383-456 | any two batches of a run that get through carry the same answers |
| HitlTheorems.ResubmissionWritesNothing | backend/approval/application.py:370-456 | once a batch got through, no step of any worker submitting the same answers at any later moment changes the store, its reply lost or not, except one: past the deadline it expires an interaction whose answers nobody has claimed |
| HitlTheorems.ResubmissionGoesOn | backend/approval/application.py:383-456 | under any interference such a worker, wherever it is in its batch and whatever it has read, gets closer to the end with every step that does not raise or find the deadline passed, until the interaction ends |
| HitlTheorems.LookupMatches | backend/approval/application.py:931-955 | a member's reference is the digest its row stores |
| HitlTheorems.AcceptedMeans | backend/approval/application.py:911-955 | rows are accepted exactly when every member has one with an answer and its digest, each digest is the last reference to its member, and all references are to members |
| HitlRecovery.AlwaysRecoverable | backend/approval/reconciler.py:135-271 | from every reachable state with complete answers that has not ended, some continuation reaches APPLIED |
| HitlRecovery.ResubmissionSucceeds | backend/approval/application.py:383-456 | from any later state of the open interaction an idle worker can submit the recorded answers and get through, with the store as it was |
| HitlProgress.FirstSubmissionSucceeds | backend/approval/application.py:383-458 | from every reachable state of the open interaction in which each member is pending and live or holds the submitted text, an idle worker can get the batch through, and the rows then hold exactly its texts |
| HitlProgress.SubmissionExact | backend/approval/application.py:370-456 | from every reachable state an idle worker can get a submission through if and only if it is complete, every member takes its text and the interaction is open |
| HitlProgress.AnswersReachApplied | backend/approval/application.py:520-704 | with a bound projector every such submission can be applied, with exactly its texts in the rows |
| HitlProgress.FreshReachesApplied | backend/approval/application.py:303-474 | a fresh questionnaire with live deadlines can be answered with any texts and applied with exactly those |
| HitlProgress.LateSubmissionExpires | backend/approval/application.py:370-373 | past the deadline a submission can expire what nobody has claimed, recording nothing |
| HitlFailure.FailedNeedsPermanent | backend/approval/application.py:624-690 | in every run a FAILED interaction has seen a permanent failure: no refused fence, held command, lost acknowledgement, incomplete projection or other exception ends it |
| HitlFailure.FailureRetries | backend/approval/application.py:646-690 | any other exception of a worker that holds the application leaves it, at most two steps later, claimable at once (when uncertain, once resumed), with answers and references kept and its command free |
| HitlFailure.HeldUntilMarked | backend/approval/application.py:597-695 | from the second read of the rows on a worker lets go of an application it holds only after marking it applied, retryable, uncertain or permanently failed; the one exception is a final mark without an applied run projection |
| HitlAlone.RepairPass | backend/approval/application.py:476-518 | from every reachable state an idle worker can carry out a whole repair pass of the machine, and it leaves exactly what the repair loop leaves |
| HitlAlone.ReplayReconciles | backend/approval/application.py:529-558 | from every reachable applied state a replay rewrites nothing and marks the interaction reconciled |
| HitlAlone.HeartbeatRenews | backend/approval/application.py:73-150 | a fence or heartbeat that goes on has renewed its lease to 300 seconds from now; one that has lost it aborts, and only then |
| HitlAlone.LostProjectionFinishes | backend/approval/application.py:231-301 | a worker that lost the run projection to one that applied it marks the interaction APPLIED |
| HitlAlone.UncertainIsRequeued | backend/approval/application.py:758-775 | a command of uncertain delivery is requeued by the worker that finds it and can be claimed again |
| HitlAlone.FailedProjectionRetries | backend/approval/application.py:231-301 | a failed run projection and its application can be claimed again at once |
| HitlAlone.ClaimsAreLeases | backend/approval/repository/hitl_lifecycle_store.py:239-378 | an application or run projection claimed or renewed at one second can be claimed by another from exactly 300 seconds later |
| HitlAlone.CommandClaimsAreLeases | backend/approval/repository/hitl_lifecycle_store.py:689-779 | a command claimed or renewed at one second can be taken back from exactly 300 seconds later, and only then be claimed anew |
| HitlAlone.EndingReconciles | backend/approval/service.py:1123-1195 | whatever ends an interaction without an application, in any reachable state: its members can all be closed with every answer kept, and it can be marked reconciled |
| HitlAlone.ReclaimNeedsLapse | backend/approval/reconciler.py:205-280 | the reconciler takes a delivery back only once its lease is over |
| HitlAlone.AcknowledgedIsPromoted | backend/approval/reconciler.py:205-280 | the reconciler promotes an acknowledged command |
| HitlCoordinator.RepairPersistedAnswerRefs | backend/approval/application.py:476-518 | the repair loop computes the repair function whose exact effect is stated below |
| HitlCoordinator.RepairExact | backend/approval/application.py:476-518 | repair drops no reference, touches no row, succeeds exactly when every answer can be referenced, and leaves references to exactly the answered rows |
| HitlCoordinator.RepairIdempotent | backend/approval/application.py:476-518 | repairing twice is repairing once, also where the first repair failed |
| HitlCoordinator.RepairAfterCrash | backend/approval/reconciler.py:110-133 | the same from every state any run can leave behind |
| HitlCoordinator.HandleBatchResponse | backend/approval/application.py:303-474 | one call over the mutable store, alone up to the application, with its conflict, deadline and routing outcomes |
| HitlCoordinator.RecordMember | backend/approval/application.py:383-456 | one member of the batch for any preflight row, however old: claim, re-read, compare, reference |
| HitlCoordinator.StalePreflightHarmless | backend/approval/application.py:391-425 | a preflight row others have moved on since leads to the same writes and outcome as the row they left, until the interaction ends |
| HitlCoordinator.BatchExact | backend/approval/application.py:383-456 | a call that runs alone conflicts exactly when some answer is blank, late or differs from a recorded one, and then leaves every recorded answer; otherwise all its answers are stored and referenced |
| HitlCoordinator.BatchRefused | backend/approval/application.py:325-382 | every other call: about other questions or after the end a conflict that writes nothing; after the deadline the interaction expires unless claimed or over, and nothing else is written |
| HitlCoordinator.DifferentAnswerConflicts | backend/approval/application.py:400-425 | another text for a recorded answer makes the call a conflict |
| HitlCoordinator.ResubmissionHarmless | backend/approval/application.py:383-456 | the same call again from the state the first one left changes nothing and succeeds |
| HitlCoordinator.FinalizeApplied | backend/approval/application.py:838-909 | alone, rejects rows whose answers do not match, otherwise finalizes all members and marks reconciliation by version |
| HitlCoordinator.FinalizeExact | backend/approval/application.py:847-901 | finalization reports success exactly when every member has an answer and could be projected, and exactly then all rows are responded and projected |
| FencedEffect.EffectExclusive | backend/approval/application.py:73-157 | with calls shorter than the bound at most one worker runs the effect, its caller still waiting or cancelled; the command is DELIVERING under its claim, or the interaction is over and the effect has lost its heartbeat |
| FencedBound.OverlapPossible | backend/approval/application.py:63-64 | from the bound on, a run from that sound store in which two workers run the effect together |
| FencedBound.AbandonedIsSound | backend/approval/application.py:919-955 | the store of the overlapping run satisfies the whole store invariant: one answered, referenced and journaled question |
| FencedBound.ExclusionBound | backend/approval/application.py:63-64 | exclusion holds in all timely runs if and only if 2 * latency + 15 < 300 |
| FencedOrphan.RefusedNeverReturns | backend/approval/application.py:97-150 | after a refused renewal nobody ever returns a result under that claim: a waiting caller cancels the effect, an orphaned one has no caller |
| FencedOrphan.OrphanNeverLetsGo | backend/approval/application.py:139-150 | after the cancellation of a caller the orphaned heartbeat keeps application and command claimed, the effect ended or not, in every timely continuation in which its process lives and nothing outside ends the interaction |
| FencedOrphan.OrphanReachable | backend/approval/application.py:139-141 | such a state is reached, with the effect completed and its command not acknowledged |
| FencedOrphan.LooseReachable | backend/approval/application.py:139-150 | an effect can come loose: orphaned, its interaction ended from outside, its heartbeat refused, and still running |
| FencedOrphan.CompletionAcknowledges | backend/approval/application.py:776-812 | below the bound an awaited effect that completes is acknowledged by the next step of its worker |
| FencedOrphan.RefusalFrees | backend/approval/application.py:776-795 | a refused worker is cancelled and a command it still holds can be claimed again at once |
| FencedOrphan.MarkHandsOver | backend/approval/application.py:646-690 | an application marked for a retry, or uncertain and resumed, is claimed by the next worker in the same second |
| SseGuard.FirstSepStable | backend/a2a_adapter/bounded_http.py:53-65 | bytes still to come never move the first separator, across both separator kinds |
| SseGuard.SplitSound | backend/a2a_adapter/bounded_http.py:53-69 | splitting loses no byte and yields frames that contain no earlier separator |
| SseGuard.SplitUnique | backend/a2a_adapter/bounded_http.py:53-69 | any well-formed framing is the split of what it renders to |
| SseGuard.SplitAppend | backend/a2a_adapter/bounded_http.py:52-69 | splitting a prefix and then its remainder with more bytes is splitting the whole |
| SseGuard.Drain | backend/a2a_adapter/bounded_http.py:53-69 | the inner loop drains exactly the split of the buffer, or reports that some event is too large |
| SseGuard.ChunkCheck | backend/a2a_adapter/bounded_http.py:48-72 | what the guard tests after one chunk is the limit on the whole prefix received |
| SseGuard.Iterate | backend/a2a_adapter/bounded_http.py:45-72 | chunks pass unchanged up to the first one that breaks a limit; pending bytes and drained events are those of the one-shot split whatever the chunking |
| SseGuard.RemainderBound | backend/a2a_adapter/bounded_http.py:70-71 | what can be pending at any cut of the stream |
| SseGuard.EveryChunkingAccepted | backend/a2a_adapter/bounded_http.py:45-72 | no chunking raises if and only if stream, tail and every event with all but the last separator byte fit |
| SseGuard.SomeChunkingAccepted | backend/a2a_adapter/bounded_http.py:45-72 | some chunking is accepted if and only if stream, tail and every event fit |
| ArtifactBudget.DecodeBase64 | backend/a2a_adapter/artifact_storage.py:98-107 | decoded bytes never exceed the per-file limit |
| ArtifactBudget.StoreWithRetry | backend/a2a_adapter/artifact_storage.py:320-340 | the outcome is that of the last attempt, all earlier ones were transient, and a transient outcome means all three were made |
| ArtifactBudget.MaterializeArtifact | backend/a2a_adapter/artifact_storage.py:602-732 | the part loop of one artifact, in place |
| ArtifactBudget.MaterializeArtifacts | backend/a2a_adapter/artifact_storage.py:579-733 | the loop over artifacts with its running totals |
| ArtifactBudget.ArtifactsWithinBudget | backend/a2a_adapter/artifact_storage.py:587-733 | raw and encoded bytes accepted stay within their limits, attempts within the count, the result counts the acceptances, the list keeps its shape and the report balances |
| ArtifactBudget.NothingAfterOverflow | backend/a2a_adapter/artifact_storage.py:670-705 | once the raw total has overflowed every later file part is rejected |
| ArtifactBudget.ArtifactsShareOneBudget | backend/a2a_adapter/artifact_storage.py:592-601 | walking artifact by artifact is walking the concatenation of their parts |
| ArtifactBudget.MaterializeArtifactsBudget | backend/a2a_adapter/artifact_storage.py:579-733 | one call accepts at most 100 MiB, 139810136 encoded characters and the parts left of 20, and returns the start count plus the acceptances |
| ArtifactBudget.Budget.constructor | backend/a2a_adapter/artifact_storage.py:396-405 | a fresh budget starts its attempts at the conversions so far |
| ArtifactBudget.Budget.ClaimFileAttempt | backend/a2a_adapter/artifact_storage.py:282-287 | an attempt is granted below 20 and counted |
| ArtifactBudget.Budget.ConsumePrecountedReference | backend/a2a_adapter/artifact_storage.py:343-382 | a pre-counted reference is spent once, replaces its declared size by the stored one and uses no attempt |
| ArtifactBudget.Budget.ConvertFile | backend/a2a_adapter/artifact_storage.py:473-545 | the content branches of the inline loop with all counter updates |
| ArtifactBudget.MaterializeInlinePart | backend/a2a_adapter/artifact_storage.py:408-562 | one file part of the inline loop, with its report |
| ArtifactBudget.MaterializeInlineFileParts | backend/a2a_adapter/artifact_storage.py:385-563 | the inline loop, replacing parts in place and updating the shared budget |
| ArtifactBudget.LoopsAgree | backend/a2a_adapter/artifact_storage.py:385-733 | without pre-counted references and from equal budgets both loops accept and reject the same positions for the same reasons with equal budgets and reports; the counts differ by exactly the confirmed references rejected later |
| ArtifactBudget.CountsAgree | backend/a2a_adapter/artifact_storage.py:502-509 | the inline count is never smaller, and equal exactly when no confirmed reference was rejected |
| ArtifactBudget.OvercountHappens | backend/a2a_adapter/artifact_storage.py:505-508 | one rejected reference that the inline loop counts as converted |
| ArtifactBudget.InlineBalances | backend/a2a_adapter/artifact_storage.py:408-563 | with any pre-counted references: shape kept, one success or failure per attempt recorded, attempts bounded, an id let through no more often than counted |
| ArtifactExact.MaterializeExact | backend/a2a_adapter/artifact_storage.py:602-732 | every part of every list from any totals: converted to its own bytes if and only if an attempt is left, its bytes can be had, its record is canonical and the sums so far fit; otherwise rejected, and for which reason |
| ArtifactExact.InlineExact | backend/a2a_adapter/artifact_storage.py:408-562 | the same of the inline loop where nothing was counted before |
| ArtifactExact.WholeCallExact | backend/a2a_adapter/artifact_storage.py:579-733 | the same of a whole call, on the concatenation of the parts of all artifacts |
| ArtifactExact.AllThatFitsIsConverted | backend/a2a_adapter/artifact_storage.py:602-732 | usable files that fit the count and both sums are all converted, each to its own bytes, and all counted |
| ArtifactExact.AllThatFitsIsInlined | backend/a2a_adapter/artifact_storage.py:408-562 | so are they by the inline loop, with any references counted before among them |
| ArtifactExact.UnusableNeverConverted | backend/a2a_adapter/artifact_storage.py:236-242 | neither loop converts a file whose bytes cannot be had or whose record is not canonical; a file counted before may pass on its confirmed reference |
| ArtifactExact.ConfirmedSizesReplaceDeclared | backend/a2a_adapter/artifact_storage.py:343-382 | a list of confirmed references exchanges declared for stored sizes to the byte and changes no other count |
| AgentTheorems.OutsideTheLock | backend/agent/health.py:31-36 | registration, discovery, health and liveness steps that spare records gated or about to be never write a reason or a bundled identity and never leave a gated record active; only an overwritten record stops being bundled |
| AgentTheorems.GatedStaysInactive | backend/agent/liveness.py:83-101 | in every state of a run whose discovery inserts spare records that are gated or about to be, a record with a reason is bundled and inactive |
| AgentTheorems.GatingIsExact | backend/agent/bundled.py:163-176 | in such a run, when a gating pass returns, every bundled record of the manifest stores exactly what the availability that pass read lacks for it, the provider before the image model |
| AgentPass.ClearedIsActive | backend/agent/bundled.py:293-304 | over every run: a record that a pass read as gated and whose requirement the read availability meets is active when the pass returns, unless another step wrote its status after the pass came to it |
| AgentPass.Visit | backend/agent/bundled.py:293-304 | what a pass does to the record it visits: brings back one whose requirement is met again, leaves the status of one that was not gated, gates one that lacks something, touches nothing else |
| AgentRegistry.PassAlone | backend/agent/bundled.py:163-176 | an undisturbed pass runs to its end, gives back the lock and leaves every bundled record with just what the availability lacks for it |
| AgentRegistry.ReconcileAlone | backend/agent/bundled.py:178-262 | an undisturbed boot reconciliation leaves one system-owned record of the agent at its URL, on the record the search settles on or a new one, active exactly when its requirement is met, unless another record is at that URL |
| AgentRegistry.AbortGivesBack | backend/agent/bundled.py:163-176 | a cancelled task writes nothing and gives back the lock if it had it |
| AgentTheorems.StepKeeps | backend/agent/bundled.py:178-239 | every step that spares those records keeps the gating invariant, a running pass included |
| AgentTheorems.InsertKeepsGating | backend/agent/facade.py:404-432 | right after a discovery write no gated record is active if and only if it did not insert over a gated one; what the write leads to later is the next row |
| AgentGating.InsertExact | backend/agent/facade.py:404-432 | after a discovery write gating can be broken without any further overwrite if and only if it inserted over a record that is gated or that a running pass has read and will gate |
| AgentGating.GatingKeptExactly | backend/agent/bundled.py:163-176 | over every run: gating is safe in all its states if and only if all its discovery inserts spare the records that are gated or about to be |
| AgentTheorems.InsertKeepsOwners | backend/agent/facade.py:404-432 | a discovery write keeps every owner if and only if it does not insert over an owned record |
| AgentTheorems.InsertKeepsOthers | backend/agent/facade.py:404-432 | and exactly then it leaves every record outside discovery as it was |
| AgentTheorems.OwnersKeptExactly | backend/agent/facade.py:283-432 | over every run all steps but adoptions keep all owners if and only if no discovery insert lands on an owned record |
| AgentTheorems.OwnerKept | backend/agent/facade.py:102-139 | a record that no discovery insert lands on while it is owned keeps its owner until boot reconciliation adopts it |
| AgentTheorems.TakenOverOnce | backend/agent/facade.py:283-338 | at most one of all racing registrations takes such a discovery record over |
| AgentTheorems.StaleDiscoveryIsHarmless | backend/agent/facade.py:368-389 | a discovery write that read such a record before its takeover changes nothing and reports it unmanaged |
| AgentRegistry.UrlsStayUnique | backend/agent/facade.py:283-432 | in every state of every run no two records have the same URL |
| AgentRegistry.RegistrationAlone | backend/agent/facade.py:102-130 | an undisturbed registration is answered by the record at its URL: a new record, a takeover of an ownerless inactive local one, or the refusal that names why |
| AgentRegistry.LoserIsTold | backend/agent/facade.py:321-336 | a registration that lost its record writes nothing and is told why by what it then finds |
| AgentRegistry.UrlRaceIsRefused | backend/agent/facade.py:318-320 | a registration whose URL another record got first is refused and writes nothing |
| AgentRegistry.DiscoveryAlone | backend/agent/facade.py:340-429 | an undisturbed discovery stores an active ownerless record at a free URL, brings back a local one, leaves any other alone |
| AgentRegistry.StaleDiscoveryWritesNothing | backend/agent/facade.py:368-389 | a discovery whose record is gone or no longer local, or whose URL was given away, writes nothing |
| AgentRegistry.ProbeOutcome | backend/agent/liveness.py:83-101 | a probe brings back exactly a record that was read and still is inactive and ungated, takes down one read as active, and changes nothing else |
| AgentRegistry.CleanUp | backend/agent/facade.py:435-445 | marking makes exactly the local records inactive, pruning removes exactly what it may, all of it ownerless, local and inactive |
| AgentWitness.InsertOverGatedRecord | backend/agent/facade.py:404-432 | a state reached without overwriting any record in which a discovery insert makes a gated, owned record active and ownerless |
| AgentWitness.InsertOverPendingRecord | backend/agent/bundled.py:163-176 | a state reached likewise in which an insert over an ungated record leaves no gated record active and still lets gating break, because a pass has read that record |
| AgentHealth.FailedTailMeans | backend/agent/health.py:90-92 | the counted tail is exactly the failures after the last success |
| AgentHealth.AgentHealthService.constructor | backend/agent/health.py:65-103 | a new service has no counts, no retries and no writes |
| AgentHealth.AgentHealthService.CycleProbed | backend/agent/health.py:424-446 | one cycle probe: the count stays the consecutive failures, an agent goes down only at the limit, a retry starts only below it |
| AgentHealth.AgentHealthService.StatusWritesMean | backend/agent/health.py:424-446 | a probe reactivates exactly an ungated inactive agent it finds healthy and deactivates exactly an active one whose failure reaches the limit |
| AgentHealth.AgentHealthService.RetryWait | backend/agent/health.py:344-359 | a retry waits its backoff delay while running and below the limit, and ends otherwise |
| AgentHealth.AgentHealthService.RetryProbed | backend/agent/health.py:301-327 | one retry probe: the count read before sleeping is still the stored one, and is replaced by the failures since the last success |
| AgentHealth.AgentHealthService.RetryTask | backend/agent/health.py:338-382 | a retry task ends with the first success or the last probe before the limit, each after its delay: recovered with count zero and brought back if it was inactive and ungated, or at the limit and taken down |
| AgentHealth.AgentHealthService.RetryWhileDown | backend/agent/health.py:338-382 | on an agent that stays down the loop ends after exactly the probes left before the limit, each after its delay, with one deactivation |
| AgentHealth.AgentHealthService.RunHealthCheckCycle | backend/agent/health.py:392-446 | with no retry running meanwhile, each listed agent is probed once unless it has a retry |
| AgentHealth.DelaysGrow | backend/agent/health.py:282-287 | delays never shrink and never pass the cap |
| AgentHealth.DelayRecurrence | backend/agent/health.py:282-287 | the first delay is the initial one and each next delay the one before times the multiplier, up to the cap |
| RunRecovery.DecisionBounds | backend/orchestrator_composition.py:169-192 | the third conflict in a row quarantines; any other failure is retried after 5 seconds, after 10 for a second conflict |
| RunRecovery.CountIsTrail | backend/orchestrator_composition.py:802-833 | within the three bounds the stored count is the trailing run of conflicts, at most three, and quarantine is exactly three |
| RunRecovery.OnlyOwnerWrites | backend/execution/repository/orchestrator/run_store.py:622-671 | within the bounds count and quarantine change only by the lease owner's outcome, quarantine exactly on the third conflict |
| RunRecovery.ExactBounds | backend/orchestrator_composition.py:143-192 | both of these hold in all runs if and only if leases are written within 60 seconds of the moment they claim for, outcomes before their retry time and wakes later than the last outcome |
| RunRecovery.RetryDelay | backend/orchestrator_composition.py:816-833 | a failed attempt is scheduled 5 or 10 seconds ahead or quarantined |
| RunRecovery.QuarantineIsFinal | backend/execution/repository/orchestrator/run_store.py:1089-1094 | in every run, punctual or not, a quarantined row is never written again |
| RunRecovery.OwnedRowFenced | backend/execution/repository/orchestrator/run_store.py:217-238 | in every run an owned row is written only by its owner or by a claimer for a moment at which its lease was over |
| RunRecovery.AcquireKeeps | backend/execution/repository/orchestrator/run_store.py:142-215 | a lease write that lands within the lease keeps the invariant: count and quarantine are those of the outcomes written so far |
| RunRecovery.OwnerKeeps | backend/orchestrator_composition.py:332-371 | renewing, finishing and putting back an earlier row keep that invariant |
| RunLease.LeaseProtects | backend/execution/repository/orchestrator/run_store.py:590-620 | in every run a claimer gets a row its owner still holds only for a moment at least 60 seconds after every moment for which that owner took or renewed its lease |
| RunLease.LeaseIsExact | backend/execution/repository/orchestrator/run_store.py:142-215 | and, after the last such moment, if and only if it claims for 60 seconds later or more |
| RunLease.OwnerRenews | backend/orchestrator_composition.py:349-360 | an owner at work can renew: its lease then runs for 60 seconds from now, all else as it was |
| RunLease.OutcomeInRow | backend/orchestrator_composition.py:802-833 | over punctual runs: what an attempt leaves in the row, from its end to the write, whatever happens in between: due time, count and quarantine by its outcome and the conflicts before it |
| RunLease.AlwaysTakenUp | backend/execution/repository/orchestrator/run_store.py:513-588 | from every reachable state of an unfinished Run that is not quarantined a new worker can start an attempt as soon as retry time and lease have passed, with all outcomes kept |
| RunLease.DriverGoesAhead | backend/execution/repository/orchestrator/run_store.py:513-588 | a driver that reads a Run before it is due goes on to its attempt when a wake comes in between |
| RunLease.ChangedRunStops | backend/execution/repository/orchestrator/run_store.py:513-588 | a claimer whose Run changed under it stops: without a trace, by putting its row back, or without writing its outcome |
| RunRecovery.LateLeaseWriteLosesTheCount | backend/execution/repository/orchestrator/run_store.py:513-588 | a lease written 61 seconds late, all else on time, stores a count of zero over a recorded conflict |
| RunRecovery.LateOutcomeLosesTheCount | backend/execution/repository/orchestrator/run_store.py:622-671 | so does an outcome written in the second of its retry time, every lease written at once |
| RunRecovery.EarlyWakeLosesTheCount | backend/execution/repository/orchestrator/run_store.py:446-511 | so does a wake set to the second of the last outcome, all else at once |

## Left out

- HitlTheorems.ResubmissionWritesNothing: does not promise an unchanged store for a submission that comes after the deadline of an interaction with recorded, unclaimed answers, because the source expires it then.
- HitlTheorems.NoEffectAfterAcknowledgement: says that no worker passes the fence after the acknowledgement; a worker that passed it earlier under a lost lease is excluded only by FencedEffect.EffectExclusive, which needs its timing bound.
- HitlTheorems.AppliedIsComplete: the write of `aggregate_applied_at` on the command is not modelled; its filter asks for a missing field, which the journaled document always has.
- HitlRecovery.AlwaysRecoverable: says that a continuation to APPLIED exists, given a bound projector and external calls that succeed, not that the scheduler takes it; an orphaned heartbeat (FencedOrphan.OrphanNeverLetsGo) has to end with its process first.
- FencedEffect.EffectExclusive: one clock, heartbeats that wake on time, and a caller that is still waiting stops its effect at once when a renewal fails; cancelling an effect that ignores it is not modelled.
- ArtifactBudget.ArtifactsWithinBudget: for the inline loop the same bounds follow through LoopsAgree only without pre-counted references, whose path can lower the running total; ArtifactExact.AllThatFitsIsInlined and ConfirmedSizesReplaceDeclared cover those.
- AgentTheorems.GatedStaysInactive: in runs whose inserts spare records that are gated or about to be, which AgentGating.GatingKeptExactly shows necessary; `update_agent`, `delete_agent` and the unused `activate_agents` and `update_health` are not steps of the machine.
- AgentTheorems.GatingIsExact: the gating lock is one per process, so one backend process is assumed; a pass that is cancelled or fails promises nothing.
- AgentTheorems.OwnerKept: while no insert lands on this record, which InsertKeepsOwners shows necessary; boot reconciliation does change the owner of a record it adopts.
- RunRecovery.CountIsTrail: for Runs that are not terminal, within the bounds that ExactBounds shows necessary; cancellation, which replaces the whole row, is not a step of the machine.
- HitlCoordinator.HandleBatchResponse: the method runs alone, like BatchExact, DifferentAnswerConflicts and ResubmissionHarmless about it; what racing batches do is proved of the machine in HitlProtocol (HitlTheorems.ThroughIsRecorded and the rows after it).
- HitlCoordinator.FinalizeApplied: the method runs alone; the interleaved finalization is part of HitlSafety.ExecSafe and HitlTheorems.AppliedIsComplete.
- AgentHealth.AgentHealthService.RunHealthCheckCycle: retries may run during a cycle; the loop is proved without them, each step of it (CycleProbed) with them.
- Materializing and attaching questionnaire members, canonical-run effects that write nothing, display and event emission: runs start from an open interaction, external calls are outcomes.
- Field-by-field route and document validation in `backend/approval/validation.py`; the model keeps the member inventory, the answer references and the command's digest and id list.
- Digests are constructors of their inputs, so equal digests mean equal contents; claim ids are values no other claim has.
- `_BoundedStream`, HTTP transports, `fetch_remote_file`, DNS pinning, room-file storage and the A2A client: bytes, sizes and validation results are data of the model.
- Artifacts are distinct objects and a report is always passed; both loops accept none.
- Card synchronisation, leader election and probe requests of the health service; health delays are real numbers, not floats.
- The aggregate mirror of the recovery lease, listing of due Runs and the work a recovery attempt does: the lease row is authoritative and only the Run's version is kept.
- Wiring, HTTP routes, the MCP server, projections to the UI, logging and metrics.
