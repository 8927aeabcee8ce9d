# Pipeline fan-in, outbox, pricing rules and token rotation: a verified model

This project models five parts of the repository and proves what their comments promise.

* **The fan-out/fan-in pipeline** (`src/queue`, `src/pipeline`). `PipelineRows` and `OutboxRows` hold what each SQL
  statement does to `core.pipeline_run` and `core.pipeline_outbox`. Two layers share them. The classes
  (`RunService`, `OutboxRepo`, `BatchConsumer`, `SingleConsumer`, `DispatchConsumer`, `OutboxTick`) follow the
  source method by method; what handle(), the clock, the database and the broker answer are parameters of a call.
  `FanIn` is the protocol: any number of dispatchers, workers, publishers and one operator interleave statement by
  statement, crash, lose deliveries and replay dead letters. `BatchRefinement`, `DispatchRefinement` and
  `TickRefinement` show that one uninterrupted `process` call or tick, at a fixed clock and whatever throws in it, is a
  run of the protocol. Interleavings of calls are the protocol's own. What one call does is also told from its inputs
  alone, in the lemmas called `..Exactly`, of which those of the dispatcher are in `DispatchExact`.
* **The two-branch join** (`Join`), over every interleaving of its inserts and counts.
* **Dead letters and slicing** (`DeadLetters`, `Slicing`), and the bounded concurrent map (`WorkerPool`).
* **The pricing rules** of the legacy application (`Classification`, `Lists`, `PricingRules`, `PriceRounding`,
  `PricePreview`, `PreviewExact`): overlap validation, first-match selection, margin locks and price rounding. Prices
  are exact reals.
* **Refresh-token rotation** (`RefreshTokens`), over whole histories.

`dafny verify dfyconfig.toml` checks everything.

## How the protocol is read

* A run of `FanIn.Exec` assumes nothing about leases. `FanInSafety`, `FanInOutbox`, `FanInExact` and `FanInClose` hold
  for all such runs. `FanInExact` says exactly which of them commit each batch's work once: those in which every step is
  `Harmless`, that is, a commit finds its row running, and neither a recorded failure nor the write of a stale start
  meets a completed row. `FanInClose` says exactly which of them close the fan-in as they should: those in which every
  step `KeepsClose`, that is, a commit that would see the last batch completes the one batch that was missing, and a
  completed row is overwritten only while some batch is missing. Every harmless run is one of these.
* `FanInLease.LeasedRun` is the lease assumption, which is enough for that: nothing writes a batch row between the read
  and the write of the `start` that is granted, a commit comes from a worker that was granted the batch less than
  `ACTIVE_BATCH_LOCK_MS` ago, and a recorded failure comes from such a worker or meets neither a completed row nor a
  live holder, as when `start` itself threw. `FanInHazards` gives concrete runs without one part of this in which work
  is committed twice or the fan-in closes twice or too early. The last of them needs no overrun: `start` throws for a
  completed batch, and `runs.fail` then overwrites the row.
* The step's dispatch message is part of the protocol, with its dead letters, its replay and lost deliveries. More
  copies may be sent at any time, which covers the double CALC dispatch of a join and a delivery whose ack was lost.
  With an empty batch list two such copies can each stage the successors: `FanInHazards.EmptyListClosesTwice`, and
  exactly when not in `FanInClose.EmptyListClosesOnceExactly`.
* A transaction's outcome is known to its worker, and a dispatcher's list is numbered 1..N in order. `Slicing` proves
  the second for the two dispatchers it models.
* Rows of one (run, step) are a map by batch_seq, which is what the unique index on (run, step, batch_seq) allows.
  Other slices of the table are untouched by every method (`OnlySlice`). The outbox is in insertion order, which is
  its `created_at` order.

## Where code and comments differ

* `legacy-app/src/dto/offer-book-rules-body.dto.ts:59` says that a rule with both ranges hits products in either one.
  The service requires both (`legacy-app/src/services/offer-book-rules.service.ts:364-368`), and so does the model.
* The DTO's `@IsOptional` admits null range ends. Selection compares with null as with zero, the overlap test replaces
  it by an infinity. `PricingRules.OverlapTestExactly` says exactly what that costs. The range check is skipped with a
  null maximum, so a rule can be saved that hits nothing: `PricingRules.UpsideDownRangeIsAccused`.
* A logout does not end what a refresh has already begun: `RefreshTokens.InFlightMintsExactly`, and exactly when nothing
  survives it in `RefreshTokens.LogoutIsFinalExactly`.
* The batch consumer refuses a message without a batchSeq and then records the refusal on row 0, the dispatch row:
  `BatchConsumer.UnnumberedMessageFailsTheDispatchRow`.
* Nothing bounds a rounding range's `roundTo` from above (`legacy-app/src/dto/price-rounding-rule-body.dto.ts:53-55` has
  only a minimum of zero), so rounding can move a price by any amount upwards: `PriceRounding.RoundToAboveOneMovesFar`
  moves 10.50 to 15.00. `PriceRounding.RoundingMovesLessThanOne` has the exact condition for less than one unit.
* Price rounding runs after the margin lock and may undercut it: `PricePreview.RoundingUndercutsTheFloor`, and exactly
  when in `PricePreview.FloorAfterRoundingExactly`.
* A replayed dead letter whose body is a JSON number, boolean or null loses it: `DeadLetters.ReplayKeepsTheFields`.

## Model

| member | source | states |
|---|---|---|
| FanInExact.WorkIsCommittedOnceExactly | src/queue/batch-pipeline.consumer.ts:161-224 | in any run, with no lease assumption, every batch's work is committed at most once, and once just when its row is completed, if and only if every commit found its row running and no recorded failure or stale start met a completed row |
| FanInExact.HarmlessStep | src/queue/pipeline-run.service.ts:43-53 | step by step: the accounts stay exact exactly when the step is harmless, and no later step makes them exact again |
| FanInClose.FanInClosesExactly | src/queue/pipeline-run.service.ts:250-298 | in any run, with no lease assumption, the last-batch branch has been committed at most once, and once just when every batch 1..N is completed, if and only if every commit that saw the last batch completed the only one missing and no completed row was overwritten once all were |
| FanInClose.ClosingStep | src/queue/batch-pipeline.consumer.ts:175-194 | step by step: the closing stays right exactly when the step's condition on the rows holds, and a wrong closing is never put right |
| FanInClose.HarmlessRunClosesOnce | src/queue/batch-pipeline.consumer.ts:161-224 | if each batch's work is committed once, the fan-in closes once, and the counter is the number of completed batches |
| FanInClose.EmptyListClosesOnceExactly | src/queue/dispatch-pipeline.consumer.ts:125-160 | with an empty list, in any run the successors are staged at most once exactly when every dispatcher that stages them finds the planned count unset; they were staged exactly when it is on record |
| FanInLease.LeasesMakeRunsHarmless | src/queue/constants.ts:10-11 | the lease is enough: every leased run, start failures included, is harmless |
| FanInLease.FanInClosesExactlyOnce | src/queue/pipeline-run.service.ts:250-298 | in every leased run the last-batch branch has committed at most once, and exactly when every batch 1..N is completed; the counter is the number of completed batches and at most N |
| FanInLease.WorkIsCommittedAtMostOnce | src/queue/batch-pipeline.consumer.ts:101-194 | in every leased run a batch's handle() effects are committed at most once, and exactly when its row is completed, however often it is delivered |
| FanInLease.LeasedRunKeeps | src/queue/pipeline-run.service.ts:36-37 | along a leased run a completed batch stays completed, and the lease invariant holds throughout |
| FanInSafety.NoEmittedBatchIsLost | src/queue/dispatch-pipeline.consumer.ts:234-301 | in every run an emitted batch has its work committed, or a copy of its message is in a queue, unaccepted in the outbox, or with a worker that will commit it or hand it on |
| FanInSafety.CompletedDispatchEmittedAll | src/queue/dispatch-pipeline.consumer.ts:188-194 | a completed dispatch row means that exactly the seqs 1..N were emitted, in both publish modes and with concurrent dispatchers, and none of them is lost |
| FanInSafety.CheckpointAndPlannedAreBacked | src/queue/pipeline-run.service.ts:123-168 | every seq up to the stored checkpoint was emitted, and no batch is queued, dead-lettered or delivered while the planned count is unset, restarts included |
| FanInSafety.DispatchIsNotLost | src/queue/dispatch-pipeline.consumer.ts:102-116 | in every run, until some dispatcher completed the dispatch row, and with it emitted every batch, a copy of the dispatch message is queued, dead-lettered or with a dispatcher that has not handed it on |
| FanInSafety.CounterAccounting | src/queue/pipeline-run.service.ts:81-95 | with no lease assumption batches_done is the number of running to completed transitions: completed rows plus completions taken back, so it counts completed rows exactly when none was taken back |
| FanInRuns.SkippingIsUnobservable | src/queue/outbox-publisher.service.ts:47-58 | every state that any run reaches while the publisher skips completed batches is also reached by a run that publishes every row, leased if the first one is |
| FanInProgress.FanInCanAlwaysClose | src/queue/dispatch-pipeline.consumer.ts:125-129 | from every state of a leased run there is a leased continuation that completes all N batches and closes the fan-in once, from the copies of the dispatch and batch messages that are left |
| FanInHazards.LateCommitClosesTwice | src/queue/pipeline-run.service.ts:38-41 | a handler that commits after its lock ran out closes the fan-in and commits its work a second time |
| FanInHazards.LateFailureClosesEarly | src/queue/pipeline-run.service.ts:81-95 | a failure recorded after the lock ran out, then a replay, closes the fan-in while another batch was never delivered |
| FanInHazards.SplitStartCommitsTwice | src/queue/pipeline-run.service.ts:33-65 | two deliveries that both read the row before either writes it are both granted and both commit, within their locks |
| FanInHazards.FailedStartClosesTwice | src/queue/batch-pipeline.consumer.ts:211-224 | a start() that throws on a redelivery of a completed batch is enough to commit it again and close the fan-in twice |
| FanInHazards.EmptyListClosesTwice | src/queue/dispatch-pipeline.consumer.ts:130-160 | two dispatchers that both claimed the row of an empty list both stage its successors |
| FanInOutbox.ClaimsAreSpacedAndCounted | src/queue/outbox.repository.ts:105-128 | in every run a row's attempts count its claims, claimed_at is the last of them, and any two claims are more than the grace window apart |
| FanInOutbox.UnpublishedIsClaimableAgain | src/queue/outbox.repository.ts:94-104 | an unpublished row can be claimed after any wait exactly when it was never claimed or its last claim is older than the grace window |
| FanInOutbox.PublishedMeansDelivered | src/queue/outbox-publisher.service.ts:44-69 | a row is published only in a run in which the broker accepted its message or its batch was seen completed |
| BatchRefinement.ProcessRefinesTheProtocol | src/queue/batch-pipeline.consumer.ts:83-234 | every process call on a numbered delivery is a run of the protocol with the same rows, dead letters, staged successors and committed work |
| DispatchRefinement.DispatchRefinesTheProtocol | src/queue/dispatch-pipeline.consumer.ts:92-301 | every dispatcher call with a list numbered 1..N, in either publish mode and whichever statement throws, is a run of the protocol with the same rows, emissions, successors and dead letters of its message |
| TickRefinement.TickRefinesTheProtocol | src/queue/outbox-publisher.service.ts:38-78 | every tick, whichever rows throw, is for every (run, step) a run of the protocol that claims, publishes, skips and marks the same rows, queues the accepted batches and copies of the step's own dispatch message, and leaves no claim over |
| DispatchRestart.FailedDispatchResumes | src/queue/dispatch-pipeline.consumer.ts:188-301 | a dispatch that failed at any statement after it had its list and an undisturbed second call send every pending batch in order; outbox mode repeats at most one chunk, and none unless a checkpoint write threw; direct mode only batches since the last due checkpoint; counter and planned count survive |
| DispatchRestart.EmissionCheckpoint | src/queue/dispatch-pipeline.consumer.ts:251-299 | how many of the sent batches are behind the checkpoint an emission leaves, wherever it stops: all when it is done, all but one chunk in outbox mode, all up to the last due one in direct mode |
| Emission.PendingExactly | src/queue/dispatch-pipeline.consumer.ts:242-245 | the pending list holds exactly the batches past the checkpoint that are not completed, still in ascending order |
| DispatchExact.EmissionExactly | src/queue/dispatch-pipeline.consumer.ts:234-301 | how many batches an emission sends for any number of publishes, inserts and checkpoint writes that succeed, and what stops it, in both modes; what it sends is the head of the pending list |
| DispatchExact.PendingMessages | src/queue/dispatch-pipeline.consumer.ts:242-245 | the pending batches are the handler's own messages that are neither completed nor behind the checkpoint, none more often than given |
| DispatchExact.SentExactly | src/queue/dispatch-pipeline.consumer.ts:251-299 | every message published and every new outbox row goes to its own queue, carries the standalone flag of the dispatch message and is otherwise the handler's own; the rows belong to its run and tenant |
| DispatchExact.DispatchExactly | src/queue/dispatch-pipeline.consumer.ts:92-228 | when a dispatch call emits, stages the successors of an empty list, is dead-lettered and is acked, each as an if-and-only-if on what its statements answer |
| DispatchExact.DispatchLeavesExactly | src/queue/dispatch-pipeline.consumer.ts:92-228 | only row 0 changes: it ends completed, failed with the error or running from now, with the planned count of its list and its counter kept |
| PipelineRows.StartExactly | src/queue/pipeline-run.service.ts:26-66 | a start refuses a completed row and one running for less than five minutes, and claims any other for the caller with nothing left of an earlier failure and its progress kept |
| PipelineRows.OldReadExactly | src/queue/pipeline-run.service.ts:43-65 | what the write of a start does when its read has grown old: an insert meets the unique index, an update takes the row as it is |
| PipelineRows.DispatchStartExactly | src/queue/pipeline-run.service.ts:123-168 | a dispatch is claimed unless completed, and a restart keeps counter, planned count, checkpoint and tenant |
| PipelineRows.EndExactly | src/queue/pipeline-run.service.ts:68-95 | failing and completing end an existing row whatever its status and touch no other; only a failure writes an error, its first 4000 characters |
| PipelineRows.ProgressExactly | src/queue/pipeline-run.service.ts:97-112 | planned count and checkpoint are written on an existing dispatch row, read back from it, and change nothing else |
| PipelineRows.IncrementExactly | src/queue/pipeline-run.service.ts:250-298 | a running row is completed and counted together, any other left alone and not counted; the snapshot says last exactly when a positive planned count is on record and reached |
| RunService.PipelineRunService.Start | src/queue/pipeline-run.service.ts:26-66 | answers already-completed, in-progress within the lock, or started, and in the last case leaves the row running from now; no other slice changes |
| RunService.PipelineRunService.Complete | src/queue/pipeline-run.service.ts:68-79 | completes the row unconditionally |
| RunService.PipelineRunService.Fail | src/queue/pipeline-run.service.ts:81-95 | fails the row whatever its status, with the error cut to 4000 characters |
| RunService.PipelineRunService.RecordDispatch | src/queue/pipeline-run.service.ts:97-112 | records the planned count on row 0 |
| RunService.PipelineRunService.StartOrRestartDispatch | src/queue/pipeline-run.service.ts:123-168 | skips a completed dispatch, restarts any other, and keeps counter, planned count and checkpoint |
| RunService.PipelineRunService.CompletedBatchSeqs | src/queue/pipeline-run.service.ts:170-185 | the completed seqs above 0 of the slice |
| RunService.PipelineRunService.LastPublishedBatchSeq | src/queue/pipeline-run.service.ts:187-200 | the stored checkpoint, 0 without a dispatch row |
| RunService.PipelineRunService.UpdateLastPublishedBatchSeq | src/queue/pipeline-run.service.ts:202-215 | sets the checkpoint on row 0 |
| RunService.PipelineRunService.IsBatchCompleted | src/queue/pipeline-run.service.ts:217-232 | whether the batch row is completed |
| RunService.PipelineRunService.CompleteBatchAndIncrement | src/queue/pipeline-run.service.ts:250-298 | completes a running row and adds one to the counter together, changes nothing otherwise, returns the counter snapshot either way, and throws without a dispatch row |
| RunService.SliceAfterWrite | src/database/entities/core/pipeline-run.entity.ts:8-12 | writing the row of one (run, step, batch_seq) changes that slice at that seq and no other slice |
| BatchConsumer.BatchPipelineConsumer.Process | src/queue/batch-pipeline.consumer.ts:83-234 | the effects of one delivery on rows, committed work, outbox, dead letters and settlement, for every answer of the surroundings; the transaction is rolled back on any throw |
| BatchConsumer.DeliveryIsAllOrNothing | src/queue/batch-pipeline.consumer.ts:156-194 | work is committed exactly when this delivery completed the row, and then the counter moved by one; nothing is staged but on the last batch; an acked delivery is completed or dead-lettered |
| BatchConsumer.DeliveryExactly | src/queue/batch-pipeline.consumer.ts:83-234 | when a delivery's work is committed, exactly; the delivery that closes the fan-in stages exactly what successors() returned unless the message is standalone, and no other stages anything; when it is dead-lettered and when acked |
| BatchConsumer.DeliveryLeavesExactly | src/queue/batch-pipeline.consumer.ts:101-224 | the batch row ends completed, failed with the error, freshly claimed or as it was, the dispatch row moves only by the counter, and no other row is touched |
| BatchConsumer.DuplicateLeavesRowsAlone | src/queue/batch-pipeline.consumer.ts:118-146 | a duplicate of a live delivery changes no row and goes to the dead letters |
| BatchConsumer.CompletedRowFallsExactly | src/queue/batch-pipeline.consumer.ts:211-224 | a redelivery takes a completed batch back exactly when start() throws and the failure path, dead letter and fail(), runs to its end |
| BatchConsumer.UnnumberedMessageFailsTheDispatchRow | src/queue/batch-pipeline.consumer.ts:96-100 | the dispatch row's status changes exactly for a message with batchSeq 0 or none whose dead letter is accepted and whose failure is recorded |
| SingleConsumer.BasePipelineConsumer.Process | src/queue/base-pipeline.consumer.ts:48-183 | the effects of one delivery of a single-queue step on every path, with the in-flight gauge back where it was |
| SingleConsumer.StepIsAllOrNothing | src/queue/base-pipeline.consumer.ts:129-181 | work is committed exactly when the row was completed by this delivery; an acked delivery is completed or dead-lettered; a completed row falls exactly when start() throws and the failure is recorded |
| SingleConsumer.StepExactly | src/queue/base-pipeline.consumer.ts:48-183 | when a single-queue step's work is committed and its successors staged, exactly; a step held elsewhere is rejected, a duplicate only dead-lettered |
| SingleConsumer.StepLeavesExactly | src/queue/base-pipeline.consumer.ts:100-181 | row 0 ends completed, failed with the error, freshly claimed or as it was: a duplicate of a live delivery takes nothing away from it |
| DispatchConsumer.DispatchPipelineConsumer.EmitBatches | src/queue/dispatch-pipeline.consumer.ts:234-301 | sends the pending batches in order, stamped with the standalone flag, up to the first read, send or checkpoint write that throws, and leaves the rows of the writes before it |
| DispatchConsumer.DispatchPipelineConsumer.Process | src/queue/dispatch-pipeline.consumer.ts:92-228 | record, emit, complete; the empty list closes the row and stages its successors together; a throw of any statement takes the dead-letter path, and one inside it rejects the delivery |
| OutboxRepo.OutboxRepository.InsertMany | src/queue/outbox.repository.ts:62-76 | appends one unclaimed, unpublished row per message with its routing key |
| OutboxRepo.OutboxRepository.InsertBatchMessages | src/queue/outbox.repository.ts:79-92 | the same for batch messages |
| OutboxRepo.OutboxRepository.ClaimPending | src/queue/outbox.repository.ts:105-128 | claims the oldest claimable rows that no other transaction has locked, up to the limit, and leaves every other row alone |
| OutboxRepo.OutboxRepository.MarkPublished | src/queue/outbox.repository.ts:130-135 | writes published_at once |
| Messages.AddressedExactly | src/queue/pipeline-publisher.service.ts:82-98 | a message is published as it is under its own tenant and its queue, or its step when it names none |
| Messages.EnvelopedExactly | src/queue/outbox.repository.ts:62-92 | an entry carries its message as it is under the caller's run and tenant; its routing key is the message's tenant and its queue, or its step when it names none |
| OutboxRows.StagedExactly | src/queue/outbox.repository.ts:62-76 | a staged row is unclaimed and unpublished |
| OutboxRows.ClaimAndMarkExactly | src/queue/outbox.repository.ts:94-135 | a claim counts and dates its rows, a mark dates its own once, and neither changes anything else; after a claim a row can be claimed again when a minute has passed |
| OutboxTick.OutboxPublisher.Tick | src/queue/outbox-publisher.service.ts:38-78 | every claimed row takes its turn whatever another row's turn threw; the exchange gets each accepted message once |
| OutboxTick.TickedRow | src/queue/outbox-publisher.service.ts:38-78 | per row: claimed once, now, or untouched; the broker gets it exactly when its batch is not completed and neither lookup nor publish throws; it is published exactly when the broker got it or its batch was seen completed and the mark goes through; otherwise claimable again exactly when its lease has run out |
| OutboxTick.TickSends | src/queue/outbox-publisher.service.ts:59-69 | the exchange gets the accepted rows' own messages under the rows' routing keys, one each |
| Join.NoLostWakeUp | src/pipeline/pipeline-join.service.ts:17-55 | over every interleaving with crashes, rollbacks and replays at most one branch is ever told to wait; once both branches' last-batch transactions committed a CALC dispatch is staged, and only with both rows there |
| Join.FiresExactly | src/pipeline/pipeline-join.service.ts:26-54 | a call fires exactly when both branches' inserts came before its count; two calls both fire exactly when both inserts came before the first of their counts |
| Join.BothMayFire | src/pipeline/pipeline-join.service.ts:40-54 | there is an interleaving in which both branches fire and stage a dispatch |
| Join.PipelineJoinService.MarkBranchComplete | src/pipeline/pipeline-join.service.ts:17-55 | inserts the branch row once and fires exactly when both rows of the run exist |
| Join.PipelineJoinService.CompetitorSuccessors | src/pipeline/consumers/import-competitor-products.batch.consumers.ts:102-120 | emits the CALC dispatch exactly when the stock branch was already complete |
| Slicing.SlicesPartition | src/pipeline/consumers/calc-base-product-metrics.dispatch.consumer.ts:78-95 | slices concatenate back to the list, number ceil(n/size), are neither empty nor too long, and hold element i in slice i/size |
| Slicing.CalcDispatch | src/pipeline/consumers/calc-base-product-metrics.dispatch.consumer.ts:63-101 | batches are numbered 1..n in order with the slices as payload; no products, no batches |
| Slicing.ApplyPriceDispatch.Handle | src/pipeline/consumers/apply-price.dispatch.consumer.ts:61-130 | batches are exactly 1..ceil(n/50) and every item gets the seq of its position, whatever its status; the empty and the credential-less run are closed |
| Slicing.AssignmentCoversBatches | src/pipeline/consumers/apply-price.dispatch.consumer.ts:106-125 | the emitted seqs are exactly the seqs that some item was assigned |
| DeadLetters.DlqService.Replay | src/admin/services/dlq.service.ts:82-118 | the acked messages, at most the cap, are on the exchange in order and gone from the queue; all others stay in order, a refused or interrupted head put back; it stops for nothing but cap, empty queue, unreplayable head or a throw |
| DeadLetters.DlqService.Peek | src/admin/services/dlq.service.ts:54-80 | shows a prefix up to the cap and leaves every message in place |
| DeadLetters.RemainingExactly | src/admin/services/dlq.service.ts:82-118 | what was not acked stays in order with its routing key and body, flagged as redelivered exactly if it was put back; the cap is the caller's, up to 200 |
| DeadLetters.ReplayKeepsTheFields | src/admin/services/dlq.service.ts:102-110 | a replay keeps its routing key; a replayed object or array keeps every field but the attempt, which is 1; a scalar keeps nothing |
| WorkerPool.MapWithLimit | src/integration/integration-connection.service.ts:305-322 | for any completion order: every index is taken once, every result is fn of its item, at most min(limit, n) calls are in flight, and it ends; no workers, no results |
| RefreshTokens.AuthService.Refresh | src/auth/auth.service.ts:66-107 | late reuse revokes the user's tokens, expired or inactive is refused, otherwise the first use rotates and a new token is issued |
| RefreshTokens.RefreshExactly | src/auth/auth.service.ts:66-107 | a refresh mints exactly for a known token of an active user and tenant until it expires and until a minute after its rotation; it then adds one token, good for fourteen days, and dates the first rotation; otherwise it writes nothing but the family of a token reused too late |
| RefreshTokens.RevokedExactly | src/auth/auth.service.ts:113-121 | a logout or theft response writes the user's unrevoked tokens, dated back by a minute, and nothing else |
| RefreshTokens.RefreshIsItsStatements | src/auth/auth.service.ts:66-107 | a refresh without interference is its read, check, two status reads, update and insert, its family revocation or its refusal, run one after the other |
| RefreshTokens.MintsFoundUserAndTenantActive | src/auth/auth.service.ts:82-95 | over any interleaving with suspensions, the user of every minted token was active, and then the user's tenant, each at a moment between that refresh's token read and its insert |
| RefreshTokens.MintsEndWithTheGraceWindow | src/auth/auth.service.ts:18-23 | over any interleaving of refreshes, statement by statement, a refresh that mints read its token before expiry and within the grace window of its revocation time, unless a purge caught the token after that read |
| RefreshTokens.PurgedTokensStayDead | src/auth/auth.service.ts:113-121 | over any interleaving, a token unrevoked at a logout or theft response mints only for a refresh that read it before; no refresh whose read comes the grace window or more after it mints from a token of the user that existed then |
| RefreshTokens.InFlightMintsExactly | src/auth/auth.service.ts:66-107 | whatever logouts, refreshes and time come in between, a refresh in flight can still mint, its user and tenant being active when it asks, exactly when its token passed its checks, or has been fetched and would pass them now |
| RefreshTokens.StraddlingRefreshExactly | src/auth/auth.service.ts:66-121 | in any history, a refresh whose token a logout or theft response caught alive can still mint exactly when it read the token before that, and has checked it or finds it unexpired |
| RefreshTokens.LogoutIsFinalExactly | src/auth/auth.service.ts:109-121 | after a logout no continuation without a login of the user leaves a live token, if and only if at the logout no unexpired token of the user was within its grace window and no refresh in flight could still mint |
| RefreshTokens.StepWritesOnce | src/auth/auth.service.ts:97-105 | no statement changes a token's user, expiry or, once set, its revocation time |
| Classification.NormalizeTruncatesOnce | legacy-app/src/common/normalize-classification.helper.ts:7-18 | normalising keeps a prefix of at most two levels and is idempotent |
| Classification.SplitExactly | legacy-app/src/common/normalize-classification.helper.ts:7-18 | splitting a name loses nothing and leaves no separator in a level |
| Classification.NormalizeExactly | legacy-app/src/common/normalize-classification.helper.ts:7-18 | a name is cut to its first two levels |
| Classification.NormalizeFiltersExactly | legacy-app/src/common/normalize-classification.helper.ts:23-31 | a filter list becomes the truncations of its names, each once, or none if it applies to everything |
| Classification.NormalizedFiltersMatchMore | legacy-app/src/common/normalize-classification.helper.ts:23-31 | normalised filters are two-level and match every product the raw ones matched |
| Classification.FiltersOverlapExactly | legacy-app/src/services/offer-book-rules.service.ts:560-575 | the filter overlap test holds exactly when some two-level classification matches both |
| PricingRules.OverlapTestExactly | legacy-app/src/services/offer-book-rules.service.ts:454-558 | on well-formed rules the overlap test is exactly "some product is hit by both"; on any rules it misses none, and accuses wrongly exactly when null or upside-down ranges share no value |
| PricingRules.MatchesExactly | legacy-app/src/services/offer-book-rules.service.ts:336-452 | a rule hits a product exactly when it is active, its filters name the classification or a level above, and both ranges hold, missing ends being no limit and null ends zero; a lock likewise without ranges |
| PricingRules.UpsideDownRangeIsAccused | legacy-app/src/dto/offer-book-rules-body.dto.ts:21-90 | of the ranges the DTO lets through, exactly those with a positive minimum and a null maximum hit nothing, and they are still accused of overlapping |
| PricingRules.NullBoundIsReadTwoWays | legacy-app/src/services/offer-book-rules.service.ts:448-452 | a null maximum makes the overlap test accuse two rules that no product is hit by |
| PricingRules.ValidateNonOverlappingPricingRules | legacy-app/src/services/offer-book-rules.service.ts:72-88 | accepts exactly pairwise disjoint active rules and otherwise names the first overlapping pair |
| PricingRules.ValidateNonOverlappingPriceLocks | legacy-app/src/services/offer-book-rules.service.ts:41-70 | accepts exactly pairwise disjoint active locks; the all-classifications check refuses nothing else |
| PricingRules.FindMatchingPricingRule | legacy-app/src/services/offer-book-rules.service.ts:336-383 | the first rule that matches, or none if none does |
| PricingRules.FindMatchingPriceLock | legacy-app/src/services/offer-book-rules.service.ts:385-399 | the first lock that matches, or none if none does |
| PricingRules.ValidatedSelectionIgnoresOrder | legacy-app/src/services/offer-book-rules.service.ts:336-399 | for accepted lists the selected rule and lock are the same under every permutation |
| PricingRules.CreateIsCoarser | legacy-app/src/use-cases/create-offer-book-rules.use-case.ts:180-227 | whatever preview refuses creation refuses; it refuses more exactly when both rules have both ranges and only one pair of them overlaps |
| PricingRules.CreatedListsPreview | legacy-app/src/use-cases/create-offer-book-rules.use-case.ts:131-178 | a list accepted at creation is accepted at preview and hits every product at most once |
| PricingRules.ValidateRulesAtCreation | legacy-app/src/use-cases/create-offer-book-rules.use-case.ts:131-178 | accepts exactly the lists with no pair that the creation test accuses and otherwise names the first |
| PriceRounding.RoundingMovesLessThanOne | legacy-app/src/services/offer-book-rules.service.ts:401-430 | for any roundTo from zero up rounding lowers a price by less than one unit, and raises it by less than one exactly when the replacement, to the cent, is less than one above the decimals it replaces |
| PriceRounding.RoundToAboveOneMovesFar | legacy-app/src/services/offer-book-rules.service.ts:401-430 | a roundTo of five moves 10.50 to 15.00 |
| PriceRounding.RangeForExactly | legacy-app/src/services/offer-book-rules.service.ts:401-420 | the first band that holds the price decides, and in it the first range that holds its decimals to the cent, both ends included |
| PriceRounding.RoundingExactly | legacy-app/src/services/offer-book-rules.service.ts:409-429 | rounding keeps the whole units and puts in the range's decimals to the cent; it does not apply exactly without a range or when nothing would change to the cent |
| PriceRounding.ValidateDecimalRangesDoNotOverlap | legacy-app/src/use-cases/create-price-rounding-rule.use-case.ts:39-53 | accepts exactly the lists without a meeting pair and otherwise names the first |
| PriceRounding.AcceptedRangesAreUnambiguous | legacy-app/src/use-cases/create-price-rounding-rule.use-case.ts:39-53 | for ranges that are not upside down, accepted means exactly that no decimal part lies in two of them |
| PricePreview.CalculateProductPreview | legacy-app/src/services/offer-book-rules.service.ts:101-268 | the report of the exact calculation, skipped products included; what it means is the next row |
| PricePreview.ReportMeansTheExactPrice | legacy-app/src/services/offer-book-rules.service.ts:114-268 | a priced product is reported within half a cent of its exact price, a skipped one keeps its current price, and each skip flag is set exactly for its reason |
| PreviewExact.SourcePriceExactly | legacy-app/src/services/offer-book-rules.service.ts:292-334 | a source counts only with a positive price; the shop's own is its offer, or without one its sale price |
| PreviewExact.BasePriceExactly | legacy-app/src/services/offer-book-rules.service.ts:270-290 | a sale or offer base always has a price, zero if nothing is known |
| PreviewExact.RuleSelectionExactly | legacy-app/src/services/offer-book-rules.service.ts:336-383 | the rule that applies is the first that hits the two-level classification, the calculation price and the stored margin |
| PreviewExact.LockSelectionExactly | legacy-app/src/services/offer-book-rules.service.ts:385-399 | the lock that applies is the first whose filters name the two-level classification |
| PreviewExact.MarginExactly | legacy-app/src/services/offer-book-rules.service.ts:192-193 | a margin is the share of the price that is not cost, in percent, zero without a cost |
| PreviewExact.CurrentMarginExactly | legacy-app/src/services/offer-book-rules.service.ts:106-108 | the current margin is that of a non-zero offer, otherwise of the sale price, and zero if that is not positive |
| PreviewExact.RulePriceExactly | legacy-app/src/services/offer-book-rules.service.ts:149-191 | a discount lowers the calculation price by its percentage, an increase raises it, no rule leaves it; the product is skipped exactly when the result exceeds a positive sale price, and otherwise carries the rule's own action and percentage |
| PreviewExact.LockExactly | legacy-app/src/services/offer-book-rules.service.ts:195-210 | the lock sets the price exactly when its minimum is below 100, there is a cost, and the current or the new margin is below the minimum; the price then has that margin |
| PreviewExact.FinalPriceExactly | legacy-app/src/services/offer-book-rules.service.ts:212-245 | the final price, its margin, and the applied percentage: the one that leads from the offer to the final price when a lock set it, otherwise the rule's own |
| PreviewExact.ReportHeadExactly | legacy-app/src/services/offer-book-rules.service.ts:106-118 | the prices, cost and classification that every report carries as they are |
| PreviewExact.PricedReportExactly | legacy-app/src/services/offer-book-rules.service.ts:247-268 | a priced product's figures are reported to the cent, with its own action and flags |
| PreviewExact.SkippedReportExactly | legacy-app/src/services/offer-book-rules.service.ts:117-191 | a skipped product is reported as it stands, with the flag of its reason and, over the limit, its rule |
| PricePreview.ApplyRuleLockAndRounding | legacy-app/src/services/offer-book-rules.service.ts:149-245 | the step-by-step reassignment of price, margin and percentage computes rule, limit, lock and rounding in that order |
| PricePreview.GetLowestPriceFromSources | legacy-app/src/services/offer-book-rules.service.ts:292-334 | the least positive price among the sources, none exactly when no source has one |
| PricePreview.GetCalculationBasePrice | legacy-app/src/services/offer-book-rules.service.ts:270-290 | no price exactly for a competitive base of which no listed source has a positive price; a competitive price is positive and the least of the listed ones |
| PricePreview.MarginFloorHolds | legacy-app/src/services/offer-book-rules.service.ts:199-210 | with a matching lock, a cost and a positive price, the exact price before rounding meets the minimum margin exactly when that is below 100 |
| PricePreview.FloorAfterRoundingExactly | legacy-app/src/services/offer-book-rules.service.ts:229-268 | after a lock and a price rounding the margin before the report's cent rounding meets the minimum exactly when roundTo, to the cent, is no less than the decimals of the locked price; the reported margin exactly when the rounded price is at least the one locked at the least margin that is reported as the minimum |
| PricePreview.RoundingUndercutsTheFloor | legacy-app/src/services/offer-book-rules.service.ts:229-245 | a product whose locked price of 10.50 is rounded to 10.00, below its minimum margin |
| PricePreview.UnlockedPriceIsCapped | legacy-app/src/services/offer-book-rules.service.ts:166-191 | without lock and rounding no price exceeds a positive sale price |
| PricePreview.ReportedPercentageReplays | legacy-app/src/services/offer-book-rules.service.ts:212-245 | the reported action and unrounded percentage lead from the offer price to the final price, negative discounts included |
| PricePreview.PreviewIgnoresListOrder | legacy-app/src/services/offer-book-rules.service.ts:90-99 | for accepted lists the report is the same under every permutation of rules and locks |

## Left out

- RabbitMQ, TypeORM, NestJS, tracing and metrics: the broker is queues and the database is a map with atomic transactions; only the gauge of the single-queue consumer is kept.
- The order in which a claim returns its rows: `UPDATE .. RETURNING` promises none, so a claim is a set.
- A whole-run result for single-queue steps: their one row has no counter and no fan-in; their consumer is modelled call by call.
- The standalone flag in the protocol: it only decides how many successors are staged, which is free there.
- RefreshTokens.AuthService.Refresh: does not model interference, because a method of the class runs alone; the histories beside it interleave its statements.
- Access tokens, passwords and hashing; a login's own status checks, which issue no token that another property speaks of.
- Floating point: prices are reals, and Math.round to cents is a separate last step.
- Identity and display fields of a preview report, and the categories and database filters of the rule endpoints.
- The fields an offer-book or rounding-rule entity is filled with after validation: plain assignment.
- Scrapers, HTTP clients, ERP queries, CSV export, controllers, guards and migrations.
- 32-bit column widths: batch counts, attempts and seqs are unbounded integers.
