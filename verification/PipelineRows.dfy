/** The rows of `core.pipeline_run` that belong to one (pipelineRunId, step), keyed by batch_seq, and what
    each SQL statement of the run service does to them. Row 0 is the dispatch row: it carries the fan-in
    counter, the planned count and the publish checkpoint. The service class and the fan-in protocol share
    these definitions. */
module PipelineRows {
  import opened Options

  const ACTIVE_BATCH_LOCK_MS: int := 5 * 60 * 1000
  const DISPATCH_BATCH_SEQ: int := 0
  const MAX_ERROR_LENGTH: nat := 4000

  datatype Status = Running | Completed | Failed

  datatype Row = Row(
    tenantId: string,
    attempt: int,
    status: Status,
    startedAt: int,
    finishedAt: Option<int>,
    error: Option<string>,
    planned: Option<nat>,
    done: nat,
    lastPublished: int)

  type Rows = map<int, Row>

  predicate IsCompleted(rows: Rows, batchSeq: int) {
    batchSeq in rows && rows[batchSeq].status.Completed?
  }

  // ----- start(): a read, then a write -----

  /** What the `findOne` of `start` tells it. */
  datatype StartRead = SeenCompleted | SeenActive | SeenStale | SeenAbsent

  function ReadStart(rows: Rows, batchSeq: int, now: int): StartRead {
    if batchSeq !in rows then SeenAbsent
    else match rows[batchSeq].status
      case Completed => SeenCompleted
      case Running => if now - rows[batchSeq].startedAt < ACTIVE_BATCH_LOCK_MS then SeenActive else SeenStale
      case Failed => SeenStale
  }

  function FreshRow(tenantId: string, attempt: int, now: int): Row {
    Row(tenantId, attempt, Running, now, None, None, None, 0, 0)
  }

  /** The write of `start` for a read that answered stale or absent. An insert that meets an existing row
      violates the unique index (`None`); an update of a row that is not there changes nothing. */
  function WriteStart(rows: Rows, seen: StartRead, batchSeq: int, tenantId: string, attempt: int,
                      now: int): Option<Rows> {
    match seen
    case SeenAbsent =>
      if batchSeq in rows then None else Some(rows[batchSeq := FreshRow(tenantId, attempt, now)])
    case SeenStale =>
      if batchSeq in rows
      then Some(rows[batchSeq := rows[batchSeq].(tenantId := tenantId, attempt := attempt, status := Running,
                                       startedAt := now, finishedAt := None, error := None)])
      else Some(rows)
    case _ => Some(rows)
  }

  // ----- startOrRestartDispatch(): a read, then a write -----

  datatype DispatchRead = DispatchDone | DispatchPresent | DispatchMissing

  function ReadDispatch(rows: Rows): DispatchRead {
    if DISPATCH_BATCH_SEQ !in rows then DispatchMissing
    else if rows[DISPATCH_BATCH_SEQ].status.Completed? then DispatchDone
    else DispatchPresent
  }

  /** A restart keeps the counter, the planned count and the checkpoint, and the tenant of the first start. */
  function WriteDispatch(rows: Rows, seen: DispatchRead, tenantId: string, attempt: int, now: int): Option<Rows> {
    match seen
    case DispatchDone => Some(rows)
    case DispatchMissing =>
      if DISPATCH_BATCH_SEQ in rows then None
      else Some(rows[DISPATCH_BATCH_SEQ := FreshRow(tenantId, attempt, now)])
    case DispatchPresent =>
      if DISPATCH_BATCH_SEQ in rows
      then Some(rows[DISPATCH_BATCH_SEQ := rows[DISPATCH_BATCH_SEQ].(
                       status := Running, attempt := attempt, startedAt := now, finishedAt := None, error := None)])
      else Some(rows)
  }

  // ----- unconditional updates -----

  function Truncate(text: string, limit: nat): string {
    if |text| <= limit then text else text[..limit]
  }

  function FailRow(rows: Rows, batchSeq: int, error: string, now: int): Rows {
    if batchSeq in rows
    then rows[batchSeq := rows[batchSeq].(status := Failed, finishedAt := Some(now),
                                error := Some(Truncate(error, MAX_ERROR_LENGTH)))]
    else rows
  }

  function CompleteRow(rows: Rows, batchSeq: int, now: int): Rows {
    if batchSeq in rows then rows[batchSeq := rows[batchSeq].(status := Completed, finishedAt := Some(now))] else rows
  }

  function RecordPlannedCount(rows: Rows, planned: nat): Rows {
    if DISPATCH_BATCH_SEQ in rows
    then rows[DISPATCH_BATCH_SEQ := rows[DISPATCH_BATCH_SEQ].(planned := Some(planned))]
    else rows
  }

  function SetCheckpoint(rows: Rows, batchSeq: int): Rows {
    if DISPATCH_BATCH_SEQ in rows
    then rows[DISPATCH_BATCH_SEQ := rows[DISPATCH_BATCH_SEQ].(lastPublished := batchSeq)]
    else rows
  }

  function CheckpointOf(rows: Rows): int {
    if DISPATCH_BATCH_SEQ in rows then rows[DISPATCH_BATCH_SEQ].lastPublished else 0
  }

  function CompletedSeqs(rows: Rows): set<int> {
    set batchSeq | batchSeq in rows && rows[batchSeq].status.Completed? && batchSeq > DISPATCH_BATCH_SEQ
  }

  // ----- completeBatchAndIncrement(): one SQL statement -----

  /** The batch row leaves `running`, exactly when it is `running`. */
  predicate Transitions(rows: Rows, batchSeq: int) {
    batchSeq in rows && rows[batchSeq].status.Running?
  }

  function CompleteAndIncrement(rows: Rows, batchSeq: int, now: int): Rows
    requires DISPATCH_BATCH_SEQ in rows && batchSeq != DISPATCH_BATCH_SEQ
  {
    if Transitions(rows, batchSeq)
    then rows[batchSeq := rows[batchSeq].(status := Completed, finishedAt := Some(now))]
             [DISPATCH_BATCH_SEQ := rows[DISPATCH_BATCH_SEQ].(done := rows[DISPATCH_BATCH_SEQ].done + 1)]
    else rows
  }

  datatype BatchIncrement = BatchIncrement(done: nat, planned: nat, isLast: bool)

  /** The counter snapshot that `completeBatchAndIncrement` returns, read from the updated dispatch row. */
  function Increment(rows: Rows): BatchIncrement
    requires DISPATCH_BATCH_SEQ in rows
  {
    var dispatch := rows[DISPATCH_BATCH_SEQ];
    var planned := match dispatch.planned case Some(n) => n case None => 0;
    BatchIncrement(dispatch.done, planned, planned > 0 && dispatch.done >= planned)
  }

  // ----- what each statement leaves, field by field -----

  predicate OnlyRow(before: Rows, after: Rows, q: int) {
    && after - {q} == before - {q}
    && (q in before ==> q in after)
  }

  /** The row is claimed: running from now, with nothing left of an earlier failure. */
  predicate FreshClaim(row: Row, attempt: int, now: int) {
    row.status.Running? && row.startedAt == now && row.attempt == attempt && row.finishedAt.None? && row.error.None?
  }

  /** Progress of a dispatch row: what a restart must not lose. */
  predicate SameProgress(before: Row, after: Row) {
    after.planned == before.planned && after.done == before.done && after.lastPublished == before.lastPublished
  }

  predicate NoProgress(row: Row) {
    row.planned.None? && row.done == 0 && row.lastPublished == 0
  }

  /** A start refuses a completed row, and one that has been running for less than five minutes; it claims any other,
      which then belongs to the caller's tenant. */
  lemma StartExactly(rows: Rows, q: int, tenantId: string, attempt: int, now: int)
    ensures
      var seen := ReadStart(rows, q, now);
      var after := WriteStart(rows, seen, q, tenantId, attempt, now);
      && (seen.SeenCompleted? <==> q in rows && rows[q].status == Completed)
      && (seen.SeenActive? <==> q in rows && rows[q].status == Running && now - rows[q].startedAt < 300_000)
      && (seen.SeenAbsent? <==> q !in rows)
      && after.Some? && OnlyRow(rows, after.value, q)
      && (seen.SeenCompleted? || seen.SeenActive? ==> after.value == rows)
      && (seen.SeenStale? || seen.SeenAbsent? ==>
            && q in after.value && FreshClaim(after.value[q], attempt, now) && after.value[q].tenantId == tenantId
            && if q in rows then SameProgress(rows[q], after.value[q]) else NoProgress(after.value[q]))
  {
  }

  /** The write of a start whose read has grown old: an insert meets the row that appeared, an update finds the row as
      it is by then. */
  lemma OldReadExactly(rows: Rows, q: int, tenantId: string, attempt: int, now: int)
    ensures WriteStart(rows, SeenAbsent, q, tenantId, attempt, now).None? <==> q in rows
    ensures
      var after := WriteStart(rows, SeenStale, q, tenantId, attempt, now);
      && after.Some? && OnlyRow(rows, after.value, q)
      && (q in rows <==> q in after.value)
      && (q in rows ==> FreshClaim(after.value[q], attempt, now) && SameProgress(rows[q], after.value[q]))
    ensures WriteDispatch(rows, DispatchMissing, tenantId, attempt, now).None? <==> DISPATCH_BATCH_SEQ in rows
  {
  }

  /** A dispatch is claimed unless it is completed, however recently another dispatcher claimed it; a restart keeps the
      counter, the planned count, the checkpoint and the tenant of the first start. */
  lemma DispatchStartExactly(rows: Rows, tenantId: string, attempt: int, now: int)
    ensures
      var after := WriteDispatch(rows, ReadDispatch(rows), tenantId, attempt, now);
      && (ReadDispatch(rows).DispatchDone? <==> 0 in rows && rows[0].status == Completed)
      && after.Some? && OnlyRow(rows, after.value, 0)
      && (if ReadDispatch(rows).DispatchDone? then after.value == rows
          else
            && 0 in after.value && FreshClaim(after.value[0], attempt, now)
            && if 0 in rows then SameProgress(rows[0], after.value[0]) && after.value[0].tenantId == rows[0].tenantId
               else NoProgress(after.value[0]) && after.value[0].tenantId == tenantId)
  {
  }

  /** What identifies a row's claim, and its counters. */
  predicate SameClaim(before: Row, after: Row) {
    && after.tenantId == before.tenantId && after.attempt == before.attempt && after.startedAt == before.startedAt
    && SameProgress(before, after)
  }

  /** Failing and completing leave a missing row missing, and end an existing one whatever its status, now; only a
      failure writes an error, of at most 4000 characters. */
  lemma EndExactly(rows: Rows, q: int, error: string, now: int)
    ensures
      var failed, completed := FailRow(rows, q, error, now), CompleteRow(rows, q, now);
      && OnlyRow(rows, failed, q) && OnlyRow(rows, completed, q)
      && (q !in rows ==> failed == rows && completed == rows)
      && (q in rows ==>
            && SameClaim(rows[q], failed[q]) && SameClaim(rows[q], completed[q])
            && failed[q].status == Failed && completed[q].status == Completed
            && failed[q].finishedAt == Some(now) == completed[q].finishedAt
            && completed[q].error == rows[q].error
            && failed[q].error.Some? && failed[q].error.value <= error
            && |failed[q].error.value| == if |error| < 4000 then |error| else 4000)
  {
  }

  predicate SameStatus(before: Row, after: Row) {
    && after.tenantId == before.tenantId && after.attempt == before.attempt && after.startedAt == before.startedAt
    && after.status == before.status && after.finishedAt == before.finishedAt && after.error == before.error
  }

  /** The planned count and the checkpoint are written on an existing dispatch row and read back from it. */
  lemma ProgressExactly(rows: Rows, n: nat, q: int)
    ensures
      var planned, published := RecordPlannedCount(rows, n), SetCheckpoint(rows, q);
      && OnlyRow(rows, planned, 0) && OnlyRow(rows, published, 0)
      && CheckpointOf(planned) == CheckpointOf(rows)
      && CheckpointOf(published) == (if 0 in rows then q else 0)
      && (0 !in rows ==> planned == rows && published == rows)
      && (0 in rows ==>
            && SameStatus(rows[0], planned[0]) && SameStatus(rows[0], published[0])
            && planned[0].planned == Some(n) && published[0].planned == rows[0].planned
            && planned[0].done == rows[0].done == published[0].done)
  {
  }

  /** The fan-in statement completes a running row and counts it, together; any other row it leaves alone and does not
      count. Its snapshot says last exactly when a planned count is on record and reached. */
  lemma IncrementExactly(rows: Rows, q: int, now: int)
    requires DISPATCH_BATCH_SEQ in rows && q != DISPATCH_BATCH_SEQ
    ensures
      var after := CompleteAndIncrement(rows, q, now);
      var counted := q in rows && rows[q].status == Running;
      && after - {0, q} == rows - {0, q} && 0 in after && (q in after <==> q in rows)
      && SameStatus(rows[0], after[0]) && after[0].done == rows[0].done + (if counted then 1 else 0)
      && after[0].planned == rows[0].planned && after[0].lastPublished == rows[0].lastPublished
      && (counted ==>
            && after[q].status == Completed && after[q].finishedAt == Some(now)
            && SameClaim(rows[q], after[q]) && after[q].error == rows[q].error)
      && (!counted && q in rows ==> after[q] == rows[q])
      && Increment(after).done == after[0].done
      && (after[0].planned.Some? ==> Increment(after).planned == after[0].planned.value)
      && (Increment(after).isLast
          <==> after[0].planned.Some? && after[0].planned.value > 0 && after[0].done >= after[0].planned.value)
  {
  }
}
