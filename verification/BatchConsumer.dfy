/** `process` of a batch consumer: claim the batch row; then, in one transaction, the step's own work, the
    completion of the row, the counter and the successors; or the dead-letter path. What handle(), the tenant
    lookup, the database and the broker answer are parameters of the call. */
module BatchConsumer {
  import opened Options
  import opened PipelineRows
  import opened OutboxRows
  import opened Messages
  import opened RunService
  import opened OutboxRepo

  /** The messages that the main exchange and the dead-letter exchange accepted, in order, with their routing keys. */
  class Broker {
    var exchange: seq<Routed>
    var deadLetters: seq<Routed>

    constructor ()
      ensures exchange == [] && deadLetters == []
    {
      exchange, deadLetters := [], [];
    }

    method Publish(key: string, m: Message, accepts: bool) returns (ok: bool)
      modifies this
      ensures ok == accepts && deadLetters == old(deadLetters)
      ensures exchange == old(exchange) + if accepts then [Routed(key, m)] else []
    {
      if accepts {
        exchange := exchange + [Routed(key, m)];
      }
      ok := accepts;
    }

    method RepublishOnFailure(m: Message, accepts: bool) returns (ok: bool)
      modifies this
      ensures ok == accepts && exchange == old(exchange)
      ensures deadLetters == old(deadLetters) + if accepts then [Addressed(m)] else []
    {
      if accepts {
        deadLetters := deadLetters + [Addressed(m)];
      }
      ok := accepts;
    }
  }

  /** How the surroundings answer one call: the clock; whether start() reaches the database; whether the tenant and its
      data source are found; whether handle() returns; what successors() returns, if it does; whether the
      transaction commits; whether the dead-letter exchange accepts; whether fail() reaches the database; and
      the text of whatever was thrown. */
  datatype Surroundings = Surroundings(
    now: int, startWorks: bool, tenantFound: bool, handles: bool, successors: Option<seq<Message>>, commits: bool,
    republishes: bool, failWorks: bool, error: string)

  /** Returned normally (the delivery is acked) or threw (the broker dead-letters the delivery itself). */
  datatype Settlement = Acked | Rejected

  // ----- the specification -----

  datatype Effects = Effects(
    rows: PipelineRows.Rows, handled: bool, staged: seq<Message>, deadLettered: bool, settlement: Settlement)

  function RetryText(error: string): string {
    error + " (retry=dlq)"
  }

  function FailurePath(rows: PipelineRows.Rows, m: Message, env: Surroundings): Effects {
    if env.republishes && env.failWorks
    then Effects(FailRow(rows, BatchSeqOf(m), RetryText(env.error), env.now), false, [], true, Acked)
    else Effects(rows, false, [], env.republishes, Rejected)
  }

  function SuccessorsOf(m: Message, env: Surroundings): Option<seq<Message>> {
    if m.standalone then Some([]) else env.successors
  }

  /** The rows and successors of the transaction, if it commits. */
  function Transaction(rows: PipelineRows.Rows, m: Message, env: Surroundings)
    : Option<(PipelineRows.Rows, seq<Message>)>
    requires BatchSeqOf(m) > 0
  {
    if !env.tenantFound || !env.handles || DISPATCH_BATCH_SEQ !in rows then None
    else
      var after := CompleteAndIncrement(rows, BatchSeqOf(m), env.now);
      var staged := if Increment(after).isLast then SuccessorsOf(m, env) else Some([]);
      if staged.None? || !env.commits then None else Some((after, staged.value))
  }

  function Processed(rows: PipelineRows.Rows, m: Message, env: Surroundings): Effects {
    var q := BatchSeqOf(m);
    if q <= 0 || !env.startWorks then FailurePath(rows, m, env)
    else match ReadStart(rows, q, env.now)
      case SeenCompleted => Effects(rows, false, [], false, Acked)
      case SeenActive => Effects(rows, false, [], env.republishes, if env.republishes then Acked else Rejected)
      case seen =>
        var started := WriteStart(rows, seen, q, m.tenantId, m.attempt, env.now).value;
        match Transaction(started, m, env)
        case None => FailurePath(started, m, env)
        case Some(tx) => Effects(tx.0, true, tx.1, false, Acked)
  }

  // ----- the consumer -----

  class BatchPipelineConsumer {
    const logicalStep: string
    const runs: PipelineRunService
    const outbox: OutboxRepository
    const broker: Broker

    /** The committed tenant effects of handle(), one per run of it. */
    var handled: seq<Message>

    constructor (logicalStep: string, runs: PipelineRunService, outbox: OutboxRepository, broker: Broker)
      ensures this.logicalStep == logicalStep && this.runs == runs && this.outbox == outbox && this.broker == broker
      ensures handled == []
    {
      this.logicalStep, this.runs, this.outbox, this.broker := logicalStep, runs, outbox, broker;
      handled := [];
    }

    /** The body of the tenant transaction; `false` when it throws, with whatever it wrote so far in place. */
    method RunTransaction(m: Message, env: Surroundings) returns (ok: bool)
      requires BatchSeqOf(m) > 0 && env.tenantFound
      modifies this`handled, runs, outbox
      ensures ok <==> Transaction(old(runs.Slice(m.runId, logicalStep)), m, env).Some?
      ensures ok ==>
        && var tx := Transaction(old(runs.Slice(m.runId, logicalStep)), m, env).value;
        && runs.Slice(m.runId, logicalStep) == tx.0
        && runs.OnlySlice(m.runId, logicalStep)
        && outbox.rows == old(outbox.rows) + Staged(Enveloped(m.runId, m.tenantId, tx.1))
        && handled == old(handled) + [m]
    {
      if !env.handles {
        return false;
      }
      handled := handled + [m];
      var increment := runs.CompleteBatchAndIncrement(m.runId, logicalStep, BatchSeqOf(m), env.now);
      if increment.None? {
        return false;
      }
      if increment.value.isLast {
        var successors := if m.standalone then Some([]) else env.successors;
        if successors.None? {
          return false;
        }
        outbox.InsertMany(m.runId, m.tenantId, successors.value);
      } else {
        assert Staged(Enveloped(m.runId, m.tenantId, [])) == [];
      }
      ok := env.commits;
    }

    method Process(m: Message, env: Surroundings) returns (settlement: Settlement)
      modifies this`handled, runs, outbox, broker
      ensures var fx := Processed(old(runs.Slice(m.runId, logicalStep)), m, env);
        && runs.Slice(m.runId, logicalStep) == fx.rows
        && handled == old(handled) + (if fx.handled then [m] else [])
        && outbox.rows == old(outbox.rows) + Staged(Enveloped(m.runId, m.tenantId, fx.staged))
        && broker.deadLetters == old(broker.deadLetters) + (if fx.deadLettered then [Addressed(m)] else [])
        && settlement == fx.settlement
      ensures runs.OnlySlice(m.runId, logicalStep)
      ensures broker.exchange == old(broker.exchange)
    {
      assert Staged(Enveloped(m.runId, m.tenantId, [])) == [];
      var batchSeq := BatchSeqOf(m);
      if batchSeq > 0 && env.startWorks {
        var outcome := runs.Start(m.runId, m.tenantId, logicalStep, m.attempt, batchSeq, env.now);
        if outcome == AlreadyCompleted {
          return Acked;
        }
        if outcome == InProgress {
          var republished := broker.RepublishOnFailure(m, env.republishes);
          return if republished then Acked else Rejected;
        }
        if env.tenantFound {
          var table, staged, work := runs.table, outbox.rows, handled;
          var committed := RunTransaction(m, env);
          if committed {
            return Acked;
          }
          runs.table, outbox.rows, handled := table, staged, work;
        }
      }
      var republished := broker.RepublishOnFailure(m, env.republishes);
      if !republished || !env.failWorks {
        return Rejected;
      }
      runs.Fail(m.runId, logicalStep, env.error + " (retry=dlq)", batchSeq, env.now);
      settlement := Acked;
    }
  }

  // ----- what one delivery does -----

  /** All or nothing: the work is committed exactly when this delivery completed the row and moved the counter by
      one; and no delivery is acked whose batch is neither completed nor dead-lettered. */
  lemma DeliveryIsAllOrNothing(rows: PipelineRows.Rows, m: Message, env: Surroundings)
    requires BatchSeqOf(m) > 0
    ensures
      var q, fx := BatchSeqOf(m), Processed(rows, m, env);
      && (fx.handled <==> !IsCompleted(rows, q) && IsCompleted(fx.rows, q))
      && (DISPATCH_BATCH_SEQ in rows ==>
            && DISPATCH_BATCH_SEQ in fx.rows
            && fx.rows[DISPATCH_BATCH_SEQ].done == rows[DISPATCH_BATCH_SEQ].done + if fx.handled then 1 else 0)
      && (fx.settlement == Acked ==> IsCompleted(fx.rows, q) || fx.deadLettered)
      && (fx.staged != [] ==> fx.handled && Increment(fx.rows).isLast && !m.standalone)
  {
  }

  /** A duplicate of a live delivery leaves every row as it is, so it cannot take the completion away from the
      original; it goes to the dead letters, by republishing or by the rejection. */
  lemma DuplicateLeavesRowsAlone(rows: PipelineRows.Rows, m: Message, env: Surroundings)
    requires BatchSeqOf(m) > 0 && Transitions(rows, BatchSeqOf(m)) && env.startWorks
    requires env.now - rows[BatchSeqOf(m)].startedAt < ACTIVE_BATCH_LOCK_MS
    ensures
      var fx := Processed(rows, m, env);
      fx.rows == rows && !fx.handled && fx.staged == [] && (fx.deadLettered || fx.settlement == Rejected)
  {
  }

  /** A completed batch is taken back by a redelivery exactly when its start() throws and the failure path then
      runs to its end: runs.fail() does not look at the row. */
  lemma CompletedRowFallsExactly(rows: PipelineRows.Rows, m: Message, env: Surroundings)
    requires BatchSeqOf(m) > 0 && IsCompleted(rows, BatchSeqOf(m))
    ensures !IsCompleted(Processed(rows, m, env).rows, BatchSeqOf(m))
            <==> !env.startWorks && env.republishes && env.failWorks
  {
  }

  /** A message without a batchSeq is refused, and the refusal is recorded on row 0: it fails the dispatch row,
      even a completed one, exactly when the message is unnumbered, the row is there and the dead letter was
      accepted. A numbered delivery never changes the dispatch row's status. */
  lemma UnnumberedMessageFailsTheDispatchRow(rows: PipelineRows.Rows, m: Message, env: Surroundings)
    requires DISPATCH_BATCH_SEQ in rows && !rows[DISPATCH_BATCH_SEQ].status.Failed?
    ensures
      var fx := Processed(rows, m, env);
      && DISPATCH_BATCH_SEQ in fx.rows
      && (fx.rows[DISPATCH_BATCH_SEQ].status != rows[DISPATCH_BATCH_SEQ].status
          <==> BatchSeqOf(m) == 0 && env.republishes && env.failWorks)
  {
  }

  // ----- exactly when a delivery works, and what it leaves -----

  /** Another delivery of the batch was granted less than the lock time ago. */
  predicate Live(rows: PipelineRows.Rows, q: int, now: int) {
    q in rows && rows[q].status == Running && now - rows[q].startedAt < ACTIVE_BATCH_LOCK_MS
  }

  /** The counter stands one short of the planned count, or beyond. */
  predicate OneMissing(rows: PipelineRows.Rows) {
    && DISPATCH_BATCH_SEQ in rows && rows[DISPATCH_BATCH_SEQ].planned.Some?
    && 0 < rows[DISPATCH_BATCH_SEQ].planned.value <= rows[DISPATCH_BATCH_SEQ].done + 1
  }

  /** The work is committed exactly when the message is numbered, start() grants the batch and every statement up to the
      commit goes through. The delivery that closes the fan-in then stages exactly the successors that successors()
      returned, and none when the message is standalone; no other stages any. A delivery that neither worked nor found
      its batch completed is dead-lettered if the exchange takes it; and it is acked only when it worked, had nothing to
      do, or was dead-lettered with its failure on record or as a duplicate. */
  lemma DeliveryExactly(rows: PipelineRows.Rows, m: Message, env: Surroundings)
    ensures
      var q, fx := BatchSeqOf(m), Processed(rows, m, env);
      var asks := q > 0 && env.startWorks;
      var skipped := asks && IsCompleted(rows, q);
      var duplicate := asks && Live(rows, q, env.now);
      && (fx.handled <==>
            && asks && !IsCompleted(rows, q) && !Live(rows, q, env.now)
            && env.tenantFound && env.handles && env.commits && DISPATCH_BATCH_SEQ in rows
            && (OneMissing(rows) && !m.standalone ==> env.successors.Some?))
      && (if fx.handled && OneMissing(rows) && !m.standalone then env.successors == Some(fx.staged)
          else fx.staged == [])
      && (fx.handled ==> (Increment(fx.rows).isLast <==> OneMissing(rows)))
      && (fx.deadLettered <==> !fx.handled && !skipped && env.republishes)
      && (fx.settlement == Acked <==> fx.handled || skipped || (env.republishes && (duplicate || env.failWorks)))
  {
  }

  /** The batch row ends completed, failed, freshly claimed or as it was; the dispatch row moves only by the counter; no
      other row of the step is touched. */
  lemma DeliveryLeavesExactly(rows: PipelineRows.Rows, m: Message, env: Surroundings)
    ensures
      var q, fx := BatchSeqOf(m), Processed(rows, m, env);
      var asks := q > 0 && env.startWorks;
      var refused := asks && (IsCompleted(rows, q) || Live(rows, q, env.now));
      var recorded := !fx.handled && !refused && env.republishes && env.failWorks;
      && fx.rows - {DISPATCH_BATCH_SEQ, q} == rows - {DISPATCH_BATCH_SEQ, q}
      && (!fx.handled ==> OnlyRow(rows, fx.rows, q))
      && (refused || (!asks && !recorded) ==> fx.rows == rows)
      && (asks && !refused ==>
            && q in fx.rows && fx.rows[q].startedAt == env.now
            && fx.rows[q].tenantId == m.tenantId && fx.rows[q].attempt == m.attempt
            && fx.rows[q].status == (if fx.handled then Completed else if recorded then Failed else Running)
            && fx.rows[q].finishedAt == (if fx.handled || recorded then Some(env.now) else None))
      && (recorded && q in fx.rows ==>
            fx.rows[q].status == Failed && fx.rows[q].error == Some(Truncate(env.error + " (retry=dlq)", 4000)))
      && (fx.handled ==>
            && fx.rows[q].error.None? && SameStatus(rows[0], fx.rows[0]) && fx.rows[0].done == rows[0].done + 1
            && fx.rows[0].planned == rows[0].planned && fx.rows[0].lastPublished == rows[0].lastPublished)
  {
  }
}
