/** `process` of a single-queue consumer: the same claim, transaction and failure path on row 0 of its step, with
    an unconditional completion and two flags that keep the in-flight gauge balanced. */
module SingleConsumer {
  import opened Options
  import opened PipelineRows
  import opened OutboxRows
  import opened Messages
  import opened RunService
  import opened OutboxRepo
  import opened BatchConsumer

  /** handle() returns its successors, throws, or reports that another worker holds the step's own lock. */
  datatype StepOutcome = Returns(successors: seq<Message>) | Throws | LockedElsewhere

  datatype StepSurroundings = StepSurroundings(
    now: int, startWorks: bool, tenantFound: bool, outcome: StepOutcome, commits: bool, republishes: bool,
    failWorks: bool, error: string)

  // ----- the specification -----

  function StepFailure(rows: PipelineRows.Rows, env: StepSurroundings): Effects {
    if env.republishes && env.failWorks
    then Effects(FailRow(rows, DISPATCH_BATCH_SEQ, RetryText(env.error), env.now), false, [], true, Acked)
    else Effects(rows, false, [], env.republishes, Rejected)
  }

  function StepProcessed(rows: PipelineRows.Rows, m: Message, env: StepSurroundings): Effects {
    if !env.startWorks then StepFailure(rows, env)
    else match ReadStart(rows, DISPATCH_BATCH_SEQ, env.now)
      case SeenCompleted => Effects(rows, false, [], false, Acked)
      case SeenActive => Effects(rows, false, [], env.republishes, if env.republishes then Acked else Rejected)
      case seen =>
        var started := WriteStart(rows, seen, DISPATCH_BATCH_SEQ, m.tenantId, m.attempt, env.now).value;
        if !env.tenantFound then StepFailure(started, env)
        else match env.outcome
          case LockedElsewhere => Effects(started, false, [], false, Rejected)
          case Throws => StepFailure(started, env)
          case Returns(successors) =>
            if env.commits
            then Effects(CompleteRow(started, DISPATCH_BATCH_SEQ, env.now), true,
                         if m.standalone then [] else successors, false, Acked)
            else StepFailure(started, env)
  }

  // ----- the consumer -----

  class BasePipelineConsumer {
    const step: string
    const runs: PipelineRunService
    const outbox: OutboxRepository
    const broker: Broker
    var handled: seq<Message>

    /** Deliveries in flight, as the metrics see them. */
    var inFlight: int

    constructor (step: string, runs: PipelineRunService, outbox: OutboxRepository, broker: Broker)
      ensures this.step == step && this.runs == runs && this.outbox == outbox && this.broker == broker
      ensures handled == [] && inFlight == 0
    {
      this.step, this.runs, this.outbox, this.broker := step, runs, outbox, broker;
      handled, inFlight := [], 0;
    }

    /** The end is counted once, and only for a delivery whose start was. */
    method ConsumeEnd(metricsStarted: bool, metricsEnded: bool) returns (ended: bool)
      modifies this`inFlight
      ensures ended == (metricsEnded || metricsStarted)
      ensures inFlight == old(inFlight) - if metricsStarted && !metricsEnded then 1 else 0
    {
      if !metricsStarted || metricsEnded {
        return metricsEnded;
      }
      inFlight := inFlight - 1;
      ended := true;
    }

    /** The tenant transaction: handle, complete, stage; all of it or nothing. */
    method RunTransaction(m: Message, env: StepSurroundings) returns (ok: bool)
      modifies this`handled, runs, outbox
      ensures ok <==> env.outcome.Returns? && env.commits
      ensures runs.OnlySlice(m.runId, step)
      ensures runs.Slice(m.runId, step)
           == if ok then CompleteRow(old(runs.Slice(m.runId, step)), DISPATCH_BATCH_SEQ, env.now)
              else old(runs.Slice(m.runId, step))
      ensures handled == old(handled) + if ok then [m] else []
      ensures outbox.rows == old(outbox.rows)
        + Staged(Enveloped(m.runId, m.tenantId, if ok && !m.standalone then env.outcome.successors else []))
    {
      assert Staged(Enveloped(m.runId, m.tenantId, [])) == [];
      if !env.outcome.Returns? {
        return false;
      }
      var table, staged, work := runs.table, outbox.rows, handled;
      handled := handled + [m];
      runs.Complete(m.runId, step, DISPATCH_BATCH_SEQ, env.now);
      outbox.InsertMany(m.runId, m.tenantId, if m.standalone then [] else env.outcome.successors);
      if !env.commits {
        runs.table, outbox.rows, handled := table, staged, work;
      }
      ok := env.commits;
    }

    /** The catch block of a failure other than a duplicate delivery. */
    method HandleFailure(m: Message, env: StepSurroundings) returns (settlement: Settlement)
      modifies runs, broker
      ensures var fx := StepFailure(old(runs.Slice(m.runId, step)), env);
        && runs.Slice(m.runId, step) == fx.rows
        && broker.deadLetters == old(broker.deadLetters) + (if fx.deadLettered then [Addressed(m)] else [])
        && settlement == fx.settlement
      ensures runs.OnlySlice(m.runId, step) && broker.exchange == old(broker.exchange)
    {
      var republished := broker.RepublishOnFailure(m, env.republishes);
      if !republished || !env.failWorks {
        return Rejected;
      }
      runs.Fail(m.runId, step, env.error + " (retry=dlq)", DISPATCH_BATCH_SEQ, env.now);
      settlement := Acked;
    }

    /** The gauge is where it was before the call, on every path. */
    method Process(m: Message, env: StepSurroundings) returns (settlement: Settlement)
      modifies this`handled, this`inFlight, runs, outbox, broker
      ensures inFlight == old(inFlight)
      ensures var fx := StepProcessed(old(runs.Slice(m.runId, step)), m, env);
        && runs.Slice(m.runId, step) == fx.rows
        && handled == old(handled) + (if fx.handled then [m] else [])
        && outbox.rows == old(outbox.rows) + Staged(Enveloped(m.runId, m.tenantId, fx.staged))
        && broker.deadLetters == old(broker.deadLetters) + (if fx.deadLettered then [Addressed(m)] else [])
        && settlement == fx.settlement
      ensures runs.OnlySlice(m.runId, step) && broker.exchange == old(broker.exchange)
    {
      assert Staged(Enveloped(m.runId, m.tenantId, [])) == [];
      var metricsStarted, metricsEnded := false, false;
      if env.startWorks {
        var outcome := runs.Start(m.runId, m.tenantId, step, m.attempt, DISPATCH_BATCH_SEQ, env.now);
        inFlight := inFlight + 1;
        metricsStarted := true;
        if outcome == AlreadyCompleted {
          metricsEnded := ConsumeEnd(metricsStarted, metricsEnded);
          return Acked;
        }
        if outcome == InProgress {
          metricsEnded := ConsumeEnd(metricsStarted, metricsEnded);
          var republished := broker.RepublishOnFailure(m, env.republishes);
          if !republished {
            metricsEnded := ConsumeEnd(metricsStarted, metricsEnded);
            return Rejected;
          }
          return Acked;
        }
        if env.tenantFound {
          var ok := RunTransaction(m, env);
          if ok {
            metricsEnded := ConsumeEnd(metricsStarted, metricsEnded);
            return Acked;
          }
          if env.outcome.LockedElsewhere? {
            metricsEnded := ConsumeEnd(metricsStarted, metricsEnded);
            return Rejected;
          }
        }
      }
      metricsEnded := ConsumeEnd(metricsStarted, metricsEnded);
      settlement := HandleFailure(m, env);
    }
  }

  // ----- what one delivery does -----

  /** All or nothing, as for batches: the work is committed exactly when this delivery completed the row, and
      only then is anything staged; an acked delivery is completed or dead-lettered; and a completed row stays
      completed unless start() itself failed and the failure was recorded over it. */
  lemma StepIsAllOrNothing(rows: PipelineRows.Rows, m: Message, env: StepSurroundings)
    ensures
      var fx := StepProcessed(rows, m, env);
      && (fx.handled <==> !IsCompleted(rows, DISPATCH_BATCH_SEQ) && IsCompleted(fx.rows, DISPATCH_BATCH_SEQ))
      && (fx.staged != [] ==> fx.handled && !m.standalone)
      && (fx.settlement == Acked ==> IsCompleted(fx.rows, DISPATCH_BATCH_SEQ) || fx.deadLettered)
      && (IsCompleted(rows, DISPATCH_BATCH_SEQ) ==>
            (IsCompleted(fx.rows, DISPATCH_BATCH_SEQ) <==> env.startWorks || !env.republishes || !env.failWorks))
  {
  }

  // ----- exactly when a delivery works, and what it leaves -----

  /** The work is committed exactly when start() grants the step, handle() returns and the transaction commits; its
      successors are then staged exactly when the message is not standalone. A step that another worker holds is
      rejected as it stands; a duplicate of a live delivery is only dead-lettered; every other failure is recorded. */
  lemma StepExactly(rows: PipelineRows.Rows, m: Message, env: StepSurroundings)
    ensures
      var fx := StepProcessed(rows, m, env);
      var skipped := env.startWorks && IsCompleted(rows, DISPATCH_BATCH_SEQ);
      var duplicate := env.startWorks && Live(rows, DISPATCH_BATCH_SEQ, env.now);
      var held := env.startWorks && !skipped && !duplicate && env.tenantFound && env.outcome.LockedElsewhere?;
      && (fx.handled <==>
            && env.startWorks && !skipped && !duplicate && env.tenantFound && env.outcome.Returns? && env.commits)
      && (if fx.handled && !m.standalone then env.outcome == Returns(fx.staged) else fx.staged == [])
      && (fx.deadLettered <==> !fx.handled && !skipped && !held && env.republishes)
      && (fx.settlement == Acked
          <==> fx.handled || skipped || (!held && env.republishes && (duplicate || env.failWorks)))
  {
  }

  /** Row 0 of the step ends completed, failed, freshly claimed or as it was: a duplicate in particular takes nothing
      away from the delivery that is at work. No other row is touched. */
  lemma StepLeavesExactly(rows: PipelineRows.Rows, m: Message, env: StepSurroundings)
    ensures
      var fx := StepProcessed(rows, m, env);
      var refused := env.startWorks && (IsCompleted(rows, 0) || Live(rows, 0, env.now));
      var held := env.tenantFound && env.outcome.LockedElsewhere?;
      var recorded := !fx.handled && !refused && !(env.startWorks && held) && env.republishes && env.failWorks;
      && OnlyRow(rows, fx.rows, 0)
      && (refused || (!env.startWorks && !recorded) ==> fx.rows == rows)
      && (env.startWorks && !refused ==>
            && 0 in fx.rows && fx.rows[0].startedAt == env.now
            && fx.rows[0].tenantId == m.tenantId && fx.rows[0].attempt == m.attempt
            && fx.rows[0].status == (if fx.handled then Completed else if recorded then Failed else Running)
            && fx.rows[0].finishedAt == (if fx.handled || recorded then Some(env.now) else None))
      && (recorded && 0 in fx.rows ==>
            fx.rows[0].status == Failed && fx.rows[0].error == Some(Truncate(env.error + " (retry=dlq)", 4000)))
  {
  }
}
