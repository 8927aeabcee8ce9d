/** The run service over the whole `core.pipeline_run` table. Each method is one call without interference;
    what it does to the rows of its own (run, step) is a function of `PipelineRows`, and it touches no other. */
module RunService {
  import opened Options
  import opened PipelineRows

  datatype Key = Key(runId: string, step: string, batchSeq: int)

  type Table = map<Key, Row>

  /** The rows of one (run, step). */
  ghost function SliceOf(table: Table, runId: string, step: string): Rows {
    map q | q in (set k | k in table && k.runId == runId && k.step == step :: k.batchSeq) :: table[Key(runId, step, q)]
  }

  lemma SliceAt(table: Table, runId: string, step: string, q: int)
    ensures q in SliceOf(table, runId, step) <==> Key(runId, step, q) in table
    ensures q in SliceOf(table, runId, step) ==> SliceOf(table, runId, step)[q] == table[Key(runId, step, q)]
  {
    if Key(runId, step, q) in table {
      assert Key(runId, step, q).batchSeq == q;
    }
  }

  /** Writing one row changes its slice at that seq, and no other slice. */
  lemma SliceAfterWrite(table: Table, key: Key, row: Row)
    ensures SliceOf(table[key := row], key.runId, key.step) == SliceOf(table, key.runId, key.step)[key.batchSeq := row]
    ensures forall r, t :: (r, t) != (key.runId, key.step) ==> SliceOf(table[key := row], r, t) == SliceOf(table, r, t)
  {
    forall r, t
      ensures (r, t) != (key.runId, key.step) ==> SliceOf(table[key := row], r, t) == SliceOf(table, r, t)
    {
      OneSliceAfterWrite(table, key, row, r, t);
    }
    OneSliceAfterWrite(table, key, row, key.runId, key.step);
  }

  lemma OneSliceAfterWrite(table: Table, key: Key, row: Row, runId: string, step: string)
    ensures SliceOf(table[key := row], runId, step)
         == if (runId, step) == (key.runId, key.step) then SliceOf(table, runId, step)[key.batchSeq := row]
            else SliceOf(table, runId, step)
  {
    forall q
      ensures q in SliceOf(table[key := row], runId, step) <==> Key(runId, step, q) in table[key := row]
      ensures q in SliceOf(table, runId, step) <==> Key(runId, step, q) in table
    {
      SliceAt(table[key := row], runId, step, q);
      SliceAt(table, runId, step, q);
    }
  }

  datatype StartOutcome = Started | AlreadyCompleted | InProgress

  function OutcomeOf(seen: StartRead): StartOutcome {
    match seen
    case SeenCompleted => AlreadyCompleted
    case SeenActive => InProgress
    case _ => Started
  }

  class PipelineRunService {
    var table: Table

    constructor ()
      ensures table == map[]
    {
      table := map[];
    }

    ghost function Slice(runId: string, step: string): Rows
      reads this
    {
      SliceOf(table, runId, step)
    }

    /** No other (run, step) is touched. */
    twostate predicate OnlySlice(runId: string, step: string)
      reads this
    {
      forall r, t :: (r, t) != (runId, step) ==> Slice(r, t) == old(Slice(r, t))
    }

    method Write(key: Key, row: Row)
      modifies this
      ensures Slice(key.runId, key.step) == old(Slice(key.runId, key.step))[key.batchSeq := row]
      ensures OnlySlice(key.runId, key.step)
    {
      SliceAfterWrite(table, key, row);
      table := table[key := row];
    }

    method Start(runId: string, tenantId: string, step: string, attempt: int, batchSeq: int, now: int)
      returns (outcome: StartOutcome)
      modifies this
      ensures outcome == OutcomeOf(ReadStart(old(Slice(runId, step)), batchSeq, now))
      ensures WriteStart(old(Slice(runId, step)), ReadStart(old(Slice(runId, step)), batchSeq, now),
                         batchSeq, tenantId, attempt, now) == Some(Slice(runId, step))
      ensures OnlySlice(runId, step)
    {
      var key := Key(runId, step, batchSeq);
      SliceAt(table, runId, step, batchSeq);
      if key in table {
        var existing := table[key];
        if existing.status.Completed? {
          return AlreadyCompleted;
        }
        if existing.status.Running? && now - existing.startedAt < ACTIVE_BATCH_LOCK_MS {
          return InProgress;
        }
        Write(key, existing.(tenantId := tenantId, attempt := attempt, status := Running,
                             startedAt := now, finishedAt := None, error := None));
        return Started;
      }
      Write(key, Row(tenantId, attempt, Running, now, None, None, None, 0, 0));
      outcome := Started;
    }

    method Complete(runId: string, step: string, batchSeq: int, now: int)
      modifies this
      ensures Slice(runId, step) == CompleteRow(old(Slice(runId, step)), batchSeq, now)
      ensures OnlySlice(runId, step)
    {
      var key := Key(runId, step, batchSeq);
      SliceAt(table, runId, step, batchSeq);
      if key in table {
        Write(key, table[key].(status := Completed, finishedAt := Some(now)));
      }
    }

    method Fail(runId: string, step: string, error: string, batchSeq: int, now: int)
      modifies this
      ensures Slice(runId, step) == FailRow(old(Slice(runId, step)), batchSeq, error, now)
      ensures OnlySlice(runId, step)
    {
      var key := Key(runId, step, batchSeq);
      SliceAt(table, runId, step, batchSeq);
      if key in table {
        var text := if |error| <= MAX_ERROR_LENGTH then error else error[..MAX_ERROR_LENGTH];
        Write(key, table[key].(status := Failed, finishedAt := Some(now), error := Some(text)));
      }
    }

    method RecordDispatch(runId: string, step: string, planned: nat)
      modifies this
      ensures Slice(runId, step) == RecordPlannedCount(old(Slice(runId, step)), planned)
      ensures OnlySlice(runId, step)
    {
      var key := Key(runId, step, DISPATCH_BATCH_SEQ);
      SliceAt(table, runId, step, DISPATCH_BATCH_SEQ);
      if key in table {
        Write(key, table[key].(planned := Some(planned)));
      }
    }

    method StartOrRestartDispatch(runId: string, tenantId: string, step: string, attempt: int, now: int)
      returns (outcome: StartOutcome)
      modifies this
      ensures outcome == if ReadDispatch(old(Slice(runId, step))).DispatchDone? then AlreadyCompleted else Started
      ensures WriteDispatch(old(Slice(runId, step)), ReadDispatch(old(Slice(runId, step))), tenantId, attempt, now)
           == Some(Slice(runId, step))
      ensures OnlySlice(runId, step)
    {
      var key := Key(runId, step, DISPATCH_BATCH_SEQ);
      SliceAt(table, runId, step, DISPATCH_BATCH_SEQ);
      if key in table {
        var existing := table[key];
        if existing.status.Completed? {
          return AlreadyCompleted;
        }
        Write(key, existing.(status := Running, attempt := attempt, startedAt := now, finishedAt := None,
                             error := None));
      } else {
        Write(key, Row(tenantId, attempt, Running, now, None, None, None, 0, 0));
      }
      outcome := Started;
    }

    method CompletedBatchSeqs(runId: string, step: string) returns (seqs: set<int>)
      ensures seqs == CompletedSeqs(Slice(runId, step))
    {
      var found := set k | k in table && k.runId == runId && k.step == step && table[k].status.Completed? :: k.batchSeq;
      seqs := set q | q in found && q > DISPATCH_BATCH_SEQ;
      forall q ensures q in seqs <==> q in CompletedSeqs(Slice(runId, step)) {
        SliceAt(table, runId, step, q);
        assert Key(runId, step, q).batchSeq == q;
      }
    }

    method LastPublishedBatchSeq(runId: string, step: string) returns (batchSeq: int)
      ensures batchSeq == CheckpointOf(Slice(runId, step))
    {
      var key := Key(runId, step, DISPATCH_BATCH_SEQ);
      SliceAt(table, runId, step, DISPATCH_BATCH_SEQ);
      batchSeq := if key in table then table[key].lastPublished else 0;
    }

    method UpdateLastPublishedBatchSeq(runId: string, step: string, batchSeq: int)
      modifies this
      ensures Slice(runId, step) == SetCheckpoint(old(Slice(runId, step)), batchSeq)
      ensures OnlySlice(runId, step)
    {
      var key := Key(runId, step, DISPATCH_BATCH_SEQ);
      SliceAt(table, runId, step, DISPATCH_BATCH_SEQ);
      if key in table {
        Write(key, table[key].(lastPublished := batchSeq));
      }
    }

    method IsBatchCompleted(runId: string, step: string, batchSeq: int) returns (completed: bool)
      ensures completed == IsCompleted(Slice(runId, step), batchSeq)
    {
      var key := Key(runId, step, batchSeq);
      SliceAt(table, runId, step, batchSeq);
      completed := key in table && table[key].status.Completed?;
    }

    /** One statement with two updates: the batch row first, then the counter by the number of rows that the
        first one changed. With no dispatch row it throws (`None`) after the first update; its caller's
        transaction rolls that back. */
    method CompleteBatchAndIncrement(runId: string, step: string, batchSeq: int, now: int)
      returns (r: Option<BatchIncrement>)
      requires batchSeq != DISPATCH_BATCH_SEQ
      modifies this
      ensures r.Some? <==> DISPATCH_BATCH_SEQ in old(Slice(runId, step))
      ensures r.Some? ==> Slice(runId, step) == CompleteAndIncrement(old(Slice(runId, step)), batchSeq, now)
      ensures r.Some? ==> DISPATCH_BATCH_SEQ in Slice(runId, step) && r.value == Increment(Slice(runId, step))
      ensures r.None? && Transitions(old(Slice(runId, step)), batchSeq) ==>
                Slice(runId, step) == CompleteRow(old(Slice(runId, step)), batchSeq, now)
      ensures r.None? && !Transitions(old(Slice(runId, step)), batchSeq) ==>
              Slice(runId, step) == old(Slice(runId, step))
      ensures OnlySlice(runId, step)
    {
      var key := Key(runId, step, batchSeq);
      var dispatchKey := Key(runId, step, DISPATCH_BATCH_SEQ);
      SliceAt(table, runId, step, batchSeq);
      SliceAt(table, runId, step, DISPATCH_BATCH_SEQ);
      var batchDone := 0;
      if key in table && table[key].status.Running? {
        Write(key, table[key].(status := Completed, finishedAt := Some(now)));
        batchDone := 1;
      }
      SliceAt(table, runId, step, DISPATCH_BATCH_SEQ);
      if dispatchKey !in table {
        return None;
      }
      ghost var between := Slice(runId, step);
      Write(dispatchKey, table[dispatchKey].(done := table[dispatchKey].done + batchDone));
      SliceAt(table, runId, step, DISPATCH_BATCH_SEQ);
      assert batchDone == 0 ==> Slice(runId, step) == between;
      var row := table[dispatchKey];
      var planned := match row.planned case Some(n) => n case None => 0;
      r := Some(BatchIncrement(row.done, planned, planned > 0 && row.done >= planned));
    }
  }
}
