/** Exactly what one dispatch call sends and leaves, told from its inputs: how far an emission gets for any number of
    sends and checkpoint writes, what is on the wire or in the outbox, and how the call ends. */
module DispatchExact {
  import opened Options
  import opened PipelineRows
  import opened OutboxRows
  import opened Emission
  import opened Messages
  import opened OutboxRepo
  import opened BatchConsumer
  import opened DispatchConsumer

  // ----- how far an emission gets -----

  /** The checkpoint writes that the direct loop makes inside a list. */
  function DuesIn(seqs: seq<int>, checkpoint: int): nat {
    if seqs == [] then 0
    else (if checkpoint > 0 && seqs[0] % checkpoint == 0 then 1 else 0) + DuesIn(seqs[1..], checkpoint)
  }

  /** A direct emission of `left` stops at the first publish, or the first due or final checkpoint write, that there is
      no success left for. */
  ghost predicate DirectEnd(left: seq<int>, sent: nat, stop: Stop, checkpoint: int, sends: nat, checkpoints: nat) {
    && sent <= |left| && sent <= sends
    && match stop
       case Done => sent == |left| && checkpoints > DuesIn(left, checkpoint)
       case SendThrew => sent == sends < |left| && checkpoints >= DuesIn(left[..sent], checkpoint)
       case CheckpointThrew =>
         || (sent == |left| && checkpoints == DuesIn(left, checkpoint))
         || (sent > 0 && checkpoint > 0 && left[sent - 1] % checkpoint == 0
             && checkpoints + 1 == DuesIn(left[..sent], checkpoint))
       case ReadThrew => false
  }

  lemma {:induction false} DirectLoopEnds(rows: PipelineRows.Rows, seqs: seq<int>, i: nat, checkpoint: int, sends: nat,
                                          checkpoints: nat)
    requires i <= |seqs| && seqs != []
    ensures
      var e := DirectLoop(rows, seqs, i, checkpoint, sends, checkpoints);
      && e.sent >= i && DirectEnd(seqs[i..], e.sent - i, e.stop, checkpoint, sends, checkpoints)
      && (e.stop.Done? ==> e.rows == SetCheckpoint(rows, seqs[|seqs| - 1]))
    decreases |seqs| - i
  {
    if i < |seqs| && sends > 0 {
      var due := Due(seqs[i], checkpoint);
      var left := seqs[i..];
      assert left[1..] == seqs[i + 1..];
      if !due || checkpoints > 0 {
        var written := if due then SetCheckpoint(rows, seqs[i]) else rows;
        var more := if due then checkpoints - 1 else checkpoints;
        DirectLoopEnds(written, seqs, i + 1, checkpoint, sends - 1, more);
        var sent := DirectLoop(rows, seqs, i, checkpoint, sends, checkpoints).sent - i;
        assert left[..sent][1..] == seqs[i + 1..][..sent - 1];
      } else {
        assert left[..1][1..] == [] && left[..1][0] == seqs[i];
        assert DuesIn(left[..1][1..], checkpoint) == 0;
      }
    }
  }

  /** An outbox emission stops at the first chunk, or the first checkpoint of one, that there is no success left for. */
  ghost predicate ChunksEnd(left: nat, sent: nat, stop: Stop, sends: nat, checkpoints: nat) {
    match stop
    case Done => sent == left <= 1000 * sends && left <= 1000 * checkpoints
    case SendThrew => sent == 1000 * sends < left && sends <= checkpoints
    case CheckpointThrew =>
      && checkpoints < sends && 1000 * checkpoints < left
      && sent == if left < 1000 * (checkpoints + 1) then left else 1000 * (checkpoints + 1)
    case ReadThrew => false
  }

  lemma {:induction false} ChunkLoopEnds(rows: PipelineRows.Rows, seqs: seq<int>, i: nat, sends: nat, checkpoints: nat)
    requires i <= |seqs|
    ensures
      var e := ChunkLoop(rows, seqs, i, sends, checkpoints);
      e.sent >= i && ChunksEnd(|seqs| - i, e.sent - i, e.stop, sends, checkpoints)
    decreases |seqs| - i
  {
    if i < |seqs| && sends > 0 && checkpoints > 0 {
      var end := NextChunk(i, |seqs|);
      ChunkLoopEnds(SetCheckpoint(rows, MaxOf(seqs[i..end])), seqs, end, sends - 1, checkpoints - 1);
    }
  }

  /** How far an emission gets, and that what it sends is the head of the pending list. Nothing is sent when a read
      throws, and nothing is written when nothing is pending. */
  lemma EmissionExactly(rows: PipelineRows.Rows, batches: seq<Message>, settings: Settings, env: DispatchSurroundings)
    ensures
      var pending := Pending(batches, CheckpointOf(rows), CompletedSeqs(rows));
      var e, sent := EmissionOf(rows, batches, settings, env), SentBy(rows, batches, settings, env);
      && |sent| == e.sent && sent <= pending
      && (e.stop.ReadThrew? <==> !env.readsWork)
      && (!env.readsWork || pending == [] ==> e.sent == 0 && e.rows == rows)
      && (env.readsWork && pending == [] ==> e.stop.Done?)
      && (env.readsWork && pending != [] ==>
            if settings.viaOutbox then ChunksEnd(|pending|, e.sent, e.stop, env.sends, env.checkpoints)
            else DirectEnd(Seqs(pending), e.sent, e.stop, settings.checkpoint, env.sends, env.checkpoints))
  {
    var seqs := Seqs(Pending(batches, CheckpointOf(rows), CompletedSeqs(rows)));
    assert seqs[0..] == seqs;
    if env.readsWork && seqs != [] {
      if settings.viaOutbox {
        ChunkLoopEnds(rows, seqs, 0, env.sends, env.checkpoints);
      } else {
        DirectLoopEnds(rows, seqs, 0, settings.checkpoint, env.sends, env.checkpoints);
      }
    }
  }

  // ----- what is sent -----

  /** What is pending is the given list without the batches that are completed or behind the checkpoint: its messages
      unchanged, in their order. */
  lemma {:induction false} PendingMessages(batches: seq<Message>, from: int, done: set<int>)
    ensures forall b :: b in Pending(batches, from, done)
                        <==> b in batches && BatchSeqOf(b) > from && BatchSeqOf(b) !in done
    ensures multiset(Pending(batches, from, done)) <= multiset(batches)
  {
    if batches != [] {
      PendingMessages(batches[1..], from, done);
      assert batches == [batches[0]] + batches[1..];
    }
  }

  /** Every message on the exchange, and every row in the outbox, goes to its batch's own queue, carries the standalone
      flag of the dispatch message and is otherwise the handler's own; the rows are new and belong to the run and tenant
      of the dispatch message. */
  lemma SentExactly(m: Message, sent: seq<Message>)
    ensures |Wired(m, sent)| == |StagedBatches(m, sent)| == |sent|
    ensures forall i :: 0 <= i < |sent| ==>
              var wire, row := Wired(m, sent)[i], StagedBatches(m, sent)[i];
              && wire.message.standalone == m.standalone
              && wire.message.(standalone := sent[i].standalone) == sent[i]
              && wire.key == RoutingKey(sent[i]) == row.message.routingKey
              && row.message.message == wire.message
              && row.message.runId == m.runId && row.message.tenantId == m.tenantId
              && row.attempts == 0 && row.claimedAt.None? && row.publishedAt.None?
  {
  }

  // ----- the whole call -----

  /** The dispatch row as the call claims it, with the planned count of its list. */
  function Recorded(rows: PipelineRows.Rows, m: Message, env: DispatchSurroundings, planned: nat): PipelineRows.Rows {
    var claimed := WriteDispatch(rows, ReadDispatch(rows), m.tenantId, m.attempt, env.now);
    RecordPlannedCount(if claimed.Some? then claimed.value else rows, planned)
  }

  /** The call gets its list: it claims the row, and tenant, handle() and the transaction answer. */
  predicate Listed(rows: PipelineRows.Rows, env: DispatchSurroundings) {
    && env.startWorks && !IsCompleted(rows, DISPATCH_BATCH_SEQ)
    && env.tenantFound && env.batches.Some? && env.commits
  }

  /** The call closes an empty list in its transaction, or emits a list to its end and completes the row. */
  predicate ClosesEmpty(rows: PipelineRows.Rows, env: DispatchSurroundings) {
    Listed(rows, env) && env.batches.value == []
  }

  predicate Emits(rows: PipelineRows.Rows, env: DispatchSurroundings) {
    Listed(rows, env) && env.batches.value != [] && env.recordWorks
  }

  predicate Finishes(rows: PipelineRows.Rows, m: Message, settings: Settings, env: DispatchSurroundings) {
    && Emits(rows, env)
    && EmissionOf(Recorded(rows, m, env, |env.batches.value|), env.batches.value, settings, env).stop.Done?
    && env.completeWorks
  }

  /** How a dispatch call ends. It sends nothing before the planned count of a non-empty list is on record; it stages
      successors exactly when it closes an empty list for a message that is not standalone, and then all of them; it is
      dead-lettered exactly when it neither finished nor had nothing to do and the exchange takes it. */
  lemma DispatchExactly(rows: PipelineRows.Rows, m: Message, settings: Settings, env: DispatchSurroundings)
    ensures
      var fx := Dispatched(rows, m, settings, env);
      var skipped := env.startWorks && IsCompleted(rows, DISPATCH_BATCH_SEQ);
      var ends := skipped || ClosesEmpty(rows, env) || Finishes(rows, m, settings, env);
      && fx.sent == (if Emits(rows, env)
                     then SentBy(Recorded(rows, m, env, |env.batches.value|), env.batches.value, settings, env) else [])
      && fx.successors == (if ClosesEmpty(rows, env) && !m.standalone then env.emptySuccessors else [])
      && (fx.deadLettered <==> !ends && env.republishes)
      && (fx.settlement == Acked <==> ends || (env.republishes && env.failWorks))
  {
  }

  lemma EmissionTouchesCheckpoint(rows: PipelineRows.Rows, batches: seq<Message>, settings: Settings,
                                  env: DispatchSurroundings)
    ensures
      var after := EmissionOf(rows, batches, settings, env).rows;
      after == SetCheckpoint(rows, CheckpointOf(after))
  {
    var seqs := Seqs(Pending(batches, CheckpointOf(rows), CompletedSeqs(rows)));
    if env.readsWork && settings.viaOutbox {
      ChunkLoopTouches(rows, seqs, 0, env.sends, env.checkpoints);
    } else if env.readsWork && seqs != [] {
      DirectLoopTouches(rows, seqs, 0, settings.checkpoint, env.sends, env.checkpoints);
    }
  }

  lemma {:induction false} ChunkLoopTouches(rows: PipelineRows.Rows, seqs: seq<int>, i: nat, sends: nat,
                                            checkpoints: nat)
    requires i <= |seqs|
    ensures
      var after := ChunkLoop(rows, seqs, i, sends, checkpoints).rows;
      after == SetCheckpoint(rows, CheckpointOf(after))
    decreases |seqs| - i
  {
    if i < |seqs| && sends > 0 && checkpoints > 0 {
      var end := NextChunk(i, |seqs|);
      ChunkLoopTouches(SetCheckpoint(rows, MaxOf(seqs[i..end])), seqs, end, sends - 1, checkpoints - 1);
    }
  }

  lemma {:induction false} DirectLoopTouches(rows: PipelineRows.Rows, seqs: seq<int>, i: nat, checkpoint: int,
                                             sends: nat, checkpoints: nat)
    requires i <= |seqs| && seqs != []
    ensures
      var after := DirectLoop(rows, seqs, i, checkpoint, sends, checkpoints).rows;
      after == SetCheckpoint(rows, CheckpointOf(after))
    decreases |seqs| - i
  {
    if i < |seqs| && sends > 0 {
      if !Due(seqs[i], checkpoint) {
        DirectLoopTouches(rows, seqs, i + 1, checkpoint, sends - 1, checkpoints);
      } else if checkpoints > 0 {
        DirectLoopTouches(SetCheckpoint(rows, seqs[i]), seqs, i + 1, checkpoint, sends - 1, checkpoints - 1);
      }
    }
  }

  /** What a dispatch call leaves: only row 0 changes; it ends completed, failed with the error, or running from now;
      and its planned count is that of the list as soon as there is one on record. */
  lemma DispatchLeavesExactly(rows: PipelineRows.Rows, m: Message, settings: Settings, env: DispatchSurroundings)
    ensures
      var fx := Dispatched(rows, m, settings, env);
      var skipped := env.startWorks && IsCompleted(rows, DISPATCH_BATCH_SEQ);
      var ends := ClosesEmpty(rows, env) || Finishes(rows, m, settings, env);
      var recorded := !skipped && !ends && env.republishes && env.failWorks;
      && OnlyRow(rows, fx.rows, 0)
      && (skipped || (!env.startWorks && !recorded) ==> fx.rows == rows)
      && (env.startWorks && !skipped ==>
            && 0 in fx.rows && fx.rows[0].startedAt == env.now && fx.rows[0].attempt == m.attempt
            && fx.rows[0].status == (if ends then Completed else if recorded then Failed else Running)
            && fx.rows[0].finishedAt == (if ends || recorded then Some(env.now) else None)
            && fx.rows[0].done == (if 0 in rows then rows[0].done else 0)
            && fx.rows[0].planned == (if ClosesEmpty(rows, env) || Emits(rows, env) then Some(|env.batches.value|)
                                      else if 0 in rows then rows[0].planned else None)
            && (!Emits(rows, env) ==> fx.rows[0].lastPublished == CheckpointOf(rows)))
      && (recorded && 0 in fx.rows ==>
            fx.rows[0].status == Failed && fx.rows[0].error == Some(Truncate(env.error + " (retry=dlq)", 4000)))
  {
    if Emits(rows, env) {
      EmissionTouchesCheckpoint(Recorded(rows, m, env, |env.batches.value|), env.batches.value, settings, env);
    }
  }
}
