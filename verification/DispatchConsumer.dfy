/** `process` and `emitBatches` of a dispatch consumer: claim the dispatch row, compute the batch list, record
    its length, emit what is neither completed nor behind the checkpoint, and complete the row. What handle(),
    the database and the broker answer is a parameter of the call. */
module DispatchConsumer {
  import opened Options
  import opened PipelineRows
  import opened OutboxRows
  import opened Emission
  import opened Messages
  import opened RunService
  import opened OutboxRepo
  import opened BatchConsumer

  datatype Settings = Settings(checkpoint: int, viaOutbox: bool)

  /** `handle()` returns a batch list and the successors of an empty one, or throws. `sends` and `checkpoints`: how
      many publishes (or outbox inserts) and how many checkpoint writes succeed before one throws; every other
      statement has its own flag. */
  datatype DispatchSurroundings = DispatchSurroundings(
    now: int, startWorks: bool, tenantFound: bool, batches: Option<seq<Message>>, emptySuccessors: seq<Message>,
    commits: bool, recordWorks: bool, readsWork: bool, sends: nat, checkpoints: nat, completeWorks: bool,
    republishes: bool, failWorks: bool, error: string)

  // ----- emission, as a function of the rows -----

  function Seqs(batches: seq<Message>): seq<int> {
    seq(|batches|, i requires 0 <= i < |batches| => BatchSeqOf(batches[i]))
  }

  function Pending(batches: seq<Message>, from: int, done: set<int>): seq<Message> {
    if batches == [] then []
    else (if BatchSeqOf(batches[0]) > from && BatchSeqOf(batches[0]) !in done then [batches[0]] else [])
         + Pending(batches[1..], from, done)
  }

  lemma {:induction false} PendingSeqs(batches: seq<Message>, from: int, done: set<int>)
    ensures Seqs(Pending(batches, from, done)) == PendingOf(Seqs(batches), from, done)
  {
    if batches != [] {
      PendingSeqs(batches[1..], from, done);
      assert Seqs(batches)[1..] == Seqs(batches[1..]);
      assert Seqs(batches)[0] == BatchSeqOf(batches[0]);
    }
  }

  lemma PendingIsLater(batches: seq<Message>, from: int, done: set<int>)
    ensures forall b <- Pending(batches, from, done) :: BatchSeqOf(b) > from && BatchSeqOf(b) !in done && b in batches
  {
  }

  function Stamped(batches: seq<Message>, standalone: bool): seq<Message> {
    seq(|batches|, i requires 0 <= i < |batches| => batches[i].(standalone := standalone))
  }

  predicate Due(q: int, checkpoint: int) {
    checkpoint > 0 && q % checkpoint == 0
  }

  datatype Stop = Done | ReadThrew | SendThrew | CheckpointThrew

  /** How an emission ended: the rows it left, the length of the prefix it sent, and what stopped it. */
  datatype Emitted = Emitted(rows: PipelineRows.Rows, sent: nat, stop: Stop)

  /** The direct loop from its i-th batch on, with its last checkpoint write. */
  function DirectLoop(rows: PipelineRows.Rows, seqs: seq<int>, i: nat, checkpoint: int, sends: nat,
                      checkpoints: nat): Emitted
    requires i <= |seqs| && seqs != []
    decreases |seqs| - i
  {
    if i == |seqs| then
      if checkpoints == 0 then Emitted(rows, i, CheckpointThrew) else Emitted(SetCheckpoint(rows, seqs[i - 1]), i, Done)
    else if sends == 0 then Emitted(rows, i, SendThrew)
    else if !Due(seqs[i], checkpoint) then DirectLoop(rows, seqs, i + 1, checkpoint, sends - 1, checkpoints)
    else if checkpoints == 0 then Emitted(rows, i + 1, CheckpointThrew)
    else DirectLoop(SetCheckpoint(rows, seqs[i]), seqs, i + 1, checkpoint, sends - 1, checkpoints - 1)
  }

  /** The outbox loop from its i-th batch on: a chunk, then the checkpoint of its greatest seq. */
  function ChunkLoop(rows: PipelineRows.Rows, seqs: seq<int>, i: nat, sends: nat, checkpoints: nat): Emitted
    requires i <= |seqs|
    decreases |seqs| - i
  {
    if i == |seqs| then Emitted(rows, i, Done)
    else if sends == 0 then Emitted(rows, i, SendThrew)
    else
      var end := NextChunk(i, |seqs|);
      if checkpoints == 0 then Emitted(rows, end, CheckpointThrew)
      else ChunkLoop(SetCheckpoint(rows, MaxOf(seqs[i..end])), seqs, end, sends - 1, checkpoints - 1)
  }

  function LoopOf(rows: PipelineRows.Rows, seqs: seq<int>, settings: Settings, sends: nat, checkpoints: nat): Emitted {
    if settings.viaOutbox then ChunkLoop(rows, seqs, 0, sends, checkpoints)
    else if seqs == [] then Emitted(rows, 0, Done)
    else DirectLoop(rows, seqs, 0, settings.checkpoint, sends, checkpoints)
  }

  lemma {:induction false} DirectLoopSends(rows: PipelineRows.Rows, seqs: seq<int>, i: nat, checkpoint: int, sends: nat,
                                           checkpoints: nat)
    requires i <= |seqs| && seqs != []
    ensures i <= DirectLoop(rows, seqs, i, checkpoint, sends, checkpoints).sent <= |seqs|
    decreases |seqs| - i
  {
    if i < |seqs| && sends > 0 {
      if !Due(seqs[i], checkpoint) {
        DirectLoopSends(rows, seqs, i + 1, checkpoint, sends - 1, checkpoints);
      } else if checkpoints > 0 {
        DirectLoopSends(SetCheckpoint(rows, seqs[i]), seqs, i + 1, checkpoint, sends - 1, checkpoints - 1);
      }
    }
  }

  lemma {:induction false} ChunkLoopSends(rows: PipelineRows.Rows, seqs: seq<int>, i: nat, sends: nat, checkpoints: nat)
    requires i <= |seqs|
    ensures i <= ChunkLoop(rows, seqs, i, sends, checkpoints).sent <= |seqs|
    decreases |seqs| - i
  {
    if i < |seqs| && sends > 0 && checkpoints > 0 {
      var end := NextChunk(i, |seqs|);
      ChunkLoopSends(SetCheckpoint(rows, MaxOf(seqs[i..end])), seqs, end, sends - 1, checkpoints - 1);
    }
  }

  function EmissionOf(rows: PipelineRows.Rows, batches: seq<Message>, settings: Settings,
                      env: DispatchSurroundings): (e: Emitted)
    ensures e.sent <= |Pending(batches, CheckpointOf(rows), CompletedSeqs(rows))|
  {
    if !env.readsWork then Emitted(rows, 0, ReadThrew)
    else
      var seqs := Seqs(Pending(batches, CheckpointOf(rows), CompletedSeqs(rows)));
      ChunkLoopSends(rows, seqs, 0, env.sends, env.checkpoints);
      if seqs != [] then
        DirectLoopSends(rows, seqs, 0, settings.checkpoint, env.sends, env.checkpoints);
        LoopOf(rows, seqs, settings, env.sends, env.checkpoints)
      else LoopOf(rows, seqs, settings, env.sends, env.checkpoints)
  }

  /** The messages an emission sent. */
  function SentBy(rows: PipelineRows.Rows, batches: seq<Message>, settings: Settings,
                  env: DispatchSurroundings): seq<Message> {
    Pending(batches, CheckpointOf(rows), CompletedSeqs(rows))[..EmissionOf(rows, batches, settings, env).sent]
  }

  // ----- the whole call -----

  datatype DispatchEffects = DispatchEffects(
    rows: PipelineRows.Rows, sent: seq<Message>, successors: seq<Message>, deadLettered: bool, settlement: Settlement)

  function DispatchFailure(rows: PipelineRows.Rows, sent: seq<Message>, env: DispatchSurroundings): DispatchEffects {
    if env.republishes && env.failWorks
    then DispatchEffects(FailRow(rows, DISPATCH_BATCH_SEQ, RetryText(env.error), env.now), sent, [], true, Acked)
    else DispatchEffects(rows, sent, [], env.republishes, Rejected)
  }

  /** Emission and completion, once the planned count is on record. */
  function FromRecord(rows: PipelineRows.Rows, batches: seq<Message>, settings: Settings,
                      env: DispatchSurroundings): DispatchEffects {
    var e := EmissionOf(rows, batches, settings, env);
    var sent := SentBy(rows, batches, settings, env);
    if !e.stop.Done? || !env.completeWorks then DispatchFailure(e.rows, sent, env)
    else DispatchEffects(CompleteRow(e.rows, DISPATCH_BATCH_SEQ, env.now), sent, [], false, Acked)
  }

  /** The call from the claimed dispatch row on. */
  function FromClaim(started: PipelineRows.Rows, m: Message, settings: Settings,
                     env: DispatchSurroundings): DispatchEffects {
    if !env.tenantFound || env.batches.None? || !env.commits then DispatchFailure(started, [], env)
    else if env.batches.value == [] then
      DispatchEffects(CompleteRow(RecordPlannedCount(started, 0), DISPATCH_BATCH_SEQ, env.now), [],
                      if m.standalone then [] else env.emptySuccessors, false, Acked)
    else FromList(started, env.batches.value, settings, env)
  }

  /** Record, emit and complete. */
  function FromList(started: PipelineRows.Rows, batches: seq<Message>, settings: Settings,
                    env: DispatchSurroundings): DispatchEffects {
    if !env.recordWorks then DispatchFailure(started, [], env)
    else FromRecord(RecordPlannedCount(started, |batches|), batches, settings, env)
  }

  function Dispatched(rows: PipelineRows.Rows, m: Message, settings: Settings,
                      env: DispatchSurroundings): DispatchEffects {
    if !env.startWorks then DispatchFailure(rows, [], env)
    else if ReadDispatch(rows).DispatchDone? then DispatchEffects(rows, [], [], false, Acked)
    else FromClaim(WriteDispatch(rows, ReadDispatch(rows), m.tenantId, m.attempt, env.now).value, m, settings, env)
  }

  /** The outbox rows of a list of batch messages. */
  function StagedBatches(m: Message, batches: seq<Message>): OutboxRepo.Rows {
    Staged(Enveloped(m.runId, m.tenantId, Stamped(batches, m.standalone)))
  }

  lemma NothingStaged(m: Message, entries: OutboxRepo.Rows, pending: seq<Message>)
    ensures entries + StagedBatches(m, pending[..0]) == entries
  {
    assert StagedBatches(m, pending[..0]) == [];
  }

  lemma StagedInChunks(m: Message, entries: OutboxRepo.Rows, pending: seq<Message>, i: nat, end: nat)
    requires i <= end <= |pending|
    ensures entries + StagedBatches(m, pending[..i]) + StagedBatches(m, pending[i..end])
            == entries + StagedBatches(m, pending[..end])
  {
    assert StagedBatches(m, pending[..i]) + StagedBatches(m, pending[i..end]) == StagedBatches(m, pending[..end]);
  }

  /** The messages on the exchange of a list of batch messages. */
  function Wired(m: Message, batches: seq<Message>): seq<Routed> {
    AllAddressed(Stamped(batches, m.standalone))
  }

  lemma WiredOneMore(m: Message, entries: seq<Routed>, pending: seq<Message>, i: nat)
    requires i < |pending|
    ensures entries + Wired(m, pending[..i]) + [Addressed(pending[i].(standalone := m.standalone))]
         == entries + Wired(m, pending[..i + 1])
  {
    assert Wired(m, pending[..i + 1]) == Wired(m, pending[..i]) + [Addressed(pending[i].(standalone := m.standalone))];
  }

  lemma NothingSent(m: Message)
    ensures Wired(m, []) == [] && StagedBatches(m, []) == []
    ensures Staged(Enveloped(m.runId, m.tenantId, [])) == []
  {
  }

  class DispatchPipelineConsumer {
    const logicalStep: string
    const settings: Settings
    const runs: PipelineRunService
    const outbox: OutboxRepository
    const broker: Broker

    constructor (logicalStep: string, settings: Settings, runs: PipelineRunService, outbox: OutboxRepository,
                 broker: Broker)
      ensures this.logicalStep == logicalStep && this.settings == settings
      ensures this.runs == runs && this.outbox == outbox && this.broker == broker
    {
      this.logicalStep, this.settings, this.runs, this.outbox, this.broker :=
          logicalStep, settings, runs, outbox, broker;
    }

    /** One insert. */
    method StageChunk(m: Message, pending: seq<Message>, i: nat, end: nat, ghost entries: OutboxRepo.Rows)
      requires i <= end <= |pending| && outbox.rows == entries + StagedBatches(m, pending[..i])
      modifies outbox
      ensures outbox.rows == entries + StagedBatches(m, pending[..end])
    {
      StagedInChunks(m, entries, pending, i, end);
      outbox.InsertBatchMessages(m.runId, m.tenantId, Stamped(pending[i..end], m.standalone));
    }

    /** One checkpoint write, of the greatest seq of the chunk. */
    method CheckpointChunk(m: Message, pending: seq<Message>, i: nat, end: nat)
      requires i < end <= |pending|
      modifies runs
      ensures runs.Slice(m.runId, logicalStep)
              == SetCheckpoint(old(runs.Slice(m.runId, logicalStep)), MaxOf(Seqs(pending)[i..end]))
      ensures runs.OnlySlice(m.runId, logicalStep)
    {
      assert Seqs(pending)[i..end] == Seqs(pending[i..end]);
      runs.UpdateLastPublishedBatchSeq(m.runId, logicalStep, MaxOf(Seqs(pending[i..end])));
    }

    /** A chunk and its checkpoint; `false` when the checkpoint write throws. */
    method ChunkTurn(m: Message, pending: seq<Message>, i: nat, end: nat, sends: nat, checkpoints: nat,
                     ghost entries: OutboxRepo.Rows, ghost rows: PipelineRows.Rows, ghost goal: Emitted)
      returns (ok: bool)
      requires i < |pending| && end == NextChunk(i, |pending|) && sends > 0
      requires outbox.rows == entries + StagedBatches(m, pending[..i]) && runs.Slice(m.runId, logicalStep) == rows
      requires goal == ChunkLoop(rows, Seqs(pending), i, sends, checkpoints)
      modifies runs, outbox
      ensures ok == (checkpoints > 0)
      ensures outbox.rows == entries + StagedBatches(m, pending[..end])
      ensures ok ==> goal == ChunkLoop(runs.Slice(m.runId, logicalStep), Seqs(pending), end, sends - 1, checkpoints - 1)
      ensures !ok ==> goal == Emitted(runs.Slice(m.runId, logicalStep), end, CheckpointThrew)
      ensures runs.OnlySlice(m.runId, logicalStep)
    {
      StageChunk(m, pending, i, end, entries);
      ok := checkpoints > 0;
      if ok {
        CheckpointChunk(m, pending, i, end);
      }
    }

    /** Stages the pending batches chunk by chunk, each chunk followed by its checkpoint. */
    method StageChunks(m: Message, pending: seq<Message>, sends: nat, checkpoints: nat, ghost goal: Emitted)
      returns (emitted: Option<nat>)
      requires goal == ChunkLoop(runs.Slice(m.runId, logicalStep), Seqs(pending), 0, sends, checkpoints)
      modifies runs, outbox
      ensures goal.sent <= |pending| && emitted == (if goal.stop.Done? then Some(goal.sent) else None)
      ensures runs.Slice(m.runId, logicalStep) == goal.rows
      ensures outbox.rows == old(outbox.rows) + StagedBatches(m, pending[..goal.sent])
      ensures runs.OnlySlice(m.runId, logicalStep)
    {
      ghost var entries := outbox.rows;
      var count, i, sendsLeft, checkpointsLeft := 0, 0, sends, checkpoints;
      NothingStaged(m, entries, pending);
      while i < |pending|
        invariant count == i <= |pending|
        invariant outbox.rows == entries + StagedBatches(m, pending[..i])
        invariant goal == ChunkLoop(runs.Slice(m.runId, logicalStep), Seqs(pending), i, sendsLeft, checkpointsLeft)
        invariant runs.OnlySlice(m.runId, logicalStep)
        decreases |pending| - i
      {
        if sendsLeft == 0 {
          return None;
        }
        var end := NextChunk(i, |pending|);
        var ok := ChunkTurn(m, pending, i, end, sendsLeft, checkpointsLeft, entries, runs.Slice(m.runId, logicalStep),
                            goal);
        if !ok {
          return None;
        }
        count := count + |pending[i..end]|;
        i, sendsLeft, checkpointsLeft := end, sendsLeft - 1, checkpointsLeft - 1;
      }
      emitted := Some(count);
    }

    /** Publishes the pending batches one by one; every `checkpoint`-th seq is written down, and the last one. */
    method PublishEach(m: Message, pending: seq<Message>, from: int, sends: nat, checkpoints: nat)
      returns (emitted: Option<nat>)
      requires |pending| > 0 && BatchSeqOf(pending[|pending| - 1]) > from
      modifies runs, broker
      ensures var e := DirectLoop(old(runs.Slice(m.runId, logicalStep)), Seqs(pending), 0, settings.checkpoint, sends,
                                  checkpoints);
        && e.sent <= |pending|
        && emitted == (if e.stop.Done? then Some(e.sent) else None)
        && runs.Slice(m.runId, logicalStep) == e.rows
        && broker.exchange == old(broker.exchange) + Wired(m, pending[..e.sent])
      ensures runs.OnlySlice(m.runId, logicalStep) && broker.deadLetters == old(broker.deadLetters)
    {
      ghost var goal := DirectLoop(runs.Slice(m.runId, logicalStep), Seqs(pending), 0, settings.checkpoint, sends,
                                   checkpoints);
      var sendsLeft, checkpointsLeft := sends, checkpoints;
      NothingSent(m);
      assert pending[..0] == [];
      var count := 0;
      for i := 0 to |pending|
        invariant count == i
        invariant broker.exchange == old(broker.exchange) + Wired(m, pending[..i])
        invariant broker.deadLetters == old(broker.deadLetters)
        invariant goal == DirectLoop(runs.Slice(m.runId, logicalStep), Seqs(pending), i, settings.checkpoint, sendsLeft,
                                     checkpointsLeft)
        invariant runs.OnlySlice(m.runId, logicalStep)
      {
        var q := BatchSeqOf(pending[i]);
        var batch := pending[i].(standalone := m.standalone);
        WiredOneMore(m, old(broker.exchange), pending, i);
        var ok := broker.Publish(batch.tenantId + "." + QueueOf(batch), batch, sendsLeft > 0);
        if !ok {
          return None;
        }
        count, sendsLeft := count + 1, sendsLeft - 1;
        if settings.checkpoint > 0 && q % settings.checkpoint == 0 {
          if checkpointsLeft == 0 {
            return None;
          }
          runs.UpdateLastPublishedBatchSeq(m.runId, logicalStep, q);
          checkpointsLeft := checkpointsLeft - 1;
        }
      }
      var lastSeq := BatchSeqOf(pending[|pending| - 1]);
      if lastSeq > from {
        if checkpointsLeft == 0 {
          return None;
        }
        runs.UpdateLastPublishedBatchSeq(m.runId, logicalStep, lastSeq);
      }
      emitted := Some(count);
    }

    method EmitBatches(m: Message, batches: seq<Message>, env: DispatchSurroundings) returns (emitted: Option<nat>)
      modifies runs, outbox, broker
      ensures
        var rows := old(runs.Slice(m.runId, logicalStep));
        var e, sent := EmissionOf(rows, batches, settings, env), SentBy(rows, batches, settings, env);
        && emitted == (if e.stop.Done? then Some(e.sent) else None)
        && runs.Slice(m.runId, logicalStep) == e.rows
        && broker.exchange == old(broker.exchange) + (if settings.viaOutbox then [] else Wired(m, sent))
        && outbox.rows == old(outbox.rows) + (if settings.viaOutbox then StagedBatches(m, sent) else [])
      ensures runs.OnlySlice(m.runId, logicalStep) && broker.deadLetters == old(broker.deadLetters)
    {
      NothingSent(m);
      if !env.readsWork {
        return None;
      }
      var done := runs.CompletedBatchSeqs(m.runId, logicalStep);
      var from := runs.LastPublishedBatchSeq(m.runId, logicalStep);
      var pending := Pending(batches, from, done);
      if |pending| == 0 {
        return Some(0);
      }
      if settings.viaOutbox {
        emitted := StageChunks(m, pending, env.sends, env.checkpoints,
                               ChunkLoop(runs.Slice(m.runId, logicalStep), Seqs(pending), 0, env.sends,
                                         env.checkpoints));
        return;
      }
      PendingIsLater(batches, from, done);
      emitted := PublishEach(m, pending, from, env.sends, env.checkpoints);
    }

    /** The rows, the queues and the answer are those of `fx`, on top of what was queued before. */
    ghost predicate Shows(m: Message, fx: DispatchEffects, settlement: Settlement, exchange: seq<Routed>,
                          entries: OutboxRepo.Rows, deadLetters: seq<Routed>)
      reads runs, outbox, broker
    {
      && runs.Slice(m.runId, logicalStep) == fx.rows
      && broker.exchange == exchange + (if settings.viaOutbox then [] else Wired(m, fx.sent))
      && outbox.rows == entries + (if settings.viaOutbox then StagedBatches(m, fx.sent) else [])
                        + Staged(Enveloped(m.runId, m.tenantId, fx.successors))
      && broker.deadLetters == deadLetters + (if fx.deadLettered then [Addressed(m)] else [])
      && settlement == fx.settlement
    }

    /** The catch block. */
    method HandleFailure(m: Message, env: DispatchSurroundings) returns (settlement: Settlement)
      modifies runs, broker
      ensures var fx := DispatchFailure(old(runs.Slice(m.runId, logicalStep)), [], env);
        && runs.Slice(m.runId, logicalStep) == fx.rows
        && broker.deadLetters == old(broker.deadLetters) + (if fx.deadLettered then [Addressed(m)] else [])
        && settlement == fx.settlement
      ensures runs.OnlySlice(m.runId, logicalStep) && broker.exchange == old(broker.exchange)
    {
      var republished := broker.RepublishOnFailure(m, env.republishes);
      if !republished || !env.failWorks {
        return Rejected;
      }
      runs.Fail(m.runId, logicalStep, env.error + " (retry=dlq)", DISPATCH_BATCH_SEQ, env.now);
      settlement := Acked;
    }

    /** The failure path of a call that has sent nothing. */
    method GiveUp(m: Message, env: DispatchSurroundings) returns (settlement: Settlement)
      modifies runs, outbox, broker
      ensures Shows(m, DispatchFailure(old(runs.Slice(m.runId, logicalStep)), [], env), settlement,
                    old(broker.exchange), old(outbox.rows), old(broker.deadLetters))
      ensures runs.OnlySlice(m.runId, logicalStep)
    {
      NothingSent(m);
      settlement := HandleFailure(m, env);
    }

    /** The transaction around an empty list: recorded, completed and staged together. */
    method CloseEmpty(m: Message, env: DispatchSurroundings)
      modifies runs, outbox
      ensures runs.Slice(m.runId, logicalStep)
           == CompleteRow(RecordPlannedCount(old(runs.Slice(m.runId, logicalStep)), 0), DISPATCH_BATCH_SEQ, env.now)
      ensures outbox.rows == old(outbox.rows)
                             + Staged(Enveloped(m.runId, m.tenantId, if m.standalone then [] else env.emptySuccessors))
      ensures runs.OnlySlice(m.runId, logicalStep)
    {
      runs.RecordDispatch(m.runId, logicalStep, 0);
      runs.Complete(m.runId, logicalStep, DISPATCH_BATCH_SEQ, env.now);
      outbox.InsertMany(m.runId, m.tenantId, if m.standalone then [] else env.emptySuccessors);
    }

    /** Emit and complete; a throw on the way takes the catch block. */
    method RunRecorded(m: Message, batches: seq<Message>, env: DispatchSurroundings) returns (settlement: Settlement)
      modifies runs, outbox, broker
      ensures Shows(m, FromRecord(old(runs.Slice(m.runId, logicalStep)), batches, settings, env), settlement,
                    old(broker.exchange), old(outbox.rows), old(broker.deadLetters))
      ensures runs.OnlySlice(m.runId, logicalStep)
    {
      NothingSent(m);
      var published := EmitBatches(m, batches, env);
      if published.Some? && env.completeWorks {
        runs.Complete(m.runId, logicalStep, DISPATCH_BATCH_SEQ, env.now);
        return Acked;
      }
      settlement := HandleFailure(m, env);
    }

    method RunList(m: Message, batches: seq<Message>, env: DispatchSurroundings) returns (settlement: Settlement)
      modifies runs, outbox, broker
      ensures Shows(m, FromList(old(runs.Slice(m.runId, logicalStep)), batches, settings, env), settlement,
                    old(broker.exchange), old(outbox.rows), old(broker.deadLetters))
      ensures runs.OnlySlice(m.runId, logicalStep)
    {
      if !env.recordWorks {
        settlement := GiveUp(m, env);
        return;
      }
      runs.RecordDispatch(m.runId, logicalStep, |batches|);
      settlement := RunRecorded(m, batches, env);
    }

    /** The call from the claimed dispatch row on. */
    method RunClaimed(m: Message, env: DispatchSurroundings) returns (settlement: Settlement)
      modifies runs, outbox, broker
      ensures Shows(m, FromClaim(old(runs.Slice(m.runId, logicalStep)), m, settings, env), settlement,
                    old(broker.exchange), old(outbox.rows), old(broker.deadLetters))
      ensures runs.OnlySlice(m.runId, logicalStep)
    {
      NothingSent(m);
      if env.tenantFound && env.batches.Some? && env.commits {
        var batches := env.batches.value;
        if |batches| == 0 {
          CloseEmpty(m, env);
          return Acked;
        }
        settlement := RunList(m, batches, env);
        return;
      }
      settlement := GiveUp(m, env);
    }

    method Process(m: Message, env: DispatchSurroundings) returns (settlement: Settlement)
      modifies runs, outbox, broker
      ensures Shows(m, Dispatched(old(runs.Slice(m.runId, logicalStep)), m, settings, env), settlement,
                    old(broker.exchange), old(outbox.rows), old(broker.deadLetters))
      ensures runs.OnlySlice(m.runId, logicalStep)
    {
      NothingSent(m);
      if !env.startWorks {
        settlement := HandleFailure(m, env);
        return;
      }
      var outcome := runs.StartOrRestartDispatch(m.runId, m.tenantId, logicalStep, m.attempt, env.now);
      if outcome == AlreadyCompleted {
        return Acked;
      }
      settlement := RunClaimed(m, env);
    }
  }
}
