/** A dispatcher that fails once it has its batch list, wherever it fails, and is started again: what the two calls
    send together. */
module DispatchRestart {
  import opened Options
  import opened PipelineRows
  import opened Emission
  import opened Messages
  import opened BatchConsumer
  import opened DispatchConsumer

  /** Strictly ascending batchSeqs, as every dispatcher numbers its list. */
  ghost predicate InOrder(batches: seq<Message>) {
    forall i, j :: 0 <= i < j < |batches| ==> BatchSeqOf(batches[i]) < BatchSeqOf(batches[j])
  }

  lemma PendingInOrder(batches: seq<Message>, from: int, done: set<int>)
    requires InOrder(batches)
    ensures InOrder(Pending(batches, from, done))
  {
    var seqs := Seqs(batches);
    assert Ascending(seqs);
    PendingSeqs(batches, from, done);
    PendingExactly(seqs, from, done);
    var pending := Pending(batches, from, done);
    assert forall i :: 0 <= i < |pending| ==> BatchSeqOf(pending[i]) == Seqs(pending)[i];
  }

  // ----- where an emission leaves the checkpoint -----

  /** k sent seqs are behind the checkpoint, 0 if the checkpoint did not move. */
  ghost predicate CheckpointAt(rows: Rows, seqs: seq<int>, k: nat, after: Rows) {
    k <= |seqs| && after == if k == 0 then rows else SetCheckpoint(rows, seqs[k - 1])
  }

  /** The direct loop leaves no due seq unwritten, but for the one whose write threw. */
  ghost predicate NoneDue(seqs: seq<int>, k: nat, e: Emitted, checkpoint: int) {
    forall j :: k <= j < e.sent <= |seqs| && Due(seqs[j], checkpoint) ==> j == e.sent - 1 && e.stop.CheckpointThrew?
  }

  lemma {:induction false} DirectLoopCheckpoint(rows: Rows, seqs: seq<int>, i: nat, checkpoint: int, sends: nat,
                                                checkpoints: nat)
    returns (k: nat)
    requires i <= |seqs| && seqs != []
    ensures
      var e := DirectLoop(rows, seqs, i, checkpoint, sends, checkpoints);
      && i <= e.sent <= |seqs| && k <= e.sent && (k == 0 || i <= k)
      && CheckpointAt(rows, seqs, k, e.rows)
      && NoneDue(seqs, if k == 0 then i else k, e, checkpoint)
      && (e.stop.Done? ==> k == e.sent == |seqs|)
    decreases |seqs| - i
  {
    k := 0;
    if i == |seqs| {
      k := if checkpoints == 0 then 0 else i;
    } else if sends > 0 {
      if !Due(seqs[i], checkpoint) {
        k := DirectLoopCheckpoint(rows, seqs, i + 1, checkpoint, sends - 1, checkpoints);
      } else if checkpoints > 0 {
        k := DirectLoopCheckpoint(SetCheckpoint(rows, seqs[i]), seqs, i + 1, checkpoint, sends - 1, checkpoints - 1);
        k := if k == 0 then i + 1 else k;
      }
    }
  }

  lemma LastIsGreatest(seqs: seq<int>, i: nat, end: nat)
    requires Ascending(seqs) && i < end <= |seqs|
    ensures MaxOf(seqs[i..end]) == seqs[end - 1]
  {
    var slice := seqs[i..end];
    MaxIsGreatest(slice);
    assert slice[|slice| - 1] == seqs[end - 1] && slice[|slice| - 1] in slice;
    var j :| 0 <= j < |slice| && slice[j] == MaxOf(slice);
    assert slice[j] == seqs[i + j];
  }

  lemma {:induction false} ChunkLoopCheckpoint(rows: Rows, seqs: seq<int>, i: nat, sends: nat, checkpoints: nat)
    returns (k: nat)
    requires i <= |seqs| && Ascending(seqs)
    ensures
      var e := ChunkLoop(rows, seqs, i, sends, checkpoints);
      var behind := if k == 0 then i else k;
      && i <= e.sent <= |seqs| && (k == 0 || i < k)
      && CheckpointAt(rows, seqs, k, e.rows)
      && behind <= e.sent <= behind + OUTBOX_INSERT_CHUNK
      && (behind < e.sent ==> e.stop.CheckpointThrew?)
      && (e.stop.Done? ==> behind == e.sent == |seqs|)
    decreases |seqs| - i
  {
    k := 0;
    if i < |seqs| && sends > 0 && checkpoints > 0 {
      var end := NextChunk(i, |seqs|);
      LastIsGreatest(seqs, i, end);
      k := ChunkLoopCheckpoint(SetCheckpoint(rows, MaxOf(seqs[i..end])), seqs, end, sends - 1, checkpoints - 1);
      k := if k == 0 then end else k;
    }
  }

  /** How many of the sent batches are behind the checkpoint that an emission leaves: in outbox mode all of them,
      but for the one chunk whose checkpoint write threw; in direct mode all up to the last due one. */
  lemma EmissionCheckpoint(rows: Rows, batches: seq<Message>, settings: Settings, env: DispatchSurroundings)
    returns (k: nat)
    requires InOrder(batches)
    ensures
      var e, sent := EmissionOf(rows, batches, settings, env), SentBy(rows, batches, settings, env);
      && k <= |sent|
      && e.rows == (if k == 0 then rows else SetCheckpoint(rows, BatchSeqOf(sent[k - 1])))
      && (settings.viaOutbox ==> |sent| <= k + OUTBOX_INSERT_CHUNK && (k < |sent| ==> e.stop.CheckpointThrew?))
      && (!settings.viaOutbox ==> forall j :: k <= j < |sent| && Due(BatchSeqOf(sent[j]), settings.checkpoint) ==>
            j == |sent| - 1 && e.stop.CheckpointThrew?)
      && (e.stop.Done? ==> k == |sent| && sent == Pending(batches, CheckpointOf(rows), CompletedSeqs(rows)))
  {
    var pending := Pending(batches, CheckpointOf(rows), CompletedSeqs(rows));
    var seqs := Seqs(pending);
    PendingInOrder(batches, CheckpointOf(rows), CompletedSeqs(rows));
    k := 0;
    if env.readsWork {
      if settings.viaOutbox {
        k := ChunkLoopCheckpoint(rows, seqs, 0, env.sends, env.checkpoints);
      } else if seqs != [] {
        k := DirectLoopCheckpoint(rows, seqs, 0, settings.checkpoint, env.sends, env.checkpoints);
        var sent := SentBy(rows, batches, settings, env);
        assert forall j :: 0 <= j < |sent| ==> BatchSeqOf(sent[j]) == seqs[j];
      }
    }
  }

  // ----- what is pending after the checkpoint moved -----

  lemma {:induction false} PendingFrom(batches: seq<Message>, from: int, from': int, done: set<int>)
    requires forall b <- batches :: BatchSeqOf(b) > from && BatchSeqOf(b) > from'
    ensures Pending(batches, from, done) == Pending(batches, from', done)
  {
    if batches != [] {
      assert batches[0] in batches;
      PendingFrom(batches[1..], from, from', done);
    }
  }

  lemma InOrderTail(batches: seq<Message>)
    requires InOrder(batches) && batches != []
    ensures InOrder(batches[1..]) && forall x <- batches[1..] :: BatchSeqOf(batches[0]) < BatchSeqOf(x)
  {
  }

  /** A batch at or below the new checkpoint drops out, with everything before it. */
  lemma PendingDropsHead(batches: seq<Message>, q: int, done: set<int>)
    requires batches != [] && BatchSeqOf(batches[0]) <= q
    ensures Pending(batches, q, done) == Pending(batches[1..], q, done)
  {
  }

  /** Moving the checkpoint to the i-th pending seq drops exactly the first i pending batches. */
  lemma {:induction false} PendingAfterCheckpoint(batches: seq<Message>, from: int, done: set<int>, i: nat)
    requires InOrder(batches) && 0 < i <= |Pending(batches, from, done)|
    ensures Pending(batches, BatchSeqOf(Pending(batches, from, done)[i - 1]), done) == Pending(batches, from, done)[i..]
  {
    var rest := batches[1..];
    var later := Pending(rest, from, done);
    PendingUnfolds(batches, from, done);
    InOrderTail(batches);
    var j := i - (|Pending(batches, from, done)| - |later|);
    if j == 0 {
      PendingIsLater(rest, from, done);
      PendingFrom(rest, from, BatchSeqOf(batches[0]), done);
      PendingDropsHead(batches, BatchSeqOf(batches[0]), done);
    } else {
      HeadIsBelow(batches, from, done, j - 1);
      PendingAfterCheckpoint(rest, from, done, j);
      PendingDropsHead(batches, BatchSeqOf(later[j - 1]), done);
    }
  }

  /** The head of the list is pending, or the pending batches are those of the rest. */
  lemma PendingUnfolds(batches: seq<Message>, from: int, done: set<int>)
    requires batches != []
    ensures
      var pending, later := Pending(batches, from, done), Pending(batches[1..], from, done);
      || pending == later
      || (pending == [batches[0]] + later && |pending| == |later| + 1 && BatchSeqOf(batches[0]) > from)
  {
  }

  lemma HeadIsBelow(batches: seq<Message>, from: int, done: set<int>, k: nat)
    requires InOrder(batches) && batches != [] && k < |Pending(batches[1..], from, done)|
    ensures BatchSeqOf(batches[0]) < BatchSeqOf(Pending(batches[1..], from, done)[k])
  {
    InOrderTail(batches);
    PendingIsLater(batches[1..], from, done);
    assert Pending(batches[1..], from, done)[k] in Pending(batches[1..], from, done);
  }

  lemma {:induction false} PendingNoLonger(batches: seq<Message>, from: int, done: set<int>)
    ensures |Pending(batches, from, done)| <= |batches|
  {
    if batches != [] {
      PendingNoLonger(batches[1..], from, done);
    }
  }

  // ----- the dispatch row through a failure and a restart -----

  /** The rows a dispatcher emits from: claimed, with the planned count on record. */
  function Prepared(rows: Rows, m: Message, now: int, planned: nat): Rows
    requires !IsCompleted(rows, DISPATCH_BATCH_SEQ)
  {
    RecordPlannedCount(WriteDispatch(rows, ReadDispatch(rows), m.tenantId, m.attempt, now).value, planned)
  }

  /** Claiming the row keeps the checkpoint, the counter and the completed batches. */
  lemma PreparedKeepsProgress(rows: Rows, m: Message, now: int, planned: nat)
    requires !IsCompleted(rows, DISPATCH_BATCH_SEQ)
    ensures
      var prepared := Prepared(rows, m, now, planned);
      && DISPATCH_BATCH_SEQ in prepared && prepared[DISPATCH_BATCH_SEQ].status.Running?
      && prepared[DISPATCH_BATCH_SEQ].planned == Some(planned)
      && prepared[DISPATCH_BATCH_SEQ].done == (if DISPATCH_BATCH_SEQ in rows then rows[DISPATCH_BATCH_SEQ].done else 0)
      && CheckpointOf(prepared) == CheckpointOf(rows)
      && CompletedSeqs(prepared) == CompletedSeqs(rows)
  {
  }

  lemma FailureKeepsProgress(rows: Rows, sent: seq<Message>, env: DispatchSurroundings)
    requires DISPATCH_BATCH_SEQ in rows && !IsCompleted(rows, DISPATCH_BATCH_SEQ)
    ensures
      var after := DispatchFailure(rows, sent, env).rows;
      && DISPATCH_BATCH_SEQ in after && !IsCompleted(after, DISPATCH_BATCH_SEQ)
      && after[DISPATCH_BATCH_SEQ].done == rows[DISPATCH_BATCH_SEQ].done
      && CheckpointOf(after) == CheckpointOf(rows)
      && CompletedSeqs(after) == CompletedSeqs(rows)
  {
  }

  /** handle() returns a list and the call goes on to record and emit it. */
  predicate Reaches(env: DispatchSurroundings) {
    env.startWorks && env.tenantFound && env.commits && env.batches.Some? && env.batches.value != []
  }

  /** And nothing throws after that. */
  predicate Undisturbed(env: DispatchSurroundings) {
    && Reaches(env) && env.recordWorks && env.readsWork && env.completeWorks
    && |env.batches.value| <= env.sends && |env.batches.value| < env.checkpoints
  }

  lemma {:induction false} DirectLoopEnds(rows: Rows, seqs: seq<int>, i: nat, checkpoint: int, sends: nat,
                                          checkpoints: nat)
    requires i <= |seqs| && seqs != [] && |seqs| - i <= sends && |seqs| - i < checkpoints
    ensures DirectLoop(rows, seqs, i, checkpoint, sends, checkpoints).stop.Done?
    decreases |seqs| - i
  {
    if i < |seqs| {
      if !Due(seqs[i], checkpoint) {
        DirectLoopEnds(rows, seqs, i + 1, checkpoint, sends - 1, checkpoints);
      } else {
        DirectLoopEnds(SetCheckpoint(rows, seqs[i]), seqs, i + 1, checkpoint, sends - 1, checkpoints - 1);
      }
    }
  }

  lemma {:induction false} ChunkLoopEnds(rows: Rows, seqs: seq<int>, i: nat, sends: nat, checkpoints: nat)
    requires i <= |seqs| && |seqs| - i <= sends && |seqs| - i <= checkpoints
    ensures ChunkLoop(rows, seqs, i, sends, checkpoints).stop.Done?
    decreases |seqs| - i
  {
    if i < |seqs| {
      var end := NextChunk(i, |seqs|);
      ChunkLoopEnds(SetCheckpoint(rows, MaxOf(seqs[i..end])), seqs, end, sends - 1, checkpoints - 1);
    }
  }

  lemma UndisturbedEmission(rows: Rows, batches: seq<Message>, settings: Settings, env: DispatchSurroundings)
    requires env.readsWork && |batches| <= env.sends && |batches| < env.checkpoints
    ensures EmissionOf(rows, batches, settings, env).stop.Done?
  {
    PendingNoLonger(batches, CheckpointOf(rows), CompletedSeqs(rows));
    var seqs := Seqs(Pending(batches, CheckpointOf(rows), CompletedSeqs(rows)));
    if settings.viaOutbox {
      ChunkLoopEnds(rows, seqs, 0, env.sends, env.checkpoints);
    } else if seqs != [] {
      DirectLoopEnds(rows, seqs, 0, settings.checkpoint, env.sends, env.checkpoints);
    }
  }

  lemma DispatchedRecords(rows: Rows, m: Message, settings: Settings, env: DispatchSurroundings)
    requires !IsCompleted(rows, DISPATCH_BATCH_SEQ) && Reaches(env) && env.recordWorks
    ensures Dispatched(rows, m, settings, env)
         == FromRecord(Prepared(rows, m, env.now, |env.batches.value|), env.batches.value, settings, env)
  {
  }

  /** A call that nothing disturbs sends everything pending and completes the row. */
  lemma UndisturbedDispatch(rows: Rows, m: Message, settings: Settings, env: DispatchSurroundings)
    requires !IsCompleted(rows, DISPATCH_BATCH_SEQ) && Undisturbed(env) && InOrder(env.batches.value)
    ensures
      var fx := Dispatched(rows, m, settings, env);
      && fx.sent == Pending(env.batches.value, CheckpointOf(rows), CompletedSeqs(rows))
      && IsCompleted(fx.rows, DISPATCH_BATCH_SEQ)
      && fx.rows[DISPATCH_BATCH_SEQ].planned == Some(|env.batches.value|)
      && fx.rows[DISPATCH_BATCH_SEQ].done == (if DISPATCH_BATCH_SEQ in rows then rows[DISPATCH_BATCH_SEQ].done else 0)
  {
    var batches := env.batches.value;
    var prepared := Prepared(rows, m, env.now, |batches|);
    PreparedKeepsProgress(rows, m, env.now, |batches|);
    DispatchedRecords(rows, m, settings, env);
    UndisturbedEmission(prepared, batches, settings, env);
    var k := EmissionCheckpoint(prepared, batches, settings, env);
  }

  /** The overlap of two attempts: the second repeats only what the first sent past its checkpoint. */
  ghost predicate RepeatsOnly(first: seq<Message>, second: seq<Message>, all: seq<Message>, repeated: nat,
                              settings: Settings, checkpointThrew: bool)
  {
    && repeated <= |first| && repeated <= |second|
    && first + second[repeated..] == all
    && first[|first| - repeated..] == second[..repeated]
    && (settings.viaOutbox ==> repeated <= OUTBOX_INSERT_CHUNK && (repeated > 0 ==> checkpointThrew))
    && (!settings.viaOutbox ==> forall j :: 0 <= j < repeated - 1 ==> !Due(BatchSeqOf(second[j]), settings.checkpoint))
  }

  /** A failed dispatch resumes: if its first call fails anywhere after it has its list, and the second call, given the
      same list, is not disturbed, then the two send every pending batch in order. The second repeats at most one
      chunk in outbox mode, and none unless a checkpoint write threw; in direct mode only batches since the last
      due checkpoint. The counter survives, the planned count is the length of the list and the dispatch row ends
      completed. */
  lemma FailedDispatchResumes(rows: Rows, m: Message, settings: Settings, env: DispatchSurroundings,
                              env': DispatchSurroundings)
    returns (repeated: nat)
    requires !IsCompleted(rows, DISPATCH_BATCH_SEQ)
    requires Reaches(env) && Undisturbed(env') && env'.batches == env.batches && InOrder(env.batches.value)
    requires Dispatched(rows, m, settings, env).deadLettered
             || Dispatched(rows, m, settings, env).settlement == Rejected
    ensures
      var pending := Pending(env.batches.value, CheckpointOf(rows), CompletedSeqs(rows));
      var first := Dispatched(rows, m, settings, env);
      var second := Dispatched(first.rows, m, settings, env');
      && var e := EmissionOf(Prepared(rows, m, env.now, |env.batches.value|), env.batches.value, settings, env);
      && RepeatsOnly(first.sent, second.sent, pending, repeated, settings, e.stop.CheckpointThrew?)
      && IsCompleted(second.rows, DISPATCH_BATCH_SEQ)
      && second.rows[DISPATCH_BATCH_SEQ].planned == Some(|env.batches.value|)
      && second.rows[DISPATCH_BATCH_SEQ].done
         == (if DISPATCH_BATCH_SEQ in rows then rows[DISPATCH_BATCH_SEQ].done else 0)
  {
    var batches := env.batches.value;
    var pending := Pending(batches, CheckpointOf(rows), CompletedSeqs(rows));
    var first := Dispatched(rows, m, settings, env);
    var k := FirstCall(rows, m, settings, env);
    UndisturbedDispatch(first.rows, m, settings, env');
    var second := Dispatched(first.rows, m, settings, env');
    Overlap(first.sent, second.sent, pending, k);
    assert forall j :: 0 <= j < |first.sent| - k ==> second.sent[j] == first.sent[k + j];
    repeated := |first.sent| - k;
  }

  lemma Overlap(first: seq<Message>, second: seq<Message>, all: seq<Message>, k: nat)
    requires first <= all && k <= |first| && second == all[k..]
    ensures first + second[|first| - k..] == all
    ensures first[k..] == second[..|first| - k]
  {
  }

  /** What a first call leaves: it sent a prefix of the pending batches, and what is pending now is everything past
      its checkpoint. */
  ghost predicate LeavesPending(rows: Rows, m: Message, settings: Settings, env: DispatchSurroundings,
                                first: DispatchEffects, k: nat)
    requires !IsCompleted(rows, DISPATCH_BATCH_SEQ) && Reaches(env)
  {
    var pending := Pending(env.batches.value, CheckpointOf(rows), CompletedSeqs(rows));
    var e := EmissionOf(Prepared(rows, m, env.now, |env.batches.value|), env.batches.value, settings, env);
    && first.sent <= pending && k <= |first.sent|
    && (settings.viaOutbox ==>
        |first.sent| <= k + OUTBOX_INSERT_CHUNK && (k < |first.sent| ==> e.stop.CheckpointThrew?))
    && (!settings.viaOutbox ==> forall j :: k <= j < |first.sent| - 1 ==>
        !Due(BatchSeqOf(first.sent[j]), settings.checkpoint))
    && !IsCompleted(first.rows, DISPATCH_BATCH_SEQ) && DISPATCH_BATCH_SEQ in first.rows
    && first.rows[DISPATCH_BATCH_SEQ].done == (if DISPATCH_BATCH_SEQ in rows then rows[DISPATCH_BATCH_SEQ].done else 0)
    && Pending(env.batches.value, CheckpointOf(first.rows), CompletedSeqs(first.rows)) == pending[k..]
  }

  lemma FirstCall(rows: Rows, m: Message, settings: Settings, env: DispatchSurroundings) returns (k: nat)
    requires !IsCompleted(rows, DISPATCH_BATCH_SEQ) && Reaches(env) && InOrder(env.batches.value)
    requires Dispatched(rows, m, settings, env).deadLettered
             || Dispatched(rows, m, settings, env).settlement == Rejected
    ensures LeavesPending(rows, m, settings, env, Dispatched(rows, m, settings, env), k)
  {
    if env.recordWorks {
      k := FailedAfterRecord(rows, m, settings, env);
    } else {
      k := 0;
      FailedAtRecord(rows, m, settings, env);
    }
  }

  lemma FailedAtRecord(rows: Rows, m: Message, settings: Settings, env: DispatchSurroundings)
    requires !IsCompleted(rows, DISPATCH_BATCH_SEQ) && Reaches(env) && !env.recordWorks
    ensures LeavesPending(rows, m, settings, env, Dispatched(rows, m, settings, env), 0)
  {
    var started := WriteDispatch(rows, ReadDispatch(rows), m.tenantId, m.attempt, env.now).value;
    StartedKeepsProgress(rows, m, env.now);
    FailureKeepsProgress(started, [], env);
  }

  lemma StartedKeepsProgress(rows: Rows, m: Message, now: int)
    requires !IsCompleted(rows, DISPATCH_BATCH_SEQ)
    ensures
      var started := WriteDispatch(rows, ReadDispatch(rows), m.tenantId, m.attempt, now).value;
      && DISPATCH_BATCH_SEQ in started && !IsCompleted(started, DISPATCH_BATCH_SEQ)
      && started[DISPATCH_BATCH_SEQ].done == (if DISPATCH_BATCH_SEQ in rows then rows[DISPATCH_BATCH_SEQ].done else 0)
      && CheckpointOf(started) == CheckpointOf(rows) && CompletedSeqs(started) == CompletedSeqs(rows)
  {
  }

  lemma FailedAfterRecord(rows: Rows, m: Message, settings: Settings, env: DispatchSurroundings) returns (k: nat)
    requires !IsCompleted(rows, DISPATCH_BATCH_SEQ) && Reaches(env) && env.recordWorks && InOrder(env.batches.value)
    requires Dispatched(rows, m, settings, env).deadLettered
             || Dispatched(rows, m, settings, env).settlement == Rejected
    ensures LeavesPending(rows, m, settings, env, Dispatched(rows, m, settings, env), k)
  {
    var batches := env.batches.value;
    var prepared := Prepared(rows, m, env.now, |batches|);
    PreparedKeepsProgress(rows, m, env.now, |batches|);
    DispatchedRecords(rows, m, settings, env);
    k := EmissionCheckpoint(prepared, batches, settings, env);
    var e, sent := EmissionOf(prepared, batches, settings, env), SentBy(prepared, batches, settings, env);
    CheckpointKeepsProgress(prepared, if k == 0 then CheckpointOf(prepared) else BatchSeqOf(sent[k - 1]));
    FailureKeepsProgress(e.rows, sent, env);
    if k > 0 {
      PendingAfterCheckpoint(batches, CheckpointOf(rows), CompletedSeqs(rows), k);
    }
  }

  lemma CheckpointKeepsProgress(rows: Rows, q: int)
    requires DISPATCH_BATCH_SEQ in rows
    ensures
      var after := SetCheckpoint(rows, q);
      && DISPATCH_BATCH_SEQ in after && after[DISPATCH_BATCH_SEQ] == rows[DISPATCH_BATCH_SEQ].(lastPublished := q)
      && CheckpointOf(after) == q && CompletedSeqs(after) == CompletedSeqs(rows)
  {
  }
}
