/** What every run of the fan-in protocol keeps, with no assumption on leases, on the atomicity of `start`
    or on how long a handler takes. */
module FanInSafety {
  import opened Options
  import opened PipelineRows
  import opened OutboxRows
  import opened Emission
  import opened FanIn

  // ----- the invariant -----

  ghost predicate PlannedKnown(c: Config, s: State) {
    DISPATCH_BATCH_SEQ in s.rows && s.rows[DISPATCH_BATCH_SEQ].planned == Some(c.planned)
  }

  ghost predicate AllEmittedUpTo(s: State, limit: int) {
    forall q :: 1 <= q <= limit ==> q in s.hist.emitted
  }

  ghost predicate EmittedOk(c: Config, s: State) {
    && (forall q <- s.hist.emitted :: 1 <= q <= c.planned)
    && (s.hist.emitted != {} ==> PlannedKnown(c, s))
  }

  ghost predicate DispatchRowOk(c: Config, s: State) {
    if DISPATCH_BATCH_SEQ in s.rows then
      var dispatch := s.rows[DISPATCH_BATCH_SEQ];
      && dispatch.done == |s.hist.transitions|
      && (dispatch.planned.Some? ==> dispatch.planned.value == c.planned)
      && AllEmittedUpTo(s, dispatch.lastPublished)
      && (dispatch.status.Completed? ==> AllEmittedUpTo(s, c.planned))
    else
      s.hist.transitions == multiset{}
  }

  /** A batch row's transitions are accounted for one by one: it is completed now, or was set back. */
  ghost predicate BatchRowsOk(s: State) {
    && (forall q :: q in s.rows && q != DISPATCH_BATCH_SEQ ==> q in s.hist.emitted)
    && (forall q :: q in s.hist.commits ==> q in s.hist.emitted)
    && (forall q :: q != DISPATCH_BATCH_SEQ ==>
          s.hist.transitions[q] == (if IsCompleted(s.rows, q) then 1 else 0) + s.hist.undone[q])
    && (forall q :: s.hist.transitions[q] <= s.hist.commits[q])
    && s.hist.undone[DISPATCH_BATCH_SEQ] == 0
  }

  ghost predicate DispatcherOk(c: Config, s: State, p: Dispatcher) {
    match p
    case DispatchStarting(seen) =>
      !seen.DispatchDone? && (seen.DispatchPresent? ==> DISPATCH_BATCH_SEQ in s.rows)
    case DispatchHandling => DISPATCH_BATCH_SEQ in s.rows
    case DispatchRecorded(completed, from) =>
      && PlannedKnown(c, s)
      && (completed.Some? ==> completed.value <= s.hist.emitted)
      && (from.Some? ==> AllEmittedUpTo(s, from.value))
    case DispatchEmitting(base, pending, next, due) =>
      && PlannedKnown(c, s)
      && next <= |pending|
      && Ascending(pending)
      && (forall j :: 0 <= j < |pending| ==> 1 <= pending[j] <= c.planned)
      && (forall q :: 1 <= q <= c.planned ==> q in s.hist.emitted || q in pending[next..])
      && (due.Some? ==> AllEmittedUpTo(s, due.value))
    case DispatchEmitted => PlannedKnown(c, s) && AllEmittedUpTo(s, c.planned)
    case DispatchFaulted => true
    case DispatchDeadLettered => true
  }

  ghost predicate DispatchersOk(c: Config, s: State) {
    forall d <- s.dispatchers :: DispatcherOk(c, s, s.dispatchers[d])
  }

  ghost predicate WorkerOk(s: State, p: Worker) {
    && p.batchSeq in s.hist.emitted
    && (p.phase == Starting(SeenCompleted) ==> p.batchSeq in s.hist.commits)
    && (p.phase == Starting(SeenStale) ==> p.batchSeq in s.rows)
  }

  ghost predicate WorkersOk(s: State) {
    forall w <- s.workers :: WorkerOk(s, s.workers[w])
  }

  ghost predicate MessagesOk(s: State) {
    && (forall q :: q in s.main || q in s.dlq || q in s.replaying ==> q in s.hist.emitted)
    && (forall i :: 0 <= i < |s.outbox| && s.outbox[i].message.BatchMessage? ==>
          s.outbox[i].message.batchSeq in s.hist.emitted)
  }

  ghost predicate OutboxOk(s: State) {
    && (forall i :: 0 <= i < |s.outbox| && s.outbox[i].publishedAt.Some? ==> i in s.hist.accepted)
    && (forall i :: i in s.claimed ==> i < |s.outbox|)
    && (forall i :: i in s.settled ==> i in s.hist.accepted)
    && (forall i :: i in s.hist.accepted ==> i < |s.outbox|)
  }

  /** A delivery this worker will still commit, or hand to the dead-letter queue, or give back. */
  predicate Carries(p: Worker) {
    p.held && (p.phase.Starting? || p.phase.Handling? || p.phase.Faulted? || p.phase.Duplicate?)
  }

  ghost predicate CarriedBy(s: State, w: nat, q: int) {
    w in s.workers && s.workers[w].batchSeq == q && Carries(s.workers[w])
  }

  ghost predicate StagedAt(s: State, i: nat, q: int) {
    i < |s.outbox| && s.outbox[i].message == BatchMessage(q) && i !in s.hist.accepted
  }

  /** A copy of batch q's message from which its work can still be done. */
  ghost predicate HasCopy(s: State, q: int) {
    || q in s.main
    || q in s.dlq
    || (exists w: nat :: CarriedBy(s, w, q))
    || (exists i: nat :: StagedAt(s, i, q))
  }

  ghost predicate Conserved(s: State) {
    forall q <- s.hist.emitted :: q in s.hist.commits || HasCopy(s, q)
  }

  /** A delivery of the dispatch message that its dispatcher has neither acked nor handed to the dead letters. */
  ghost predicate DispatchCarriedBy(s: State, d: nat) {
    d in s.mail.held && d in s.dispatchers && !s.dispatchers[d].DispatchDeadLettered?
  }

  ghost predicate HasDispatchCopy(s: State) {
    s.mail.queued > 0 || s.mail.dead > 0 || exists d: nat :: DispatchCarriedBy(s, d)
  }

  ghost predicate MailOk(c: Config, s: State) {
    && s.mail.held <= s.dispatchers.Keys
    && (IsCompleted(s.rows, DISPATCH_BATCH_SEQ) ==> s.hist.dispatched)
    && (s.hist.dispatched ==> AllEmittedUpTo(s, c.planned))
    && (s.hist.dispatched || HasDispatchCopy(s))
  }

  ghost predicate Safe(c: Config, s: State) {
    && EmittedOk(c, s)
    && DispatchRowOk(c, s)
    && BatchRowsOk(s)
    && DispatchersOk(c, s)
    && WorkersOk(s)
    && MessagesOk(s)
    && OutboxOk(s)
    && Conserved(s)
    && MailOk(c, s)
  }

  // ----- preservation, one component at a time -----

  lemma BeginDispatcherSafe(c: Config, s: State, d: nat, found: bool, next: State)
    requires Safe(c, s) && BeginDispatcher(s, d, found) == Some(next)
    ensures Safe(c, next)
  {
    OtherDispatchersOk(c, s, next, d);
    AddingKeepsCopies(s, next);
    BeginKeepsMail(c, s, d, found, next);
  }

  lemma BeginKeepsMail(c: Config, s: State, d: nat, found: bool, next: State)
    requires MailOk(c, s) && BeginDispatcher(s, d, found) == Some(next)
    ensures MailOk(c, next)
  {
    if !s.hist.dispatched {
      assert DispatchCarriedBy(next, d);
    }
  }

  /** A dispatcher touches no other delivery, and hands no copy away that it does not hold. */
  lemma DispatcherMail(c: Config, s: State, d: nat, act: DispatcherAction, next: State)
    requires d in s.dispatchers && DispatcherStep(c, s, d, s.dispatchers[d], act) == Some(next)
    ensures s.mail.held - {d} <= next.mail.held <= s.mail.held
    ensures d in next.mail.held ==> d in next.dispatchers
    ensures s.mail.queued <= next.mail.queued && s.mail.dead <= next.mail.dead
    ensures forall e :: e in s.dispatchers && e != d ==> e in next.dispatchers
    ensures s.mail.held <= s.dispatchers.Keys ==> next.mail.held <= next.dispatchers.Keys
  {
  }

  /** A dispatcher lets go of its delivery only after it completed the row or another copy is queued or dead. */
  lemma DispatcherKeepsMail(c: Config, s: State, d: nat, act: DispatcherAction, next: State)
    requires MailOk(c, s) && d in s.dispatchers && DispatcherOk(c, s, s.dispatchers[d])
    requires DispatcherStep(c, s, d, s.dispatchers[d], act) == Some(next) && DispatcherFrame(s, next, d)
    ensures MailOk(c, next)
  {
    DispatcherMail(c, s, d, act, next);
    if !next.hist.dispatched {
      if e: nat :| DispatchCarriedBy(s, e) && e != d {
        assert DispatchCarriedBy(next, e);
      } else if DispatchCarriedBy(s, d) {
        DispatcherKeepsOwnCopy(c, s, d, act, next);
      }
    }
  }

  lemma DispatcherKeepsOwnCopy(c: Config, s: State, d: nat, act: DispatcherAction, next: State)
    requires DispatchCarriedBy(s, d) && DispatcherStep(c, s, d, s.dispatchers[d], act) == Some(next)
    ensures next.hist.dispatched || DispatchCarriedBy(next, d) || next.mail.queued > 0 || next.mail.dead > 0
  {
  }

  /** Nothing that only adds to queues and outbox loses a copy. */
  lemma AddingKeepsCopies(s: State, next: State)
    requires Conserved(s) && next.hist == s.hist
    requires s.main <= next.main && s.dlq <= next.dlq && s.workers == next.workers && s.outbox <= next.outbox
    ensures Conserved(next)
  {
    forall q | q in next.hist.emitted && q !in next.hist.commits ensures HasCopy(next, q) {
      KeptCopy(s, next, q);
    }
  }

  /** What every dispatcher action leaves alone: batch rows, workers, dead letters, counter and history, the
      emitted seqs apart. */
  ghost predicate DispatcherFrame(s: State, next: State, d: nat) {
    && next == s.(rows := next.rows, dispatchers := next.dispatchers, main := next.main, mail := next.mail,
                  outbox := next.outbox,
                  hist := s.hist.(emitted := next.hist.emitted, dispatched := next.hist.dispatched))
    && s.hist.emitted <= next.hist.emitted
    && s.main <= next.main
    && s.outbox <= next.outbox
    && (forall q :: q != DISPATCH_BATCH_SEQ ==>
          (q in next.rows <==> q in s.rows) && (q in s.rows ==> next.rows[q] == s.rows[q]))
    && (DISPATCH_BATCH_SEQ in next.rows ==>
          next.rows[DISPATCH_BATCH_SEQ].done ==
          (if DISPATCH_BATCH_SEQ in s.rows then s.rows[DISPATCH_BATCH_SEQ].done else 0))
    && (DISPATCH_BATCH_SEQ in s.rows ==> DISPATCH_BATCH_SEQ in next.rows)
    && (forall e :: e in next.dispatchers && e != d ==> e in s.dispatchers && next.dispatchers[e] == s.dispatchers[e])
  }

  lemma DispatcherFrames(c: Config, s: State, d: nat, act: DispatcherAction, next: State)
    requires d in s.dispatchers && DispatcherStep(c, s, d, s.dispatchers[d], act) == Some(next)
    ensures DispatcherFrame(s, next, d)
  {
    if Leaves(act) {
      LeavingFrames(c, s, d, act, next);
    } else {
      StayingFrames(c, s, d, act, next);
    }
  }

  predicate Leaves(act: DispatcherAction) {
    act.FinishEmpty? || act.CompleteDispatch? || act.FailDispatch? || act.NackDispatch? || act.LoseDispatch?
        || act.CrashDispatcher?
  }

  lemma LeavingFrames(c: Config, s: State, d: nat, act: DispatcherAction, next: State)
    requires d in s.dispatchers && DispatcherStep(c, s, d, s.dispatchers[d], act) == Some(next) && Leaves(act)
    ensures DispatcherFrame(s, next, d)
  {
  }

  lemma StayingFrames(c: Config, s: State, d: nat, act: DispatcherAction, next: State)
    requires d in s.dispatchers && DispatcherStep(c, s, d, s.dispatchers[d], act) == Some(next) && !Leaves(act)
    ensures DispatcherFrame(s, next, d)
  {
  }

  lemma DispatcherStepSafe(c: Config, s: State, d: nat, act: DispatcherAction, next: State)
    requires Safe(c, s) && d in s.dispatchers
    requires DispatcherStep(c, s, d, s.dispatchers[d], act) == Some(next)
    ensures Safe(c, next)
  {
    DispatcherFrames(c, s, d, act, next);
    DispatcherEmits(c, s, d, act, next);
    DispatcherSends(c, s, d, act, next);
    DispatcherWritesItsRow(c, s, d, act, next);
    DispatcherKeepsCopies(c, s, d, act, next);
    DispatcherStaysOk(c, s, d, act, next);
    DispatcherKeepsMail(c, s, d, act, next);
    OtherDispatchersOk(c, s, next, d);
    FrameKeepsRows(c, s, next, d);
  }

  lemma FrameKeepsRows(c: Config, s: State, next: State, d: nat)
    requires DispatcherFrame(s, next, d) && BatchRowsOk(s) && WorkersOk(s)
    ensures BatchRowsOk(next) && WorkersOk(next)
  {
  }

  /** Only seqs of the batch list are emitted, and only once the planned count is on record. */
  lemma DispatcherEmits(c: Config, s: State, d: nat, act: DispatcherAction, next: State)
    requires EmittedOk(c, s) && d in s.dispatchers && DispatcherOk(c, s, s.dispatchers[d])
    requires DispatcherStep(c, s, d, s.dispatchers[d], act) == Some(next)
    ensures PlannedKnown(c, s) ==> PlannedKnown(c, next)
    ensures EmittedOk(c, next)
  {
    if act.StageChunk? {
      var p := s.dispatchers[d];
      var slice := p.pending[p.next..NextChunk(p.next, |p.pending|)];
      assert forall i :: 0 <= i < |slice| ==> slice[i] == p.pending[p.next + i];
    }
  }

  lemma DispatcherSends(c: Config, s: State, d: nat, act: DispatcherAction, next: State)
    requires MessagesOk(s) && OutboxOk(s) && d in s.dispatchers
    requires DispatcherStep(c, s, d, s.dispatchers[d], act) == Some(next)
    ensures MessagesOk(next) && OutboxOk(next)
  {
    if act.FinishEmpty? {
      StagingSends(s, next, Successors(act.successors));
    } else if act.PublishNext? {
      PublishingSends(s, next, s.dispatchers[d].pending[s.dispatchers[d].next]);
    } else if act.StageChunk? {
      var slice := s.dispatchers[d].pending[s.dispatchers[d].next..next.dispatchers[d].next];
      assert forall i :: 0 <= i < |slice| ==> slice[i] in slice;
      StagingSends(s, next, BatchMessages(slice));
    } else {
      OthersSendNothing(c, s, d, act, next);
      SendingNothing(s, next);
    }
  }

  lemma OthersSendNothing(c: Config, s: State, d: nat, act: DispatcherAction, next: State)
    requires d in s.dispatchers && DispatcherStep(c, s, d, s.dispatchers[d], act) == Some(next)
    requires !act.FinishEmpty? && !act.PublishNext? && !act.StageChunk?
    ensures next.main == s.main && next.dlq == s.dlq && next.replaying == s.replaying && next.outbox == s.outbox
    ensures next.claimed == s.claimed && next.settled == s.settled
    ensures next.hist.accepted == s.hist.accepted && next.hist.emitted == s.hist.emitted
  {
  }

  lemma SendingNothing(s: State, next: State)
    requires MessagesOk(s) && OutboxOk(s)
    requires next.main == s.main && next.dlq == s.dlq && next.replaying == s.replaying && next.outbox == s.outbox
    requires next.claimed == s.claimed && next.settled == s.settled
    requires next.hist.accepted == s.hist.accepted && next.hist.emitted == s.hist.emitted
    ensures MessagesOk(next) && OutboxOk(next)
  {
  }

  lemma PublishingSends(s: State, next: State, q: int)
    requires MessagesOk(s) && OutboxOk(s)
    requires next.main == s.main + multiset{q} && next.dlq == s.dlq && next.replaying == s.replaying
    requires next.outbox == s.outbox && next.claimed == s.claimed && next.settled == s.settled
    requires next.hist.accepted == s.hist.accepted && next.hist.emitted == s.hist.emitted + {q}
    ensures MessagesOk(next) && OutboxOk(next)
  {
  }

  /** Staging messages of emitted batches. */
  lemma StagingSends(s: State, next: State, messages: seq<OutboxMessage>)
    requires MessagesOk(s) && OutboxOk(s)
    requires next.main == s.main && next.dlq == s.dlq && next.replaying == s.replaying
    requires next.outbox == s.outbox + Staged(messages) && next.claimed == s.claimed && next.settled == s.settled
    requires next.hist.accepted == s.hist.accepted && s.hist.emitted <= next.hist.emitted
    requires forall i :: 0 <= i < |messages| && messages[i].BatchMessage? ==> messages[i].batchSeq in next.hist.emitted
    ensures MessagesOk(next) && OutboxOk(next)
  {
    var staged := Staged(messages);
    assert forall i :: 0 <= i < |staged| ==> staged[i].message == messages[i] && staged[i].publishedAt.None?;
  }

  /** The dispatch row keeps its counter; its checkpoint and its completion are backed by emissions. */
  lemma DispatcherWritesItsRow(c: Config, s: State, d: nat, act: DispatcherAction, next: State)
    requires DispatchRowOk(c, s) && d in s.dispatchers && DispatcherOk(c, s, s.dispatchers[d])
    requires DispatcherStep(c, s, d, s.dispatchers[d], act) == Some(next)
    ensures DispatchRowOk(c, next)
  {
    if act.FinishEmission? {
      assert s.dispatchers[d].pending[s.dispatchers[d].next..] == [];
      assert AllEmittedUpTo(s, c.planned);
    }
  }

  /** A dispatcher's own next state is justified by what it emitted. */
  lemma DispatcherStaysOk(c: Config, s: State, d: nat, act: DispatcherAction, next: State)
    requires d in s.dispatchers && DispatcherOk(c, s, s.dispatchers[d]) && BatchRowsOk(s) && DispatchRowOk(c, s)
    requires DispatcherStep(c, s, d, s.dispatchers[d], act) == Some(next)
    ensures d in next.dispatchers ==> DispatcherOk(c, next, next.dispatchers[d])
  {
    match act
    case PlanEmission => PlanCovers(c, s, d, next);
    case PublishNext => PublishCovers(c, s, d, next);
    case StageChunk => StageCovers(c, s, d, next);
    case _ =>
  }

  lemma PlanCovers(c: Config, s: State, d: nat, next: State)
    requires d in s.dispatchers && DispatcherOk(c, s, s.dispatchers[d])
    requires DispatcherStep(c, s, d, s.dispatchers[d], PlanEmission) == Some(next)
    ensures DispatcherOk(c, next, next.dispatchers[d])
  {
    var p := s.dispatchers[d];
    PendingExactly(Numbered(c.planned), p.from.value, p.completed.value);
    forall q | 1 <= q <= c.planned ensures q in Numbered(c.planned) {
      assert Numbered(c.planned)[q - 1] == q;
    }
    var pending := next.dispatchers[d].pending;
    assert forall j :: 0 <= j < |pending| ==> pending[j] in pending;
  }

  lemma PublishCovers(c: Config, s: State, d: nat, next: State)
    requires d in s.dispatchers && DispatcherOk(c, s, s.dispatchers[d])
    requires DispatcherStep(c, s, d, s.dispatchers[d], PublishNext) == Some(next)
    ensures DispatcherOk(c, next, next.dispatchers[d])
  {
    var p := s.dispatchers[d];
    var v := p.pending[p.next];
    assert p.pending[p.next..] == [v] + p.pending[p.next + 1..];
    assert forall j :: p.next < j < |p.pending| ==> v < p.pending[j];
    forall q | 1 <= q <= v ensures q in next.hist.emitted {
      assert q in s.hist.emitted || q in p.pending[p.next..];
    }
  }

  lemma StageCovers(c: Config, s: State, d: nat, next: State)
    requires d in s.dispatchers && DispatcherOk(c, s, s.dispatchers[d])
    requires DispatcherStep(c, s, d, s.dispatchers[d], StageChunk) == Some(next)
    ensures DispatcherOk(c, next, next.dispatchers[d])
  {
    var p := s.dispatchers[d];
    var n := NextChunk(p.next, |p.pending|);
    var slice := p.pending[p.next..n];
    assert p.pending[p.next..] == slice + p.pending[n..];
    var v := MaxOf(slice);
    MaxIsGreatest(slice);
    assert v in p.pending[p.next..];
    var i :| 0 <= i < |slice| && slice[i] == v;
    assert p.pending[p.next + i] == v;
    assert forall j :: n <= j < |p.pending| ==> v < p.pending[j];
    var rest := p.pending[n..];
    forall q | 1 <= q <= v ensures q in next.hist.emitted {
      assert q in s.hist.emitted || q in slice || q in rest;
    }
  }

  /** The facts about the other dispatchers only grow. */
  lemma OtherDispatchersOk(c: Config, s: State, next: State, d: nat)
    requires DispatchersOk(c, s)
    requires s.hist.emitted <= next.hist.emitted
    requires PlannedKnown(c, s) ==> PlannedKnown(c, next)
    requires DISPATCH_BATCH_SEQ in s.rows ==> DISPATCH_BATCH_SEQ in next.rows
    requires forall e :: e in next.dispatchers && e != d ==>
             e in s.dispatchers && next.dispatchers[e] == s.dispatchers[e]
    requires d in next.dispatchers && next.dispatchers != s.dispatchers ==> DispatcherOk(c, next, next.dispatchers[d])
    ensures DispatchersOk(c, next)
  {
  }

  lemma DispatcherKeepsCopies(c: Config, s: State, d: nat, act: DispatcherAction, next: State)
    requires Conserved(s) && OutboxOk(s) && d in s.dispatchers && DispatcherFrame(s, next, d)
    requires DispatcherStep(c, s, d, s.dispatchers[d], act) == Some(next)
    ensures Conserved(next)
  {
    forall q | q in next.hist.emitted && q !in next.hist.commits
      ensures HasCopy(next, q)
    {
      if q in s.hist.emitted {
        KeptCopy(s, next, q);
      } else if act.StageChunk? {
        var p := s.dispatchers[d];
        StagedCopy(s, next, p.pending[p.next..NextChunk(p.next, |p.pending|)], q);
      }
    }
  }

  lemma StagedCopy(s: State, next: State, slice: seq<int>, q: int)
    requires OutboxOk(s) && q in slice
    requires next.outbox == s.outbox + Staged(BatchMessages(slice)) && next.hist.accepted == s.hist.accepted
    ensures HasCopy(next, q)
  {
    var k :| 0 <= k < |slice| && slice[k] == q;
    assert StagedAt(next, |s.outbox| + k, q);
  }

  lemma KeptCopy(s: State, next: State, q: int)
    requires HasCopy(s, q)
    requires s.main <= next.main && s.dlq <= next.dlq && s.workers == next.workers
    requires s.outbox <= next.outbox && s.hist.accepted == next.hist.accepted
    ensures HasCopy(next, q)
  {
    if w: nat :| CarriedBy(s, w, q) {
      assert CarriedBy(next, w, q);
    } else if i: nat :| StagedAt(s, i, q) {
      assert StagedAt(next, i, q);
    }
  }

  // ----- batch workers -----

  /** What every worker action leaves alone. */
  ghost predicate WorkerFrame(s: State, next: State, w: nat) {
    && next == s.(rows := next.rows, workers := next.workers, main := next.main, dlq := next.dlq,
                  outbox := next.outbox, hist := next.hist)
    && next.hist == s.hist.(commits := next.hist.commits, transitions := next.hist.transitions,
                            undone := next.hist.undone, fires := next.hist.fires)
    && s.outbox <= next.outbox
    && s.hist.commits <= next.hist.commits
    && (forall q :: q in s.rows ==> q in next.rows)
    && OtherWorkersSame(s, next, w)
  }

  ghost predicate OtherWorkersSame(s: State, next: State, w: nat) {
    && (forall v :: v in next.workers && v != w ==> v in s.workers && next.workers[v] == s.workers[v])
    && (forall v :: v in s.workers && v != w ==> v in next.workers)
  }

  predicate WritesRows(act: WorkerAction) {
    act.WriteStartRow? || act.CommitBatch? || act.FailBatch?
  }

  lemma WorkerFrames(c: Config, s: State, w: nat, act: WorkerAction, next: State)
    requires w in s.workers && WorkerStep(c, s, w, s.workers[w], act) == Some(next)
    ensures WorkerFrame(s, next, w)
    ensures !WritesRows(act) ==> next.rows == s.rows && next.hist == s.hist && next.outbox == s.outbox
  {
    var p := s.workers[w];
    if act.CommitBatch? && DISPATCH_BATCH_SEQ in s.rows {
      CommitFrame(s, w, p, act.successors);
    } else if act.WriteStartRow? {
      StartFrame(c, s, w, p, act.attempt);
    }
  }

  lemma CommitFrame(s: State, w: nat, p: Worker, successors: nat)
    requires w in s.workers && DISPATCH_BATCH_SEQ in s.rows && p.batchSeq != DISPATCH_BATCH_SEQ
    ensures WorkerFrame(s, CommitTx(s, w, p, successors), w)
  {
  }

  lemma StartFrame(c: Config, s: State, w: nat, p: Worker, attempt: int)
    requires w in s.workers && p.phase.Starting?
    ensures WorkerFrame(s, WriteStartTx(c, s, w, p, attempt), w)
  {
  }

  lemma DeliverSafe(c: Config, s: State, w: nat, q: int, next: State)
    requires Safe(c, s) && DeliverTo(s, w, q) == Some(next)
    ensures Safe(c, next)
  {
    SameMailOk(c, s, next);
    if IsCompleted(s.rows, q) {
      assert s.hist.transitions[q] <= s.hist.commits[q];
    }
    forall x | x in s.hist.emitted && x !in s.hist.commits ensures HasCopy(next, x) {
      if x == q {
        assert CarriedBy(next, w, x);
      } else if v: nat :| CarriedBy(s, v, x) {
        assert CarriedBy(next, v, x);
      } else if i: nat :| StagedAt(s, i, x) {
        assert StagedAt(next, i, x);
      }
    }
  }

  lemma WorkerStepSafe(c: Config, s: State, w: nat, act: WorkerAction, next: State)
    requires Safe(c, s) && w in s.workers && WorkerStep(c, s, w, s.workers[w], act) == Some(next)
    ensures Safe(c, next)
  {
    WorkerFrames(c, s, w, act, next);
    WorkerKeepsDispatchRow(c, s, w, act, next);
    WorkerKeepsBatchRows(c, s, w, act, next);
    OtherDispatchersOk(c, s, next, 0);
    WorkerSends(c, s, w, act, next);
    WorkerKeepsWorkers(c, s, w, act, next);
    WorkerKeepsCopies(c, s, w, act, next);
    WorkerKeepsDispatchStatus(c, s, w, act, next);
    SameMailOk(c, s, next);
  }

  lemma WorkerKeepsDispatchStatus(c: Config, s: State, w: nat, act: WorkerAction, next: State)
    requires EmittedOk(c, s) && w in s.workers && WorkerOk(s, s.workers[w])
    requires WorkerStep(c, s, w, s.workers[w], act) == Some(next)
    ensures IsCompleted(next.rows, DISPATCH_BATCH_SEQ) ==> IsCompleted(s.rows, DISPATCH_BATCH_SEQ)
  {
    assert s.workers[w].batchSeq != DISPATCH_BATCH_SEQ;
  }

  /** A commit moves the counter exactly when it moves the transitions. */
  lemma WorkerKeepsDispatchRow(c: Config, s: State, w: nat, act: WorkerAction, next: State)
    requires EmittedOk(c, s) && DispatchRowOk(c, s) && w in s.workers && WorkerOk(s, s.workers[w])
    requires WorkerStep(c, s, w, s.workers[w], act) == Some(next)
    ensures EmittedOk(c, next) && DispatchRowOk(c, next)
    ensures PlannedKnown(c, s) ==> PlannedKnown(c, next)
    ensures next.hist.emitted == s.hist.emitted
  {
    assert s.workers[w].batchSeq != DISPATCH_BATCH_SEQ;
    if act.CommitBatch? && DISPATCH_BATCH_SEQ in s.rows {
      CommitKeepsDispatchRow(c, s, w, s.workers[w], act.successors);
    }
  }

  lemma CommitKeepsDispatchRow(c: Config, s: State, w: nat, p: Worker, successors: nat)
    requires EmittedOk(c, s) && DispatchRowOk(c, s) && DISPATCH_BATCH_SEQ in s.rows && p.batchSeq != DISPATCH_BATCH_SEQ
    ensures
      var next := CommitTx(s, w, p, successors);
      EmittedOk(c, next) && DispatchRowOk(c, next) && (PlannedKnown(c, s) ==> PlannedKnown(c, next))
  {
  }

  lemma WorkerKeepsBatchRows(c: Config, s: State, w: nat, act: WorkerAction, next: State)
    requires EmittedOk(c, s) && BatchRowsOk(s) && w in s.workers && WorkerOk(s, s.workers[w])
    requires WorkerStep(c, s, w, s.workers[w], act) == Some(next) && WorkerFrame(s, next, w)
    requires !WritesRows(act) ==> next.rows == s.rows && next.hist == s.hist
    ensures BatchRowsOk(next)
  {
    var p := s.workers[w];
    if act.CommitBatch? && DISPATCH_BATCH_SEQ in s.rows {
      CommitKeepsBatchRows(s, w, p, act.successors);
    } else if act.FailBatch? {
      WriteKeepsBatchRows(s, next, p.batchSeq);
    } else if act.WriteStartRow? {
      WriteKeepsBatchRows(s, next, p.batchSeq);
    }
  }

  lemma CommitKeepsBatchRows(s: State, w: nat, p: Worker, successors: nat)
    requires BatchRowsOk(s) && p.batchSeq in s.hist.emitted
    requires DISPATCH_BATCH_SEQ in s.rows && p.batchSeq != DISPATCH_BATCH_SEQ
    ensures BatchRowsOk(CommitTx(s, w, p, successors))
  {
  }

  /** A write that never completes the row records in `undone` what it took away. */
  lemma WriteKeepsBatchRows(s: State, next: State, q: int)
    requires BatchRowsOk(s) && q in s.hist.emitted && q != DISPATCH_BATCH_SEQ
    requires next.hist.emitted == s.hist.emitted && next.hist.commits == s.hist.commits
    requires next.hist.transitions == s.hist.transitions
    requires next.hist.undone == s.hist.undone + Undone(s.rows, next.rows, q)
    requires forall x :: x != q ==> (x in next.rows <==> x in s.rows) && (x in s.rows ==> next.rows[x] == s.rows[x])
    requires IsCompleted(next.rows, q) ==> IsCompleted(s.rows, q)
    ensures BatchRowsOk(next)
  {
  }

  lemma WorkerSends(c: Config, s: State, w: nat, act: WorkerAction, next: State)
    requires MessagesOk(s) && OutboxOk(s) && w in s.workers && WorkerOk(s, s.workers[w])
    requires WorkerStep(c, s, w, s.workers[w], act) == Some(next) && WorkerFrame(s, next, w)
    requires !WritesRows(act) ==> next.outbox == s.outbox
    ensures MessagesOk(next) && OutboxOk(next)
  {
    if act.CommitBatch? && DISPATCH_BATCH_SEQ in s.rows {
      CommitSends(s, w, s.workers[w], act.successors);
    }
  }

  lemma CommitSends(s: State, w: nat, p: Worker, successors: nat)
    requires MessagesOk(s) && OutboxOk(s)
    requires DISPATCH_BATCH_SEQ in s.rows && p.batchSeq != DISPATCH_BATCH_SEQ
    ensures MessagesOk(CommitTx(s, w, p, successors)) && OutboxOk(CommitTx(s, w, p, successors))
  {
    var staged := Staged(Successors(successors));
    assert forall i :: 0 <= i < |staged| ==> staged[i].message == SuccessorMessage && staged[i].publishedAt == None;
  }

  lemma WorkerKeepsWorkers(c: Config, s: State, w: nat, act: WorkerAction, next: State)
    requires WorkersOk(s) && w in s.workers
    requires WorkerStep(c, s, w, s.workers[w], act) == Some(next) && WorkerFrame(s, next, w)
    ensures WorkersOk(next)
  {
    forall v | v in next.workers ensures WorkerOk(next, next.workers[v]) {
      assert v in s.workers && WorkerOk(s, s.workers[v]);
      if v == w {
        WorkerKeepsItself(c, s, w, act, next);
      }
    }
  }

  lemma WorkerKeepsItself(c: Config, s: State, w: nat, act: WorkerAction, next: State)
    requires w in s.workers && WorkerOk(s, s.workers[w]) && w in next.workers
    requires WorkerStep(c, s, w, s.workers[w], act) == Some(next) && WorkerFrame(s, next, w)
    ensures WorkerOk(next, next.workers[w])
  {
  }

  /** A worker lets go of a message only after its work committed or another copy is back in a queue. */
  lemma WorkerKeepsCopies(c: Config, s: State, w: nat, act: WorkerAction, next: State)
    requires Conserved(s) && w in s.workers && WorkerOk(s, s.workers[w])
    requires WorkerStep(c, s, w, s.workers[w], act) == Some(next) && WorkerFrame(s, next, w)
    ensures Conserved(next)
  {
    forall x | x in s.hist.emitted && x !in next.hist.commits ensures HasCopy(next, x) {
      if v: nat :| CarriedBy(s, v, x) && v != w {
        assert CarriedBy(next, v, x);
      } else if i: nat :| StagedAt(s, i, x) {
        assert StagedAt(next, i, x);
      } else if CarriedBy(s, w, x) {
        WorkerKeepsOwnCopy(c, s, w, act, next);
      }
    }
  }

  lemma WorkerKeepsOwnCopy(c: Config, s: State, w: nat, act: WorkerAction, next: State)
    requires w in s.workers && Carries(s.workers[w]) && WorkerOk(s, s.workers[w])
    requires WorkerStep(c, s, w, s.workers[w], act) == Some(next) && WorkerFrame(s, next, w)
    ensures
      var q := s.workers[w].batchSeq;
      q in next.hist.commits || q in next.main || q in next.dlq || CarriedBy(next, w, q)
  {
  }

  // ----- publishers and operator -----

  lemma PublisherStepSafe(c: Config, s: State, act: PublisherAction, next: State)
    requires Safe(c, s) && PublisherStep(s, act) == Some(next)
    ensures Safe(c, next)
  {
    PublisherFrames(s, act, next);
    PublisherKeepsRest(c, s, next);
    PublisherKeepsMessages(s, act, next);
    PublisherKeepsCopies(s, act, next);
  }

  ghost predicate PublisherFrame(s: State, next: State) {
    next == s.(main := next.main, outbox := next.outbox, claimed := next.claimed, settled := next.settled,
               hist := s.hist.(accepted := next.hist.accepted))
  }

  lemma PublisherFrames(s: State, act: PublisherAction, next: State)
    requires PublisherStep(s, act) == Some(next)
    ensures PublisherFrame(s, next)
  {
  }

  lemma PublisherKeepsRest(c: Config, s: State, next: State)
    requires Safe(c, s) && PublisherFrame(s, next)
    ensures EmittedOk(c, next) && DispatchRowOk(c, next) && BatchRowsOk(next) && DispatchersOk(c, next)
            && WorkersOk(next)
    ensures MailOk(c, next)
  {
    OtherDispatchersOk(c, s, next, 0);
    SameMailOk(c, s, next);
  }

  lemma PublisherKeepsMessages(s: State, act: PublisherAction, next: State)
    requires MessagesOk(s) && OutboxOk(s) && PublisherStep(s, act) == Some(next)
    ensures MessagesOk(next) && OutboxOk(next)
  {
    if act.Claim? {
      ClaimKeepsMessages(s, act.ids, next);
    } else if act.Mark? {
      MarkKeepsMessages(s, act.id, next);
    } else if act.Publish? {
      PublishKeepsMessages(s, act.id, next);
    }
  }

  lemma PublishKeepsMessages(s: State, id: nat, next: State)
    requires MessagesOk(s) && OutboxOk(s) && PublisherStep(s, Publish(id)) == Some(next)
    ensures MessagesOk(next) && OutboxOk(next)
  {
    assert next.outbox == s.outbox;
    assert forall i :: i in next.claimed ==> i in s.claimed;
    assert forall i :: i in next.settled ==> i in s.settled || i == id;
  }

  lemma ClaimKeepsMessages(s: State, ids: set<nat>, next: State)
    requires MessagesOk(s) && OutboxOk(s) && PublisherStep(s, Claim(ids)) == Some(next)
    ensures MessagesOk(next) && OutboxOk(next)
  {
    assert forall i :: 0 <= i < |s.outbox| ==>
             next.outbox[i].message == s.outbox[i].message && next.outbox[i].publishedAt == s.outbox[i].publishedAt;
    assert forall i :: i in next.claimed ==> i in s.claimed || i in ids;
  }

  lemma MarkKeepsMessages(s: State, id: nat, next: State)
    requires MessagesOk(s) && OutboxOk(s) && PublisherStep(s, Mark(id)) == Some(next)
    ensures MessagesOk(next) && OutboxOk(next)
  {
    assert forall i :: 0 <= i < |s.outbox| ==> next.outbox[i].message == s.outbox[i].message;
    assert forall i :: i in next.settled ==> i in s.settled;
  }

  /** An outbox row stops being a copy only when the broker has the message or its batch was completed. */
  lemma PublisherKeepsCopies(s: State, act: PublisherAction, next: State)
    requires Conserved(s) && BatchRowsOk(s) && PublisherStep(s, act) == Some(next)
    ensures Conserved(next)
  {
    if act.SkipCompleted? {
      SkippedWasCommitted(s, act.id);
    }
    forall x | x in s.hist.emitted && x !in s.hist.commits ensures HasCopy(next, x) {
      if v: nat :| CarriedBy(s, v, x) {
        assert CarriedBy(next, v, x);
      } else if i: nat :| StagedAt(s, i, x) {
        StagedSurvives(s, act, next, i, x);
      }
    }
  }

  lemma StagedSurvives(s: State, act: PublisherAction, next: State, i: nat, x: int)
    requires StagedAt(s, i, x) && PublisherStep(s, act) == Some(next) && !(act.SkipCompleted? && act.id == i)
    ensures StagedAt(next, i, x) || x in next.main
  {
  }

  lemma SkippedWasCommitted(s: State, id: nat)
    requires BatchRowsOk(s) && PublisherStep(s, SkipCompleted(id)).Some?
    ensures s.outbox[id].message.batchSeq in s.hist.commits
  {
    assert s.hist.transitions[s.outbox[id].message.batchSeq] <= s.hist.commits[s.outbox[id].message.batchSeq];
  }

  lemma OperatorStepSafe(c: Config, s: State, q: int, op: OperatorAction, next: State)
    requires Safe(c, s) && OperatorStep(s, q, op) == Some(next)
    ensures Safe(c, next)
  {
    SameMailOk(c, s, next);
    OtherDispatchersOk(c, s, next, 0);
    forall x | x in s.hist.emitted && x !in s.hist.commits ensures HasCopy(next, x) {
      if v: nat :| CarriedBy(s, v, x) {
        assert CarriedBy(next, v, x);
      } else if i: nat :| StagedAt(s, i, x) {
        assert StagedAt(next, i, x);
      }
    }
  }

  // ----- every run -----

  lemma StepSafe(c: Config, s: State, a: Action, next: State)
    requires Safe(c, s) && Step(c, s, a) == Some(next)
    ensures Safe(c, next)
  {
    match a
    case Tick(ms) => TickSafe(c, s, ms);
    case DispatcherAct(d, act) =>
      if act.BeginDispatch? {
        BeginDispatcherSafe(c, s, d, act.found, next);
      } else {
        DispatcherStepSafe(c, s, d, act, next);
      }
    case WorkerAct(w, act) =>
      if act.Deliver? {
        DeliverSafe(c, s, w, act.batchSeq, next);
      } else {
        WorkerStepSafe(c, s, w, act, next);
      }
    case PublisherAct(act) => PublisherStepSafe(c, s, act, next);
    case OperatorAct(q, op) => OperatorStepSafe(c, s, q, op, next);
    case MailAct(change) => MailStepSafe(c, s, change, next);
  }

  lemma MailStepSafe(c: Config, s: State, change: MailAction, next: State)
    requires Safe(c, s) && MailStep(s, change) == Some(next)
    ensures Safe(c, next)
  {
    OtherDispatchersOk(c, s, next, 0);
    AddingKeepsCopies(s, next);
    if d: nat :| DispatchCarriedBy(s, d) {
      assert DispatchCarriedBy(next, d);
    }
  }

  /** What neither touches the dispatch row's status nor the dispatchers keeps the dispatch message. */
  lemma SameMailOk(c: Config, s: State, next: State)
    requires MailOk(c, s) && next.mail == s.mail && next.dispatchers == s.dispatchers
    requires next.hist.dispatched == s.hist.dispatched && s.hist.emitted <= next.hist.emitted
    requires IsCompleted(next.rows, DISPATCH_BATCH_SEQ) ==> IsCompleted(s.rows, DISPATCH_BATCH_SEQ)
    ensures MailOk(c, next)
  {
    if d: nat :| DispatchCarriedBy(s, d) {
      assert DispatchCarriedBy(next, d);
    }
  }

  lemma TickSafe(c: Config, s: State, ms: nat)
    requires Safe(c, s)
    ensures Safe(c, s.(now := s.now + ms))
  {
    AddingKeepsCopies(s, s.(now := s.now + ms));
    SameMailOk(c, s, s.(now := s.now + ms));
  }

  lemma {:induction false} ExecSafe(c: Config, s: State, acts: seq<Action>, last: State)
    requires Safe(c, s) && Exec(c, s, acts) == Some(last)
    ensures Safe(c, last)
    decreases |acts|
  {
    if acts != [] {
      var next := Step(c, s, acts[0]).value;
      StepSafe(c, s, acts[0], next);
      ExecSafe(c, next, acts[1..], last);
    }
  }

  lemma InitSafe(c: Config, now: int)
    ensures Safe(c, Init(now))
  {
  }

  // ----- what any run keeps -----

  /** At-least-once, through every crash, redelivery, replay and concurrent dispatcher: a seq that was ever
      emitted has its work committed, or a copy of its message is still in a queue, in the outbox or with a
      worker that has neither acked nor failed it. */
  lemma NoEmittedBatchIsLost(c: Config, now: int, acts: seq<Action>, s: State, q: int)
    requires Exec(c, Init(now), acts) == Some(s)
    requires q in s.hist.emitted
    ensures 1 <= q <= c.planned
    ensures q in s.hist.commits || HasCopy(s, q)
  {
    InitSafe(c, now);
    ExecSafe(c, Init(now), acts, s);
  }

  /** A completed dispatch row means that every batch of the list was emitted, in both publish modes and
      whatever concurrent dispatchers did to the checkpoint. */
  lemma CompletedDispatchEmittedAll(c: Config, now: int, acts: seq<Action>, s: State)
    requires Exec(c, Init(now), acts) == Some(s)
    requires IsCompleted(s.rows, DISPATCH_BATCH_SEQ)
    ensures forall q :: 1 <= q <= c.planned <==> q in s.hist.emitted
    ensures forall q :: 1 <= q <= c.planned ==> q in s.hist.commits || HasCopy(s, q)
  {
    InitSafe(c, now);
    ExecSafe(c, Init(now), acts, s);
    assert AllEmittedUpTo(s, c.planned);
  }

  /** The dispatch message is not lost: until some dispatcher completed the dispatch row, and with it emitted every
      batch, a copy is queued, dead-lettered, or with a dispatcher that has not handed it on. */
  lemma DispatchIsNotLost(c: Config, now: int, acts: seq<Action>, s: State)
    requires Exec(c, Init(now), acts) == Some(s)
    ensures s.hist.dispatched || HasDispatchCopy(s)
    ensures s.hist.dispatched ==> forall q :: 1 <= q <= c.planned ==> q in s.hist.emitted
    ensures IsCompleted(s.rows, DISPATCH_BATCH_SEQ) ==> s.hist.dispatched
  {
    InitSafe(c, now);
    ExecSafe(c, Init(now), acts, s);
  }

  /** Every seq up to the stored checkpoint was emitted, and no batch is ever queued or delivered before the
      planned count is on record, restarts included. */
  lemma CheckpointAndPlannedAreBacked(c: Config, now: int, acts: seq<Action>, s: State)
    requires Exec(c, Init(now), acts) == Some(s)
    ensures forall q :: 1 <= q <= CheckpointOf(s.rows) ==> q in s.hist.emitted
    ensures forall q :: q in s.main || q in s.dlq || q in s.replaying ==> PlannedKnown(c, s)
    ensures forall w :: w in s.workers ==> PlannedKnown(c, s)
  {
    InitSafe(c, now);
    ExecSafe(c, Init(now), acts, s);
    if DISPATCH_BATCH_SEQ in s.rows {
      assert AllEmittedUpTo(s, s.rows[DISPATCH_BATCH_SEQ].lastPublished);
    }
  }

  /** The counter equals the running -> completed transitions, which are the rows completed now plus the
      completions that were taken back: it is the number of completed batch rows exactly when no write ever
      set a completed row back. */
  lemma CounterAccounting(c: Config, now: int, acts: seq<Action>, s: State)
    requires Exec(c, Init(now), acts) == Some(s)
    requires DISPATCH_BATCH_SEQ in s.rows
    ensures s.rows[DISPATCH_BATCH_SEQ].done == |s.hist.transitions|
    ensures s.rows[DISPATCH_BATCH_SEQ].done == |CompletedSeqs(s.rows)| + |s.hist.undone|
    ensures s.rows[DISPATCH_BATCH_SEQ].done == |CompletedSeqs(s.rows)| <==> s.hist.undone == multiset{}
    ensures s.hist.transitions <= s.hist.commits
  {
    InitSafe(c, now);
    ExecSafe(c, Init(now), acts, s);
    TransitionsSplit(c, s);
    assert forall q: int :: s.hist.transitions[q] <= s.hist.commits[q];
  }

  lemma TransitionsSplit(c: Config, s: State)
    requires Safe(c, s)
    ensures s.hist.transitions == multiset(CompletedSeqs(s.rows)) + s.hist.undone
  {
    var completed := CompletedSeqs(s.rows);
    assert s.hist.transitions[DISPATCH_BATCH_SEQ] == 0 by {
      assert s.hist.transitions[DISPATCH_BATCH_SEQ] <= s.hist.commits[DISPATCH_BATCH_SEQ];
      assert DISPATCH_BATCH_SEQ !in s.hist.emitted;
    }
    forall q: int
      ensures s.hist.transitions[q] == (multiset(completed) + s.hist.undone)[q]
    {
      assert q in completed <==> IsCompleted(s.rows, q) && q != DISPATCH_BATCH_SEQ;
    }
  }
}
