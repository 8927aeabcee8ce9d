/** The batch lease, as its comment means it, makes every run harmless: a handler commits within
    ACTIVE_BATCH_LOCK_MS of the start it was granted, and no other statement on its row comes between the read and
    the write of a granted `start`. A failure may be recorded outside a lease, by a start() that threw, as long as
    it meets neither a completed row nor a live holder. */
module FanInLease {
  import opened Options
  import opened PipelineRows
  import opened FanIn
  import opened FanInSafety
  import opened FanInExact
  import opened FanInClose

  // ----- the assumption -----

  /** The moment `start` granted this worker its batch, while it may still write on the batch's behalf. */
  function Since(p: Worker): Option<int> {
    match p.phase
    case Handling(t) => Some(t)
    case Faulted(t) => t
    case DeadLettered(t) => t
    case _ => None
  }

  predicate HoldsLease(s: State, w: nat) {
    w in s.workers && Since(s.workers[w]).Some? && s.now - Since(s.workers[w]).value < ACTIVE_BATCH_LOCK_MS
  }

  predicate Unclaimed(s: State, q: int) {
    !IsCompleted(s.rows, q) && forall v <- s.workers :: HoldsLease(s, v) ==> s.workers[v].batchSeq != q
  }

  /** A granted `start` writes on what it read; a commit is made within its lease; a failure is recorded within its
      lease or on a batch that nobody holds and nobody completed. */
  predicate LeaseAllows(s: State, a: Action) {
    if a.WorkerAct? && a.w in s.workers then
      var p := s.workers[a.w];
      match a.step
      case WriteStartRow(_) =>
        p.phase.Starting? && (p.phase.seen.SeenStale? || p.phase.seen.SeenAbsent?) ==>
          ReadStart(s.rows, p.batchSeq, s.now) == p.phase.seen
      case CommitBatch(_) => HoldsLease(s, a.w)
      case FailBatch(_) => HoldsLease(s, a.w) || Unclaimed(s, p.batchSeq)
      case _ => true
    else true
  }

  ghost predicate LeasedRun(c: Config, s: State, acts: seq<Action>, last: State)
    decreases |acts|
  {
    if acts == [] then last == s
    else
      && LeaseAllows(s, acts[0])
      && Step(c, s, acts[0]).Some?
      && LeasedRun(c, Step(c, s, acts[0]).value, acts[1..], last)
  }

  // ----- the invariant -----

  ghost predicate LeasesOk(s: State) {
    && (forall w :: HoldsLease(s, w) ==>
          var q := s.workers[w].batchSeq;
          q in s.rows && s.rows[q].status.Running? && s.rows[q].startedAt == Since(s.workers[w]).value)
    && (forall v, w :: v != w && HoldsLease(s, v) && HoldsLease(s, w) ==>
          s.workers[v].batchSeq != s.workers[w].batchSeq)
  }

  ghost predicate Leased(c: Config, s: State) {
    Safe(c, s) && LeasesOk(s) && Exact(s)
  }

  // ----- preservation -----

  lemma InitLeased(c: Config, now: int)
    ensures Leased(c, Init(now))
  {
    InitSafe(c, now);
  }

  lemma LeasedStep(c: Config, s: State, a: Action, next: State)
    requires Leased(c, s) && LeaseAllows(s, a) && Step(c, s, a) == Some(next)
    ensures Leased(c, next)
  {
    StepSafe(c, s, a, next);
    LeasedIsHarmless(s, a);
    HarmlessStep(c, s, a, next);
    if a.WorkerAct? && !a.step.Deliver? {
      LeasedWorkerStep(c, s, a.w, a.step, next);
    } else {
      OtherStepKeepsLeases(c, s, a, next);
    }
  }

  /** A holder's row is running, and a granted start just saw that its row is not completed. */
  lemma LeasedIsHarmless(s: State, a: Action)
    requires LeasesOk(s) && LeaseAllows(s, a)
    ensures Harmless(s, a)
  {
  }

  /** Holders that keep their row keep their lease. */
  lemma LeasesCarryOver(s: State, next: State)
    requires LeasesOk(s)
    requires forall w :: HoldsLease(next, w) ==>
               && HoldsLease(s, w)
               && next.workers[w].batchSeq == s.workers[w].batchSeq
               && Since(next.workers[w]) == Since(s.workers[w])
               && s.workers[w].batchSeq in next.rows
               && next.rows[s.workers[w].batchSeq] == s.rows[s.workers[w].batchSeq]
    ensures LeasesOk(next)
  {
  }

  /** A write by `w` on the row of batch `q`, which no other holder has. */
  lemma LeasesAfterWrite(s: State, next: State, w: nat, q: int)
    requires LeasesOk(s) && next.now == s.now && OtherWorkersSame(s, next, w)
    requires forall v :: v != w && HoldsLease(s, v) ==>
               s.workers[v].batchSeq != q && s.workers[v].batchSeq != DISPATCH_BATCH_SEQ
    requires forall x :: x != q && x != DISPATCH_BATCH_SEQ && x in s.rows ==>
             x in next.rows && next.rows[x] == s.rows[x]
    requires HoldsLease(next, w) ==>
               && next.workers[w].batchSeq == q && q in next.rows
               && next.rows[q].status.Running? && next.rows[q].startedAt == Since(next.workers[w]).value
    ensures LeasesOk(next)
  {
    assert forall v :: v != w && HoldsLease(next, v) ==> HoldsLease(s, v) && next.workers[v] == s.workers[v];
  }

  lemma HoldersHaveBatches(c: Config, s: State)
    requires EmittedOk(c, s) && WorkersOk(s)
    ensures forall w :: HoldsLease(s, w) ==> s.workers[w].batchSeq != DISPATCH_BATCH_SEQ
  {
    forall w | HoldsLease(s, w) ensures s.workers[w].batchSeq != DISPATCH_BATCH_SEQ {
      assert s.workers[w].batchSeq in s.hist.emitted;
    }
  }

  /** Dispatchers, publishers, the operator, a delivery and the clock write no batch row and grant no lease. */
  lemma OtherStepKeepsLeases(c: Config, s: State, a: Action, next: State)
    requires Leased(c, s) && Step(c, s, a) == Some(next)
    requires !a.WorkerAct? || a.step.Deliver?
    ensures LeasesOk(next)
  {
    match a
    case Tick(ms) => TickKeepsLeases(c, s, ms);
    case DispatcherAct(d, move) => DispatcherKeepsLeases(c, s, d, move, next);
    case WorkerAct(w, step) => DeliverKeepsLeases(c, s, w, step.batchSeq, next);
    case PublisherAct(pub) => PublisherKeepsLeases(c, s, pub, next);
    case OperatorAct(q, op) => OperatorKeepsLeases(c, s, q, op, next);
    case MailAct(change) => MailKeepsLeases(c, s, change, next);
  }

  lemma MailKeepsLeases(c: Config, s: State, change: MailAction, next: State)
    requires LeasesOk(s) && MailStep(s, change) == Some(next)
    ensures LeasesOk(next)
  {
    SameWorkersKeepLeases(c, s, next);
  }

  lemma DispatcherKeepsLeases(c: Config, s: State, d: nat, move: DispatcherAction, next: State)
    requires Leased(c, s) && Step(c, s, DispatcherAct(d, move)) == Some(next)
    ensures LeasesOk(next)
  {
    if move.BeginDispatch? {
      BeginKeepsLeases(c, s, d, move.found, next);
    } else {
      DispatcherFrames(c, s, d, move, next);
      DispatcherFrameKeepsLeases(c, s, next, d);
    }
  }

  lemma PublisherKeepsLeases(c: Config, s: State, pub: PublisherAction, next: State)
    requires LeasesOk(s) && PublisherStep(s, pub) == Some(next)
    ensures LeasesOk(next)
  {
    PublisherFrames(s, pub, next);
    SameWorkersKeepLeases(c, s, next);
  }

  lemma OperatorKeepsLeases(c: Config, s: State, q: int, op: OperatorAction, next: State)
    requires LeasesOk(s) && OperatorStep(s, q, op) == Some(next)
    ensures LeasesOk(next)
  {
    SameWorkersKeepLeases(c, s, next);
  }

  lemma SameWorkersKeepLeases(c: Config, s: State, next: State)
    requires LeasesOk(s)
    requires next.workers == s.workers && next.rows == s.rows && next.now == s.now
    requires next.hist == s.hist.(accepted := next.hist.accepted)
    ensures LeasesOk(next)
  {
    LeasesCarryOver(s, next);
  }

  lemma TickKeepsLeases(c: Config, s: State, ms: nat)
    requires LeasesOk(s)
    ensures LeasesOk(s.(now := s.now + ms))
  {
    LeasesCarryOver(s, s.(now := s.now + ms));
  }

  lemma BeginKeepsLeases(c: Config, s: State, d: nat, found: bool, next: State)
    requires LeasesOk(s) && BeginDispatcher(s, d, found) == Some(next)
    ensures LeasesOk(next)
  {
    LeasesCarryOver(s, next);
  }

  lemma DeliverKeepsLeases(c: Config, s: State, w: nat, q: int, next: State)
    requires LeasesOk(s) && DeliverTo(s, w, q) == Some(next)
    ensures LeasesOk(next)
  {
    assert !HoldsLease(next, w);
    LeasesCarryOver(s, next);
  }

  lemma DispatcherFrameKeepsLeases(c: Config, s: State, next: State, d: nat)
    requires Leased(c, s) && DispatcherFrame(s, next, d)
    ensures LeasesOk(next)
  {
    HoldersHaveBatches(c, s);
    LeasesCarryOver(s, next);
  }

  lemma LeasedWorkerStep(c: Config, s: State, w: nat, act: WorkerAction, next: State)
    requires Leased(c, s) && LeaseAllows(s, WorkerAct(w, act)) && !act.Deliver?
    requires w in s.workers && WorkerStep(c, s, w, s.workers[w], act) == Some(next) && Safe(c, next)
    ensures LeasesOk(next)
  {
    WorkerFrames(c, s, w, act, next);
    match act
    case WriteStartRow(attempt) => StartKeepsLeases(c, s, w, attempt, next);
    case CommitBatch(n) => CommitKeepsLeases(c, s, w, n, next);
    case FailBatch(e) => FailKeepsLeases(c, s, w, e, next);
    case _ => QuietStepKeepsLeases(c, s, w, act, next);
  }

  lemma QuietStepKeepsLeases(c: Config, s: State, w: nat, act: WorkerAction, next: State)
    requires LeasesOk(s) && !WritesRows(act)
    requires w in s.workers && WorkerStep(c, s, w, s.workers[w], act) == Some(next) && WorkerFrame(s, next, w)
    requires next.rows == s.rows && next.hist == s.hist
    ensures LeasesOk(next)
  {
    assert HoldsLease(next, w) ==> HoldsLease(s, w) && next.workers[w].batchSeq == s.workers[w].batchSeq
                                   && Since(next.workers[w]) == Since(s.workers[w]);
    LeasesCarryOver(s, next);
  }

  /** A granted start finds no other holder: a holder's row is running and younger than the lock. */
  lemma StartKeepsLeases(c: Config, s: State, w: nat, attempt: int, next: State)
    requires LeasesOk(s) && EmittedOk(c, s) && WorkersOk(s)
    requires LeaseAllows(s, WorkerAct(w, WriteStartRow(attempt)))
    requires w in s.workers && WorkerStep(c, s, w, s.workers[w], WriteStartRow(attempt)) == Some(next)
    requires OtherWorkersSame(s, next, w)
    ensures LeasesOk(next)
  {
    var p := s.workers[w];
    HoldersHaveBatches(c, s);
    if p.phase.seen.SeenStale? || p.phase.seen.SeenAbsent? {
      GrantedWrite(c, s, p, attempt);
      var written := WriteStart(s.rows, p.phase.seen, p.batchSeq, c.tenantId, attempt, s.now).value;
      assert next == SetPhase(WriteBatchRow(s, written, p.batchSeq), w, p, Handling(s.now));
      assert forall x :: x != p.batchSeq && x in s.rows ==> x in written && written[x] == s.rows[x];
      LeasesAfterWrite(s, next, w, p.batchSeq);
    } else {
      UngrantedStart(c, s, w, attempt);
      LeasesCarryOver(s, next);
    }
  }

  lemma UngrantedStart(c: Config, s: State, w: nat, attempt: int)
    requires w in s.workers && s.workers[w].phase.Starting?
    requires s.workers[w].phase.seen.SeenCompleted? || s.workers[w].phase.seen.SeenActive?
    ensures
      var next := WriteStartTx(c, s, w, s.workers[w], attempt);
      next.rows == s.rows && next.hist == s.hist && next.now == s.now && !HoldsLease(next, w)
  {
  }

  lemma GrantedWrite(c: Config, s: State, p: Worker, attempt: int)
    requires LeasesOk(s) && p.phase.Starting? && (p.phase.seen.SeenStale? || p.phase.seen.SeenAbsent?)
    requires ReadStart(s.rows, p.batchSeq, s.now) == p.phase.seen
    ensures forall v :: HoldsLease(s, v) ==> s.workers[v].batchSeq != p.batchSeq
    ensures
      var written := WriteStart(s.rows, p.phase.seen, p.batchSeq, c.tenantId, attempt, s.now);
      && written.Some?
      && Undone(s.rows, written.value, p.batchSeq) == multiset{}
      && p.batchSeq in written.value
      && written.value[p.batchSeq].status.Running? && written.value[p.batchSeq].startedAt == s.now
  {
  }

  /** The holder's commit is the transition of its batch, and no other holder has that batch. */
  lemma CommitKeepsLeases(c: Config, s: State, w: nat, successors: nat, next: State)
    requires Leased(c, s) && HoldsLease(s, w)
    requires WorkerStep(c, s, w, s.workers[w], CommitBatch(successors)) == Some(next) && OtherWorkersSame(s, next, w)
    ensures LeasesOk(next)
  {
    var q := s.workers[w].batchSeq;
    assert q in s.hist.emitted && PlannedKnown(c, s);
    HoldersHaveBatches(c, s);
    LeasesAfterWrite(s, next, w, q);
  }

  /** Nobody else holds the batch whose failure is recorded. */
  lemma FailKeepsLeases(c: Config, s: State, w: nat, error: string, next: State)
    requires Leased(c, s) && LeaseAllows(s, WorkerAct(w, FailBatch(error))) && w in s.workers
    requires WorkerStep(c, s, w, s.workers[w], FailBatch(error)) == Some(next) && OtherWorkersSame(s, next, w)
    ensures LeasesOk(next)
  {
    HoldersHaveBatches(c, s);
    assert forall v :: v != w && HoldsLease(s, v) ==> s.workers[v].batchSeq != s.workers[w].batchSeq;
    LeasesAfterWrite(s, next, w, s.workers[w].batchSeq);
  }

  lemma {:induction false} LeasedRunKeeps(c: Config, s: State, acts: seq<Action>, last: State)
    requires Leased(c, s) && LeasedRun(c, s, acts, last)
    ensures Leased(c, last)
    ensures Exec(c, s, acts) == Some(last)
    ensures forall q :: q != DISPATCH_BATCH_SEQ && IsCompleted(s.rows, q) ==> IsCompleted(last.rows, q)
    decreases |acts|
  {
    if acts != [] {
      var next := Step(c, s, acts[0]).value;
      LeasedStep(c, s, acts[0], next);
      CompletedIsStable(c, s, acts[0], next);
      LeasedRunKeeps(c, next, acts[1..], last);
    }
  }

  /** Nothing in a leased run takes a completed batch back. */
  lemma CompletedIsStable(c: Config, s: State, a: Action, next: State)
    requires Leased(c, s) && LeaseAllows(s, a) && Step(c, s, a) == Some(next)
    ensures forall q :: q != DISPATCH_BATCH_SEQ && IsCompleted(s.rows, q) ==> IsCompleted(next.rows, q)
  {
    LeasedStep(c, s, a, next);
    TransitionsGrow(c, s, a, next);
    forall q | q != DISPATCH_BATCH_SEQ && IsCompleted(s.rows, q) ensures IsCompleted(next.rows, q) {
      assert s.hist.transitions[q] == 1;
      assert next.hist.transitions[q] >= 1;
    }
  }

  lemma TransitionsGrow(c: Config, s: State, a: Action, next: State)
    requires Step(c, s, a) == Some(next)
    ensures s.hist.transitions <= next.hist.transitions
  {
    match a
    case DispatcherAct(d, act) =>
      if !act.BeginDispatch? {
        DispatcherFrames(c, s, d, act, next);
      }
    case PublisherAct(act) => PublisherFrames(s, act, next);
    case _ =>
  }

  // ----- the theorems -----

  lemma {:induction false} LeasedIsHarmlessRun(c: Config, s: State, acts: seq<Action>, last: State)
    requires Leased(c, s) && LeasedRun(c, s, acts, last)
    ensures HarmlessRun(c, s, acts) && Exec(c, s, acts) == Some(last)
    decreases |acts|
  {
    if acts != [] {
      var next := Step(c, s, acts[0]).value;
      LeasedIsHarmless(s, acts[0]);
      LeasedStep(c, s, acts[0], next);
      LeasedIsHarmlessRun(c, next, acts[1..], last);
    }
  }

  /** The lease is enough: every leased run is harmless. */
  lemma LeasesMakeRunsHarmless(c: Config, now: int, acts: seq<Action>, s: State)
    requires LeasedRun(c, Init(now), acts, s)
    ensures Exec(c, Init(now), acts) == Some(s) && HarmlessRun(c, Init(now), acts)
  {
    InitLeased(c, now);
    LeasedIsHarmlessRun(c, Init(now), acts, s);
  }

  /** So each batch's handle() effects are committed at most once, however often its message is delivered. */
  lemma WorkIsCommittedAtMostOnce(c: Config, now: int, acts: seq<Action>, s: State, q: int)
    requires LeasedRun(c, Init(now), acts, s)
    ensures s.hist.commits[q] <= 1
    ensures s.hist.commits[q] == 1 <==> q != DISPATCH_BATCH_SEQ && IsCompleted(s.rows, q)
  {
    LeasesMakeRunsHarmless(c, now, acts, s);
    WorkIsCommittedOnceExactly(c, now, acts, s);
  }

  /** And the fan-in is exact and closes once: the counter is the number of completed batches, never more than
      planned, and the last-batch branch was committed exactly when every batch is completed, and once. */
  lemma FanInClosesExactlyOnce(c: Config, now: int, acts: seq<Action>, s: State)
    requires LeasedRun(c, Init(now), acts, s)
    ensures s.hist.fires <= 1
    ensures s.hist.fires == 1 <==> c.planned > 0 && forall q :: 1 <= q <= c.planned ==> IsCompleted(s.rows, q)
    ensures DISPATCH_BATCH_SEQ in s.rows ==>
              s.rows[DISPATCH_BATCH_SEQ].done == |CompletedSeqs(s.rows)| <= c.planned
  {
    LeasesMakeRunsHarmless(c, now, acts, s);
    HarmlessRunClosesOnce(c, now, acts, s);
  }
}
