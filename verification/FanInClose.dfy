/** When exactly the fan-in closes as it should, over all runs and with no assumption on leases: the last-batch branch
    is committed at most once, and once just when every batch is completed. A run may commit a batch twice and still
    close once, so the condition is weaker than `FanInExact.Harmless`. */
module FanInClose {
  import opened Options
  import opened PipelineRows
  import opened FanIn
  import opened FanInSafety
  import opened FanInExact

  ghost predicate AllCompleted(c: Config, rows: Rows) {
    c.planned > 0 && forall q :: 1 <= q <= c.planned ==> IsCompleted(rows, q)
  }

  ghost predicate Closes(c: Config, s: State) {
    s.hist.fires <= 1 && (s.hist.fires == 1 <==> AllCompleted(c, s.rows))
  }

  /** Whether the counter snapshot of a commit would tell it that it is the last batch. */
  predicate WouldClose(rows: Rows, q: int) {
    && q != DISPATCH_BATCH_SEQ && DISPATCH_BATCH_SEQ in rows
    && Increment(CompleteAndIncrement(rows, q, 0)).isLast
  }

  /** A commit that would report the last batch completes it, and it is the only one that was missing; a completion is
      taken back only while some batch is missing. */
  predicate KeepsClose(c: Config, s: State, a: Action) {
    if a.WorkerAct? && a.w in s.workers then
      var p := s.workers[a.w];
      match a.step
      case CommitBatch(_) =>
        p.phase.Handling? && WouldClose(s.rows, p.batchSeq) ==>
          Transitions(s.rows, p.batchSeq) && |CompletedSeqs(s.rows)| + 1 == c.planned
      case FailBatch(_) => IsCompleted(s.rows, p.batchSeq) ==> |CompletedSeqs(s.rows)| < c.planned
      case WriteStartRow(_) =>
        p.phase == Starting(SeenStale) && IsCompleted(s.rows, p.batchSeq) ==> |CompletedSeqs(s.rows)| < c.planned
      case _ => true
    else true
  }

  ghost predicate KeepsCloseRun(c: Config, s: State, acts: seq<Action>)
    decreases |acts|
  {
    acts == [] ||
    (KeepsClose(c, s, acts[0]) && Step(c, s, acts[0]).Some? && KeepsCloseRun(c, Step(c, s, acts[0]).value, acts[1..]))
  }

  /** The last-batch branch was taken exactly when the counter has reached the planned count. */
  ghost predicate FiresOk(c: Config, s: State) {
    s.hist.fires > 0 <==> c.planned > 0 && |s.hist.transitions| >= c.planned
  }

  // ----- one step -----

  /** The counter tells a commit the truth about transitions, whatever that says about rows. */
  lemma CommitFires(c: Config, s: State, w: nat, p: Worker, successors: nat)
    requires DispatchRowOk(c, s) && PlannedKnown(c, s) && 1 <= p.batchSeq <= c.planned
    ensures
      var next := CommitTx(s, w, p, successors);
      && (WouldClose(s.rows, p.batchSeq) <==> |next.hist.transitions| >= c.planned)
      && next.hist.fires == s.hist.fires + if WouldClose(s.rows, p.batchSeq) then 1 else 0
  {
    var next := CommitTx(s, w, p, successors);
    assert |next.hist.transitions| == next.rows[DISPATCH_BATCH_SEQ].done;
  }

  lemma ClosingCommit(c: Config, s: State, w: nat, successors: nat, next: State)
    requires Safe(c, s) && Safe(c, next) && FiresOk(c, s) && w in s.workers
    requires WorkerStep(c, s, w, s.workers[w], CommitBatch(successors)) == Some(next)
    ensures FiresOk(c, next)
    ensures Closes(c, next) ==> Closes(c, s)
    ensures Closes(c, s) ==> (Closes(c, next) <==> KeepsClose(c, s, WorkerAct(w, CommitBatch(successors))))
  {
    var p := s.workers[w];
    assert p.batchSeq in s.hist.emitted && PlannedKnown(c, s);
    assert next == CommitTx(s, w, p, successors);
    CommitFires(c, s, w, p, successors);
    CommitCompletes(s, w, p, successors);
    ClosesByCount(c, s);
    ClosesByCount(c, next);
  }

  /** Closing as it should, told by the counts alone. */
  lemma ClosesByCount(c: Config, s: State)
    requires Safe(c, s)
    ensures |CompletedSeqs(s.rows)| <= c.planned && |CompletedSeqs(s.rows)| <= |s.hist.transitions|
    ensures Closes(c, s)
       <==> s.hist.fires <= 1 && (s.hist.fires == 1 <==> c.planned > 0 && |CompletedSeqs(s.rows)| == c.planned)
  {
    CompletedCount(c, s);
  }

  lemma CommitCompletes(s: State, w: nat, p: Worker, successors: nat)
    requires DISPATCH_BATCH_SEQ in s.rows && p.batchSeq > DISPATCH_BATCH_SEQ
    ensures
      var next := CommitTx(s, w, p, successors);
      var more := if Transitions(s.rows, p.batchSeq) then 1 else 0;
      && |CompletedSeqs(next.rows)| == |CompletedSeqs(s.rows)| + more
      && |next.hist.transitions| == |s.hist.transitions| + more
  {
    var next := CommitTx(s, w, p, successors);
    if Transitions(s.rows, p.batchSeq) {
      assert CompletedSeqs(next.rows) == CompletedSeqs(s.rows) + {p.batchSeq};
    } else {
      assert CompletedSeqs(next.rows) == CompletedSeqs(s.rows);
    }
  }

  /** A write that completes nothing loses a completion exactly when it is harmful. */
  lemma TakingBackCompletes(c: Config, s: State, w: nat, act: WorkerAction, next: State)
    requires Safe(c, s) && w in s.workers && WorkerStep(c, s, w, s.workers[w], act) == Some(next)
    requires act.WriteStartRow? || act.FailBatch?
    ensures
      var lost := if Harmless(s, WorkerAct(w, act)) then {} else {s.workers[w].batchSeq};
      CompletedSeqs(next.rows) == CompletedSeqs(s.rows) - lost
    ensures !Harmless(s, WorkerAct(w, act)) ==> s.workers[w].batchSeq in CompletedSeqs(s.rows)
  {
    var q := s.workers[w].batchSeq;
    assert q in s.hist.emitted;
    RowWritten(c, s, w, act, next);
    OneCompletedLess(s.rows, next.rows, q);
  }

  lemma OneCompletedLess(before: Rows, after: Rows, q: int)
    requires q > DISPATCH_BATCH_SEQ && after - {q} == before - {q}
    requires IsCompleted(after, q) ==> IsCompleted(before, q)
    ensures
      var lost := if IsCompleted(before, q) && !IsCompleted(after, q) then {q} else {};
      CompletedSeqs(after) == CompletedSeqs(before) - lost
    ensures IsCompleted(before, q) ==> q in CompletedSeqs(before)
  {
    assert forall x :: x != q ==> (x in after <==> x in after - {q}) && (x in before <==> x in before - {q});
    assert forall x :: x != q && x in before ==> after[x] == (after - {q})[x] && before[x] == (before - {q})[x];
  }

  lemma RowWritten(c: Config, s: State, w: nat, act: WorkerAction, next: State)
    requires w in s.workers && WorkerStep(c, s, w, s.workers[w], act) == Some(next)
    requires act.WriteStartRow? || act.FailBatch?
    ensures next.rows - {s.workers[w].batchSeq} == s.rows - {s.workers[w].batchSeq}
    ensures IsCompleted(next.rows, s.workers[w].batchSeq)
       <==> IsCompleted(s.rows, s.workers[w].batchSeq) && Harmless(s, WorkerAct(w, act))
  {
  }

  lemma ClosingStep(c: Config, s: State, a: Action, next: State)
    requires Safe(c, s) && Safe(c, next) && FiresOk(c, s) && Step(c, s, a) == Some(next)
    ensures FiresOk(c, next)
    ensures Closes(c, next) ==> Closes(c, s)
    ensures Closes(c, s) ==> (Closes(c, next) <==> KeepsClose(c, s, a))
  {
    ClosesByCount(c, s);
    ClosesByCount(c, next);
    if a.WorkerAct? && WritesRows(a.step) {
      if a.step.CommitBatch? {
        ClosingCommit(c, s, a.w, a.step.successors, next);
      } else {
        TakingBack(c, s, a.w, a.step, next);
        TakingBackCompletes(c, s, a.w, a.step, next);
      }
    } else {
      QuietStep(c, s, a, next);
      QuietCompletes(c, s, a, next);
    }
  }

  lemma SameCompleted(before: Rows, after: Rows)
    requires forall q :: q != DISPATCH_BATCH_SEQ ==>
               (q in after <==> q in before) && (q in before ==> after[q] == before[q])
    ensures CompletedSeqs(after) == CompletedSeqs(before)
  {
  }

  lemma DispatcherCompletes(c: Config, s: State, d: nat, move: DispatcherAction, next: State)
    requires Step(c, s, DispatcherAct(d, move)) == Some(next)
    ensures CompletedSeqs(next.rows) == CompletedSeqs(s.rows)
  {
    if !move.BeginDispatch? {
      DispatcherFrames(c, s, d, move, next);
      SameCompleted(s.rows, next.rows);
    }
  }

  lemma QuietWorkerRows(c: Config, s: State, w: nat, step: WorkerAction, next: State)
    requires Step(c, s, WorkerAct(w, step)) == Some(next) && !WritesRows(step)
    ensures next.rows == s.rows
  {
    if !step.Deliver? {
      WorkerFrames(c, s, w, step, next);
    }
  }

  /** No other step writes a row. */
  lemma QuietRows(c: Config, s: State, a: Action, next: State)
    requires Step(c, s, a) == Some(next) && !a.DispatcherAct? && !(a.WorkerAct? && WritesRows(a.step))
    ensures next.rows == s.rows
  {
    match a
    case WorkerAct(w, step) => QuietWorkerRows(c, s, w, step, next);
    case PublisherAct(pub) => PublisherFrames(s, pub, next);
    case _ =>
  }

  lemma QuietCompletes(c: Config, s: State, a: Action, next: State)
    requires Step(c, s, a) == Some(next) && !(a.WorkerAct? && WritesRows(a.step))
    ensures CompletedSeqs(next.rows) == CompletedSeqs(s.rows)
  {
    if a.DispatcherAct? {
      DispatcherCompletes(c, s, a.d, a.move, next);
    } else {
      QuietRows(c, s, a, next);
    }
  }

  // ----- every run -----

  lemma {:induction false} ClosingRun(c: Config, s: State, acts: seq<Action>, last: State)
    requires Safe(c, s) && FiresOk(c, s) && Exec(c, s, acts) == Some(last)
    ensures Closes(c, last) ==> Closes(c, s)
    ensures Closes(c, s) ==> (Closes(c, last) <==> KeepsCloseRun(c, s, acts))
    decreases |acts|
  {
    if acts != [] {
      var next := Step(c, s, acts[0]).value;
      StepSafe(c, s, acts[0], next);
      ClosingStep(c, s, acts[0], next);
      ClosingRun(c, next, acts[1..], last);
    }
  }

  /** In any run whatever the fan-in has closed at most once, and once just when every batch is completed, if and only
      if every step kept it so. */
  lemma FanInClosesExactly(c: Config, now: int, acts: seq<Action>, s: State)
    requires Exec(c, Init(now), acts) == Some(s)
    ensures Closes(c, s) <==> KeepsCloseRun(c, Init(now), acts)
  {
    InitSafe(c, now);
    assert c.planned > 0 ==> !IsCompleted(Init(now).rows, 1);
    ClosingRun(c, Init(now), acts, s);
  }

  // ----- harmless runs -----

  lemma {:induction false} HarmlessKeepsClose(c: Config, s: State, acts: seq<Action>, last: State)
    requires Safe(c, s) && FiresOk(c, s) && Closes(c, s) && Exact(s)
    requires Exec(c, s, acts) == Some(last) && HarmlessRun(c, s, acts)
    ensures KeepsCloseRun(c, s, acts)
    decreases |acts|
  {
    if acts != [] {
      var next := Step(c, s, acts[0]).value;
      StepSafe(c, s, acts[0], next);
      HarmlessStepKeepsClose(c, s, acts[0], next);
      HarmlessStep(c, s, acts[0], next);
      ClosingStep(c, s, acts[0], next);
      HarmlessKeepsClose(c, next, acts[1..], last);
    }
  }

  lemma HarmlessStepKeepsClose(c: Config, s: State, a: Action, next: State)
    requires Safe(c, s) && Safe(c, next) && Exact(s) && Harmless(s, a) && Step(c, s, a) == Some(next)
    ensures KeepsClose(c, s, a)
  {
    if a.WorkerAct? && a.step.CommitBatch? {
      var p := s.workers[a.w];
      assert p.batchSeq in s.hist.emitted && PlannedKnown(c, s);
      CompletedCount(c, s);
      CommitCompletes(s, a.w, p, a.step.successors);
      CompletedCount(c, next);
    }
  }

  /** If every batch's work is committed once, the fan-in closes once, and the counter is the number of completed
      batches. */
  lemma HarmlessRunClosesOnce(c: Config, now: int, acts: seq<Action>, s: State)
    requires Exec(c, Init(now), acts) == Some(s) && HarmlessRun(c, Init(now), acts)
    ensures Closes(c, s)
    ensures DISPATCH_BATCH_SEQ in s.rows ==>
              s.rows[DISPATCH_BATCH_SEQ].done == |CompletedSeqs(s.rows)| <= c.planned
  {
    InitSafe(c, now);
    assert c.planned > 0 ==> !IsCompleted(Init(now).rows, 1);
    HarmlessKeepsClose(c, Init(now), acts, s);
    FanInClosesExactly(c, now, acts, s);
    ExactRun(c, Init(now), acts, s);
    CompletedCount(c, s);
  }

  // ----- the empty list -----

  predicate ClosesEmpty(a: Action) {
    a.DispatcherAct? && a.move.FinishEmpty?
  }

  /** How often an empty list's successors were staged. */
  function EmptyCloses(acts: seq<Action>): nat {
    if acts == [] then 0 else (if ClosesEmpty(acts[0]) then 1 else 0) + EmptyCloses(acts[1..])
  }

  predicate PlannedSet(rows: Rows) {
    DISPATCH_BATCH_SEQ in rows && rows[DISPATCH_BATCH_SEQ].planned.Some?
  }

  /** Every closing of an empty list finds the planned count unset. */
  ghost predicate ClosesUnset(c: Config, s: State, acts: seq<Action>)
    decreases |acts|
  {
    acts == [] ||
    ((ClosesEmpty(acts[0]) ==> !PlannedSet(s.rows))
     && Step(c, s, acts[0]).Some? && ClosesUnset(c, Step(c, s, acts[0]).value, acts[1..]))
  }

  lemma NobodyWorks(c: Config, s: State)
    requires Safe(c, s) && c.planned == 0
    ensures s.workers.Keys == {}
  {
    assert forall w <- s.workers :: WorkerOk(s, s.workers[w]);
  }

  lemma PlannedByDispatcher(c: Config, s: State, d: nat, move: DispatcherAction, next: State)
    requires c.planned == 0 && d in s.dispatchers && DispatcherOk(c, s, s.dispatchers[d])
    requires DispatcherStep(c, s, d, s.dispatchers[d], move) == Some(next)
    ensures PlannedSet(next.rows) <==> PlannedSet(s.rows) || move.FinishEmpty?
  {
  }

  lemma PlannedStep(c: Config, s: State, a: Action, next: State)
    requires Safe(c, s) && c.planned == 0 && Step(c, s, a) == Some(next)
    ensures PlannedSet(next.rows) <==> PlannedSet(s.rows) || ClosesEmpty(a)
  {
    NobodyWorks(c, s);
    if a.DispatcherAct? {
      if !a.move.BeginDispatch? {
        PlannedByDispatcher(c, s, a.d, a.move, next);
      }
    } else {
      QuietRows(c, s, a, next);
    }
  }

  lemma {:induction false} EmptyRun(c: Config, s: State, acts: seq<Action>, last: State)
    requires Safe(c, s) && c.planned == 0 && Exec(c, s, acts) == Some(last)
    ensures PlannedSet(last.rows) <==> PlannedSet(s.rows) || EmptyCloses(acts) > 0
    ensures ClosesUnset(c, s, acts) <==> EmptyCloses(acts) <= if PlannedSet(s.rows) then 0 else 1
    decreases |acts|
  {
    if acts != [] {
      var next := Step(c, s, acts[0]).value;
      StepSafe(c, s, acts[0], next);
      PlannedStep(c, s, acts[0], next);
      EmptyRun(c, next, acts[1..], last);
    }
  }

  /** A dispatcher with an empty list closes the step itself. In any run that was done at most once exactly when every
      such closing found the planned count unset; and it was done exactly when the count is on record. */
  lemma EmptyListClosesOnceExactly(c: Config, now: int, acts: seq<Action>, s: State)
    requires c.planned == 0 && Exec(c, Init(now), acts) == Some(s)
    ensures EmptyCloses(acts) <= 1 <==> ClosesUnset(c, Init(now), acts)
    ensures EmptyCloses(acts) > 0 <==> PlannedSet(s.rows)
  {
    InitSafe(c, now);
    EmptyRun(c, Init(now), acts, s);
  }
}
