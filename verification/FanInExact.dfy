/** When exactly the fan-in is exact, over all runs and with no assumption on leases: a batch's work is committed
    once and only for a completed row, exactly when no write of the run meets a row it does not expect. */
module FanInExact {
  import opened Options
  import opened PipelineRows
  import opened FanIn
  import opened FanInSafety

  /** Nothing was taken back, and every commit was a transition. */
  ghost predicate Exact(s: State) {
    s.hist.undone == multiset{} && s.hist.commits == s.hist.transitions
  }

  /** A commit finds its row running; neither a recorded failure nor the write of a stale start meets a completed
      row. */
  predicate Harmless(s: State, a: Action) {
    if a.WorkerAct? && a.w in s.workers then
      var p := s.workers[a.w];
      match a.step
      case CommitBatch(_) => Transitions(s.rows, p.batchSeq)
      case FailBatch(_) => !IsCompleted(s.rows, p.batchSeq)
      case WriteStartRow(_) => p.phase == Starting(SeenStale) ==> !IsCompleted(s.rows, p.batchSeq)
      case _ => true
    else true
  }

  ghost predicate HarmlessRun(c: Config, s: State, acts: seq<Action>)
    decreases |acts|
  {
    acts == [] ||
    (Harmless(s, acts[0]) && Step(c, s, acts[0]).Some? && HarmlessRun(c, Step(c, s, acts[0]).value, acts[1..]))
  }

  // ----- counting -----

  function UpTo(n: nat): (r: set<int>)
    ensures |r| == n
    ensures forall q :: q in r <==> 1 <= q <= n
  {
    if n == 0 then {} else UpTo(n - 1) + {n}
  }

  lemma {:induction false} SubsetSize<T>(a: set<T>, b: set<T>)
    requires a <= b
    ensures |a| <= |b|
    ensures |a| == |b| ==> a == b
  {
    if x :| x in a {
      SubsetSize(a - {x}, b - {x});
    } else {
      assert a == {};
    }
  }

  lemma CompletedMember(rows: Rows, q: int)
    ensures q in CompletedSeqs(rows) <==> q > DISPATCH_BATCH_SEQ && IsCompleted(rows, q)
  {
  }

  /** Transitions are completed rows plus completions taken back, and N completed rows are all of the seqs 1..N. */
  lemma CompletedCount(c: Config, s: State)
    requires Safe(c, s)
    ensures |s.hist.transitions| == |CompletedSeqs(s.rows)| + |s.hist.undone| && |CompletedSeqs(s.rows)| <= c.planned
    ensures |CompletedSeqs(s.rows)| == c.planned <==> forall q :: 1 <= q <= c.planned ==> IsCompleted(s.rows, q)
  {
    TransitionsSplit(c, s);
    assert |multiset(CompletedSeqs(s.rows))| == |CompletedSeqs(s.rows)|;
    assert CompletedSeqs(s.rows) <= UpTo(c.planned);
    SubsetSize(CompletedSeqs(s.rows), UpTo(c.planned));
    if forall q :: 1 <= q <= c.planned ==> IsCompleted(s.rows, q) {
      forall q | q in UpTo(c.planned) ensures q in CompletedSeqs(s.rows) {
        CompletedMember(s.rows, q);
      }
      assert CompletedSeqs(s.rows) == UpTo(c.planned);
    } else {
      var q :| 1 <= q <= c.planned && !IsCompleted(s.rows, q);
      assert q in UpTo(c.planned) && q !in CompletedSeqs(s.rows);
    }
  }

  // ----- one step -----

  /** A step that writes no batch row keeps the accounts. */
  lemma QuietStep(c: Config, s: State, a: Action, next: State)
    requires Step(c, s, a) == Some(next) && !(a.WorkerAct? && WritesRows(a.step))
    ensures next.hist.commits == s.hist.commits && next.hist.transitions == s.hist.transitions
    ensures next.hist.undone == s.hist.undone && next.hist.fires == s.hist.fires
  {
    match a
    case Tick(_) =>
    case DispatcherAct(d, move) =>
      if !move.BeginDispatch? {
        DispatcherFrames(c, s, d, move, next);
      }
    case WorkerAct(w, step) =>
      if !step.Deliver? {
        WorkerFrames(c, s, w, step, next);
      }
    case PublisherAct(pub) => PublisherFrames(s, pub, next);
    case OperatorAct(_, _) =>
    case MailAct(_) =>
  }

  /** A write that completes nothing keeps the accounts exactly when it takes no completion back. */
  lemma TakingBack(c: Config, s: State, w: nat, act: WorkerAction, next: State)
    requires w in s.workers && WorkerStep(c, s, w, s.workers[w], act) == Some(next)
    requires act.WriteStartRow? || act.FailBatch?
    ensures next.hist.commits == s.hist.commits && next.hist.transitions == s.hist.transitions
    ensures next.hist.fires == s.hist.fires && s.hist.undone <= next.hist.undone
    ensures next.hist.undone == s.hist.undone <==> Harmless(s, WorkerAct(w, act))
  {
    var q := s.workers[w].batchSeq;
    assert (s.hist.undone + multiset{q})[q] == s.hist.undone[q] + 1;
    assert s.hist.undone + multiset{} == s.hist.undone;
  }

  lemma Committing(c: Config, s: State, w: nat, successors: nat, next: State)
    requires Safe(c, s) && w in s.workers
    requires WorkerStep(c, s, w, s.workers[w], CommitBatch(successors)) == Some(next)
    ensures next.hist.undone == s.hist.undone
    ensures Exact(next) ==> Exact(s)
    ensures Exact(s) ==> (Exact(next) <==> Transitions(s.rows, s.workers[w].batchSeq))
  {
    var p := s.workers[w];
    var q := p.batchSeq;
    assert q in s.hist.emitted && PlannedKnown(c, s);
    assert next == CommitTx(s, w, p, successors);
    if Transitions(s.rows, q) {
      forall x: int
        ensures next.hist.commits[x] - next.hist.transitions[x] == s.hist.commits[x] - s.hist.transitions[x]
      {
      }
      if next.hist.commits == next.hist.transitions {
        forall x: int ensures s.hist.commits[x] == s.hist.transitions[x] {
          assert next.hist.commits[x] == next.hist.transitions[x];
        }
        assert s.hist.commits == s.hist.transitions;
      }
    } else {
      assert s.hist.transitions[q] <= s.hist.commits[q];
      assert next.hist.commits[q] == s.hist.commits[q] + 1 && next.hist.transitions == s.hist.transitions;
    }
  }

  /** One step keeps the accounts exact exactly when it is harmless, and no step makes them exact again. */
  lemma HarmlessStep(c: Config, s: State, a: Action, next: State)
    requires Safe(c, s) && Step(c, s, a) == Some(next)
    ensures Exact(next) ==> Exact(s)
    ensures Exact(s) ==> (Exact(next) <==> Harmless(s, a))
  {
    if a.WorkerAct? && WritesRows(a.step) {
      if a.step.CommitBatch? {
        Committing(c, s, a.w, a.step.successors, next);
      } else {
        TakingBack(c, s, a.w, a.step, next);
      }
    } else {
      QuietStep(c, s, a, next);
    }
  }

  // ----- every run -----

  lemma {:induction false} ExactRun(c: Config, s: State, acts: seq<Action>, last: State)
    requires Safe(c, s) && Exec(c, s, acts) == Some(last)
    ensures Safe(c, last)
    ensures Exact(last) ==> Exact(s)
    ensures Exact(s) ==> (Exact(last) <==> HarmlessRun(c, s, acts))
    decreases |acts|
  {
    if acts != [] {
      var next := Step(c, s, acts[0]).value;
      StepSafe(c, s, acts[0], next);
      HarmlessStep(c, s, acts[0], next);
      ExactRun(c, next, acts[1..], last);
    }
  }

  /** The accounts are exact exactly when each batch is committed at most once, and once when it is completed. */
  lemma ExactMeans(c: Config, s: State)
    requires Safe(c, s)
    ensures Exact(s) <==> forall q :: s.hist.commits[q] <= 1
                                      && (s.hist.commits[q] == 1 <==> q != DISPATCH_BATCH_SEQ && IsCompleted(s.rows, q))
  {
    assert DISPATCH_BATCH_SEQ !in s.hist.emitted && DISPATCH_BATCH_SEQ !in s.hist.commits;
    assert forall q :: s.hist.transitions[q] <= s.hist.commits[q];
    if forall q :: s.hist.commits[q] <= 1
                   && (s.hist.commits[q] == 1 <==> q != DISPATCH_BATCH_SEQ && IsCompleted(s.rows, q)) {
      forall q: int ensures s.hist.undone[q] == 0 && s.hist.commits[q] == s.hist.transitions[q] {
        assert s.hist.transitions[q] <= s.hist.commits[q];
      }
      assert s.hist.undone == multiset{};
    }
  }

  /** Effectively once, exactly: in any run whatever, every batch's work is committed at most once, and once just when
      its row is completed, if and only if every step was harmless. */
  lemma WorkIsCommittedOnceExactly(c: Config, now: int, acts: seq<Action>, s: State)
    requires Exec(c, Init(now), acts) == Some(s)
    ensures (forall q :: s.hist.commits[q] <= 1
                         && (s.hist.commits[q] == 1 <==> q != DISPATCH_BATCH_SEQ && IsCompleted(s.rows, q)))
       <==> HarmlessRun(c, Init(now), acts)
  {
    InitSafe(c, now);
    ExactRun(c, Init(now), acts, s);
    ExactMeans(c, s);
  }
}
