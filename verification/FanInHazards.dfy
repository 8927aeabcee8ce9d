/** The lease assumption is not decoration: concrete runs that drop one part of it and break the exactness
    that `FanInLease` proves. */
module FanInHazards {
  import opened Options
  import opened PipelineRows
  import opened OutboxRows
  import opened Emission
  import opened FanIn
  import opened FanInRuns

  lemma Do(c: Config, xs: seq<Action>, s: State, a: Action) returns (ys: seq<Action>, t: State)
    requires Exec(c, Init(0), xs) == Some(s) && Step(c, s, a).Some?
    ensures Step(c, s, a) == Some(t) && Exec(c, Init(0), ys) == Some(t)
  {
    t := Step(c, s, a).value;
    Append(c, Init(0), xs, s, a);
    ys := xs + [a];
  }

  /** Direct publishing of n batches, no checkpoint writes. */
  function Direct(n: nat): Config {
    Config("t", n, 0, false)
  }

  /** Every batch is queued and nothing was delivered yet. */
  ghost predicate Queued(n: nat, s: State) {
    && s.now == 0
    && s.rows.Keys == {0} && s.rows[0].planned == Some(n) && s.rows[0].done == 0
    && s.workers == map[]
    && s.main == multiset(Numbered(n))
    && s.dlq == multiset{}
    && s.hist.commits == multiset{} && s.hist.fires == 0
  }

  lemma Plan(n: nat) returns (xs: seq<Action>, s: State)
    requires n > 0
    ensures Exec(Direct(n), Init(0), xs) == Some(s)
    ensures s.dispatchers.Keys == {0} && s.dispatchers[0] == DispatchEmitting(0, Numbered(n), 0, None)
    ensures s.(rows := map[], dispatchers := map[], mail := Init(0).mail) == Init(0)
    ensures s.rows.Keys == {0} && s.rows[0].planned == Some(n) && s.rows[0].done == 0
  {
    var c := Direct(n);
    xs, s := Do(c, [], Init(0), DispatcherAct(0, BeginDispatch(true)));
    xs, s := Do(c, xs, s, DispatcherAct(0, WriteDispatchRow(1)));
    assert s.dispatchers[0] == DispatchHandling;
    xs, s := Do(c, xs, s, DispatcherAct(0, RecordPlanned));
    xs, s := Do(c, xs, s, DispatcherAct(0, ReadCompleted));
    assert CompletedSeqs(s.rows) == {};
    xs, s := Do(c, xs, s, DispatcherAct(0, ReadCheckpoint));
    xs, s := Do(c, xs, s, DispatcherAct(0, PlanEmission));
    NothingDone(Numbered(n));
  }

  lemma {:induction false} NothingDone(s: seq<int>)
    requires forall i :: 0 <= i < |s| ==> s[i] > 0
    ensures PendingOf(s, 0, {}) == s
  {
    if s != [] {
      NothingDone(s[1..]);
    }
  }

  lemma QueueOne() returns (xs: seq<Action>, s: State)
    ensures Exec(Direct(1), Init(0), xs) == Some(s) && Queued(1, s)
  {
    xs, s := Plan(1);
    xs, s := Do(Direct(1), xs, s, DispatcherAct(0, PublishNext));
    assert Numbered(1) == [1];
  }

  lemma QueueTwo() returns (xs: seq<Action>, s: State)
    ensures Exec(Direct(2), Init(0), xs) == Some(s) && Queued(2, s)
  {
    xs, s := Plan(2);
    assert Numbered(2) == [1, 2];
    xs, s := Do(Direct(2), xs, s, DispatcherAct(0, PublishNext));
    assert s.dispatchers[0] == DispatchEmitting(0, [1, 2], 1, None) && s.main == multiset{1};
    xs, s := Do(Direct(2), xs, s, DispatcherAct(0, PublishNext));
  }

  lemma {:induction false} ThenAll(c: Config, i: State, xs: seq<Action>, s: State, ys: seq<Action>, t: State)
    requires Exec(c, i, xs) == Some(s) && Exec(c, s, ys) == Some(t)
    ensures Exec(c, i, xs + ys) == Some(t)
    decreases |ys|
  {
    if ys == [] {
      assert xs + ys == xs;
    } else {
      var next := Step(c, s, ys[0]).value;
      Append(c, i, xs, s, ys[0]);
      ThenAll(c, i, xs + [ys[0]], next, ys[1..], t);
      assert xs + ys == (xs + [ys[0]]) + ys[1..];
    }
  }

  lemma Grant(c: Config, xs: seq<Action>, s: State, w: nat, q: int) returns (ys: seq<Action>, t: State)
    requires Exec(c, Init(0), xs) == Some(s) && w !in s.workers && q in s.main
    requires ReadStart(s.rows, q, s.now).SeenStale? || ReadStart(s.rows, q, s.now).SeenAbsent?
    ensures Exec(c, Init(0), ys) == Some(t)
    ensures t == s.(rows := t.rows, main := s.main - multiset{q}, hist := t.hist,
                    workers := s.workers[w := Worker(q, true, Handling(s.now))])
    ensures t.hist == s.hist.(undone := t.hist.undone)
    ensures q in t.rows && t.rows == s.rows[q := t.rows[q]]
    ensures t.rows[q].status.Running? && t.rows[q].startedAt == s.now
  {
    var zs;
    zs, t := GrantStart(c, s, w, q);
    LeasedRunExecutes(c, s, zs, t);
    ThenAll(c, Init(0), xs, s, zs, t);
    ys := xs + zs;
  }

  /** Worker 0 is granted batch 1, loses its delivery and overruns the lock; worker 1 is granted it again. */
  lemma Overrun(n: nat, xs: seq<Action>, s: State) returns (ys: seq<Action>, t: State)
    requires n > 0 && Exec(Direct(n), Init(0), xs) == Some(s) && Queued(n, s)
    ensures Exec(Direct(n), Init(0), ys) == Some(t)
    ensures t.workers.Keys == {0, 1}
    ensures t.workers[0] == Worker(1, false, Handling(0))
            && t.workers[1] == Worker(1, true, Handling(ACTIVE_BATCH_LOCK_MS))
    ensures t.rows.Keys == {0, 1} && t.rows[0] == s.rows[0] && t.rows[1].status.Running?
    ensures t.dlq == multiset{} && t.hist.commits == multiset{} && t.hist.fires == 0 && t.now == ACTIVE_BATCH_LOCK_MS
  {
    var c := Direct(n);
    assert Numbered(n)[0] == 1;
    ys, t := Grant(c, xs, s, 0, 1);
    ys, t := Do(c, ys, t, WorkerAct(0, LoseDelivery));
    assert t.workers.Keys == {0} && 1 in t.main && t.rows[1].startedAt == 0;
    ys, t := Do(c, ys, t, Tick(ACTIVE_BATCH_LOCK_MS));
    ys, t := Grant(c, ys, t, 1, 1);
  }

  /** A handler that commits after its lock has run out takes the last-batch branch a second time, and its
      work is committed twice. */
  lemma LateCommitClosesTwice()
    ensures exists xs, s :: Exec(Direct(1), Init(0), xs) == Some(s) && s.hist.fires == 2 && s.hist.commits[1] == 2
  {
    var c := Direct(1);
    var xs, s := QueueOne();
    xs, s := Overrun(1, xs, s);
    xs, s := Do(c, xs, s, WorkerAct(1, CommitBatch(0)));
    assert s.rows[0].done == 1 && IsCompleted(s.rows, 1) && s.hist.fires == 1;
    xs, s := Do(c, xs, s, WorkerAct(0, CommitBatch(0)));
    assert s.hist.fires == 2 && s.hist.commits[1] == 2;
  }

  /** Worker 0 threw; its lock ran out; worker 1 was granted the batch and completed it. */
  lemma CompletedByAnother() returns (xs: seq<Action>, s: State)
    ensures Exec(Direct(2), Init(0), xs) == Some(s)
    ensures s.rows.Keys == {0, 1} && s.rows[0].planned == Some(2) && s.rows[0].done == 1 && s.hist.fires == 0
    ensures s.workers.Keys == {0, 1} && s.workers[0] == Worker(1, false, Faulted(Some(0)))
  {
    var c := Direct(2);
    xs, s := QueueTwo();
    xs, s := Overrun(2, xs, s);
    xs, s := Do(c, xs, s, WorkerAct(0, HandlerThrows));
    assert s.workers.Keys == {0, 1};
    xs, s := Do(c, xs, s, WorkerAct(1, CommitBatch(0)));
  }

  /** Worker 0 records its failure after all, and takes worker 1's completion back. */
  lemma LateFailure() returns (xs: seq<Action>, s: State)
    ensures Exec(Direct(2), Init(0), xs) == Some(s)
    ensures s.rows.Keys == {0, 1} && s.rows[1].status.Failed?
    ensures s.rows[0].planned == Some(2) && s.rows[0].done == 1 && s.hist.fires == 0
    ensures 1 in s.dlq && s.workers.Keys == {0, 1}
  {
    xs, s := CompletedByAnother();
    xs, s := Do(Direct(2), xs, s, WorkerAct(0, DeadLetter));
    assert s.workers[0].phase == DeadLettered(Some(0));
    xs, s := Do(Direct(2), xs, s, WorkerAct(0, FailBatch("")));
  }

  /** The replay of that dead letter counts the batch twice, and the fan-in closes although batch 2 was
      never delivered. */
  lemma LateFailureClosesEarly()
    ensures exists xs, s :: Exec(Direct(2), Init(0), xs) == Some(s) && s.hist.fires == 1 && 2 !in s.rows
  {
    var c := Direct(2);
    var xs, s := LateFailure();
    xs, s := Do(c, xs, s, OperatorAct(1, ReplayPublish));
    xs, s := Grant(c, xs, s, 2, 1);
    xs, s := Do(c, xs, s, WorkerAct(2, CommitBatch(0)));
    assert s.hist.fires == 1 && 2 !in s.rows;
  }

  /** Batch 1 was completed by worker 0; a redelivery of it is with worker 1, whose start() is about to throw. */
  lemma CompletedAndRedelivered() returns (xs: seq<Action>, s: State)
    ensures Exec(Direct(1), Init(0), xs) == Some(s) && s.now == 0
    ensures s.rows.Keys == {0, 1} && s.rows[0].planned == Some(1) && s.rows[0].done == 1 && s.hist.fires == 1
    ensures s.hist.commits[1] == 1 && IsCompleted(s.rows, 1) && s.dlq == multiset{}
    ensures s.workers.Keys == {0, 1} && s.workers[1] == Worker(1, true, Starting(SeenCompleted))
  {
    var c := Direct(1);
    xs, s := HandlingWithLostDelivery();
    xs, s := Do(c, xs, s, WorkerAct(0, CommitBatch(0)));
    assert IsCompleted(s.rows, 1) && s.workers.Keys == {0} && 1 in s.main;
    xs, s := Do(c, xs, s, WorkerAct(1, Deliver(1)));
  }

  lemma FailedStartReopens() returns (xs: seq<Action>, s: State)
    ensures Exec(Direct(1), Init(0), xs) == Some(s) && s.now == 0
    ensures s.rows.Keys == {0, 1} && s.rows[0].planned == Some(1) && s.rows[0].done == 1 && s.rows[1].status.Failed?
    ensures s.hist.commits[1] == 1 && s.hist.fires == 1 && 1 in s.dlq && s.workers.Keys == {0, 1}
  {
    var c := Direct(1);
    xs, s := CompletedAndRedelivered();
    xs, s := Do(c, xs, s, WorkerAct(1, HandlerThrows));
    assert s.workers[1].phase == Faulted(None);
    xs, s := Do(c, xs, s, WorkerAct(1, DeadLetter));
    assert s.workers[1].phase == DeadLettered(None);
    xs, s := Do(c, xs, s, WorkerAct(1, FailBatch("")));
  }

  /** A start() that throws is enough, with no lock overrun: the failure is written over the completed row, and
      the replay of its dead letter commits the work and closes the fan-in a second time. */
  lemma FailedStartClosesTwice()
    ensures exists xs, s ::
              Exec(Direct(1), Init(0), xs) == Some(s) && s.now == 0 && s.hist.fires == 2 && s.hist.commits[1] == 2
  {
    var c := Direct(1);
    var xs, s := FailedStartReopens();
    xs, s := Do(c, xs, s, OperatorAct(1, ReplayPublish));
    assert 1 in s.main && s.rows[1].status.Failed?;
    xs, s := Grant(c, xs, s, 2, 1);
    xs, s := Do(c, xs, s, WorkerAct(2, CommitBatch(0)));
    assert s.now == 0 && s.hist.fires == 2 && s.hist.commits[1] == 2;
  }

  /** Batch 1 failed once, in time; its lost delivery and its dead letter are both back in the queue. */
  lemma FailedWithTwoCopies() returns (xs: seq<Action>, s: State)
    ensures Exec(Direct(1), Init(0), xs) == Some(s) && s.now == 0
    ensures s.rows.Keys == {0, 1} && s.rows[1].status.Failed? && s.workers.Keys == {0}
    ensures s.main[1] == 2 && s.hist.commits == multiset{}
  {
    var c := Direct(1);
    xs, s := ThrewWithLostDelivery();
    xs, s := Do(c, xs, s, WorkerAct(0, DeadLetter));
    assert s.workers[0].phase == DeadLettered(Some(0)) && s.dlq == multiset{1};
    xs, s := Do(c, xs, s, WorkerAct(0, FailBatch("")));
    assert s.rows[1].status.Failed? && s.rows.Keys == {0, 1} && s.workers.Keys == {0};
    xs, s := Do(c, xs, s, OperatorAct(1, ReplayPublish));
  }

  lemma HandlingWithLostDelivery() returns (xs: seq<Action>, s: State)
    ensures Exec(Direct(1), Init(0), xs) == Some(s) && s.now == 0
    ensures s.rows.Keys == {0, 1} && s.rows[0].planned == Some(1) && s.rows[0].done == 0 && s.rows[1].status.Running?
    ensures s.workers == map[0 := Worker(1, false, Handling(0))]
    ensures s.main[1] == 1 && s.dlq == multiset{} && s.hist.commits == multiset{} && s.hist.fires == 0
  {
    var c := Direct(1);
    xs, s := QueueOne();
    assert Numbered(1)[0] == 1;
    xs, s := Grant(c, xs, s, 0, 1);
    xs, s := Do(c, xs, s, WorkerAct(0, LoseDelivery));
  }

  lemma ThrewWithLostDelivery() returns (xs: seq<Action>, s: State)
    ensures Exec(Direct(1), Init(0), xs) == Some(s) && s.now == 0
    ensures s.rows.Keys == {0, 1} && s.workers == map[0 := Worker(1, false, Faulted(Some(0)))]
    ensures s.main[1] == 1 && s.dlq == multiset{} && s.hist.commits == multiset{}
  {
    xs, s := HandlingWithLostDelivery();
    xs, s := Do(Direct(1), xs, s, WorkerAct(0, HandlerThrows));
  }

  /** Two deliveries that both read the row before either writes it are both granted, within their locks. */
  lemma SplitStartCommitsTwice()
    ensures exists xs, s :: Exec(Direct(1), Init(0), xs) == Some(s) && s.now == 0 && s.hist.commits[1] == 2
  {
    var c := Direct(1);
    var xs, s := FailedWithTwoCopies();
    xs, s := Do(c, xs, s, WorkerAct(1, Deliver(1)));
    xs, s := Do(c, xs, s, WorkerAct(2, Deliver(1)));
    assert s.workers[1].phase == Starting(SeenStale) && s.workers[2].phase == Starting(SeenStale);
    xs, s := BothGranted(c, xs, s);
    xs, s := Do(c, xs, s, WorkerAct(1, CommitBatch(0)));
    xs, s := Do(c, xs, s, WorkerAct(2, CommitBatch(0)));
    assert s.now == 0 && s.hist.commits[1] == 2;
  }

  lemma BothGranted(c: Config, xs: seq<Action>, s: State) returns (ys: seq<Action>, t: State)
    requires Exec(c, Init(0), xs) == Some(s) && {1, 2} <= s.workers.Keys && s.rows.Keys == {0, 1}
    requires s.workers[1] == s.workers[2] == Worker(1, true, Starting(SeenStale))
    ensures Exec(c, Init(0), ys) == Some(t) && {1, 2} <= t.workers.Keys && t.rows.Keys == {0, 1}
    ensures t.workers[1] == t.workers[2] == Worker(1, true, Handling(s.now))
    ensures t.now == s.now && t.hist.commits == s.hist.commits
  {
    ys, t := Do(c, xs, s, WorkerAct(1, WriteStartRow(1)));
    ys, t := Do(c, ys, t, WorkerAct(2, WriteStartRow(1)));
  }

  /** Two dispatchers that both claimed the row close an empty list twice. */
  lemma EmptyListClosesTwice()
    ensures exists xs, s ::
              && Exec(Direct(0), Init(0), xs) == Some(s) && s.now == 0
              && s.outbox == Staged(Successors(1)) + Staged(Successors(1))
  {
    var c := Direct(0);
    var xs, s := Do(c, [], Init(0), MailAct(SendCopy));
    xs, s := Do(c, xs, s, DispatcherAct(0, BeginDispatch(true)));
    xs, s := Do(c, xs, s, DispatcherAct(0, WriteDispatchRow(1)));
    assert s.dispatchers == map[0 := DispatchHandling] && s.mail.queued == 1 && ReadDispatch(s.rows).DispatchPresent?;
    xs, s := Do(c, xs, s, DispatcherAct(1, BeginDispatch(true)));
    xs, s := Do(c, xs, s, DispatcherAct(1, WriteDispatchRow(1)));
    assert s.dispatchers == map[0 := DispatchHandling, 1 := DispatchHandling] && s.outbox == [];
    xs, s := Do(c, xs, s, DispatcherAct(0, FinishEmpty(1)));
    assert s.dispatchers == map[1 := DispatchHandling] && s.outbox == Staged(Successors(1));
    xs, s := Do(c, xs, s, DispatcherAct(1, FinishEmpty(1)));
    assert s.outbox == Staged(Successors(1)) + Staged(Successors(1));
  }
}
