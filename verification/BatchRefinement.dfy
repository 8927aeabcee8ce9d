/** The batch consumer's `process` refines the protocol: every call, whatever its surroundings answer, is a
    run of one worker's actions, and leaves the rows, queues, outbox and committed work of that run. */
module BatchRefinement {
  import opened Options
  import opened PipelineRows
  import opened OutboxRows
  import opened Messages
  import opened FanIn
  import opened FanInRuns
  import opened BatchConsumer

  /** The republished copy, and the delivery itself if it was rejected. */
  function DeadLetters(q: int, fx: Effects): multiset<int> {
    (if fx.deadLettered then multiset{q} else multiset{})
        + (if fx.settlement == Rejected then multiset{q} else multiset{})
  }

  /** `t` is what `s` becomes when the consumer's effects are carried over to the protocol's state. */
  ghost predicate Carried(s: State, q: int, fx: Effects, t: State) {
    && t.rows == fx.rows
    && t.now == s.now
    && t.workers == s.workers && t.dispatchers == s.dispatchers && t.mail == s.mail
    && t.main == s.main - multiset{q}
    && t.dlq == s.dlq + DeadLetters(q, fx)
    && t.outbox == s.outbox + Staged(Successors(|fx.staged|))
    && t.hist.commits == s.hist.commits + (if fx.handled then multiset{q} else multiset{})
    && t.hist.emitted == s.hist.emitted
  }

  /** One more action of the worker. */
  lemma Act(c: Config, s: State, xs: seq<Action>, mid: State, w: nat, act: WorkerAction)
    returns (ys: seq<Action>, t: State)
    requires Exec(c, s, xs) == Some(mid) && w in mid.workers && !act.Deliver?
    requires WorkerStep(c, mid, w, mid.workers[w], act).Some?
    ensures Exec(c, s, ys) == Some(t) && WorkerStep(c, mid, w, mid.workers[w], act) == Some(t)
  {
    Append(c, s, xs, mid, WorkerAct(w, act));
    ys := xs + [WorkerAct(w, act)];
    t := Step(c, mid, WorkerAct(w, act)).value;
  }

  function PhaseAfter(seen: StartRead, now: int): WorkerPhase {
    match seen
    case SeenCompleted => Settled
    case SeenActive => Duplicate
    case _ => Handling(now)
  }

  /** The second half of `start`, with nothing between its read and its write. */
  lemma StartWrites(c: Config, s: State, w: nat, q: int, attempt: int) returns (t: State)
    requires w in s.workers && s.workers[w] == Worker(q, true, Starting(ReadStart(s.rows, q, s.now)))
    ensures WorkerStep(c, s, w, s.workers[w], WriteStartRow(attempt)) == Some(t)
    ensures t == s.(rows := t.rows, workers := t.workers, hist := s.hist.(undone := t.hist.undone))
    ensures Some(t.rows) == WriteStart(s.rows, ReadStart(s.rows, q, s.now), q, c.tenantId, attempt, s.now)
    ensures t.workers == s.workers[w := Worker(q, true, PhaseAfter(ReadStart(s.rows, q, s.now), s.now))]
  {
    t := WriteStartTx(c, s, w, s.workers[w], attempt);
  }

  /** The delivery has been taken and `start` has written: the row is as the service leaves it. */
  lemma Begin(c: Config, s: State, w: nat, m: Message) returns (xs: seq<Action>, t: State)
    requires BatchSeqOf(m) in s.main && w !in s.workers && m.tenantId == c.tenantId
    ensures Exec(c, s, xs) == Some(t)
    ensures
      var q := BatchSeqOf(m);
      var seen := ReadStart(s.rows, q, s.now);
      && t == s.(rows := t.rows, main := s.main - multiset{q}, workers := t.workers,
                 hist := s.hist.(undone := t.hist.undone))
      && Some(t.rows) == WriteStart(s.rows, seen, q, m.tenantId, m.attempt, s.now)
      && t.workers == s.workers[w := Worker(q, true, PhaseAfter(seen, s.now))]
  {
    var q := BatchSeqOf(m);
    Append(c, s, [], s, WorkerAct(w, Deliver(q)));
    var s1 := DeliverTo(s, w, q).value;
    t := StartWrites(c, s1, w, q, m.attempt);
    xs := [] + [WorkerAct(w, Deliver(q))];
    Append(c, s, xs, s1, WorkerAct(w, WriteStartRow(m.attempt)));
    xs := xs + [WorkerAct(w, WriteStartRow(m.attempt))];
    assert t.workers == s.workers[w := Worker(q, true, PhaseAfter(ReadStart(s.rows, q, s.now), s.now))];
  }

  /** The dead-letter path, from a handler or a start() that threw. */
  lemma GiveUp(c: Config, s: State, xs: seq<Action>, mid: State, w: nat, m: Message, env: Surroundings)
    returns (ys: seq<Action>, t: State)
    requires Exec(c, s, xs) == Some(mid) && w in mid.workers && mid.now == env.now
    requires mid.workers[w].batchSeq == BatchSeqOf(m) && mid.workers[w].held
    requires mid.workers[w].phase.Handling? || mid.workers[w].phase.Starting?
    ensures Exec(c, s, ys) == Some(t)
    ensures
      var fx := FailurePath(mid.rows, m, env);
      && t == mid.(rows := fx.rows, workers := mid.workers - {w}, dlq := mid.dlq + DeadLetters(BatchSeqOf(m), fx),
                   hist := t.hist)
      && t.hist == mid.hist.(undone := t.hist.undone)
  {
    ys, t := Act(c, s, xs, mid, w, HandlerThrows);
    assert t.workers - {w} == mid.workers - {w};
    if env.republishes {
      ys, t := Act(c, s, ys, t, w, DeadLetter);
      assert t.workers - {w} == mid.workers - {w};
      if env.failWorks {
        ys, t := RecordFailure(c, s, ys, t, w, RetryText(env.error));
      } else {
        ys, t := NackRun(c, s, ys, t, w);
      }
    } else {
      ys, t := NackRun(c, s, ys, t, w);
    }
  }

  /** The failure is recorded and the delivery acked. */
  lemma RecordFailure(c: Config, s: State, xs: seq<Action>, mid: State, w: nat, error: string)
    returns (ys: seq<Action>, t: State)
    requires Exec(c, s, xs) == Some(mid) && w in mid.workers && mid.workers[w].phase.DeadLettered?
    ensures Exec(c, s, ys) == Some(t)
    ensures t == mid.(rows := FailRow(mid.rows, mid.workers[w].batchSeq, error, mid.now), workers := mid.workers - {w},
                      hist := mid.hist.(undone := t.hist.undone))
  {
    ys, t := Act(c, s, xs, mid, w, FailBatch(error));
    ys, t := Act(c, s, ys, t, w, Ack);
    assert t.workers == mid.workers - {w};
  }

  lemma NackRun(c: Config, s: State, xs: seq<Action>, mid: State, w: nat) returns (ys: seq<Action>, t: State)
    requires Exec(c, s, xs) == Some(mid) && w in mid.workers && mid.workers[w].held
    requires mid.workers[w].phase.DeadLettered? || mid.workers[w].phase.Faulted?
    ensures Exec(c, s, ys) == Some(t)
    ensures t == mid.(workers := mid.workers - {w}, dlq := mid.dlq + multiset{mid.workers[w].batchSeq})
  {
    ys, t := Act(c, s, xs, mid, w, NackToDlq);
  }

  /** The transaction commits and the delivery is acked. */
  lemma Commit(c: Config, s: State, xs: seq<Action>, mid: State, w: nat, m: Message, env: Surroundings)
    returns (ys: seq<Action>, t: State)
    requires Exec(c, s, xs) == Some(mid) && w in mid.workers && mid.now == env.now
    requires mid.workers[w].batchSeq == BatchSeqOf(m) > 0 && mid.workers[w].phase.Handling?
    requires Transaction(mid.rows, m, env).Some?
    ensures Exec(c, s, ys) == Some(t)
    ensures
      var tx := Transaction(mid.rows, m, env).value;
      && t == mid.(rows := tx.0, workers := mid.workers - {w}, outbox := mid.outbox + Staged(Successors(|tx.1|)),
                   hist := t.hist)
      && t.hist == mid.hist.(commits := mid.hist.commits + multiset{BatchSeqOf(m)},
                             transitions := t.hist.transitions, fires := t.hist.fires)
  {
    var tx := Transaction(mid.rows, m, env).value;
    assert |tx.1| == 0 ==> Staged(Successors(|tx.1|)) == [];
    ys, t := Act(c, s, xs, mid, w, CommitBatch(|tx.1|));
    ys, t := Act(c, s, ys, t, w, Ack);
    assert t.workers == mid.workers - {w};
  }

  /** The delivery of a batch that needs no start: it is dropped, or handed on as a duplicate. */
  lemma PassOn(c: Config, s: State, xs: seq<Action>, u: State, w: nat, q: int, m: Message, env: Surroundings)
    returns (acts: seq<Action>, t: State)
    requires Exec(c, s, xs) == Some(u) && w in u.workers
             && u.workers[w] == Worker(q, true, PhaseAfter(ReadStart(s.rows, q, s.now), s.now))
    requires ReadStart(s.rows, q, s.now).SeenCompleted? || ReadStart(s.rows, q, s.now).SeenActive?
    requires q == BatchSeqOf(m) > 0 && env.now == s.now && env.startWorks
    ensures Exec(c, s, acts) == Some(t)
    ensures
      var fx := Processed(s.rows, m, env);
      t == u.(workers := u.workers - {w},
              dlq := u.dlq + DeadLetters(q, fx))
  {
    if ReadStart(s.rows, q, s.now).SeenCompleted? {
      acts, t := Act(c, s, xs, u, w, Ack);
    } else if env.republishes {
      acts, t := Act(c, s, xs, u, w, DeadLetter);
      assert t == u.(workers := u.workers[w := Worker(q, true, Settled)], dlq := u.dlq + multiset{q});
      acts, t := Act(c, s, acts, t, w, Ack);
    } else {
      acts, t := Act(c, s, xs, u, w, NackToDlq);
    }
    assert t.workers == u.workers - {w};
  }

  lemma ProcessedAfterStart(rows: Rows, started: Rows, m: Message, env: Surroundings)
    requires BatchSeqOf(m) > 0 && env.startWorks
    requires ReadStart(rows, BatchSeqOf(m), env.now).SeenStale? || ReadStart(rows, BatchSeqOf(m), env.now).SeenAbsent?
    requires Some(started) == WriteStart(rows, ReadStart(rows, BatchSeqOf(m), env.now), BatchSeqOf(m), m.tenantId,
                                         m.attempt, env.now)
    ensures Processed(rows, m, env) == match Transaction(started, m, env)
                                       case None => FailurePath(started, m, env)
                                       case Some(tx) => Effects(tx.0, true, tx.1, false, Acked)
  {
  }

  /** A started delivery commits, or takes the dead-letter path. */
  lemma HandleStarted(c: Config, s: State, xs: seq<Action>, u: State, w: nat, m: Message, env: Surroundings,
                      fx: Effects)
    returns (acts: seq<Action>, t: State)
    requires Exec(c, s, xs) == Some(u) && w in u.workers && u.now == env.now
    requires u.workers[w] == Worker(BatchSeqOf(m), true, Handling(env.now)) && BatchSeqOf(m) > 0
    requires fx == match Transaction(u.rows, m, env)
                   case None => FailurePath(u.rows, m, env)
                   case Some(tx) => Effects(tx.0, true, tx.1, false, Acked)
    ensures Exec(c, s, acts) == Some(t)
            && Carried(u.(workers := u.workers - {w}, main := u.main + multiset{BatchSeqOf(m)}), BatchSeqOf(m), fx, t)
  {
    assert Staged<OutboxMessage>(Successors(0)) == [];
    if Transaction(u.rows, m, env).Some? {
      acts, t := Commit(c, s, xs, u, w, m, env);
    } else {
      acts, t := GiveUp(c, s, xs, u, w, m, env);
    }
  }

  /** What giving a delivery up leaves. */
  lemma GivenUpCarries(s: State, q: int, fx: Effects, t: State)
    requires !fx.handled && fx.staged == []
    requires t == s.(rows := fx.rows, main := s.main - multiset{q}, dlq := s.dlq + DeadLetters(q, fx), hist := t.hist)
    requires t.hist == s.hist.(undone := t.hist.undone)
    ensures Carried(s, q, fx, t)
  {
    assert Staged<OutboxMessage>(Successors(0)) == [];
  }

  lemma StartThrows(c: Config, s: State, w: nat, m: Message, env: Surroundings)
    requires BatchSeqOf(m) in s.main && w !in s.workers && env.now == s.now && !env.startWorks
    ensures exists acts, t :: Exec(c, s, acts) == Some(t)
                              && Carried(s, BatchSeqOf(m), Processed(s.rows, m, env), t)
  {
    var q := BatchSeqOf(m);
    Append(c, s, [], s, WorkerAct(w, Deliver(q)));
    var u := DeliverTo(s, w, q).value;
    var acts, t := GiveUp(c, s, [] + [WorkerAct(w, Deliver(q))], u, w, m, env);
    assert u.workers - {w} == s.workers;
    GivenUpCarries(s, q, Processed(s.rows, m, env), t);
  }

  /** Every `process` call on a numbered delivery is a run of the protocol with the same effects. */
  lemma ProcessRefinesTheProtocol(c: Config, s: State, w: nat, m: Message, env: Surroundings)
    requires BatchSeqOf(m) > 0 && BatchSeqOf(m) in s.main && w !in s.workers
    requires env.now == s.now && m.tenantId == c.tenantId
    ensures exists acts, t :: Exec(c, s, acts) == Some(t)
                              && Carried(s, BatchSeqOf(m), Processed(s.rows, m, env), t)
  {
    var q := BatchSeqOf(m);
    var fx := Processed(s.rows, m, env);
    if !env.startWorks {
      StartThrows(c, s, w, m, env);
      return;
    }
    var xs, u := Begin(c, s, w, m);
    assert u.workers - {w} == s.workers;
    var acts, t;
    if ReadStart(s.rows, q, s.now).SeenCompleted? || ReadStart(s.rows, q, s.now).SeenActive? {
      acts, t := PassOn(c, s, xs, u, w, q, m, env);
      assert Staged<OutboxMessage>(Successors(0)) == [];
      assert Exec(c, s, acts) == Some(t) && Carried(s, q, fx, t);
    } else {
      StartedRefines(c, s, xs, u, w, m, env);
    }
  }

  lemma StartedRefines(c: Config, s: State, xs: seq<Action>, u: State, w: nat, m: Message, env: Surroundings)
    requires Exec(c, s, xs) == Some(u) && BatchSeqOf(m) > 0 && env.startWorks && env.now == s.now && w !in s.workers
    requires ReadStart(s.rows, BatchSeqOf(m), s.now).SeenStale? || ReadStart(s.rows, BatchSeqOf(m), s.now).SeenAbsent?
    requires Some(u.rows) == WriteStart(s.rows, ReadStart(s.rows, BatchSeqOf(m), s.now), BatchSeqOf(m), m.tenantId,
                                        m.attempt, s.now)
    requires BatchSeqOf(m) in s.main
    requires u == s.(rows := u.rows, main := s.main - multiset{BatchSeqOf(m)}, hist := s.hist.(undone := u.hist.undone),
                     workers := s.workers[w := Worker(BatchSeqOf(m), true, Handling(s.now))])
    ensures exists acts, t :: Exec(c, s, acts) == Some(t)
                              && Carried(s, BatchSeqOf(m), Processed(s.rows, m, env), t)
  {
    var q, fx := BatchSeqOf(m), Processed(s.rows, m, env);
    ProcessedAfterStart(s.rows, u.rows, m, env);
    var acts, t := HandleStarted(c, s, xs, u, w, m, env, fx);
    assert s.main == (s.main - multiset{q}) + multiset{q} && u.workers - {w} == s.workers;
    assert Exec(c, s, acts) == Some(t) && Carried(s, q, fx, t);
  }
}
