/** Composing runs, and a result about the states they reach: skipping completed batches in the outbox changes
    nothing. */
module FanInRuns {
  import opened Options
  import opened PipelineRows
  import opened OutboxRows
  import opened FanIn
  import opened FanInLease

  lemma {:induction false} ExecCompose(c: Config, s: State, xs: seq<Action>, mid: State, ys: seq<Action>)
    requires Exec(c, s, xs) == Some(mid)
    ensures Exec(c, s, xs + ys) == Exec(c, mid, ys)
    decreases |xs|
  {
    if xs == [] {
      assert xs + ys == ys;
    } else {
      var next := Step(c, s, xs[0]).value;
      ExecCompose(c, next, xs[1..], mid, ys);
      assert (xs + ys)[0] == xs[0] && (xs + ys)[1..] == xs[1..] + ys;
      assert Exec(c, s, xs + ys) == Exec(c, next, (xs + ys)[1..]);
    }
  }

  lemma Append(c: Config, s: State, xs: seq<Action>, mid: State, a: Action)
    requires Exec(c, s, xs) == Some(mid)
    ensures Exec(c, s, xs + [a]) == Step(c, mid, a)
  {
    ExecCompose(c, s, xs, mid, [a]);
    var r := Step(c, mid, a);
    if r.Some? {
      assert Exec(c, r.value, [a][1..]) == r;
    }
  }

  lemma OneStep(c: Config, s: State, a: Action, next: State)
    requires LeaseAllows(s, a) && Step(c, s, a) == Some(next)
    ensures LeasedRun(c, s, [a], next)
  {
    assert LeasedRun(c, next, [a][1..], next);
  }

  lemma {:induction false} Compose(c: Config, s: State, xs: seq<Action>, mid: State, ys: seq<Action>, last: State)
    requires LeasedRun(c, s, xs, mid) && LeasedRun(c, mid, ys, last)
    ensures LeasedRun(c, s, xs + ys, last)
    decreases |xs|
  {
    if xs == [] {
      assert xs + ys == ys;
    } else {
      Compose(c, Step(c, s, xs[0]).value, xs[1..], mid, ys, last);
      assert (xs + ys)[1..] == xs[1..] + ys;
    }
  }

  lemma Extend(c: Config, s: State, xs: seq<Action>, mid: State, a: Action, last: State)
    requires LeasedRun(c, s, xs, mid) && LeaseAllows(mid, a) && Step(c, mid, a) == Some(last)
    ensures LeasedRun(c, s, xs + [a], last)
  {
    OneStep(c, mid, a, last);
    Compose(c, s, xs, mid, [a], last);
  }

  lemma FreshWorker(s: State) returns (w: nat)
    ensures w !in s.workers
  {
    w := Above(s.workers.Keys);
  }

  lemma {:induction false} Above(ids: set<nat>) returns (w: nat)
    ensures forall v <- ids :: v < w
    decreases |ids|
  {
    if v :| v in ids {
      var rest := Above(ids - {v});
      w := if v < rest then rest else v + 1;
      assert forall x <- ids :: x == v || x in ids - {v};
    } else {
      w := 0;
    }
  }

  /** A delivery and its start, granted because no lock is in force, with nothing in between. */
  lemma GrantStart(c: Config, s: State, w: nat, q: int) returns (xs: seq<Action>, t: State)
    requires q in s.main && w !in s.workers
    requires ReadStart(s.rows, q, s.now).SeenStale? || ReadStart(s.rows, q, s.now).SeenAbsent?
    ensures LeasedRun(c, s, xs, t)
    ensures t == s.(rows := t.rows, main := s.main - multiset{q}, hist := t.hist,
                    workers := s.workers[w := Worker(q, true, Handling(s.now))])
    ensures t.hist == s.hist.(undone := t.hist.undone)
    ensures q in t.rows && t.rows == s.rows[q := t.rows[q]]
    ensures t.rows[q].status.Running? && t.rows[q].startedAt == s.now
  {
    var seen := ReadStart(s.rows, q, s.now);
    var p := Worker(q, true, Starting(seen));
    var s1 := DeliverTo(s, w, q).value;
    xs := [WorkerAct(w, Deliver(q))];
    OneStep(c, s, xs[0], s1);
    var written := WriteStart(s.rows, seen, q, c.tenantId, 1, s.now).value;
    t := SetPhase(WriteBatchRow(s1, written, q), w, p, Handling(s.now));
    Extend(c, s, xs, s1, WorkerAct(w, WriteStartRow(1)), t);
    xs := xs + [WorkerAct(w, WriteStartRow(1))];
    assert t.workers == s.workers[w := Worker(q, true, Handling(s.now))];
  }

  lemma {:induction false} LeasedRunExecutes(c: Config, s: State, xs: seq<Action>, t: State)
    requires LeasedRun(c, s, xs, t)
    ensures Exec(c, s, xs) == Some(t)
    decreases |xs|
  {
    if xs != [] {
      LeasedRunExecutes(c, Step(c, s, xs[0]).value, xs[1..], t);
    }
  }

  // ----- skipping is a refinement of publishing everything -----

  predicate NeverSkips(acts: seq<Action>) {
    forall i :: 0 <= i < |acts| ==> !(acts[i].PublisherAct? && acts[i].pub.SkipCompleted?)
  }

  /** A superfluous delivery is answered 'already-completed' and leaves no trace. */
  lemma DropCompleted(c: Config, s: State, q: int, attempt: int) returns (xs: seq<Action>)
    requires q in s.main && IsCompleted(s.rows, q)
    ensures NeverSkips(xs) && LeasedRun(c, s, xs, s.(main := s.main - multiset{q}))
  {
    var w := FreshWorker(s);
    var s1 := DeliverTo(s, w, q).value;
    OneStep(c, s, WorkerAct(w, Deliver(q)), s1);
    var s2 := SetPhase(s1, w, s1.workers[w], Settled);
    Extend(c, s, [WorkerAct(w, Deliver(q))], s1, WorkerAct(w, WriteStartRow(attempt)), s2);
    var s3 := DropWorker(s2, w);
    Extend(c, s, [WorkerAct(w, Deliver(q))] + [WorkerAct(w, WriteStartRow(attempt))], s2, WorkerAct(w, Ack), s3);
    xs := [WorkerAct(w, Deliver(q))] + [WorkerAct(w, WriteStartRow(attempt))] + [WorkerAct(w, Ack)];
    assert s3.workers == s.workers;
  }

  /** Publishing a completed batch after all: its delivery is dropped, and the state is that of the skip. */
  lemma PublishInstead(c: Config, s: State, id: nat, next: State) returns (xs: seq<Action>)
    requires PublisherStep(s, SkipCompleted(id)) == Some(next)
    ensures NeverSkips(xs) && LeasedRun(c, s, xs, next)
  {
    var q := s.outbox[id].message.batchSeq;
    var published := PublisherStep(s, Publish(id)).value;
    OneStep(c, s, PublisherAct(Publish(id)), published);
    var dropped := DropCompleted(c, published, q, 1);
    assert published.main - multiset{q} == s.main;
    Compose(c, s, [PublisherAct(Publish(id))], published, dropped, next);
    xs := [PublisherAct(Publish(id))] + dropped;
  }

  lemma WithoutSkip(c: Config, s: State, a: Action, next: State) returns (xs: seq<Action>)
    requires Step(c, s, a) == Some(next)
    ensures NeverSkips(xs) && Exec(c, s, xs) == Some(next)
    ensures LeaseAllows(s, a) ==> LeasedRun(c, s, xs, next)
  {
    if a.PublisherAct? && a.pub.SkipCompleted? {
      xs := PublishInstead(c, s, a.pub.id, next);
      LeasedRunExecutes(c, s, xs, next);
    } else {
      xs := [a];
      assert Exec(c, next, xs[1..]) == Some(next);
      if LeaseAllows(s, a) {
        OneStep(c, s, a, next);
      }
    }
  }

  lemma {:induction false} WithoutSkips(c: Config, s: State, acts: seq<Action>, last: State) returns (xs: seq<Action>)
    requires Exec(c, s, acts) == Some(last)
    ensures NeverSkips(xs) && Exec(c, s, xs) == Some(last)
    ensures LeasedRun(c, s, acts, last) ==> LeasedRun(c, s, xs, last)
    decreases |acts|
  {
    if acts == [] {
      xs := [];
    } else {
      var next := Step(c, s, acts[0]).value;
      var first := WithoutSkip(c, s, acts[0], next);
      var rest := WithoutSkips(c, next, acts[1..], last);
      ExecCompose(c, s, first, next, rest);
      if LeasedRun(c, s, acts, last) {
        Compose(c, s, first, next, rest, last);
      }
      xs := first + rest;
    }
  }

  /** Skipping the batches that are already completed is unobservable: every state that any run reaches, rows,
      firings and queues included, is reached by a run whose publisher publishes every row, and by a leased one if the
      run is leased. */
  lemma SkippingIsUnobservable(c: Config, now: int, acts: seq<Action>, s: State)
    requires Exec(c, Init(now), acts) == Some(s)
    ensures exists xs :: NeverSkips(xs) && Exec(c, Init(now), xs) == Some(s)
                         && (LeasedRun(c, Init(now), acts, s) ==> LeasedRun(c, Init(now), xs, s))
  {
    var xs := WithoutSkips(c, Init(now), acts, s);
  }
}
