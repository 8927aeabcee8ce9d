/** No leased run is ever stuck: from every state it reaches there is a leased continuation (restart the
    dispatcher, wait out the leases, replay, redeliver) that completes every batch and closes the fan-in. */
module FanInProgress {
  import opened Options
  import opened PipelineRows
  import opened OutboxRows
  import opened Emission
  import opened FanIn
  import opened FanInSafety
  import opened FanInExact
  import opened FanInLease
  import opened FanInRuns

  /** One more step at the end of a leased run. */
  lemma Go(c: Config, s: State, xs: seq<Action>, t: State, a: Action) returns (ys: seq<Action>, u: State)
    requires LeasedRun(c, s, xs, t) && Leased(c, t) && LeaseAllows(t, a) && Step(c, t, a).Some?
    ensures Step(c, t, a) == Some(u) && LeasedRun(c, s, ys, u) && Leased(c, u)
  {
    u := Step(c, t, a).value;
    ys := xs + [a];
    Extend(c, s, xs, t, a, u);
    LeasedStep(c, t, a, u);
  }

  // ----- emitting what is missing -----

  ghost predicate AllEmitted(c: Config, s: State) {
    forall q :: 1 <= q <= c.planned ==> q in s.hist.emitted
  }

  lemma FreshDispatcher(s: State) returns (d: nat)
    ensures d !in s.dispatchers
  {
    d := Above(s.dispatchers.Keys);
  }

  /** Whatever holds the dispatch message can hand it back to the queue. */
  lemma RecallDispatch(c: Config, s: State) returns (xs: seq<Action>, t: State)
    requires HasDispatchCopy(s)
    ensures LeasedRun(c, s, xs, t) && t.mail.queued > 0 && t.rows == s.rows
  {
    if s.mail.queued > 0 {
      xs, t := [], s;
    } else if s.mail.dead > 0 {
      t := MailStep(s, ReplayCopy).value;
      xs := [MailAct(ReplayCopy)];
      OneStep(c, s, xs[0], t);
    } else {
      var d: nat :| DispatchCarriedBy(s, d);
      t := EndDispatcher(RequeueDispatch(s, d), d);
      xs := [DispatcherAct(d, CrashDispatcher)];
      OneStep(c, s, xs[0], t);
    }
  }

  /** A restarted dispatcher, left alone, claims the dispatch row and records the planned count. */
  lemma RestartDispatch(c: Config, s: State) returns (d: nat, xs: seq<Action>, t: State)
    requires c.planned > 0 && !IsCompleted(s.rows, DISPATCH_BATCH_SEQ) && s.mail.queued > 0
    ensures LeasedRun(c, s, xs, t)
    ensures d in t.dispatchers && t.dispatchers[d] == DispatchRecorded(None, None)
  {
    d := FreshDispatcher(s);
    var s1 := BeginDispatcher(s, d, true).value;
    xs := [DispatcherAct(d, BeginDispatch(true))];
    OneStep(c, s, xs[0], s1);
    var written := WriteDispatch(s.rows, ReadDispatch(s.rows), c.tenantId, 1, s.now).value;
    var s2 := SetDispatcher(s1.(rows := written), d, DispatchHandling);
    Extend(c, s, xs, s1, DispatcherAct(d, WriteDispatchRow(1)), s2);
    xs := xs + [DispatcherAct(d, WriteDispatchRow(1))];
    t := SetDispatcher(s2.(rows := RecordPlannedCount(written, c.planned)), d, DispatchRecorded(None, None));
    Extend(c, s, xs, s2, DispatcherAct(d, RecordPlanned), t);
    xs := xs + [DispatcherAct(d, RecordPlanned)];
  }

  /** Then it reads what is done and what was published, and reaches its emission loop. */
  lemma PlanRestart(c: Config, s: State, d: nat) returns (xs: seq<Action>, t: State)
    requires d in s.dispatchers && s.dispatchers[d] == DispatchRecorded(None, None)
    ensures LeasedRun(c, s, xs, t)
    ensures d in t.dispatchers && t.dispatchers[d].DispatchEmitting?
  {
    var done, from := CompletedSeqs(s.rows), CheckpointOf(s.rows);
    var s1 := SetDispatcher(s, d, DispatchRecorded(Some(done), None));
    xs := [DispatcherAct(d, ReadCompleted)];
    OneStep(c, s, xs[0], s1);
    var s2 := SetDispatcher(s1, d, DispatchRecorded(Some(done), Some(from)));
    Extend(c, s, xs, s1, DispatcherAct(d, ReadCheckpoint), s2);
    xs := xs + [DispatcherAct(d, ReadCheckpoint)];
    t := SetDispatcher(s2, d, DispatchEmitting(from, PendingOf(Numbered(c.planned), from, done), 0, None));
    Extend(c, s, xs, s2, DispatcherAct(d, PlanEmission), t);
    xs := xs + [DispatcherAct(d, PlanEmission)];
  }

  lemma {:induction false} RunEmission(c: Config, s: State, d: nat) returns (xs: seq<Action>, t: State)
    requires Leased(c, s) && d in s.dispatchers && s.dispatchers[d].DispatchEmitting?
    ensures LeasedRun(c, s, xs, t) && Leased(c, t) && AllEmitted(c, t)
    decreases |s.dispatchers[d].pending| - s.dispatchers[d].next, s.dispatchers[d].due.Some?
  {
    var p := s.dispatchers[d];
    assert DispatcherOk(c, s, p);
    if p.due.None? && p.next == |p.pending| {
      assert p.pending[p.next..] == [];
      xs, t := [], s;
    } else {
      var act := if p.due.Some? then WriteCheckpoint else if c.viaOutbox then StageChunk else PublishNext;
      var first, mid := Go(c, s, [], s, DispatcherAct(d, act));
      var rest;
      rest, t := RunEmission(c, mid, d);
      Compose(c, s, first, mid, rest, t);
      xs := first + rest;
    }
  }

  lemma EmitAll(c: Config, s: State) returns (xs: seq<Action>, t: State)
    requires Leased(c, s) && c.planned > 0
    ensures LeasedRun(c, s, xs, t) && Leased(c, t) && AllEmitted(c, t)
  {
    if s.hist.dispatched {
      assert AllEmittedUpTo(s, c.planned);
      xs, t := [], s;
    } else {
      var zeroth, recalled := RecallDispatch(c, s);
      var d, first, restarted := RestartDispatch(c, recalled);
      Compose(c, s, zeroth, recalled, first, restarted);
      first := zeroth + first;
      var second, planned := PlanRestart(c, restarted, d);
      Compose(c, s, first, restarted, second, planned);
      LeasedRunKeeps(c, s, first + second, planned);
      var rest;
      rest, t := RunEmission(c, planned, d);
      Compose(c, s, first + second, planned, rest, t);
      xs := first + second + rest;
    }
  }

  // ----- waiting out every lease -----

  /** No batch is within its lock and no unaccepted outbox row is within its claim. */
  ghost predicate Quiet(s: State) {
    && (forall q :: q in s.rows && q != DISPATCH_BATCH_SEQ ==> !ReadStart(s.rows, q, s.now).SeenActive?)
    && (forall i :: 0 <= i < |s.outbox| && i !in s.hist.accepted && s.outbox[i].claimedAt.Some? ==>
          s.outbox[i].claimedAt.value < s.now - CLAIM_GRACE_MS)
  }

  lemma {:induction false} LastStart(rows: Rows, seqs: set<int>) returns (t: int)
    requires seqs <= rows.Keys
    ensures forall q <- seqs :: rows[q].startedAt <= t
    decreases |seqs|
  {
    if x :| x in seqs {
      var rest := LastStart(rows, seqs - {x});
      t := if rest < rows[x].startedAt then rows[x].startedAt else rest;
      assert forall q <- seqs :: q == x || q in seqs - {x};
    } else {
      t := 0;
    }
  }

  lemma {:induction false} LastClaim(rows: seq<OutboxRow<OutboxMessage>>) returns (t: int)
    ensures forall i :: 0 <= i < |rows| && rows[i].claimedAt.Some? ==> rows[i].claimedAt.value <= t
  {
    if rows == [] {
      t := 0;
    } else {
      var last := rows[|rows| - 1];
      t := LastClaim(rows[..|rows| - 1]);
      t := if last.claimedAt.Some? && t < last.claimedAt.value then last.claimedAt.value else t;
    }
  }

  lemma Settle(c: Config, s: State) returns (xs: seq<Action>, t: State)
    ensures LeasedRun(c, s, xs, t) && Quiet(t) && t == s.(now := t.now)
  {
    var started := LastStart(s.rows, s.rows.Keys);
    var claimed := LastClaim(s.outbox);
    var latest := if started < claimed then claimed else started;
    var wait := latest + ACTIVE_BATCH_LOCK_MS + CLAIM_GRACE_MS + 1 - s.now;
    var ms := if wait < 0 then 0 else wait;
    xs, t := [Tick(ms)], s.(now := s.now + ms);
    OneStep(c, s, Tick(ms), t);
  }

  // ----- finishing one batch -----

  /** What it takes to hand a batch's message back: rows and clock stay, and only deliveries are counted. */
  ghost predicate Brought(s: State, q: int, t: State) {
    q in t.main && t.hist == s.hist.(accepted := t.hist.accepted) && t.rows == s.rows && t.now == s.now && Quiet(t)
  }

  /** Whatever holds the copy of an unfinished batch's message can hand it back to the main queue. */
  lemma BringToMain(c: Config, s: State, q: int) returns (xs: seq<Action>, t: State)
    requires OutboxOk(s) && Quiet(s) && HasCopy(s, q)
    ensures LeasedRun(c, s, xs, t) && Brought(s, q, t)
  {
    if q in s.main {
      xs, t := [], s;
    } else if q in s.dlq {
      t := OperatorStep(s, q, ReplayPublish).value;
      xs := [OperatorAct(q, ReplayPublish)];
      OneStep(c, s, xs[0], t);
    } else if w: nat :| CarriedBy(s, w, q) {
      t := DropWorker(s.(main := s.main + multiset{q}), w);
      xs := [WorkerAct(w, CrashWorker)];
      OneStep(c, s, xs[0], t);
    } else {
      var i: nat :| StagedAt(s, i, q);
      xs, t := PublishStaged(c, s, i, q);
    }
  }

  lemma PublishStaged(c: Config, s: State, i: nat, q: int) returns (xs: seq<Action>, t: State)
    requires OutboxOk(s) && Quiet(s) && StagedAt(s, i, q)
    ensures LeasedRun(c, s, xs, t) && Brought(s, q, t)
  {
    var mid := ClaimOne(s, i);
    xs := [PublisherAct(Claim({i}))];
    OneStep(c, s, xs[0], mid);
    t := PublishOne(mid, i, q);
    Extend(c, s, xs, mid, PublisherAct(Publish(i)), t);
    xs := xs + [PublisherAct(Publish(i))];
  }

  lemma ClaimOne(s: State, i: nat) returns (t: State)
    requires OutboxOk(s) && Quiet(s) && i < |s.outbox| && i !in s.hist.accepted
    ensures PublisherStep(s, Claim({i})) == Some(t)
    ensures t == s.(outbox := t.outbox, claimed := s.claimed + multiset({i})) && |t.outbox| == |s.outbox|
    ensures forall k :: 0 <= k < |s.outbox| ==>
            t.outbox[k] == if k == i then Claimed(s.outbox[k], s.now) else s.outbox[k]
  {
    assert s.outbox[i].publishedAt.None?;
    t := s.(outbox := ClaimRows(s.outbox, {i}, s.now), claimed := s.claimed + multiset({i}));
  }

  lemma PublishOne(s: State, i: nat, q: int) returns (t: State)
    requires i in s.claimed && i < |s.outbox| && s.outbox[i].message == BatchMessage(q)
    ensures PublisherStep(s, Publish(i)) == Some(t)
    ensures t == s.(main := s.main + multiset{q}, claimed := t.claimed, settled := t.settled, hist := t.hist)
    ensures t.hist == s.hist.(accepted := s.hist.accepted + {i})
  {
    t := PublisherStep(s, Publish(i)).value;
  }

  /** With its message in the queue and no lock in force, one worker completes the batch. */
  lemma CompleteQueued(c: Config, s: State, q: int) returns (xs: seq<Action>, t: State)
    requires Quiet(s) && q in s.main && q != DISPATCH_BATCH_SEQ && !IsCompleted(s.rows, q)
             && DISPATCH_BATCH_SEQ in s.rows
    ensures LeasedRun(c, s, xs, t) && Quiet(t)
    ensures t.hist.emitted == s.hist.emitted
    ensures |t.hist.transitions| == |s.hist.transitions| + 1
  {
    var w := FreshWorker(s);
    var first, u := GrantStart(c, s, w, q);
    t := CommitTx(u, w, u.workers[w], 0);
    Extend(c, s, first, u, WorkerAct(w, CommitBatch(0)), t);
    xs := first + [WorkerAct(w, CommitBatch(0))];
    CommitStaysQuiet(s, u, w, t);
  }

  lemma CommitStaysQuiet(s: State, u: State, w: nat, t: State)
    requires Quiet(s) && w in u.workers && DISPATCH_BATCH_SEQ in u.rows && u.workers[w].batchSeq != DISPATCH_BATCH_SEQ
    requires u.hist == s.hist.(undone := u.hist.undone) && u.now == s.now && u.outbox == s.outbox
    requires forall x :: x in u.rows && x != u.workers[w].batchSeq ==> x in s.rows && u.rows[x] == s.rows[x]
    requires t == CommitTx(u, w, u.workers[w], 0) && Transitions(u.rows, u.workers[w].batchSeq)
    ensures Quiet(t)
    ensures t.hist.emitted == s.hist.emitted && |t.hist.transitions| == |s.hist.transitions| + 1
  {
    assert t.outbox == s.outbox;
  }

  lemma {:induction false} CompleteAll(c: Config, s: State) returns (xs: seq<Action>, t: State)
    requires Leased(c, s) && Quiet(s) && AllEmitted(c, s)
    ensures LeasedRun(c, s, xs, t) && Leased(c, t)
    ensures forall q :: 1 <= q <= c.planned ==> IsCompleted(t.rows, q)
    decreases c.planned - |s.hist.transitions|
  {
    CompletedCount(c, s);
    if q :| 1 <= q <= c.planned && !IsCompleted(s.rows, q) {
      assert s.hist.transitions[q] == 0 && q !in s.hist.commits;
      assert q in s.hist.emitted && PlannedKnown(c, s) && HasCopy(s, q);
      var first, mid := BringToMain(c, s, q);
      var second, next := CompleteQueued(c, mid, q);
      Compose(c, s, first, mid, second, next);
      LeasedRunKeeps(c, s, first + second, next);
      CompletedCount(c, next);
      var rest;
      rest, t := CompleteAll(c, next);
      Compose(c, s, first + second, next, rest, t);
      xs := first + second + rest;
    } else {
      xs, t := [], s;
    }
  }

  lemma CloseFrom(c: Config, s: State) returns (xs: seq<Action>, t: State)
    requires Leased(c, s) && c.planned > 0
    ensures LeasedRun(c, s, xs, t) && Leased(c, t)
    ensures forall q :: 1 <= q <= c.planned ==> IsCompleted(t.rows, q)
  {
    var first, emitted := EmitAll(c, s);
    var second, quiet := Settle(c, emitted);
    Compose(c, s, first, emitted, second, quiet);
    LeasedRunKeeps(c, s, first + second, quiet);
    var rest;
    rest, t := CompleteAll(c, quiet);
    Compose(c, s, first + second, quiet, rest, t);
    xs := first + second + rest;
  }

  /** The fan-in can always still close, whatever crashed, was redelivered or was dead-lettered before. */
  lemma FanInCanAlwaysClose(c: Config, now: int, acts: seq<Action>, s: State)
    requires c.planned > 0
    requires LeasedRun(c, Init(now), acts, s)
    ensures exists xs, t :: LeasedRun(c, s, xs, t) && t.hist.fires == 1 && CompletedSeqs(t.rows) == UpTo(c.planned)
  {
    InitLeased(c, now);
    LeasedRunKeeps(c, Init(now), acts, s);
    var xs, t := CloseFrom(c, s);
    Compose(c, Init(now), acts, s, xs, t);
    FanInClosesExactlyOnce(c, now, acts + xs, t);
    assert t.hist.fires == 1;
    AllOfThem(c, t);
  }

  lemma AllOfThem(c: Config, t: State)
    requires Safe(c, t) && forall q :: 1 <= q <= c.planned ==> IsCompleted(t.rows, q)
    ensures CompletedSeqs(t.rows) == UpTo(c.planned)
  {
    CompletedCount(c, t);
    forall q | q in UpTo(c.planned) ensures q in CompletedSeqs(t.rows) {
      CompletedMember(t.rows, q);
    }
    SubsetSize(UpTo(c.planned), CompletedSeqs(t.rows));
  }
}
