/** The dispatch consumer's `process` refines the protocol: every call, whatever its surroundings answer, is a
    run of one dispatcher's actions with the same rows, emissions, successors and dead letter. */
module DispatchRefinement {
  import opened Options
  import opened PipelineRows
  import opened OutboxRows
  import opened Emission
  import opened Messages
  import opened FanIn
  import opened FanInRuns
  import opened BatchConsumer
  import opened DispatchConsumer

  function Members(seqs: seq<int>): set<int> {
    set q | q in seqs
  }

  /** The republished copy, and the delivery itself if it was rejected. */
  function DeadLetters(fx: DispatchEffects): nat {
    (if fx.deadLettered then 1 else 0) + (if fx.settlement == Rejected then 1 else 0)
  }

  /** The call's effects on the protocol's state; the call took a copy of the dispatch message, and left one with the
      dead letters for its republishing and one for its rejection. */
  ghost predicate CarriedOver(c: Config, s: State, fx: DispatchEffects, t: State) {
    && t == s.(rows := fx.rows, main := t.main, mail := t.mail, outbox := t.outbox, hist := t.hist)
    && t.hist == s.hist.(emitted := s.hist.emitted + Members(Seqs(fx.sent)), dispatched := t.hist.dispatched)
    && t.main == s.main + (if c.viaOutbox then multiset{} else multiset(Seqs(fx.sent)))
    && t.outbox == s.outbox + (if c.viaOutbox then Staged(BatchMessages(Seqs(fx.sent))) else [])
                   + Staged(Successors(|fx.successors|))
    && t.mail == s.mail.(queued := t.mail.queued,
                         dead := s.mail.dead + DeadLetters(fx))
    && t.mail.queued == s.mail.queued - 1
  }

  /** One more action of the dispatcher. */
  lemma Move(c: Config, s: State, xs: seq<Action>, mid: State, d: nat, move: DispatcherAction)
    returns (ys: seq<Action>, t: State)
    requires Exec(c, s, xs) == Some(mid) && d in mid.dispatchers && !move.BeginDispatch?
    requires DispatcherStep(c, mid, d, mid.dispatchers[d], move).Some?
    ensures Exec(c, s, ys) == Some(t) && DispatcherStep(c, mid, d, mid.dispatchers[d], move) == Some(t)
  {
    Append(c, s, xs, mid, DispatcherAct(d, move));
    ys := xs + [DispatcherAct(d, move)];
    t := Step(c, mid, DispatcherAct(d, move)).value;
  }

  /** `s` with a live dispatcher d that holds its delivery. */
  function With(s: State, d: nat, p: Dispatcher): State {
    s.(dispatchers := s.dispatchers[d := p], mail := s.mail.(held := s.mail.held + {d}))
  }

  predicate Free(s: State, d: nat) {
    d !in s.dispatchers && d !in s.mail.held
  }

  lemma WithAgain(s: State, d: nat, p: Dispatcher, q: Dispatcher)
    ensures SetDispatcher(With(s, d, p), d, q) == With(s, d, q)
  {
    assert s.dispatchers[d := p][d := q] == s.dispatchers[d := q];
  }

  lemma Ended(s: State, d: nat, p: Dispatcher)
    requires Free(s, d)
    ensures EndDispatcher(With(s, d, p), d) == s
  {
    assert s.dispatchers[d := p] - {d} == s.dispatchers;
    assert s.mail.held + {d} - {d} == s.mail.held;
  }

  /** `s` after the call took its copy of the dispatch message. */
  function Taken(s: State): State
    requires s.mail.queued > 0
  {
    s.(mail := s.mail.(queued := s.mail.queued - 1))
  }

  /** `s` with more dead dispatch messages. */
  function Dead(s: State, copies: nat): State {
    s.(mail := s.mail.(dead := s.mail.dead + copies))
  }

  lemma Claim(c: Config, s: State, d: nat, attempt: int) returns (xs: seq<Action>, t: State)
    requires Free(s, d) && s.mail.queued > 0 && !ReadDispatch(s.rows).DispatchDone?
    ensures Exec(c, s, xs) == Some(t)
    ensures
      var started := WriteDispatch(s.rows, ReadDispatch(s.rows), c.tenantId, attempt, s.now);
      started.Some? && t == With(Taken(s).(rows := started.value), d, DispatchHandling)
  {
    Append(c, s, [], s, DispatcherAct(d, BeginDispatch(true)));
    var s1 := BeginDispatcher(s, d, true).value;
    xs, t := Move(c, s, [] + [DispatcherAct(d, BeginDispatch(true))], s1, d, WriteDispatchRow(attempt));
    assert t.dispatchers == s.dispatchers[d := DispatchHandling];
  }

  // ----- the catch block -----

  /** From any phase before it. */
  lemma GiveUpDispatch(c: Config, s: State, xs: seq<Action>, base: State, d: nat, p: Dispatcher, sent: seq<Message>,
                       env: DispatchSurroundings)
    returns (ys: seq<Action>, t: State)
    requires Exec(c, s, xs) == Some(With(base, d, p)) && Free(base, d) && base.now == env.now
             && !p.DispatchDeadLettered?
    ensures Exec(c, s, ys) == Some(t)
    ensures
      var fx := DispatchFailure(base.rows, sent, env);
      t == Dead(base, DeadLetters(fx)).(rows := fx.rows)
  {
    ys := Throw(c, s, xs, base, d, p);
    if env.republishes {
      ys := Republish(c, s, ys, base, d);
      if env.failWorks {
        ys, t := Record(c, s, ys, Dead(base, 1), d, RetryText(env.error));
      } else {
        ys, t := Nack(c, s, ys, Dead(base, 1), d, DispatchDeadLettered);
      }
    } else {
      ys, t := Nack(c, s, ys, base, d, DispatchFaulted);
    }
  }

  lemma Throw(c: Config, s: State, xs: seq<Action>, base: State, d: nat, p: Dispatcher) returns (ys: seq<Action>)
    requires Exec(c, s, xs) == Some(With(base, d, p)) && !p.DispatchDeadLettered?
    ensures Exec(c, s, ys) == Some(With(base, d, DispatchFaulted))
  {
    var t;
    ys, t := Move(c, s, xs, With(base, d, p), d, DispatchThrows);
    WithAgain(base, d, p, DispatchFaulted);
  }

  lemma Republish(c: Config, s: State, xs: seq<Action>, base: State, d: nat) returns (ys: seq<Action>)
    requires Exec(c, s, xs) == Some(With(base, d, DispatchFaulted))
    ensures Exec(c, s, ys) == Some(With(Dead(base, 1), d, DispatchDeadLettered))
  {
    var t;
    ys, t := Move(c, s, xs, With(base, d, DispatchFaulted), d, DeadLetterDispatch);
    WithAgain(Dead(base, 1), d, DispatchFaulted, DispatchDeadLettered);
  }

  lemma Record(c: Config, s: State, xs: seq<Action>, base: State, d: nat, error: string)
    returns (ys: seq<Action>, t: State)
    requires Exec(c, s, xs) == Some(With(base, d, DispatchDeadLettered)) && Free(base, d)
    ensures Exec(c, s, ys) == Some(t) && t == base.(rows := FailRow(base.rows, DISPATCH_BATCH_SEQ, error, base.now))
  {
    ys, t := Move(c, s, xs, With(base, d, DispatchDeadLettered), d, FailDispatch(error));
    Ended(base.(rows := FailRow(base.rows, DISPATCH_BATCH_SEQ, error, base.now)), d, DispatchDeadLettered);
  }

  lemma Nack(c: Config, s: State, xs: seq<Action>, base: State, d: nat, p: Dispatcher)
    returns (ys: seq<Action>, t: State)
    requires Exec(c, s, xs) == Some(With(base, d, p)) && Free(base, d)
             && (p.DispatchFaulted? || p.DispatchDeadLettered?)
    ensures Exec(c, s, ys) == Some(t) && t == Dead(base, 1)
  {
    ys, t := Move(c, s, xs, With(base, d, p), d, NackDispatch);
    Ended(Dead(base, 1), d, p);
  }

  // ----- record and plan -----

  lemma RecordRun(c: Config, s: State, xs: seq<Action>, base: State, d: nat) returns (ys: seq<Action>)
    requires Exec(c, s, xs) == Some(With(base, d, DispatchHandling)) && c.planned > 0
    ensures Exec(c, s, ys) == Some(With(base.(rows := RecordPlannedCount(base.rows, c.planned)), d,
                                        DispatchRecorded(None, None)))
  {
    var t;
    ys, t := Move(c, s, xs, With(base, d, DispatchHandling), d, RecordPlanned);
    WithAgain(base.(rows := RecordPlannedCount(base.rows, c.planned)), d, DispatchHandling,
              DispatchRecorded(None, None));
  }

  lemma PlanRun(c: Config, s: State, xs: seq<Action>, base: State, d: nat) returns (ys: seq<Action>)
    requires Exec(c, s, xs) == Some(With(base, d, DispatchRecorded(None, None)))
    ensures Exec(c, s, ys) == Some(With(base, d, Plan(c, base)))
  {
    var done, from := CompletedSeqs(base.rows), CheckpointOf(base.rows);
    var t;
    ys, t := Move(c, s, xs, With(base, d, DispatchRecorded(None, None)), d, ReadCompleted);
    WithAgain(base, d, DispatchRecorded(None, None), DispatchRecorded(Some(done), None));
    ys, t := Move(c, s, ys, t, d, ReadCheckpoint);
    WithAgain(base, d, DispatchRecorded(Some(done), None), DispatchRecorded(Some(done), Some(from)));
    ys, t := Move(c, s, ys, t, d, PlanEmission);
    WithAgain(base, d, DispatchRecorded(Some(done), Some(from)), Plan(c, base));
  }

  /** The phase at the head of the emission loop. */
  function Plan(c: Config, base: State): Dispatcher {
    DispatchEmitting(CheckpointOf(base.rows),
                     PendingOf(Numbered(c.planned), CheckpointOf(base.rows), CompletedSeqs(base.rows)), 0, None)
  }

  // ----- the loops -----

  /** `cur` after publishing some more seqs. */
  function Sent(c: Config, cur: State, rows: Rows, seqs: seq<int>): State {
    cur.(rows := rows,
         main := cur.main + (if c.viaOutbox then multiset{} else multiset(seqs)),
         outbox := cur.outbox + (if c.viaOutbox then Staged(BatchMessages(seqs)) else []),
         hist := cur.hist.(emitted := cur.hist.emitted + Members(seqs)))
  }

  lemma SentNothing(c: Config, cur: State)
    ensures Sent(c, cur, cur.rows, []) == cur
  {
    assert Staged(BatchMessages([])) == [] && Members([]) == {};
    assert cur.main + multiset{} == cur.main && cur.main + multiset([]) == cur.main;
    assert cur.outbox + [] == cur.outbox && cur.hist.emitted + {} == cur.hist.emitted;
  }

  lemma SentTwice(c: Config, cur: State, mid: Rows, a: seq<int>, rows: Rows, b: seq<int>)
    ensures Sent(c, Sent(c, cur, mid, a), rows, b) == Sent(c, cur, rows, a + b)
  {
    assert Members(a + b) == Members(a) + Members(b);
    assert cur.hist.emitted + Members(a) + Members(b) == cur.hist.emitted + Members(a + b);
    assert multiset(a + b) == multiset(a) + multiset(b);
    assert cur.main + multiset(a) + multiset(b) == cur.main + multiset(a + b);
    assert cur.main + multiset{} + multiset{} == cur.main + multiset{};
    assert Staged(BatchMessages(a)) + Staged(BatchMessages(b)) == Staged(BatchMessages(a + b));
    assert cur.outbox + Staged(BatchMessages(a)) + Staged(BatchMessages(b))
        == cur.outbox + Staged(BatchMessages(a + b));
    assert cur.outbox + [] + [] == cur.outbox + [];
  }

  lemma SliceJoins(s: seq<int>, i: nat, j: nat, k: nat)
    requires i <= j <= k <= |s|
    ensures s[i..j] + s[j..k] == s[i..k]
  {
  }

  /** The checkpoint write that is due after a send. */
  lemma CheckpointRun(c: Config, s: State, xs: seq<Action>, t: State, d: nat, from: int, pending: seq<int>, n: nat,
                      q: int)
    returns (ys: seq<Action>)
    requires Exec(c, s, xs) == Some(With(t, d, DispatchEmitting(from, pending, n, Some(q))))
    ensures Exec(c, s, ys) == Some(With(t.(rows := SetCheckpoint(t.rows, q)), d,
                                        DispatchEmitting(from, pending, n, None)))
  {
    var u;
    ys, u := Move(c, s, xs, With(t, d, DispatchEmitting(from, pending, n, Some(q))), d, WriteCheckpoint);
    WithAgain(t.(rows := SetCheckpoint(t.rows, q)), d, DispatchEmitting(from, pending, n, Some(q)),
              DispatchEmitting(from, pending, n, None));
  }

  /** One publish. */
  lemma PublishRun(c: Config, s: State, xs: seq<Action>, cur: State, d: nat, from: int, pending: seq<int>, i: nat)
    returns (ys: seq<Action>)
    requires !c.viaOutbox && i < |pending|
    requires Exec(c, s, xs) == Some(With(cur, d, DispatchEmitting(from, pending, i, None)))
    ensures
      var due := if Due(pending[i], c.checkpoint) then Some(pending[i]) else None;
      Exec(c, s, ys) == Some(With(Sent(c, cur, cur.rows, pending[i..i + 1]), d,
                                  DispatchEmitting(from, pending, i + 1, due)))
  {
    var u;
    var due := if Due(pending[i], c.checkpoint) then Some(pending[i]) else None;
    ys, u := Move(c, s, xs, With(cur, d, DispatchEmitting(from, pending, i, None)), d, PublishNext);
    assert pending[i..i + 1] == [pending[i]];
    assert Members([pending[i]]) == {pending[i]};
    assert cur.outbox + [] == cur.outbox;
    WithAgain(Sent(c, cur, cur.rows, [pending[i]]), d, DispatchEmitting(from, pending, i, None),
              DispatchEmitting(from, pending, i + 1, due));
  }

  /** One insert. */
  lemma StageRun(c: Config, s: State, xs: seq<Action>, cur: State, d: nat, from: int, pending: seq<int>, i: nat,
                 end: nat)
    returns (ys: seq<Action>)
    requires c.viaOutbox && i < |pending| && end == NextChunk(i, |pending|)
    requires Exec(c, s, xs) == Some(With(cur, d, DispatchEmitting(from, pending, i, None)))
    ensures Exec(c, s, ys) == Some(With(Sent(c, cur, cur.rows, pending[i..end]), d,
                                        DispatchEmitting(from, pending, end, Some(MaxOf(pending[i..end])))))
  {
    var u;
    ys, u := Move(c, s, xs, With(cur, d, DispatchEmitting(from, pending, i, None)), d, StageChunk);
    assert Members(pending[i..end]) == (set q | q in pending[i..end]);
    assert cur.main + multiset{} == cur.main;
    WithAgain(Sent(c, cur, cur.rows, pending[i..end]), d, DispatchEmitting(from, pending, i, None),
              DispatchEmitting(from, pending, end, Some(MaxOf(pending[i..end]))));
  }

  lemma FinishRun(c: Config, s: State, xs: seq<Action>, cur: State, d: nat, from: int, pending: seq<int>)
    returns (ys: seq<Action>)
    requires Exec(c, s, xs) == Some(With(cur, d, DispatchEmitting(from, pending, |pending|, None)))
    requires !c.viaOutbox && pending != [] ==> pending[|pending| - 1] > from
    ensures
      var rows := if c.viaOutbox || pending == [] then cur.rows else SetCheckpoint(cur.rows, pending[|pending| - 1]);
      Exec(c, s, ys) == Some(With(cur.(rows := rows), d, DispatchEmitted))
  {
    var u;
    var rows := if c.viaOutbox || pending == [] then cur.rows else SetCheckpoint(cur.rows, pending[|pending| - 1]);
    ys, u := Move(c, s, xs, With(cur, d, DispatchEmitting(from, pending, |pending|, None)), d, FinishEmission);
    WithAgain(cur.(rows := rows), d, DispatchEmitting(from, pending, |pending|, None), DispatchEmitted);
  }

  /** Where a loop leaves the dispatcher: past its emission if it is done, and able to throw in any case. */
  ghost predicate Reached(c: Config, s: State, ys: seq<Action>, cur: State, d: nat, p: Dispatcher, e: Emitted,
                          pending: seq<int>, i: nat) {
    && i <= e.sent <= |pending|
    && Exec(c, s, ys) == Some(With(Sent(c, cur, e.rows, pending[i..e.sent]), d, p))
    && !p.DispatchDeadLettered?
    && (e.stop.Done? ==> p == DispatchEmitted)
  }

  /** A loop that goes on from j, after pending[i..j] was sent, is a loop from i. */
  lemma ReachedFrom(c: Config, s: State, ys: seq<Action>, cur: State, rows: Rows, d: nat, p: Dispatcher, e: Emitted,
                    pending: seq<int>, i: nat, j: nat)
    requires i <= j <= |pending|
    requires Reached(c, s, ys, Sent(c, cur, rows, pending[i..j]), d, p, e, pending, j)
    ensures Reached(c, s, ys, cur, d, p, e, pending, i)
  {
    SentTwice(c, cur, rows, pending[i..j], e.rows, pending[j..e.sent]);
    SliceJoins(pending, i, j, e.sent);
  }

  lemma {:induction false} DirectRun(c: Config, s: State, xs: seq<Action>, cur: State, d: nat, from: int,
                                     pending: seq<int>, i: nat, sends: nat, checkpoints: nat)
    returns (ys: seq<Action>, p: Dispatcher)
    requires !c.viaOutbox && i <= |pending| && pending != [] && pending[|pending| - 1] > from
    requires Exec(c, s, xs) == Some(With(cur, d, DispatchEmitting(from, pending, i, None)))
    ensures Reached(c, s, ys, cur, d, p, DirectLoop(cur.rows, pending, i, c.checkpoint, sends, checkpoints), pending, i)
    decreases |pending| - i, 2
  {
    ys, p := xs, DispatchEmitting(from, pending, i, None);
    SentNothing(c, cur);
    assert pending[i..i] == [];
    if i == |pending| {
      if checkpoints > 0 {
        ys := FinishRun(c, s, xs, cur, d, from, pending);
        p := DispatchEmitted;
        SentNothing(c, cur.(rows := SetCheckpoint(cur.rows, pending[i - 1])));
      }
    } else if sends > 0 {
      ys := PublishRun(c, s, xs, cur, d, from, pending, i);
      ys, p := DirectRest(c, s, ys, cur, d, from, pending, i, sends, checkpoints,
                          DirectLoop(cur.rows, pending, i, c.checkpoint, sends, checkpoints));
    }
  }

  /** After a publish: its checkpoint if one is due, and the rest of the loop. */
  lemma {:induction false} DirectRest(c: Config, s: State, xs: seq<Action>, cur: State, d: nat, from: int,
                                      pending: seq<int>, i: nat, sends: nat, checkpoints: nat, e: Emitted)
    returns (ys: seq<Action>, p: Dispatcher)
    requires !c.viaOutbox && i < |pending| && pending[|pending| - 1] > from && sends > 0
    requires e == DirectLoop(cur.rows, pending, i, c.checkpoint, sends, checkpoints)
    requires
      var due := if Due(pending[i], c.checkpoint) then Some(pending[i]) else None;
      Exec(c, s, xs) == Some(With(Sent(c, cur, cur.rows, pending[i..i + 1]), d,
                                  DispatchEmitting(from, pending, i + 1, due)))
    ensures Reached(c, s, ys, cur, d, p, e, pending, i)
    decreases |pending| - i, 1
  {
    if Due(pending[i], c.checkpoint) && checkpoints == 0 {
      ys, p := xs, DispatchEmitting(from, pending, i + 1, Some(pending[i]));
      CheckpointStuck(c, s, xs, cur, d, p, pending, i, sends, e);
    } else {
      var zs, rows, left := DueRun(c, s, xs, cur, d, from, pending, i, sends, checkpoints, e);
      ys, p := DirectGoesOn(c, s, zs, cur, rows, d, from, pending, i, sends - 1, left, e);
    }
  }

  /** The checkpoint write that is due throws: the loop ends one batch further. */
  lemma CheckpointStuck(c: Config, s: State, xs: seq<Action>, cur: State, d: nat, p: Dispatcher, pending: seq<int>,
                        i: nat, sends: nat, e: Emitted)
    requires i < |pending| && sends > 0 && Due(pending[i], c.checkpoint) && p.DispatchEmitting?
    requires e == DirectLoop(cur.rows, pending, i, c.checkpoint, sends, 0)
    requires Exec(c, s, xs) == Some(With(Sent(c, cur, cur.rows, pending[i..i + 1]), d, p))
    ensures Reached(c, s, xs, cur, d, p, e, pending, i)
  {
  }

  lemma {:induction false} DirectGoesOn(c: Config, s: State, xs: seq<Action>, cur: State, rows: Rows, d: nat, from: int,
                                        pending: seq<int>, i: nat, sends: nat, checkpoints: nat, e: Emitted)
    returns (ys: seq<Action>, p: Dispatcher)
    requires !c.viaOutbox && i < |pending| && pending[|pending| - 1] > from
    requires e == DirectLoop(rows, pending, i + 1, c.checkpoint, sends, checkpoints)
    requires Exec(c, s, xs) == Some(With(Sent(c, cur, rows, pending[i..i + 1]), d,
                                         DispatchEmitting(from, pending, i + 1, None)))
    ensures Reached(c, s, ys, cur, d, p, e, pending, i)
    decreases |pending| - i, 0
  {
    ys, p := DirectRun(c, s, xs, Sent(c, cur, rows, pending[i..i + 1]), d, from, pending, i + 1, sends, checkpoints);
    ReachedFrom(c, s, ys, cur, rows, d, p, e, pending, i, i + 1);
  }

  lemma DueRun(c: Config, s: State, xs: seq<Action>, cur: State, d: nat, from: int, pending: seq<int>, i: nat,
               sends: nat, checkpoints: nat, e: Emitted)
    returns (ys: seq<Action>, rows: Rows, left: nat)
    requires i < |pending| && sends > 0 && (Due(pending[i], c.checkpoint) ==> checkpoints > 0)
    requires e == DirectLoop(cur.rows, pending, i, c.checkpoint, sends, checkpoints)
    requires
      var due := if Due(pending[i], c.checkpoint) then Some(pending[i]) else None;
      Exec(c, s, xs) == Some(With(Sent(c, cur, cur.rows, pending[i..i + 1]), d,
                                  DispatchEmitting(from, pending, i + 1, due)))
    ensures Exec(c, s, ys) == Some(With(Sent(c, cur, rows, pending[i..i + 1]), d,
                                        DispatchEmitting(from, pending, i + 1, None)))
    ensures e == DirectLoop(rows, pending, i + 1, c.checkpoint, sends - 1, left)
  {
    DirectLoopTurns(cur.rows, pending, i, c.checkpoint, sends, checkpoints);
    ys, rows, left := xs, cur.rows, checkpoints;
    if Due(pending[i], c.checkpoint) {
      rows, left := SetCheckpoint(cur.rows, pending[i]), checkpoints - 1;
      ys := CheckpointRun(c, s, xs, Sent(c, cur, cur.rows, pending[i..i + 1]), d, from, pending, i + 1, pending[i]);
    }
  }

  lemma DirectLoopTurns(rows: Rows, pending: seq<int>, i: nat, checkpoint: int, sends: nat, checkpoints: nat)
    requires i < |pending| && sends > 0
    ensures
      DirectLoop(rows, pending, i, checkpoint, sends, checkpoints)
      == if !Due(pending[i], checkpoint) then DirectLoop(rows, pending, i + 1, checkpoint, sends - 1, checkpoints)
         else if checkpoints == 0 then Emitted(rows, i + 1, CheckpointThrew)
         else DirectLoop(SetCheckpoint(rows, pending[i]), pending, i + 1, checkpoint, sends - 1, checkpoints - 1)
  {
  }

  lemma {:induction false} ChunkRun(c: Config, s: State, xs: seq<Action>, cur: State, d: nat, from: int,
                                    pending: seq<int>, i: nat, sends: nat, checkpoints: nat)
    returns (ys: seq<Action>, p: Dispatcher)
    requires c.viaOutbox && i <= |pending|
    requires Exec(c, s, xs) == Some(With(cur, d, DispatchEmitting(from, pending, i, None)))
    ensures Reached(c, s, ys, cur, d, p, ChunkLoop(cur.rows, pending, i, sends, checkpoints), pending, i)
    decreases |pending| - i
  {
    ys, p := xs, DispatchEmitting(from, pending, i, None);
    SentNothing(c, cur);
    assert pending[i..i] == [];
    if i == |pending| {
      ys := FinishRun(c, s, xs, cur, d, from, pending);
      p := DispatchEmitted;
    } else if sends > 0 {
      var end := NextChunk(i, |pending|);
      ys := StageRun(c, s, xs, cur, d, from, pending, i, end);
      ys, p := ChunkRest(c, s, ys, cur, d, from, pending, i, end, sends, checkpoints);
    }
  }

  lemma {:induction false} ChunkRest(c: Config, s: State, xs: seq<Action>, cur: State, d: nat, from: int,
                                     pending: seq<int>, i: nat, end: nat, sends: nat, checkpoints: nat)
    returns (ys: seq<Action>, p: Dispatcher)
    requires c.viaOutbox && i < |pending| && end == NextChunk(i, |pending|) && sends > 0
    requires Exec(c, s, xs) == Some(With(Sent(c, cur, cur.rows, pending[i..end]), d,
                                         DispatchEmitting(from, pending, end, Some(MaxOf(pending[i..end])))))
    ensures Reached(c, s, ys, cur, d, p, ChunkLoop(cur.rows, pending, i, sends, checkpoints), pending, i)
    decreases |pending| - i, 0
  {
    var mid := Sent(c, cur, cur.rows, pending[i..end]);
    var top := MaxOf(pending[i..end]);
    if checkpoints == 0 {
      ys, p := xs, DispatchEmitting(from, pending, end, Some(top));
    } else {
      var rows := SetCheckpoint(cur.rows, top);
      ys := CheckpointRun(c, s, xs, mid, d, from, pending, end, top);
      ys, p := ChunkRun(c, s, ys, mid.(rows := rows), d, from, pending, end, sends - 1, checkpoints - 1);
      ReachedFrom(c, s, ys, cur, rows, d, p, ChunkLoop(rows, pending, end, sends - 1, checkpoints - 1), pending, i,
                  end);
    }
  }

  // ----- the whole call -----

  function SettingsOf(c: Config): Settings {
    Settings(c.checkpoint, c.viaOutbox)
  }

  /** The planned seqs, as the pending messages carry them. */
  lemma PlanIsPending(c: Config, batches: seq<Message>, from: int, done: set<int>)
    requires Seqs(batches) == Numbered(c.planned)
    ensures
      var pending := Pending(batches, from, done);
      && PendingOf(Numbered(c.planned), from, done) == Seqs(pending)
      && (pending != [] ==> Seqs(pending)[|pending| - 1] > from)
  {
    PendingSeqs(batches, from, done);
    PendingIsLater(batches, from, done);
  }

  /** From the plan to the end of the emission loop. */
  lemma EmissionRun(c: Config, s: State, xs: seq<Action>, base: State, d: nat, batches: seq<Message>,
                    env: DispatchSurroundings)
    returns (ys: seq<Action>, p: Dispatcher)
    requires Seqs(batches) == Numbered(c.planned)
    requires Exec(c, s, xs) == Some(With(base, d, DispatchRecorded(None, None)))
    ensures
      var e, sent := EmissionOf(base.rows, batches, SettingsOf(c), env), SentBy(base.rows, batches, SettingsOf(c), env);
      && Exec(c, s, ys) == Some(With(Sent(c, base, e.rows, Seqs(sent)), d, p))
      && !p.DispatchDeadLettered? && (e.stop.Done? ==> p == DispatchEmitted)
  {
    var from, done := CheckpointOf(base.rows), CompletedSeqs(base.rows);
    var pending := Pending(batches, from, done);
    var seqs := Seqs(pending);
    PlanIsPending(c, batches, from, done);
    var e := EmissionOf(base.rows, batches, SettingsOf(c), env);
    assert Seqs(pending[..e.sent]) == seqs[0..e.sent];
    if !env.readsWork {
      SentNothing(c, base);
      ys, p := xs, DispatchRecorded(None, None);
    } else {
      ys := PlanRun(c, s, xs, base, d);
      ys, p := LoopRun(c, s, ys, base, d, from, seqs, env);
    }
  }

  lemma LoopRun(c: Config, s: State, xs: seq<Action>, base: State, d: nat, from: int, seqs: seq<int>,
                env: DispatchSurroundings)
    returns (ys: seq<Action>, p: Dispatcher)
    requires seqs != [] ==> seqs[|seqs| - 1] > from
    requires Exec(c, s, xs) == Some(With(base, d, DispatchEmitting(from, seqs, 0, None)))
    ensures Reached(c, s, ys, base, d, p, LoopOf(base.rows, seqs, SettingsOf(c), env.sends, env.checkpoints), seqs, 0)
  {
    if c.viaOutbox {
      ys, p := ChunkRun(c, s, xs, base, d, from, seqs, 0, env.sends, env.checkpoints);
    } else if seqs == [] {
      ys := FinishRun(c, s, xs, base, d, from, seqs);
      p := DispatchEmitted;
      SentNothing(c, base);
    } else {
      ys, p := DirectRun(c, s, xs, base, d, from, seqs, 0, env.sends, env.checkpoints);
    }
  }

  /** Record, emit, complete, or the catch block. */
  lemma RecordedRun(c: Config, s: State, xs: seq<Action>, base: State, d: nat, batches: seq<Message>,
                    env: DispatchSurroundings)
    returns (ys: seq<Action>, t: State)
    requires Exec(c, s, xs) == Some(With(base, d, DispatchRecorded(None, None))) && Free(base, d) && base.now == env.now
    requires Seqs(batches) == Numbered(c.planned)
    ensures Exec(c, s, ys) == Some(t)
    ensures
      var fx := FromRecord(base.rows, batches, SettingsOf(c), env);
      var sent := Sent(c, base, fx.rows, Seqs(fx.sent));
      t == if DeadLetters(fx) > 0 then Dead(sent, DeadLetters(fx)) else sent.(hist := sent.hist.(dispatched := true))
  {
    var p;
    ys, p := EmissionRun(c, s, xs, base, d, batches, env);
    var e, sent := EmissionOf(base.rows, batches, SettingsOf(c), env), SentBy(base.rows, batches, SettingsOf(c), env);
    var u := Sent(c, base, e.rows, Seqs(sent));
    if !e.stop.Done? || !env.completeWorks {
      ys, t := GiveUpDispatch(c, s, ys, u, d, p, sent, env);
    } else {
      ys, t := CompleteRun(c, s, ys, u, d);
    }
  }

  lemma CompleteRun(c: Config, s: State, xs: seq<Action>, base: State, d: nat) returns (ys: seq<Action>, t: State)
    requires Exec(c, s, xs) == Some(With(base, d, DispatchEmitted)) && Free(base, d)
    ensures Exec(c, s, ys) == Some(t)
    ensures t == base.(rows := CompleteRow(base.rows, DISPATCH_BATCH_SEQ, base.now),
                       hist := base.hist.(dispatched := true))
  {
    ys, t := Move(c, s, xs, With(base, d, DispatchEmitted), d, CompleteDispatch);
    Ended(base.(rows := CompleteRow(base.rows, DISPATCH_BATCH_SEQ, base.now), hist := base.hist.(dispatched := true)),
          d, DispatchEmitted);
  }

  lemma EmptyRun(c: Config, s: State, xs: seq<Action>, base: State, d: nat, successors: nat)
    returns (ys: seq<Action>, t: State)
    requires Exec(c, s, xs) == Some(With(base, d, DispatchHandling)) && Free(base, d) && c.planned == 0
    ensures Exec(c, s, ys) == Some(t)
    ensures t == base.(rows := CompleteRow(RecordPlannedCount(base.rows, 0), DISPATCH_BATCH_SEQ, base.now),
                       outbox := base.outbox + Staged(Successors(successors)), hist := base.hist.(dispatched := true))
  {
    ys, t := Move(c, s, xs, With(base, d, DispatchHandling), d, FinishEmpty(successors));
    Ended(t, d, DispatchHandling);
  }

  /** `t` is the taken state after these effects. */
  lemma Arrives(c: Config, s: State, fx: DispatchEffects, t: State)
    requires s.mail.queued > 0
    requires
      var sent := Sent(c, Dead(Taken(s), DeadLetters(fx)), fx.rows, Seqs(fx.sent));
      t == sent.(outbox := sent.outbox + Staged(Successors(|fx.successors|)),
                 hist := sent.hist.(dispatched := t.hist.dispatched))
    ensures CarriedOver(c, s, fx, t)
  {
  }

  lemma NothingSentYet(c: Config, base: State)
    ensures Seqs([]) == [] && Sent(c, base, base.rows, []) == base
    ensures base.outbox + Staged<OutboxMessage>(Successors(0)) == base.outbox
  {
    SentNothing(c, base);
    assert Staged<OutboxMessage>(Successors(0)) == [];
  }

  /** From the claimed row on. */
  lemma ClaimedRun(c: Config, s: State, xs: seq<Action>, started: Rows, d: nat, m: Message, env: DispatchSurroundings)
    returns (acts: seq<Action>, t: State)
    requires Free(s, d) && s.mail.queued > 0 && s.now == env.now
    requires Exec(c, s, xs) == Some(With(Taken(s).(rows := started), d, DispatchHandling))
    requires env.batches.Some? ==> Seqs(env.batches.value) == Numbered(c.planned)
    ensures Exec(c, s, acts) == Some(t) && CarriedOver(c, s, FromClaim(started, m, SettingsOf(c), env), t)
  {
    var base := Taken(s).(rows := started);
    if env.tenantFound && env.batches.Some? && env.commits && env.batches.value != [] && env.recordWorks {
      acts, t := RecordingRun(c, s, xs, started, d, m, env);
    } else if env.tenantFound && env.batches == Some([]) && env.commits {
      acts, t := ClosingRun(c, s, xs, started, d, m, env);
    } else {
      acts, t := GiveUpDispatch(c, s, xs, base, d, DispatchHandling, [], env);
      NothingSentYet(c, t);
      Arrives(c, s, FromClaim(started, m, SettingsOf(c), env), t);
    }
  }

  lemma RecordingRun(c: Config, s: State, xs: seq<Action>, started: Rows, d: nat, m: Message, env: DispatchSurroundings)
    returns (acts: seq<Action>, t: State)
    requires Free(s, d) && s.mail.queued > 0 && s.now == env.now
    requires Exec(c, s, xs) == Some(With(Taken(s).(rows := started), d, DispatchHandling))
    requires env.tenantFound && env.batches.Some? && env.commits && env.batches.value != [] && env.recordWorks
    requires Seqs(env.batches.value) == Numbered(c.planned)
    ensures Exec(c, s, acts) == Some(t) && CarriedOver(c, s, FromClaim(started, m, SettingsOf(c), env), t)
  {
    var base := Taken(s).(rows := started);
    assert |Numbered(c.planned)| == |Seqs(env.batches.value)| == |env.batches.value|;
    acts := RecordRun(c, s, xs, base, d);
    acts, t := RecordedRun(c, s, acts, base.(rows := RecordPlannedCount(started, c.planned)), d, env.batches.value,
                           env);
    NothingSentYet(c, t);
    Arrives(c, s, FromClaim(started, m, SettingsOf(c), env), t);
  }

  lemma ClosingRun(c: Config, s: State, xs: seq<Action>, started: Rows, d: nat, m: Message, env: DispatchSurroundings)
    returns (acts: seq<Action>, t: State)
    requires Free(s, d) && s.mail.queued > 0 && s.now == env.now
    requires Exec(c, s, xs) == Some(With(Taken(s).(rows := started), d, DispatchHandling))
    requires env.tenantFound && env.batches == Some([]) && env.commits && Seqs([]) == Numbered(c.planned)
    ensures Exec(c, s, acts) == Some(t) && CarriedOver(c, s, FromClaim(started, m, SettingsOf(c), env), t)
  {
    var fx := FromClaim(started, m, SettingsOf(c), env);
    assert |Numbered(c.planned)| == |Seqs([])| == 0;
    acts, t := EmptyRun(c, s, xs, Taken(s).(rows := started), d, |fx.successors|);
    NothingSentYet(c, Taken(s).(rows := fx.rows));
    Arrives(c, s, fx, t);
  }

  /** Every `process` call of a dispatcher with a list numbered 1..planned is a run of the protocol with the
      same rows, the same emissions, the same staged successors and the same fate of its message. */
  lemma DispatchRefinesTheProtocol(c: Config, s: State, d: nat, m: Message, env: DispatchSurroundings)
    requires Free(s, d) && s.mail.queued > 0 && env.now == s.now && m.tenantId == c.tenantId
    requires env.batches.Some? ==> Seqs(env.batches.value) == Numbered(c.planned)
    ensures exists acts, t ::
      Exec(c, s, acts) == Some(t) && CarriedOver(c, s, Dispatched(s.rows, m, SettingsOf(c), env), t)
  {
    var fx := Dispatched(s.rows, m, SettingsOf(c), env);
    var acts, t;
    if !env.startWorks {
      Append(c, s, [], s, DispatcherAct(d, BeginDispatch(false)));
      acts, t := GiveUpDispatch(c, s, [] + [DispatcherAct(d, BeginDispatch(false))], Taken(s), d, DispatchFaulted, [],
                                env);
      NothingSentYet(c, t);
      Arrives(c, s, fx, t);
    } else if ReadDispatch(s.rows).DispatchDone? {
      Append(c, s, [], s, DispatcherAct(d, BeginDispatch(true)));
      acts, t := [] + [DispatcherAct(d, BeginDispatch(true))], Taken(s);
      NothingSentYet(c, t);
      Arrives(c, s, fx, t);
    } else {
      var xs, u := Claim(c, s, d, m.attempt);
      acts, t := ClaimedRun(c, s, xs, WriteDispatch(s.rows, ReadDispatch(s.rows), m.tenantId, m.attempt, env.now).value,
                            d, m, env);
    }
    assert Exec(c, s, acts) == Some(t) && CarriedOver(c, s, fx, t);
  }
}
