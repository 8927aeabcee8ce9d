/** The outbox publisher's tick refines the protocol: whatever throws in it, a tick is a run of one publisher's
    claim, publishes, skips, marks and abandoned turns, seen from any one (run, step). */
module TickRefinement {
  import opened Options
  import opened PipelineRows
  import opened OutboxRows
  import opened Messages
  import opened RunService
  import opened OutboxRepo
  import opened OutboxTick
  import opened FanIn
  import opened FanInRuns

  /** What an outbox row is to one (run, step): a message of one of its batches, or a successor or other message. */
  function MessageIn(e: Envelope, runId: string, step: string): OutboxMessage {
    if e.runId == runId && e.message.step == step && BatchSeqOf(e.message) > 0
    then BatchMessage(BatchSeqOf(e.message)) else SuccessorMessage
  }

  function View(rows: OutboxRepo.Rows, runId: string, step: string): seq<OutboxRow<OutboxMessage>> {
    seq(|rows|, i requires 0 <= i < |rows| => ViewRow(rows[i], runId, step))
  }

  function ViewRow(row: OutboxRow<Envelope>, runId: string, step: string): OutboxRow<OutboxMessage> {
    OutboxRow(MessageIn(row.message, runId, step), row.attempts, row.claimedAt, row.publishedAt)
  }

  lemma ViewOfClaimed(row: OutboxRow<Envelope>, now: int, runId: string, step: string)
    ensures ViewRow(Claimed(row, now), runId, step) == Claimed(ViewRow(row, runId, step), now)
  {
  }

  function Queued(m: OutboxMessage): multiset<int> {
    match m case BatchMessage(q) => multiset{q} case SuccessorMessage => multiset{}
  }

  function QueuedBy(view: seq<OutboxRow<OutboxMessage>>, id: nat): multiset<int> {
    if id < |view| then Queued(view[id].message) else multiset{}
  }

  /** The batches of this (run, step) among the accepted rows. */
  function Arrived(view: seq<OutboxRow<OutboxMessage>>, order: seq<nat>): multiset<int> {
    if order == [] then multiset{}
    else Arrived(view, order[..|order| - 1]) + QueuedBy(view, order[|order| - 1])
  }

  lemma ArrivedGrows(view: seq<OutboxRow<OutboxMessage>>, order: seq<nat>, n: nat, main: multiset<int>)
    requires n < |order|
    ensures main + Arrived(view, order[..n]) + QueuedBy(view, order[n]) == main + Arrived(view, order[..n + 1])
  {
    assert order[..n + 1][..n] == order[..n] && order[..n + 1][n] == order[n];
  }

  /** The queue of a step's dispatcher. */
  function DispatchStep(step: string): string {
    step + ".dispatch"
  }

  /** The row is a copy of the step's own dispatch message, staged by the step before it. */
  predicate IsDispatchOf(e: Envelope, runId: string, step: string) {
    e.runId == runId && e.message.step == step && QueueOf(e.message) == DispatchStep(step) && BatchSeqOf(e.message) <= 0
  }

  /** The copies of the step's dispatch message among the accepted rows. */
  function Copies(rows: OutboxRepo.Rows, order: seq<nat>, runId: string, step: string): nat {
    if order == [] then 0
    else (if order[0] < |rows| && IsDispatchOf(rows[order[0]].message, runId, step) then 1 else 0)
         + Copies(rows, order[1..], runId, step)
  }

  lemma {:induction false} SendCopies(c: Config, s: State, xs: seq<Action>, mid: State, n: nat)
    returns (ys: seq<Action>)
    requires Exec(c, s, xs) == Some(mid)
    ensures Exec(c, s, ys) == Some(mid.(mail := mid.mail.(queued := mid.mail.queued + n)))
    decreases n
  {
    if n == 0 {
      ys := xs;
    } else {
      ys := SendCopies(c, s, xs, mid, n - 1);
      var sent := mid.(mail := mid.mail.(queued := mid.mail.queued + n - 1));
      Append(c, s, ys, sent, MailAct(SendCopy));
      ys := ys + [MailAct(SendCopy)];
    }
  }

  lemma PublishOne(c: Config, s: State, xs: seq<Action>, mid: State, pub: PublisherAction)
    returns (ys: seq<Action>, t: State)
    requires Exec(c, s, xs) == Some(mid) && PublisherStep(mid, pub).Some?
    ensures Exec(c, s, ys) == Some(t) && PublisherStep(mid, pub) == Some(t)
  {
    Append(c, s, xs, mid, PublisherAct(pub));
    ys := xs + [PublisherAct(pub)];
    t := PublisherStep(mid, pub).value;
  }

  /** `s` in the middle of a tick: some turns are outstanding. */
  function At(s: State, view: seq<OutboxRow<OutboxMessage>>, left: set<nat>, main: multiset<int>,
              accepted: set<nat>): State {
    s.(outbox := view, claimed := s.claimed + multiset(left), main := main, hist := s.hist.(accepted := accepted))
  }

  lemma OneClaimLess(claimed: multiset<nat>, left: set<nat>, id: nat)
    requires id in left
    ensures id in claimed + multiset(left)
    ensures claimed + multiset(left) - multiset{id} == claimed + multiset(left - {id})
  {
    assert multiset(left) == multiset(left - {id}) + multiset{id};
  }

  lemma SettledBack(settled: multiset<nat>, id: nat)
    ensures id in settled + multiset{id} && settled + multiset{id} - multiset{id} == settled
  {
  }

  /** The marks that end a turn whose message was accepted or whose batch was seen completed. */
  lemma EndTurn(c: Config, s: State, xs: seq<Action>, mid: State, base: State, id: nat, marked: bool)
    returns (ys: seq<Action>, t: State)
    requires Exec(c, s, xs) == Some(mid) && mid == base.(settled := base.settled + multiset{id})
    ensures Exec(c, s, ys) == Some(t)
    ensures t == if marked then base.(outbox := MarkRow(base.outbox, id, base.now)) else base
  {
    SettledBack(base.settled, id);
    if marked {
      ys, t := PublishOne(c, s, xs, mid, Mark(id));
    } else {
      ys, t := PublishOne(c, s, xs, mid, AbandonSettled(id));
    }
  }

  /** One accepted row. */
  lemma AcceptedTurn(c: Config, s: State, xs: seq<Action>, view: seq<OutboxRow<OutboxMessage>>, left: set<nat>,
                     main: multiset<int>, accepted: set<nat>, id: nat, marked: bool)
    returns (ys: seq<Action>)
    requires Exec(c, s, xs) == Some(At(s, view, left, main, accepted)) && id in left && id < |view|
    ensures Exec(c, s, ys) == Some(At(s, if marked then MarkRow(view, id, s.now) else view, left - {id},
                                      main + Queued(view[id].message), accepted + {id}))
  {
    var t;
    OneClaimLess(s.claimed, left, id);
    ys, t := PublishOne(c, s, xs, At(s, view, left, main, accepted), Publish(id));
    assert main + multiset{} == main;
    ys, t := EndTurn(c, s, ys, t, At(s, view, left - {id}, main + Queued(view[id].message), accepted + {id}), id,
                     marked);
  }

  /** One row that the broker did not get: skipped and marked, or left to its lease. */
  lemma OtherTurn(c: Config, s: State, xs: seq<Action>, view: seq<OutboxRow<OutboxMessage>>, left: set<nat>,
                  main: multiset<int>, accepted: set<nat>, id: nat, completed: bool, marked: bool)
    returns (ys: seq<Action>, accepted': set<nat>)
    requires Exec(c, s, xs) == Some(At(s, view, left, main, accepted)) && id in left && id < |view|
    requires marked ==> completed
    requires completed && view[id].message.BatchMessage? ==>
               view[id].message.batchSeq > 0 && IsCompleted(s.rows, view[id].message.batchSeq)
    ensures Exec(c, s, ys) == Some(At(s, if marked then MarkRow(view, id, s.now) else view, left - {id},
                                      main, accepted'))
    ensures accepted <= accepted' <= accepted + {id}
  {
    var t;
    OneClaimLess(s.claimed, left, id);
    accepted' := accepted;
    if marked {
      accepted' := accepted + {id};
      if view[id].message.BatchMessage? {
        ys, t := PublishOne(c, s, xs, At(s, view, left, main, accepted), SkipCompleted(id));
        ys, t := EndTurn(c, s, ys, t, At(s, view, left - {id}, main, accepted'), id, true);
      } else {
        ys := AcceptedTurn(c, s, xs, view, left, main, accepted, id, true);
        assert main + multiset{} == main;
      }
    } else {
      ys, t := PublishOne(c, s, xs, At(s, view, left, main, accepted), Abandon(id));
    }
  }

  // ----- the turns of a tick -----

  /** The rows after the turns of `taken`. */
  ghost function RowsAfter(rows: OutboxRepo.Rows, table: Table, chosen: set<nat>, fates: nat -> Fate, now: int,
                           taken: set<nat>): OutboxRepo.Rows {
    seq(|rows|, i requires 0 <= i < |rows| =>
      RowAfter(rows[i], i in chosen, i in taken && TurnAt(table, rows[i].message, fates(i)).marked, now))
  }

  ghost predicate Marks(rows: OutboxRepo.Rows, table: Table, fates: nat -> Fate, id: nat)
    requires id < |rows|
  {
    TurnAt(table, rows[id].message, fates(id)).marked
  }

  lemma ViewAfterTurn(rows: OutboxRepo.Rows, table: Table, chosen: set<nat>, fates: nat -> Fate, now: int,
                      taken: set<nat>, id: nat, runId: string, step: string)
    requires id < |rows| && id !in taken && id in chosen
    ensures
      var before := View(RowsAfter(rows, table, chosen, fates, now, taken), runId, step);
      View(RowsAfter(rows, table, chosen, fates, now, taken + {id}), runId, step)
      == if Marks(rows, table, fates, id) then MarkRow(before, id, now) else before
    ensures View(RowsAfter(rows, table, chosen, fates, now, taken), runId, step)[id].message
            == View(rows, runId, step)[id].message
  {
    var before := View(RowsAfter(rows, table, chosen, fates, now, taken), runId, step);
    var after := View(RowsAfter(rows, table, chosen, fates, now, taken + {id}), runId, step);
    var goal := if Marks(rows, table, fates, id) then MarkRow(before, id, now) else before;
    assert |after| == |goal|;
    forall i | 0 <= i < |rows| ensures after[i] == goal[i] {
    }
  }

  function Prefix(order: seq<nat>, n: nat): set<nat>
    requires n <= |order|
  {
    set i | i in order[..n]
  }

  lemma PrefixGrows(order: seq<nat>, n: nat)
    requires n < |order|
    ensures Prefix(order, n + 1) == Prefix(order, n) + {order[n]}
  {
    assert order[..n + 1] == order[..n] + [order[n]];
  }

  /** The accepted rows, in the order in which the exchange got them. */
  lemma {:induction false} AcceptedTurns(c: Config, s: State, xs: seq<Action>, rows: OutboxRepo.Rows, table: Table,
                                         chosen: set<nat>,
                                         fates: nat -> Fate, order: seq<nat>, n: nat, runId: string, step: string)
    returns (ys: seq<Action>)
    requires n <= |order| && (forall i <- order :: i < |rows| && i in chosen)
    requires forall j, k :: 0 <= j < k < |order| ==> order[j] != order[k]
    requires Exec(c, s, xs) == Some(At(s, View(RowsAfter(rows, table, chosen, fates, s.now, {}), runId, step), chosen,
                                       s.main, s.hist.accepted))
    ensures
      var view := View(RowsAfter(rows, table, chosen, fates, s.now, Prefix(order, n)), runId, step);
      Exec(c, s, ys) == Some(At(s, view, chosen - Prefix(order, n),
                                s.main + Arrived(View(rows, runId, step), order[..n]),
                                s.hist.accepted + Prefix(order, n)))
    decreases n
  {
    if n == 0 {
      ys := xs;
      assert Prefix(order, 0) == {} && order[..0] == [];
      assert chosen - {} == chosen && s.main + multiset{} == s.main && s.hist.accepted + {} == s.hist.accepted;
    } else {
      ys := AcceptedTurns(c, s, xs, rows, table, chosen, fates, order, n - 1, runId, step);
      ys := NextAccepted(c, s, ys, rows, table, chosen, fates, order, n - 1, runId, step);
    }
  }

  lemma NextAccepted(c: Config, s: State, xs: seq<Action>, rows: OutboxRepo.Rows, table: Table, chosen: set<nat>,
                     fates: nat -> Fate, order: seq<nat>, n: nat, runId: string, step: string)
    returns (ys: seq<Action>)
    requires n < |order| && (forall i <- order :: i < |rows| && i in chosen)
    requires forall j, k :: 0 <= j < k < |order| ==> order[j] != order[k]
    requires
      var view := View(RowsAfter(rows, table, chosen, fates, s.now, Prefix(order, n)), runId, step);
      Exec(c, s, xs) == Some(At(s, view, chosen - Prefix(order, n),
                                s.main + Arrived(View(rows, runId, step), order[..n]),
                                s.hist.accepted + Prefix(order, n)))
    ensures
      var view := View(RowsAfter(rows, table, chosen, fates, s.now, Prefix(order, n + 1)), runId, step);
      Exec(c, s, ys) == Some(At(s, view, chosen - Prefix(order, n + 1),
                                s.main + Arrived(View(rows, runId, step), order[..n + 1]),
                                s.hist.accepted + Prefix(order, n + 1)))
  {
    var id, taken := order[n], Prefix(order, n);
    PrefixExcludes(order, n);
    PrefixGrows(order, n);
    ViewAfterTurn(rows, table, chosen, fates, s.now, taken, id, runId, step);
    ys := AcceptedTurn(c, s, xs, View(RowsAfter(rows, table, chosen, fates, s.now, taken), runId, step), chosen - taken,
                       s.main + Arrived(View(rows, runId, step), order[..n]), s.hist.accepted + taken, id,
                       Marks(rows, table, fates, id));
    ArrivedGrows(View(rows, runId, step), order, n, s.main);
    TakeOne(chosen, taken, s.hist.accepted, id);
  }

  lemma PrefixExcludes(order: seq<nat>, n: nat)
    requires n < |order| && forall j, k :: 0 <= j < k < |order| ==> order[j] != order[k]
    ensures order[n] in order && order[n] !in Prefix(order, n)
  {
  }

  lemma TakeOne(chosen: set<nat>, taken: set<nat>, accepted: set<nat>, id: nat)
    ensures chosen - taken - {id} == chosen - (taken + {id})
    ensures accepted + taken + {id} == accepted + (taken + {id})
  {
  }

  /** The other turns, in any order. */
  lemma {:induction false} OtherTurns(c: Config, s: State, xs: seq<Action>, rows: OutboxRepo.Rows, table: Table,
                                      chosen: set<nat>,
                                      fates: nat -> Fate, taken: set<nat>, main: multiset<int>, accepted: set<nat>,
                                      runId: string, step: string)
    returns (ys: seq<Action>, accepted': set<nat>)
    requires taken <= chosen && (forall i <- chosen :: i < |rows|)
    requires forall i <- chosen - taken :: !TurnAt(table, rows[i].message, fates(i)).accepted
    requires s.rows == SliceOf(table, runId, step)
    requires Exec(c, s, xs) == Some(At(s, View(RowsAfter(rows, table, chosen, fates, s.now, taken), runId, step),
                                       chosen - taken, main, accepted))
    ensures Exec(c, s, ys) == Some(At(s, View(RowsAfter(rows, table, chosen, fates, s.now, chosen), runId, step), {},
                                      main, accepted'))
    ensures accepted <= accepted' <= accepted + chosen
    decreases |chosen - taken|
  {
    if taken == chosen {
      ys, accepted' := xs, accepted;
      assert chosen - taken == {};
    } else {
      var id :| id in chosen - taken;
      var mid;
      ys, mid := NextOther(c, s, xs, rows, table, chosen, fates, taken, main, accepted, id, runId, step);
      assert chosen - (taken + {id}) == chosen - taken - {id};
      ys, accepted' := OtherTurns(c, s, ys, rows, table, chosen, fates, taken + {id}, main, mid, runId, step);
    }
  }

  lemma NextOther(c: Config, s: State, xs: seq<Action>, rows: OutboxRepo.Rows, table: Table, chosen: set<nat>,
                  fates: nat -> Fate, taken: set<nat>, main: multiset<int>, accepted: set<nat>, id: nat,
                  runId: string, step: string)
    returns (ys: seq<Action>, accepted': set<nat>)
    requires id in chosen && id !in taken && id < |rows| && !TurnAt(table, rows[id].message, fates(id)).accepted
    requires s.rows == SliceOf(table, runId, step)
    requires Exec(c, s, xs) == Some(At(s, View(RowsAfter(rows, table, chosen, fates, s.now, taken), runId, step),
                                       chosen - taken, main, accepted))
    ensures Exec(c, s, ys) == Some(At(s, View(RowsAfter(rows, table, chosen, fates, s.now, taken + {id}), runId, step),
                                      chosen - (taken + {id}), main, accepted'))
    ensures accepted <= accepted' <= accepted + {id}
  {
    var e := rows[id].message;
    var completed := BatchSeqOf(e.message) > 0
        && IsCompleted(SliceOf(table, e.runId, e.message.step), BatchSeqOf(e.message));
    var view := View(RowsAfter(rows, table, chosen, fates, s.now, taken), runId, step);
    ViewAfterTurn(rows, table, chosen, fates, s.now, taken, id, runId, step);
    MarkedOnlyAfterDelivery(e.message, completed, fates(id));
    ys, accepted' := OtherTurn(c, s, xs, view, chosen - taken, main, accepted, id, completed,
                               Marks(rows, table, fates, id));
    assert chosen - taken - {id} == chosen - (taken + {id});
  }

  /** What a tick leaves of the protocol's state: its rows' view, the accepted batches and dispatch messages of this
      (run, step) queued, and no claim over. */
  ghost function AfterTick(s: State, before: OutboxRepo.Rows, after: OutboxRepo.Rows, order: seq<nat>, runId: string,
                           step: string, accepted: set<nat>): State
  {
    s.(outbox := View(after, runId, step), main := s.main + Arrived(View(before, runId, step), order),
       mail := s.mail.(queued := s.mail.queued + Copies(before, order, runId, step)),
       hist := s.hist.(accepted := accepted))
  }

  /** Every tick is a run of the protocol, for every (run, step). */
  lemma TickRefinesTheProtocol(c: Config, s: State, before: OutboxRepo.Rows, after: OutboxRepo.Rows, table: Table,
                               chosen: set<nat>, fates: nat -> Fate, order: seq<nat>, runId: string, step: string)
    requires s.rows == SliceOf(table, runId, step) && s.outbox == View(before, runId, step)
    requires forall i <- chosen :: i < |before| && Claimable(before[i], s.now)
    requires Ticked(before, after, table, chosen, fates, s.now, chosen)
             && Delivered(before, table, fates, chosen, order)
    ensures exists acts, accepted ::
      && Exec(c, s, acts) == Some(AfterTick(s, before, after, order, runId, step, accepted))
      && s.hist.accepted + (set i | i in order) <= accepted <= s.hist.accepted + chosen
  {
    var acts, accepted := TurnsRun(c, s, before, table, chosen, fates, order, runId, step);
    assert RowsAfter(before, table, chosen, fates, s.now, chosen) == after;
    var view, main := View(after, runId, step), s.main + Arrived(s.outbox, order);
    NothingLeft(s, view, main, accepted);
    acts := SendCopies(c, s, acts, At(s, view, {}, main, accepted), Copies(before, order, runId, step));
    assert Exec(c, s, acts) == Some(AfterTick(s, before, after, order, runId, step, accepted));
  }

  lemma TurnsRun(c: Config, s: State, before: OutboxRepo.Rows, table: Table, chosen: set<nat>, fates: nat -> Fate,
                 order: seq<nat>, runId: string, step: string)
    returns (acts: seq<Action>, accepted: set<nat>)
    requires s.rows == SliceOf(table, runId, step) && s.outbox == View(before, runId, step)
    requires forall i <- chosen :: i < |before| && Claimable(before[i], s.now)
    requires Delivered(before, table, fates, chosen, order)
    ensures Exec(c, s, acts) == Some(At(s, View(RowsAfter(before, table, chosen, fates, s.now, chosen), runId, step),
                                        {}, s.main + Arrived(s.outbox, order), accepted))
    ensures s.hist.accepted + (set i | i in order) <= accepted <= s.hist.accepted + chosen
  {
    var taken := Prefix(order, |order|);
    DeliveredSplits(before, table, chosen, fates, order);
    var xs := ClaimTurn(c, s, before, table, chosen, fates, runId, step);
    xs := AcceptedTurns(c, s, xs, before, table, chosen, fates, order, |order|, runId, step);
    acts, accepted := OtherTurns(c, s, xs, before, table, chosen, fates, taken, s.main + Arrived(s.outbox, order),
                                 s.hist.accepted + taken, runId, step);
  }

  lemma DeliveredSplits(rows: OutboxRepo.Rows, table: Table, chosen: set<nat>, fates: nat -> Fate, order: seq<nat>)
    requires Delivered(rows, table, fates, chosen, order) && forall i <- chosen :: i < |rows|
    ensures order[..|order|] == order && Prefix(order, |order|) == (set i | i in order) <= chosen
    ensures forall i <- order :: i < |rows| && i in chosen
    ensures forall i <- chosen - Prefix(order, |order|) :: !TurnAt(table, rows[i].message, fates(i)).accepted
  {
    assert order[..|order|] == order;
  }

  lemma NothingLeft(s: State, view: seq<OutboxRow<OutboxMessage>>, main: multiset<int>, accepted: set<nat>)
    ensures At(s, view, {}, main, accepted) == s.(outbox := view, main := main, hist := s.hist.(accepted := accepted))
  {
    assert s.claimed + multiset({}) == s.claimed;
  }

  lemma ClaimTurn(c: Config, s: State, before: OutboxRepo.Rows, table: Table, chosen: set<nat>, fates: nat -> Fate,
                  runId: string, step: string)
    returns (xs: seq<Action>)
    requires s.outbox == View(before, runId, step)
    requires forall i <- chosen :: i < |before| && Claimable(before[i], s.now)
    ensures Exec(c, s, xs) == Some(At(s, View(RowsAfter(before, table, chosen, fates, s.now, {}), runId, step), chosen,
                                      s.main, s.hist.accepted))
  {
    var start := View(RowsAfter(before, table, chosen, fates, s.now, {}), runId, step);
    var t;
    var claimed := ClaimRows(s.outbox, chosen, s.now);
    assert |start| == |claimed|;
    forall i | 0 <= i < |start| ensures start[i] == claimed[i] {
      ViewOfClaimed(before[i], s.now, runId, step);
      assert s.outbox[i] == ViewRow(before[i], runId, step);
      assert start[i] == ViewRow(RowAfter(before[i], i in chosen, false, s.now), runId, step);
      assert RowAfter(before[i], i in chosen, false, s.now)
          == if i in chosen then Claimed(before[i], s.now) else before[i];
    }
    assert start == claimed;
    xs, t := PublishOne(c, s, [], s, Claim(chosen));
  }
}
