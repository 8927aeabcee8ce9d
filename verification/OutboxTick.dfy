/** One tick of the outbox publisher: claim, then for each claimed row publish and mark, or only mark when the
    row's batch is already completed. A row that throws anywhere is left to its lease. */
module OutboxTick {
  import opened Options
  import opened PipelineRows
  import opened OutboxRows
  import opened Messages
  import opened RunService
  import opened OutboxRepo
  import opened BatchConsumer

  /** Which statement of a row's turn throws, if any. */
  datatype Fate = Clean | LookupThrows | PublishThrows | MarkThrows

  /** The turn of one claimed row: whether the broker accepted its message, and whether it was marked. */
  datatype Turn = Turn(accepted: bool, marked: bool)

  function TurnOf(m: Message, completed: bool, fate: Fate): Turn {
    if BatchSeqOf(m) > 0 && fate.LookupThrows? then Turn(false, false)
    else if BatchSeqOf(m) > 0 && completed then Turn(false, !fate.MarkThrows?)
    else if fate.PublishThrows? then Turn(false, false)
    else Turn(true, !fate.MarkThrows?)
  }

  /** A row is marked only after the broker took its message or its batch was seen completed, whatever throws;
      and a row that was neither is left for the next lease. */
  lemma MarkedOnlyAfterDelivery(m: Message, completed: bool, fate: Fate)
    ensures TurnOf(m, completed, fate).marked ==>
            TurnOf(m, completed, fate).accepted || (completed && BatchSeqOf(m) > 0)
    ensures TurnOf(m, completed, fate).accepted ==> !(completed && BatchSeqOf(m) > 0)
  {
  }

  ghost function TurnAt(table: Table, e: Envelope, fate: Fate): Turn {
    TurnOf(e.message, IsCompleted(SliceOf(table, e.runId, e.message.step), BatchSeqOf(e.message)), fate)
  }

  /** A row after the tick: claimed if it was chosen, and marked if its turn is over and says so. */
  ghost function RowAfter(row: OutboxRow<Envelope>, chosen: bool, marked: bool, now: int): OutboxRow<Envelope> {
    var claimed := if chosen then Claimed(row, now) else row;
    if marked && claimed.publishedAt.None? then claimed.(publishedAt := Some(now)) else claimed
  }

  /** Every claimed row is claimed once and, its turn taken, marked as the turn says; every other row is as it
      was. */
  ghost predicate Ticked(before: OutboxRepo.Rows, after: OutboxRepo.Rows, table: Table, chosen: set<nat>,
                         fates: nat -> Fate, now: int, taken: set<nat>)
  {
    && |after| == |before|
    && forall i :: 0 <= i < |before| ==>
         after[i] == RowAfter(before[i], i in chosen,
                              i in taken && TurnAt(table, before[i].message, fates(i)).marked, now)
  }

  /** The accepted rows, each once. */
  ghost predicate Delivered(rows: OutboxRepo.Rows, table: Table, fates: nat -> Fate, taken: set<nat>, order: seq<nat>) {
    && (forall i: nat :: i in order <==> i in taken && i < |rows| && TurnAt(table, rows[i].message, fates(i)).accepted)
    && (forall j, k :: 0 <= j < k < |order| ==> order[j] != order[k])
  }

  ghost function Sent(rows: OutboxRepo.Rows, order: seq<nat>): seq<Routed>
    requires forall i <- order :: i < |rows|
  {
    seq(|order|, j requires 0 <= j < |order| => assert order[j] in order; WireOf(rows[order[j]].message))
  }

  /** What is published of an entry. */
  function WireOf(e: Envelope): Routed {
    Routed(e.routingKey, e.message)
  }

  /** What a tick does to each row: it is claimed once, now, if it was chosen and is else untouched. The broker gets a
      chosen row's message exactly when its batch is not completed and neither the lookup nor the publish throws; a
      chosen row is published from now on exactly when the broker got it or its batch was seen completed, and the mark
      goes through; one that is not can be claimed again as soon as its new lease has run out, and not before. */
  lemma TickedRow(before: OutboxRepo.Rows, after: OutboxRepo.Rows, table: Table, chosen: set<nat>, fates: nat -> Fate,
                  now: int, order: seq<nat>, i: nat, later: int)
    requires Ticked(before, after, table, chosen, fates, now, chosen) && Delivered(before, table, fates, chosen, order)
    requires i < |before|
    ensures after[i].message == before[i].message
    ensures after[i].attempts == before[i].attempts + if i in chosen then 1 else 0
    ensures i !in chosen ==> after[i] == before[i] && i !in order
    ensures i in chosen ==> after[i].claimedAt == Some(now)
    ensures i in chosen && before[i].publishedAt.None? ==>
      var e := before[i].message;
      var q := BatchSeqOf(e.message);
      var skip := q > 0 && IsCompleted(SliceOf(table, e.runId, e.message.step), q);
      && (i in order <==> !skip && !(q > 0 && fates(i).LookupThrows?) && !fates(i).PublishThrows?)
      && after[i].publishedAt == (if !fates(i).MarkThrows? && (i in order || (skip && !fates(i).LookupThrows?))
                                  then Some(now) else None)
    ensures i in chosen && after[i].publishedAt.None? ==> (Claimable(after[i], later) <==> later > now + CLAIM_GRACE_MS)
  {
  }

  /** The exchange gets the accepted rows' own messages under the rows' routing keys, one each. */
  lemma TickSends(rows: OutboxRepo.Rows, table: Table, fates: nat -> Fate, chosen: set<nat>, order: seq<nat>)
    requires Delivered(rows, table, fates, chosen, order)
    ensures |Sent(rows, order)| == |order|
    ensures forall j :: 0 <= j < |order| ==>
              && order[j] in chosen && order[j] < |rows|
              && Sent(rows, order)[j].message == rows[order[j]].message.message
              && Sent(rows, order)[j].key == rows[order[j]].message.routingKey
    ensures forall j, k :: 0 <= j < k < |order| ==> order[j] != order[k]
  {
    assert forall j :: 0 <= j < |order| ==> order[j] in order;
  }

  lemma TurnTicks(rows: OutboxRepo.Rows, before: OutboxRepo.Rows, after: OutboxRepo.Rows, table: Table,
                  chosen: set<nat>, fates: nat -> Fate, now: int, taken: set<nat>, id: nat)
    requires id < |rows| && id !in taken && Ticked(rows, before, table, chosen, fates, now, taken)
    requires after == if TurnAt(table, rows[id].message, fates(id)).marked then MarkRow(before, id, now) else before
    ensures Ticked(rows, after, table, chosen, fates, now, taken + {id})
  {
  }

  lemma TurnDelivers(rows: OutboxRepo.Rows, table: Table, fates: nat -> Fate, taken: set<nat>, order: seq<nat>, id: nat)
    requires id < |rows| && id !in taken && Delivered(rows, table, fates, taken, order)
    ensures
      var accepted := TurnAt(table, rows[id].message, fates(id)).accepted;
      var next := if accepted then order + [id] else order;
      && Delivered(rows, table, fates, taken + {id}, next)
      && Sent(rows, next) == Sent(rows, order) + (if accepted then [WireOf(rows[id].message)] else [])
  {
    assert id !in order;
    var next := order + [id];
    assert forall i :: i in next <==> i in order || i == id;
  }

  class OutboxPublisher {
    const outbox: OutboxRepository
    const runs: PipelineRunService
    const broker: Broker

    constructor (outbox: OutboxRepository, runs: PipelineRunService, broker: Broker)
      ensures this.outbox == outbox && this.runs == runs && this.broker == broker
    {
      this.outbox, this.runs, this.broker := outbox, runs, broker;
    }

    /** One claimed row. */
    method TakeTurn(id: nat, now: int, fate: Fate)
      requires id < |outbox.rows| && outbox.rows[id].publishedAt.None?
      modifies outbox, broker
      ensures var turn := TurnAt(runs.table, old(outbox.rows)[id].message, fate);
        && outbox.rows == (if turn.marked then MarkRow(old(outbox.rows), id, now) else old(outbox.rows))
        && broker.exchange == old(broker.exchange)
           + (if turn.accepted then [WireOf(old(outbox.rows)[id].message)] else [])
      ensures broker.deadLetters == old(broker.deadLetters)
    {
      var e := outbox.rows[id].message;
      var msg := e.message;
      if msg.batchSeq.Some? && msg.batchSeq.value > 0 {
        if fate == LookupThrows {
          return;
        }
        var completed := runs.IsBatchCompleted(e.runId, msg.step, msg.batchSeq.value);
        if completed {
          if fate != MarkThrows {
            outbox.MarkPublished(id, now);
          }
          return;
        }
      }
      var published := broker.Publish(e.routingKey, msg, fate != PublishThrows);
      if !published {
        return;
      }
      if fate != MarkThrows {
        outbox.MarkPublished(id, now);
      }
    }

    /** The state between two turns: the rows and the exchange reflect the turns taken so far. */
    ghost predicate Between(rows: OutboxRepo.Rows, exchange: seq<Routed>, chosen: set<nat>, fates: nat -> Fate,
                            now: int, taken: set<nat>, order: seq<nat>)
      reads this, outbox, runs, broker
    {
      && Ticked(rows, outbox.rows, runs.table, chosen, fates, now, taken)
      && Delivered(rows, runs.table, fates, taken, order)
      && broker.exchange == exchange + Sent(rows, order)
    }

    method NextTurn(id: nat, now: int, fates: nat -> Fate, ghost rows: OutboxRepo.Rows, ghost exchange: seq<Routed>,
                    ghost chosen: set<nat>, ghost taken: set<nat>, ghost order: seq<nat>)
      returns (ghost next: seq<nat>)
      requires id in chosen && id !in taken && id < |rows| && rows[id].publishedAt.None?
      requires Between(rows, exchange, chosen, fates, now, taken, order)
      modifies outbox, broker
      ensures Between(rows, exchange, chosen, fates, now, taken + {id}, next)
      ensures broker.deadLetters == old(broker.deadLetters)
    {
      ghost var before := outbox.rows;
      TakeTurn(id, now, fates(id));
      TurnTicks(rows, before, outbox.rows, runs.table, chosen, fates, now, taken, id);
      TurnDelivers(rows, runs.table, fates, taken, order, id);
      next := if TurnAt(runs.table, rows[id].message, fates(id)).accepted then order + [id] else order;
    }

    /** The loop over the claimed rows, in whatever order they came back. */
    method DrainClaimed(chosen: set<nat>, now: int, fates: nat -> Fate, ghost rows: OutboxRepo.Rows,
                        ghost exchange: seq<Routed>)
      returns (ghost order: seq<nat>)
      requires forall id <- chosen :: id < |rows| && rows[id].publishedAt.None?
      requires Between(rows, exchange, chosen, fates, now, {}, [])
      modifies outbox, broker
      ensures Between(rows, exchange, chosen, fates, now, chosen, order)
      ensures broker.deadLetters == old(broker.deadLetters)
    {
      order := [];
      var taken: set<nat> := {};
      while taken != chosen
        invariant taken <= chosen
        invariant Between(rows, exchange, chosen, fates, now, taken, order)
        invariant broker.deadLetters == old(broker.deadLetters)
        decreases |chosen - taken|
      {
        var id :| id in chosen && id !in taken;
        order := NextTurn(id, now, fates, rows, exchange, chosen, taken, order);
        assert chosen - (taken + {id}) == (chosen - taken) - {id};
        taken := taken + {id};
      }
    }

    /** A tick takes the turn of every row it claimed, whatever another row's turn threw. */
    method Tick(limit: nat, now: int, locked: set<nat>, fates: nat -> Fate)
      returns (chosen: set<nat>, ghost order: seq<nat>)
      modifies outbox, broker
      ensures OldestClaimable(old(outbox.rows), |old(outbox.rows)|, limit, now, locked, chosen)
      ensures Between(old(outbox.rows), old(broker.exchange), chosen, fates, now, chosen, order)
      ensures broker.deadLetters == old(broker.deadLetters)
    {
      ghost var rows, exchange := outbox.rows, broker.exchange;
      chosen := outbox.ClaimPending(limit, now, locked);
      assert Sent(rows, []) == [];
      order := DrainClaimed(chosen, now, fates, rows, exchange);
    }
  }
}
