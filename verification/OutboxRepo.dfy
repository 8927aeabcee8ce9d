/** The outbox repository: staging, lease-based claiming and marking. A row's id is its position. */
module OutboxRepo {
  import opened Options
  import opened OutboxRows
  import opened Messages

  type Rows = seq<OutboxRow<Envelope>>

  /** `chosen` are claimable rows among the first n that nobody has locked, at most `limit`; if any was left out, the
      limit was met and it is younger than all the chosen ones. */
  ghost predicate OldestClaimable(rows: Rows, n: nat, limit: nat, now: int, locked: set<nat>, chosen: set<nat>)
    requires n <= |rows|
  {
    && |chosen| <= limit
    && (forall id <- chosen :: id < n && Claimable(rows[id], now) && id !in locked)
    && (forall id: nat :: id < n && Claimable(rows[id], now) && id !in locked && id !in chosen ==>
          |chosen| == limit && forall taken <- chosen :: taken < id)
  }

  class OutboxRepository {
    var rows: Rows

    constructor ()
      ensures rows == []
    {
      rows := [];
    }

    method InsertMany(runId: string, tenantId: string, successors: seq<Message>)
      modifies this
      ensures rows == old(rows) + Staged(Enveloped(runId, tenantId, successors))
    {
      if |successors| == 0 {
        assert Staged(Enveloped(runId, tenantId, successors)) == [];
        return;
      }
      rows := rows + Staged(Enveloped(runId, tenantId, successors));
    }

    method InsertBatchMessages(runId: string, tenantId: string, messages: seq<Message>)
      modifies this
      ensures rows == old(rows) + Staged(Enveloped(runId, tenantId, messages))
    {
      InsertMany(runId, tenantId, messages);
    }

    /** Claims the oldest claimable rows, as many as the limit allows, skipping the rows that other transactions have
        `locked` at that moment; nothing else changes. The order in which
        the claimed rows come back is not promised, so they are a set. */
    method ClaimPending(limit: nat, now: int, locked: set<nat>) returns (chosen: set<nat>)
      modifies this
      ensures OldestClaimable(old(rows), |old(rows)|, limit, now, locked, chosen)
      ensures rows == ClaimRows(old(rows), chosen, now)
    {
      chosen := {};
      for i := 0 to |rows|
        invariant rows == old(rows)
        invariant OldestClaimable(rows, i, limit, now, locked, chosen)
      {
        if |chosen| < limit && i !in locked && Claimable(rows[i], now) {
          chosen := chosen + {i};
        }
      }
      rows := ClaimRows(rows, chosen, now);
    }

    method MarkPublished(id: nat, now: int)
      modifies this
      ensures rows == MarkRow(old(rows), id, now)
    {
      if id < |rows| && rows[id].publishedAt.None? {
        rows := rows[id := rows[id].(publishedAt := Some(now))];
      }
    }
  }
}
