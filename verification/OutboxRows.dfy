/** The rows of `core.pipeline_outbox` in insertion order (a row's id is its position: rows are never
    deleted) and what the repository's statements do to them. */
module OutboxRows {
  import opened Options

  const CLAIM_GRACE_MS: int := 60_000

  datatype OutboxRow<+M> = OutboxRow(message: M, attempts: nat, claimedAt: Option<int>, publishedAt: Option<int>)

  function Staged<M>(messages: seq<M>): seq<OutboxRow<M>> {
    seq(|messages|, i requires 0 <= i < |messages| => OutboxRow(messages[i], 0, None, None))
  }

  /** The `WHERE` of `claimPending`: unpublished, and unclaimed or claimed longer than the grace window ago. */
  predicate Claimable<M>(row: OutboxRow<M>, now: int) {
    row.publishedAt.None? && (row.claimedAt.None? || row.claimedAt.value < now - CLAIM_GRACE_MS)
  }

  function Claimed<M>(row: OutboxRow<M>, now: int): OutboxRow<M> {
    row.(attempts := row.attempts + 1, claimedAt := Some(now))
  }

  function ClaimRows<M>(rows: seq<OutboxRow<M>>, ids: set<nat>, now: int): seq<OutboxRow<M>> {
    seq(|rows|, i requires 0 <= i < |rows| => if i in ids then Claimed(rows[i], now) else rows[i])
  }

  /** `markPublished` writes published_at once. */
  function MarkRow<M>(rows: seq<OutboxRow<M>>, id: nat, now: int): seq<OutboxRow<M>> {
    if id < |rows| && rows[id].publishedAt.None? then rows[id := rows[id].(publishedAt := Some(now))] else rows
  }

  /** A staged row is new: never claimed, not published. */
  lemma StagedExactly<M>(messages: seq<M>)
    ensures |Staged(messages)| == |messages|
    ensures forall i :: 0 <= i < |messages| ==>
              var row := Staged(messages)[i];
              row.message == messages[i] && row.attempts == 0 && row.claimedAt.None? && row.publishedAt.None?
  {
  }

  /** A claim is counted and dated and a mark is dated, each on the rows it names and nothing else of them; a published
      row is never claimable again, a claimed one for a minute not. */
  lemma ClaimAndMarkExactly<M>(rows: seq<OutboxRow<M>>, ids: set<nat>, id: nat, now: int, later: int)
    ensures |ClaimRows(rows, ids, now)| == |MarkRow(rows, id, now)| == |rows|
    ensures forall i :: 0 <= i < |rows| ==>
              var row, claimed, marked := rows[i], ClaimRows(rows, ids, now)[i], MarkRow(rows, id, now)[i];
              && claimed.message == row.message == marked.message
              && claimed.attempts == row.attempts + (if i in ids then 1 else 0) && marked.attempts == row.attempts
              && claimed.claimedAt == (if i in ids then Some(now) else row.claimedAt)
              && marked.claimedAt == row.claimedAt
              && claimed.publishedAt == row.publishedAt
              && marked.publishedAt == (if i == id && row.publishedAt.None? then Some(now) else row.publishedAt)
              && (i in ids && row.publishedAt.None? ==> (Claimable(claimed, later) <==> later - now > 60_000))
              && (Claimable(row, now) ==> row.publishedAt.None?)
              && (row.publishedAt.None? && row.claimedAt.None? ==> Claimable(row, now))
  {
  }
}
