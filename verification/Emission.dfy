/** Which batches a dispatcher run still has to emit, and in which order. */
module Emission {
  const OUTBOX_INSERT_CHUNK: nat := 1000

  /** The deterministic batch list of a dispatcher: seqs 1..n in ascending order. */
  function Numbered(n: nat): (s: seq<int>)
    ensures |s| == n
    ensures forall i :: 0 <= i < n ==> s[i] == i + 1
  {
    seq(n, i => i + 1)
  }

  predicate Ascending(s: seq<int>) {
    forall i, j :: 0 <= i < j < |s| ==> s[i] < s[j]
  }

  /** The `pending` filter of `emitBatches`: past the checkpoint and not completed. */
  function PendingOf(batches: seq<int>, from: int, done: set<int>): seq<int> {
    if batches == [] then []
    else (if batches[0] > from && batches[0] !in done then [batches[0]] else []) + PendingOf(batches[1..], from, done)
  }

  lemma {:induction false} PendingExactly(batches: seq<int>, from: int, done: set<int>)
    ensures forall q :: q in PendingOf(batches, from, done) <==> q in batches && q > from && q !in done
    ensures Ascending(batches) ==> Ascending(PendingOf(batches, from, done))
  {
    if batches == [] {
    } else {
      var rest := PendingOf(batches[1..], from, done);
      PendingExactly(batches[1..], from, done);
      assert batches == [batches[0]] + batches[1..];
      if Ascending(batches) {
        assert Ascending(batches[1..]);
        forall q | q in rest ensures batches[0] < q {
          var i :| 0 <= i < |batches[1..]| && batches[1..][i] == q;
          assert batches[i + 1] == q;
        }
        assert forall j :: 0 <= j < |rest| ==> rest[j] in rest;
        assert Ascending([batches[0]] + rest);
        assert [] + rest == rest;
      }
    }
  }

  function MaxOf(s: seq<int>): int
    requires s != []
  {
    if |s| == 1 then s[0]
    else
      var rest := MaxOf(s[1..]);
      if s[0] > rest then s[0] else rest
  }

  lemma {:induction false} MaxIsGreatest(s: seq<int>)
    requires s != []
    ensures MaxOf(s) in s && forall q :: q in s ==> q <= MaxOf(s)
  {
    if |s| > 1 {
      MaxIsGreatest(s[1..]);
      assert forall q :: q in s ==> q == s[0] || q in s[1..];
    }
  }

  function NextChunk(next: nat, length: nat): nat
    requires next <= length
  {
    if next + OUTBOX_INSERT_CHUNK <= length then next + OUTBOX_INSERT_CHUNK else length
  }
}
