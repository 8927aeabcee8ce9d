/** The bounded concurrent map: workers share a cursor over the items and fill the results in place. Between two
    completions any number of things may happen in any order, so the loop picks the next worker to complete
    arbitrarily. */
module WorkerPool {
  import opened Options

  /** Array.from({ length }) clamps a negative length to zero. */
  function PoolSize(limit: int, n: nat): (size: nat)
    ensures limit <= 0 ==> size == 0
    ensures limit > 0 ==> size <= limit && size <= n && (size == limit || size == n)
  {
    if limit <= 0 then 0 else if limit < n then limit else n
  }

  /** `owner` inverts `inFlight`: the indexes below the cursor that have no result yet are held by distinct
      workers, and every other index below it has its item's result. */
  ghost predicate CursorOk<T, R>(items: seq<T>, fn: T -> R, next: nat, inFlight: map<nat, nat>, owner: map<nat, nat>,
                                 results: seq<Option<R>>)
  {
    && next <= |items| == |results|
    && (forall w <- inFlight :: inFlight[w] in owner && owner[inFlight[w]] == w)
    && (forall i <- owner :: i < next && owner[i] in inFlight && inFlight[owner[i]] == i)
    && (forall i :: 0 <= i < |items| ==> results[i] == if i >= next || i in owner then None else Some(fn(items[i])))
  }

  /** The first n workers, each with the index it took first. */
  function Started(n: nat): (m: map<nat, nat>)
    ensures |m| == n
    ensures forall k: nat :: (k in m <==> k < n) && (k in m ==> m[k] == k)
  {
    if n == 0 then map[]
    else
      var rest := Started(n - 1);
      assert rest[n - 1 := n - 1].Keys == rest.Keys + {n - 1};
      rest[n - 1 := n - 1]
  }

  lemma StartedOk<T, R>(items: seq<T>, fn: T -> R, size: nat, results: seq<Option<R>>)
    requires size <= |items| == |results| && forall i :: 0 <= i < |items| ==> results[i].None?
    ensures CursorOk(items, fn, size, Started(size), Started(size), results)
  {
  }

  /** The call of worker `w` resolves; it writes its result and goes round its loop once. */
  method CompleteOne<T, R>(items: seq<T>, fn: T -> R, filled: array<Option<R>>, inFlight: map<nat, nat>, next: nat,
                           ghost owner: map<nat, nat>, w: nat)
    returns (inFlight': map<nat, nat>, next': nat, ghost owner': map<nat, nat>)
    requires w in inFlight && CursorOk(items, fn, next, inFlight, owner, filled[..])
    modifies filled
    ensures CursorOk(items, fn, next', inFlight', owner', filled[..])
    ensures next < |items| ==> next' == next + 1 && |inFlight'| == |inFlight|
    ensures next == |items| ==> next' == next && |inFlight'| == |inFlight| - 1
  {
    var i := inFlight[w];
    ghost var before := filled[..];
    filled[i] := Some(fn(items[i]));
    assert filled[..] == before[i := Some(fn(items[i]))];
    if next < |items| {
      MovesOn(items, fn, next, inFlight, owner, before, w);
      inFlight', next', owner' := inFlight[w := next], next + 1, (owner - {i})[next := w];
    } else {
      Stops(items, fn, inFlight, owner, before, w);
      inFlight', next', owner' := inFlight - {w}, next, owner - {i};
    }
  }

  function Larger(a: nat, b: nat): nat {
    if a < b then b else a
  }

  function Indexes(n: nat): (r: seq<nat>)
    ensures |r| == n && forall k :: 0 <= k < n ==> r[k] == k
  {
    if n == 0 then [] else Indexes(n - 1) + [n - 1]
  }

  /** Every worker runs up to its first await before any of them completes. */
  method StartWorkers(size: nat) returns (inFlight: map<nat, nat>, next: nat, taken: seq<nat>)
    ensures next == size && inFlight == Started(size) && taken == Indexes(size)
  {
    inFlight, next, taken := map[], 0, [];
    for w := 0 to size
      invariant next == w && inFlight == Started(w) && taken == Indexes(w)
    {
      inFlight := inFlight[w := next];
      taken := taken + [next];
      next := next + 1;
    }
  }

  /** For a positive limit every result is fn of its item; every index is taken exactly once, in ascending order;
      and `peak`, the greatest number of calls in flight at once, is min(limit, n). With no workers nothing is
      computed. */
  method MapWithLimit<T, R>(items: seq<T>, limit: int, fn: T -> R)
    returns (results: seq<Option<R>>, taken: seq<nat>, peak: nat)
    ensures |results| == |items|
    ensures peak == PoolSize(limit, |items|)
    ensures limit >= 1 ==>
              taken == Indexes(|items|) && forall i :: 0 <= i < |items| ==> results[i] == Some(fn(items[i]))
    ensures limit < 1 ==> taken == [] && forall i :: 0 <= i < |items| ==> results[i] == None
  {
    var size := PoolSize(limit, |items|);
    var filled := new Option<R>[|items|](_ => None);
    var inFlight, next;
    inFlight, next, taken := StartWorkers(size);
    ghost var owner := inFlight;
    peak := |inFlight|;
    StartedOk(items, fn, size, filled[..]);
    while inFlight != map[]
      invariant CursorOk(items, fn, next, inFlight, owner, filled[..])
      invariant |inFlight| <= size && (size == 0 ==> next == 0)
      invariant next < |items| ==> |inFlight| == size
      invariant taken == Indexes(next) && peak == size
      decreases |items| - next, |inFlight|
    {
      var w :| w in inFlight;
      if next < |items| {
        assert Indexes(next + 1) == Indexes(next) + [next];
        taken := taken + [next];
      }
      inFlight, next, owner := CompleteOne(items, fn, filled, inFlight, next, owner, w);
      peak := Larger(peak, |inFlight|);
    }
    results := filled[..];
  }

  /** A worker hands in its result and takes the index under the cursor. */
  lemma MovesOn<T, R>(items: seq<T>, fn: T -> R, next: nat, inFlight: map<nat, nat>, owner: map<nat, nat>,
                       before: seq<Option<R>>, w: nat)
    requires CursorOk(items, fn, next, inFlight, owner, before) && next < |items| && w in inFlight
    ensures CursorOk(items, fn, next + 1, inFlight[w := next], (owner - {inFlight[w]})[next := w],
                     before[inFlight[w] := Some(fn(items[inFlight[w]]))])
    ensures |inFlight[w := next]| == |inFlight|
  {
    assert inFlight[w := next].Keys == inFlight.Keys;
    assert |inFlight[w := next]| == |inFlight[w := next].Keys| && |inFlight| == |inFlight.Keys|;
  }

  /** A worker hands in its result and finds the cursor at the end. */
  lemma Stops<T, R>(items: seq<T>, fn: T -> R, inFlight: map<nat, nat>, owner: map<nat, nat>, before: seq<Option<R>>,
                    w: nat)
    requires CursorOk(items, fn, |items|, inFlight, owner, before) && w in inFlight
    ensures CursorOk(items, fn, |items|, inFlight - {w}, owner - {inFlight[w]},
                     before[inFlight[w] := Some(fn(items[inFlight[w]]))])
    ensures |inFlight - {w}| == |inFlight| - 1
  {
    assert (inFlight - {w}).Keys == inFlight.Keys - {w};
    assert |inFlight - {w}| == |(inFlight - {w}).Keys| && |inFlight| == |inFlight.Keys|;
  }
}
