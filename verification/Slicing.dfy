/** How the dispatchers cut their item lists into numbered batches. */
module Slicing {
  import opened Options
  import opened Emission

  function Slices<T>(s: seq<T>, size: nat): seq<seq<T>>
    requires size > 0
  {
    if s == [] then []
    else if |s| <= size then [s]
    else [s[..size]] + Slices(s[size..], size)
  }

  function Concat<T>(slices: seq<seq<T>>): seq<T> {
    if slices == [] then [] else slices[0] + Concat(slices[1..])
  }

  function CountFor(n: nat, size: nat): nat
    requires size > 0
  {
    (n + size - 1) / size
  }

  lemma DivideStep(n: nat, size: nat)
    requires 0 < size <= n
    ensures n / size == (n - size) / size + 1
    ensures n % size == (n - size) % size
  {
    var q, r := (n - size) / size, (n - size) % size;
    assert n == size * (q + 1) + r;
    DivideUnique(n, size, q + 1, r);
  }

  lemma DivideUnique(n: nat, size: nat, q: nat, r: nat)
    requires size > 0 && n == size * q + r && r < size
    ensures n / size == q && n % size == r
  {
    var d := n / size - q;
    assert n == size * (n / size) + n % size;
    assert size * d == r - n % size;
    AwayFromZero(size, d);
  }

  lemma AwayFromZero(size: nat, d: int)
    ensures d >= 1 ==> size * d >= size
    ensures d <= -1 ==> size * d <= 0 - size
  {
  }

  /** Slicing loses, repeats and reorders nothing: the slices concatenate to the list, there are as many as
      the list needs, none is empty or too long, and element i is the (i mod size)-th of slice i / size. */
  lemma {:induction false} SlicesPartition<T>(s: seq<T>, size: nat)
    requires size > 0
    ensures
      var slices := Slices(s, size);
      && Concat(slices) == s
      && |slices| == CountFor(|s|, size)
      && (forall k :: 0 <= k < |slices| ==> 0 < |slices[k]| <= size)
      && (forall i :: 0 <= i < |s| ==> Lands(s, slices, size, i))
    decreases |s|
  {
    var slices := Slices(s, size);
    if s == [] {
      DivideUnique(size - 1, size, 0, size - 1);
    } else if |s| <= size {
      assert slices == [s] && slices[1..] == [];
      assert Concat(slices) == s + Concat(slices[1..]) == s;
      DivideUnique(|s| + size - 1, size, 1, |s| - 1);
      forall i | 0 <= i < |s| ensures i / size == 0 && i % size == i {
        DivideUnique(i, size, 0, i);
      }
    } else {
      SlicesPartition(s[size..], size);
      assert slices[1..] == Slices(s[size..], size);
      assert s == s[..size] + s[size..];
      DivideStep(|s| + size - 1, size);
      forall i | 0 <= i < |s| ensures Lands(s, slices, size, i) {
        LandsAfterHead(s, size, i);
      }
    }
  }

  /** Element i is the r-th of slice k. */
  predicate LandsAt<T(==)>(s: seq<T>, slices: seq<seq<T>>, i: nat, k: int, r: int)
    requires i < |s|
  {
    0 <= k < |slices| && 0 <= r < |slices[k]| && slices[k][r] == s[i]
  }

  /** Element i is the (i mod size)-th of slice i / size. */
  predicate Lands<T(==)>(s: seq<T>, slices: seq<seq<T>>, size: nat, i: nat)
    requires size > 0 && i < |s|
  {
    LandsAt(s, slices, i, i / size, i % size)
  }

  lemma LandsOneLater<T>(s: seq<T>, rest: seq<seq<T>>, size: nat, i: nat, k: int, r: int)
    requires 0 < size <= i < |s| && LandsAt(s[size..], rest, i - size, k, r)
    ensures LandsAt(s, [s[..size]] + rest, i, k + 1, r)
  {
    assert s[size..][i - size] == s[i];
  }

  lemma LandsAfterHead<T>(s: seq<T>, size: nat, i: nat)
    requires 0 < size < |s| && i < |s|
    requires i >= size ==> Lands(s[size..], Slices(s[size..], size), size, i - size)
    ensures Lands(s, Slices(s, size), size, i)
  {
    var rest := Slices(s[size..], size);
    assert Slices(s, size) == [s[..size]] + rest;
    if i < size {
      DivideUnique(i, size, 0, i);
    } else {
      DivideStep(i, size);
      LandsOneLater(s, rest, size, i, (i - size) / size, (i - size) % size);
    }
  }

  /** Cutting off one full slice, or the rest. */
  lemma {:induction false} SlicesExtend<T>(s: seq<T>, size: nat, i: nat, end: nat)
    requires size > 0 && i < |s| && i % size == 0
    requires end == if i + size < |s| then i + size else |s|
    ensures Slices(s[..end], size) == Slices(s[..i], size) + [s[i..end]]
    decreases i
  {
    if i == 0 {
      assert s[..i] == [] && s[i..end] == s[..end];
    } else {
      if i < size {
        DivideUnique(i, size, 0, i);
      }
      DivideStep(i, size);
      var t := s[size..];
      SlicesExtend(t, size, i - size, end - size);
      assert s[..end][size..] == t[..end - size] && s[..i][size..] == t[..i - size];
      assert t[i - size..end - size] == s[i..end];
      assert s[..end][..size] == s[..i][..size] == s[..size];
      assert |s[..i]| == size ==> Slices(s[..i], size) == [s[..size]] && t[..i - size] == [];
    }
  }

  // ----- calc-base-product-metrics -----

  const CALC_BATCH_SIZE: nat := 500

  datatype CalcBatch = CalcBatch(batchSeq: int, eans: seq<string>)

  datatype CalcResult = NoProducts | CalcBatches(batches: seq<CalcBatch>)

  /** Numbered 1..n in order, the payloads being the slices of the EAN list; no products, no batches (the caller
      then stages the successor). */
  method CalcDispatch(eans: seq<string>) returns (r: CalcResult)
    ensures r == NoProducts <==> eans == []
    ensures r.CalcBatches? ==>
      && |r.batches| == |Slices(eans, 500)|
      && forall k :: 0 <= k < |r.batches| ==> r.batches[k] == CalcBatch(k + 1, Slices(eans, 500)[k])
  {
    if |eans| == 0 {
      return NoProducts;
    }
    var batches: seq<CalcBatch> := [];
    var offset, number := 0, 1;
    assert eans[..0] == [];
    while offset < |eans|
      invariant offset % CALC_BATCH_SIZE == 0 && number == |batches| + 1
      invariant var sofar := Slices(eans[..if offset < |eans| then offset else |eans|], CALC_BATCH_SIZE);
                |batches| == |sofar| && forall k :: 0 <= k < |batches| ==> batches[k] == CalcBatch(k + 1, sofar[k])
      decreases |eans| - offset
    {
      var end := if offset + CALC_BATCH_SIZE < |eans| then offset + CALC_BATCH_SIZE else |eans|;
      SlicesExtend(eans, CALC_BATCH_SIZE, offset, end);
      batches := batches + [CalcBatch(number, eans[offset..end])];
      offset, number := offset + CALC_BATCH_SIZE, number + 1;
    }
    assert eans[..|eans|] == eans;
    r := CalcBatches(batches);
  }

  // ----- apply-price -----

  const APPLY_BATCH_SIZE: nat := 50

  datatype ItemStatus = ItemPending | ItemApplied | ItemFailed(reason: string)
  datatype RunStatus = RunQueued | RunRunning | RunDone

  datatype ApplyItem = ApplyItem(id: string, status: ItemStatus, batchSeq: Option<int>)

  ghost predicate DistinctIds(items: seq<ApplyItem>) {
    forall i, j :: 0 <= i < j < |items| ==> items[i].id != items[j].id
  }

  /** The items of one apply run in id order, and the run's own row. */
  class ApplyPriceDispatch {
    var items: seq<ApplyItem>
    var runStatus: RunStatus
    var failed: nat
    const total: nat

    constructor (items: seq<ApplyItem>, total: nat)
      ensures this.items == items && this.total == total && runStatus == RunQueued && failed == 0
    {
      this.items, this.total, runStatus, failed := items, total, RunQueued, 0;
    }

    /** UPDATE .. SET batch_seq WHERE id = ANY(ids). */
    method SetBatchSeq(ids: set<string>, batchSeq: int)
      modifies this`items
      ensures |items| == |old(items)|
      ensures forall i :: 0 <= i < |items| ==>
                items[i] == if old(items)[i].id in ids then old(items)[i].(batchSeq := Some(batchSeq))
                            else old(items)[i]
    {
      items := seq(|items|, i requires 0 <= i < |items| reads this =>
                              if items[i].id in ids then items[i].(batchSeq := Some(batchSeq)) else items[i]);
    }

    /** The seqs of the emitted batches. Every item, whatever its status, is assigned the batch of its position. */
    method Handle(hasCredentials: bool) returns (batches: seq<int>)
      requires DistinctIds(items)
      modifies this
      ensures |items| == |old(items)|
      ensures old(items) == [] ==> runStatus == RunDone && batches == [] && failed == old(failed)
      ensures old(items) != [] && !hasCredentials ==>
        && runStatus == RunDone && failed == total && batches == []
        && forall i :: 0 <= i < |items| ==>
             items[i] == if old(items)[i].status.ItemPending?
                         then old(items)[i].(status := ItemFailed("a7_nao_configurado"))
                         else old(items)[i]
      ensures old(items) != [] && hasCredentials ==>
        && runStatus == RunRunning && failed == old(failed)
        && batches == Numbered(CountFor(|items|, 50))
        && forall i :: 0 <= i < |items| ==> items[i] == old(items)[i].(batchSeq := Some(i / 50 + 1))
    {
      batches := [];
      if |items| == 0 {
        runStatus := RunDone;
        return;
      }
      if !hasCredentials {
        items := seq(|items|, i requires 0 <= i < |items| reads this =>
                                if items[i].status.ItemPending?
                                then items[i].(status := ItemFailed("a7_nao_configurado"))
                                else items[i]);
        runStatus, failed := RunDone, total;
        return;
      }
      runStatus := RunRunning;
      ghost var before := items;
      var i := 0;
      while i < |items|
        invariant |items| == |before| && runStatus == RunRunning && failed == old(failed)
        invariant i == |batches| * APPLY_BATCH_SIZE && i < |items| + APPLY_BATCH_SIZE
        invariant batches == Numbered(|batches|)
        invariant forall k :: 0 <= k < |items| ==>
                    items[k] == if k < i then before[k].(batchSeq := Some(k / APPLY_BATCH_SIZE + 1)) else before[k]
        decreases |items| - i
      {
        var batchSeq := |batches| + 1;
        var end := if i + APPLY_BATCH_SIZE < |items| then i + APPLY_BATCH_SIZE else |items|;
        var ids := set k | i <= k < end :: items[k].id;
        SetBatchSeq(ids, batchSeq);
        forall k | 0 <= k < |before| ensures before[k].id in ids <==> i <= k < end {
        }
        batches := batches + [batchSeq];
        i := i + APPLY_BATCH_SIZE;
      }
    }
  }

  /** The emitted batches are exactly the seqs that items were assigned: none is empty, no item is left out. */
  lemma AssignmentCoversBatches(n: nat, size: nat, q: int)
    requires size > 0
    ensures (exists i :: 0 <= i < n && i / size + 1 == q) <==> 1 <= q <= CountFor(n, size)
  {
    var s := seq(n, i => i);
    SlicesPartition(s, size);
    if i :| 0 <= i < n && i / size + 1 == q {
      assert Lands(s, Slices(s, size), size, i);
    }
    if 1 <= q <= CountFor(n, size) {
      var i := size * (q - 1);
      FirstOfSlice(n, size, q);
    }
  }

  lemma FirstOfSlice(n: nat, size: nat, q: int)
    requires size > 0 && 1 <= q <= CountFor(n, size)
    ensures 0 <= size * (q - 1) < n && size * (q - 1) / size + 1 == q
  {
    var top := n + size - 1;
    assert top == size * (top / size) + top % size;
    assert size * q <= size * (top / size);
    assert size * (q - 1) == size * q - size;
    DivideUnique(size * (q - 1), size, q - 1, 0);
  }
}
