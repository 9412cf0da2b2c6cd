/** The sequencer's greedy batch filter. */
module Sequencer {
  import opened Words

  /** The part of a transaction the budgets look at. A slice is never longer than the largest `int`. */
  datatype Tx = Tx(id: Bytes, gasLimit: U64, dataLen: U64)

  const MAX_LEN: int := 0x7FFF_FFFF_FFFF_FFFF
  const OVERHEAD: U64 := 256

  ghost predicate SliceSized(batch: seq<Tx>) {
    forall i :: 0 <= i < |batch| ==> batch[i].dataLen <= MAX_LEN
  }

  // ---------------------------------------------------------------- the selection in true arithmetic

  function Gas(batch: seq<Tx>, picks: seq<nat>): nat
    requires forall k :: 0 <= k < |picks| ==> picks[k] < |batch|
  {
    if picks == [] then 0 else Gas(batch, picks[..|picks| - 1]) + batch[picks[|picks| - 1]].gasLimit
  }

  function Size(batch: seq<Tx>, picks: seq<nat>): nat
    requires forall k :: 0 <= k < |picks| ==> picks[k] < |batch|
  {
    if picks == [] then 0 else Size(batch, picks[..|picks| - 1]) + batch[picks[|picks| - 1]].dataLen + OVERHEAD
  }

  /** Whether a transaction can join a selection within both budgets, sums unwrapped. */
  predicate CanJoin(batch: seq<Tx>, picks: seq<nat>, i: nat, maxGas: U64, maxSize: U64)
    requires i < |batch| && forall k :: 0 <= k < |picks| ==> picks[k] < |batch|
  {
    Gas(batch, picks) + batch[i].gasLimit <= maxGas && Size(batch, picks) + batch[i].dataLen + OVERHEAD <= maxSize
  }

  /** First fit over the first `n` transactions: the indices kept. */
  function Picks(batch: seq<Tx>, n: nat, maxGas: U64, maxSize: U64): (picks: seq<nat>)
    requires n <= |batch|
    ensures forall k :: 0 <= k < |picks| ==> picks[k] < n
  {
    if n == 0 then []
    else
      var before := Picks(batch, n - 1, maxGas, maxSize);
      if CanJoin(batch, before, n - 1, maxGas, maxSize) then before + [n - 1] else before
  }

  function Selected(batch: seq<Tx>, picks: seq<nat>): seq<Tx>
    requires forall k :: 0 <= k < |picks| ==> picks[k] < |batch|
  {
    seq(|picks|, k requires 0 <= k < |picks| => batch[picks[k]])
  }

  lemma SumsGrow(batch: seq<Tx>, picks: seq<nat>, i: nat)
    requires i < |batch| && forall k :: 0 <= k < |picks| ==> picks[k] < |batch|
    ensures Gas(batch, picks + [i]) == Gas(batch, picks) + batch[i].gasLimit
    ensures Size(batch, picks + [i]) == Size(batch, picks) + batch[i].dataLen + OVERHEAD
  {
    assert (picks + [i])[..|picks|] == picks;
  }

  /** The selection is in order, without repetition, and within both budgets. */
  lemma {:induction false} SelectionIsSafe(batch: seq<Tx>, n: nat, maxGas: U64, maxSize: U64)
    requires n <= |batch|
    ensures var picks := Picks(batch, n, maxGas, maxSize);
            && (forall j, k :: 0 <= j < k < |picks| ==> picks[j] < picks[k])
            && Gas(batch, picks) <= maxGas && Size(batch, picks) <= maxSize
  {
    if n > 0 {
      SelectionIsSafe(batch, n - 1, maxGas, maxSize);
      SumsGrow(batch, Picks(batch, n - 1, maxGas, maxSize), n - 1);
    }
  }

  /** The selection is maximal: nothing left out could join the final selection without breaking a budget. */
  lemma {:induction false} SelectionIsMaximal(batch: seq<Tx>, n: nat, i: nat, maxGas: U64, maxSize: U64)
    requires i < n <= |batch| && i !in Picks(batch, n, maxGas, maxSize)
    ensures !CanJoin(batch, Picks(batch, n, maxGas, maxSize), i, maxGas, maxSize)
  {
    var before := Picks(batch, n - 1, maxGas, maxSize);
    SumsGrow(batch, before, n - 1);
    assert forall k :: k in before ==> k in before + [n - 1];
    if i < n - 1 {
      SelectionIsMaximal(batch, n - 1, i, maxGas, maxSize);
    }
  }

  /** The kept indices below `i`. */
  function Below(picks: seq<nat>, i: nat): (below: seq<nat>)
    ensures forall k :: 0 <= k < |below| ==> below[k] in picks
  {
    if picks == [] then []
    else Below(picks[..|picks| - 1], i) + (if picks[|picks| - 1] < i then [picks[|picks| - 1]] else [])
  }

  lemma {:induction false} AllBelow(picks: seq<nat>, i: nat)
    requires forall k :: 0 <= k < |picks| ==> picks[k] < i
    ensures Below(picks, i) == picks
  {
    if picks != [] {
      AllBelow(picks[..|picks| - 1], i);
      assert picks == picks[..|picks| - 1] + [picks[|picks| - 1]];
    }
  }

  lemma {:induction false} BelowKept(batch: seq<Tx>, n: nat, i: nat, maxGas: U64, maxSize: U64)
    requires i <= n <= |batch|
    ensures Below(Picks(batch, n, maxGas, maxSize), i) == Picks(batch, i, maxGas, maxSize)
  {
    hide CanJoin;
    var picks := Picks(batch, n, maxGas, maxSize);
    if i == n {
      AllBelow(picks, i);
    } else {
      BelowKept(batch, n - 1, i, maxGas, maxSize);
      var shorter := Picks(batch, n - 1, maxGas, maxSize);
      assert picks != shorter ==> picks[..|picks| - 1] == shorter;
    }
  }

  lemma {:induction false} KeptWhenSeen(batch: seq<Tx>, n: nat, i: nat, maxGas: U64, maxSize: U64)
    requires i < n <= |batch|
    ensures i in Picks(batch, n, maxGas, maxSize)
       <==> CanJoin(batch, Picks(batch, i, maxGas, maxSize), i, maxGas, maxSize)
  {
    hide CanJoin;
    var shorter := Picks(batch, n - 1, maxGas, maxSize);
    if i < n - 1 {
      KeptWhenSeen(batch, n - 1, i, maxGas, maxSize);
    } else {
      assert CanJoin(batch, shorter, i, maxGas, maxSize) ==> (shorter + [i])[|shorter|] == i;
    }
  }

  /** First fit: a transaction is kept exactly when it fits both budgets beside the kept ones before it. */
  lemma FirstFit(batch: seq<Tx>, i: nat, maxGas: U64, maxSize: U64)
    requires i < |batch|
    ensures var picks := Picks(batch, |batch|, maxGas, maxSize);
            var before := Below(picks, i);
            && (forall k :: 0 <= k < |before| ==> before[k] < |batch|)
            && (i in picks <==>
                  && Gas(batch, before) + batch[i].gasLimit <= maxGas
                  && Size(batch, before) + batch[i].dataLen + 256 <= maxSize)
  {
    BelowKept(batch, |batch|, i, maxGas, maxSize);
    KeptWhenSeen(batch, |batch|, i, maxGas, maxSize);
  }

  // ---------------------------------------------------------------- the loop

  lemma SelectedGrows(batch: seq<Tx>, picks: seq<nat>, i: nat)
    requires i < |batch| && forall k :: 0 <= k < |picks| ==> picks[k] < |batch|
    ensures Selected(batch, picks + [i]) == Selected(batch, picks) + [batch[i]]
  {
  }

  /** A wrapped sum that did not get smaller did not wrap. */
  lemma NoWrapTest(total: U64, add: nat, max: U64)
    requires add < TWO64
    ensures Wrap(total + add) >= total && Wrap(total + add) <= max <==> total + add <= max
    ensures total + add <= max ==> Wrap(total + add) == total + add
  {
  }

  /** `filterBatch`: the wrapped sums and the overflow tests compute exactly the true-arithmetic selection. */
  method FilterBatch(batch: seq<Tx>, maxGas: U64, maxSize: U64) returns (filtered: seq<Tx>)
    requires SliceSized(batch)
    ensures filtered == Selected(batch, Picks(batch, |batch|, maxGas, maxSize))
  {
    hide Gas, Size, Selected;
    filtered := [];
    var totalGas: U64, totalSize: U64 := 0, 0;
    NothingSelected(batch);
    for i := 0 to |batch|
      invariant filtered == Selected(batch, Picks(batch, i, maxGas, maxSize))
      invariant totalGas == Gas(batch, Picks(batch, i, maxGas, maxSize))
      invariant totalSize == Size(batch, Picks(batch, i, maxGas, maxSize))
    {
      var tx := batch[i];
      var nextGas := Wrap(totalGas + tx.gasLimit);
      var nextSize := Wrap(totalSize + (tx.dataLen + OVERHEAD));
      NoWrapTest(totalGas, tx.gasLimit, maxGas);
      NoWrapTest(totalSize, tx.dataLen + OVERHEAD, maxSize);
      SumsGrow(batch, Picks(batch, i, maxGas, maxSize), i);
      SelectedGrows(batch, Picks(batch, i, maxGas, maxSize), i);
      if nextGas >= totalGas && nextGas <= maxGas && nextSize >= totalSize && nextSize <= maxSize {
        filtered := filtered + [tx];
        totalGas := nextGas;
        totalSize := nextSize;
      }
    }
  }

  lemma NothingSelected(batch: seq<Tx>)
    ensures Selected(batch, []) == [] && Gas(batch, []) == 0 && Size(batch, []) == 0
  {
  }
}
