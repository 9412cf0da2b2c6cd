/** The base fee and its dynamics over whole runs of blocks. The sum of base and increase is converted
    back with `Uint64`, which keeps the low 64 bits. A zero gas target divides by zero and is excluded. */
module FeeMarket {
  import opened Words

  function Min(a: nat, b: nat): nat {
    if a < b then a else b
  }

  /** The change for being `distance` away from the target. */
  function Delta(base: U64, distance: nat, target: U64): int
    requires target > 0
  {
    base * Min(distance, target) / target / 8
  }

  /** `Update`: the base fee after a block. */
  function Next(base: U64, target: U64, used: U64): U64
    requires target > 0
  {
    if used == target then base
    else if used > target then Wrap(base + Delta(base, used - target, target))
    else if base - Delta(base, target - used, target) < 1 then 1
    else Wrap(base - Delta(base, target - used, target))
  }

  /** The sum after this block stays below 2^64. */
  predicate Fits(base: U64, target: U64, used: U64)
    requires target > 0
  {
    used > target ==> base + Delta(base, used - target, target) < TWO64
  }

  // ---------------------------------------------------------------- one block

  lemma ScaledDown(base: nat, x: nat, target: nat)
    requires target > 0 && x <= target
    ensures 0 <= base * x / target <= base
  {
    assert base * x <= base * target;
    DivideMonotone(0, base * x, target);
    DivideMonotone(base * x, base * target, target);
    DivideExact(base, target);
  }

  lemma DivideExact(a: nat, n: nat)
    requires n > 0
    ensures a * n / n == a
  {
    RemainderIs(a * n, n, a, 0);
    var q := a * n / n;
    assert a * n == q * n;
    assert (a - q) * n == 0;
    SmallMultiple(a - q, n);
  }

  lemma TimesPositive(d: nat, n: nat)
    ensures d * n >= 0
  {
  }

  lemma DivideMonotone(a: nat, b: nat, n: nat)
    requires n > 0 && a <= b
    ensures a / n <= b / n
  {
    var x, y := a / n, b / n;
    assert a == x * n + a % n && b == y * n + b % n;
    assert x * n == y * n + (x - y - 1) * n + n;
    if x > y {
      TimesPositive(x - y - 1, n);
    }
  }

  /** No block changes the fee by more than an eighth. */
  lemma DeltaBound(base: U64, distance: nat, target: U64)
    requires target > 0
    ensures 0 <= Delta(base, distance, target) <= base / 8
  {
    ScaledDown(base, Min(distance, target), target);
  }

  /** A sum that wraps lands below an eighth of the fee. */
  lemma Wraps(base: U64, target: U64, used: U64)
    requires target > 0 && !Fits(base, target, used)
    ensures Next(base, target, used) == base + Delta(base, used - target, target) - TWO64
    ensures 8 * Next(base, target, used) < base
  {
    hide Delta;
    DeltaBound(base, used - target, target);
    var delta := Delta(base, used - target, target);
    assert TWO64 <= base + delta < 2 * TWO64;
  }

  /** One block raises the fee to at most nine eighths, exactly unless the fee is zero and the block is
      below target: then it becomes one. It keeps at least seven eighths exactly when the sum does not
      wrap. */
  lemma {:induction false} StepBoundIff(base: U64, target: U64, used: U64)
    requires target > 0
    ensures 8 * Next(base, target, used) <= 9 * base <==> base >= 1 || used >= target
    ensures 8 * Next(base, target, used) >= 7 * base <==> Fits(base, target, used)
  {
    hide Delta;
    if used > target {
      DeltaBound(base, used - target, target);
      if !Fits(base, target, used) {
        Wraps(base, target, used);
      }
    } else if used < target {
      DeltaBound(base, target - used, target);
    }
  }

  lemma DeltaMonotone(base: U64, x: nat, y: nat, target: U64)
    requires target > 0 && x <= y
    ensures Delta(base, x, target) <= Delta(base, y, target)
  {
    var a, b := Min(x, target), Min(y, target);
    assert base * a <= base * b;
    DivideMonotone(base * a, base * b, target);
  }

  lemma MonotoneStep(base: U64, target: U64, low: U64, high: U64)
    requires target > 0 && base >= 1 && low <= high && Fits(base, target, high)
    ensures Next(base, target, low) <= Next(base, target, high)
  {
    hide Delta;
    DeltaBound(base, Distance(low, target), target);
    DeltaBound(base, Distance(high, target), target);
    if low > target {
      DeltaMonotone(base, low - target, high - target, target);
    } else if high < target {
      DeltaMonotone(base, target - high, target - low, target);
    }
  }

  function Distance(used: U64, target: U64): nat {
    if used > target then used - target else target - used
  }

  lemma FitsBelow(base: U64, target: U64, low: U64, high: U64)
    requires target > 0 && low <= high && Fits(base, target, high)
    ensures Fits(base, target, low)
  {
    hide Delta;
    if low > target {
      DeltaMonotone(base, low - target, high - target, target);
    }
  }

  /** The new fee is monotone in the gas used exactly for a fee of at least one whose raise by the fullest
      block does not wrap: from a zero fee an empty block leads to one and a block on target to zero, and
      a raise that wraps leads below the fee that a block on target keeps. */
  lemma {:induction false} MonotoneIff(base: U64, target: U64)
    requires target > 0
    ensures base >= 1 && Fits(base, target, MAX64) <==>
            forall low: U64, high: U64 :: low <= high ==> Next(base, target, low) <= Next(base, target, high)
  {
    hide Delta;
    if base < 1 {
      DeltaBound(0, target, target);
      assert Next(0, target, 0) == 1 && Next(0, target, target) == 0;
    } else if !Fits(base, target, MAX64) {
      Wraps(base, target, MAX64);
      assert Next(base, target, target) == base;
    } else {
      forall low: U64, high: U64 | low <= high ensures Next(base, target, low) <= Next(base, target, high) {
        FitsBelow(base, target, high, MAX64);
        MonotoneStep(base, target, low, high);
      }
    }
  }

  /** Fees from one to seven never change again. */
  lemma SmallFeesAreFixed(base: U64, target: U64, used: U64)
    requires target > 0 && 1 <= base <= 7
    ensures Next(base, target, used) == base
  {
    hide Delta;
    if used > target {
      DeltaBound(base, used - target, target);
    } else if used < target {
      DeltaBound(base, target - used, target);
    }
  }

  /** The exact fixed points: the fees that no block, however full, changes. */
  lemma {:induction false} FixedIff(base: U64, target: U64)
    requires target > 0
    ensures 1 <= base <= 7 <==> forall used: U64 :: Next(base, target, used) == base
  {
    if 1 <= base <= 7 {
      forall used: U64 ensures Next(base, target, used) == base {
        SmallFeesAreFixed(base, target, used);
      }
    } else {
      EmptyBlock(base, target);
      assert Next(base, target, 0) != base;
    }
  }

  /** An empty block takes an eighth, rounded down; from zero it leads to one. */
  lemma EmptyBlock(base: U64, target: U64)
    requires target > 0
    ensures Next(base, target, 0) == if base == 0 then 1 else base - base / 8
  {
    DivideExact(base, target);
    assert Delta(base, target, target) == base / 8;
  }

  // ---------------------------------------------------------------- runs

  function Run(base: U64, target: U64, used: seq<U64>): U64
    requires target > 0
  {
    if used == [] then base else Next(Run(base, target, used[..|used| - 1]), target, used[|used| - 1])
  }

  ghost predicate RunFits(base: U64, target: U64, used: seq<U64>)
    requires target > 0
  {
    forall i :: 0 <= i < |used| ==> Fits(Run(base, target, used[..i]), target, used[i])
  }

  function Pow(b: nat, n: nat): nat {
    if n == 0 then 1 else b * Pow(b, n - 1)
  }

  lemma RunFitsFront(base: U64, target: U64, used: seq<U64>)
    requires target > 0 && used != [] && RunFits(base, target, used)
    ensures RunFits(base, target, used[..|used| - 1])
    ensures Fits(Run(base, target, used[..|used| - 1]), target, used[|used| - 1])
  {
    hide Run, Fits;
    var front := used[..|used| - 1];
    forall i | 0 <= i < |front| ensures Fits(Run(base, target, front[..i]), target, front[i]) {
      assert front[..i] == used[..i] && front[i] == used[i];
    }
  }

  lemma ScaleBound(a: nat, b: nat, x: nat, y: nat, p: nat, q: nat)
    requires 8 * b <= 9 * a && a * p <= x * q
    ensures b * (8 * p) <= x * (9 * q)
  {
    assert b * (8 * p) == (8 * b) * p;
    assert (8 * b) * p <= (9 * a) * p;
    assert (9 * a) * p == 9 * (a * p) && x * (9 * q) == 9 * (x * q);
  }

  lemma ScaleLower(a: nat, b: nat, x: nat, p: nat, q: nat)
    requires 8 * b >= 7 * a && a * p >= x * q
    ensures b * (8 * p) >= x * (7 * q)
  {
    assert b * (8 * p) == (8 * b) * p;
    assert (8 * b) * p >= (7 * a) * p;
    assert (7 * a) * p == 7 * (a * p) && x * (7 * q) == 7 * (x * q);
  }

  /** Over n blocks whose sums stay below 2^64, a positive fee stays positive, grows at most by (9/8)^n
      and falls at most by (7/8)^n. */
  lemma {:induction false} GrowthOverRuns(base: U64, target: U64, used: seq<U64>)
    requires target > 0 && base >= 1 && RunFits(base, target, used)
    ensures Run(base, target, used) >= 1
    ensures Run(base, target, used) * Pow(8, |used|) <= base * Pow(9, |used|)
    ensures Run(base, target, used) * Pow(8, |used|) >= base * Pow(7, |used|)
  {
    hide RunFits, Next, Fits;
    if used != [] {
      var front := used[..|used| - 1];
      RunFitsFront(base, target, used);
      GrowthOverRuns(base, target, front);
      var a, b := Run(base, target, front), Run(base, target, used);
      StepBoundIff(a, target, used[|used| - 1]);
      ScaleBound(a, b, base, 0, Pow(8, |front|), Pow(9, |front|));
      ScaleLower(a, b, base, Pow(8, |front|), Pow(7, |front|));
    }
  }

  /** The sum wraps to less than seven. */
  predicate LandsLow(base: U64, target: U64, used: U64)
    requires target > 0
  {
    used > target && TWO64 <= base + Delta(base, used - target, target) < TWO64 + 7
  }

  predicate NeverLandsLow(base: U64, target: U64, used: seq<U64>)
    requires target > 0
  {
    used == []
    || (NeverLandsLow(base, target, used[..|used| - 1])
        && !LandsLow(Run(base, target, used[..|used| - 1]), target, used[|used| - 1]))
  }

  predicate AlwaysSeven(base: U64, target: U64, used: seq<U64>)
    requires target > 0
  {
    Run(base, target, used) >= 7 && (used == [] || AlwaysSeven(base, target, used[..|used| - 1]))
  }

  lemma StepFromSeven(base: U64, target: U64, used: U64)
    requires target > 0 && base >= 7
    ensures Next(base, target, used) >= 7 <==> !LandsLow(base, target, used)
  {
    hide Delta;
    StepBoundIff(base, target, used);
    if !Fits(base, target, used) {
      Wraps(base, target, used);
    }
  }

  /** A fee that reached seven stays at seven or above, over any run, if and only if no sum wraps to less
      than seven. */
  lemma {:induction false} SevenIsAFloorIff(base: U64, target: U64, used: seq<U64>)
    requires target > 0 && base >= 7
    ensures AlwaysSeven(base, target, used) <==> NeverLandsLow(base, target, used)
  {
    hide Next, LandsLow;
    if used != [] {
      var front := used[..|used| - 1];
      SevenIsAFloorIff(base, target, front);
      if AlwaysSeven(base, target, front) {
        StepFromSeven(Run(base, target, front), target, used[|used| - 1]);
      }
    }
  }

  /** A fee from one to seven stays what it is, over any run. */
  lemma {:induction false} SmallFeesStay(base: U64, target: U64, used: seq<U64>)
    requires target > 0 && 1 <= base <= 7
    ensures Run(base, target, used) == base
  {
    hide Next;
    if used != [] {
      SmallFeesStay(base, target, used[..|used| - 1]);
      SmallFeesAreFixed(base, target, used[|used| - 1]);
    }
  }

  function AfterEmpty(base: U64, target: U64, n: nat): U64
    requires target > 0
    decreases n
  {
    if n == 0 then base else AfterEmpty(Next(base, target, 0), target, n - 1)
  }

  /** How many empty blocks bring a fee down to seven. */
  function StepsToSeven(base: U64): nat {
    if base <= 7 then 0 else 1 + StepsToSeven(base - base / 8)
  }

  /** Repeated empty blocks bring every fee of seven or more to exactly seven, and keep it there. */
  lemma {:induction false} EmptyBlocksReachSeven(base: U64, target: U64, n: nat)
    requires target > 0 && base >= 7
    ensures AfterEmpty(base, target, n) == 7 <==> n >= StepsToSeven(base)
    ensures StepsToSeven(base) <= base - 7
    decreases base, n
  {
    hide Next;
    EmptyBlock(base, target);
    if base == 7 {
      if n > 0 {
        EmptyBlocksReachSeven(7, target, n - 1);
      }
    } else if n > 0 {
      EmptyBlocksReachSeven(base - base / 8, target, n - 1);
    } else {
      EmptyBlocksReachSeven(base - base / 8, target, 0);
    }
  }

  // ---------------------------------------------------------------- the object

  class FeeMarket {
    var baseFee: U64
    const gasTarget: U64
    var gasUsed: U64

    constructor (initialBaseFee: U64, gasTarget: U64)
      ensures baseFee == initialBaseFee && this.gasTarget == gasTarget && gasUsed == 0
    {
      baseFee, this.gasTarget, gasUsed := initialBaseFee, gasTarget, 0;
    }

    method Update(used: U64)
      requires gasTarget > 0
      modifies this
      ensures baseFee == Next(old(baseFee), gasTarget, used) && gasUsed == used
    {
      gasUsed := used;
      if used == gasTarget {
        return;
      }
      var base: nat := baseFee;
      if used > gasTarget {
        var excess := used - gasTarget;
        if !(excess < gasTarget) {
          excess := gasTarget;
        }
        var delta := base * excess;
        delta := delta / gasTarget;
        delta := delta / 8;
        baseFee := Wrap(base + delta);
      } else {
        var deficit := gasTarget - used;
        if !(deficit < gasTarget) {
          deficit := gasTarget;
        }
        var delta := base * deficit;
        delta := delta / gasTarget;
        delta := delta / 8;
        var newBase := base - delta;
        if newBase < 1 {
          baseFee := 1;
        } else {
          baseFee := Wrap(newBase);
        }
      }
    }

    /** The tip is what a price offers above the base fee. */
    method CalculateTip(gasPrice: U64) returns (tip: U64)
      ensures gasPrice > baseFee ==> baseFee + tip == gasPrice
      ensures gasPrice <= baseFee ==> tip == 0
    {
      if gasPrice <= baseFee {
        return 0;
      }
      return gasPrice - baseFee;
    }
  }
}
