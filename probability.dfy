/** The exact distribution of the sum of `numDice` dice with faces `1..diceMax`:
    the count recurrence `__sumsForTotal`, `sumProbability` and the two inclusive tail
    sums `sumAndAboveProbability` / `sumAndBelowProbability`. DiceRoller.py and
    diceroller.py carry the same text for all four (DiceRoller.py:193-233,
    diceroller.py:178-218); it is modelled once here. Floats become exact reals. */
module Probability {

  function Pow(b: nat, e: nat): (r: nat)
    ensures b >= 1 ==> r >= 1
  {
    if e == 0 then 1 else b * Pow(b, e - 1)
  }

  /** The number of ways `numDice` dice with faces `1..diceMax` add up to `total`:
      no dice make 0 in one way and nothing else; otherwise sum over the face of one die. */
  function SumsForTotal(total: int, numDice: nat, diceMax: nat): nat
    decreases numDice, diceMax + 1
  {
    if numDice == 0 then (if total == 0 then 1 else 0)
    else FaceSum(total, numDice - 1, diceMax, diceMax)
  }

  /** `sum(SumsForTotal(total - die, rest, diceMax) for die in range(1, k + 1))`. */
  function FaceSum(total: int, rest: nat, diceMax: nat, k: nat): nat
    decreases rest + 1, k
  {
    if k == 0 then 0
    else FaceSum(total, rest, diceMax, k - 1) + SumsForTotal(total - k, rest, diceMax)
  }

  // ---------------------------------------------------------------------------
  // Where the count is zero, where it is positive, and its two extreme values.

  /** No way to reach a total below `numDice` or above `numDice * diceMax`. */
  lemma {:induction false} SumsZeroOutside(total: int, numDice: nat, diceMax: nat)
    requires total < numDice || total > numDice * diceMax
    ensures SumsForTotal(total, numDice, diceMax) == 0
    decreases numDice, diceMax + 1
  {
    if numDice > 0 {
      FaceSumZeroOutside(total, numDice - 1, diceMax, diceMax);
    }
  }

  lemma {:induction false} FaceSumZeroOutside(total: int, rest: nat, diceMax: nat, k: nat)
    requires k <= diceMax
    requires total < rest + 1 || total > (rest + 1) * diceMax
    ensures FaceSum(total, rest, diceMax, k) == 0
    decreases rest + 1, k
  {
    if k > 0 {
      assert (rest + 1) * diceMax == rest * diceMax + diceMax;
      FaceSumZeroOutside(total, rest, diceMax, k - 1);
      SumsZeroOutside(total - k, rest, diceMax);
    }
  }

  /** A sum of face counts is at least each of its terms. */
  lemma {:induction false} FaceSumHasTerm(total: int, rest: nat, diceMax: nat, k: nat, die: nat)
    requires 1 <= die <= k
    ensures FaceSum(total, rest, diceMax, k) >= SumsForTotal(total - die, rest, diceMax)
  {
    if die < k {
      FaceSumHasTerm(total, rest, diceMax, k - 1, die);
    }
  }

  /** Every total from `numDice` to `numDice * diceMax` can be reached. */
  lemma {:induction false} SumsPositiveInside(total: int, numDice: nat, diceMax: nat)
    requires diceMax >= 1
    requires numDice <= total <= numDice * diceMax
    ensures SumsForTotal(total, numDice, diceMax) >= 1
  {
    if numDice > 0 {
      var rest := numDice - 1;
      assert numDice * diceMax == rest * diceMax + diceMax;
      var die := if total - rest * diceMax >= 1 then total - rest * diceMax else 1;
      SumsPositiveInside(total - die, rest, diceMax);
      FaceSumHasTerm(total, rest, diceMax, diceMax, die);
    }
  }

  /** The count is positive exactly on `[numDice, numDice * diceMax]`. */
  lemma SumsSupport(total: int, numDice: nat, diceMax: nat)
    requires diceMax >= 1
    ensures SumsForTotal(total, numDice, diceMax) > 0 <==> numDice <= total <= numDice * diceMax
  {
    if numDice <= total <= numDice * diceMax {
      SumsPositiveInside(total, numDice, diceMax);
    } else {
      SumsZeroOutside(total, numDice, diceMax);
    }
  }

  /** Only all-ones reaches the smallest total. */
  lemma {:induction false} SumsAtMinimum(numDice: nat, diceMax: nat)
    requires diceMax >= 1
    ensures SumsForTotal(numDice, numDice, diceMax) == 1
    decreases numDice, diceMax + 1
  {
    if numDice > 0 {
      FaceSumAtMinimum(numDice - 1, diceMax, diceMax);
    }
  }

  lemma {:induction false} FaceSumAtMinimum(rest: nat, diceMax: nat, k: nat)
    requires 1 <= k <= diceMax
    ensures FaceSum(rest + 1, rest, diceMax, k) == 1
    decreases rest + 1, k
  {
    if k == 1 {
      SumsAtMinimum(rest, diceMax);
    } else {
      FaceSumAtMinimum(rest, diceMax, k - 1);
      SumsZeroOutside(rest + 1 - k, rest, diceMax);
    }
  }

  /** Only all-`diceMax` reaches the largest total. */
  lemma {:induction false} SumsAtMaximum(numDice: nat, diceMax: nat)
    requires diceMax >= 1
    ensures SumsForTotal(numDice * diceMax, numDice, diceMax) == 1
  {
    if numDice > 0 {
      var rest := numDice - 1;
      assert numDice * diceMax - diceMax == rest * diceMax;
      FaceSumBelowMaximum(rest, diceMax, diceMax - 1);
      SumsAtMaximum(rest, diceMax);
    }
  }

  lemma {:induction false} FaceSumBelowMaximum(rest: nat, diceMax: nat, k: nat)
    requires k < diceMax
    ensures FaceSum((rest + 1) * diceMax, rest, diceMax, k) == 0
  {
    if k > 0 {
      assert (rest + 1) * diceMax - k > rest * diceMax;
      FaceSumBelowMaximum(rest, diceMax, k - 1);
      SumsZeroOutside((rest + 1) * diceMax - k, rest, diceMax);
    }
  }

  /** The distribution is symmetric about its mean: totals `t` and
      `numDice * diceMax + numDice - t` are reached in equally many ways. */
  lemma {:induction false} SumsSymmetric(total: int, numDice: nat, diceMax: nat)
    ensures SumsForTotal(total, numDice, diceMax)
         == SumsForTotal(numDice * diceMax + numDice - total, numDice, diceMax)
    decreases numDice, diceMax + 1
  {
    if numDice > 0 {
      FaceSumMirror(total, numDice - 1, diceMax, diceMax);
    }
  }

  /** Summing the faces of the last die downwards from the mirrored total equals summing
      them upwards from the original one. */
  lemma {:induction false} FaceSumMirror(total: int, rest: nat, diceMax: nat, k: nat)
    requires k <= diceMax
    ensures FaceSum((rest + 1) * diceMax + (rest + 1) - total, rest, diceMax, k)
            + FaceSum(total, rest, diceMax, diceMax - k)
         == FaceSum(total, rest, diceMax, diceMax)
    decreases rest + 1, k
  {
    if k > 0 {
      FaceSumMirror(total, rest, diceMax, k - 1);
      assert (rest + 1) * diceMax == rest * diceMax + diceMax;
      SumsSymmetric(total - (diceMax + 1 - k), rest, diceMax);
    }
  }

  // ---------------------------------------------------------------------------
  // Sums of counts over a range of totals.

  /** `Σ_{u = lo..hi} SumsForTotal(u, numDice, diceMax)`. */
  function CountRange(lo: int, hi: int, numDice: nat, diceMax: nat): nat
    decreases hi - lo
  {
    if hi < lo then 0 else CountRange(lo, hi - 1, numDice, diceMax) + SumsForTotal(hi, numDice, diceMax)
  }

  lemma {:induction false} CountRangeSplit(lo: int, mid: int, hi: int, numDice: nat, diceMax: nat)
    requires lo - 1 <= mid <= hi
    ensures CountRange(lo, hi, numDice, diceMax)
         == CountRange(lo, mid, numDice, diceMax) + CountRange(mid + 1, hi, numDice, diceMax)
    decreases hi - mid
  {
    if mid < hi {
      CountRangeSplit(lo, mid, hi - 1, numDice, diceMax);
    }
  }

  lemma {:induction false} CountRangeZero(lo: int, hi: int, numDice: nat, diceMax: nat)
    requires hi < numDice || lo > numDice * diceMax
    ensures CountRange(lo, hi, numDice, diceMax) == 0
    decreases hi - lo
  {
    if lo <= hi {
      CountRangeZero(lo, hi - 1, numDice, diceMax);
      SumsZeroOutside(hi, numDice, diceMax);
    }
  }

  /** A range that covers `[numDice, numDice * diceMax]` holds exactly the counts of that interval. */
  lemma CountRangeClip(lo: int, hi: int, numDice: nat, diceMax: nat)
    requires diceMax >= 1
    requires lo <= numDice && numDice * diceMax <= hi
    ensures CountRange(lo, hi, numDice, diceMax) == CountRange(numDice, numDice * diceMax, numDice, diceMax)
  {
    var top := numDice * diceMax;
    CountRangeSplit(lo, numDice - 1, hi, numDice, diceMax);
    CountRangeSplit(numDice, top, hi, numDice, diceMax);
    CountRangeZero(lo, numDice - 1, numDice, diceMax);
    CountRangeZero(top + 1, hi, numDice, diceMax);
  }

  /** `Σ_{u = lo..hi} FaceSum(u, rest, diceMax, k)`. */
  function FaceRange(lo: int, hi: int, rest: nat, diceMax: nat, k: nat): nat
    decreases hi - lo
  {
    if hi < lo then 0 else FaceRange(lo, hi - 1, rest, diceMax, k) + FaceSum(hi, rest, diceMax, k)
  }

  lemma {:induction false} CountRangeFaces(lo: int, hi: int, numDice: nat, diceMax: nat)
    requires numDice >= 1
    ensures CountRange(lo, hi, numDice, diceMax) == FaceRange(lo, hi, numDice - 1, diceMax, diceMax)
    decreases hi - lo
  {
    if lo <= hi {
      CountRangeFaces(lo, hi - 1, numDice, diceMax);
    }
  }

  lemma {:induction false} FaceRangeNoFaces(lo: int, hi: int, rest: nat, diceMax: nat)
    ensures FaceRange(lo, hi, rest, diceMax, 0) == 0
    decreases hi - lo
  {
    if lo <= hi {
      FaceRangeNoFaces(lo, hi - 1, rest, diceMax);
    }
  }

  /** Exchanging the two sums: the face `k` contributes the counts of the shifted range. */
  lemma {:induction false} FaceRangePeel(lo: int, hi: int, rest: nat, diceMax: nat, k: nat)
    requires k >= 1
    ensures FaceRange(lo, hi, rest, diceMax, k)
         == FaceRange(lo, hi, rest, diceMax, k - 1) + CountRange(lo - k, hi - k, rest, diceMax)
    decreases hi - lo
  {
    if lo <= hi {
      FaceRangePeel(lo, hi - 1, rest, diceMax, k);
    }
  }

  /** All `diceMax ^ numDice` outcomes are counted exactly once over the reachable totals. */
  lemma {:induction false} CountRangeTotal(numDice: nat, diceMax: nat)
    requires diceMax >= 1
    ensures CountRange(numDice, numDice * diceMax, numDice, diceMax) == Pow(diceMax, numDice)
    decreases numDice, diceMax + 1
  {
    if numDice > 0 {
      CountRangeFaces(numDice, numDice * diceMax, numDice, diceMax);
      FaceRangeTotal(numDice, diceMax, diceMax);
    }
  }

  lemma {:induction false} FaceRangeTotal(numDice: nat, diceMax: nat, k: nat)
    requires numDice >= 1 && 1 <= diceMax && k <= diceMax
    ensures FaceRange(numDice, numDice * diceMax, numDice - 1, diceMax, k) == k * Pow(diceMax, numDice - 1)
    decreases numDice - 1 + 1, k
  {
    var rest := numDice - 1;
    var top := numDice * diceMax;
    if k == 0 {
      FaceRangeNoFaces(numDice, top, rest, diceMax);
    } else {
      FaceRangeTotal(numDice, diceMax, k - 1);
      FaceRangePeel(numDice, top, rest, diceMax, k);
      MulStep(numDice, diceMax);
      CountRangeClip(numDice - k, top - k, rest, diceMax);
      CountRangeTotal(rest, diceMax);
      MulStep(k, Pow(diceMax, rest));
    }
  }

  /** One more copy of `p`. */
  lemma MulStep(k: int, p: int)
    ensures k * p == (k - 1) * p + p
  {
  }

  /** A single count is at most the sum over a range that holds it. */
  lemma {:induction false} CountRangeHasTerm(lo: int, hi: int, total: int, numDice: nat, diceMax: nat)
    requires lo <= total <= hi
    ensures SumsForTotal(total, numDice, diceMax) <= CountRange(lo, hi, numDice, diceMax)
    decreases hi - lo
  {
    if total < hi {
      CountRangeHasTerm(lo, hi - 1, total, numDice, diceMax);
    }
  }

  /** No total is reached in more than `diceMax ^ numDice` ways. */
  lemma SumsAtMostAll(total: int, numDice: nat, diceMax: nat)
    requires diceMax >= 1
    ensures SumsForTotal(total, numDice, diceMax) <= Pow(diceMax, numDice)
  {
    if numDice <= total <= numDice * diceMax {
      CountRangeHasTerm(numDice, numDice * diceMax, total, numDice, diceMax);
      CountRangeTotal(numDice, diceMax);
    } else {
      SumsZeroOutside(total, numDice, diceMax);
    }
  }

  /** A sub-range holds at most all outcomes. */
  lemma CountRangeAtMostAll(lo: int, hi: int, numDice: nat, diceMax: nat)
    requires diceMax >= 1
    ensures CountRange(lo, hi, numDice, diceMax) <= Pow(diceMax, numDice)
  {
    var top := numDice * diceMax;
    if lo <= hi {
      var lo' := if lo < numDice then lo else numDice;
      var hi' := if hi > top then hi else top;
      CountRangeSplit(lo', lo - 1, hi', numDice, diceMax);
      CountRangeSplit(lo, hi, hi', numDice, diceMax);
      CountRangeClip(lo', hi', numDice, diceMax);
      CountRangeTotal(numDice, diceMax);
    }
  }

  // ---------------------------------------------------------------------------
  // Probabilities.

  /** `sumProbability`: the count divided by the number of outcomes `diceMax ** numDice`. */
  function SumProbability(total: int, numDice: nat, diceMax: nat): (p: real)
    requires diceMax >= 1
    ensures 0.0 <= p <= 1.0
    ensures p > 0.0 <==> numDice <= total <= numDice * diceMax
  {
    SumsAtMostAll(total, numDice, diceMax);
    SumsSupport(total, numDice, diceMax);
    Fraction(SumsForTotal(total, numDice, diceMax), Pow(diceMax, numDice))
  }

  /** `a / b` for naturals `a <= b`, `b > 0`. */
  function Fraction(a: nat, b: nat): (q: real)
    requires 0 < b && a <= b
    ensures 0.0 <= q <= 1.0
    ensures q > 0.0 <==> a > 0
    ensures a == b ==> q == 1.0
  {
    (a as real) / (b as real)
  }

  lemma AddFractions(a: real, c: real, b: real)
    requires b > 0.0
    ensures a / b + c / b == (a + c) / b
  {
  }

  /** `Σ_{u = lo..hi} SumProbability(u, numDice, diceMax)`: the reference for both tails. */
  function ProbRange(lo: int, hi: int, numDice: nat, diceMax: nat): real
    requires diceMax >= 1
    decreases hi - lo
  {
    if hi < lo then 0.0 else ProbRange(lo, hi - 1, numDice, diceMax) + SumProbability(hi, numDice, diceMax)
  }

  /** The probability of a range is its count over the number of outcomes. */
  lemma {:induction false} ProbRangeCounts(lo: int, hi: int, numDice: nat, diceMax: nat)
    requires diceMax >= 1
    ensures ProbRange(lo, hi, numDice, diceMax)
         == (CountRange(lo, hi, numDice, diceMax) as real) / (Pow(diceMax, numDice) as real)
    decreases hi - lo
  {
    if lo <= hi {
      ProbRangeCounts(lo, hi - 1, numDice, diceMax);
      AddFractions(CountRange(lo, hi - 1, numDice, diceMax) as real,
                   SumsForTotal(hi, numDice, diceMax) as real, Pow(diceMax, numDice) as real);
    }
  }

  lemma {:induction false} ProbRangeSplit(lo: int, mid: int, hi: int, numDice: nat, diceMax: nat)
    requires diceMax >= 1
    requires lo - 1 <= mid <= hi
    ensures ProbRange(lo, hi, numDice, diceMax)
         == ProbRange(lo, mid, numDice, diceMax) + ProbRange(mid + 1, hi, numDice, diceMax)
    decreases hi - mid
  {
    if mid < hi {
      ProbRangeSplit(lo, mid, hi - 1, numDice, diceMax);
    }
  }

  /** The probability of any range of totals lies in `[0, 1]`, and is exactly 1 for a range
      covering `[numDice, numDice * diceMax]`: the probabilities of the valid totals sum to 1. */
  lemma ProbRangeBounds(lo: int, hi: int, numDice: nat, diceMax: nat)
    requires diceMax >= 1
    ensures 0.0 <= ProbRange(lo, hi, numDice, diceMax) <= 1.0
    ensures lo <= numDice && numDice * diceMax <= hi ==> ProbRange(lo, hi, numDice, diceMax) == 1.0
  {
    ProbRangeCounts(lo, hi, numDice, diceMax);
    CountRangeAtMostAll(lo, hi, numDice, diceMax);
    assert ProbRange(lo, hi, numDice, diceMax)
        == Fraction(CountRange(lo, hi, numDice, diceMax), Pow(diceMax, numDice));
    if lo <= numDice && numDice * diceMax <= hi {
      CountRangeClip(lo, hi, numDice, diceMax);
      CountRangeTotal(numDice, diceMax);
    }
  }

  /** A range outside `[numDice, numDice * diceMax]` has probability 0. */
  lemma ProbRangeZero(lo: int, hi: int, numDice: nat, diceMax: nat)
    requires diceMax >= 1
    requires hi < numDice || lo > numDice * diceMax
    ensures ProbRange(lo, hi, numDice, diceMax) == 0.0
  {
    ProbRangeCounts(lo, hi, numDice, diceMax);
    CountRangeZero(lo, hi, numDice, diceMax);
  }

  /** `sumAndAboveProbability`: P(sum >= total), inclusive. At `total == numDice * diceMax`
      the source answers with `sumProbability(numDice, ...)`, the probability of the
      smallest total; that is right because both extremes are reached in exactly one way. */
  function SumAndAboveProbability(total: int, numDice: nat, diceMax: nat): (p: real)
    requires diceMax >= 1
    ensures p == ProbRange(total, numDice * diceMax, numDice, diceMax)
    ensures 0.0 <= p <= 1.0
    decreases numDice * diceMax - total
  {
    ProbRangeBounds(total, numDice * diceMax, numDice, diceMax);
    if total == numDice * diceMax then
      SumsAtMinimum(numDice, diceMax);
      SumsAtMaximum(numDice, diceMax);
      SumProbability(numDice, numDice, diceMax)
    else if total > diceMax * numDice then
      0.0
    else
      ProbRangeSplit(total, total, numDice * diceMax, numDice, diceMax);
      SumProbability(total, numDice, diceMax) + SumAndAboveProbability(total + 1, numDice, diceMax)
  }

  /** `sumAndBelowProbability`: P(sum <= total), inclusive. */
  function SumAndBelowProbability(total: int, numDice: nat, diceMax: nat): (p: real)
    requires diceMax >= 1
    ensures p == ProbRange(numDice, total, numDice, diceMax)
    ensures 0.0 <= p <= 1.0
    decreases total - numDice
  {
    ProbRangeBounds(numDice, total, numDice, diceMax);
    if total == numDice then
      SumProbability(numDice, numDice, diceMax)
    else if total < numDice then
      0.0
    else
      SumProbability(total, numDice, diceMax) + SumAndBelowProbability(total - 1, numDice, diceMax)
  }

  /** The values of `sumProbability` over the reachable totals add up to 1. */
  lemma ProbabilitiesSumToOne(numDice: nat, diceMax: nat)
    requires diceMax >= 1
    ensures ProbRange(numDice, numDice * diceMax, numDice, diceMax) == 1.0
  {
    ProbRangeBounds(numDice, numDice * diceMax, numDice, diceMax);
  }

  /** The tails are certain at the extremes: P(sum >= numDice) == P(sum <= numDice * diceMax) == 1,
      and they vanish beyond them. */
  lemma TailsAtBounds(numDice: nat, diceMax: nat)
    requires diceMax >= 1
    ensures SumAndAboveProbability(numDice, numDice, diceMax) == 1.0
    ensures SumAndBelowProbability(numDice * diceMax, numDice, diceMax) == 1.0
    ensures SumAndAboveProbability(numDice * diceMax + 1, numDice, diceMax) == 0.0
    ensures SumAndBelowProbability(numDice - 1, numDice, diceMax) == 0.0
  {
    ProbRangeBounds(numDice, numDice * diceMax, numDice, diceMax);
  }

  /** For any total `x`: P(sum < x) + P(sum == x) + P(sum > x) == 1, where the strict tails are
      the inclusive ones taken at `x - 1` and `x + 1`, as the roll report computes them. */
  lemma TailsPartition(x: int, numDice: nat, diceMax: nat)
    requires diceMax >= 1
    ensures SumAndBelowProbability(x - 1, numDice, diceMax) + SumProbability(x, numDice, diceMax)
            + SumAndAboveProbability(x + 1, numDice, diceMax) == 1.0
  {
    var top := numDice * diceMax;
    AtLeastOnce(numDice, diceMax);
    if x < numDice {
      PartitionBelowSupport(x, numDice, diceMax);
    } else if x > top {
      PartitionAboveSupport(x, numDice, diceMax);
    } else {
      PartitionInSupport(x, numDice, diceMax);
    }
  }

  lemma AtLeastOnce(n: nat, d: nat)
    requires d >= 1
    ensures n <= n * d
  {
  }

  /** Below the support: nothing below, nothing at `x`, everything above. */
  lemma PartitionBelowSupport(x: int, numDice: nat, diceMax: nat)
    requires diceMax >= 1 && x < numDice && numDice <= numDice * diceMax
    ensures ProbRange(numDice, x - 1, numDice, diceMax) + SumProbability(x, numDice, diceMax)
            + ProbRange(x + 1, numDice * diceMax, numDice, diceMax) == 1.0
  {
    var top := numDice * diceMax;
    ProbRangeSplit(x + 1, numDice - 1, top, numDice, diceMax);
    ProbRangeZero(x + 1, numDice - 1, numDice, diceMax);
    ProbRangeBounds(numDice, top, numDice, diceMax);
  }

  /** Above the support: everything below, nothing at `x`, nothing above. */
  lemma PartitionAboveSupport(x: int, numDice: nat, diceMax: nat)
    requires diceMax >= 1 && x > numDice * diceMax && numDice <= numDice * diceMax
    ensures ProbRange(numDice, x - 1, numDice, diceMax) + SumProbability(x, numDice, diceMax)
            + ProbRange(x + 1, numDice * diceMax, numDice, diceMax) == 1.0
  {
    var top := numDice * diceMax;
    ProbRangeSplit(numDice, top, x - 1, numDice, diceMax);
    ProbRangeZero(top + 1, x - 1, numDice, diceMax);
    ProbRangeBounds(numDice, top, numDice, diceMax);
  }

  /** Inside the support the three parts are consecutive pieces of the whole range. */
  lemma PartitionInSupport(x: int, numDice: nat, diceMax: nat)
    requires diceMax >= 1 && numDice <= x <= numDice * diceMax
    ensures ProbRange(numDice, x - 1, numDice, diceMax) + SumProbability(x, numDice, diceMax)
            + ProbRange(x + 1, numDice * diceMax, numDice, diceMax) == 1.0
  {
    var top := numDice * diceMax;
    ProbRangeSplit(numDice, x, top, numDice, diceMax);
    ProbRangeBounds(numDice, top, numDice, diceMax);
  }

  // ---------------------------------------------------------------------------
  // The mean reported by the roll is the expected value of the sum.

  /** `Σ_{u = lo..hi} u * SumsForTotal(u, numDice, diceMax)`. */
  function WeightedRange(lo: int, hi: int, numDice: nat, diceMax: nat): int
    decreases hi - lo
  {
    if hi < lo then 0 else WeightedRange(lo, hi - 1, numDice, diceMax) + hi * SumsForTotal(hi, numDice, diceMax)
  }

  lemma {:induction false} WeightedRangePeelLow(lo: int, hi: int, numDice: nat, diceMax: nat)
    requires lo <= hi
    ensures WeightedRange(lo, hi, numDice, diceMax)
         == lo * SumsForTotal(lo, numDice, diceMax) + WeightedRange(lo + 1, hi, numDice, diceMax)
    decreases hi - lo
  {
    if lo < hi {
      WeightedRangePeelLow(lo, hi - 1, numDice, diceMax);
    }
  }

  /** Pairing each total `u` with its mirror `numDice * diceMax + numDice - u`. */
  lemma {:induction false} WeightedRangeMirror(lo: int, hi: int, numDice: nat, diceMax: nat)
    requires lo <= hi + 1
    ensures var m := numDice * diceMax + numDice;
      WeightedRange(lo, hi, numDice, diceMax) + WeightedRange(m - hi, m - lo, numDice, diceMax)
      == m * CountRange(lo, hi, numDice, diceMax)
    decreases hi - lo
  {
    var m := numDice * diceMax + numDice;
    if lo <= hi {
      var w := SumsForTotal(hi, numDice, diceMax);
      var a := WeightedRange(lo, hi - 1, numDice, diceMax);
      var mirrorLo := m - hi + 1;
      var b := WeightedRange(mirrorLo, m - lo, numDice, diceMax);
      var c := CountRange(lo, hi - 1, numDice, diceMax);
      WeightedRangeMirror(lo, hi - 1, numDice, diceMax);
      assert m - (hi - 1) == mirrorLo;
      assert a + b == m * c;
      WeightedRangePeelLow(m - hi, m - lo, numDice, diceMax);
      SumsSymmetric(hi, numDice, diceMax);
      assert WeightedRange(m - hi, m - lo, numDice, diceMax) == (m - hi) * w + b;
      assert WeightedRange(lo, hi, numDice, diceMax) == a + hi * w;
      assert CountRange(lo, hi, numDice, diceMax) == c + w;
      MirrorStep(a, b, c, w, hi, m);
    }
  }

  /** The arithmetic of one pairing step. */
  lemma MirrorStep(a: int, b: int, c: int, w: int, hi: int, m: int)
    requires a + b == m * c
    ensures (a + hi * w) + ((m - hi) * w + b) == m * (c + w)
  {
    assert (m - hi) * w == m * w - hi * w;
    assert m * (c + w) == m * c + m * w;
  }

  /** The expected sum `Σ_t t * sumProbability(t)`. */
  function ExpectedSum(numDice: nat, diceMax: nat): real
    requires diceMax >= 1
  {
    (WeightedRange(numDice, numDice * diceMax, numDice, diceMax) as real) / (Pow(diceMax, numDice) as real)
  }

  /** The expected sum is `(diceMax + 1) / 2 * numDice`, the "Roll Mean" of the report. */
  lemma MeanIsExpectedSum(numDice: nat, diceMax: nat)
    requires diceMax >= 1
    ensures ExpectedSum(numDice, diceMax) == ((diceMax + 1) as real / 2.0) * (numDice as real)
  {
    var top := numDice * diceMax;
    var m := top + numDice;
    var w := WeightedRange(numDice, top, numDice, diceMax);
    var b := Pow(diceMax, numDice);
    WeightedRangeMirror(numDice, top, numDice, diceMax);
    assert m - top == numDice && m - numDice == top;
    assert w + w == m * CountRange(numDice, top, numDice, diceMax);
    CountRangeTotal(numDice, diceMax);
    assert 2 * w == m * b;
    HalfRatio(w, m, b);
    assert ExpectedSum(numDice, diceMax) == (m as real) / 2.0;
    MeanOfFaces(diceMax, numDice);
  }

  /** `(n * d + n) / 2 == ((d + 1) / 2) * n` over the reals. */
  lemma MeanOfFaces(d: int, n: int)
    ensures ((n * d + n) as real) / 2.0 == ((d + 1) as real / 2.0) * (n as real)
  {
    var x, y := d as real, n as real;
    assert (n * d) as real == y * x;
    assert ((n * d + n) as real) == y * x + y;
    assert (x + 1.0) / 2.0 * y == (y * x + y) / 2.0;
  }

  lemma HalfRatio(w: int, m: int, b: int)
    requires b > 0 && 2 * w == m * b
    ensures (w as real) / (b as real) == (m as real) / 2.0
  {
    assert (2 * w) as real == (m * b) as real;
    assert (m * b) as real == (m as real) * (b as real);
  }
}
