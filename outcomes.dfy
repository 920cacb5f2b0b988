/** The outcomes of a roll: every sequence of `numDice` faces in `1..diceMax`. The count
    recurrence is shown to count exactly the outcomes with a given sum. */
module Outcomes {
  import opened Probability

  /** The sum of a sequence of rolls, accumulated left to right as the roll loop does. */
  function Sum(rolls: seq<int>): int {
    if rolls == [] then 0 else Sum(rolls[..|rolls| - 1]) + rolls[|rolls| - 1]
  }

  /** `numDice` rolls, each a face of a `diceMax`-sided die. */
  predicate ValidRolls(rolls: seq<int>, numDice: nat, diceMax: nat) {
    |rolls| == numDice && forall i :: 0 <= i < |rolls| ==> 1 <= rolls[i] <= diceMax
  }

  /** Valid rolls add up to a total in `[numDice, numDice * diceMax]`. */
  lemma {:induction false} SumOfValidRolls(rolls: seq<int>, numDice: nat, diceMax: nat)
    requires ValidRolls(rolls, numDice, diceMax)
    ensures numDice <= Sum(rolls) <= numDice * diceMax
  {
    if numDice > 0 {
      var init := rolls[..numDice - 1];
      assert ValidRolls(init, numDice - 1, diceMax);
      SumOfValidRolls(init, numDice - 1, diceMax);
      assert numDice * diceMax == (numDice - 1) * diceMax + diceMax;
    }
  }

  /** Every roll sequence once: the sequences for one die fewer, extended by each face. */
  function AllRolls(numDice: nat, diceMax: nat): seq<seq<int>> {
    if numDice == 0 then [[]] else ExtendAll(AllRolls(numDice - 1, diceMax), diceMax)
  }

  /** Each sequence of `prev` extended by each face `1..k`, grouped by face. */
  function ExtendAll(prev: seq<seq<int>>, k: nat): seq<seq<int>> {
    if k == 0 then [] else ExtendAll(prev, k - 1) + AppendFace(prev, k)
  }

  function AppendFace(prev: seq<seq<int>>, face: int): (r: seq<seq<int>>)
    ensures |r| == |prev| && forall i :: 0 <= i < |prev| ==> r[i] == prev[i] + [face]
  {
    seq(|prev|, i requires 0 <= i < |prev| => prev[i] + [face])
  }

  /** How many sequences of `xs` add up to `total`. */
  function CountWithSum(xs: seq<seq<int>>, total: int): nat {
    if xs == [] then 0
    else CountWithSum(xs[..|xs| - 1], total) + (if Sum(xs[|xs| - 1]) == total then 1 else 0)
  }

  predicate Distinct(xs: seq<seq<int>>) {
    forall i, j :: 0 <= i < j < |xs| ==> xs[i] != xs[j]
  }

  // ---------------------------------------------------------------------------

  lemma {:induction false} CountWithSumConcat(a: seq<seq<int>>, b: seq<seq<int>>, total: int)
    ensures CountWithSum(a + b, total) == CountWithSum(a, total) + CountWithSum(b, total)
    decreases |b|
  {
    if b != [] {
      var b' := b[..|b| - 1];
      assert (a + b)[..|a + b| - 1] == a + b';
      assert (a + b)[|a + b| - 1] == b[|b| - 1];
      CountWithSumConcat(a, b', total);
    } else {
      assert a + b == a;
    }
  }

  lemma SumAppend(x: seq<int>, face: int)
    ensures Sum(x + [face]) == Sum(x) + face
  {
    assert (x + [face])[..|x|] == x;
  }

  lemma {:induction false} CountWithSumAppend(prev: seq<seq<int>>, face: int, total: int)
    ensures CountWithSum(AppendFace(prev, face), total) == CountWithSum(prev, total - face)
    decreases |prev|
  {
    if prev != [] {
      var xs := AppendFace(prev, face);
      var prev' := prev[..|prev| - 1];
      assert xs[..|xs| - 1] == AppendFace(prev', face);
      CountWithSumAppend(prev', face, total);
      SumAppend(prev[|prev| - 1], face);
    }
  }

  /** `SumsForTotal` counts exactly the roll sequences with the given sum. */
  lemma {:induction false} SumsCountsRolls(total: int, numDice: nat, diceMax: nat)
    ensures SumsForTotal(total, numDice, diceMax) == CountWithSum(AllRolls(numDice, diceMax), total)
    decreases numDice
  {
    if numDice == 0 {
      assert AllRolls(0, diceMax)[..0] == [];
    } else {
      var prev := AllRolls(numDice - 1, diceMax);
      ExtendCounts(prev, total, diceMax);
      assert ShiftedCounts(prev, total, diceMax) == FaceSum(total, numDice - 1, diceMax, diceMax) by {
        forall t ensures SumsForTotal(t, numDice - 1, diceMax) == CountWithSum(prev, t) {
          SumsCountsRolls(t, numDice - 1, diceMax);
        }
        ShiftedCountsFaceSum(prev, total, numDice - 1, diceMax, diceMax);
      }
      assert AllRolls(numDice, diceMax) == ExtendAll(prev, diceMax);
    }
  }

  /** How many sequences of `prev` add up to `total - face`, summed over the faces `1..k`. */
  function ShiftedCounts(prev: seq<seq<int>>, total: int, k: nat): nat {
    if k == 0 then 0 else ShiftedCounts(prev, total, k - 1) + CountWithSum(prev, total - k)
  }

  /** The sequences of `prev`, each extended by the faces `1..k`, that add up to `total`:
      for each face, the sequences of `prev` that add up to `total` less that face. */
  lemma {:induction false} ExtendCounts(prev: seq<seq<int>>, total: int, k: nat)
    ensures CountWithSum(ExtendAll(prev, k), total) == ShiftedCounts(prev, total, k)
  {
    if k > 0 {
      ExtendCountsStep(prev, total, k);
      ExtendCounts(prev, total, k - 1);
      assert ShiftedCounts(prev, total, k) == ShiftedCounts(prev, total, k - 1) + CountWithSum(prev, total - k);
    }
  }

  /** Extending by one more face `k` adds the sequences of `prev` that add up to `total - k`. */
  lemma ExtendCountsStep(prev: seq<seq<int>>, total: int, k: nat)
    requires k > 0
    ensures CountWithSum(ExtendAll(prev, k), total)
         == CountWithSum(ExtendAll(prev, k - 1), total) + CountWithSum(prev, total - k)
  {
    var earlier, block := ExtendAll(prev, k - 1), AppendFace(prev, k);
    assert ExtendAll(prev, k) == earlier + block;
    CountWithSumConcat(earlier, block, total);
    CountWithSumAppend(prev, k, total);
  }

  /** Where `prev` is counted by the recurrence for `rest` dice, the shifted counts are the
      recurrence's sum over the faces. */
  lemma {:induction false} ShiftedCountsFaceSum(prev: seq<seq<int>>, total: int, rest: nat, diceMax: nat, k: nat)
    requires forall t :: SumsForTotal(t, rest, diceMax) == CountWithSum(prev, t)
    ensures ShiftedCounts(prev, total, k) == FaceSum(total, rest, diceMax, k)
  {
    if k > 0 {
      ShiftedCountsFaceSum(prev, total, rest, diceMax, k - 1);
      assert SumsForTotal(total - k, rest, diceMax) == CountWithSum(prev, total - k);
    }
  }

  lemma {:induction false} ExtendMember(prev: seq<seq<int>>, k: nat, x: seq<int>)
    ensures x in ExtendAll(prev, k) <==> |x| > 0 && x[..|x| - 1] in prev && 1 <= x[|x| - 1] <= k
  {
    if k > 0 {
      ExtendMember(prev, k - 1, x);
      var block := AppendFace(prev, k);
      if x in block {
        var i :| 0 <= i < |block| && block[i] == x;
        assert x[..|x| - 1] == prev[i];
      }
      if |x| > 0 && x[..|x| - 1] in prev && x[|x| - 1] == k {
        var i :| 0 <= i < |prev| && prev[i] == x[..|x| - 1];
        assert block[i] == x;
      }
    }
  }

  /** `AllRolls` holds every valid roll sequence and nothing else. */
  lemma {:induction false} AllRollsComplete(x: seq<int>, numDice: nat, diceMax: nat)
    ensures x in AllRolls(numDice, diceMax) <==> ValidRolls(x, numDice, diceMax)
  {
    if numDice == 0 {
      assert ValidRolls(x, 0, diceMax) <==> x == [];
    } else {
      ExtendMember(AllRolls(numDice - 1, diceMax), diceMax, x);
      if |x| > 0 {
        var init := x[..|x| - 1];
        AllRollsComplete(init, numDice - 1, diceMax);
        if ValidRolls(x, numDice, diceMax) {
          assert ValidRolls(init, numDice - 1, diceMax);
        }
        if ValidRolls(init, numDice - 1, diceMax) && 1 <= x[|x| - 1] <= diceMax {
          assert forall i :: 0 <= i < |x| - 1 ==> x[i] == init[i];
        }
      }
    }
  }

  lemma {:induction false} DistinctConcat(a: seq<seq<int>>, b: seq<seq<int>>)
    requires Distinct(a) && Distinct(b)
    requires forall x :: x in a ==> x !in b
    ensures Distinct(a + b)
  {
    forall i, j | 0 <= i < j < |a + b|
      ensures (a + b)[i] != (a + b)[j]
    {
      if j >= |a| && i < |a| {
        assert (a + b)[i] in a && (a + b)[j] in b;
      }
    }
  }

  lemma {:induction false} ExtendDistinct(prev: seq<seq<int>>, k: nat)
    requires Distinct(prev)
    ensures Distinct(ExtendAll(prev, k))
  {
    if k > 0 {
      ExtendDistinct(prev, k - 1);
      var block := AppendFace(prev, k);
      forall i, j | 0 <= i < j < |block|
        ensures block[i] != block[j]
      {
        assert block[i][..|prev[i]|] == prev[i];
        assert block[j][..|prev[j]|] == prev[j];
      }
      forall x | x in ExtendAll(prev, k - 1)
        ensures x !in block
      {
        ExtendMember(prev, k - 1, x);
        ExtendMember(prev, k, x);
      }
      DistinctConcat(ExtendAll(prev, k - 1), block);
    }
  }

  /** No roll sequence is listed twice, so the counts are counts of distinct outcomes. */
  lemma {:induction false} AllRollsDistinct(numDice: nat, diceMax: nat)
    ensures Distinct(AllRolls(numDice, diceMax))
  {
    if numDice > 0 {
      AllRollsDistinct(numDice - 1, diceMax);
      ExtendDistinct(AllRolls(numDice - 1, diceMax), diceMax);
    }
  }

  lemma {:induction false} ExtendLength(prev: seq<seq<int>>, k: nat)
    ensures |ExtendAll(prev, k)| == k * |prev|
  {
    if k > 0 {
      ExtendLength(prev, k - 1);
    }
  }

  /** There are `diceMax ^ numDice` outcomes. */
  lemma {:induction false} AllRollsCount(numDice: nat, diceMax: nat)
    ensures |AllRolls(numDice, diceMax)| == Pow(diceMax, numDice)
  {
    if numDice > 0 {
      AllRollsCount(numDice - 1, diceMax);
      ExtendLength(AllRolls(numDice - 1, diceMax), diceMax);
    }
  }
}
