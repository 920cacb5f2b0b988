/** The roll itself, shared by `__rollDice` (DiceRoller.py:39-128) and `rollDice`
    (diceroller.py:70-158): draw `numDice` faces, keep a running total, fill the roll table,
    and compute the statistics table. `random.randint(1, diceMax)` is a nondeterministic
    choice in `[1, diceMax]`. */
module Rolling {
  import opened Bands
  import opened Probability
  import opened Outcomes

  /** A row of the roll table: "Roll {index}", the value in its band's style, the total so far. */
  datatype RollRow = RollRow(index: nat, value: int, band: Band, total: int)

  /** The row for roll `i`: its value, coloured against the faces `1..diceMax`, and the sum of
      the rolls up to and including it. */
  function RowFor(rolls: seq<int>, i: nat, diceMax: nat): RollRow
    requires i < |rolls|
  {
    RollRow(i, rolls[i], ConditionalFormat(rolls[i] as real, diceMax as real, 1.0), Sum(rolls[..i + 1]))
  }

  /** The values shown in the roll table. */
  function Values(rows: seq<RollRow>): (values: seq<int>)
    ensures |values| == |rows| && forall i :: 0 <= i < |rows| ==> values[i] == rows[i].value
  {
    if rows == [] then [] else Values(rows[..|rows| - 1]) + [rows[|rows| - 1].value]
  }

  /** The draw loop: `numDice` faces, each in `[1, diceMax]`; the sum of all of them; one row
      per roll whose total is the prefix sum. The sum lies in `[numDice, numDice * diceMax]`. */
  method DrawDice(numDice: nat, diceMax: nat) returns (rolls: seq<int>, rows: seq<RollRow>, diceSum: int)
    requires diceMax >= 1
    ensures ValidRolls(rolls, numDice, diceMax)
    ensures diceSum == Sum(rolls) && numDice <= diceSum <= numDice * diceMax
    ensures |rows| == numDice && forall i :: 0 <= i < numDice ==> rows[i] == RowFor(rolls, i, diceMax)
  {
    rolls, rows, diceSum := [], [], 0;
    for index := 0 to numDice
      invariant ValidRolls(rolls, index, diceMax)
      invariant diceSum == Sum(rolls)
      invariant |rows| == index && forall i :: 0 <= i < index ==> rows[i] == RowFor(rolls, i, diceMax)
    {
      var diceRoll :| 1 <= diceRoll <= diceMax;
      diceSum := diceSum + diceRoll;
      var rolls' := rolls + [diceRoll];
      assert rolls'[..|rolls'| - 1] == rolls;
      forall i | 0 <= i < index
        ensures RowFor(rolls', i, diceMax) == RowFor(rolls, i, diceMax)
      {
        assert rolls'[..i + 1] == rolls[..i + 1];
      }
      assert rolls'[..index + 1] == rolls';
      rolls := rolls';
      rows := rows + [RollRow(index, diceRoll, ConditionalFormat(diceRoll as real, diceMax as real, 1.0), diceSum)];
    }
    SumOfValidRolls(rolls, numDice, diceMax);
  }

  /** The statistics table: Roll Max, Roll Mean, Roll Min, Probability = X, < X and > X
      (as fractions; the source shows them times 100, rounded). */
  datatype RollStatistics = RollStatistics(max: int, mean: real, min: int, equal: real, below: real, above: real)

  /** Min and max are the extreme reachable totals, the mean is the expected sum, and the
      three probabilities of the rolled sum are those of the distribution and add up to 1. */
  function Statistics(diceSum: int, numDice: nat, diceMax: nat): (st: RollStatistics)
    requires diceMax >= 1
    ensures SumProbability(st.min, numDice, diceMax) > 0.0 && SumAndBelowProbability(st.min - 1, numDice, diceMax) == 0.0
    ensures SumProbability(st.max, numDice, diceMax) > 0.0 && SumAndAboveProbability(st.max + 1, numDice, diceMax) == 0.0
    ensures st.mean == ExpectedSum(numDice, diceMax) && st.mean == (st.min + st.max) as real / 2.0
    ensures st.equal == SumProbability(diceSum, numDice, diceMax)
    ensures st.below == ProbRange(numDice, diceSum - 1, numDice, diceMax)
    ensures st.above == ProbRange(diceSum + 1, numDice * diceMax, numDice, diceMax)
    ensures st.below + st.equal + st.above == 1.0
  {
    var top := numDice * diceMax;
    var mean := ((diceMax + 1) as real / 2.0) * (numDice as real);
    MeanIsExpectedSum(numDice, diceMax);
    MeanIsMidpoint(numDice, diceMax);
    TailsPartition(diceSum, numDice, diceMax);
    TailsAtBounds(numDice, diceMax);
    assert SumProbability(numDice, numDice, diceMax) > 0.0;
    assert SumProbability(top, numDice, diceMax) > 0.0;
    RollStatistics(
      top,
      mean,
      numDice,
      SumProbability(diceSum, numDice, diceMax),
      SumAndBelowProbability(diceSum - 1, numDice, diceMax),
      SumAndAboveProbability(diceSum + 1, numDice, diceMax))
  }

  /** The part both `rollDice`s share: the draw loop, then the statistics of the sum. */
  method RollTables(numDice: nat, diceMax: nat)
    returns (rolls: seq<int>, rows: seq<RollRow>, diceSum: int, statistics: RollStatistics)
    requires diceMax >= 1
    ensures ValidRolls(rolls, numDice, diceMax)
    ensures diceSum == Sum(rolls) && numDice <= diceSum <= numDice * diceMax
    ensures |rows| == numDice && forall i :: 0 <= i < numDice ==> rows[i] == RowFor(rolls, i, diceMax)
    ensures statistics == Statistics(diceSum, numDice, diceMax)
  {
    rolls, rows, diceSum := DrawDice(numDice, diceMax);
    statistics := Statistics(diceSum, numDice, diceMax);
  }

  lemma MeanIsMidpoint(numDice: nat, diceMax: nat)
    ensures ((diceMax + 1) as real / 2.0) * (numDice as real) == (numDice + numDice * diceMax) as real / 2.0
  {
    assert (numDice + numDice * diceMax) == numDice * (diceMax + 1);
    assert (numDice * (diceMax + 1)) as real == (numDice as real) * ((diceMax + 1) as real);
  }
}
