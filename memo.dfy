/** The `lru_cache(None)` around `__sumsForTotal`: an unbounded, never-evicted memo keyed by
    `(total, numDice, diceMax)`. Every entry it holds equals the count recurrence, so
    answering from it never changes a result. */
module Memo {
  import opened Probability

  class SumsCache {
    var memo: map<(int, nat, nat), nat>

    /** Every cached entry is the count recurrence at its key. */
    ghost predicate Valid()
      reads this
    {
      forall key :: key in memo ==> memo[key] == Probability.SumsForTotal(key.0, key.1, key.2)
    }

    constructor ()
      ensures Valid() && memo == map[]
    {
      memo := map[];
    }

    /** `__sumsForTotal` through the cache: the answer is the count recurrence, the key is
        cached afterwards, and no earlier entry is dropped or changed. */
    method SumsForTotal(total: int, numDice: nat, diceMax: nat) returns (r: nat)
      requires Valid()
      modifies this
      ensures Valid()
      ensures r == Probability.SumsForTotal(total, numDice, diceMax)
      ensures (total, numDice, diceMax) in memo
      ensures forall key :: key in old(memo) ==> key in memo && memo[key] == old(memo)[key]
      decreases numDice
    {
      var key := (total, numDice, diceMax);
      if key in memo {
        return memo[key];
      }
      if numDice == 0 {
        r := if total == 0 then 1 else 0;
      } else {
        r := 0;
        var die := 1;
        while die <= diceMax
          invariant 1 <= die <= diceMax + 1
          invariant Valid()
          invariant forall key :: key in old(memo) ==> key in memo && memo[key] == old(memo)[key]
          invariant r == FaceSum(total, numDice - 1, diceMax, die - 1)
        {
          var ways := SumsForTotal(total - die, numDice - 1, diceMax);
          r := r + ways;
          die := die + 1;
        }
      }
      memo := memo[key := r];
    }
  }
}
