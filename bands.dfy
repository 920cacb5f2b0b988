/** `conditionalFormat` (DiceRoller.py:177-189, diceroller.py:162-174): the colour a value
    gets in the roll table, from where it lies between a minimum and a maximum. */
module Bands {

  /** The three styles: "green4", "dark_orange" and "red1". */
  datatype Band = Green4 | DarkOrange | Red1

  /** Red below orange below green. */
  function Rank(b: Band): nat {
    match b
    case Red1 => 0
    case DarkOrange => 1
    case Green4 => 2
  }

  /** Green from three quarters of the way up, orange from one quarter, red below. The
      maximum itself is always green, and the minimum is red as soon as there is a spread. */
  function ConditionalFormat(value: real, maxValue: real, minValue: real): (b: Band)
    ensures maxValue >= minValue && value >= maxValue ==> b == Green4
    ensures maxValue > minValue && value <= minValue ==> b == Red1
    ensures maxValue >= minValue && minValue <= value <= maxValue && b == Red1
            ==> 4.0 * (value - minValue) < maxValue - minValue
  {
    var offsetValue := value - minValue;
    var offsetMax := maxValue - minValue;
    if offsetValue >= 3.0 / 4.0 * offsetMax then Green4
    else if offsetValue >= 1.0 / 4.0 * offsetMax then DarkOrange
    else Red1
  }

  /** A larger value never gets a lower band. */
  lemma BandMonotone(v: real, w: real, maxValue: real, minValue: real)
    requires v <= w
    ensures Rank(ConditionalFormat(v, maxValue, minValue)) <= Rank(ConditionalFormat(w, maxValue, minValue))
  {
  }
}
