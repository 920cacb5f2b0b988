/** diceroller.py: the standalone console roller. Its read loop checks a line against
    `\d+d\d+((\+|\-)\d+)?`, pulls the numbers out with `re.findall`, and rolls with a signed
    integer modifier. */
module ConsoleRoller {
  import opened Wrappers
  import opened Text
  import opened Notation
  import opened Outcomes
  import opened Rolling
  import DiceRoller

  /** The numbers a notation with a count stands for: dice, sides, and the modifier with its
      sign (zero when there is none). */
  function Meaning(t: RollText): (nat, nat, int)
    requires WellFormed(t, true)
  {
    (DecimalValue(t.count), DecimalValue(t.sides),
     match t.tail
     case NoTail => 0
     case Tail(sign, operand) => if sign == '-' then -(DecimalValue(operand) as int) else DecimalValue(operand))
  }

  /** The digit runs of a rendered notation are its count, its sides and its operand. */
  lemma RunsOfRendered(t: RollText)
    requires WellFormed(t, true)
    ensures DigitRuns(Render(t)) == [t.count, t.sides] + (if t.tail.Tail? then [t.tail.operand] else [])
  {
    var tail := TailText(t.tail);
    assert Render(t) == t.count + ['d'] + (t.sides + tail);
    DigitRunsSeparated(t.count, 'd', t.sides + tail);
    match t.tail
    case NoTail =>
      assert t.sides + tail == t.sides;
      DigitRunsAll(t.sides);
    case Tail(sign, operand) =>
      assert t.sides + tail == t.sides + [sign] + operand;
      DigitRunsSeparated(t.sides, sign, operand);
      DigitRunsAll(operand);
  }

  /** A rendered notation contains `-` exactly when its modifier is negative. */
  lemma MinusInRendered(t: RollText)
    requires WellFormed(t, true)
    ensures '-' in Render(t) <==> t.tail.Tail? && t.tail.sign == '-'
  {
    var line := Render(t);
    var tail := TailText(t.tail);
    var k := |t.count| + 1 + |t.sides|;
    assert line[..k] == t.count + "d" + t.sides && line[k..] == tail;
    assert forall i :: 0 <= i < |t.count| ==> line[i] == t.count[i];
    assert forall i :: |t.count| < i < k ==> line[i] == t.sides[i - |t.count| - 1];
    if t.tail.Tail? {
      assert forall i :: k < i < |line| ==> line[i] == t.tail.operand[i - k - 1];
      assert line[k] == t.tail.sign;
    }
  }

  /** What a line the pattern accepts is made of: two or three digit runs, which are the
      count, the sides and the operand of its one notation, whose modifier is negative exactly
      when the line has a `-`. */
  lemma AcceptedLine(line: string)
    requires InputPatternMatches(line)
    ensures var t := Decompose(line, true); var m := Meaning(t); var runs := DigitRuns(line);
      && (|runs| == 2 || |runs| == 3)
      && DecimalValue(runs[0]) == m.0 && DecimalValue(runs[1]) == m.1
      && (|runs| == 2 ==> m.2 == 0)
      && (|runs| == 3 ==> m.2 == if '-' in line then -(DecimalValue(runs[2]) as int) else DecimalValue(runs[2]))
      && forall u :: WellFormed(u, true) && Render(u) == line ==> u == t
  {
    var t := Decompose(line, true);
    forall u | WellFormed(u, true) && Render(u) == line
      ensures u == t
    {
      RenderMatches(u, true);
    }
    RunsOfRendered(t);
    MinusInRendered(t);
    var runs := DigitRuns(line);
    match t.tail
    case NoTail =>
      assert runs == [t.count, t.sides];
    case Tail(sign, operand) =>
      assert runs == [t.count, t.sides, operand];
      assert '-' in line <==> sign == '-';
  }

  /** A line the pattern refuses is no rendering of a notation with a count. */
  lemma RejectedLine(line: string)
    requires !InputPatternMatches(line)
    ensures forall t :: WellFormed(t, true) ==> Render(t) != line
  {
    FullMatchIffRendered(line, true);
  }

  /** diceroller.py:52-64: the numbers of a line that passed the pattern, with a zero modifier
      appended when there are only two, and the modifier negated when the line has a `-`.
      A line the pattern refuses gives nothing; any other gives the meaning of its notation. */
  method ParseInput(line: string) returns (inputs: Option<(nat, nat, int)>)
    ensures inputs.Some? <==> InputPatternMatches(line)
    ensures forall t :: WellFormed(t, true) && Render(t) == line ==> inputs == Some(Meaning(t))
  {
    if !InputPatternMatches(line) {
      RejectedLine(line);
      return None;
    }
    AcceptedLine(line);
    ghost var meaning := Meaning(Decompose(line, true));
    var runs := DigitRuns(line);
    var values: seq<int> := seq(|runs|, i requires 0 <= i < |runs| => DecimalValue(runs[i]));
    var addedModifier := |values| == 3;
    if !addedModifier {
      values := values + [0];
    }
    var negated := addedModifier && '-' in line;
    if negated {
      values := values[2 := -values[2]];
    }
    assert values[0] == meaning.0 && values[1] == meaning.1 && values[2] == meaning.2;
    inputs := Some((values[0], values[1], values[2]));
  }

  /** `rollDice` (diceroller.py:70-158): the roll table, the statistics of the sum, and the
      final total, which is the sum plus the signed modifier. */
  method RollDice(numDice: nat, diceMax: nat, modifier: int)
    returns (rows: seq<RollRow>, diceSum: int, statistics: RollStatistics, finalTotal: int)
    requires diceMax >= 1
    ensures ValidRolls(Values(rows), numDice, diceMax) && diceSum == Sum(Values(rows))
    ensures forall i :: 0 <= i < |rows| ==> rows[i] == RowFor(Values(rows), i, diceMax)
    ensures numDice <= diceSum <= numDice * diceMax
    ensures statistics == Statistics(diceSum, numDice, diceMax)
    ensures finalTotal - diceSum == modifier
  {
    var rolls;
    rolls, rows, diceSum, statistics := RollTables(numDice, diceMax);
    assert Values(rows) == rolls;
    finalTotal := diceSum + modifier;
  }

  /** On a notation both programs accept, they agree: DiceRoller.py reads the same count and
      sides, and its final total for any sum equals this program's sum plus signed modifier. */
  lemma VersionsAgree(t: RollText, diceSum: int)
    requires WellFormed(t, true)
    ensures MainGateMatches(Render(t)) && InputPatternMatches(Render(t))
    ensures DiceRoller.ReadDiceSyntax(Render(t)).Success?
    ensures var ins := DiceRoller.ReadDiceSyntax(Render(t)).value;
      ins.numDice == Meaning(t).0 && ins.diceMax == Meaning(t).1
      && DiceRoller.FinalTotal(diceSum, ins.modifier) == (diceSum + Meaning(t).2) as real
  {
    RenderMatches(t, true);
    RenderMatches(t, false);
    DiceRoller.ReadRendered(t);
  }

  /** With DiceRoller.py's modifier evaluated as written, the agreement fails on a leading
      zero: diceroller.py accepts `3d6+05` and rolls it with modifier 5, while DiceRoller.py
      raises on it. */
  lemma VersionsDisagreeOnLeadingZero(line: string)
    requires line == "3d6+05"
    ensures InputPatternMatches(line) && Meaning(Decompose(line, true)) == (3, 6, 5)
    ensures DiceRoller.ReadDiceSyntaxAsWritten(line) == Failure(DiceRoller.NotComputable("+05"))
  {
    LeadingZeroAccepted(line);
    LeadingZeroRaises(line);
  }

  lemma LeadingZeroAccepted(line: string)
    requires line == "3d6+05"
    ensures InputPatternMatches(line) && Meaning(Decompose(line, true)) == (3, 6, 5)
  {
    var t := RollText("3", "6", Tail('+', "05"));
    assert Render(t) == line;
    RenderMatches(t, true);
    LeadingZeroMeaning(t);
  }

  lemma LeadingZeroMeaning(t: RollText)
    requires t == RollText("3", "6", Tail('+', "05"))
    ensures WellFormed(t, true) && Meaning(t) == (3, 6, 5)
  {
    assert DecimalValue("3") == 3 && DecimalValue("6") == 6;
    assert DecimalValue("05") == 5 by {
      assert "05"[..1] == "0";
    }
  }

  lemma LeadingZeroRaises(line: string)
    requires line == "3d6+05"
    ensures DiceRoller.ReadDiceSyntaxAsWritten(line) == Failure(DiceRoller.NotComputable("+05"))
  {
    var p := DiceRoller.DicePrefix("3", "6", "+05");
    assert line == p.countText + "d" + p.sidesText + p.rest;
    DiceRoller.MatchDicePrefixComplete(line, p);
    assert p.rest[1..] == "05";
    assert !DiceRoller.IsIntegerLiteral("05") by {
      assert "05"[1] != '0';
    }
  }
}
