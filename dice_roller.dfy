/** DiceRoller.py: the roller behind main.py. `__readDiceSyntax` turns a line such as
    `3d6+2` into an instruction; the constructor reads the line and rolls it at once. */
module DiceRoller {
  import opened Wrappers
  import opened Text
  import opened Notation
  import opened Outcomes
  import opened Rolling

  /** The modifier clause: the operator character and the value of the equation after it. */
  datatype Modifier = NoModifier | Modifier(operation: char, amount: nat)

  /** The instruction dict: number of dice, faces per die, and the modifier. */
  datatype Instruction = Instruction(numDice: nat, diceMax: nat, modifier: Modifier)

  /** Why a line cannot be read: `re.match` found no dice prefix (the source then fails on
      `None.span()`), or the modifier equation cannot be evaluated (the source's ValueError). */
  datatype SyntaxError = NoDicePrefix | NotComputable(equation: string)

  /** What `re.match("(\d+)?d\d+", line)` splits off: the count digits (possibly none), the
      sides digits, and the text after the match. */
  datatype DicePrefix = DicePrefix(countText: string, sidesText: string, rest: string)

  /** `p` is how the greedy prefix match divides `line`. */
  predicate SplitsAsPrefix(line: string, p: DicePrefix) {
    line == p.countText + "d" + p.sidesText + p.rest
    && AllDigits(p.countText) && |p.sidesText| > 0 && AllDigits(p.sidesText)
    && (p.rest == [] || !IsDigit(p.rest[0]))
  }

  /** `re.match("(\d+)?d\d+", line)`, anchored at the start, both runs greedy. */
  function MatchDicePrefix(line: string): (r: Option<DicePrefix>)
    ensures r.Some? ==> SplitsAsPrefix(line, r.value)
  {
    var i := LeadingDigits(line);
    if i < |line| && line[i] == 'd' && LeadingDigits(line[i + 1..]) > 0 then
      var after := line[i + 1..];
      var j := LeadingDigits(after);
      assert after == after[..j] + after[j..];
      assert line == line[..i] + "d" + after;
      Some(DicePrefix(line[..i], after[..j], after[j..]))
    else
      None
  }

  /** A line that divides as a dice prefix is matched with exactly that division. */
  lemma MatchDicePrefixComplete(line: string, p: DicePrefix)
    requires SplitsAsPrefix(line, p)
    ensures MatchDicePrefix(line) == Some(p)
  {
    var i := |p.countText|;
    var after := p.sidesText + p.rest;
    assert line == p.countText + ("d" + after);
    LeadingDigitsOf(p.countText, "d" + after);
    assert line[i] == 'd' && line[i + 1..] == after && line[..i] == p.countText;
    LeadingDigitsOf(p.sidesText, p.rest);
    assert after[..|p.sidesText|] == p.sidesText && after[|p.sidesText|..] == p.rest;
  }

  /** `re.split("d", ...)` of the matched text always gives two tokens: the only `d` in it
      is the one between the runs, so the assertion at DiceRoller.py:153 cannot fail. */
  lemma PrefixHasOneD(p: DicePrefix)
    requires AllDigits(p.countText) && AllDigits(p.sidesText)
    ensures var matched := p.countText + "d" + p.sidesText;
      forall i :: 0 <= i < |matched| && matched[i] == 'd' ==> i == |p.countText|
  {
    var matched := p.countText + "d" + p.sidesText;
    assert forall i :: 0 <= i < |p.countText| ==> matched[i] == p.countText[i];
    assert forall i :: |p.countText| < i < |matched| ==> matched[i] == p.sidesText[i - |p.countText| - 1];
  }

  /** An empty count means one die. */
  function NumDice(countText: string): nat
    requires AllDigits(countText)
  {
    if countText == [] then 1 else DecimalValue(countText)
  }

  /** The modifier equation read as a plain decimal number after its operator. */
  function ReadModifier(rest: string): Result<Modifier, SyntaxError> {
    if rest == [] then Success(NoModifier)
    else if |rest| >= 2 && AllDigits(rest[1..]) then Success(Modifier(rest[0], DecimalValue(rest[1..])))
    else Failure(NotComputable(rest))
  }

  /** `__readDiceSyntax`, with the modifier digits read as a decimal number. */
  function ReadDiceSyntax(line: string): Result<Instruction, SyntaxError> {
    match MatchDicePrefix(line)
    case None => Failure(NoDicePrefix)
    case Some(p) =>
      match ReadModifier(p.rest)
      case Failure(e) => Failure(e)
      case Success(m) => Success(Instruction(NumDice(p.countText), DecimalValue(p.sidesText), m))
  }

  /** Reading a line, case by case: no dice prefix is an error; otherwise the count (one when
      absent) and the sides are the prefix's digits, and the rest is no modifier when empty, an
      operator and a number when it is one character followed by digits, and an error else. */
  lemma ReadDiceSyntaxCases(line: string, p: DicePrefix)
    requires SplitsAsPrefix(line, p)
    ensures p.rest == [] ==>
      ReadDiceSyntax(line) == Success(Instruction(NumDice(p.countText), DecimalValue(p.sidesText), NoModifier))
    ensures |p.rest| >= 2 && AllDigits(p.rest[1..]) ==>
      ReadDiceSyntax(line) == Success(Instruction(NumDice(p.countText), DecimalValue(p.sidesText),
                                                  Modifier(p.rest[0], DecimalValue(p.rest[1..]))))
    ensures p.rest != [] && !(|p.rest| >= 2 && AllDigits(p.rest[1..])) ==>
      ReadDiceSyntax(line) == Failure(NotComputable(p.rest))
  {
    MatchDicePrefixComplete(line, p);
  }

  /** A line that does not start with a dice prefix is rejected as such. */
  lemma ReadDiceSyntaxNoPrefix(line: string)
    requires forall p :: !SplitsAsPrefix(line, p)
    ensures ReadDiceSyntax(line) == Failure(NoDicePrefix)
  {
  }

  /** The instruction a well-formed notation stands for. */
  function InstructionOf(t: RollText): Instruction
    requires WellFormed(t, false)
  {
    Instruction(NumDice(t.count), DecimalValue(t.sides),
                match t.tail
                case NoTail => NoModifier
                case Tail(sign, operand) => Modifier(sign, DecimalValue(operand)))
  }

  /** Reading a rendered notation gives back the instruction it stands for. */
  lemma ReadRendered(t: RollText)
    requires WellFormed(t, false)
    ensures ReadDiceSyntax(Render(t)) == Success(InstructionOf(t))
  {
    var rest := TailText(t.tail);
    var p := DicePrefix(t.count, t.sides, rest);
    assert SplitsAsPrefix(Render(t), p);
    ReadDiceSyntaxCases(Render(t), p);
    if t.tail.Tail? {
      assert rest[1..] == t.tail.operand;
    }
  }

  /** What the roll can carry out: at least one face, and a `+` or `-` operator when there is
      a modifier. */
  predicate Rollable(ins: Instruction) {
    ins.diceMax >= 1 && (ins.modifier.Modifier? ==> ins.modifier.operation == '+' || ins.modifier.operation == '-')
  }

  /** Every line main.py's gate lets through reads successfully, with a `+` or `-` operator
      when it has a modifier; with at least one face it is rollable. */
  lemma GateReadsRollable(line: string)
    requires MainGateMatches(line)
    ensures ReadDiceSyntax(line).Success?
    ensures var m := ReadDiceSyntax(line).value.modifier;
      m.Modifier? ==> m.operation == '+' || m.operation == '-'
    ensures ReadDiceSyntax(line).value.diceMax >= 1 ==> Rollable(ReadDiceSyntax(line).value)
  {
    var t := Decompose(line, false);
    ReadRendered(t);
  }

  // Worked readings of concrete lines, each derived from how the line divides.

  lemma ReadNoCount(line: string)
    requires line == "d20"
    ensures ReadDiceSyntax(line) == Success(Instruction(1, 20, NoModifier))
  {
    var p := DicePrefix("", "20", "");
    assert line == p.countText + "d" + p.sidesText + p.rest;
    assert SplitsAsPrefix(line, p);
    assert NumDice("") == 1;
    assert DecimalValue("20") == 20 by {
      assert "20"[..1] == "2";
    }
    ReadDiceSyntaxCases(line, p);
  }

  lemma ReadWithCount(line: string)
    requires line == "4d6"
    ensures ReadDiceSyntax(line) == Success(Instruction(4, 6, NoModifier))
  {
    var p := DicePrefix("4", "6", "");
    assert line == p.countText + "d" + p.sidesText + p.rest;
    assert SplitsAsPrefix(line, p);
    assert NumDice("4") == 4 && DecimalValue("6") == 6;
    ReadDiceSyntaxCases(line, p);
  }

  lemma ReadWithModifier(line: string)
    requires line == "2d10+5"
    ensures ReadDiceSyntax(line) == Success(Instruction(2, 10, Modifier('+', 5)))
  {
    var p := DicePrefix("2", "10", "+5");
    assert line == p.countText + "d" + p.sidesText + p.rest;
    assert SplitsAsPrefix(line, p);
    assert p.rest[0] == '+' && p.rest[1..] == "5";
    assert NumDice("2") == 2 && DecimalValue("5") == 5;
    assert DecimalValue("10") == 10 by {
      assert "10"[..1] == "1";
    }
    ReadDiceSyntaxCases(line, p);
  }

  lemma ReadWithNegativeModifier(line: string)
    requires line == "d8-3"
    ensures ReadDiceSyntax(line) == Success(Instruction(1, 8, Modifier('-', 3)))
  {
    var p := DicePrefix("", "8", "-3");
    assert line == p.countText + "d" + p.sidesText + p.rest;
    assert SplitsAsPrefix(line, p);
    assert p.rest[0] == '-' && p.rest[1..] == "3";
    assert NumDice("") == 1 && DecimalValue("8") == 8 && DecimalValue("3") == 3;
    ReadDiceSyntaxCases(line, p);
  }

  lemma ReadErrors()
    ensures ReadDiceSyntax("3d6+") == Failure(NotComputable("+"))
    ensures ReadDiceSyntax("abc") == Failure(NoDicePrefix)
  {
    var p := DicePrefix("3", "6", "+");
    assert SplitsAsPrefix("3d6+", p);
    ReadDiceSyntaxCases("3d6+", p);
    assert LeadingDigits("abc") == 0;
  }

  // ---------------------------------------------------------------------------
  // The modifier as DiceRoller.py:168 evaluates it: `float(eval(rest[1:]))`.

  /** Digits that Python 3 accepts as an integer literal: no leading zero unless every digit
      is a zero. */
  predicate IsIntegerLiteral(text: string) {
    |text| > 0 && AllDigits(text) && (text[0] == '0' ==> forall i :: 0 <= i < |text| ==> text[i] == '0')
  }

  /** 2^1024 - 2^970: from here on `float()` of an integer rounds past the largest double
      and raises OverflowError. */
  const FloatOverflow: nat := 179769313486231580793728971405303415079934132710037826936173778980444968292764750946649017977587207096330286416692887910946555547851940402630657488671505820681908902000708383676273854845817711531764475730270069855571366959622842914819860834936475292719074168444365510704342711559699508093042880177904174497792

  predicate FitsDouble(n: nat) {
    n < FloatOverflow
  }

  /** `float(eval(rest[1:]))` on an operator and its operand: the operand must be an integer
      literal, and one `float()` can convert. */
  function ReadModifierAsWritten(rest: string): Result<Modifier, SyntaxError> {
    if rest == [] then Success(NoModifier)
    else if IsIntegerLiteral(rest[1..]) && FitsDouble(DecimalValue(rest[1..])) then
      Success(Modifier(rest[0], DecimalValue(rest[1..])))
    else Failure(NotComputable(rest))
  }

  /** `__readDiceSyntax` as written, with the modifier read as `ReadModifierAsWritten` does. */
  function ReadDiceSyntaxAsWritten(line: string): Result<Instruction, SyntaxError> {
    match MatchDicePrefix(line)
    case None => Failure(NoDicePrefix)
    case Some(p) =>
      match ReadModifierAsWritten(p.rest)
      case Failure(e) => Failure(e)
      case Success(m) => Success(Instruction(NumDice(p.countText), DecimalValue(p.sidesText), m))
  }

  /** `d6+05` passes main.py's gate, and the corrected reading gives `+5`, but the reading as
      written raises "not computable", which main.py does not catch. */
  lemma LeadingZeroModifierRejected(line: string)
    requires line == "d6+05"
    ensures MainGateMatches(line)
    ensures ReadDiceSyntax(line) == Success(Instruction(1, 6, Modifier('+', 5)))
    ensures ReadDiceSyntaxAsWritten(line) == Failure(NotComputable("+05"))
  {
    GateAdmitsLeadingZero(line);
    LeadingZeroCorrected(line);
    LeadingZeroAsWritten(line);
  }

  lemma LeadingZeroCorrected(line: string)
    requires line == "d6+05"
    ensures ReadDiceSyntax(line) == Success(Instruction(1, 6, Modifier('+', 5)))
  {
    var p := LeadingZeroPrefix(line);
    assert p.rest[0] == '+' && p.rest[1..] == "05";
    assert NumDice("") == 1 && DecimalValue("6") == 6;
    assert DecimalValue("05") == 5 by {
      assert "05"[..1] == "0";
    }
    ReadDiceSyntaxCases(line, p);
  }

  lemma LeadingZeroAsWritten(line: string)
    requires line == "d6+05"
    ensures ReadDiceSyntaxAsWritten(line) == Failure(NotComputable("+05"))
  {
    var p := LeadingZeroPrefix(line);
    MatchDicePrefixComplete(line, p);
    assert p.rest[1..] == "05";
    assert !IsIntegerLiteral("05") by {
      assert "05"[1] != '0';
    }
  }

  lemma GateAdmitsLeadingZero(line: string)
    requires line == "d6+05"
    ensures MainGateMatches(line)
  {
    var t := RollText("", "6", Tail('+', "05"));
    assert Render(t) == line;
    RenderMatches(t, false);
  }

  /** How `d6+05` divides: no count, six sides, and `+05` left over. */
  lemma LeadingZeroPrefix(line: string) returns (p: DicePrefix)
    requires line == "d6+05"
    ensures p == DicePrefix("", "6", "+05") && SplitsAsPrefix(line, p)
  {
    p := DicePrefix("", "6", "+05");
    assert line == p.countText + "d" + p.sidesText + p.rest;
  }

  /** The two readings differ exactly where the modifier digits are no integer literal
      (a leading zero followed by some other digit) or are too large for a double; there the
      reading as written fails and the corrected one succeeds. */
  lemma ReadingsDiffer(line: string)
    ensures ReadDiceSyntaxAsWritten(line) != ReadDiceSyntax(line) <==>
      MatchDicePrefix(line).Some?
      && var rest := MatchDicePrefix(line).value.rest;
         |rest| >= 2 && AllDigits(rest[1..])
         && (!IsIntegerLiteral(rest[1..]) || !FitsDouble(DecimalValue(rest[1..])))
    ensures ReadDiceSyntaxAsWritten(line) != ReadDiceSyntax(line) ==>
      ReadDiceSyntaxAsWritten(line).Failure? && ReadDiceSyntax(line).Success?
  {
    var m := MatchDicePrefix(line);
    if m.Some? {
      var rest := m.value.rest;
      assert ReadModifierAsWritten(rest) != ReadModifier(rest) <==>
        |rest| >= 2 && AllDigits(rest[1..])
        && (!IsIntegerLiteral(rest[1..]) || !FitsDouble(DecimalValue(rest[1..])));
    }
  }

  /** An operand main.py's gate admits but `float()` cannot convert, such as `2` followed by
      308 zeros: the corrected reading gives its value, the reading as written raises. */
  lemma HugeModifierRejected(line: string, digits: string)
    requires line == "d6+" + digits
    requires IsIntegerLiteral(digits) && !FitsDouble(DecimalValue(digits))
    ensures MainGateMatches(line)
    ensures ReadDiceSyntax(line) == Success(Instruction(1, 6, Modifier('+', DecimalValue(digits))))
    ensures ReadDiceSyntaxAsWritten(line) == Failure(NotComputable("+" + digits))
  {
    var p := OperandPrefix(line, digits);
    assert MainGateMatches(line) by {
      var t := RollText("", "6", Tail('+', digits));
      assert Render(t) == line;
      RenderMatches(t, false);
    }
    assert ReadDiceSyntax(line) == Success(Instruction(1, 6, Modifier('+', DecimalValue(digits)))) by {
      assert NumDice("") == 1 && DecimalValue("6") == 6;
      ReadDiceSyntaxCases(line, p);
    }
    MatchDicePrefixComplete(line, p);
  }

  /** How `d6+` followed by digits divides: no count, six sides, and the modifier left over. */
  lemma OperandPrefix(line: string, digits: string) returns (p: DicePrefix)
    requires line == "d6+" + digits && AllDigits(digits)
    ensures p == DicePrefix("", "6", "+" + digits) && SplitsAsPrefix(line, p)
    ensures p.rest[0] == '+' && p.rest[1..] == digits
  {
    p := DicePrefix("", "6", "+" + digits);
    assert line == p.countText + "d" + p.sidesText + p.rest;
  }

  // ---------------------------------------------------------------------------

  /** The "Final Total" footer, `eval(f"{diceSum}{operation}{modifier}")` with a float
      modifier: the sum moved by the modifier, or the sum alone when there is none. */
  function FinalTotal(diceSum: int, modifier: Modifier): (total: real)
    requires modifier.Modifier? ==> modifier.operation == '+' || modifier.operation == '-'
    ensures modifier.NoModifier? ==> total == diceSum as real
    ensures modifier.Modifier? && modifier.operation == '+' ==> total - diceSum as real == modifier.amount as real
    ensures modifier.Modifier? && modifier.operation == '-' ==> diceSum as real - total == modifier.amount as real
  {
    match modifier
    case NoModifier => diceSum as real
    case Modifier(operation, amount) =>
      if operation == '+' then diceSum as real + amount as real else diceSum as real - amount as real
  }

  /** A roller: the line it was made from, the faces it drew, its three tables, and the three
      probability fields, which the source initialises to -1 and never assigns again. */
  class DiceRoller {
    var rawInput: string
    var rolls: seq<int>
    var probability: real
    var betterProbability: real
    var worseProbability: real
    /** The roll table's rows and its "Total" footer. */
    var rollRows: seq<RollRow>
    var diceSum: int
    /** The statistics table. */
    var statistics: RollStatistics
    /** The final numbers table: the modifier row and the "Final Total" footer. */
    var modifier: Modifier
    var finalTotal: real

    /** `DiceRoller(line)` for a line that reads as a rollable instruction: the line is kept,
        its dice are rolled and every table is filled in from that one roll. */
    constructor (input: string)
      requires ReadDiceSyntax(input).Success? && Rollable(ReadDiceSyntax(input).value)
      ensures rawInput == input
      ensures probability == -1.0 && betterProbability == -1.0 && worseProbability == -1.0
      ensures var ins := ReadDiceSyntax(input).value;
        ValidRolls(rolls, ins.numDice, ins.diceMax) && diceSum == Sum(rolls)
        && |rollRows| == ins.numDice
        && (forall i :: 0 <= i < ins.numDice ==> rollRows[i] == RowFor(rolls, i, ins.diceMax))
        && statistics == Statistics(diceSum, ins.numDice, ins.diceMax)
        && modifier == ins.modifier && finalTotal == FinalTotal(diceSum, ins.modifier)
    {
      rawInput := input;
      rolls := [];
      probability, betterProbability, worseProbability := -1.0, -1.0, -1.0;
      rollRows := [];
      new;
      var ins := ReadDiceSyntax(input).value;
      RollDice(ins.numDice, ins.diceMax, ins.modifier);
      assert rolls[0..] == rolls;
    }

    /** `__rollDice`: draws `numDice` faces onto `rolls` and one row per face onto the roll
        table, whose totals run from zero; then the footer, the statistics of the sum, and the
        final total. The line and the probability fields are left alone. */
    method RollDice(numDice: nat, diceMax: nat, modifier: Modifier)
      requires diceMax >= 1
      requires modifier.Modifier? ==> modifier.operation == '+' || modifier.operation == '-'
      modifies this
      ensures rawInput == old(rawInput)
      ensures probability == old(probability) && betterProbability == old(betterProbability)
      ensures worseProbability == old(worseProbability)
      ensures |rolls| == |old(rolls)| + numDice && rolls[..|old(rolls)|] == old(rolls)
      ensures ValidRolls(rolls[|old(rolls)|..], numDice, diceMax)
      ensures diceSum == Sum(rolls[|old(rolls)|..]) && numDice <= diceSum <= numDice * diceMax
      ensures |rollRows| == |old(rollRows)| + numDice && rollRows[..|old(rollRows)|] == old(rollRows)
      ensures forall i :: 0 <= i < numDice ==>
        rollRows[|old(rollRows)| + i] == RowFor(rolls[|old(rolls)|..], i, diceMax)
      ensures statistics == Statistics(diceSum, numDice, diceMax)
      ensures this.modifier == modifier && finalTotal == FinalTotal(diceSum, modifier)
    {
      var drawn, rows, total, stats := RollTables(numDice, diceMax);
      ghost var before := rolls;
      Record(drawn, rows);
      assert rolls[|before|..] == drawn;
      diceSum, statistics := total, stats;
      this.modifier, finalTotal := modifier, FinalTotal(total, modifier);
    }

    /** `self.rolls.append(diceRoll)` and `self.rollTable.add_row(...)`, for every face drawn:
        the faces go onto `rolls` and their rows onto the roll table. */
    method Record(drawn: seq<int>, rows: seq<RollRow>)
      modifies this`rolls, this`rollRows
      ensures rolls == old(rolls) + drawn && rollRows == old(rollRows) + rows
    {
      rolls := rolls + drawn;
      rollRows := rollRows + rows;
    }
  }

  /** `DiceRoller(line)` as a call that may raise: a line that does not read gives its error
      and makes no roller; one that reads, with at least one face, gives a fresh roller. */
  method NewRoller(input: string) returns (r: Result<DiceRoller, SyntaxError>)
    requires ReadDiceSyntax(input).Success? ==> Rollable(ReadDiceSyntax(input).value)
    ensures ReadDiceSyntax(input).Failure? ==> r == Failure(ReadDiceSyntax(input).error)
    ensures ReadDiceSyntax(input).Success? ==> r.Success? && fresh(r.value)
    ensures r.Success? ==> var ins := ReadDiceSyntax(input).value; var d := r.value;
      d.rawInput == input
      && d.probability == -1.0 && d.betterProbability == -1.0 && d.worseProbability == -1.0
      && ValidRolls(d.rolls, ins.numDice, ins.diceMax) && d.diceSum == Sum(d.rolls)
      && |d.rollRows| == ins.numDice
      && (forall i :: 0 <= i < ins.numDice ==> d.rollRows[i] == RowFor(d.rolls, i, ins.diceMax))
      && d.statistics == Statistics(d.diceSum, ins.numDice, ins.diceMax)
      && d.modifier == ins.modifier && d.finalTotal == FinalTotal(d.diceSum, ins.modifier)
  {
    match ReadDiceSyntax(input)
    case Failure(e) =>
      r := Failure(e);
    case Success(ins) =>
      var roller := new DiceRoller(input);
      r := Success(roller);
  }
}
