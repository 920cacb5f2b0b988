/** Dice notation as text, and the two full-match patterns the programs check it against:
    `(\d+)?d\d+((\+|\-)\d+)?` (main.py:44, count optional) and `\d+d\d+((\+|\-)\d+)?`
    (diceroller.py:25, count mandatory). A notation is rendered from its parts; each
    recogniser accepts exactly the renderings of well-formed parts. */
module Notation {
  import opened Text

  /** The optional modifier clause: one sign character and its operand digits. */
  datatype Tail = NoTail | Tail(sign: char, operand: string)

  /** `count "d" sides [sign operand]`, each part kept as the text it is written with. */
  datatype RollText = RollText(count: string, sides: string, tail: Tail)

  function TailText(tail: Tail): string {
    match tail
    case NoTail => ""
    case Tail(sign, operand) => [sign] + operand
  }

  function Render(t: RollText): string {
    t.count + "d" + t.sides + TailText(t.tail)
  }

  /** Digits where the grammar has `\d+` (or `(\d+)?` for an optional count) and a sign of
      `+` or `-`. */
  predicate WellFormed(t: RollText, countRequired: bool) {
    AllDigits(t.count) && (countRequired ==> |t.count| > 0)
    && |t.sides| > 0 && AllDigits(t.sides)
    && (t.tail.Tail? ==> (t.tail.sign == '+' || t.tail.sign == '-')
                         && |t.tail.operand| > 0 && AllDigits(t.tail.operand))
  }

  /** `((\+|\-)\d+)?` matching the whole of `rest`. */
  predicate SignedTail(rest: string) {
    rest == [] || (|rest| >= 2 && (rest[0] == '+' || rest[0] == '-') && AllDigits(rest[1..]))
  }

  /** `re.fullmatch` of the dice pattern. The digit runs are greedy and no backtracking can
      help, since a digit is never `d`, `+` or `-`. */
  predicate FullMatch(line: string, countRequired: bool) {
    var i := LeadingDigits(line);
    (i > 0 || !countRequired) && i < |line| && line[i] == 'd'
    && var j := LeadingDigits(line[i + 1..]);
       j > 0 && SignedTail(line[i + 1 + j..])
  }

  /** main.py:44, the gate in front of `DiceRoller(line)`. */
  predicate MainGateMatches(line: string) {
    FullMatch(line, false)
  }

  /** diceroller.py:25 with diceroller.py:48, the check in its own read loop. */
  predicate InputPatternMatches(line: string) {
    FullMatch(line, true)
  }

  /** The modifier clause a matched rest stands for. */
  function TailOf(rest: string): (tail: Tail)
    requires SignedTail(rest)
    ensures TailText(tail) == rest
    ensures tail.Tail? ==> (tail.sign == '+' || tail.sign == '-')
                           && |tail.operand| > 0 && AllDigits(tail.operand)
  {
    if rest == [] then NoTail
    else
      assert rest == [rest[0]] + rest[1..];
      Tail(rest[0], rest[1..])
  }

  /** The parts of a matching line. */
  function Decompose(line: string, countRequired: bool): (t: RollText)
    requires FullMatch(line, countRequired)
    ensures WellFormed(t, countRequired) && Render(t) == line
  {
    var i := LeadingDigits(line);
    var after := line[i + 1..];
    var j := LeadingDigits(after);
    CutAround(line, i, j);
    var tail := TailOf(after[j..]);
    RollText(line[..i], after[..j], tail)
  }

  /** Where the greedy runs stop in a rendered notation. */
  lemma RenderPositions(t: RollText, countRequired: bool)
    requires WellFormed(t, countRequired)
    ensures var line := Render(t); var i := |t.count|;
      LeadingDigits(line) == i && i < |line| && line[i] == 'd' && line[..i] == t.count
      && line[i + 1..] == t.sides + TailText(t.tail)
      && LeadingDigits(t.sides + TailText(t.tail)) == |t.sides|
  {
    var line := Render(t);
    var after := t.sides + TailText(t.tail);
    var rest := ['d'] + after;
    assert line == t.count + rest;
    LeadingDigitsOf(t.count, rest);
    assert line[..|t.count|] == t.count && line[|t.count|..] == rest;
    assert line[|t.count| + 1..] == rest[1..] == after;
    LeadingDigitsOf(t.sides, TailText(t.tail));
  }

  /** Rendering well-formed parts gives a matching line that decomposes into those parts. */
  lemma RenderMatches(t: RollText, countRequired: bool)
    requires WellFormed(t, countRequired)
    ensures FullMatch(Render(t), countRequired)
    ensures Decompose(Render(t), countRequired) == t
  {
    var line := Render(t);
    var tail := TailText(t.tail);
    RenderPositions(t, countRequired);
    var after := t.sides + tail;
    assert after[..|t.sides|] == t.sides && after[|t.sides|..] == tail;
    assert line[|t.count| + 1 + |t.sides|..] == tail;
    assert SignedTail(tail);
    assert FullMatch(line, countRequired);
    if t.tail.Tail? {
      assert tail[1..] == t.tail.operand;
    }
  }

  /** A line matches exactly when it is the rendering of well-formed parts. */
  lemma FullMatchIffRendered(line: string, countRequired: bool)
    ensures FullMatch(line, countRequired)
        <==> exists t :: WellFormed(t, countRequired) && Render(t) == line
  {
    if FullMatch(line, countRequired) {
      var t := Decompose(line, countRequired);
      assert WellFormed(t, countRequired) && Render(t) == line;
    }
    if exists t :: WellFormed(t, countRequired) && Render(t) == line {
      var t :| WellFormed(t, countRequired) && Render(t) == line;
      RenderMatches(t, countRequired);
    }
  }

  /** A modifier clause with an operator other than `+` or `-` is refused by both patterns. */
  lemma MultiplierRejected(line: string)
    requires line == "3d6*2"
    ensures !MainGateMatches(line) && !InputPatternMatches(line)
  {
    LeadingDigitsOf("3", "d6*2");
    assert line == "3" + "d6*2" && line[1] == 'd' && line[2..] == "6" + "*2";
    LeadingDigitsOf("6", "*2");
    assert line[2..][1..] == "*2" && line[3..] == "*2";
  }

  /** Every line diceroller.py accepts also passes main.py's gate; the converse fails on `d20`. */
  lemma InputPatternWithinGate(line: string)
    ensures InputPatternMatches(line) ==> MainGateMatches(line)
    ensures MainGateMatches("d20") && !InputPatternMatches("d20")
  {
    var t := RollText("", "20", NoTail);
    assert Render(t) == "d20";
    RenderMatches(t, false);
    assert LeadingDigits("d20") == 0;
  }
}
