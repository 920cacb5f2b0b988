# DiceRoller, modelled in Dafny

DiceRoller is a terminal dice roller. The user types dice notation such as `3d6+2`. The
program rolls the dice and prints three tables:

- the rolls with their running total, each roll coloured by where it falls among the faces;
- statistics of the roll: minimum, maximum and mean, plus the probability of rolling
  exactly this sum, less than it, and more than it;
- the final total after the modifier.

The repository has two versions of the roller:

- `DiceRoller.py`, driven by `main.py`: a class that reads the line when it is constructed
  and rolls it at once.
- `diceroller.py`: a standalone console script with a read loop of its own.

A third file, `ShortcutManager.py`, turns lines of the form `trigger,notation` into a
dictionary of shortcuts.

The model has one module per concern:

| module | file | what it holds |
|---|---|---|
| `Wrappers` | wrappers.dfy | `Option` and `Result` |
| `Text` | text.dfy | digits, decimal values, the greedy `\d+` run, `re.findall("\d+", …)` |
| `Probability` | probability.dfy | `__sumsForTotal`, `sumProbability`, `sumAndAboveProbability`, `sumAndBelowProbability`; the two copies of this engine are the same code and are modelled once |
| `Outcomes` | outcomes.dfy | the meaning of the count: every sequence of faces, enumerated, and how many of them have a given sum |
| `Memo` | memo.dfy | the `lru_cache` around `__sumsForTotal`, as a class whose cache agrees with the recurrence |
| `Bands` | bands.dfy | `conditionalFormat`, the three colour bands |
| `Rolling` | rolling.dfy | the draw loop and the statistics table, which both versions share |
| `Notation` | notation.dfy | the two full-match patterns (main.py:44, where the count is optional, and diceroller.py:25, where it is required) and a renderer that is their inverse |
| `DiceRoller` | dice_roller.dfy | `__readDiceSyntax`, the final total, and the `DiceRoller` class itself |
| `ConsoleRoller` | console_roller.dfy | the parse steps of diceroller.py's `main` and its `rollDice` |
| `Shortcuts` | shortcuts.dfy | the `ShortcutManager` class: splitting, removing empty tokens, building the dictionary, `match`, `getShortcut` |

Modelling choices:

- `random.randint(1, diceMax)` is a nondeterministic choice in `[1, diceMax]`.
- Floating-point values are exact `real`s. In DiceRoller.py the modifier is a float, so the
  final total there is a `real`. In diceroller.py the modifier and the final total are
  `int`s; the mean and the probabilities are floats there too, and are `real`s here.
- The `rich` tables are kept as their contents: rows of index, value, band and running
  total; the statistics; the modifier and the final total.
- `ShortcutManager` takes the lines of its file as a parameter.
- Both constructors call code that can raise. Each has a factory method that returns a
  `Result`: `DiceRoller.NewRoller` and `Shortcuts.Load`.

## Model

| member | source | states |
|---|---|---|
| `Text.LeadingDigits` | DiceRoller.py:144 | the greedy `\d+` run at the start of a string: every character in it is a digit, and the character after it is not |
| `Text.LeadingDigitsOf` | DiceRoller.py:144 | a digit string followed by a non-digit is exactly the greedy run |
| `Text.DecimalValue` | DiceRoller.py:159-162 | `int()` of a digit string: its base-10 value, leading zeros allowed; the counts, sides and operands both readers return are this value (`DiceRoller.ReadDiceSyntaxCases`, `ConsoleRoller.AcceptedLine`) |
| `Text.DigitRuns` | diceroller.py:53 | `re.findall("\d+", …)`: every run found is non-empty and all digits |
| `Text.DigitRunsSeparated` | diceroller.py:53 | a run, a non-digit, then the rest: the runs are that run followed by the runs of the rest |
| `Probability.SumsForTotal` | DiceRoller.py:227-233 | the recurrence of `__sumsForTotal`: `not total` for no dice, else the sum over the faces; what it counts is stated by `Outcomes.SumsCountsRolls` and the `Sums…` lemmas below |
| `Probability.FaceSum` | DiceRoller.py:233 | the generator `sum(... for die in range(1, diceMax + 1))`; its properties are the `FaceSum…` steps behind the `Sums…` lemmas |
| `Probability.SumsZeroOutside` | DiceRoller.py:228-233 | there are no ways to reach a total below `numDice` or above `numDice * diceMax` |
| `Probability.SumsPositiveInside` | DiceRoller.py:228-233 | with at least one face, every total in `[numDice, numDice * diceMax]` can be reached |
| `Probability.SumsSupport` | DiceRoller.py:228-233 | the count is positive exactly on `[numDice, numDice * diceMax]` |
| `Probability.SumsAtMinimum` | DiceRoller.py:201-204 | the smallest total is reached in exactly one way; with `SumsAtMaximum` this is why the boundary branch of `sumAndAboveProbability`, which answers at `n*s` with the probability of `n`, still gives the right value |
| `Probability.SumsAtMaximum` | DiceRoller.py:201-204 | the largest total is reached in exactly one way, so the probability of `n*s` equals that of `n`, which that same branch returns |
| `Probability.SumsSymmetric` | diceroller.py:213-218 | the counts are symmetric about the middle total: `total` and `n*s + n - total` have the same count |
| `Probability.CountRangeTotal` | DiceRoller.py:228-233 | the counts over all reachable totals add up to `diceMax ^ numDice` |
| `Probability.SumsAtMostAll` | DiceRoller.py:196 | no count exceeds `diceMax ^ numDice`, so the quotient is a probability |
| `Probability.SumProbability` | DiceRoller.py:194-196 | `sumProbability` lies in `[0, 1]` and is positive exactly on the reachable totals |
| `Probability.ProbRangeCounts` | diceroller.py:179-181 | the probability of a range of totals is the count over that range divided by `diceMax ^ numDice` |
| `Probability.ProbRangeSplit` | diceroller.py:186-194 | the probability of a range is the sum of the probabilities of two adjoining parts |
| `Probability.ProbRangeBounds` | diceroller.py:179-181 | every range has probability in `[0, 1]`, and a range covering all reachable totals has probability 1 |
| `Probability.ProbRangeZero` | diceroller.py:179-181 | a range outside the reachable totals has probability 0 |
| `Probability.SumAndAboveProbability` | DiceRoller.py:201-209 | `sumAndAboveProbability(t)` is the probability of the range `[t, n*s]`, including the boundary branch at `n*s` and zero beyond it |
| `Probability.SumAndBelowProbability` | DiceRoller.py:214-222 | `sumAndBelowProbability(t)` is the probability of the range `[n, t]`, including the boundary branch at `n` and zero below it |
| `Probability.ProbabilitiesSumToOne` | DiceRoller.py:194-196 | the probabilities of all reachable totals add up to 1 |
| `Probability.TailsAtBounds` | diceroller.py:186-207 | "at or above the minimum" and "at or below the maximum" are certain; "above the maximum" and "below the minimum" are impossible |
| `Probability.TailsPartition` | DiceRoller.py:98-113 | for any rolled sum X, P(< X) + P(= X) + P(> X) = 1, as the three rows of the statistics table give them |
| `Probability.WeightedRangeMirror` | diceroller.py:116-119 | mirrored ranges of totals weighted by their counts add up to the mirror point times the count of the range; this is the step toward the mean |
| `Probability.MeanIsExpectedSum` | DiceRoller.py:88-91 | the "Roll Mean" row `((diceMax + 1) / 2) * numDice` is the expected sum under the counted distribution |
| `Outcomes.SumOfValidRolls` | DiceRoller.py:61-64 | `numDice` faces in `[1, diceMax]` add up to a total in `[numDice, numDice * diceMax]` |
| `Outcomes.AllRollsComplete` | DiceRoller.py:228-233 | the enumeration of face sequences holds exactly the valid roll sequences |
| `Outcomes.AllRollsDistinct` | DiceRoller.py:228-233 | the enumeration holds each sequence once |
| `Outcomes.AllRollsCount` | DiceRoller.py:196 | there are `diceMax ^ numDice` sequences, the denominator of `sumProbability` |
| `Outcomes.SumsCountsRolls` | DiceRoller.py:228-233 | the recurrence counts the face sequences with that sum |
| `Memo.SumsCache.constructor` | DiceRoller.py:227 | the cache starts empty and consistent |
| `Memo.SumsCache.SumsForTotal` | DiceRoller.py:227-233 | the cached `__sumsForTotal` returns the recurrence's value, records its key, and keeps every earlier entry; every entry agrees with the recurrence |
| `Bands.ConditionalFormat` | DiceRoller.py:178-189 | the maximum is always green; the minimum is red whenever the maximum exceeds it; a red value lies in the bottom quarter of the spread |
| `Bands.BandMonotone` | diceroller.py:163-174 | a larger value never gets a lower band |
| `Rolling.RowFor` | DiceRoller.py:68-75 | one row of the roll table: the index, the face, its colour band and the running total up to it; `Rolling.DrawDice` states that every row is this |
| `Rolling.DrawDice` | DiceRoller.py:60-76 | the draw loop: `numDice` faces in `[1, diceMax]`, their sum, and one row per roll whose total is the prefix sum up to it |
| `Rolling.Statistics` | DiceRoller.py:82-113 | the maximum is `n*s` and the minimum `n` (the extreme reachable totals); the mean is the expected sum, which is also their midpoint; the three probabilities are those of the distribution and add up to 1 |
| `Rolling.RollTables` | diceroller.py:86-142 | the draw loop followed by the statistics of its sum |
| `Rolling.MeanIsMidpoint` | diceroller.py:116-119 | `((s + 1) / 2) * n` is the midpoint of `n` and `n*s` |
| `Notation.FullMatch` | diceroller.py:25 | `re.fullmatch` of the dice pattern, with the count optional or required; `Notation.FullMatchIffRendered` states that it accepts exactly the renderings of well-formed parts |
| `Notation.MainGateMatches` | main.py:44 | the gate in front of `DiceRoller(line)`, with the count optional |
| `Notation.InputPatternMatches` | diceroller.py:48 | the check in diceroller.py's read loop, with the count required |
| `Notation.TailOf` | main.py:44 | the optional `(+ or -)digits` clause of a matched rest is a sign of `+` or `-` with a non-empty digit operand, and renders back to the rest |
| `Notation.Decompose` | main.py:44 | a line that fully matches divides into well-formed parts whose rendering is the line |
| `Notation.RenderPositions` | main.py:44 | in a rendering, the greedy runs end exactly where the parts do |
| `Notation.RenderMatches` | diceroller.py:25 | the rendering of well-formed parts matches, and divides back into those parts |
| `Notation.FullMatchIffRendered` | main.py:44 | a line matches exactly when it renders some well-formed parts |
| `Notation.MultiplierRejected` | diceroller.py:48-50 | `3d6*2` is refused by both patterns |
| `Notation.InputPatternWithinGate` | diceroller.py:25 | every line diceroller.py accepts also passes main.py's gate; `d20` passes the gate but not the stricter pattern |
| `DiceRoller.NumDice` | DiceRoller.py:156-159 | an empty count means one die, otherwise the count's digits; stated by `DiceRoller.ReadDiceSyntaxCases` |
| `DiceRoller.ReadModifier` | DiceRoller.py:165-170 | the modifier with its digits read as a decimal number (the corrected reading of the Findings row); stated by `DiceRoller.ReadDiceSyntaxCases` |
| `DiceRoller.IsIntegerLiteral` | DiceRoller.py:168 | Python 3's rule for the integer literal `eval` reads: non-empty digits with no leading zero unless all of them are zeros; `DiceRoller.LeadingZeroAsWritten` and `DiceRoller.ReadingsDiffer` rest on it |
| `DiceRoller.FitsDouble` | DiceRoller.py:168 | an integer `float()` can convert: below 2^1024 - 2^970, from where it rounds past the largest double and raises OverflowError |
| `DiceRoller.ReadModifierAsWritten` | DiceRoller.py:165-170 | the modifier as `float(eval(rest[1:]))` reads an operator and digits: the digits must be a Python 3 integer literal that `float()` can convert, otherwise "not computable"; stated by `DiceRoller.ReadingsDiffer` |
| `DiceRoller.ReadDiceSyntax` | DiceRoller.py:133-173 | `__readDiceSyntax` with the corrected modifier reading; stated by `DiceRoller.ReadDiceSyntaxCases`, `DiceRoller.ReadRendered` and `DiceRoller.GateReadsRollable` |
| `DiceRoller.ReadDiceSyntaxAsWritten` | DiceRoller.py:133-173 | `__readDiceSyntax` with the modifier read as `ReadModifierAsWritten` does; stated by `DiceRoller.LeadingZeroAsWritten`, `DiceRoller.HugeModifierRejected` and `DiceRoller.ReadingsDiffer` |
| `DiceRoller.MatchDicePrefix` | DiceRoller.py:144-147 | a prefix the anchored `(\d+)?d\d+` finds divides the line into count digits, `d`, sides digits and a rest that starts with no digit |
| `DiceRoller.MatchDicePrefixComplete` | DiceRoller.py:144-147 | a line that divides that way is matched with exactly that division |
| `DiceRoller.PrefixHasOneD` | DiceRoller.py:150-153 | the matched text holds exactly one `d`, so the split gives two tokens and the assertion cannot fail |
| `DiceRoller.ReadDiceSyntaxCases` | DiceRoller.py:156-170 | the count is 1 when nothing precedes `d` and the digits' value otherwise; the sides are the digits after `d`; an empty rest is no modifier; an operator followed by digits is that operator and their value; any other rest is "not computable" |
| `DiceRoller.ReadDiceSyntaxNoPrefix` | DiceRoller.py:144 | a line with no dice prefix at its start is an error |
| `DiceRoller.ReadRendered` | DiceRoller.py:133-173 | reading a rendered notation gives back the instruction it stands for |
| `DiceRoller.GateReadsRollable` | main.py:44-45 | every line main.py's gate admits reads successfully, with a `+` or `-` operator when it has a modifier, and is rollable once it has a face |
| `DiceRoller.ReadNoCount` | DiceRoller.py:156-157 | `d20` reads as one twenty-sided die |
| `DiceRoller.ReadWithCount` | DiceRoller.py:158-162 | `4d6` reads as four six-sided dice |
| `DiceRoller.ReadWithModifier` | DiceRoller.py:165-168 | `2d10+5` reads as two ten-sided dice with `+` and 5 |
| `DiceRoller.ReadWithNegativeModifier` | DiceRoller.py:165-168 | `d8-3` reads as one eight-sided die with `-` and 3 |
| `DiceRoller.ReadErrors` | DiceRoller.py:165-170 | `3d6+` is "not computable" and `abc` has no dice prefix |
| `DiceRoller.LeadingZeroModifierRejected` | DiceRoller.py:168 | `d6+05` passes main.py's gate and should read as `+` 5, but evaluating `05` as Python makes the reading fail |
| `DiceRoller.LeadingZeroCorrected` | DiceRoller.py:165-168 | with the digits read as a decimal number, `d6+05` reads as one six-sided die with `+` and 5 |
| `DiceRoller.LeadingZeroAsWritten` | DiceRoller.py:168 | with `eval`'s integer-literal rule, `d6+05` is "not computable" |
| `DiceRoller.GateAdmitsLeadingZero` | main.py:44 | `d6+05` passes main.py's gate |
| `DiceRoller.ReadingsDiffer` | DiceRoller.py:165-170 | the reading as written and the decimal reading differ exactly when the modifier is an operator and digits that either start with a zero followed later by a non-zero digit or are too large for `float()`; there the reading as written fails and the decimal one succeeds |
| `DiceRoller.HugeModifierRejected` | DiceRoller.py:168-169 | `d6+` followed by an integer literal too large for `float()` passes main.py's gate and reads under the decimal reading, but as written `float()` raises and the line is "not computable" |
| `DiceRoller.FinalTotal` | DiceRoller.py:121-128 | the "Final Total" footer: with `+` it exceeds the sum by the modifier, with `-` it falls short of the sum by the modifier, and with no modifier it is the sum |
| `DiceRoller.DiceRoller.constructor` | DiceRoller.py:17-33 | keeps the line; the three probability fields stay -1, because locals shadow them; the rolls are valid for the instruction read from the line, and the roll table, statistics, modifier and final total all come from that one roll |
| `DiceRoller.DiceRoller.RollDice` | DiceRoller.py:39-128 | appends `numDice` valid faces to `rolls` and their rows to the roll table, keeping what was there; sets the sum, the statistics and the final total from the new faces; leaves the line and the probability fields alone |
| `DiceRoller.DiceRoller.Record` | DiceRoller.py:66-75 | the faces are appended to `rolls` and their rows to the roll table |
| `DiceRoller.NewRoller` | DiceRoller.py:32-33 | a line that does not read gives its error and no roller; a line that reads gives a fresh roller with the constructor's whole state: the line, the probability fields at -1, valid rolls and their sum, one row per roll, the statistics, the modifier and the final total |
| `ConsoleRoller.RunsOfRendered` | diceroller.py:53 | the digit runs of a notation with a count are its count, its sides and, if present, its operand |
| `ConsoleRoller.MinusInRendered` | diceroller.py:63 | such a notation contains `-` exactly when its modifier is negative |
| `ConsoleRoller.AcceptedLine` | diceroller.py:53-64 | an accepted line has two or three digit runs, giving count and sides; the modifier is 0 when there are two runs, and the third run, negated exactly when the line has a `-`, when there are three; the line renders exactly one notation |
| `ConsoleRoller.RejectedLine` | diceroller.py:48-50 | a refused line renders no notation with a count |
| `ConsoleRoller.ParseInput` | diceroller.py:48-64 | the parse steps give numbers exactly when the line passes the pattern, and then they are the count, the sides and the signed modifier of the line's notation |
| `ConsoleRoller.RollDice` | diceroller.py:70-157 | valid rolls, one row per roll with the prefix sum, the statistics of the sum, and a final total of the sum plus the signed modifier |
| `ConsoleRoller.VersionsAgree` | diceroller.py:25 | on a notation both programs accept, both read the same count and sides, and both final totals agree, with DiceRoller.py's modifier read as the corrected reading does |
| `ConsoleRoller.VersionsDisagreeOnLeadingZero` | DiceRoller.py:168 | with DiceRoller.py's modifier read as written, `3d6+05` is accepted by diceroller.py and read as modifier 5, while DiceRoller.py raises "not computable" on it |
| `ConsoleRoller.LeadingZeroAccepted` | diceroller.py:48-64 | diceroller.py's pattern accepts `3d6+05`, and its notation means 3 dice, 6 sides and modifier 5 |
| `ConsoleRoller.LeadingZeroMeaning` | diceroller.py:53-64 | the notation `3`, `6`, `+05` stands for 3 dice, 6 sides and modifier 5 |
| `ConsoleRoller.LeadingZeroRaises` | DiceRoller.py:165-170 | the reading as written refuses the operand `05` of `3d6+05` |
| `Shortcuts.Tokens` | ShortcutManager.py:16-20 | a line's tokens: split on newlines and commas, then cleared of empty pieces; stated by `Shortcuts.TwoFieldLine`, `Shortcuts.ThreeFieldLine` and `Shortcuts.BlankLine` |
| `Shortcuts.ValidLine` | ShortcutManager.py:23 | the `Invalid syntax` assertion: a line has exactly two tokens |
| `Shortcuts.BuildMap` | ShortcutManager.py:25 | the dictionary the lines build in order; stated by `Shortcuts.BuildMapKeys`, `Shortcuts.BuildMapLatest` and `Shortcuts.BuildMapSource` |
| `Shortcuts.Split` | ShortcutManager.py:16 | splitting on newlines and commas gives one more piece than there are separators, and no piece holds a separator |
| `Shortcuts.SplitRoundTrip` | ShortcutManager.py:16 | putting the separators back between the pieces gives the line back |
| `Shortcuts.SplitUnique` | ShortcutManager.py:16 | pieces without separators, joined by separators, split back into those pieces |
| `Shortcuts.NonEmpty` | ShortcutManager.py:19-20 | no kept token is empty, and none are added |
| `Shortcuts.NonEmptyMembers` | ShortcutManager.py:19-20 | a token is kept exactly when it was there and is not empty |
| `Shortcuts.NonEmptyConcat` | ShortcutManager.py:19-20 | removal works piecewise, so the kept tokens stay in their original order |
| `Shortcuts.NonEmptyKeepsClean` | ShortcutManager.py:19 | a list with no empty token is left as it is |
| `Shortcuts.NonEmptyRemove` | ShortcutManager.py:20 | taking out one empty token does not change what the removal ends with |
| `Shortcuts.FirstIndex` | ShortcutManager.py:20 | `list.remove` takes out the first occurrence: the position holds the value and no earlier position does |
| `Shortcuts.RemoveEmptyTokens` | ShortcutManager.py:19-20 | the `while "" in tokens` loop ends with the non-empty tokens in their original order |
| `Shortcuts.BuildMapKeys` | ShortcutManager.py:25 | the dictionary's keys are exactly the triggers of the lines |
| `Shortcuts.BuildMapLatest` | ShortcutManager.py:25 | a trigger maps to the notation of the last line that names it |
| `Shortcuts.BuildMapExtend` | ShortcutManager.py:25 | a further line sets its own trigger and changes no other entry |
| `Shortcuts.BuildMapSource` | ShortcutManager.py:25 | every entry comes from a line that names its key, with no later line naming that key |
| `Shortcuts.FirstInvalid` | ShortcutManager.py:23 | finds the first line without exactly two tokens, all lines before it being valid; none when every line is valid |
| `Shortcuts.ShortcutManager.constructor` | ShortcutManager.py:9-25 | each line is split, cleared of empty tokens, and sets its trigger to its notation; the dictionary is built from all the lines in order |
| `Shortcuts.ShortcutManager.Match` | ShortcutManager.py:29-31 | `match(line)` is true exactly when some line of the table has `line` as its trigger |
| `Shortcuts.ShortcutManager.GetShortcut` | ShortcutManager.py:35-37 | for a key that is present, the notation of the last line naming it |
| `Shortcuts.Load` | ShortcutManager.py:23 | a table with a line that lacks two tokens fails, reporting the first such line, as the `Invalid syntax` assertion does; otherwise a manager over all the lines |
| `Shortcuts.TwoFieldLine` | ShortcutManager.py:16-25 | a line `trigger,notation` with its newline is valid and holds that trigger and that notation |
| `Shortcuts.ThreeFieldLine` | ShortcutManager.py:23 | a line with three fields is refused |
| `Shortcuts.BlankLine` | ShortcutManager.py:23 | a blank line is refused |

## Left out

- The `rich` rendering is not modelled: console, tables, styles, column widths, the status
  text, `round(..., 4)` and the percentage factor 100. Only the values the tables hold are
  modelled.
- Floating-point rounding is not modelled; `/` and the mean are exact `real`s.
- `DiceRoller.ReadDiceSyntax` reads the modifier only as an operator followed by decimal
  digits. Any other text after the dice prefix is reported as "not computable", including
  text Python's `eval` would accept (such as `+2*3`). main.py's gate admits only the
  operator-and-digits form, so such text never reaches the class.
- `DiceRoller.DiceRoller.constructor` reads its line with the corrected reading
  `DiceRoller.ReadDiceSyntax`, so it builds and rolls a roller for `d6+05`, and for an
  operand too large for `float()`, where DiceRoller.py:32 raises (see Findings).
- `DiceRoller.NewRoller` uses the corrected reading too: it returns `Success` on `d6+05`,
  with modifier `+` 5, and on an operand too large for `float()`, where the source raises.
- `DiceRoller.ReadDiceSyntaxCases` states the corrected reading: an operator followed by
  digits is that operator and their decimal value. As written, digits with a leading zero
  or too large for `float()` fail (`DiceRoller.ReadDiceSyntaxAsWritten`).
- `DiceRoller.ReadRendered` holds for the corrected reading. As written it fails on
  renderings whose operand has a leading zero, such as `d6+05`, or is too large for
  `float()`.
- `ConsoleRoller.VersionsAgree` holds for the corrected reading. As written the programs
  disagree on `3d6+05`, as `ConsoleRoller.VersionsDisagreeOnLeadingZero` shows.
- `DiceRoller.ReadDiceSyntax` uses ASCII digits for `\d`. Python's `\d` also matches other
  Unicode decimal digits.
- `Notation.FullMatch`, `Text.DigitRuns` and `ConsoleRoller.ParseInput` make the same
  choice: `\d` is an ASCII digit.
- `ConsoleRoller.RollDice` requires `diceMax >= 1`. `3d0` passes diceroller.py:25 and then
  raises in `random.randint(1, 0)`. `0d0` and `0d0+2` also pass, and diceroller.py rolls
  them normally: there are no draws and the divisor is `0 ** 0 == 1`. The model leaves
  these zero-face rolls out.
- `DiceRoller.DiceRoller.constructor` requires at least one face, and so does
  `DiceRoller.NewRoller`, which therefore gives no `Failure` for `3d0` or `0d0` but leaves
  them outside its precondition (`Rolling.DrawDice`, `Rolling.Statistics` and the
  probability functions require `diceMax >= 1` as well). The source
  raises in `random.randint(1, 0)` at DiceRoller.py:63 on `Nd0` with N ≥ 1, before any
  probability is computed. `0d0` goes through: there are no draws, and the divisor at
  DiceRoller.py:196 is `0 ** 0 == 1`. The model covers only dice with faces.
- `DiceRoller.ReadModifierAsWritten` and `DiceRoller.ReadDiceSyntaxAsWritten` accept only
  an operator followed by an integer literal. `eval` accepts other expressions too, such as
  `+2*3`, which gives 6.0. main.py's gate refuses such text. They also keep the exact value
  where `float()` would round a large integer to the nearest double.
- `DiceRoller.FinalTotal` requires the operator to be `+` or `-`. `eval` would also
  evaluate other operators, but no line that passes main.py's gate has one.
- `DiceRoller.DiceRoller.RollDice` first draws every face, then appends them. The source
  appends each face and its row inside the loop. The final state is the same.
- The read loops are not modelled: the `input()` calls, the `exit|q|stop` check and the
  "Input not valid" message of main.py and diceroller.py. `ConsoleRoller.ParseInput` is
  one pass of the loop body.
- The `readline`/`pyreadline3` imports, which depend on the operating system, are not
  modelled.
- `open` and `readlines` in `ShortcutManager.__init__` are not modelled: the lines are a
  parameter.
- Python's recursion limit on `__sumsForTotal` and the tail sums is not modelled.
- The limit of 4300 digits that CPython 3.11 and later puts on `int()` of a string is not
  modelled. A count or sides of more digits passes main.py:44 and diceroller.py:25, and then
  `int()` raises at DiceRoller.py:159 or :162, outside the `try`, or at diceroller.py:53.
  `Text.DecimalValue`, `DiceRoller.ReadDiceSyntaxAsWritten` and `ConsoleRoller.ParseInput`
  read such numbers.
- Assertions stripped under `python -O` are not modelled. The model treats DiceRoller.py:153
  and ShortcutManager.py:23 as always checked.
- `random.randint`'s distribution is not modelled: a draw is any face in `[1, diceMax]`.

## Findings

| source | as written | input that shows it | evidently intended | confidence | as-written member | corrected member |
|---|---|---|---|---|---|---|
| DiceRoller.py:168 | the modifier digits are evaluated as a Python expression, `float(eval(rest[1:]))`, and Python 3 refuses a decimal literal with a leading zero | `d6+05` passes main.py:44's gate, then raises "not computable", which main.py does not catch | the digits read as the decimal number 5, so that every line the gate admits can be rolled | not executed | `DiceRoller.LeadingZeroModifierRejected` | `DiceRoller.GateReadsRollable` |
| DiceRoller.py:168-169 | `float()` of the evaluated integer raises OverflowError from 2^1024 - 2^970 on, and the bare `except` turns it into "not computable" | `d6+2` followed by 308 zeros passes main.py:44's gate, then raises, which main.py does not catch | the operand read as its decimal value, so that every line the gate admits can be rolled | not executed | `DiceRoller.HugeModifierRejected` | `DiceRoller.GateReadsRollable` |
