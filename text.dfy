/** Character classes and digit runs, as the regular expressions `\d+` and
    `re.findall("\d+", ...)` and Python's `int(...)` use them (ASCII digits only). */
module Text {

  predicate IsDigit(c: char) {
    '0' <= c <= '9'
  }

  predicate AllDigits(s: string) {
    forall i :: 0 <= i < |s| ==> IsDigit(s[i])
  }

  function DigitValue(c: char): nat
    requires IsDigit(c)
  {
    c as int - '0' as int
  }

  /** A line cut around a separator at `i` and again `j` characters after it. */
  lemma CutAround(line: string, i: nat, j: nat)
    requires i < |line| && i + 1 + j <= |line|
    ensures line == line[..i] + [line[i]] + line[i + 1..][..j] + line[i + 1..][j..]
    ensures line[i + 1..][j..] == line[i + 1 + j..]
  {
    var after := line[i + 1..];
    assert after == after[..j] + after[j..];
    assert line == line[..i] + [line[i]] + after;
  }

  /** The decimal value of a digit string, as `int(ds)` computes it (leading zeros allowed). */
  function DecimalValue(ds: string): nat
    requires AllDigits(ds)
    decreases |ds|
  {
    if ds == [] then 0 else DecimalValue(ds[..|ds| - 1]) * 10 + DigitValue(ds[|ds| - 1])
  }

  /** The length of the longest prefix of `s` made of digits: how far a greedy `\d+` reaches. */
  function LeadingDigits(s: string): (k: nat)
    ensures k <= |s| && AllDigits(s[..k])
    ensures k < |s| ==> !IsDigit(s[k])
    decreases |s|
  {
    if s == [] || !IsDigit(s[0]) then 0 else 1 + LeadingDigits(s[1..])
  }

  /** The greedy digit run stops exactly where the digits stop. */
  lemma {:induction false} LeadingDigitsOf(ds: string, t: string)
    requires AllDigits(ds)
    requires t == [] || !IsDigit(t[0])
    ensures LeadingDigits(ds + t) == |ds|
  {
    if ds != [] {
      assert (ds + t)[0] == ds[0];
      assert (ds + t)[1..] == ds[1..] + t;
      LeadingDigitsOf(ds[1..], t);
    }
  }

  /** `re.findall("\d+", s)`: the maximal digit runs of `s`, left to right. */
  function DigitRuns(s: string): (runs: seq<string>)
    ensures forall i :: 0 <= i < |runs| ==> |runs[i]| > 0 && AllDigits(runs[i])
    decreases |s|
  {
    if s == [] then []
    else if !IsDigit(s[0]) then DigitRuns(s[1..])
    else
      var k := LeadingDigits(s);
      [s[..k]] + DigitRuns(s[k..])
  }

  /** A non-digit contributes no run. */
  lemma DigitRunsSkip(c: char, t: string)
    requires !IsDigit(c)
    ensures DigitRuns([c] + t) == DigitRuns(t)
  {
    assert ([c] + t)[1..] == t;
  }

  /** A maximal run followed by the rest of the text. */
  lemma DigitRunsRun(ds: string, t: string)
    requires |ds| > 0 && AllDigits(ds)
    requires t == [] || !IsDigit(t[0])
    ensures DigitRuns(ds + t) == [ds] + DigitRuns(t)
  {
    LeadingDigitsOf(ds, t);
    var s := ds + t;
    assert s[0] == ds[0];
    assert s[..|ds|] == ds && s[|ds|..] == t;
  }

  /** `findall` over a digit run, a separator and the rest. */
  lemma DigitRunsSeparated(ds: string, c: char, t: string)
    requires |ds| > 0 && AllDigits(ds) && !IsDigit(c)
    ensures DigitRuns(ds + [c] + t) == [ds] + DigitRuns(t)
  {
    assert ds + [c] + t == ds + ([c] + t);
    DigitRunsRun(ds, [c] + t);
    DigitRunsSkip(c, t);
  }

  /** A digit string is one run. */
  lemma DigitRunsAll(ds: string)
    requires |ds| > 0 && AllDigits(ds)
    ensures DigitRuns(ds) == [ds]
  {
    assert ds + [] == ds;
    DigitRunsRun(ds, []);
  }
}
