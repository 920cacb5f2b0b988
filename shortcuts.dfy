/** ShortcutManager.py: a table of `trigger,notation` lines turned into a dictionary from
    trigger to notation, with a membership test and a lookup. The lines are given; reading
    them from a file is not part of this model. */
module Shortcuts {
  import opened Wrappers

  /** The characters `re.split("\n|,", ...)` splits on. */
  predicate IsSeparator(c: char) {
    c == '\n' || c == ','
  }

  predicate NoSeparator(s: string) {
    forall i :: 0 <= i < |s| ==> !IsSeparator(s[i])
  }

  function Separators(s: string): (seps: string)
    ensures forall i :: 0 <= i < |seps| ==> IsSeparator(seps[i])
  {
    if s == [] then []
    else if IsSeparator(s[0]) then [s[0]] + Separators(s[1..])
    else Separators(s[1..])
  }

  /** `re.split("\n|,", s)`: the pieces between separators, empty ones included, one more
      than there are separators, none containing a separator. */
  function Split(s: string): (pieces: seq<string>)
    ensures |pieces| == |Separators(s)| + 1
    ensures forall i :: 0 <= i < |pieces| ==> NoSeparator(pieces[i])
  {
    if s == [] then [""]
    else if IsSeparator(s[0]) then [""] + Split(s[1..])
    else
      var rest := Split(s[1..]);
      assert NoSeparator([s[0]] + rest[0]) by {
        assert forall i :: 1 <= i < |rest[0]| + 1 ==> ([s[0]] + rest[0])[i] == rest[0][i - 1];
      }
      [[s[0]] + rest[0]] + rest[1..]
  }

  /** Pieces joined back together, with the separators between them. */
  function Interleave(pieces: seq<string>, seps: string): string
    requires |pieces| == |seps| + 1
  {
    if seps == [] then pieces[0]
    else pieces[0] + [seps[0]] + Interleave(pieces[1..], seps[1..])
  }

  /** Splitting loses nothing: the pieces and the separators give back the line. */
  lemma {:induction false} SplitRoundTrip(s: string)
    ensures Interleave(Split(s), Separators(s)) == s
  {
    if s != [] {
      SplitRoundTrip(s[1..]);
      if !IsSeparator(s[0]) {
        var rest := Split(s[1..]);
        var seps := Separators(s[1..]);
        if seps != [] {
          assert Split(s)[1..] == rest[1..];
          assert Interleave(Split(s), seps)
              == ([s[0]] + rest[0]) + [seps[0]] + Interleave(rest[1..], seps[1..]);
          assert ([s[0]] + rest[0]) + [seps[0]] + Interleave(rest[1..], seps[1..])
              == [s[0]] + (rest[0] + [seps[0]] + Interleave(rest[1..], seps[1..]));
        }
      } else {
        assert Split(s)[1..] == Split(s[1..]);
      }
    }
  }

  /** Splitting is the only way to cut a line into separator-free pieces. */
  lemma {:induction false} SplitUnique(pieces: seq<string>, seps: string)
    requires |pieces| == |seps| + 1
    requires forall i :: 0 <= i < |pieces| ==> NoSeparator(pieces[i])
    requires forall i :: 0 <= i < |seps| ==> IsSeparator(seps[i])
    ensures Split(Interleave(pieces, seps)) == pieces
    decreases |Interleave(pieces, seps)|
  {
    var line := Interleave(pieces, seps);
    if pieces[0] == [] {
      if seps != [] {
        assert line == [seps[0]] + Interleave(pieces[1..], seps[1..]);
        assert line[1..] == Interleave(pieces[1..], seps[1..]);
        SplitUnique(pieces[1..], seps[1..]);
        assert pieces == [""] + pieces[1..];
      }
    } else {
      var c := pieces[0][0];
      var shorter := [pieces[0][1..]] + pieces[1..];
      assert shorter[1..] == pieces[1..];
      assert NoSeparator(shorter[0]) by {
        assert forall i :: 0 <= i < |shorter[0]| ==> shorter[0][i] == pieces[0][i + 1];
      }
      assert pieces[0] == [c] + shorter[0];
      if seps == [] {
        assert line == [c] + Interleave(shorter, seps);
      } else {
        assert line == [c] + Interleave(shorter, seps);
      }
      assert line[1..] == Interleave(shorter, seps);
      assert line[0] == c && !IsSeparator(c);
      SplitUnique(shorter, seps);
      assert pieces == [[c] + shorter[0]] + shorter[1..];
    }
  }

  /** The tokens with every empty string dropped, the others in their order. */
  function NonEmpty(tokens: seq<string>): (kept: seq<string>)
    ensures |kept| <= |tokens|
    ensures forall i :: 0 <= i < |kept| ==> kept[i] != ""
  {
    if tokens == [] then []
    else (if tokens[0] == "" then [] else [tokens[0]]) + NonEmpty(tokens[1..])
  }

  /** Exactly the non-empty tokens survive. */
  lemma {:induction false} NonEmptyMembers(tokens: seq<string>, x: string)
    ensures x in NonEmpty(tokens) <==> x in tokens && x != ""
  {
    if tokens != [] {
      NonEmptyMembers(tokens[1..], x);
      assert tokens == [tokens[0]] + tokens[1..];
    }
  }

  lemma {:induction false} NonEmptyConcat(a: seq<string>, b: seq<string>)
    ensures NonEmpty(a + b) == NonEmpty(a) + NonEmpty(b)
  {
    if a != [] {
      assert (a + b)[1..] == a[1..] + b;
      NonEmptyConcat(a[1..], b);
    } else {
      assert a + b == b;
    }
  }

  /** Tokens without an empty string are kept as they are. */
  lemma {:induction false} NonEmptyKeepsClean(tokens: seq<string>)
    requires "" !in tokens
    ensures NonEmpty(tokens) == tokens
  {
    if tokens != [] {
      assert tokens[0] in tokens;
      assert "" !in tokens[1..] by {
        assert forall j :: 0 <= j < |tokens| - 1 ==> tokens[1..][j] == tokens[j + 1];
      }
      NonEmptyKeepsClean(tokens[1..]);
    }
  }

  /** Removing one empty token does not change the non-empty ones. */
  lemma NonEmptyRemove(xs: seq<string>, i: nat)
    requires i < |xs| && xs[i] == ""
    ensures NonEmpty(xs[..i] + xs[i + 1..]) == NonEmpty(xs)
  {
    var before, after := xs[..i], xs[i + 1..];
    assert xs == (before + [""]) + after;
    NonEmptyConcat(before + [""], after);
    NonEmptyConcat(before, [""]);
    NonEmptyConcat(before, after);
    assert NonEmpty([""]) == [] by {
      assert [""][1..] == [];
    }
    assert NonEmpty(before + [""]) == NonEmpty(before);
  }

  /** The first position of `x` in `xs`, as `list.remove` looks for it. */
  function FirstIndex(xs: seq<string>, x: string): (i: nat)
    requires x in xs
    ensures i < |xs| && xs[i] == x && forall j :: 0 <= j < i ==> xs[j] != x
  {
    if xs[0] == x then 0 else 1 + FirstIndex(xs[1..], x)
  }

  /** ShortcutManager.py:19-20: `while "" in tokens: tokens.remove("")`. Afterwards no token is
      empty and the others are all there, in their order. */
  method RemoveEmptyTokens(tokens: seq<string>) returns (result: seq<string>)
    ensures result == NonEmpty(tokens)
  {
    result := tokens;
    while "" in result
      invariant NonEmpty(result) == NonEmpty(tokens)
      decreases |result|
    {
      var i := FirstIndex(result, "");
      NonEmptyRemove(result, i);
      result := result[..i] + result[i + 1..];
    }
    NonEmptyKeepsClean(result);
  }

  /** The tokens of one line of the table. */
  function Tokens(line: string): seq<string> {
    NonEmpty(Split(line))
  }

  /** ShortcutManager.py:23: a usable line has exactly two non-empty tokens. */
  predicate ValidLine(line: string) {
    |Tokens(line)| == 2
  }

  predicate AllValid(lines: seq<string>) {
    forall i :: 0 <= i < |lines| ==> ValidLine(lines[i])
  }

  function Trigger(line: string): string
    requires ValidLine(line)
  {
    Tokens(line)[0]
  }

  function ShortcutNotation(line: string): string
    requires ValidLine(line)
  {
    Tokens(line)[1]
  }

  /** The dictionary after the lines, in order, each setting its trigger to its notation. */
  function BuildMap(lines: seq<string>): map<string, string>
    requires AllValid(lines)
  {
    if lines == [] then map[]
    else
      var last := lines[|lines| - 1];
      BuildMap(lines[..|lines| - 1])[Trigger(last) := ShortcutNotation(last)]
  }

  /** The triggers in the dictionary are exactly the first tokens of the lines. */
  lemma {:induction false} BuildMapKeys(lines: seq<string>, key: string)
    requires AllValid(lines)
    ensures key in BuildMap(lines) <==> exists i :: 0 <= i < |lines| && Trigger(lines[i]) == key
  {
    if lines != [] {
      var init := lines[..|lines| - 1];
      BuildMapKeys(init, key);
      assert forall i :: 0 <= i < |init| ==> init[i] == lines[i];
      if exists i :: 0 <= i < |lines| && Trigger(lines[i]) == key {
        var i :| 0 <= i < |lines| && Trigger(lines[i]) == key;
        if i < |init| {
          assert Trigger(init[i]) == key;
        }
      }
    }
  }

  /** A trigger maps to the notation of the last line that names it: later lines overwrite
      earlier ones. */
  lemma {:induction false} BuildMapLatest(lines: seq<string>, i: nat)
    requires AllValid(lines) && i < |lines|
    requires forall j :: i < j < |lines| ==> Trigger(lines[j]) != Trigger(lines[i])
    ensures Trigger(lines[i]) in BuildMap(lines)
    ensures BuildMap(lines)[Trigger(lines[i])] == ShortcutNotation(lines[i])
  {
    if i < |lines| - 1 {
      var init := lines[..|lines| - 1];
      assert init[i] == lines[i];
      assert forall j :: i < j < |init| ==> init[j] == lines[j];
      BuildMapLatest(init, i);
    }
  }

  /** A further line sets its own trigger and leaves every other entry as it was. */
  lemma BuildMapExtend(lines: seq<string>, line: string, key: string)
    requires AllValid(lines) && ValidLine(line)
    ensures AllValid(lines + [line])
    ensures BuildMap(lines + [line])[Trigger(line)] == ShortcutNotation(line)
    ensures key != Trigger(line) ==>
      (key in BuildMap(lines + [line]) <==> key in BuildMap(lines))
      && (key in BuildMap(lines) ==> BuildMap(lines + [line])[key] == BuildMap(lines)[key])
  {
    assert (lines + [line])[..|lines|] == lines;
  }

  /** Every entry comes from a line that names its trigger, with no later line naming it. */
  lemma {:induction false} BuildMapSource(lines: seq<string>, key: string)
    requires AllValid(lines) && key in BuildMap(lines)
    ensures exists i :: (0 <= i < |lines| && Trigger(lines[i]) == key
                         && BuildMap(lines)[key] == ShortcutNotation(lines[i])
                         && forall j :: i < j < |lines| ==> Trigger(lines[j]) != key)
  {
    var last := |lines| - 1;
    if Trigger(lines[last]) == key {
      assert BuildMap(lines)[key] == ShortcutNotation(lines[last]);
    } else {
      var init := lines[..last];
      assert forall k :: 0 <= k < |init| ==> init[k] == lines[k];
      BuildMapSource(init, key);
      var i :| 0 <= i < |init| && Trigger(init[i]) == key
        && BuildMap(init)[key] == ShortcutNotation(init[i])
        && forall j :: i < j < |init| ==> Trigger(init[j]) != key;
      assert Trigger(lines[i]) == key;
    }
  }

  /** The first line that does not have two tokens, if any. */
  function FirstInvalid(lines: seq<string>): (r: Option<nat>)
    ensures r.None? ==> AllValid(lines)
    ensures r.Some? ==> r.value < |lines| && !ValidLine(lines[r.value]) && AllValid(lines[..r.value])
  {
    if lines == [] then None
    else if !ValidLine(lines[0]) then Some(0)
    else
      match FirstInvalid(lines[1..])
      case None => None
      case Some(k) =>
        assert forall j :: 0 <= j < k + 1 ==> lines[..k + 1][j] == lines[j];
        assert forall j :: 1 <= j < k + 1 ==> lines[j] == lines[1..][..k][j - 1];
        Some(k + 1)
  }

  class ShortcutManager {
    var shortcutDict: map<string, string>
    /** The lines the dictionary was built from. */
    ghost var source: seq<string>

    ghost predicate Valid()
      reads this
    {
      AllValid(source) && shortcutDict == BuildMap(source)
    }

    /** `__init__` over lines that all hold two tokens: each line is split, cleared of empty
        tokens, and sets its trigger to its notation. */
    constructor (lines: seq<string>)
      requires AllValid(lines)
      ensures Valid() && source == lines
    {
      shortcutDict := map[];
      source := lines;
      new;
      for k := 0 to |lines|
        invariant source == lines
        invariant shortcutDict == BuildMap(lines[..k])
      {
        var line := lines[k];
        var tokens := Split(line);
        tokens := RemoveEmptyTokens(tokens);
        assert lines[..k + 1][..k] == lines[..k];
        shortcutDict := shortcutDict[tokens[0] := tokens[1]];
      }
      assert lines[..|lines|] == lines;
    }

    /** `match`: whether some line of the table has `line` as its trigger. */
    function Match(line: string): (found: bool)
      requires Valid()
      reads this
      ensures found <==> exists i :: 0 <= i < |source| && Trigger(source[i]) == line
    {
      BuildMapKeys(source, line);
      line in shortcutDict
    }

    /** `getShortcut`: for a trigger in the table, the notation of the last line naming it. */
    function GetShortcut(key: string): (notation: string)
      requires Valid() && key in shortcutDict
      reads this
      ensures exists i :: (0 <= i < |source| && Trigger(source[i]) == key && notation == ShortcutNotation(source[i])
                           && forall j :: i < j < |source| ==> Trigger(source[j]) != key)
    {
      BuildMapSource(source, key);
      shortcutDict[key]
    }
  }

  /** Building from a file's lines as a call that may fail: the first line without two tokens
      is reported, as the `Invalid syntax` assertion does; otherwise a manager over all lines. */
  method Load(lines: seq<string>) returns (r: Result<ShortcutManager, string>)
    ensures r.Failure? <==> !AllValid(lines)
    ensures r.Failure? ==> exists i :: (0 <= i < |lines| && r.error == lines[i]
                                        && !ValidLine(lines[i]) && AllValid(lines[..i]))
    ensures r.Success? ==> fresh(r.value) && r.value.Valid() && r.value.source == lines
  {
    match FirstInvalid(lines)
    case Some(i) =>
      r := Failure(lines[i]);
    case None =>
      var manager := new ShortcutManager(lines);
      r := Success(manager);
  }

  /** A line `trigger,notation` with its newline holds that trigger and that notation. */
  lemma TwoFieldLine(trigger: string, notation: string)
    requires |trigger| > 0 && NoSeparator(trigger) && |notation| > 0 && NoSeparator(notation)
    ensures var line := trigger + "," + notation + "\n";
      ValidLine(line) && Trigger(line) == trigger && ShortcutNotation(line) == notation
  {
    var line := trigger + "," + notation + "\n";
    var pieces := [trigger, notation, ""];
    assert Interleave(pieces, ",\n") == line by {
      assert pieces[1..][1..] == [""];
      assert Interleave(pieces[1..], "\n") == notation + "\n";
    }
    SplitUnique(pieces, ",\n");
    NonEmptyKeepsClean([trigger, notation]);
    assert pieces == [trigger, notation] + [""];
    NonEmptyConcat([trigger, notation], [""]);
    assert NonEmpty([""]) == [] by {
      assert [""][1..] == [];
    }
  }

  /** A line with three fields is refused. */
  lemma ThreeFieldLine(a: string, b: string, c: string)
    requires |a| > 0 && NoSeparator(a) && |b| > 0 && NoSeparator(b) && |c| > 0 && NoSeparator(c)
    ensures !ValidLine(a + "," + b + "," + c + "\n")
  {
    var line := a + "," + b + "," + c + "\n";
    var pieces := [a, b, c, ""];
    assert Interleave(pieces, ",,\n") == line by {
      assert pieces[1..][1..][1..] == [""];
      assert Interleave(pieces[1..][1..], "\n") == c + "\n";
      assert Interleave(pieces[1..], ",\n") == b + "," + c + "\n";
    }
    SplitUnique(pieces, ",,\n");
    NonEmptyKeepsClean([a, b, c]);
    assert pieces == [a, b, c] + [""];
    NonEmptyConcat([a, b, c], [""]);
    assert NonEmpty([""]) == [] by {
      assert [""][1..] == [];
    }
  }

  /** A blank line is refused. */
  lemma BlankLine()
    ensures !ValidLine("\n") && !ValidLine("")
  {
    assert Split("\n") == ["", ""];
    assert Tokens("\n") == [];
  }
}
