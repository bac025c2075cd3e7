/** The changelog lines a bump ships, and the bump they call for. */
module BumpLevel {
  import opened Semver
  import opened Text
  import opened Wrappers

  const HEADING := "## "

  predicate IsHeading(line: string) {
    HEADING <= line
  }

  function FirstWord(s: string): string
    decreases |s|
  {
    if s == "" then ""
    else if IsWhite(s[0]) then FirstWord(s[1..])
    else UpToWhite(s)
  }

  function UpToWhite(s: string): string {
    if s == "" || IsWhite(s[0]) then "" else [s[0]] + UpToWhite(s[1..])
  }

  function TrimOpening(s: string): string {
    if s != "" && s[0] == '[' then TrimOpening(s[1..]) else s
  }

  function TrimClosing(s: string): string {
    if s != "" && s[|s| - 1] == ']' then TrimClosing(s[..|s| - 1]) else s
  }

  /** What a heading names: its first word without brackets around it. */
  function HeadingName(line: string): string
    requires IsHeading(line)
  {
    TrimClosing(TrimOpening(FirstWord(line[|HEADING|..])))
  }

  function Lower(c: char): char {
    if 'A' <= c <= 'Z' then (c as int + 32) as char else c
  }

  predicate IsUnreleased(name: string) {
    var word := "unreleased";
    |name| == |word| && forall i :: 0 <= i < |word| ==> Lower(name[i]) == word[i]
  }

  /** Whether the section under this heading is shipped by a bump to `to`. */
  predicate Ships(line: string, to: string)
    requires IsHeading(line)
  {
    IsUnreleased(HeadingName(line)) || HeadingName(line) == to
  }

  function Shipped(lines: seq<string>, to: string, shipping: bool): seq<string> {
    if lines == [] then []
    else if IsHeading(lines[0]) then Shipped(lines[1..], to, Ships(lines[0], to))
    else (if shipping then [lines[0]] else []) + Shipped(lines[1..], to, shipping)
  }

  /** `shipped_lines`: a flag carried through the lines. */
  method ShippedLines(changelog: string, to: string) returns (shipped: seq<string>)
    ensures shipped == Shipped(Lines(changelog), to, false)
  {
    hide IsHeading, Ships, Lines;
    var lines, shipping := Lines(changelog), false;
    shipped := [];
    assert lines[0..] == lines;
    var i := 0;
    while i < |lines|
      invariant i <= |lines|
      invariant shipped + Shipped(lines[i..], to, shipping) == Shipped(lines, to, false)
    {
      assert lines[i..][1..] == lines[i + 1..];
      if IsHeading(lines[i]) {
        shipping := Ships(lines[i], to);
      } else if shipping {
        shipped := shipped + [lines[i]];
      }
      i := i + 1;
    }
  }

  // ---- What that is, line by line ----

  /** The heading a line stands under. */
  function HeadingOver(lines: seq<string>, i: nat): (h: Option<nat>)
    requires i <= |lines|
    ensures h.Some? ==> h.value < i && IsHeading(lines[h.value]) && forall k :: h.value < k < i ==> !IsHeading(lines[k])
    ensures h.None? ==> forall k :: 0 <= k < i ==> !IsHeading(lines[k])
  {
    if i == 0 then None else if IsHeading(lines[i - 1]) then Some(i - 1) else HeadingOver(lines, i - 1)
  }

  predicate IsShipped(lines: seq<string>, i: nat, to: string)
    requires i < |lines|
  {
    !IsHeading(lines[i]) && var h := HeadingOver(lines, i); h.Some? && Ships(lines[h.value], to)
  }

  function Picked(lines: seq<string>, from: nat, to: string): seq<string>
    requires from <= |lines|
    decreases |lines| - from
  {
    if from == |lines| then []
    else (if IsShipped(lines, from, to) then [lines[from]] else []) + Picked(lines, from + 1, to)
  }

  /** A line is shipped exactly when the last heading over it is one the bump ships. */
  lemma ShippedByHeading(changelog: string, to: string)
    ensures Shipped(Lines(changelog), to, false) == Picked(Lines(changelog), 0, to)
  {
    var lines := Lines(changelog);
    ShippedFrom(lines, 0, to);
    assert lines[0..] == lines;
  }

  lemma {:induction false} ShippedFrom(lines: seq<string>, from: nat, to: string)
    requires from <= |lines|
    ensures var h := HeadingOver(lines, from);
            Shipped(lines[from..], to, h.Some? && Ships(lines[h.value], to)) == Picked(lines, from, to)
    decreases |lines| - from
  {
    hide IsHeading, Ships;
    if from < |lines| {
      ShippedFrom(lines, from + 1, to);
      assert lines[from..][1..] == lines[from + 1..];
    }
  }

  // ---- Rolling the changelog ----

  const UNRELEASED := "\n## Unreleased\n"

  function Dated(version: string, date: string): string {
    "## " + version + " - " + date
  }

  /** `roll_changelog`: the first heading of its own line is dated. */
  function Roll(changelog: string, version: string, date: string): Option<string> {
    var i := IndexOf(changelog, UNRELEASED);
    if i.None? then None
    else Some(changelog[..i.value] + "\n" + Dated(version, date) + "\n" + changelog[i.value + |UNRELEASED|..])
  }

  lemma {:induction false} FirstWordIs(word: string, rest: string)
    requires forall c <- word :: !IsWhite(c)
    requires rest != "" ==> IsWhite(rest[0])
    ensures UpToWhite(word + rest) == word
  {
    if word == "" {
      assert word + rest == rest;
    } else {
      assert (word + rest)[1..] == word[1..] + rest;
      FirstWordIs(word[1..], rest);
    }
  }

  /** A heading whose first word has no brackets at its ends is named by it. */
  lemma NamedByWord(word: string, rest: string)
    requires word != "" && word[0] != '[' && word[|word| - 1] != ']' && forall c <- word :: !IsWhite(c)
    requires rest != "" ==> IsWhite(rest[0])
    ensures IsHeading(HEADING + word + rest) && HeadingName(HEADING + word + rest) == word
  {
    var line := HEADING + word + rest;
    assert line[|HEADING|..] == word + rest;
    assert (word + rest)[0] == word[0] && word[0] in word;
    FirstWordIs(word, rest);
    hide IsWhite, UpToWhite;
    assert FirstWord(word + rest) == word;
  }

  /** The word a heading names, bare or in brackets, decides: it is the version, or says unreleased,
      in small letters or capitals. */
  lemma ShipsByName(word: string, rest: string, to: string)
    requires word != "" && word[0] != '[' && word[|word| - 1] != ']' && forall c <- word :: !IsWhite(c)
    requires rest != "" ==> IsWhite(rest[0])
    ensures IsHeading("## " + word + rest) && IsHeading("## [" + word + "]" + rest)
    ensures Ships("## " + word + rest, to) <==> word == to || SaysUnreleased(word)
    ensures Ships("## [" + word + "]" + rest, to) <==> word == to || SaysUnreleased(word)
  {
    NamedByWord(word, rest);
    NamedInBrackets(word, rest);
    UnreleasedEitherWay(word);
    hide HeadingName, IsHeading, IsUnreleased, SaysUnreleased;
    assert HEADING + word + rest == "## " + word + rest;
    assert "## [" + word + "]" + rest == HEADING + "[" + word + "]" + rest;
  }

  predicate SaysUnreleased(word: string) {
    && |word| == 10
    && forall i :: 0 <= i < 10 ==> word[i] == "unreleased"[i] || word[i] == "UNRELEASED"[i]
  }

  lemma UnreleasedEitherWay(word: string)
    ensures IsUnreleased(word) <==> SaysUnreleased(word)
  {
    var small, great := "unreleased", "UNRELEASED";
    assert |small| == 10 && |great| == 10;
    forall i | 0 <= i < 10 && |word| == 10
      ensures Lower(word[i]) == small[i] <==> word[i] == small[i] || word[i] == great[i]
    {
    }
  }

  lemma NamedInBrackets(word: string, rest: string)
    requires word != "" && word[0] != '[' && word[|word| - 1] != ']' && forall c <- word :: !IsWhite(c)
    requires rest != "" ==> IsWhite(rest[0])
    ensures IsHeading(HEADING + "[" + word + "]" + rest) && HeadingName(HEADING + "[" + word + "]" + rest) == word
  {
    var line, inside := HEADING + "[" + word + "]" + rest, "[" + word + "]";
    assert line[|HEADING|..] == inside + rest;
    forall c | c in inside ensures !IsWhite(c) {
      assert c == '[' || c == ']' || c in word;
    }
    FirstWordIs(inside, rest);
    assert (inside + rest)[0] == '[';
    assert FirstWord(inside + rest) == inside;
    hide FirstWord, UpToWhite;
    assert inside[1..] == word + "]" && (word + "]")[0] == word[0];
    assert TrimOpening(word + "]") == word + "]" && TrimOpening(inside) == word + "]";
    assert (word + "]")[..|word|] == word;
    assert TrimClosing(word) == word && TrimClosing(word + "]") == word;
  }

  lemma DatedShips(version: string, date: string)
    requires IsSemver(version)
    ensures IsHeading(Dated(version, date)) && Ships(Dated(version, date), version)
  {
    SemverChars(version);
    NamedByWord(version, " - " + date);
    hide HeadingName, IsSemver, IsUnreleased;
    assert Dated(version, date) == HEADING + version + (" - " + date);
  }

  lemma UnreleasedShips(to: string)
    ensures IsHeading("## Unreleased") && Ships("## Unreleased", to)
  {
    NameOfUnreleased();
    hide HeadingName, IsHeading;
    assert IsUnreleased("Unreleased");
  }

  lemma NameOfUnreleased()
    ensures IsHeading("## Unreleased") && HeadingName("## Unreleased") == "Unreleased"
  {
    var word := "Unreleased";
    assert forall i :: 0 <= i < |word| ==> 'A' <= word[i] <= 'z';
    hide HeadingName, IsHeading;
    NamedByWord(word, "");
    assert HEADING + word + "" == "## Unreleased";
  }

  /** Whether the lines end in a section that is shipped. */
  function StillShipping(lines: seq<string>, to: string, shipping: bool): bool {
    if lines == [] then shipping
    else StillShipping(lines[1..], to, if IsHeading(lines[0]) then Ships(lines[0], to) else shipping)
  }

  lemma {:induction false} ShippedOfBoth(a: seq<string>, b: seq<string>, to: string, shipping: bool)
    ensures Shipped(a + b, to, shipping) == Shipped(a, to, shipping) + Shipped(b, to, StillShipping(a, to, shipping))
  {
    hide IsHeading, Ships;
    if a == [] {
      assert a + b == b;
    } else {
      assert (a + b)[1..] == a[1..] + b;
      ShippedOfBoth(a[1..], b, to, if IsHeading(a[0]) then Ships(a[0], to) else shipping);
    }
  }

  /** Of two headings that both are shipped it does not matter which one stands there. */
  lemma EitherHeading(before: seq<string>, a: string, b: string, after: seq<string>, to: string)
    requires IsHeading(a) && IsHeading(b) && Ships(a, to) && Ships(b, to)
    ensures Shipped(before + [a] + after, to, false) == Shipped(before + [b] + after, to, false)
  {
    hide IsHeading, Ships;
    forall line | line in [a, b]
      ensures Shipped(before + [line] + after, to, false) == Shipped(before, to, false) + Shipped(after, to, true)
    {
      ShippedOfBoth(before, [line] + after, to, false);
      assert ([line] + after)[1..] == after;
      assert before + [line] + after == before + ([line] + after);
    }
    assert a in [a, b] && b in [a, b];
  }

  lemma LinesAround(before: string, line: string, after: string)
    requires '\n' !in line && '\r' !in line
    ensures Lines(before + "\n" + line + "\n" + after) == Lines(before + "\n") + [line] + Lines(after)
  {
    hide Lines, IndexOfChar;
    LinesOfLine(line, after);
    LinesOfBoth(before + "\n", line + "\n" + after);
    assert before + "\n" + line + "\n" + after == before + "\n" + (line + "\n" + after);
  }

  /** Rolling the changelog leaves what the version ships as it was: the entries stay where they are,
      under a heading of their version now. */
  lemma RollKeepsShipped(changelog: string, version: string, date: string)
    requires IsSemver(version) && '\n' !in date && '\r' !in date
    requires Roll(changelog, version, date).Some?
    ensures Shipped(Lines(Roll(changelog, version, date).value), version, false)
              == Shipped(Lines(changelog), version, false)
  {
    hide *;
    var before, after := RollParts(changelog, version, date);
    var was, now := "## Unreleased", Dated(version, date);
    DatedIsLine(version, date);
    DatedShips(version, date);
    UnreleasedShips(version);
    LinesAround(before, was, after);
    LinesAround(before, now, after);
    EitherHeading(Lines(before + "\n"), was, now, Lines(after), version);
  }

  lemma RollParts(changelog: string, version: string, date: string) returns (before: string, after: string)
    requires Roll(changelog, version, date).Some?
    ensures changelog == before + "\n" + "## Unreleased" + "\n" + after
    ensures Roll(changelog, version, date).value == before + "\n" + Dated(version, date) + "\n" + after
  {
    hide Dated, IndexFrom;
    var i := IndexOf(changelog, UNRELEASED).value;
    before, after := changelog[..i], changelog[i + |UNRELEASED|..];
    assert changelog[i..i + |UNRELEASED|] == UNRELEASED;
    WhatIsFound(changelog, i, UNRELEASED, before, after);
    assert UNRELEASED == "\n" + "## Unreleased" + "\n";
    Spelled(before, "\n", "## Unreleased", "\n", after);
  }

  /** The first heading of its own line that says so names the version and the date instead, and nothing
      else has changed. */
  ghost predicate Rolled(changelog: string, rolled: string, version: string, date: string) {
    exists before, after :: RolledAround(changelog, rolled, version, date, before, after)
  }

  ghost predicate RolledAround(changelog: string, rolled: string, version: string, date: string, before: string,
                               after: string) {
    && changelog == before + "\n## Unreleased\n" + after
    && rolled == before + "\n## " + version + " - " + date + "\n" + after
    && forall j: nat :: j < |before| ==> !At(changelog, "\n## Unreleased\n", j)
  }

  /** Rolling does that, where there is such a heading, and nothing where there is none. */
  lemma RollDates(changelog: string, version: string, date: string)
    ensures Roll(changelog, version, date).Some? <==> exists i: nat :: At(changelog, "\n## Unreleased\n", i)
    ensures Roll(changelog, version, date).Some? ==>
              Rolled(changelog, Roll(changelog, version, date).value, version, date)
  {
    var found := IndexOf(changelog, UNRELEASED);
    hide IndexOf;
    if found.Some? {
      var i := found.value;
      var before, after := changelog[..i], changelog[i + |UNRELEASED|..];
      WhatIsFound(changelog, i, UNRELEASED, before, after);
      var heading := "\n## " + version + " - " + date + "\n";
      assert "\n" + Dated(version, date) + "\n" == heading;
      assert before + heading + after == before + "\n" + Dated(version, date) + "\n" + after;
      assert before + heading + after == before + "\n## " + version + " - " + date + "\n" + after;
      assert RolledAround(changelog, Roll(changelog, version, date).value, version, date, before, after);
    }
  }

  lemma WhatIsFound(text: string, i: nat, what: string, before: string, after: string)
    requires At(text, what, i) && before == text[..i] && after == text[i + |what|..]
    ensures text == before + what + after
  {
  }

  lemma Spelled(before: string, a: string, b: string, c: string, after: string)
    ensures before + (a + b + c) + after == before + a + b + c + after
  {
  }

  lemma DatedIsLine(version: string, date: string)
    requires IsSemver(version) && '\n' !in date && '\r' !in date
    ensures '\n' !in Dated(version, date) && '\r' !in Dated(version, date)
  {
    SemverChars(version);
  }

  // ---- The bump ----

  /** A forward bump that ships a breaking entry without moving the breaking level. Which lines are
      breaking entries is left to the caller. */
  ghost predicate TooSmall(changelog: string, from: string, to: string, breaking: string -> bool) {
    && NumbersOf(from).Less(NumbersOf(to))
    && (exists line :: line in Shipped(Lines(changelog), to, false) && breaking(line))
    && !MovesBreakingLevel(from, to)
  }

  /** `ensure_bump_level`. */
  method IsTooSmall(changelog: string, from: string, to: string, breaking: string -> bool) returns (refused: bool)
    ensures refused == TooSmall(changelog, from, to, breaking)
  {
    hide MovesBreakingLevel, NumbersOf, Lines, Shipped;
    var shipped := ShippedLines(changelog, to);
    var found, i := false, 0;
    while i < |shipped| && !found
      invariant i <= |shipped|
      invariant found ==> exists line :: line in shipped && breaking(line)
      invariant !found ==> forall k :: 0 <= k < i ==> !breaking(shipped[k])
    {
      found := breaking(shipped[i]);
      i := i + 1;
    }
    refused := NumbersOf(from).Less(NumbersOf(to)) && found && !MovesBreakingLevel(from, to);
  }

  /** A bump is refused exactly when a breaking entry stands under a heading it ships and it moves no more
      than the numbers below the level: the minor and patch, or the patch while the major is 0. */
  lemma RefusedWhen(changelog: string, from: string, to: string, breaking: string -> bool)
    ensures var lines, f, t := Lines(changelog), NumbersOf(from), NumbersOf(to);
            TooSmall(changelog, from, to, breaking) <==>
            && (exists i: nat :: 0 <= i < |lines| && IsShipped(lines, i, to) && breaking(lines[i]))
            && f.major == t.major
            && if f.major == 0 then f.minor == t.minor && f.patch < t.patch
               else f.minor < t.minor || (f.minor == t.minor && f.patch < t.patch)
  {
    var lines := Lines(changelog);
    ShippedByHeading(changelog, to);
    PickedAre(lines, 0, to, breaking);
    hide Lines, NumbersOf, Shipped, Picked, IsShipped;
  }

  ghost predicate AnyBreaking(lines: seq<string>, breaking: string -> bool) {
    exists line :: line in lines && breaking(line)
  }

  ghost predicate BreakingFrom(lines: seq<string>, from: nat, to: string, breaking: string -> bool) {
    exists i: nat :: from <= i < |lines| && IsShipped(lines, i, to) && breaking(lines[i])
  }

  lemma {:induction false} PickedAre(lines: seq<string>, from: nat, to: string, breaking: string -> bool)
    requires from <= |lines|
    ensures AnyBreaking(Picked(lines, from, to), breaking) <==> BreakingFrom(lines, from, to, breaking)
    decreases |lines| - from
  {
    if from < |lines| {
      PickedAre(lines, from + 1, to, breaking);
      NextPicked(lines, from, to, breaking);
      NextBreaking(lines, from, to, breaking);
      hide *;
    }
  }

  lemma NextBreaking(lines: seq<string>, from: nat, to: string, breaking: string -> bool)
    requires from < |lines|
    ensures BreakingFrom(lines, from, to, breaking) <==>
              (IsShipped(lines, from, to) && breaking(lines[from])) || BreakingFrom(lines, from + 1, to, breaking)
  {
    hide IsShipped;
  }

  lemma NextPicked(lines: seq<string>, from: nat, to: string, breaking: string -> bool)
    requires from < |lines|
    ensures AnyBreaking(Picked(lines, from, to), breaking) <==>
              || (IsShipped(lines, from, to) && breaking(lines[from]))
              || AnyBreaking(Picked(lines, from + 1, to), breaking)
  {
    hide IsShipped;
    var here := if IsShipped(lines, from, to) then [lines[from]] else [];
    var more := Picked(lines, from + 1, to);
    assert Picked(lines, from, to) == here + more;
    hide Picked;
    assert forall line :: line in here + more <==> line in here || line in more;
  }

  /** A bump is refused only below the version suggested instead, which is never refused itself. */
  lemma SuggestedIsBigEnough(changelog: string, from: string, to: string, breaking: string -> bool)
    requires Level(from) + 1 < U64_LIMIT
    ensures TooSmall(changelog, from, to, breaking) ==> NumbersOf(to).Less(NumbersOf(Suggested(from)))
    ensures !TooSmall(changelog, from, Suggested(from), breaking)
  {
    MovesFromSuggestedOn(from, to);
    MovesFromSuggestedOn(from, Suggested(from));
    hide MovesBreakingLevel, NumbersOf, Suggested, Lines;
  }

  /** The verdict survives the roll, whatever version the bump is from. */
  lemma VerdictSurvivesRoll(changelog: string, from: string, to: string, date: string, breaking: string -> bool)
    requires IsSemver(to) && '\n' !in date && '\r' !in date && Roll(changelog, to, date).Some?
    ensures TooSmall(Roll(changelog, to, date).value, from, to, breaking) == TooSmall(changelog, from, to, breaking)
  {
    RollKeepsShipped(changelog, to, date);
    hide MovesBreakingLevel, NumbersOf, Lines, Shipped, Roll, IsSemver;
  }
}
