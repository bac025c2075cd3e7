/** Bare `X.Y.Z` versions, and which of them may carry a breaking change. */
module Semver {
  import opened Decimal
  import opened Text
  import opened Wrappers

  predicate IsSemver(candidate: string) {
    var parts := Split(candidate, '.');
    |parts| == 3 && forall part <- parts :: part != "" && AllDigits(part)
  }

  /** What the rewriting rests on: a version is digits and dots, and digits at both ends. */
  lemma SemverChars(version: string)
    requires IsSemver(version)
    ensures version != "" && IsDigit(version[0]) && IsDigit(version[|version| - 1])
    ensures forall c <- version :: IsDigit(c) || c == '.'
  {
    PartsOfDigits(version);
  }

  lemma {:induction false} PartsOfDigits(s: string)
    requires forall part <- Split(s, '.') :: part != "" && AllDigits(part)
    ensures s != "" && IsDigit(s[0]) && IsDigit(s[|s| - 1])
    ensures forall c <- s :: IsDigit(c) || c == '.'
    decreases |s|
  {
    var k := IndexOfChar(s, '.');
    assert Split(s, '.')[0] in Split(s, '.');
    if k.Some? {
      var first, rest := s[..k.value], s[k.value + 1..];
      assert s == first + "." + rest;
      assert Split(s, '.') == [first] + Split(rest, '.');
      forall part <- Split(rest, '.') ensures part != "" && AllDigits(part) {
        assert part in Split(s, '.');
      }
      PartsOfDigits(rest);
    }
  }

  // ---- The numbers of a version ----

  const U64_LIMIT: nat := 0x1_0000_0000_0000_0000

  datatype Numbers = Numbers(major: nat, minor: nat, patch: nat) {
    predicate Less(other: Numbers) {
      || major < other.major
      || (major == other.major && (minor < other.minor || (minor == other.minor && patch < other.patch)))
    }
  }

  /** A part that is missing, no number or too big for 64 bits counts as 0; a plus sign is allowed. */
  function Parsed(part: string): (n: nat)
    ensures n < U64_LIMIT
  {
    var digits := if part != "" && part[0] == '+' then part[1..] else part;
    if digits != "" && AllDigits(digits) && Value(digits) < U64_LIMIT then Value(digits) else 0
  }

  function NumbersOf(version: string): Numbers {
    var parts := Split(version, '.');
    Numbers(Parsed(parts[0]), if |parts| > 1 then Parsed(parts[1]) else 0, if |parts| > 2 then Parsed(parts[2]) else 0)
  }

  /** The major version, or the minor one while the major is 0. */
  predicate MovesBreakingLevel(from: string, to: string) {
    var f, t := NumbersOf(from), NumbersOf(to);
    if f.major == 0 then t.major > 0 || t.minor > f.minor else t.major > f.major
  }

  /** The number the next breaking change moves. */
  function Level(version: string): nat {
    var n := NumbersOf(version);
    if n.major == 0 then n.minor else n.major
  }

  function Suggested(from: string): string {
    var n := NumbersOf(from);
    if n.major == 0 then "0." + Show(n.minor + 1) + ".0" else Show(n.major + 1) + ".0.0"
  }

  lemma SplitFirst(a: string, b: string)
    requires '.' !in a
    ensures Split(a + "." + b, '.') == [a] + Split(b, '.')
  {
    CharFound(a, '.', b);
  }

  lemma ParsedShow(n: nat)
    requires n < U64_LIMIT
    ensures Parsed(Show(n)) == n && '.' !in Show(n)
  {
    ShowReads(n);
  }

  lemma ThreeParts(a: nat, b: nat, c: nat)
    requires a < U64_LIMIT && b < U64_LIMIT && c < U64_LIMIT
    ensures NumbersOf(Show(a) + "." + Show(b) + "." + Show(c)) == Numbers(a, b, c)
  {
    ParsedShow(a);
    ParsedShow(b);
    ParsedShow(c);
    hide *;
    SplitThree(Show(a), Show(b), Show(c));
    NumbersOfThree(Show(a) + "." + Show(b) + "." + Show(c), Show(a), Show(b), Show(c));
  }

  lemma NumbersOfThree(version: string, x: string, y: string, z: string)
    requires Split(version, '.') == [x, y, z]
    ensures NumbersOf(version) == Numbers(Parsed(x), Parsed(y), Parsed(z))
  {
    hide Parsed, Split;
  }

  lemma SplitThree(x: string, y: string, z: string)
    requires '.' !in x && '.' !in y && '.' !in z
    ensures Split(x + "." + y + "." + z, '.') == [x, y, z]
  {
    hide *;
    assert x + "." + y + "." + z == x + "." + (y + "." + z);
    SplitFirst(x, y + "." + z);
    SplitFirst(y, z);
    SplitLast(z);
  }

  lemma SplitLast(s: string)
    requires '.' !in s
    ensures Split(s, '.') == [s]
  {
  }

  /** The version suggested reads back as the next one on the level, unless there is none in 64 bits. */
  lemma SuggestedReads(from: string)
    requires Level(from) + 1 < U64_LIMIT
    ensures NumbersOf(Suggested(from))
              == if NumbersOf(from).major == 0 then Numbers(0, Level(from) + 1, 0) else Numbers(Level(from) + 1, 0, 0)
  {
    hide NumbersOf;
    var n := NumbersOf(from);
    assert Show(0) == "0";
    if n.major == 0 {
      ThreeParts(0, n.minor + 1, 0);
      assert Suggested(from) == Show(0) + "." + Show(n.minor + 1) + "." + Show(0);
    } else {
      ThreeParts(n.major + 1, 0, 0);
      assert Suggested(from) == Show(n.major + 1) + "." + Show(0) + "." + Show(0);
    }
  }

  /** A bump moves the breaking level exactly when it reaches the version suggested, in version order. */
  lemma MovesFromSuggestedOn(from: string, to: string)
    requires Level(from) + 1 < U64_LIMIT
    ensures MovesBreakingLevel(from, to) <==> !NumbersOf(to).Less(NumbersOf(Suggested(from)))
    ensures NumbersOf(from).Less(NumbersOf(Suggested(from)))
  {
    SuggestedReads(from);
    hide NumbersOf, Suggested;
  }
}
