/** The versions a manifest declares: the workspace's own, and the pins between its crates. */
module Manifest {
  import opened Decimal
  import opened Semver
  import opened Text
  import opened Wrappers

  const KEY := "version = "
  const QUOTED_KEY := "version = \""
  const DOWN := "path = \"crates/"
  const SIDEWAYS := "path = \"../"

  // ---- One line ----

  function Unquote(text: string): Option<string> {
    if text == "" || text[0] != '"' then None
    else
      var k := IndexOfChar(text[1..], '"');
      if k.Some? then Some(text[1..][..k.value]) else None
  }

  predicate IsWorkspacePathDep(line: string) {
    Contains(line, DOWN) || Contains(line, SIDEWAYS)
  }

  /** Reading looks for the key and then for a quote after it. */
  function PinOf(line: string): Option<string> {
    var i := IndexOf(line, KEY);
    if i.None? then None else Unquote(line[i.value + |KEY|..])
  }

  /** Writing looks for the key with its quote. */
  function ReplacePin(line: string, new_: string): string {
    var i := IndexOf(line, QUOTED_KEY);
    if i.None? then line
    else
      var after := line[i.value + |QUOTED_KEY|..];
      var k := IndexOfChar(after, '"');
      if k.None? then line
      else line[..i.value] + QUOTED_KEY + new_ + "\"" + after[k.value + 1..]
  }

  predicate HasPin(line: string) {
    IsWorkspacePathDep(line) && PinOf(line).Some?
  }

  function RewritePin(line: string, new_: string): string {
    if HasPin(line) then ReplacePin(line, new_) else line
  }

  /** The line up to its pin, and from the pin's closing quote on. */
  function Before(line: string): string
    requires PinOf(line).Some?
  {
    line[..IndexOf(line, KEY).value + |QUOTED_KEY|]
  }

  function Tail(line: string): string
    requires PinOf(line).Some?
  {
    line[|Before(line)| + |PinOf(line).value|..]
  }

  /** From `i` on the line has the key and this text in quotes, and the key nowhere before. */
  ghost predicate PinAt(line: string, i: nat, pin: string) {
    At(line, "version = \"" + pin + "\"", i) && '"' !in pin && forall j: nat :: j < i ==> !At(line, "version = ", j)
  }

  /** What is read is what stands in quotes right after the first `version = `, and it is a pin where the
      line has the path of a crate of the workspace. */
  lemma PinIs(line: string, pin: string)
    ensures PinOf(line) == Some(pin) <==> exists i: nat :: PinAt(line, i, pin)
    ensures HasPin(line) <==>
              && PinOf(line).Some?
              && exists i: nat :: At(line, "path = \"crates/", i) || At(line, "path = \"../", i)
  {
    hide IndexFrom, Unquote;
    if PinOf(line) == Some(pin) {
      PinParts(line);
      var i := IndexOf(line, KEY).value;
      var what, n := "version = \"" + pin + "\"", i + |QUOTED_KEY|;
      assert line[i..i + |what|] == line[i..i + |KEY|] + [line[i + |KEY|]] + line[n..n + |pin|] + [line[n + |pin|]];
      assert what == KEY + ['"'] + pin + ['"'];
      assert PinAt(line, i, pin);
    }
    if i: nat :| PinAt(line, i, pin) {
      PinReadAt(line, i, pin);
    }
    DepIs(line);
  }

  lemma DepIs(line: string)
    ensures IsWorkspacePathDep(line) <==>
              exists i: nat :: At(line, "path = \"crates/", i) || At(line, "path = \"../", i)
  {
    hide At, IndexFrom;
  }

  lemma PinReadAt(line: string, i: nat, pin: string)
    requires PinAt(line, i, pin)
    ensures PinOf(line) == Some(pin)
  {
    var what := "version = \"" + pin + "\"";
    assert what == KEY + ("\"" + pin + "\"");
    var found := line[i..i + |what|];
    assert found[..|KEY|] == KEY && line[i..i + |KEY|] == found[..|KEY|];
    assert At(line, KEY, i);
    IndexIs(line, KEY, i);
    var rest, after := line[i + |KEY|..], line[i + |what|..];
    assert line[i + |KEY|..i + |what|] == found[|KEY|..] == "\"" + pin + "\"";
    assert rest == "\"" + pin + ("\"" + after);
    hide IndexOf, Unquote, At;
    QuotedReads(pin, "\"" + after);
  }

  lemma UnquoteParts(text: string)
    requires Unquote(text).Some?
    ensures var quoted := Unquote(text).value;
            && |quoted| + 2 <= |text| && text[0] == '"' && text[1..1 + |quoted|] == quoted
            && text[1 + |quoted|] == '"' && '"' !in quoted
  {
  }

  lemma ReadWhole(line: string)
    requires PinOf(line).Some?
    ensures line == Before(line) + PinOf(line).value + Tail(line)
    ensures Tail(line) != "" && Tail(line)[0] == '"' && '"' !in PinOf(line).value
    ensures Before(line) == line[..IndexOf(line, KEY).value] + QUOTED_KEY
  {
    PinParts(line);
    hide IndexOf, Unquote, PinOf;
    Glued(line, IndexOf(line, KEY).value, PinOf(line).value);
  }

  /** Where the key, the quotes and the pin are. */
  lemma PinParts(line: string)
    requires PinOf(line).Some?
    ensures var i, pin := IndexOf(line, KEY).value, PinOf(line).value;
            var n := i + |QUOTED_KEY|;
            && IndexOf(line, KEY).Some? && n + |pin| < |line| && line[i..i + |KEY|] == KEY && line[i + |KEY|] == '"'
            && line[n..n + |pin|] == pin && line[n + |pin|] == '"' && '"' !in pin
  {
    var i, pin := IndexOf(line, KEY).value, PinOf(line).value;
    assert At(line, KEY, i);
    UnquoteParts(line[i + |KEY|..]);
    hide IndexOf, Unquote;
    SliceAgain(line, i + |KEY|, 1, 1 + |pin|);
    assert line[i + |KEY|..][1 + |pin|] == line[i + |KEY| + 1 + |pin|];
  }

  lemma Glued(line: string, i: nat, pin: string)
    requires i + |QUOTED_KEY| + |pin| < |line| && line[i..i + |KEY|] == KEY && line[i + |KEY|] == '"'
    requires line[i + |QUOTED_KEY|..i + |QUOTED_KEY| + |pin|] == pin
    ensures var n := i + |QUOTED_KEY|;
            line[..n] == line[..i] + QUOTED_KEY && line == line[..n] + pin + line[n + |pin|..]
  {
    var n := i + |QUOTED_KEY|;
    assert line[..n] == line[..i] + line[i..i + |KEY|] + [line[i + |KEY|]];
  }

  lemma SliceAgain(line: string, k: nat, a: nat, b: nat)
    requires a <= b && k + b <= |line|
    ensures line[k..][a..b] == line[k + a..k + b]
  {
  }

  lemma KeyInQuotedKey(line: string, i: nat)
    ensures At(line, QUOTED_KEY, i) <==> At(line, KEY, i) && i + |KEY| < |line| && line[i + |KEY|] == '"'
  {
    if i + |QUOTED_KEY| <= |line| {
      assert line[i..i + |QUOTED_KEY|] == line[i..i + |KEY|] + [line[i + |KEY|]];
      assert QUOTED_KEY == KEY + ['"'];
      assert line[i..i + |QUOTED_KEY|][..|KEY|] == line[i..i + |KEY|];
    }
  }

  /** Reading and writing find the same occurrence, so that only the quoted text is replaced. */
  lemma SameOccurrence(line: string, new_: string)
    requires PinOf(line).Some?
    ensures ReplacePin(line, new_) == Before(line) + new_ + Tail(line)
  {
    var i, pin := IndexOf(line, KEY).value, PinOf(line).value;
    ReadWhole(line);
    AfterKey(line);
    QuotedKeyFound(line);
    ReplacedAt(line, new_, i, |pin|);
    hide *;
    Regrouped(line[..i] + QUOTED_KEY + new_, "\"", line[i + |QUOTED_KEY|..][|pin| + 1..]);
  }

  lemma ReplacedAt(line: string, new_: string, i: nat, k: nat)
    requires IndexOf(line, QUOTED_KEY) == Some(i) && i + |QUOTED_KEY| <= |line|
    requires IndexOfChar(line[i + |QUOTED_KEY|..], '"') == Some(k)
    ensures ReplacePin(line, new_) == line[..i] + QUOTED_KEY + new_ + "\"" + line[i + |QUOTED_KEY|..][k + 1..]
  {
    hide IndexOf, IndexOfChar;
  }

  lemma Regrouped(a: string, b: string, c: string)
    ensures a + b + c == a + (b + c)
  {
  }

  lemma QuotedKeyFound(line: string)
    requires PinOf(line).Some?
    ensures IndexOf(line, QUOTED_KEY) == IndexOf(line, KEY)
  {
    var i := IndexOf(line, KEY).value;
    AfterKey(line);
    hide At, IndexOf, IndexOfChar, PinOf, Tail, Unquote;
    KeyInQuotedKey(line, i);
    forall j: nat | j < i ensures !At(line, QUOTED_KEY, j) {
      KeyInQuotedKey(line, j);
    }
    IndexIs(line, QUOTED_KEY, i);
  }

  lemma AfterKey(line: string)
    requires PinOf(line).Some?
    ensures var i, pin := IndexOf(line, KEY).value, PinOf(line).value;
            && i + |QUOTED_KEY| <= |line| && line[i + |KEY|] == '"' && At(line, KEY, i)
                && (forall j: nat :: j < i ==> !At(line, KEY, j))
            && IndexOfChar(line[i + |QUOTED_KEY|..], '"') == Some(|pin|)
            && "\"" + line[i + |QUOTED_KEY|..][|pin| + 1..] == Tail(line)
  {
    var i := IndexOf(line, KEY).value;
    var rest := line[i + |KEY|..];
    assert rest[1..] == line[i + |QUOTED_KEY|..];
    hide IndexOf;
  }

  lemma SameStart(a: string, b: string, what: string, j: nat, n: nat)
    requires n <= |a| && n <= |b| && a[..n] == b[..n] && j + |what| <= n
    ensures At(a, what, j) <==> At(b, what, j)
  {
    assert a[j..j + |what|] == a[..n][j..j + |what|] == b[j..j + |what|];
  }

  /** A line whose pin is replaced by something without a quote has that for its pin. */
  lemma PinReadsBack(line: string, new_: string)
    requires PinOf(line).Some? && '"' !in new_
    ensures var r := Before(line) + new_ + Tail(line);
            PinOf(r) == Some(new_) && Before(r) == Before(line) && Tail(r) == Tail(line)
  {
    var r := Before(line) + new_ + Tail(line);
    var i := IndexOf(line, KEY).value;
    ReadWhole(line);
    KeyStays(line, new_);
    assert r[i + |KEY|..] == "\"" + new_ + Tail(line) by {
      hide *;
      assert r == line[..i] + KEY + ("\"" + new_ + Tail(line));
    }
    QuotedReads(new_, Tail(line));
    hide IndexOf, Unquote;
    assert r[..i + |QUOTED_KEY|] == Before(line);
  }

  lemma QuotedReads(inner: string, tail: string)
    requires '"' !in inner && tail != "" && tail[0] == '"'
    ensures Unquote("\"" + inner + tail) == Some(inner)
  {
    CharFound(inner, '"', tail[1..]);
    assert ("\"" + inner + tail)[1..] == inner + "\"" + tail[1..];
    hide IndexOfChar;
  }

  lemma KeyStays(line: string, new_: string)
    requires PinOf(line).Some?
    ensures IndexOf(Before(line) + new_ + Tail(line), KEY) == IndexOf(line, KEY)
  {
    var r := Before(line) + new_ + Tail(line);
    var i := IndexOf(line, KEY).value;
    ReadWhole(line);
    assert r[..i + |QUOTED_KEY|] == Before(line);
    hide At, IndexOf, PinOf, Tail;
    forall j: nat | j <= i ensures At(r, KEY, j) <==> At(line, KEY, j) {
      SameStart(r, line, KEY, j, i + |QUOTED_KEY|);
    }
    IndexIs(r, KEY, i);
  }

  // ---- A line rewritten twice ----

  /** What names the crate by path stands clear of the text that is replaced. */
  predicate PathOutsidePin(line: string)
    requires PinOf(line).Some?
  {
    IsWorkspacePathDep(Before(line)) || IsWorkspacePathDep(Tail(line))
  }

  predicate Steady(line: string) {
    HasPin(line) ==> PathOutsidePin(line)
  }

  /** Something without digits that starts with a letter is not found across a version. */
  lemma NotAcross(before: string, version: string, tail: string, what: string, p: nat)
    requires IsSemver(version) && At(before + version + tail, what, p)
    requires what != "" && !IsDigit(what[0]) && what[0] != '.' && forall c <- what :: !IsDigit(c)
    ensures p + |what| <= |before| || |before| + |version| <= p <= p + |what| <= |before + version + tail|
  {
    SemverChars(version);
    var all, s, e := before + version + tail, |before|, |before| + |version|;
    AtReads(all, what, p);
    assert forall k :: s <= k < e ==> all[k] == version[k - s];
    assert all[p] == what[0] && all[s] == version[0];
    hide *;
  }

  lemma FoundOutside(before: string, version: string, tail: string, what: string)
    requires IsSemver(version)
    requires what != "" && !IsDigit(what[0]) && what[0] != '.' && forall c <- what :: !IsDigit(c)
    ensures Contains(before + version + tail, what) <==> Contains(before, what) || Contains(tail, what)
  {
    hide IsSemver, IndexOf, IsDigit, At;
    var all, e := before + version + tail, |before| + |version|;
    if Contains(all, what) {
      var p := IndexOf(all, what).value;
      NotAcross(before, version, tail, what, p);
      if p + |what| <= |before| {
        FoundInPart(all, 0, |before|, what, p);
        assert all[..|before|] == before;
      } else {
        FoundInPart(all, e, |all|, what, p);
        assert all[e..] == tail;
      }
    }
    PartFound("", before, version + tail, what);
    PartFound(before + version, tail, "", what);
    assert "" + before + (version + tail) == all && before + version + tail + "" == all;
  }

  lemma MarkersHaveNoDigits()
    ensures forall what <- [DOWN, SIDEWAYS] ::
              what != "" && !IsDigit(what[0]) && what[0] != '.' && forall c <- what :: !IsDigit(c)
  {
    assert forall i :: 0 <= i < |DOWN| ==> !IsDigit(DOWN[i]);
    assert forall i :: 0 <= i < |SIDEWAYS| ==> !IsDigit(SIDEWAYS[i]);
  }

  /** A rewritten line still names a crate by path exactly when the path stands clear of the pin. */
  lemma StillADep(line: string, version: string)
    requires PinOf(line).Some? && IsSemver(version)
    ensures IsWorkspacePathDep(Before(line) + version + Tail(line)) <==> PathOutsidePin(line)
  {
    hide IsSemver, PinOf, Before, Tail, Contains;
    MarkersHaveNoDigits();
    assert DOWN in [DOWN, SIDEWAYS] && SIDEWAYS in [DOWN, SIDEWAYS];
    FoundOutside(Before(line), version, Tail(line), DOWN);
    FoundOutside(Before(line), version, Tail(line), SIDEWAYS);
  }
}
