/** Rewriting every version a manifest declares, and the check that they agree. */
module Versions {
  import opened Manifest
  import opened Semver
  import opened Sets
  import opened Text
  import opened Wrappers

  // ---- Reading ----

  predicate IsAnchor(line: string) {
    KEY <= line
  }

  /** The first line that starts with the key and has a quoted version after it. */
  function WorkspaceVersion(lines: seq<string>): Option<string> {
    if lines == [] then None
    else
      var version := if IsAnchor(lines[0]) then Unquote(lines[0][|KEY|..]) else None;
      if version.Some? then version else WorkspaceVersion(lines[1..])
  }

  /** What a dependency line names: the text up to the first ` = `, trimmed. */
  function CrateName(line: string): string {
    var i := IndexOf(line, " = ");
    TrimEnd(TrimStart(if i.Some? then line[..i.value] else line))
  }

  /** The crates whose pin is not the version expected, with what they pin. */
  function Disagreeing(lines: seq<string>, expected: string): seq<(string, string)> {
    if lines == [] then []
    else
      var line := lines[0];
      (if HasPin(line) && PinOf(line).value != expected then [(CrateName(line), PinOf(line).value)] else [])
      + Disagreeing(lines[1..], expected)
  }

  lemma {:induction false} AgreeingIsNone(lines: seq<string>, expected: string)
    ensures Disagreeing(lines, expected) == [] <==>
            forall i :: 0 <= i < |lines| && HasPin(lines[i]) ==> PinOf(lines[i]) == Some(expected)
  {
    if lines != [] {
      assert HasPin(lines[0]) ==> PinOf(lines[0]).Some?;
      hide HasPin, PinOf, CrateName;
      AgreeingIsNone(lines[1..], expected);
      assert forall i :: 1 <= i < |lines| ==> lines[i] == lines[1..][i - 1];
      assert forall i :: 0 <= i < |lines[1..]| ==> lines[1..][i] == lines[i + 1];
    }
  }

  predicate Disagrees(line: string, expected: string) {
    HasPin(line) && PinOf(line) != Some(expected)
  }

  /** The lines whose pin is another, in order, each with the crate it names and what it pins. */
  lemma {:induction false} DisagreeingAre(lines: seq<string>, expected: string)
    returns (at: seq<nat>, wrong: seq<string>)
    ensures TakenAt(lines, at, wrong) && forall i: nat :: i in at <==> i < |lines| && Disagrees(lines[i], expected)
    ensures |Disagreeing(lines, expected)| == |wrong| && forall k :: 0 <= k < |wrong| ==>
              Some(Disagreeing(lines, expected)[k].1) == PinOf(wrong[k])
              && Disagreeing(lines, expected)[k].0 == CrateName(wrong[k])
    decreases |lines|
  {
    if lines == [] {
      at, wrong := [], [];
    } else {
      var rest, others := DisagreeingAre(lines[1..], expected);
      var take := Disagrees(lines[0], expected);
      DisagreeingStep(lines, expected);
      hide Disagreeing, HasPin, PinOf, CrateName, Disagrees;
      TakenWithFirst(lines, rest, others, take);
      at, wrong := if take then [0] + Later(rest) else Later(rest), if take then [lines[0]] + others else others;
      forall i: nat ensures i in at <==> i < |lines| && Disagrees(lines[i], expected) {
        LaterMembers(rest, i);
        assert 0 < i < |lines| ==> lines[i] == lines[1..][i - 1];
      }
    }
  }

  lemma DisagreeingStep(lines: seq<string>, expected: string)
    requires lines != []
    ensures var rest := Disagreeing(lines[1..], expected);
            if Disagrees(lines[0], expected) then
              PinOf(lines[0]).Some?
              && Disagreeing(lines, expected) == [(CrateName(lines[0]), PinOf(lines[0]).value)] + rest
            else Disagreeing(lines, expected) == rest
  {
    hide PinOf, CrateName;
  }

  /** The crate a line names is the word it begins with, white space aside. */
  lemma NamedByLine(space: string, name: string, rest: string)
    requires name != "" && !IsWhite(name[0]) && !IsWhite(name[|name| - 1]) && '=' !in name
    requires forall c <- space :: IsWhite(c)
    ensures CrateName(space + name + " = " + rest) == name
  {
    var line, start := space + name + " = " + rest, space + name;
    var what := " = ";
    assert line[|start|..|start| + 3] == what;
    assert At(line, what, |start|);
    forall j: nat | j < |start| ensures !At(line, what, j) {
      if At(line, what, j) {
        AtReads(line, what, j);
        EqualsIsLater(space, name, rest, j);
      }
    }
    hide At, IndexFrom;
    IndexIs(line, what, |start|);
    assert line[..|start|] == start;
    TrimStartIs(space, name);
    assert TrimEnd(name) == name;
    hide IndexOf, TrimStart, TrimEnd;
  }

  lemma EqualsIsLater(space: string, name: string, rest: string, j: nat)
    requires j < |space + name| && '=' !in name && forall c <- space :: IsWhite(c)
    ensures var line := space + name + " = " + rest; j + 1 < |line| && line[j + 1] != '='
  {
    var line := space + name + " = " + rest;
    if j + 1 < |space| {
      assert line[j + 1] == space[j + 1] && space[j + 1] in space;
    } else if j + 1 < |space| + |name| {
      assert line[j + 1] == name[j + 1 - |space|];
    }
  }

  lemma {:induction false} TrimStartIs(space: string, name: string)
    requires name != "" && !IsWhite(name[0]) && forall c <- space :: IsWhite(c)
    ensures TrimStart(space + name) == name
    decreases |space|
  {
    if space == "" {
      assert space + name == name;
    } else {
      assert space[0] in space && (space + name)[1..] == space[1..] + name;
      TrimStartIs(space[1..], name);
    }
  }

  // ---- Writing ----

  datatype VersionError = NotBare | NoVersionLine

  function VersionLine(new_: string): string {
    KEY + "\"" + new_ + "\""
  }

  function PinLines(lines: seq<string>, new_: string): (r: seq<string>)
    ensures |r| == |lines| && forall i :: 0 <= i < |lines| ==> r[i] == RewritePin(lines[i], new_)
  {
    seq(|lines|, i requires 0 <= i < |lines| => RewritePin(lines[i], new_))
  }

  function FirstAnchor(lines: seq<string>): (r: Option<nat>)
    ensures r.Some? ==> r.value < |lines| && IsAnchor(lines[r.value]) && forall i :: 0 <= i < r.value ==>
              !IsAnchor(lines[i])
    ensures r.None? ==> forall i :: 0 <= i < |lines| ==> !IsAnchor(lines[i])
  {
    if lines == [] then None
    else if IsAnchor(lines[0]) then Some(0)
    else
      var rest := FirstAnchor(lines[1..]);
      if rest.Some? then Some(rest.value + 1) else None
  }

  /** The first line that starts with the key is replaced whole; of every other, only the pin. */
  function SetLines(lines: seq<string>, new_: string): (r: seq<string>)
    ensures |r| == |lines|
    ensures forall i :: 0 <= i < |lines| ==>
              r[i] == if FirstAnchor(lines) == Some(i) then VersionLine(new_) else RewritePin(lines[i], new_)
  {
    var r := PinLines(lines, new_);
    var k := FirstAnchor(lines);
    if k.Some? then r[k.value := VersionLine(new_)] else r
  }

  function SetVersions(manifest: string, new_: string): Result<string, VersionError> {
    if !IsSemver(new_) then Err(NotBare)
    else if FirstAnchor(Lines(manifest)).None? then Err(NoVersionLine)
    else Ok(Rejoin(manifest, SetLines(Lines(manifest), new_)))
  }

  function SetPins(manifest: string, new_: string): Result<string, VersionError> {
    if !IsSemver(new_) then Err(NotBare) else Ok(Rejoin(manifest, PinLines(Lines(manifest), new_)))
  }

  /** `set_versions`: one flag carried through the lines. */
  method WriteVersions(manifest: string, new_: string) returns (result: Result<string, VersionError>)
    ensures result == SetVersions(manifest, new_)
  {
    hide IsAnchor, Lines, IsSemver, RewritePin, Rejoin, VersionLine;
    if !IsSemver(new_) {
      return Err(NotBare);
    }
    var rewrote := false;
    var out := [];
    var lines := Lines(manifest);
    var k := FirstAnchor(lines);
    var i := 0;
    while i < |lines|
      invariant i <= |lines|
      invariant rewrote == (k.Some? && k.value < i)
      invariant out == SetLines(lines, new_)[..i]
    {
      if IsAnchor(lines[i]) && !rewrote {
        rewrote := true;
        out := out + [VersionLine(new_)];
      } else {
        out := out + [RewritePin(lines[i], new_)];
      }
      i := i + 1;
    }
    if !rewrote {
      return Err(NoVersionLine);
    }
    assert out == SetLines(lines, new_);
    result := Ok(Rejoin(manifest, out));
  }

  // ---- What is written is lines again ----

  lemma NewIsClean(version: string)
    requires IsSemver(version)
    ensures version != "" && '\n' !in version && '\r' !in version && '"' !in version
  {
    SemverChars(version);
  }

  predicate Clean(line: string) {
    '\n' !in line && '\r' !in line
  }

  lemma CleanParts(before: string, middle: string, tail: string)
    ensures Clean(before + middle + tail) <==> Clean(before) && Clean(middle) && Clean(tail)
  {
    var all := before + middle + tail;
    assert forall c :: c in all <==> c in before || c in middle || c in tail;
  }

  lemma RewriteIsClean(line: string, version: string)
    requires IsSemver(version) && Clean(line)
    ensures Clean(RewritePin(line, version)) && (line != "" ==> RewritePin(line, version) != "")
  {
    NewIsClean(version);
    if HasPin(line) {
      SameOccurrence(line, version);
      ReadWhole(line);
      CleanParts(Before(line), PinOf(line).value, Tail(line));
      CleanParts(Before(line), version, Tail(line));
      hide PinOf, Before, Tail, HasPin, ReplacePin;
    }
  }

  lemma MappedAreLines(original: string, lines: seq<string>, mapped: seq<string>)
    requires AreLines(original, lines) && |mapped| == |lines|
    requires forall i :: 0 <= i < |lines| ==> Clean(mapped[i]) && (lines[i] != "" ==> mapped[i] != "")
    ensures AreLines(original, mapped)
  {
    forall line | line in mapped ensures Clean(line) {
      var i :| 0 <= i < |mapped| && mapped[i] == line;
    }
  }

  lemma WrittenAreLines(manifest: string, version: string)
    requires '\r' !in manifest && IsSemver(version)
    ensures AreLines(manifest, PinLines(Lines(manifest), version))
    ensures AreLines(manifest, SetLines(Lines(manifest), version))
  {
    hide *;
    var lines := Lines(manifest);
    LinesAreLines(manifest);
    VersionLineIsClean(version);
    var pins, set_ := PinLines(lines, version), SetLines(lines, version);
    forall i | 0 <= i < |lines|
      ensures Clean(RewritePin(lines[i], version)) && (lines[i] != "" ==> RewritePin(lines[i], version) != "")
    {
      CleanLine(manifest, lines, i);
      RewriteIsClean(lines[i], version);
    }
    MappedAreLines(manifest, lines, pins);
    MappedAreLines(manifest, lines, set_);
  }

  lemma VersionLineIsClean(version: string)
    requires IsSemver(version)
    ensures Clean(VersionLine(version)) && VersionLine(version) != ""
  {
    NewIsClean(version);
  }

  lemma CleanLine(original: string, lines: seq<string>, i: nat)
    requires AreLines(original, lines) && i < |lines|
    ensures Clean(lines[i])
  {
    assert lines[i] in lines;
  }

  lemma {:induction false} JoinIsClean(lines: seq<string>)
    requires forall line <- lines :: '\r' !in line
    ensures '\r' !in Join(lines)
  {
    if |lines| > 1 {
      JoinIsClean(lines[1..]);
    }
  }

  /** What is written reads, line by line, as the lines written, and has no carriage returns either. */
  lemma WrittenReads(manifest: string, version: string)
    requires '\r' !in manifest && IsSemver(version)
    ensures var written := Rejoin(manifest, PinLines(Lines(manifest), version));
            '\r' !in written && Lines(written) == PinLines(Lines(manifest), version)
    ensures var written := Rejoin(manifest, SetLines(Lines(manifest), version));
            '\r' !in written && Lines(written) == SetLines(Lines(manifest), version)
            && Terminated(written) == Terminated(manifest)
  {
    WrittenAreLines(manifest, version);
    hide Lines, PinLines, SetLines;
    RejoinReads(manifest, PinLines(Lines(manifest), version));
    RejoinReads(manifest, SetLines(Lines(manifest), version));
    JoinIsClean(PinLines(Lines(manifest), version));
    JoinIsClean(SetLines(Lines(manifest), version));
  }

  // ---- What is set is what is read ----

  /** A pin rewritten is read as the new version, and the line's start is as it was. */
  lemma RewrittenPin(line: string, version: string)
    requires IsSemver(version)
    ensures var r := RewritePin(line, version);
            && (HasPin(r) ==> PinOf(r) == Some(version))
            && (IsAnchor(r) <==> IsAnchor(line))
            && (r == line <==> HasPin(line) ==> PinOf(line) == Some(version))
  {
    if HasPin(line) {
      NewIsClean(version);
      SameOccurrence(line, version);
      PinReadsBack(line, version);
      ReadWhole(line);
      AnchorIsStart(line);
      AnchorIsStart(RewritePin(line, version));
      KeyStays(line, version);
      hide IndexOf, IsAnchor, HasPin, IsWorkspacePathDep, ReplacePin, PinOf, Before, Tail, IsSemver;
      SameMiddle(Before(line), PinOf(line).value, version, Tail(line));
    }
  }

  lemma SameMiddle(before: string, a: string, b: string, tail: string)
    ensures before + a + tail == before + b + tail <==> a == b
  {
    var x, y := before + a + tail, before + b + tail;
    if x == y {
      assert a == x[|before|..|x| - |tail|] && b == y[|before|..|y| - |tail|];
    }
  }

  lemma AnchorIsStart(line: string)
    ensures IsAnchor(line) <==> IndexOf(line, KEY) == Some(0)
  {
    assert At(line, KEY, 0) <==> IsAnchor(line);
    hide IndexFrom;
  }

  lemma {:induction false} VersionAt(lines: seq<string>, k: nat, version: string)
    requires k < |lines| && lines[k] == VersionLine(version) && IsSemver(version)
    requires forall i :: 0 <= i < k ==> !IsAnchor(lines[i])
    ensures WorkspaceVersion(lines) == Some(version)
    decreases k
  {
    if k > 0 {
      VersionAt(lines[1..], k - 1, version);
    } else {
      NewIsClean(version);
      QuotedReads(version, "\"");
      hide Unquote, IsSemver;
      assert VersionLine(version) == KEY + ("\"" + version + "\"");
    }
  }

  lemma AnchorStays(lines: seq<string>, version: string)
    requires IsSemver(version)
    ensures FirstAnchor(SetLines(lines, version)) == FirstAnchor(lines)
  {
    hide RewritePin, IsSemver;
    var set_, k := SetLines(lines, version), FirstAnchor(lines);
    forall i | 0 <= i < |lines| ensures IsAnchor(set_[i]) <==> IsAnchor(lines[i]) {
      RewrittenPin(lines[i], version);
      assert IsAnchor(VersionLine(version));
    }
    hide IsAnchor, SetLines, FirstAnchor;
    var now := FirstAnchor(set_);
    assert k.None? ==> now.None?;
    assert now.None? ==> k.None?;
    assert k.Some? && now.Some? ==> k.value == now.value;
  }

  lemma VersionLineHasNoPin(version: string)
    requires IsSemver(version)
    ensures !HasPin(VersionLine(version))
  {
    MarkersHaveNoDigits();
    assert DOWN in [DOWN, SIDEWAYS] && SIDEWAYS in [DOWN, SIDEWAYS];
    hide IsSemver, PinOf, Contains;
    FoundOutside(KEY + "\"", version, "\"", DOWN);
    FoundOutside(KEY + "\"", version, "\"", SIDEWAYS);
    forall text, what | text in [KEY + "\"", "\""] && what in [DOWN, SIDEWAYS] && Contains(text, what)
      ensures what[0] in text
    {
      FirstFound(text, what);
    }
    assert KEY + "\"" in [KEY + "\"", "\""] && "\"" in [KEY + "\"", "\""];
  }

  lemma FirstFound(text: string, what: string)
    requires what != "" && Contains(text, what)
    ensures what[0] in text
  {
    AtReads(text, what, IndexOf(text, what).value);
  }

  /** After `set`, the manifest declares the new version and no pin disagrees with it. */
  lemma SetThenAgrees(manifest: string, version: string)
    requires '\r' !in manifest && SetVersions(manifest, version).Ok?
    ensures var lines := Lines(SetVersions(manifest, version).value);
            WorkspaceVersion(lines) == Some(version) && Disagreeing(lines, version) == []
  {
    WrittenReads(manifest, version);
    var lines := Lines(manifest);
    var set_, k := SetLines(lines, version), FirstAnchor(lines).value;
    AnchorStays(lines, version);
    hide Lines, HasPin, PinOf, RewritePin, IsSemver, IsAnchor, Rejoin;
    VersionAt(set_, k, version);
    forall i | 0 <= i < |set_| ensures HasPin(set_[i]) ==> PinOf(set_[i]) == Some(version) {
      RewrittenPin(lines[i], version);
      VersionLineHasNoPin(version);
    }
    AgreeingIsNone(set_, version);
  }

  lemma PinsThenAgree(manifest: string, version: string)
    requires '\r' !in manifest && SetPins(manifest, version).Ok?
    ensures Disagreeing(Lines(SetPins(manifest, version).value), version) == []
  {
    WrittenReads(manifest, version);
    var lines := Lines(manifest);
    hide Lines, HasPin, PinOf, RewritePin, IsSemver, Rejoin;
    var set_ := PinLines(lines, version);
    forall i | 0 <= i < |set_| ensures HasPin(set_[i]) ==> PinOf(set_[i]) == Some(version) {
      RewrittenPin(lines[i], version);
    }
    AgreeingIsNone(set_, version);
  }

  /** Of a manifest of pins, only the text between the quotes of a pin changes. */
  lemma OnlyPinsChange(manifest: string, version: string)
    requires '\r' !in manifest && SetPins(manifest, version).Ok?
    ensures var lines, written := Lines(manifest), SetPins(manifest, version).value;
            && |Lines(written)| == |lines| && Terminated(written) == Terminated(manifest)
            && forall i :: 0 <= i < |lines| ==>
                 if HasPin(lines[i]) then
                   Lines(written)[i] == Before(lines[i]) + version + Tail(lines[i])
                   && lines[i] == Before(lines[i]) + PinOf(lines[i]).value + Tail(lines[i])
                 else Lines(written)[i] == lines[i]
  {
    WrittenReads(manifest, version);
    WrittenAreLines(manifest, version);
    RejoinReads(manifest, PinLines(Lines(manifest), version));
    PinsParted(Lines(manifest), version);
    hide Lines, Rejoin, IsSemver, AreLines, Join, HasPin, PinOf, Before, Tail, RewritePin;
  }

  lemma PinsParted(lines: seq<string>, version: string)
    ensures forall i :: 0 <= i < |lines| ==>
              if HasPin(lines[i]) then
                RewritePin(lines[i], version) == Before(lines[i]) + version + Tail(lines[i])
                && lines[i] == Before(lines[i]) + PinOf(lines[i]).value + Tail(lines[i])
              else RewritePin(lines[i], version) == lines[i]
  {
    forall i | 0 <= i < |lines| && HasPin(lines[i])
      ensures RewritePin(lines[i], version) == Before(lines[i]) + version + Tail(lines[i])
      ensures lines[i] == Before(lines[i]) + PinOf(lines[i]).value + Tail(lines[i])
    {
      SameOccurrence(lines[i], version);
      ReadWhole(lines[i]);
    }
    hide PinOf, Before, Tail, ReplacePin, IsWorkspacePathDep;
  }

  /** Only the first line that starts with the key, which is replaced whole, and the text between the
      quotes of a pin change. */
  lemma OnlyVersionsChange(manifest: string, version: string)
    requires '\r' !in manifest && SetVersions(manifest, version).Ok?
    ensures var lines, written := Lines(manifest), SetVersions(manifest, version).value;
            && |Lines(written)| == |lines| && Terminated(written) == Terminated(manifest)
            && forall i :: 0 <= i < |lines| && FirstAnchor(lines) != Some(i) ==>
                 if HasPin(lines[i]) then
                   Lines(written)[i] == Before(lines[i]) + version + Tail(lines[i])
                   && lines[i] == Before(lines[i]) + PinOf(lines[i]).value + Tail(lines[i])
                 else Lines(written)[i] == lines[i]
  {
    WrittenReads(manifest, version);
    PinsParted(Lines(manifest), version);
    hide Lines, Rejoin, IsSemver, IsAnchor, VersionLine, FirstAnchor, HasPin, PinOf, Before, Tail, RewritePin;
  }

  /** That line is the key and the version, and nothing else. */
  lemma AnchoredLine(manifest: string, version: string)
    requires '\r' !in manifest && SetVersions(manifest, version).Ok?
    ensures var i, now := FirstAnchor(Lines(manifest)), Lines(SetVersions(manifest, version).value);
            i.Some? && i.value < |now| && now[i.value] == "version = \"" + version + "\""
  {
    WrittenReads(manifest, version);
    VersionLineIs(version);
    hide Lines, Rejoin, IsSemver, VersionLine, IsAnchor;
  }

  lemma VersionLineIs(version: string)
    ensures VersionLine(version) == "version = \"" + version + "\""
  {
  }

  /** A manifest is left as it is exactly when it declares the version already, alone on its line, and
      no pin disagrees. */
  lemma UnchangedWhenSet(manifest: string, version: string)
    requires '\r' !in manifest && SetVersions(manifest, version).Ok?
    ensures var lines := Lines(manifest);
            SetVersions(manifest, version).value == manifest
            <==> lines[FirstAnchor(lines).value] == VersionLine(version) && Disagreeing(lines, version) == []
  {
    WrittenReads(manifest, version);
    RejoinLines(manifest);
    var lines := Lines(manifest);
    var set_, k := SetLines(lines, version), FirstAnchor(lines).value;
    VersionLineHasNoPin(version);
    AgreeingIsNone(lines, version);
    hide Lines, Rejoin, IsSemver, IsAnchor, VersionLine, FirstAnchor, RewritePin, Disagreeing, HasPin, PinOf, SetLines;
    forall i | 0 <= i < |lines| && k != i
      ensures set_[i] == lines[i] <==> HasPin(lines[i]) ==> PinOf(lines[i]) == Some(version)
    {
      RewrittenPin(lines[i], version);
    }
    assert (set_ == lines) <==> forall i :: 0 <= i < |lines| ==> set_[i] == lines[i];
    assert set_[k] == VersionLine(version);
  }

  /** A comment after the workspace's version goes with the line, whatever it says. */
  lemma CommentIsLost(comment: string, version: string)
    requires IsSemver(version) && Clean(comment)
    ensures var manifest := VersionLine("0.1.0") + " # " + comment;
            '#' in manifest && SetVersions(manifest, version) == Ok(VersionLine(version))
                && '#' !in VersionLine(version)
  {
    var line := VersionLine("0.1.0");
    var manifest := line + " # " + comment;
    assert manifest[|line| + 1] == '#' && KEY <= line <= manifest;
    NoHash(version);
    CleanLine3(line, " # ", comment);
    OneLine(manifest, version);
    hide VersionLine, IsSemver, SetVersions;
  }

  lemma NoHash(version: string)
    requires IsSemver(version)
    ensures '#' !in VersionLine(version)
  {
    SemverChars(version);
    hide IsSemver;
    assert '#' !in KEY + "\"";
  }

  lemma CleanLine3(line: string, hash: string, comment: string)
    requires line == VersionLine("0.1.0") && hash == " # " && Clean(comment)
    ensures Clean(line + hash + comment)
  {
    assert Clean(KEY) && Clean("\"") && Clean("0.1.0") && Clean(hash);
    CleanParts(KEY, "\"", "0.1.0" + "\"");
    CleanParts("0.1.0", "\"", "");
    assert "0.1.0" + "\"" + "" == "0.1.0" + "\"" && line == KEY + "\"" + ("0.1.0" + "\"");
    CleanParts(line, hash, comment);
  }

  /** A manifest of the one line is set to that line. */
  lemma OneLine(line: string, version: string)
    requires Clean(line) && KEY <= line && IsSemver(version)
    ensures SetVersions(line, version) == Ok(VersionLine(version))
  {
    LinesOfLast(line);
    hide Lines, IsSemver, RewritePin;
    assert IsAnchor(line) && line != "";
    NotTerminated(line);
    FirstIsSet(line, version);
    assert Join([VersionLine(version)]) == VersionLine(version);
    assert Rejoin(line, [VersionLine(version)]) == VersionLine(version);
    assert Lines(line) == [line] && FirstAnchor(Lines(line)).Some?;
    assert SetVersions(line, version) == Ok(Rejoin(line, SetLines(Lines(line), version)));
  }

  lemma FirstIsSet(line: string, version: string)
    requires IsAnchor(line)
    ensures FirstAnchor([line]) == Some(0) && SetLines([line], version) == [VersionLine(version)]
  {
    hide IsAnchor, RewritePin, VersionLine;
    assert [line][0] == line;
    assert FirstAnchor([line]) == Some(0);
  }

  lemma NotTerminated(line: string)
    requires Clean(line)
    ensures !Terminated(line)
  {
    if line != "" {
      assert line[|line| - 1] in line;
    }
  }

  // ---- Setting twice ----

  lemma RewriteTwice(line: string, a: string, b: string)
    requires IsSemver(a) && IsSemver(b)
    ensures RewritePin(RewritePin(line, a), b) == RewritePin(line, b) <==> a == b || Steady(line)
  {
    if HasPin(line) {
      NewIsClean(a);
      SameOccurrence(line, a);
      SameOccurrence(line, b);
      PinReadsBack(line, a);
      StillADep(line, a);
      SameOccurrence(RewritePin(line, a), b);
      SameMiddle(Before(line), a, b, Tail(line));
      hide PinOf, Before, Tail, ReplacePin, IsSemver, IsWorkspacePathDep, PathOutsidePin;
    }
  }

  lemma LinesTwice(lines: seq<string>, a: string, b: string)
    requires IsSemver(a) && IsSemver(b)
    ensures SetLines(SetLines(lines, a), b) == SetLines(lines, b)
            <==> a == b || forall i :: 0 <= i < |lines| && FirstAnchor(lines) != Some(i) ==> Steady(lines[i])
  {
    hide *;
    AnchorStays(lines, a);
    var x, y := SetLines(SetLines(lines, a), b), SetLines(lines, b);
    forall i | 0 <= i < |lines|
      ensures x[i] == y[i] <==> FirstAnchor(lines) == Some(i) || a == b || Steady(lines[i])
    {
      RewriteTwice(lines[i], a, b);
    }
    assert (x == y) <==> forall i :: 0 <= i < |lines| ==> x[i] == y[i];
  }

  /** Setting one version and then another is setting the other, exactly when it is the same one or no
      line's path runs into its pin. */
  lemma SetTwice(manifest: string, a: string, b: string)
    requires '\r' !in manifest && SetVersions(manifest, a).Ok? && IsSemver(b)
    ensures var lines := Lines(manifest);
            SetVersions(SetVersions(manifest, a).value, b) == SetVersions(manifest, b)
            <==> a == b || forall i :: 0 <= i < |lines| && FirstAnchor(lines) != Some(i) ==> Steady(lines[i])
  {
    var lines, once := Lines(manifest), SetVersions(manifest, a).value;
    WrittenReads(manifest, a);
    WrittenReads(manifest, b);
    WrittenReads(once, b);
    AnchorStays(lines, a);
    LinesTwice(lines, a, b);
    hide Lines, SetLines, FirstAnchor, PinLines, IsSemver, Steady, Join;
  }

  /** Its path starts inside the pin's quotes: setting a version takes it away. */
  function PathInPin(): string {
    QUOTED_KEY + "path = " + "\"crates/x\""
  }

  lemma RunsIntoPin()
    ensures HasPin(PathInPin()) && !Steady(PathInPin())
  {
    var pin, tail := "path = ", "\"crates/x\"";
    assert '"' !in pin && tail[0] == '"' && DOWN <= pin + tail && 'p' !in tail;
    hide PinOf, Before, Tail, Contains, IsWorkspacePathDep;
    PinIs(pin, tail);
    PathRunsIn(pin, tail);
    NoPathIn(tail);
  }

  lemma TwoLines(first: string, second: string)
    requires Clean(first) && Clean(second) && second != ""
    ensures '\r' !in first + "\n" + second && Lines(first + "\n" + second) == [first, second]
  {
    LinesOfLine(first, second);
    LinesOfLast(second);
    hide Lines;
  }

  lemma RunningInDiffers(manifest: string, key: string, line: string, a: string, b: string)
    requires '\r' !in manifest && Lines(manifest) == [key, line] && IsAnchor(key) && !Steady(line)
    requires IsSemver(a) && IsSemver(b) && a != b
    ensures SetVersions(manifest, a).Ok? && SetVersions(SetVersions(manifest, a).value, b) != SetVersions(manifest, b)
  {
    hide Lines, Rejoin, IsAnchor, IsSemver, Steady;
    assert FirstAnchor([key, line]) == Some(0);
    assert !Steady([key, line][1]);
    SetTwice(manifest, a, b);
  }

  /** A manifest with that line, set to one version and then to another, is not set to the other: its
      pin stays at the first. */
  lemma SetTwiceDiffers(a: string, b: string)
    requires IsSemver(a) && IsSemver(b) && a != b
    ensures exists manifest: string ::
              && '\r' !in manifest && SetVersions(manifest, a).Ok?
              && SetVersions(SetVersions(manifest, a).value, b) != SetVersions(manifest, b)
  {
    hide Steady, HasPin, SetVersions, IsSemver, Lines;
    RunsIntoPin();
    VersionLineIsClean(a);
    var key, line := VersionLine(a), PathInPin();
    TwoLines(key, line);
    RunningInDiffers(key + "\n" + line, key, line, a, b);
  }

  lemma PathRunsIn(pin: string, tail: string)
    requires DOWN <= pin + tail
    ensures IsWorkspacePathDep(QUOTED_KEY + pin + tail)
  {
    hide Contains;
    PartFound(QUOTED_KEY, DOWN, (pin + tail)[|DOWN|..], DOWN);
    assert Contains(DOWN, DOWN) by {
      FoundInPart(DOWN, 0, |DOWN|, DOWN, 0);
      assert DOWN[0..|DOWN|] == DOWN;
    }
    assert QUOTED_KEY + DOWN + (pin + tail)[|DOWN|..] == QUOTED_KEY + pin + tail;
  }

  lemma NoPathIn(tail: string)
    requires 'p' !in tail
    ensures !IsWorkspacePathDep(QUOTED_KEY) && !IsWorkspacePathDep(tail)
  {
    hide Contains;
    forall text, what | text in [QUOTED_KEY, tail] && what in [DOWN, SIDEWAYS] && Contains(text, what)
      ensures 'p' in text
    {
      FirstFound(text, what);
    }
    assert QUOTED_KEY in [QUOTED_KEY, tail] && tail in [QUOTED_KEY, tail];
    assert DOWN in [DOWN, SIDEWAYS] && SIDEWAYS in [DOWN, SIDEWAYS];
  }

  lemma PinIs(pin: string, tail: string)
    requires '"' !in pin && tail != "" && tail[0] == '"'
    ensures var line := QUOTED_KEY + pin + tail;
            PinOf(line) == Some(pin) && Before(line) == QUOTED_KEY && Tail(line) == tail
  {
    var line := QUOTED_KEY + pin + tail;
    assert line == KEY + ("\"" + pin + tail);
    IndexIs(line, KEY, 0);
    QuotedReads(pin, tail);
    assert line[|KEY|..] == "\"" + pin + tail;
    hide IndexOf, Unquote;
  }
}
