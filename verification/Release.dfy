/** `cargo xtask version`: every declaration of a version moved at once, and the checks that come after. */
module Release {
  import opened BumpLevel
  import opened CivilDate
  import opened Decimal
  import opened Semver
  import opened Versions
  import opened Text
  import opened Wrappers

  // ---- The date in the heading ----

  function Zeros(n: nat): string {
    if n == 0 then "" else "0" + Zeros(n - 1)
  }

  function Padded(n: nat, width: nat): string {
    var digits := Show(n);
    Zeros(if |digits| < width then width - |digits| else 0) + digits
  }

  lemma {:induction false} ZerosAddNothing(n: nat, s: string)
    requires AllDigits(s)
    ensures |Zeros(n)| == n && AllDigits(Zeros(n) + s) && Value(Zeros(n) + s) == Value(s)
    decreases n + |s|
  {
    if s != "" {
      ZerosAddNothing(n, s[..|s| - 1]);
      assert (Zeros(n) + s)[..n + |s| - 1] == Zeros(n) + s[..|s| - 1];
    } else if n > 0 {
      ZerosAddNothing(n - 1, "");
      var zeros := Zeros(n);
      assert zeros + "" == zeros && Zeros(n - 1) + "" == Zeros(n - 1);
      ZerosFromTheEnd(n);
    }
  }

  lemma {:induction false} ZerosFromTheEnd(n: nat)
    requires n > 0
    ensures Zeros(n) == Zeros(n - 1) + "0"
  {
    if n > 1 {
      ZerosFromTheEnd(n - 1);
      assert Zeros(n) == "0" + (Zeros(n - 2) + "0");
    }
  }

  function Power(n: nat): nat {
    if n == 0 then 1 else 10 * Power(n - 1)
  }

  lemma {:induction false} ShowLength(n: nat, width: nat)
    requires width > 0 && n < Power(width)
    ensures |Show(n)| <= width
  {
    if n >= 10 {
      assert Power(width) == 10 * Power(width - 1);
      if width > 1 {
        ShowLength(n / 10, width - 1);
      }
    }
  }

  lemma PaddedReads(n: nat, width: nat)
    requires width > 0
    ensures AllDigits(Padded(n, width)) && Value(Padded(n, width)) == n
    ensures n < Power(width) ==> |Padded(n, width)| == width
  {
    ShowReads(n);
    var digits := Show(n);
    ZerosAddNothing(if |digits| < width then width - |digits| else 0, digits);
    if n < Power(width) {
      ShowLength(n, width);
    }
  }

  lemma {:induction false} SinceTheEpoch(days: nat)
    ensures CivilFromDays(days).year >= 1970
  {
    hide CivilFromDays;
    if days == 0 {
      DayZero();
    } else {
      SinceTheEpoch(days - 1);
      CivilIsTheCalendar(days - 1);
    }
  }

  /** `today`, on a clock that is that many days past the epoch. */
  function Today(days: nat): string {
    var date := CivilFromDays(days);
    assert date.year >= 0 && date.month >= 0 && date.day >= 0 by {
      SinceTheEpoch(days);
      CivilIsTheCalendar(days);
    }
    Padded(date.year, 4) + "-" + Padded(date.month, 2) + "-" + Padded(date.day, 2)
  }

  /** The full-date of section 5.6 of RFC 3339, which reads back as the calendar's date. */
  lemma TodayReads(days: nat) returns (year: string, month: string, day: string)
    ensures Today(days) == year + "-" + month + "-" + day
    ensures AllDigits(year) && AllDigits(month) && AllDigits(day) && |month| == |day| == 2
    ensures Date(Value(year), Value(month), Value(day)) == CivilFromDays(days)
    ensures CivilFromDays(days).year <= 9999 ==> |year| == 4
    ensures '\n' !in Today(days) && '\r' !in Today(days)
  {
    hide CivilFromDays;
    var date := CivilFromDays(days);
    SinceTheEpoch(days);
    CivilIsTheCalendar(days);
    assert Power(4) == 10 * Power(3) == 100 * Power(2) == 10000;
    assert Power(2) == 10 * Power(1) == 100;
    year, month, day := Padded(date.year, 4), Padded(date.month, 2), Padded(date.day, 2);
    PaddedReads(date.year, 4);
    PaddedReads(date.month, 2);
    PaddedReads(date.day, 2);
    hide Padded, Value, Power;
  }

  // ---- The published document's version ----

  const INFO := "    \"version\": \""

  predicate IsInfoVersion(line: string) {
    INFO <= line && EndsWith(TrimEnd(line), "\",")
  }

  function InfoLine(new_: string): string {
    INFO + new_ + "\","
  }

  function InfoLines(lines: seq<string>): nat {
    if lines == [] then 0 else (if IsInfoVersion(lines[0]) then 1 else 0) + InfoLines(lines[1..])
  }

  function SpecLines(lines: seq<string>, new_: string): (r: seq<string>)
    ensures |r| == |lines|
    ensures forall i :: 0 <= i < |lines| ==> r[i] == if IsInfoVersion(lines[i]) then InfoLine(new_) else lines[i]
  {
    seq(|lines|, i requires 0 <= i < |lines| => if IsInfoVersion(lines[i]) then InfoLine(new_) else lines[i])
  }

  /** `set_spec_version`: refused unless exactly one line is the one meant. */
  function SetSpec(spec: string, new_: string): Option<string> {
    if InfoLines(Lines(spec)) != 1 then None else Some(Rejoin(spec, SpecLines(Lines(spec), new_)))
  }

  lemma InfoLineIsInfo(new_: string)
    ensures IsInfoVersion(InfoLine(new_))
  {
    var line := InfoLine(new_);
    assert line[|line| - 1] == ',' && line[|line| - 2..] == "\",";
    assert TrimEnd(line) == line;
  }

  lemma {:induction false} AsManyInfoLines(a: seq<string>, b: seq<string>)
    requires |a| == |b| && forall i :: 0 <= i < |a| ==> IsInfoVersion(a[i]) == IsInfoVersion(b[i])
    ensures InfoLines(a) == InfoLines(b)
  {
    hide IsInfoVersion;
    if a != [] {
      AsManyInfoLines(a[1..], b[1..]);
    }
  }

  /** The document set to one version and then another is the document set to the other. */
  lemma SpecSetTwice(spec: string, a: string, b: string)
    requires '\r' !in spec && IsSemver(a) && SetSpec(spec, a).Some?
    ensures SetSpec(SetSpec(spec, a).value, b) == SetSpec(spec, b)
  {
    hide Lines, IsInfoVersion, IsSemver, InfoLines;
    var lines := Lines(spec);
    var once := SpecLines(lines, a);
    InfoLineIsInfo(a);
    AsManyInfoLines(lines, once);
    assert SpecLines(once, b) == SpecLines(lines, b);
    SpecLinesAreLines(spec, a);
    RejoinReads(spec, once);
    hide SpecLines, Join;
  }

  lemma InfoLineIsClean(version: string)
    requires IsSemver(version)
    ensures Clean(InfoLine(version)) && InfoLine(version) != ""
  {
    NewIsClean(version);
    CleanParts(INFO, version, "\",");
  }

  lemma SpecLinesAreLines(spec: string, version: string)
    requires '\r' !in spec && IsSemver(version)
    ensures AreLines(spec, SpecLines(Lines(spec), version))
  {
    hide *;
    LinesAreLines(spec);
    InfoLineIsClean(version);
    var lines := Lines(spec);
    forall i | 0 <= i < |lines| ensures Clean(lines[i]) {
      CleanLine(spec, lines, i);
    }
    MappedAreLines(spec, lines, SpecLines(lines, version));
  }

  // ---- What the document declares ----

  const ANCHOR := "    \"version\": \""

  /** The version a line of the document declares: what stands between the anchor and the next quote,
      after which only a comma follows. */
  function VersionRead(line: string): Option<string> {
    if !(ANCHOR <= line) then None
    else
      var k := IndexOfChar(line[|ANCHOR|..], '"');
      if k.Some? && line[|ANCHOR| + k.value + 1..] == "," then Some(line[|ANCHOR|..|ANCHOR| + k.value]) else None
  }

  /** A line starts and, but for white space, ends as the one meant. */
  ghost predicate LooksMeant(line: string) {
    ANCHOR <= line && exists n: nat :: EndsBefore(line, n)
  }

  /** Before the last `n` characters, all white space, the line ends in a quote and a comma. */
  ghost predicate EndsBefore(line: string, n: nat) {
    && n + 2 <= |line|
    && line[|line| - n - 2] == '"' && line[|line| - n - 1] == ','
    && forall k :: |line| - n <= k < |line| ==> IsWhite(line[k])
  }

  /** One line, the only one of its kind, declares the version; every other line, and how the last one
      ends, is as it was. */
  ghost predicate Declares(spec: string, written: string, version: string) {
    exists i: nat :: DeclaresAt(Lines(spec), Lines(written), version, i) && Terminated(written) == Terminated(spec)
  }

  ghost predicate DeclaresAt(was: seq<string>, now: seq<string>, version: string, i: nat) {
    && i < |was| == |now|
    && LooksMeant(was[i]) && VersionRead(now[i]) == Some(version)
    && forall j :: 0 <= j < |was| && j != i ==> !LooksMeant(was[j]) && now[j] == was[j]
  }

  ghost predicate OnlyMeant(lines: seq<string>, i: nat) {
    i < |lines| && LooksMeant(lines[i]) && forall j :: 0 <= j < |lines| && j != i ==> !LooksMeant(lines[j])
  }

  lemma {:induction false} TrimEndStops(s: string)
    ensures |TrimEnd(s)| <= |s| && TrimEnd(s) == s[..|TrimEnd(s)|]
    ensures forall k :: |TrimEnd(s)| <= k < |s| ==> IsWhite(s[k])
    ensures TrimEnd(s) != "" ==> !IsWhite(TrimEnd(s)[|TrimEnd(s)| - 1])
    decreases |s|
  {
    if s != "" && IsWhite(s[|s| - 1]) {
      TrimEndStops(s[..|s| - 1]);
    }
  }

  lemma MeantIsInfo(line: string)
    ensures LooksMeant(line) <==> IsInfoVersion(line)
  {
    TrimEndStops(line);
    var t := TrimEnd(line);
    hide TrimEnd;
    if EndsWith(t, "\",") {
      assert t[|t| - 2..] == "\",";
      assert t[|t| - 2] == t[|t| - 2..][0] && t[|t| - 1] == t[|t| - 2..][1];
      assert EndsBefore(line, |line| - |t|);
    }
    if n: nat :| EndsBefore(line, n) {
      assert !IsWhite(',');
      assert |t| == |line| - n;
      assert t[|t| - 2..] == [t[|t| - 2], t[|t| - 1]];
    }
  }

  lemma InfoLineReads(version: string)
    requires '"' !in version
    ensures VersionRead(InfoLine(version)) == Some(version)
  {
    var line := InfoLine(version);
    assert line[|ANCHOR|..] == version + ['"'] + ",";
    CharFound(version, '"', ",");
    hide IndexOfChar;
  }

  lemma {:induction false} OneInfoLine(lines: seq<string>)
    ensures InfoLines(lines) == 0 <==> forall i :: 0 <= i < |lines| ==> !IsInfoVersion(lines[i])
    ensures InfoLines(lines) == 1 <==> exists i: nat :: OnlyInfo(lines, i)
  {
    hide IsInfoVersion;
    if lines != [] {
      OneInfoLine(lines[1..]);
      OneMoreLine(lines);
    }
  }

  lemma OneMoreLine(lines: seq<string>)
    requires lines != []
    ensures (forall i :: 0 <= i < |lines| ==> !IsInfoVersion(lines[i])) <==>
              !IsInfoVersion(lines[0]) && forall i :: 0 <= i < |lines[1..]| ==> !IsInfoVersion(lines[1..][i])
    ensures IsInfoVersion(lines[0]) ==>
              ((exists i: nat :: OnlyInfo(lines, i)) <==>
                 forall i :: 0 <= i < |lines[1..]| ==> !IsInfoVersion(lines[1..][i]))
    ensures !IsInfoVersion(lines[0]) ==>
              ((exists i: nat :: OnlyInfo(lines, i)) <==> exists i: nat :: OnlyInfo(lines[1..], i))
  {
    hide IsInfoVersion;
    assert forall i :: 0 < i < |lines| ==> lines[i] == lines[1..][i - 1];
    assert forall i :: 0 <= i < |lines[1..]| ==> lines[1..][i] == lines[i + 1];
    if IsInfoVersion(lines[0]) && forall i :: 0 <= i < |lines[1..]| ==> !IsInfoVersion(lines[1..][i]) {
      assert OnlyInfo(lines, 0);
    }
    if i: nat :| OnlyInfo(lines[1..], i) && !IsInfoVersion(lines[0]) {
      assert OnlyInfo(lines, i + 1);
    }
    if i: nat :| OnlyInfo(lines, i) && i > 0 {
      assert OnlyInfo(lines[1..], i - 1);
    }
  }

  ghost predicate OnlyInfo(lines: seq<string>, i: nat) {
    i < |lines| && IsInfoVersion(lines[i]) && forall j :: 0 <= j < |lines| && j != i ==> !IsInfoVersion(lines[j])
  }

  /** The document is set exactly when one line of it is the one meant, and then that line, and no other,
      declares the version. */
  lemma SpecDeclares(spec: string, version: string)
    requires '\r' !in spec && IsSemver(version)
    ensures SetSpec(spec, version).Some? <==> exists i: nat :: OnlyMeant(Lines(spec), i)
    ensures SetSpec(spec, version).Some? ==> Declares(spec, SetSpec(spec, version).value, version)
  {
    hide Lines, LooksMeant, IsInfoVersion, VersionRead, InfoLine, IsSemver, InfoLines, SpecLines, DeclaresAt, OnlyInfo;
    hide OnlyMeant, Join, AreLines;
    var lines := Lines(spec);
    OneInfoLine(lines);
    forall i: nat ensures OnlyMeant(lines, i) <==> OnlyInfo(lines, i) {
      MeantIsOnly(lines, i);
    }
    SpecLinesAreLines(spec, version);
    RejoinReads(spec, SpecLines(lines, version));
    if SetSpec(spec, version).Some? {
      var i: nat :| OnlyInfo(lines, i);
      OneLineSet(lines, version, i);
    }
  }

  lemma MeantIsOnly(lines: seq<string>, i: nat)
    ensures OnlyMeant(lines, i) <==> OnlyInfo(lines, i)
  {
    hide LooksMeant, IsInfoVersion;
    forall j | 0 <= j < |lines| ensures LooksMeant(lines[j]) <==> IsInfoVersion(lines[j]) {
      MeantIsInfo(lines[j]);
    }
  }

  lemma OneLineSet(lines: seq<string>, version: string, i: nat)
    requires OnlyInfo(lines, i) && IsSemver(version)
    ensures DeclaresAt(lines, SpecLines(lines, version), version, i)
  {
    NewIsClean(version);
    InfoLineReads(version);
    MeantIsOnly(lines, i);
    hide LooksMeant, IsInfoVersion, VersionRead, InfoLine, IsSemver;
  }

  // ---- Set, check, check the bump ----

  datatype SetError =
    | NoVersion | BumpTooSmall | Refused(error: VersionError) | NoUnreleased | NoInfoVersion | LockFailed

  datatype Files = Files(manifest: string, cli: string, changelog: string, spec: string)

  /** The first step that fails, if one does. */
  ghost function SetOutcome(f: Files, new_: string, date: string, lock: bool, breaking: string -> bool)
    : Result<(), SetError>
  {
    var previous := WorkspaceVersion(Lines(f.manifest));
    if previous.None? then Err(NoVersion)
    else if TooSmall(f.changelog, previous.value, new_, breaking) then Err(BumpTooSmall)
    else if SetVersions(f.manifest, new_).Err? then Err(Refused(SetVersions(f.manifest, new_).error))
    else if Roll(f.changelog, new_, date).None? then Err(NoUnreleased)
    else if SetSpec(f.spec, new_).None? then Err(NoInfoVersion)
    else if !lock then Err(LockFailed)
    else Ok(())
  }

  /** The pin check on the two manifests is clean for this version. */
  predicate PinsAgree(manifest: string, cli: string, version: string) {
    && WorkspaceVersion(Lines(manifest)) == Some(version)
    && Disagreeing(Lines(manifest), version) == []
    && Disagreeing(Lines(cli), version) == []
  }

  /** What a `set` that got as far as the changelog leaves: pins that agree, and, whatever version the
      bump is measured from, the verdict that was reached before anything was written. */
  lemma SetLeavesItClean(f: Files, new_: string, days: nat, from: string, breaking: string -> bool)
    requires '\r' !in f.manifest && '\r' !in f.cli
    requires SetVersions(f.manifest, new_).Ok? && Roll(f.changelog, new_, Today(days)).Some?
    ensures SetPins(f.cli, new_).Ok? && PinsAgree(SetVersions(f.manifest, new_).value, SetPins(f.cli, new_).value, new_)
    ensures TooSmall(Roll(f.changelog, new_, Today(days)).value, from, new_, breaking)
              == TooSmall(f.changelog, from, new_, breaking)
  {
    assert IsSemver(new_) && SetPins(f.cli, new_).Ok?;
    hide *;
    SetThenAgrees(f.manifest, new_);
    PinsThenAgree(f.cli, new_);
    var _, _, _ := TodayReads(days);
    VerdictSurvivesRoll(f.changelog, from, new_, Today(days), breaking);
  }

  class Workspace {
    var files: Files

    /** `Set`: refused before anything is written, or written file by file. A changelog without the
        heading, or a document without the one line, is only found after the manifests are written. */
    method Set(new_: string, days: nat, lock: bool, breaking: string -> bool) returns (result: Result<(), SetError>)
      modifies this
      ensures result == SetOutcome(old(files), new_, Today(days), lock, breaking)
      ensures result in {Err(NoVersion), Err(BumpTooSmall)} || (result.Err? && result.error.Refused?) ==>
                files == old(files)
      ensures result in {Ok(()), Err(LockFailed), Err(NoUnreleased), Err(NoInfoVersion)} ==>
                && files.manifest == SetVersions(old(files).manifest, new_).value
                && files.cli == SetPins(old(files).cli, new_).value
                && files.changelog == (if result == Err(NoUnreleased) then old(files).changelog
                                       else Roll(old(files).changelog, new_, Today(days)).value)
                && files.spec == (if result in {Err(NoUnreleased), Err(NoInfoVersion)} then old(files).spec
                                  else SetSpec(old(files).spec, new_).value)
      ensures result.Ok? && '\r' !in old(files).manifest && '\r' !in old(files).cli ==>
                && PinsAgree(files.manifest, files.cli, new_)
                && !TooSmall(files.changelog, WorkspaceVersion(Lines(old(files).manifest)).value, new_, breaking)
      ensures result in {Ok(()), Err(LockFailed), Err(NoInfoVersion)} ==>
                Rolled(old(files).changelog, files.changelog, new_, Today(days))
      ensures result in {Ok(()), Err(LockFailed)} && '\r' !in old(files).spec ==>
                Declares(old(files).spec, files.spec, new_)
    {
      hide Declares, Rolled;
      hide TooSmall, Lines, Roll, SetSpec, Today, WorkspaceVersion, Disagreeing, FirstAnchor, Rejoin, IsSemver;
      ghost var before := files;
      var previous := WorkspaceVersion(Lines(files.manifest));
      if previous.None? {
        return Err(NoVersion);
      }
      var small := IsTooSmall(files.changelog, previous.value, new_, breaking);
      if small {
        return Err(BumpTooSmall);
      }
      var manifest := WriteVersions(files.manifest, new_);
      if manifest.Err? {
        return Err(Refused(manifest.error));
      }
      files := files.(manifest := manifest.value);
      files := files.(cli := SetPins(files.cli, new_).value);
      var rolled := Roll(files.changelog, new_, Today(days));
      if rolled.None? {
        return Err(NoUnreleased);
      }
      files := files.(changelog := rolled.value);
      RollDates(before.changelog, new_, Today(days));
      var spec := SetSpec(files.spec, new_);
      if spec.None? {
        return Err(NoInfoVersion);
      }
      files := files.(spec := spec.value);
      if '\r' !in before.spec {
        SpecDeclares(before.spec, new_);
      }
      if '\r' !in before.manifest && '\r' !in before.cli {
        SetLeavesItClean(before, new_, days, previous.value, breaking);
      }
      result := if lock then Ok(()) else Err(LockFailed);
    }

    /** The part of `Check` about pins: the crates that disagree, of both manifests. */
    method CheckPins() returns (result: Result<seq<(string, string)>, SetError>)
      ensures result == Ok([]) <==> exists version :: PinsAgree(files.manifest, files.cli, version)
      ensures result.Err? <==> WorkspaceVersion(Lines(files.manifest)).None?
      ensures result.Ok? ==> var expected := WorkspaceVersion(Lines(files.manifest)).value;
                             result.value == Disagreeing(Lines(files.manifest), expected)
                                             + Disagreeing(Lines(files.cli), expected)
    {
      hide Lines, WorkspaceVersion, Disagreeing;
      var expected := WorkspaceVersion(Lines(files.manifest));
      if expected.None? {
        return Err(NoVersion);
      }
      var mine := Disagreeing(Lines(files.manifest), expected.value);
      var theirs := Disagreeing(Lines(files.cli), expected.value);
      assert mine + theirs == [] ==> PinsAgree(files.manifest, files.cli, expected.value);
      result := Ok(mine + theirs);
    }

    /** `CheckBump`: from that version to the one declared. */
    method CheckBump(from: string, breaking: string -> bool) returns (result: Result<(), SetError>)
      ensures result.Ok? <==>
              var to := WorkspaceVersion(Lines(files.manifest));
              to.Some? && !TooSmall(files.changelog, from, to.value, breaking)
    {
      hide Lines, WorkspaceVersion, TooSmall;
      var to := WorkspaceVersion(Lines(files.manifest));
      if to.None? {
        return Err(NoVersion);
      }
      var small := IsTooSmall(files.changelog, from, to.value, breaking);
      result := if small then Err(BumpTooSmall) else Ok(());
    }
  }
}
