/** Strings as the standard library splits and searches them. */
module Text {
  import opened Wrappers

  predicate At(text: string, what: string, i: nat) {
    i + |what| <= |text| && text[i..i + |what|] == what
  }

  lemma AtReads(text: string, what: string, i: nat)
    requires At(text, what, i)
    ensures forall k :: i <= k < i + |what| ==> text[k] == what[k - i]
  {
    assert forall k :: i <= k < i + |what| ==> text[k] == text[i..i + |what|][k - i];
  }

  function IndexFrom(text: string, what: string, from: nat): (r: Option<nat>)
    requires from <= |text|
    ensures r.Some? ==> from <= r.value && At(text, what, r.value) && forall j :: from <= j < r.value ==>
              !At(text, what, j)
    ensures r.None? ==> forall j :: from <= j ==> !At(text, what, j)
    decreases |text| - from
  {
    if At(text, what, from) then Some(from)
    else if from == |text| then None
    else IndexFrom(text, what, from + 1)
  }

  /** Where `what` is first found. */
  function IndexOf(text: string, what: string): (r: Option<nat>)
    ensures r.Some? ==> At(text, what, r.value) && forall j: nat :: j < r.value ==> !At(text, what, j)
    ensures r.None? ==> forall j: nat :: !At(text, what, j)
  {
    IndexFrom(text, what, 0)
  }

  lemma IndexIs(text: string, what: string, i: nat)
    requires At(text, what, i) && forall j: nat :: j < i ==> !At(text, what, j)
    ensures IndexOf(text, what) == Some(i)
  {
    hide *;
    var found := IndexOf(text, what);
    assert found.Some? && !(found.value < i) && !(i < found.value);
  }

  predicate Contains(text: string, what: string) {
    IndexOf(text, what).Some?
  }

  lemma FoundInPart(text: string, from: nat, to: nat, what: string, i: nat)
    requires from <= i && i + |what| <= to <= |text| && At(text, what, i)
    ensures Contains(text[from..to], what)
  {
    AtReads(text, what, i);
    var part, j := text[from..to], i - from;
    var found := part[j..j + |what|];
    assert forall k :: 0 <= k < |what| ==> found[k] == what[k];
    assert At(part, what, j);
    hide IndexOf;
  }

  lemma PartFound(a: string, b: string, c: string, what: string)
    ensures Contains(b, what) ==> Contains(a + b + c, what)
  {
    if Contains(b, what) {
      var i := IndexOf(b, what).value;
      var all := a + b + c;
      assert all[|a| + i..|a| + i + |what|] == b[i..i + |what|];
      assert At(all, what, |a| + i);
      hide IndexOf;
    }
  }

  /** Where `c` is first found. */
  function IndexOfChar(text: string, c: char): (r: Option<nat>)
    ensures r.Some? ==> r.value < |text| && text[r.value] == c && c !in text[..r.value]
    ensures r.None? ==> c !in text
  {
    if text == "" then None
    else if text[0] == c then Some(0)
    else
      var rest := IndexOfChar(text[1..], c);
      if rest.Some? then
        assert text[..rest.value + 1] == [text[0]] + text[1..][..rest.value];
        Some(rest.value + 1)
      else
        assert text == [text[0]] + text[1..];
        None
  }

  lemma {:induction false} CharFound(a: string, c: char, b: string)
    requires c !in a
    ensures var text := a + [c] + b;
            IndexOfChar(text, c) == Some(|a|) && text[..|a|] == a && text[|a| + 1..] == b
  {
    var text := a + [c] + b;
    assert text[|a|] == c && text[..|a|] == a;
  }

  /** Unicode's `White_Space`, which `trim` and `split_whitespace` go by. */
  predicate IsWhite(c: char) {
    || '\t' <= c <= '\r' || c == ' ' || c == '\U{85}' || c == '\U{A0}' || c == '\U{1680}'
    || '\U{2000}' <= c <= '\U{200A}' || c == '\U{2028}' || c == '\U{2029}' || c == '\U{202F}' || c == '\U{205F}'
    || c == '\U{3000}'
  }

  function TrimEnd(s: string): string {
    if s != "" && IsWhite(s[|s| - 1]) then TrimEnd(s[..|s| - 1]) else s
  }

  function TrimStart(s: string): string {
    if s != "" && IsWhite(s[0]) then TrimStart(s[1..]) else s
  }

  predicate EndsWith(s: string, suffix: string) {
    |suffix| <= |s| && s[|s| - |suffix|..] == suffix
  }

  /** `split`: one part more than there are separators. */
  function Split(s: string, c: char): (parts: seq<string>)
    ensures parts != [] && forall p <- parts :: c !in p
    decreases |s|
  {
    var k := IndexOfChar(s, c);
    if k.None? then [s] else [s[..k.value]] + Split(s[k.value + 1..], c)
  }

  // ---- Lines ----

  function DropCr(line: string): string {
    if EndsWith(line, "\r") then line[..|line| - 1] else line
  }

  /** `lines`: every line ends at a newline, which may have a carriage return before it; a last one
      may go without. */
  function Lines(text: string): (lines: seq<string>)
    ensures text != "" <==> lines != []
    ensures forall line <- lines :: '\n' !in line
    decreases |text|
  {
    if text == "" then []
    else
      var k := IndexOfChar(text, '\n');
      if k.None? then [text] else [DropCr(text[..k.value])] + Lines(text[k.value + 1..])
  }

  predicate Terminated(text: string) {
    text != "" && text[|text| - 1] == '\n'
  }

  lemma {:induction false} LinesStep(line: string, rest: string)
    requires '\n' !in line
    ensures Lines(line + "\n" + rest) == [DropCr(line)] + Lines(rest)
  {
    CharFound(line, '\n', rest);
    hide IndexOfChar, DropCr;
  }

  /** The lines of two texts, the first of which ends its last line. */
  lemma {:induction false} LinesOfBoth(a: string, b: string)
    requires a == "" || Terminated(a)
    ensures Lines(a + b) == Lines(a) + Lines(b)
    decreases |a|
  {
    hide Lines, IndexOfChar, DropCr;
    if a == "" {
      assert a + b == b && Lines("") == [];
    } else {
      assert a[|a| - 1] in a;
      var k := IndexOfChar(a, '\n').value;
      var line, rest := a[..k], a[k + 1..];
      assert a == line + "\n" + rest;
      assert a + b == line + "\n" + (rest + b);
      LinesStep(line, rest);
      LinesStep(line, rest + b);
      LinesOfBoth(rest, b);
    }
  }

  lemma NoCr(line: string)
    requires '\r' !in line
    ensures DropCr(line) == line
  {
    if line != "" {
      assert line[|line| - 1..][0] in line;
    }
  }

  function Join(lines: seq<string>): string {
    if lines == [] then "" else if |lines| == 1 then lines[0] else lines[0] + "\n" + Join(lines[1..])
  }

  /** `rejoin`: the lines of a text rewritten, its last one ended as it was. */
  function Rejoin(original: string, lines: seq<string>): string {
    Join(lines) + if Terminated(original) then "\n" else ""
  }

  /** Rewritten lines that are lines still. */
  predicate AreLines(original: string, lines: seq<string>) {
    && (original == "" <==> lines == [])
    && (forall line <- lines :: '\n' !in line && '\r' !in line)
    && (Terminated(original) || lines == [] || lines[|lines| - 1] != "")
  }

  lemma LinesOfLine(line: string, rest: string)
    requires '\n' !in line && '\r' !in line
    ensures Lines(line + "\n" + rest) == [line] + Lines(rest)
  {
    LinesStep(line, rest);
    NoCr(line);
  }

  lemma {:induction false} LinesOfLast(line: string)
    requires '\n' !in line && line != ""
    ensures Lines(line) == [line]
  {
    assert IndexOfChar(line, '\n').None?;
  }

  /** Text with no carriage return is its own lines rejoined. */
  lemma {:induction false} RejoinLines(text: string)
    requires '\r' !in text
    ensures Rejoin(text, Lines(text)) == text
    decreases |text|
  {
    var k := IndexOfChar(text, '\n');
    hide Lines, IndexOfChar;
    if text == "" {
      assert Lines("") == [];
    } else if k.None? {
      LinesOfLast(text);
    } else {
      var line, rest := text[..k.value], text[k.value + 1..];
      assert text == line + "\n" + rest;
      LinesOfLine(line, rest);
      RejoinLines(rest);
      if rest == "" {
        assert Lines("") == [];
      } else {
        assert Terminated(rest) <==> Terminated(text);
      }
    }
  }

  /** What is rejoined reads as those lines, and ends as the original did. */
  lemma {:induction false} RejoinReads(original: string, lines: seq<string>)
    requires AreLines(original, lines)
    ensures Lines(Rejoin(original, lines)) == lines
    ensures Terminated(Rejoin(original, lines)) == Terminated(original)
    decreases |lines|
  {
    hide Lines;
    if lines == [] {
      assert Lines("") == [];
    } else if |lines| == 1 {
      if Terminated(original) {
        LinesOfLine(lines[0], "");
        assert Lines("") == [];
        assert lines[0] + "\n" + "" == Rejoin(original, lines);
      } else {
        LinesOfLast(lines[0]);
        assert Rejoin(original, lines) == lines[0];
      }
    } else {
      var rest := Rejoin(original, lines[1..]);
      RejoinReads(original, lines[1..]);
      assert Rejoin(original, lines) == lines[0] + "\n" + rest;
      LinesOfLine(lines[0], rest);
      if rest != "" {
        assert Terminated(Rejoin(original, lines)) == Terminated(rest);
      }
    }
  }

  /** The lines of a text without carriage returns are lines to rewrite. */
  lemma {:induction false} LinesAreLines(text: string)
    requires '\r' !in text
    ensures AreLines(text, Lines(text))
    decreases |text|
  {
    var k := IndexOfChar(text, '\n');
    hide Lines, IndexOfChar;
    if text == "" {
      assert Lines("") == [];
    } else if k.None? {
      LinesOfLast(text);
    } else {
      var line, rest := text[..k.value], text[k.value + 1..];
      assert text == line + "\n" + rest;
      LinesOfLine(line, rest);
      LinesAreLines(rest);
      if rest != "" {
        assert Terminated(rest) <==> Terminated(text);
      }
    }
  }
}
