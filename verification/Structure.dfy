/** The count of production lines: whole test-only items are skipped, the rest is counted. */
module Structure {
  import opened Text

  predicate StartsTestItem(line: string) {
    "#[cfg(test)]" <= line || "#[cfg(all(test" <= line
  }

  predicate IsAttribute(line: string) {
    "#[" <= line
  }

  predicate IsOneLiner(line: string) {
    EndsWith(TrimEnd(line), ";")
  }

  predicate ClosesItem(line: string) {
    "}" <= line || line == "];" || line == ");"
  }

  // ---- The scan, as a function of the lines from here on ----

  function SkipAttributes(lines: seq<string>): (n: nat)
    ensures n <= |lines|
    ensures forall i :: 0 <= i < n ==> IsAttribute(lines[i])
    ensures n < |lines| ==> !IsAttribute(lines[n])
  {
    if lines == [] || !IsAttribute(lines[0]) then 0 else 1 + SkipAttributes(lines[1..])
  }

  function FindClose(lines: seq<string>): (n: nat)
    ensures n <= |lines|
    ensures forall i :: 0 <= i < n ==> !ClosesItem(lines[i])
    ensures n < |lines| ==> ClosesItem(lines[n])
  {
    if lines == [] || ClosesItem(lines[0]) then 0 else 1 + FindClose(lines[1..])
  }

  /** How far the item runs whose first attribute is the first line: one more than there are lines
      when it is never closed. */
  function ItemLength(lines: seq<string>): (n: nat)
    requires lines != []
    ensures 0 < n <= |lines| + 1
  {
    var i := 1 + SkipAttributes(lines[1..]);
    if i == |lines| then i
    else if IsOneLiner(lines[i]) then i + 1
    else i + FindClose(lines[i..]) + 1
  }

  /** What the count is: it is never more than the lines. */
  function Production(lines: seq<string>): (n: nat)
    ensures n <= |lines|
    decreases |lines|
  {
    if lines == [] then 0
    else if StartsTestItem(lines[0]) then
      var past := ItemLength(lines);
      if past <= |lines| then Production(lines[past..]) else 0
    else 1 + Production(lines[1..])
  }

  // ---- The loops ----

  lemma ItemEnds(lines: seq<string>, at: nat, i: nat)
    requires at < i <= |lines| && (i < |lines| ==> !IsAttribute(lines[i]))
    requires forall k :: at < k < i ==> IsAttribute(lines[k])
    ensures ItemLength(lines[at..]) == i - at + if i == |lines| then 0
                                                else if IsOneLiner(lines[i]) then 1 else FindClose(lines[i..]) + 1
  {
    hide IsAttribute, IsOneLiner, FindClose;
    var rest := lines[at..][1..];
    assert forall k :: 0 <= k < |rest| ==> rest[k] == lines[at + 1 + k];
    assert SkipAttributes(rest) == i - at - 1;
    assert lines[at..][i - at..] == lines[i..];
  }

  lemma CloseIs(lines: seq<string>, i: nat, j: nat)
    requires i <= j <= |lines| && (j < |lines| ==> ClosesItem(lines[j]))
    requires forall k :: i <= k < j ==> !ClosesItem(lines[k])
    ensures FindClose(lines[i..]) == j - i
  {
    hide ClosesItem;
    var rest := lines[i..];
    assert forall k :: 0 <= k < |rest| ==> rest[k] == lines[i + k];
  }

  /** `past_test_item`: an index that may be one past the end. */
  method PastTestItem(lines: seq<string>, at: nat) returns (past: nat)
    requires at < |lines|
    ensures past == at + ItemLength(lines[at..])
  {
    hide IsAttribute, IsOneLiner, ClosesItem, ItemLength;
    var i := at + 1;
    while i < |lines| && IsAttribute(lines[i])
      invariant at < i <= |lines|
      invariant forall k :: at < k < i ==> IsAttribute(lines[k])
    {
      i := i + 1;
    }
    ItemEnds(lines, at, i);
    if i == |lines| {
      return |lines|;
    }
    if IsOneLiner(lines[i]) {
      return i + 1;
    }
    var j := i;
    while j < |lines| && !ClosesItem(lines[j])
      invariant i <= j <= |lines|
      invariant forall k :: i <= k < j ==> !ClosesItem(lines[k])
    {
      j := j + 1;
    }
    CloseIs(lines, i, j);
    past := j + 1;
  }

  lemma ProductionStep(lines: seq<string>, i: nat)
    requires i < |lines|
    ensures Production(lines[i..]) == if StartsTestItem(lines[i]) then
                                        var past := i + ItemLength(lines[i..]);
                                        if past <= |lines| then Production(lines[past..]) else 0
                                      else 1 + Production(lines[i + 1..])
  {
    hide StartsTestItem, ItemLength;
    var past := ItemLength(lines[i..]);
    assert past <= |lines[i..]| ==> lines[i..][past..] == lines[i + past..];
    assert lines[i..][1..] == lines[i + 1..];
  }

  /** `production_lines`. */
  method ProductionLines(source: string) returns (count: nat)
    ensures count == Production(Lines(source)) <= |Lines(source)|
  {
    hide StartsTestItem, ItemLength, Lines, Production;
    var lines := Lines(source);
    count := 0;
    var i := 0;
    assert lines[0..] == lines;
    while i < |lines|
      invariant count + (if i <= |lines| then Production(lines[i..]) else 0) == Production(lines)
      decreases |lines| - i
    {
      ProductionStep(lines, i);
      if StartsTestItem(lines[i]) {
        i := PastTestItem(lines, i);
      } else {
        count := count + 1;
        i := i + 1;
      }
    }
  }

  // ---- Complete items ----

  /** Attributes, the first of which makes the item test-only; then one line that ends in `;`, or
      lines up to the first that closes an item. */
  predicate IsCompleteItem(lines: seq<string>) {
    lines != [] && StartsTestItem(lines[0])
    && var i := 1 + SkipAttributes(lines[1..]);
       && i < |lines|
       && if IsOneLiner(lines[i]) then |lines| == i + 1
          else
            && ClosesItem(lines[|lines| - 1])
            && forall k :: i <= k < |lines| - 1 ==> !ClosesItem(lines[k])
  }

  /** Where the scan comes by: after lines counted and complete items, and nowhere else. */
  ghost predicate Boundary(lines: seq<string>)
    decreases |lines|
  {
    || lines == []
    || (!StartsTestItem(lines[0]) && Boundary(lines[1..]))
    || exists n :: 0 < n <= |lines| && IsCompleteItem(lines[..n]) && Boundary(lines[n..])
  }

  lemma {:induction false} SkipInBoth(a: seq<string>, b: seq<string>)
    ensures SkipAttributes(a) < |a| ==> SkipAttributes(a + b) == SkipAttributes(a)
    ensures SkipAttributes(a) == |a| ==> SkipAttributes(a + b) == |a| + SkipAttributes(b)
  {
    if a == [] {
      assert a + b == b;
    } else {
      assert (a + b)[1..] == a[1..] + b;
      SkipInBoth(a[1..], b);
    }
  }

  lemma FindIn(a: seq<string>, b: seq<string>, n: nat)
    requires n < |a| && ClosesItem(a[n]) && forall k :: 0 <= k < n ==> !ClosesItem(a[k])
    ensures FindClose(a + b) == n
  {
    var all := a + b;
    assert forall k :: 0 <= k <= n ==> all[k] == a[k];
  }

  /** A complete item is as long whatever follows it. */
  lemma ItemIsItself(item: seq<string>, rest: seq<string>)
    requires IsCompleteItem(item)
    ensures ItemLength(item + rest) == |item|
  {
    var all := item + rest;
    assert all[1..] == item[1..] + rest;
    SkipInBoth(item[1..], rest);
    var i := 1 + SkipAttributes(item[1..]);
    assert all[i] == item[i];
    if !IsOneLiner(item[i]) {
      assert all[i..] == item[i..] + rest;
      FindIn(item[i..], rest, |item| - 1 - i);
    }
  }

  lemma ItemSkipped(item: seq<string>, rest: seq<string>)
    requires IsCompleteItem(item)
    ensures Production(item + rest) == Production(rest)
  {
    ItemIsItself(item, rest);
    var all := item + rest;
    assert all[0] == item[0] && all[|item|..] == rest;
    hide ItemLength, StartsTestItem;
  }

  ghost predicate Adds(a: seq<string>, b: seq<string>) {
    Production(a + b) == Production(a) + Production(b)
  }

  /** Up to a boundary the scan does not look past it: the two counts add up. */
  lemma {:induction false} CountsAdd(a: seq<string>, b: seq<string>)
    requires Boundary(a)
    ensures Adds(a, b)
    decreases |a|
  {
    hide StartsTestItem, IsCompleteItem, ItemLength;
    if a == [] {
      assert a + b == b;
    } else if !StartsTestItem(a[0]) && Boundary(a[1..]) {
      CountsAdd(a[1..], b);
      CountsAddNext(a, b);
    } else {
      var n :| 0 < n <= |a| && IsCompleteItem(a[..n]) && Boundary(a[n..]);
      CountsAdd(a[n..], b);
      hide Boundary;
      CountsAddAfter(a, n, b);
    }
  }

  lemma CountsAddNext(a: seq<string>, b: seq<string>)
    requires a != [] && !StartsTestItem(a[0])
    ensures Adds(a, b) <==> Adds(a[1..], b)
  {
    hide StartsTestItem, ItemLength;
    assert (a + b)[0] == a[0] && (a + b)[1..] == a[1..] + b;
  }

  lemma CountsAddAfter(a: seq<string>, n: nat, b: seq<string>)
    requires n <= |a| && IsCompleteItem(a[..n])
    ensures Adds(a, b) <==> Adds(a[n..], b)
  {
    hide IsCompleteItem, Production;
    ItemSkipped(a[..n], a[n..]);
    ItemSkipped(a[..n], a[n..] + b);
    assert a == a[..n] + a[n..] && a + b == a[..n] + (a[n..] + b);
  }

  /** Where no line starts a test item every line counts. */
  lemma {:induction false} EveryLineCounts(lines: seq<string>)
    requires forall i :: 0 <= i < |lines| ==> !StartsTestItem(lines[i])
    ensures Production(lines) == |lines| && Boundary(lines)
    decreases |lines|
  {
    hide StartsTestItem;
    if lines != [] {
      EveryLineCounts(lines[1..]);
    }
  }

  /** A test module or a table for tests, as it is written: any lines may stand in it but one that begins
      with a brace or is all of `];` or `);`, so a bracket of a raw string does not end it. */
  lemma WrittenItem(attributes: seq<string>, head: string, body: seq<string>, close: string)
    requires attributes != [] && forall a <- attributes :: "#[" <= a
    requires "#[cfg(test)]" <= attributes[0] || "#[cfg(all(test" <= attributes[0]
    requires head != "" && head[0] !in {'#', '}', ']', ')'} && head[|head| - 1] in {'{', '[', '('}
    requires forall l <- body :: (l == "" || l[0] != '}') && l !in {"];", ");"}
    requires close in {"}", "];", ");"}
    ensures IsCompleteItem(attributes + [head] + body + [close])
  {
    var lines, i := attributes + [head] + body + [close], |attributes|;
    forall a <- attributes ensures IsAttribute(a) {
    }
    forall l <- body ensures !ClosesItem(l) {
    }
    OpensItem(head);
    assert StartsTestItem(attributes[0]) && ClosesItem(close);
    hide IsAttribute, ClosesItem, IsOneLiner, StartsTestItem;
    assert lines[0] == attributes[0] && lines[i] == head && lines[|lines| - 1] == close;
    forall k | 0 < k < i ensures IsAttribute(lines[k]) {
      assert lines[k] == attributes[k] && attributes[k] in attributes;
    }
    SkipsTo(lines, i);
    forall k | i <= k < |lines| - 1 ensures !ClosesItem(lines[k]) {
      if k > i {
        assert lines[k] == body[k - i - 1] && body[k - i - 1] in body;
      }
    }
  }

  lemma OpensItem(head: string)
    requires head != "" && head[0] !in {'#', '}', ']', ')'} && head[|head| - 1] in {'{', '[', '('}
    ensures !IsAttribute(head) && !IsOneLiner(head) && !ClosesItem(head)
  {
    assert TrimEnd(head) == head && head[|head| - 1..] == [head[|head| - 1]];
  }

  /** A declaration that ends in a semicolon is its whole item. */
  lemma WrittenLine(attributes: seq<string>, head: string, space: string)
    requires attributes != [] && forall a <- attributes :: "#[" <= a
    requires "#[cfg(test)]" <= attributes[0] || "#[cfg(all(test" <= attributes[0]
    requires head != "" && head[0] != '#' && forall c <- space :: IsWhite(c)
    ensures IsCompleteItem(attributes + [head + ";" + space])
  {
    var lines, i := attributes + [head + ";" + space], |attributes|;
    forall k | 0 < k < i ensures IsAttribute(lines[k]) {
      assert lines[k] == attributes[k] && attributes[k] in attributes;
    }
    assert lines[i][0] == head[0];
    SkipsTo(lines, i);
    TrimsTo(head + ";", space);
    assert (head + ";")[|head|..] == ";";
  }

  lemma {:induction false} TrimsTo(text: string, space: string)
    requires text != "" && !IsWhite(text[|text| - 1]) && forall c <- space :: IsWhite(c)
    ensures TrimEnd(text + space) == text
    decreases |space|
  {
    if space == "" {
      assert text + space == text;
    } else {
      var n := |space| - 1;
      assert (text + space)[..|text + space| - 1] == text + space[..n];
      TrimsTo(text, space[..n]);
    }
  }

  lemma SkipsTo(lines: seq<string>, i: nat)
    requires 0 < i < |lines| && !IsAttribute(lines[i]) && forall k :: 0 < k < i ==> IsAttribute(lines[k])
    ensures 1 + SkipAttributes(lines[1..]) == i
  {
    hide IsAttribute;
    var rest := lines[1..];
    assert forall k :: 0 <= k < |rest| ==> rest[k] == lines[k + 1];
  }

  /** A test item that no line closes runs to the end, and nothing of it counts. */
  lemma OpenItemCountsNothing(lines: seq<string>, i: nat)
    requires 0 < i <= |lines| && StartsTestItem(lines[0]) && forall k :: 0 < k < i ==> IsAttribute(lines[k])
    requires i < |lines| ==> !IsAttribute(lines[i]) && !IsOneLiner(lines[i])
    requires forall k :: i <= k < |lines| ==> !ClosesItem(lines[k])
    ensures Production(lines) == 0
  {
    ItemEnds(lines, 0, i);
    CloseIs(lines, i, |lines|);
    assert lines[0..] == lines && lines[|lines|..] == [];
    hide StartsTestItem, IsAttribute, IsOneLiner, ClosesItem, ItemLength;
  }

  lemma ItemCountsNothing(item: seq<string>)
    requires IsCompleteItem(item)
    ensures Production(item) == 0 && Boundary(item)
  {
    ItemSkipped(item, []);
    assert item + [] == item;
    assert item[..|item|] == item && item[|item|..] == [];
  }

  /** A complete test item put in or taken out where the scan comes by leaves the count as it is. */
  lemma ItemsAreInvisible(before: seq<string>, item: seq<string>, after: seq<string>)
    requires Boundary(before) && IsCompleteItem(item)
    ensures Production(before + item + after) == Production(before + after)
  {
    ItemCountsNothing(item);
    CountsAdd(before, item + after);
    CountsAdd(before, after);
    ItemSkipped(item, after);
    assert before + item + after == before + (item + after);
  }

  // ---- Nowhere else ----

  /** Text that ends inside a test item: what follows is taken for the rest of it. */
  lemma {:induction false} OpenEndHides(a: seq<string>)
    requires !Boundary(a)
    ensures exists b :: !Adds(a, b)
    decreases |a|
  {
    hide ItemLength, IsCompleteItem, StartsTestItem;
    if !StartsTestItem(a[0]) {
      OpenEndHides(a[1..]);
      hide Boundary, Adds;
      var b :| !Adds(a[1..], b);
      CountsAddNext(a, b);
    } else {
      var n := ItemLength(a);
      if 1 + SkipAttributes(a[1..]) < |a| && n <= |a| {
        ItemIsComplete(a);
        OpenEndHides(a[n..]);
        hide Boundary, Adds;
        var b :| !Adds(a[n..], b);
        CountsAddAfter(a, n, b);
      } else {
        hide Boundary, Adds;
        OpenItem(a);
      }
    }
  }

  lemma ItemIsComplete(a: seq<string>)
    requires a != [] && StartsTestItem(a[0]) && ItemLength(a) <= |a| && 1 + SkipAttributes(a[1..]) < |a|
    ensures IsCompleteItem(a[..ItemLength(a)])
  {
    hide IsAttribute, IsOneLiner, ClosesItem, StartsTestItem;
    var n, i := ItemLength(a), 1 + SkipAttributes(a[1..]);
    var item := a[..n];
    assert a[1..] == item[1..] + a[n..];
    SkipInBoth(item[1..], a[n..]);
    assert item[1..][i - 1] == a[i];
    if !IsOneLiner(a[i]) {
      assert item[n - 1] == a[i..][n - 1 - i];
      assert forall k :: i <= k < n - 1 ==> item[k] == a[i..][k - i];
    }
  }

  /** The first item never ends: of a line `x;` after it, nothing is counted. */
  lemma OpenItem(a: seq<string>)
    requires a != [] && StartsTestItem(a[0])
    requires 1 + SkipAttributes(a[1..]) == |a| || ItemLength(a) > |a|
    ensures !Adds(a, ["x;"])
  {
    var all := a + ["x;"];
    OpenItemLength(a);
    assert !StartsTestItem("x;");
    assert Production([]) == 0 && Production(["x;"]) == 1;
    assert all[0] == a[0] && all[|all|..] == [] && a[|a|..] == [];
    hide ItemLength, StartsTestItem;
  }

  lemma OpenItemLength(a: seq<string>)
    requires a != [] && (1 + SkipAttributes(a[1..]) == |a| || ItemLength(a) > |a|)
    ensures ItemLength(a) >= |a| && ItemLength(a + ["x;"]) >= |a| + 1
  {
    hide ClosesItem, IsOneLiner, IsAttribute;
    var all := a + ["x;"];
    var i := 1 + SkipAttributes(a[1..]);
    LoneStatement();
    assert all[1..] == a[1..] + ["x;"];
    SkipInBoth(a[1..], ["x;"]);
    if i < |a| {
      assert all[i] == a[i];
      assert all[i..] == a[i..] + ["x;"];
      FindPast(a[i..], ["x;"]);
    } else {
      assert SkipAttributes(["x;"]) == 0;
    }
  }

  lemma LoneStatement()
    ensures !IsAttribute("x;") && !ClosesItem("x;") && IsOneLiner("x;")
  {
    TrimsTo("x;", "");
    hide TrimEnd, IsWhite;
    var x := "x;";
    assert x + "" == x && x[0] == 'x' && x[1..] == ";";
  }

  lemma FindPast(a: seq<string>, b: seq<string>)
    requires FindClose(a) == |a|
    ensures FindClose(a + b) >= |a|
  {
    var n := FindClose(a + b);
    assert forall k :: 0 <= k < |a| ==> (a + b)[k] == a[k];
    assert n < |a + b| ==> ClosesItem((a + b)[n]);
  }

  /** The counts of a text and of what follows it add up, whatever follows, exactly when the text ends
      where the scan comes by. */
  lemma BoundaryIsWhereCountsAdd(a: seq<string>)
    ensures Boundary(a) <==> forall b :: Adds(a, b)
  {
    if Boundary(a) {
      forall b ensures Adds(a, b) {
        CountsAdd(a, b);
      }
    } else {
      OpenEndHides(a);
    }
  }
}
