/** What the states a disk has been in tell of a copy made over what an earlier one left: when it began,
    and whether it was made over something harmful. */
module Traces {
  import opened Wrappers
  import opened Filesystem
  import opened DiskModel
  import opened Leftovers

  /** A turn of the upgrade, or a save: what it is of, where in the backup its copy goes, the name that is
      made under, and all that may be reached. */
  datatype Plan = Plan(src: Path, dest: Path, partial: Path, reach: set<Path>)

  // ---- What is left, and the harm in it ----

  /** `left` has no files, and no directories but ones `n` has. */
  ghost predicate DirsOf(left: Node, n: Node)
    decreases left
  {
    left.Dir? && n.Dir? && forall k | k in left.kids :: k in n.kids && DirsOf(left.kids[k], n.kids[k])
  }

  /** What may be left in a copy's place without harm: nothing, directories the copy will have, or a
      file, over which no directory is made. */
  ghost predicate Harmless(left: Option<Node>, n: Node) {
    left.None? || left.value.File? || DirsOf(left.value, n)
  }

  /** Nothing harmful to a copy of `src` is at `partial`. */
  ghost predicate HarmlessAt(s: State, src: Path, partial: Path) {
    Get(s.root, src).Some? ==> Harmless(Get(s.root, partial), Get(s.root, src).value)
  }

  /** In a directory that is not harmless there is a name the item lacks, or a file. */
  lemma {:induction false} HarmfulHas(left: Node, n: Node) returns (q: Path)
    requires left.Dir? && n.Dir? && !DirsOf(left, n)
    ensures Get(left, q).Some? && (Get(left, q).value.File? || Get(n, q).None? || Get(n, q).value.File?)
    decreases left
  {
    var k :| k in left.kids && !(k in n.kids && DirsOf(left.kids[k], n.kids[k]));
    if k in n.kids && left.kids[k].Dir? && n.kids[k].Dir? {
      var r := HarmfulHas(left.kids[k], n.kids[k]);
      q := [k] + r;
      assert q[1..] == r;
    } else {
      q := [k];
      assert q[1..] == [];
    }
  }

  lemma {:induction false} DirsAt(left: Node, n: Node, q: Path)
    requires DirsOf(left, n) && Get(left, q).Some?
    ensures Get(left, q).value.Dir? && Get(n, q).Some? && Get(n, q).value.Dir?
    decreases |q|
  {
    if q != [] {
      DirsAt(left.kids[q[0]], n.kids[q[0]], q[1..]);
    }
  }

  /** What is harmful still is where every name left still is. */
  lemma HarmfulStays(s: State, t: State, src: Path, partial: Path)
    requires LeftIsIn(s, t, partial, partial) && Get(t.root, src) == Get(s.root, src) && !HarmlessAt(s, src, partial)
    ensures !HarmlessAt(t, src, partial)
  {
    var n, left := Get(s.root, src).value, Get(s.root, partial).value;
    assert partial + [] == partial;
    assert Get(t.root, partial + []).Some?;
    if n.Dir? {
      var q := HarmfulHas(left, n);
      GetUnder(s.root, partial, q);
      GetUnder(t.root, partial, q);
      var now := Get(t.root, partial).value;
      if DirsOf(now, n) {
        DirsAt(now, n, q);
      }
    }
  }

  lemma StayIsIn(s: State, t: State, partial: Path)
    requires NamesStay(s.root, t.root)
    ensures LeftIsIn(s, t, partial, partial)
  {
  }

  // ---- A copy in the trace ----

  /** A step after which a file that was there when the turn began holds another text, or something is
      in the place the copy is for; taken while something harmful has been there since the turn began. */
  ghost predicate SoilingStep(seen: seq<State>, from: nat, k: nat, src: Path, partial: Path, dest: Path) {
    && from <= k && k + 1 < |seen|
    && (forall j | from <= j <= k :: !HarmlessAt(seen[j], src, partial))
    && (Rewrites(seen[from], seen[k], seen[k + 1])
        || (Get(seen[k].root, dest) == None && Get(seen[k + 1].root, dest).Some?))
  }

  ghost predicate Rewrites(s: State, t: State, u: State) {
    exists i :: i in s.data && TextChanges(t, u, i)
  }

  ghost predicate TextChanges(t: State, u: State, i: nat) {
    i in t.data && i in u.data && u.data[i] != t.data[i]
  }

  /** Such a step has been taken by state number `m`. */
  ghost predicate SoiledIn(seen: seq<State>, from: nat, m: nat, src: Path, partial: Path, dest: Path) {
    exists k: nat :: k < m && SoilingStep(seen, from, k, src, partial, dest)
  }

  /** Something harmful was there when the turn began. */
  lemma SoiledHadHarm(seen: seq<State>, from: nat, m: nat, src: Path, partial: Path, dest: Path)
    requires SoiledIn(seen, from, m, src, partial, dest)
    ensures from < |seen| && !HarmlessAt(seen[from], src, partial) && IsDir(seen[from].root, partial)
  {
    var k: nat :| k < m && SoilingStep(seen, from, k, src, partial, dest);
    assert !HarmlessAt(seen[from], src, partial);
  }

  lemma SoiledLater(seen: seq<State>, from: nat, m: nat, n: nat, src: Path, partial: Path, dest: Path)
    requires m <= n && SoiledIn(seen, from, m, src, partial, dest)
    ensures SoiledIn(seen, from, n, src, partial, dest)
  {
    var k: nat :| k < m && SoilingStep(seen, from, k, src, partial, dest);
    assert k < n && SoilingStep(seen, from, k, src, partial, dest);
  }

  /** What comes after state number `m` has no part in it. */
  lemma SoiledInPrefix(seen: seq<State>, all: seq<State>, from: nat, m: nat, src: Path, partial: Path, dest: Path)
    requires seen <= all && m < |seen|
    ensures SoiledIn(seen, from, m, src, partial, dest) <==> SoiledIn(all, from, m, src, partial, dest)
  {
    if SoiledIn(seen, from, m, src, partial, dest) {
      var k: nat :| k < m && SoilingStep(seen, from, k, src, partial, dest);
      SoilingInPrefix(seen, all, from, k, src, partial, dest);
    }
    if SoiledIn(all, from, m, src, partial, dest) {
      var k: nat :| k < m && SoilingStep(all, from, k, src, partial, dest);
      SoilingInPrefix(seen, all, from, k, src, partial, dest);
    }
  }

  lemma SoilingInPrefix(seen: seq<State>, all: seq<State>, from: nat, k: nat, src: Path, partial: Path, dest: Path)
    requires seen <= all && k + 1 < |seen|
    ensures SoilingStep(seen, from, k, src, partial, dest) <==> SoilingStep(all, from, k, src, partial, dest)
  {
    hide HarmlessAt, Rewrites, Get;
    assert forall j | 0 <= j < |seen| :: seen[j] == all[j];
  }

  /** Once what is copied is copied, no file is written to, and only the two places change. */
  ghost predicate AfterCopy(s: State, t: State, partial: Path, dest: Path) {
    && Sound(t) && Grows(s.data, t.data) && s.next <= t.next
    && (forall q :: Clear(q, {partial, dest}) ==> Get(t.root, q) == Get(s.root, q))
  }

  /** From state number `c` to `e`, a copy of `src` is made over what is at `partial`, names coming and
      none going. Then it is moved in, in one step, which is the last; or what is there is removed, names
      going and none coming. */
  ghost predicate CopyTrace(seen: seq<State>, c: nat, e: nat, src: Path, partial: Path, dest: Path) {
    && c <= e < |seen|
    && (forall m | c <= m <= e :: WrittenOver(seen[c], seen[m], src, partial) && NamesStay(seen[c].root, seen[m].root))
    && (forall m | e < m < |seen| :: AfterCopy(seen[e], seen[m], partial, dest))
    && (forall m | e < m < |seen| :: EndStep(seen, e, m, partial, dest))
  }

  ghost predicate EndStep(seen: seq<State>, e: nat, m: nat, partial: Path, dest: Path)
    requires e < m < |seen|
  {
    if Get(seen[m].root, dest) == None then NamesStay(seen[m].root, seen[m - 1].root)
    else m == e + 1 == |seen| - 1 && CanRename(seen[e].root, partial, dest)
         && seen[m] == Renamed(seen[e], partial, dest)
  }

  lemma TraceCopied(before: seq<State>, had: seq<State>, src: Path, partial: Path, dest: Path)
    requires before != [] && AllOver(before, had, before[|before| - 1], src, partial)
    requires AllNamesStay(before, had, before[|before| - 1]) && Sound(before[|before| - 1])
    ensures CopyTrace(had, |before| - 1, |had| - 1, src, partial, dest)
  {
    var s := before[|before| - 1];
    NamesStayed(s.root);
    SameElsewhere(s, {partial});
    ElsewhereOver(s, s, src, partial);
    hide WrittenOver, NamesStay, Sound;
    assert had[|before| - 1] == s;
  }

  lemma TraceMoved(had: seq<State>, t: State, c: nat, src: Path, partial: Path, dest: Path)
    requires had != [] && CopyTrace(had, c, |had| - 1, src, partial, dest) && Sound(had[|had| - 1])
    requires var was := had[|had| - 1]; CanRename(was.root, partial, dest) && t == Renamed(was, partial, dest)
    ensures CopyTrace(had + [t], c, |had| - 1, src, partial, dest)
  {
    var was := had[|had| - 1];
    RenameMoves(was, partial, dest);
    hide WrittenOver, NamesStay, CanRename, Renamed, Get, Clear;
    var all := had + [t];
    assert forall m | 0 <= m < |had| :: all[m] == had[m];
  }

  lemma TraceCleaned(had: seq<State>, after: seq<State>, c: nat, src: Path, partial: Path, dest: Path)
    requires had != [] && CopyTrace(had, c, |had| - 1, src, partial, dest) && Apart(partial, dest)
    requires OnlyAt(had, after, had[|had| - 1], {partial}) && Shrinking(had, after)
    requires Get(had[|had| - 1].root, dest) == None
    ensures CopyTrace(after, c, |had| - 1, src, partial, dest)
  {
    hide WrittenOver, NamesStay, CanRename, Renamed;
    assert forall m | 0 <= m < |had| :: after[m] == had[m];
    forall m | |had| <= m < |after|
      ensures AfterCopy(had[|had| - 1], after[m], partial, dest) && Get(after[m].root, dest) == None
    {
      CleanedState(had[|had| - 1], after[m], partial, dest);
    }
  }

  lemma CleanedState(s: State, t: State, partial: Path, dest: Path)
    requires Elsewhere(s, t, {partial}) && Apart(partial, dest)
    ensures AfterCopy(s, t, partial, dest) && Get(t.root, dest) == Get(s.root, dest)
  {
    NotUnderOne(partial);
  }

  // ---- Over something harmful ----

  /** Until state number `c`, nothing that was left went and came back, nor did the source change. */
  ghost predicate BeforeCopy(seen: seq<State>, from: nat, c: nat, src: Path, partial: Path) {
    && from <= c < |seen|
    && forall j | from <= j <= c ::
         LeftIsIn(seen[c], seen[j], partial, partial) && Get(seen[j].root, src) == Get(seen[c].root, src)
  }

  /** While it is copied over, what is harmful stays so, from before the copy on. */
  lemma HarmfulThroughout(seen: seq<State>, from: nat, c: nat, e: nat, k: nat, src: Path, partial: Path, dest: Path)
    requires BeforeCopy(seen, from, c, src, partial) && CopyTrace(seen, c, e, src, partial, dest) && c <= k <= e
    requires !HarmlessAt(seen[c], src, partial) && Apart(src, partial)
    ensures forall j | from <= j <= k :: !HarmlessAt(seen[j], src, partial)
  {
    hide HarmlessAt, NamesStay, LeftIsIn, Get;
    forall j | from <= j <= k ensures !HarmlessAt(seen[j], src, partial) {
      if j > c {
        StayIsIn(seen[c], seen[j], partial);
      }
      HarmfulStays(seen[c], seen[j], src, partial);
    }
  }

  lemma {:induction false} FirstChange(seen: seq<State>, c: nat, m: nat, i: nat) returns (k: nat)
    requires c <= m < |seen| && forall j | c <= j <= m :: i in seen[j].data
    requires seen[m].data[i] != seen[c].data[i]
    ensures c <= k < m && TextChanges(seen[k], seen[k + 1], i)
    decreases m - c
  {
    if seen[m - 1].data[i] != seen[m].data[i] {
      k := m - 1;
    } else {
      k := FirstChange(seen, c, m - 1, i);
    }
  }

  /** A text that is not what it was was changed by a soiling step. */
  lemma ChangeSoils(seen: seq<State>, from: nat, c: nat, e: nat, m: nat, i: nat, src: Path, partial: Path, dest: Path)
    requires BeforeCopy(seen, from, c, src, partial) && CopyTrace(seen, c, e, src, partial, dest) && c <= m < |seen|
    requires !HarmlessAt(seen[c], src, partial) && Apart(src, partial)
    requires i in seen[from].data && i in seen[c].data && i in seen[m].data && seen[m].data[i] != seen[c].data[i]
    ensures SoiledIn(seen, from, m, src, partial, dest)
    ensures exists q :: LeadsOver(seen[c], src, partial, q, i)
  {
    hide HarmlessAt, NamesStay, Get, LeftIsIn, LeadsOver;
    var n := if m <= e then m else e;
    KeysStay(seen, c, e, n, i, src, partial, dest);
    var k := FirstChange(seen, c, n, i);
    HarmfulThroughout(seen, from, c, e, k, src, partial, dest);
    assert Rewrites(seen[from], seen[k], seen[k + 1]);
    assert SoilingStep(seen, from, k, src, partial, dest);
    assert WrittenOver(seen[c], seen[n], src, partial);
  }

  lemma KeysStay(seen: seq<State>, c: nat, e: nat, n: nat, i: nat, src: Path, partial: Path, dest: Path)
    requires CopyTrace(seen, c, e, src, partial, dest) && c <= n <= e && i in seen[c].data
    ensures forall j | c <= j <= n :: i in seen[j].data
  {
    forall j | c <= j <= n ensures i in seen[j].data {
      assert WrittenOver(seen[c], seen[j], src, partial);
    }
  }

  lemma NotYetFilled(seen: seq<State>, c: nat, e: nat, src: Path, partial: Path, dest: Path)
    requires CopyTrace(seen, c, e, src, partial, dest) && Apart(partial, dest) && Get(seen[c].root, dest) == None
    ensures forall j | c <= j <= e :: Get(seen[j].root, dest) == None
  {
    hide Get, NamesStay, AfterCopy, CanRename, Renamed;
    forall j | c <= j <= e ensures Get(seen[j].root, dest) == None {
      assert WrittenOver(seen[c], seen[j], src, partial);
    }
  }

  lemma BeganBy(seen: seq<State>, from: nat, c: nat, src: Path, partial: Path)
    requires BeforeCopy(seen, from, c, src, partial)
    ensures from <= c < |seen|
  {
  }

  lemma FilledAtEnd(seen: seq<State>, c: nat, e: nat, m: nat, src: Path, partial: Path, dest: Path)
    requires CopyTrace(seen, c, e, src, partial, dest) && c <= m < |seen| && Apart(partial, dest)
    requires Get(seen[c].root, dest) == None && Get(seen[m].root, dest).Some?
    ensures c <= e && m == e + 1 && Get(seen[e].root, dest) == None
  {
    NotYetFilled(seen, c, e, src, partial, dest);
    assert m > e ==> EndStep(seen, e, m, partial, dest);
    hide NamesStay, WrittenOver, AfterCopy, CanRename, Renamed, Get, Apart;
  }

  /** What is moved in over something harmful is so by a soiling step. */
  lemma FillSoils(seen: seq<State>, from: nat, c: nat, e: nat, m: nat, src: Path, partial: Path, dest: Path)
    requires BeforeCopy(seen, from, c, src, partial) && CopyTrace(seen, c, e, src, partial, dest) && c <= m < |seen|
    requires !HarmlessAt(seen[c], src, partial) && Apart(src, partial) && Apart(partial, dest)
    requires Get(seen[c].root, dest) == None && Get(seen[m].root, dest).Some?
    ensures SoiledIn(seen, from, m, src, partial, dest)
  {
    FilledAtEnd(seen, c, e, m, src, partial, dest);
    BeganBy(seen, from, c, src, partial);
    HarmfulThroughout(seen, from, c, e, e, src, partial, dest);
    FillStep(seen, from, e, m, src, partial, dest);
    hide *;
  }

  lemma FillStep(seen: seq<State>, from: nat, e: nat, m: nat, src: Path, partial: Path, dest: Path)
    requires from <= e && m == e + 1 && m < |seen| && forall j | from <= j <= e :: !HarmlessAt(seen[j], src, partial)
    requires Get(seen[e].root, dest) == None && Get(seen[m].root, dest).Some?
    ensures SoiledIn(seen, from, m, src, partial, dest)
  {
    hide HarmlessAt, Get, Rewrites;
    assert SoilingStep(seen, from, e, src, partial, dest);
  }
}
