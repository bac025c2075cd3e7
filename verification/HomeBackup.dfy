/** Saving what an upgrade is about to change: a copy made beside its place and moved in once whole,
    each file copied or, for a run, linked. */
module HomeBackup {
  import opened Wrappers
  import opened Filesystem
  import opened DiskModel
  import opened Leftovers
  import opened Traces

  const README := "README.txt"

  datatype Backup = Backup(dir: Path)

  // ---- What a copy is ----

  /** `m`, in `t`, is a whole copy of `n` as it was in `start`: the same names, each leading to the
      same text, in an inode of the copy's own or in one of `shared`. */
  ghost predicate Copied(n: Node, m: Node, start: State, t: State, shared: set<nat>)
    decreases n
  {
    match n
    case File(i) =>
      && m.File?
      && i in start.data && m.ino in t.data && t.data[m.ino] == start.data[i]
      && ((m.ino == i && i in shared) || start.next <= m.ino)
    case Dir(kids) =>
      && m.Dir?
      && m.kids.Keys == kids.Keys
      && forall k | k in kids :: Copied(kids[k], m.kids[k], start, t, shared)
  }

  /** The files of `n`, found at `path`, that `put` may link. */
  ghost function Linkable(put: PutMode, path: Path, n: Node): set<nat>
    decreases n
  {
    if put.Copying? || put.logs <= path then {}
    else
      match n
      case File(i) => {i}
      case Dir(kids) => set k, i | k in kids && i in Linkable(put, path + [k], kids[k]) :: i
  }

  /** A copy stays one as the disk goes on, and seen from before its own start. */
  lemma {:induction false} CopiedBetween(n: Node, m: Node, start: State, was: State, t: State, u: State,
                                         shared: set<nat>, wide: set<nat>)
    requires Copied(n, m, was, t, shared) && shared <= wide
    requires Inos(n) <= start.data.Keys && Grows(start.data, was.data) && start.next <= was.next
    requires Grows(t.data, u.data)
    ensures Copied(n, m, start, u, wide)
    decreases n
  {
    if n.Dir? {
      forall k | k in n.kids
        ensures Copied(n.kids[k], m.kids[k], start, u, wide)
      {
        CopiedBetween(n.kids[k], m.kids[k], start, was, t, u, shared, wide);
      }
    }
  }

  /** The inodes a copy leads to. */
  lemma {:induction false} CopiedInos(n: Node, m: Node, start: State, t: State, shared: set<nat>)
    requires Copied(n, m, start, t, shared)
    ensures forall j | j in Inos(m) :: j in t.data && (j in shared || start.next <= j)
    decreases n
  {
    if n.Dir? {
      forall k | k in n.kids
        ensures forall j | j in Inos(m.kids[k]) :: j in t.data && (j in shared || start.next <= j)
      {
        CopiedInos(n.kids[k], m.kids[k], start, t, shared);
      }
    }
  }

  // ---- Making one ----

  method PutFile(disk: Disk, from: Path, to: Path, put: PutMode) returns (ok: bool)
    requires disk.Valid()
    modifies disk
    ensures disk.Valid() && old(disk.seen) <= disk.seen && disk.hits >= old(disk.hits)
    ensures ok || disk.hits > old(disk.hits) || !IsFile(old(disk.now).root, from)
            || IsDir(old(disk.now).root, to) || !Room(old(disk.now).root, to)
    ensures MayLink(put, from) ==>
              ok || disk.hits > old(disk.hits) + 1 || !IsFile(old(disk.now).root, from)
              || Get(old(disk.now).root, to).Some? || !Room(old(disk.now).root, to)
    ensures NamesStay(old(disk.now).root, disk.now.root) && AllNamesStay(old(disk.seen), disk.seen, old(disk.now))
    ensures Get(old(disk.now).root, to) == None && Apart(from, to) ==>
              && OnlyAt(old(disk.seen), disk.seen, old(disk.now), {to}) && Elsewhere(old(disk.now), disk.now, {to})
              && (ok ==> IsFile(old(disk.now).root, from) && Get(disk.now.root, to).Some?
                         && Copied(Get(old(disk.now).root, from).value, Get(disk.now.root, to).value, old(disk.now),
                                   disk.now, Linkable(put, from, Get(old(disk.now).root, from).value)))
    ensures ok && IsFile(old(disk.now).root, to) ==>
              && IsFile(old(disk.now).root, from) && ReadText(old(disk.now), from).Some?
              && var lost := Get(old(disk.now).root, from) == Get(old(disk.now).root, to);
                 disk.now == Overwritten(old(disk.now), to, if lost then "" else ReadText(old(disk.now), from).value)
    ensures IsFile(old(disk.now).root, to) ==>
              && (!ok ==> disk.now == old(disk.now) || GivenText(old(disk.now), disk.now, to))
              && forall i :: |old(disk.seen)| <= i < |disk.seen| ==>
                   && IsFile(old(disk.now).root, from)
                   && GivenText(old(disk.now), disk.seen[i], to)
    ensures IsDir(old(disk.now).root, to) ==> !ok && disk.now == old(disk.now) && disk.seen == old(disk.seen)
    ensures ok && Fitting(old(disk.now), from, to) ==>
              Written(old(disk.now), disk.now, from, to, put) && Alike(old(disk.now), from, disk.now, to)
    ensures ok && disk.hits == old(disk.hits) && MayLink(put, from) && Get(old(disk.now).root, to) == None ==>
              Get(disk.now.root, to) == Get(old(disk.now).root, from)
  {
    hide Elsewhere, AllSound, Count;
    ghost var start := disk.now;
    if put.Linking? && !(put.logs <= from) {
      ok := disk.Link(from, to);
      if ok {
        PutNames(start.root, to, Get(start.root, from).value);
        GetPut(start.root, to, Get(start.root, from).value, to);
        InosOfGet(start.root, from);
        if Fitting(start, from, to) {
          LinkWrites(start, from, to, put);
          FilesAlike(start, from, disk.now, to);
        }
        return;
      }
    }
    ok := disk.Copy(from, to);
    if ok && Get(start.root, to) == None {
      CreateElsewhere(start, to, ReadText(start, from).value);
    }
    if ok && Fitting(start, from, to) {
      FileWritten(start, disk.now, from, to, put);
    }
  }

  lemma FileWritten(start: State, t: State, from: Path, to: Path, put: PutMode)
    requires Fitting(start, from, to) && Sound(t) && IsFile(start.root, from) && ReadText(start, from).Some?
    requires Get(start.root, to) == None ==> Room(start.root, to) && t == Create(start, to, ReadText(start, from).value)
    requires IsFile(start.root, to) ==>
               var lost := Get(start.root, from) == Get(start.root, to);
               t == Overwritten(start, to, if lost then "" else ReadText(start, from).value)
    ensures Written(start, t, from, to, put) && Alike(start, from, t, to)
  {
    assert from + [] == from && to + [] == to;
    assert !IsDir(start.root, to);
    hide LeftFits, Alike, Written;
    if Get(start.root, to) == None {
      CreateWrites(start, from, to, put, ReadText(start, from).value);
    } else {
      assert OneName(start, to) || EmptyLink(start, from, to);
      OverwriteWrites(start, from, to, put, t.data[Get(start.root, to).value.ino]);
    }
    FilesAlike(start, from, t, to);
  }

  /** Entry `k` of the directory at `dst` came to be, or changed, and no other entry of it did. */
  lemma EntrySet(was: State, t: State, dst: Path, kids: map<string, Node>, k: string, c: Node)
    requires Get(was.root, dst) == Some(Dir(kids)) && Elsewhere(was, t, {dst + [k]})
    requires Get(t.root, dst + [k]) == Some(c)
    ensures Get(t.root, dst) == Some(Dir(kids[k := c]))
  {
    NotUnderOne(dst + [k]);
    assert dst < dst + [k];
    assert IsDir(was.root, dst) && IsDir(t.root, dst);
    var got := Get(t.root, dst).value;
    forall j
      ensures j in got.kids <==> j in kids[k := c]
      ensures j in got.kids ==> got.kids[j] == kids[k := c][j]
    {
      EntryOf(t.root, dst, got, j);
      EntryOf(was.root, dst, Dir(kids), j);
      if j != k {
        SiblingKept(was, t, dst, k, j);
      }
    }
    assert got.kids == kids[k := c];
  }

  ghost predicate FitToCopy(s: State, src: Path, dst: Path, n: Node) {
    Apart(src, dst) && Get(s.root, src) == Some(n) && Harmless(Get(s.root, dst), n)
  }

  /** `copy_tree`. Over a leftover that is not harmless, names already there stay, and files are
      written through whatever names lead to them. When those names lead nowhere else and the source
      has them all, the copy ends up like the source. */
  method CopyTree(disk: Disk, src: Path, dst: Path, put: PutMode, n: Node, ghost keep: set<nat>) returns (ok: bool)
    requires disk.Valid() && dst != []
    modifies disk
    ensures disk.Valid() && old(disk.seen) <= disk.seen && disk.hits >= old(disk.hits)
    ensures NamesStay(old(disk.now).root, disk.now.root) && (ok ==> IsDir(disk.now.root, dst))
    ensures AllNamesStay(old(disk.seen), disk.seen, old(disk.now))
    ensures FitToCopy(old(disk.now), src, dst, n) ==>
              && OnlyAt(old(disk.seen), disk.seen, old(disk.now), {dst}) && Elsewhere(old(disk.now), disk.now, {dst})
              && (ok ==> Copied(n, Get(disk.now.root, dst).value, old(disk.now), disk.now, Linkable(put, src, n)))
              && (ok || disk.hits > old(disk.hits) || n.File? || Blocked(old(disk.now).root, dst))
    ensures ok ==> CopiedOver(old(disk.now), disk.now, src, dst, put, n)
    ensures ok && disk.hits == old(disk.hits) ==> Linked(old(disk.now), disk.now, src, dst, put, n)
    ensures n.Dir? ==> Onto(old(disk.seen), disk.seen, old(disk.now), disk.now, src, dst, n, keep, ok,
                            disk.hits == old(disk.hits))
    ensures n.File? ==> !ok && disk.now == old(disk.now) && disk.seen == old(disk.seen)
    decreases n, 0
  {
    hide CopiedOver, HalfCopiedOver, Onto, HalfOnto, AllOver, Linked, HalfLinked;
    hide Elsewhere, Get, Room, Inos, Clear, NotUnder, Linkable, Copied, HalfCopied, OnlyAt, FitToCopy, FitEntry;
    hide NamesStay, NamesUpTo, SameFiles, Blocked, IsDir, Count, AllNamesStay, Sound, AllSound, Apart;
    ghost var start := disk.now;
    NoneGone(disk.seen, start);
    ghost var fit := FitToCopy(start, src, dst, n);
    NamesStayed(start.root);
    SameElsewhere(start, {dst});
    NoSteps(disk.seen, start, {dst});
    if n.File? {
      return false;
    }
    ok := disk.MakeDirs(dst, dst);
    StepsAdd(old(disk.seen), disk.seen, start, {dst});
    UpToStays(start.root, disk.now.root, dst);
    OntoBegins(old(disk.seen), disk.seen, start, disk.now, src, dst, n, keep, ok, disk.hits == old(disk.hits));
    if !ok {
      return;
    }
    var names := n.kids.Keys;
    ghost var left, done: map<string, Node> := map[], map[];
    if fit {
      left := CopyBegun(old(disk.seen), disk.seen, start, disk.now, src, dst, put, n);
    }
    OverBegun(start, disk.now, src, dst, put, n);
    NoneLinked(start, disk.now, src, dst, put, n);
    while names != {}
      invariant disk.Valid() && old(disk.seen) <= disk.seen && names <= n.kids.Keys && disk.hits >= old(disk.hits)
      invariant NamesStay(start.root, disk.now.root) && IsDir(disk.now.root, dst)
      invariant AllNamesStay(old(disk.seen), disk.seen, start)
      invariant fit ==> HalfCopied(old(disk.seen), disk.seen, start, disk.now, src, dst, put, n, left, done)
      invariant fit ==> done.Keys == n.kids.Keys - names
      invariant HalfCopiedOver(start, disk.now, src, dst, put, n, names)
      invariant disk.hits == old(disk.hits) ==> HalfLinked(start, disk.now, src, dst, put, n, names)
      invariant HalfOnto(old(disk.seen), disk.seen, start, disk.now, src, dst, n, keep, names)
      decreases |names|
    {
      var k :| k in names;
      ghost var was, had, hits := disk.now, disk.seen, disk.hits;
      if fit {
        CopyReady(old(disk.seen), had, start, was, src, dst, put, n, left, done, k);
      }
      ok := CopyEntry(disk, src + [k], dst + [k], put, n.kids[k], keep);
      NamesStayThen(start.root, was.root, disk.now.root);
      StayThen(old(disk.seen), had, disk.seen, start, was);
      StaysDir(was.root, disk.now.root, dst);
      OntoGoesOn(old(disk.seen), had, disk.seen, start, was, disk.now, src, dst, n, keep, names, k, ok,
                 disk.hits == hits, disk.hits == old(disk.hits));
      if fit {
        done := CopyGoesOn(old(disk.seen), had, disk.seen, start, was, disk.now, src, dst, put, n, left, done, names,
                           k, ok);
      }
      if !ok {
        return;
      }
      OverGoesOn(start, was, disk.now, src, dst, put, n, names, k);
      if disk.hits == old(disk.hits) {
        LinkedGoesOn(old(disk.seen), had, disk.seen, start, was, disk.now, src, dst, put, n, keep, names, k);
      }
      names := names - {k};
    }
    OverEnds(start, disk.now, src, dst, put, n);
    if disk.hits == old(disk.hits) {
      LinkedEnds(start, disk.now, src, dst, put, n);
    }
    OntoEnds(old(disk.seen), disk.seen, start, disk.now, src, dst, n, keep, disk.hits == old(disk.hits));
    if fit {
      CopyWhole(old(disk.seen), disk.seen, start, disk.now, src, dst, put, n, left, done);
    }
  }

  /** Copied over what was left, if that fits and no file of it matters by another name, `dst` is like
      `src`. */
  ghost predicate CopiedOver(s: State, t: State, src: Path, dst: Path, put: PutMode, n: Node) {
    Fitting(s, src, dst) && Get(s.root, src) == Some(n) ==> Written(s, t, src, dst, put) && Alike(s, src, t, dst)
  }

  /** The same, but for the entries in `names`. */
  ghost predicate HalfCopiedOver(s: State, t: State, src: Path, dst: Path, put: PutMode, n: Node, names: set<string>) {
    Fitting(s, src, dst) && Get(s.root, src) == Some(n) && n.Dir? ==>
      HalfWritten(s, t, src, dst, put, n.kids.Keys - names)
  }

  lemma OverBegun(start: State, now: State, src: Path, dst: Path, put: PutMode, n: Node)
    requires Elsewhere(start, now, {dst}) && SameFiles(start, now) && n.Dir?
    requires if Get(start.root, dst) == None then Get(now.root, dst) == Some(Dir(map[])) else now == start
    ensures HalfCopiedOver(start, now, src, dst, put, n, n.kids.Keys)
  {
    NotUnderOne(dst);
    if Fitting(start, src, dst) {
      WritingBegins(start, now, src, dst, put);
      assert n.kids.Keys - n.kids.Keys == {};
    }
  }

  lemma OverGoesOn(start: State, was: State, now: State, src: Path, dst: Path, put: PutMode, n: Node,
                   names: set<string>, k: string)
    requires HalfCopiedOver(start, was, src, dst, put, n, names) && n.Dir? && k in names && names <= n.kids.Keys
    requires CopiedOver(was, now, src + [k], dst + [k], put, n.kids[k]) && IsDir(now.root, dst)
    ensures HalfCopiedOver(start, now, src, dst, put, n, names - {k})
  {
    hide Fitting, Written, Alike, HalfWritten;
    if Fitting(start, src, dst) && Get(start.root, src) == Some(n) {
      EntryFits(start, was, src, dst, put, n.kids.Keys - names, k);
      EntryOf(start.root, src, n, k);
      EntryWritten(start, was, now, src, dst, put, n.kids.Keys - names, k);
      assert n.kids.Keys - (names - {k}) == n.kids.Keys - names + {k};
    }
  }

  lemma OverEnds(start: State, now: State, src: Path, dst: Path, put: PutMode, n: Node)
    requires HalfCopiedOver(start, now, src, dst, put, n, {}) && n.Dir? && IsDir(now.root, dst)
    ensures CopiedOver(start, now, src, dst, put, n)
  {
    hide Fitting, Written, Alike;
    assert n.kids.Keys - {} == n.kids.Keys;
    if Fitting(start, src, dst) && Get(start.root, src) == Some(n) {
      AllWritten(start, now, src, dst, put, n);
    }
  }

  /** What may be linked is, where nothing was left. */
  ghost predicate Linked(s: State, t: State, src: Path, dst: Path, put: PutMode, n: Node) {
    Apart(src, dst) && Sound(s) && Get(s.root, src) == Some(n) ==> LinksMade(s, t, src, dst, put)
  }

  ghost predicate HalfLinked(start: State, now: State, src: Path, dst: Path, put: PutMode, n: Node,
                             names: set<string>) {
    n.Dir? && Apart(src, dst) && Sound(start) && Get(start.root, src) == Some(n) ==>
      forall j | j in n.kids.Keys - names :: LinksMade(start, now, src + [j], dst + [j], put)
  }

  lemma NoneLinked(start: State, now: State, src: Path, dst: Path, put: PutMode, n: Node)
    requires n.Dir?
    ensures HalfLinked(start, now, src, dst, put, n, n.kids.Keys)
  {
  }

  lemma LinkedGoesOn(before: seq<State>, had: seq<State>, after: seq<State>, start: State, was: State, now: State,
                     src: Path, dst: Path, put: PutMode, n: Node, keep: set<nat>, names: set<string>, k: string)
    requires HalfLinked(start, was, src, dst, put, n, names) && n.Dir? && k in names && names <= n.kids.Keys
    requires HalfOnto(before, had, start, was, src, dst, n, keep, names) && Sound(was)
    requires Onto(had, after, was, now, src + [k], dst + [k], n.kids[k], keep, true, true)
             || Onto(had, after, was, now, src + [k], dst + [k], n.kids[k], keep, true, false)
    requires Linked(was, now, src + [k], dst + [k], put, n.kids[k])
    ensures HalfLinked(start, now, src, dst, put, n, names - {k})
  {
    hide Get, Sound, WrittenOver, HalfOver, HalfSpares, Spares, Matches, CanStart, Inos, SelfBlanks, HalfSelfBlanks;
    hide LinksMade;
    if Apart(src, dst) && Sound(start) && Get(start.root, src) == Some(n) {
      var done := n.kids.Keys - names;
      assert n.kids.Keys - (names - {k}) == done + {k};
      EntryIsThere(start, was, src, dst, n, done, k);
      LinksGoOn(start, was, now, src, dst, put, done, k);
    }
  }

  lemma LinkedEnds(start: State, now: State, src: Path, dst: Path, put: PutMode, n: Node)
    requires HalfLinked(start, now, src, dst, put, n, {}) && n.Dir?
    ensures Linked(start, now, src, dst, put, n)
  {
    hide LinksMade, Sound;
    assert n.kids.Keys - {} == n.kids.Keys;
    if Apart(src, dst) && Sound(start) && Get(start.root, src) == Some(n) {
      EntriesLink(start, now, src, dst, put, n);
    }
  }

  /** There is nothing at `to`, or, for a directory, nothing harmful. */
  ghost predicate FitEntry(s: State, from: Path, to: Path, n: Node) {
    && FitToCopy(s, from, to, n)
    && (n.File? ==> Get(s.root, to) == None)
    && Room(s.root, to) && !Blocked(s.root, to)
  }

  /** One entry of a directory, itself a directory or a file. */
  method CopyEntry(disk: Disk, from: Path, to: Path, put: PutMode, n: Node, ghost keep: set<nat>) returns (ok: bool)
    requires disk.Valid() && to != []
    modifies disk
    ensures disk.Valid() && old(disk.seen) <= disk.seen && disk.hits >= old(disk.hits)
    ensures NamesStay(old(disk.now).root, disk.now.root) && AllNamesStay(old(disk.seen), disk.seen, old(disk.now))
    ensures FitEntry(old(disk.now), from, to, n) ==>
              && OnlyAt(old(disk.seen), disk.seen, old(disk.now), {to}) && Elsewhere(old(disk.now), disk.now, {to})
              && (ok ==> Get(disk.now.root, to).Some?
                         && Copied(n, Get(disk.now.root, to).value, old(disk.now), disk.now, Linkable(put, from, n)))
              && (ok || disk.hits > old(disk.hits))
    ensures ok ==> CopiedOver(old(disk.now), disk.now, from, to, put, n)
    ensures ok && disk.hits == old(disk.hits) ==> Linked(old(disk.now), disk.now, from, to, put, n)
    ensures Onto(old(disk.seen), disk.seen, old(disk.now), disk.now, from, to, n, keep, ok, disk.hits == old(disk.hits))
    decreases n, 1
  {
    hide Fitting, Written, Alike, LinksMade, MayLink;
    hide Elsewhere, Inos, Linkable, Copied, OnlyAt, Harmless, DirsOf, NamesStay, Blocked, Count, Onto, Sound, AllSound;
    if n.Dir? {
      ok := CopyTree(disk, from, to, put, n, keep);
    } else {
      ghost var start := disk.now;
      ok := PutFile(disk, from, to, put);
      if ok && disk.hits == old(disk.hits) && Get(start.root, from) == Some(n) {
        FileLinks(start, disk.now, from, to, put);
      }
      FileOnto(old(disk.seen), disk.seen, old(disk.now), disk.now, from, to, n, keep, ok, disk.hits == old(disk.hits));
    }
  }

  lemma UpToStays(s: Node, t: Node, p: Path)
    requires NamesUpTo(s, t, p)
    ensures NamesStay(s, t)
  {
  }

  lemma StaysDir(s: Node, t: Node, p: Path)
    requires NamesStay(s, t) && IsDir(s, p)
    ensures IsDir(t, p)
  {
  }

  // ---- Copying over whatever is left ----

  /** What a copy needs: no file in the way of a directory, a directory for a file. */
  ghost predicate CanStart(s: State, dst: Path, n: Node) {
    if n.Dir? then !Blocked(s.root, dst) else Room(s.root, dst)
  }

  /** A whole copy leaves the files of `keep`, the source's among them, holding what they held, if it
      gives each it is written through the text it has; and only if, when no two names left lead to
      one file. Then a file copied over itself is left empty. */
  ghost predicate Spares(s: State, t: State, src: Path, dst: Path, n: Node, keep: set<nat>) {
    Inos(n) <= keep <= s.data.Keys ==>
      && (Keeps(s, src, dst, keep) ==> SameData(s, t, keep))
      && (LeftDistinct(s, dst) ==> (SameData(s, t, keep) ==> Keeps(s, src, dst, keep)) && Emptied(s, t, src, dst))
  }

  /** `src` was copied over what was left at `dst`, whatever that was: what was written to, in every
      state; that nothing but a mismatch, or chance, stops the copy; and what became of the source. */
  ghost predicate Onto(before: seq<State>, after: seq<State>, s: State, t: State, src: Path, dst: Path, n: Node,
                       keep: set<nat>, ok: bool, quiet: bool) {
    Apart(src, dst) && Sound(s) && Get(s.root, src) == Some(n) ==>
      && AllOver(before, after, s, src, dst) && WrittenOver(s, t, src, dst)
      && (Matches(s, src, dst) && CanStart(s, dst, n) && quiet ==> ok)
      && (ok ==> Spares(s, t, src, dst, n, keep) && SelfBlanks(s, t, src, dst))
  }

  lemma FileOnto(before: seq<State>, after: seq<State>, s: State, t: State, from: Path, to: Path, n: Node,
                 keep: set<nat>, ok: bool, quiet: bool)
    requires n.File? && before <= after && Sound(t)
    requires ok || !quiet || !IsFile(s.root, from) || IsDir(s.root, to) || !Room(s.root, to)
    requires Get(s.root, to) == None && Apart(from, to) ==> OnlyAt(before, after, s, {to}) && Elsewhere(s, t, {to})
    requires IsDir(s.root, to) ==> t == s && after == before && !ok
    requires IsFile(s.root, to) ==>
               && (!ok ==> t == s || GivenText(s, t, to))
               && forall i :: |before| <= i < |after| ==>
                         IsFile(s.root, from) && GivenText(s, after[i], to)
    requires ok && IsFile(s.root, to) ==>
               && IsFile(s.root, from) && ReadText(s, from).Some?
               && var lost := Get(s.root, from) == Get(s.root, to);
                  t == Overwritten(s, to, if lost then "" else ReadText(s, from).value)
    ensures Onto(before, after, s, t, from, to, n, keep, ok, quiet)
  {
    hide Sound, Elsewhere, OnlyAt, Keeps, Spares, WrittenOver, AllOver, Overwritten, SelfBlanks;
    assert ok && IsFile(s.root, to) ==> GivenText(s, t, to);
    hide GivenText;
    if Apart(from, to) && Sound(s) && Get(s.root, from) == Some(n) {
      FileWrittenOver(before, after, s, t, from, to, n);
      assert from + [] == from && to + [] == to;
      assert Matches(s, from, to) ==> !IsDir(s.root, to) || !IsFile(s.root, from);
      if ok {
        FileSpares(s, t, from, to, n, keep);
        FileSelfBlanks(s, t, from, to, n);
      }
      hide Get, Matches;
    }
  }

  lemma FileWrittenOver(before: seq<State>, after: seq<State>, s: State, t: State, from: Path, to: Path, n: Node)
    requires Sound(s) && n.File? && Get(s.root, from) == Some(n) && before <= after
    requires Get(s.root, to) == None ==> OnlyAt(before, after, s, {to}) && Elsewhere(s, t, {to})
    requires IsDir(s.root, to) ==> t == s && after == before
    requires IsFile(s.root, to) ==>
               && (t == s || GivenText(s, t, to))
               && forall i :: |before| <= i < |after| ==> GivenText(s, after[i], to)
    ensures AllOver(before, after, s, from, to) && WrittenOver(s, t, from, to)
  {
    hide Get, Sound, Elsewhere, WrittenOver;
    forall u | (Get(s.root, to) == None && Elsewhere(s, u, {to}))
        || GivenText(s, u, to) || u == s
      ensures WrittenOver(s, u, from, to)
    {
      if Elsewhere(s, u, {to}) {
        ElsewhereOver(s, u, from, to);
      } else if u == s {
        SameElsewhere(s, {to});
        ElsewhereOver(s, u, from, to);
      } else {
        var part :| u == Overwritten(s, to, part);
        FileOver(s, u, from, to, part);
      }
    }
  }

  lemma FileSpares(s: State, t: State, from: Path, to: Path, n: Node, keep: set<nat>)
    requires Sound(s) && Sound(t) && n.File? && Get(s.root, from) == Some(n) && Apart(from, to) && !IsDir(s.root, to)
    requires Get(s.root, to) == None ==> Elsewhere(s, t, {to})
    requires IsFile(s.root, to) ==>
               && ReadText(s, from).Some?
               && var lost := Get(s.root, from) == Get(s.root, to);
                  t == Overwritten(s, to, if lost then "" else ReadText(s, from).value)
    ensures Spares(s, t, from, to, n, keep)
  {
    hide Sound, Elsewhere;
    FileKeeps(s, from, to, keep);
    if Get(s.root, to) == None {
      ElsewhereOver(s, t, from, to);
    } else {
      var lost := Get(s.root, from) == Get(s.root, to);
      FileOver(s, t, from, to, if lost then "" else ReadText(s, from).value);
    }
    hide Keeps, SameData, Inos;
    FileEmptied(s, t, from, to);
  }

  lemma FileSelfBlanks(s: State, t: State, from: Path, to: Path, n: Node)
    requires Sound(s) && n.File? && Get(s.root, from) == Some(n) && !IsDir(s.root, to)
    requires Get(s.root, to) == None ==> Elsewhere(s, t, {to})
    requires IsFile(s.root, to) ==>
               && ReadText(s, from).Some?
               && var lost := Get(s.root, from) == Get(s.root, to);
                  t == Overwritten(s, to, if lost then "" else ReadText(s, from).value)
    ensures SelfBlanks(s, t, from, to)
  {
    assert from + [] == from && to + [] == to;
    assert SelfLinks(s, from, to) && IsFile(s.root, to) ==> Get(s.root, from) == Get(s.root, to);
    hide SelfLinks, Sound;
    FileEmptied(s, t, from, to);
  }

  lemma FileEmptied(s: State, t: State, from: Path, to: Path)
    requires IsFile(s.root, from)
    requires Get(s.root, from) == Get(s.root, to) ==> t == Overwritten(s, to, "")
    ensures Emptied(s, t, from, to)
  {
    forall q | IsFile(s.root, from + q) && Get(s.root, from + q) == Get(s.root, to + q) ensures ReadText(t,
              from + q) == Some("") {
      if q != [] {
        NothingUnder(s.root, from, from + q);
      }
      assert from + [] == from && to + [] == to;
    }
  }

  /** The same, but for the entries in `names`. */
  ghost predicate HalfOnto(before: seq<State>, after: seq<State>, start: State, now: State, src: Path, dst: Path,
                           n: Node, keep: set<nat>, names: set<string>) {
    n.Dir? && Apart(src, dst) && Sound(start) && Get(start.root, src) == Some(n) ==>
      && AllOver(before, after, start, src, dst) && HalfOver(start, now, src, dst, n.kids.Keys - names)
      && HalfSpares(start, now, src, dst, n, keep, n.kids.Keys - names)
      && HalfSelfBlanks(start, now, src, dst, n.kids.Keys - names)
  }

  ghost predicate HalfSpares(start: State, now: State, src: Path, dst: Path, n: Node, keep: set<nat>,
                             done: set<string>) {
    Inos(n) <= keep <= start.data.Keys ==>
      && ((forall j | j in done :: Keeps(start, src + [j], dst + [j], keep)) ==> SameData(start, now, keep))
      && (LeftDistinct(start, dst) ==>
            && (SameData(start, now, keep) ==> forall j | j in done :: Keeps(start, src + [j], dst + [j], keep))
            && forall j | j in done :: Emptied(start, now, src + [j], dst + [j]))
  }

  lemma OntoBegins(before: seq<State>, after: seq<State>, start: State, now: State, src: Path, dst: Path, n: Node,
                   keep: set<nat>, ok: bool, quiet: bool)
    requires n.Dir? && OnlyAt(before, after, start, {dst}) && Elsewhere(start, now, {dst}) && SameFiles(start, now)
    requires ok || !quiet || Blocked(start.root, dst)
    requires ok ==> if Get(start.root, dst) == None then Get(now.root, dst) == Some(Dir(map[])) else now == start
    ensures ok ==> HalfOnto(before, after, start, now, src, dst, n, keep, n.kids.Keys)
    ensures !ok ==> Onto(before, after, start, now, src, dst, n, keep, ok, quiet)
  {
    hide Get, Sound, Elsewhere, WrittenOver, HalfOver, SameFiles, Matches, Blocked, SameData, HalfSelfBlanks;
    forall i | |before| <= i < |after| ensures WrittenOver(start, after[i], src, dst) {
      ElsewhereOver(start, after[i], src, dst);
    }
    ElsewhereOver(start, now, src, dst);
    if ok {
      NothingBlanked(start, now, src, dst);
      HalfOverBegun(start, now, src, dst);
      assert n.kids.Keys - n.kids.Keys == {};
    }
  }

  lemma NothingBlanked(start: State, now: State, src: Path, dst: Path)
    requires Elsewhere(start, now, {dst})
    ensures HalfSelfBlanks(start, now, src, dst, {})
  {
  }

  lemma OntoGoesOn(before: seq<State>, had: seq<State>, after: seq<State>, start: State, was: State, now: State,
                   src: Path, dst: Path, n: Node, keep: set<nat>, names: set<string>, k: string, ok: bool,
                   quiet: bool, allQuiet: bool)
    requires HalfOnto(before, had, start, was, src, dst, n, keep, names) && n.Dir? && k in names && names <= n.kids.Keys
    requires Onto(had, after, was, now, src + [k], dst + [k], n.kids[k], keep, ok, quiet)
    requires IsDir(was.root, dst) && Sound(was) && (allQuiet ==> quiet)
    ensures ok ==> HalfOnto(before, after, start, now, src, dst, n, keep, names - {k})
    ensures !ok ==> Onto(before, after, start, now, src, dst, n, keep, ok, allQuiet)
  {
    hide Get, Sound, WrittenOver, HalfOver, HalfSpares, Spares, Matches, CanStart, Inos, SelfBlanks, HalfSelfBlanks;
    if Apart(src, dst) && Sound(start) && Get(start.root, src) == Some(n) {
      var done := n.kids.Keys - names;
      assert n.kids.Keys - (names - {k}) == done + {k};
      EntryIsThere(start, was, src, dst, n, done, k);
      StepsOver(before, had, after, start, was, now, src, dst, done, k);
      if Matches(start, src, dst) {
        EntryMatches(start, was, src, dst, done, k);
        EntryCanStart(was, src, dst, n.kids[k], k);
      }
      if ok {
        SparesGoOn(start, was, now, src, dst, n, keep, done, k);
        SelfBlanksGoOn(start, was, now, src, dst, done, k);
      }
    }
  }

  lemma EntryIsThere(start: State, was: State, src: Path, dst: Path, n: Node, done: set<string>, k: string)
    requires Apart(src, dst) && HalfOver(start, was, src, dst, done) && k !in done
    requires Get(start.root, src) == Some(n) && n.Dir? && k in n.kids
    ensures Apart(src + [k], dst + [k]) && Get(was.root, src + [k]) == Some(n.kids[k])
  {
    EntryOf(start.root, src, n, k);
    EntryAsLeft(start, was, src, dst, done, k, []);
    assert src + [k] + [] == src + [k];
    ApartBelow(src, dst, [k], [k]);
  }

  lemma EntryCanStart(was: State, src: Path, dst: Path, c: Node, k: string)
    requires IsDir(was.root, dst) && Get(was.root, src + [k]) == Some(c) && Matches(was, src + [k], dst + [k])
    ensures CanStart(was, dst + [k], c)
  {
    assert src + [k] + [] == src + [k] && dst + [k] + [] == dst + [k];
    if c.Dir? {
      NotInTheWay(was.root, dst, k);
    } else {
      RoomIsParent(was.root, dst + [k]);
      assert (dst + [k])[..|dst + [k]| - 1] == dst;
    }
  }

  lemma StepsOver(before: seq<State>, had: seq<State>, after: seq<State>, start: State, was: State, now: State,
                  src: Path, dst: Path, done: set<string>, k: string)
    requires Apart(src, dst) && HalfOver(start, was, src, dst, done) && k !in done
    requires AllOver(before, had, start, src, dst) && AllOver(had, after, was, src + [k], dst + [k])
    requires WrittenOver(was, now, src + [k], dst + [k])
    ensures AllOver(before, after, start, src, dst) && WrittenOver(start, now, src, dst)
    ensures HalfOver(start, now, src, dst, done + {k})
  {
    hide WrittenOver, HalfOver;
    forall i | |before| <= i < |after| ensures WrittenOver(start, after[i], src, dst) {
      if i < |had| {
        assert after[i] == had[i];
      } else {
        HalfOverThen(start, was, after[i], src, dst, done, k);
        HalfOverIsOver(start, after[i], src, dst, done + {k});
      }
    }
    HalfOverThen(start, was, now, src, dst, done, k);
    HalfOverIsOver(start, now, src, dst, done + {k});
  }

  lemma SparesGoOn(start: State, was: State, now: State, src: Path, dst: Path, n: Node, keep: set<nat>,
                   done: set<string>, k: string)
    requires Apart(src, dst) && Sound(start) && Get(start.root, src) == Some(n) && n.Dir? && k in n.kids && k !in done
    requires HalfOver(start, was, src, dst, done) && WrittenOver(was, now, src + [k], dst + [k])
    requires HalfSpares(start, was, src, dst, n, keep, done) && Spares(was, now, src + [k], dst + [k], n.kids[k], keep)
    ensures HalfSpares(start, now, src, dst, n, keep, done + {k})
  {
    hide Get, Sound, Keeps, HalfOver, WrittenOver, Emptied, LeftDistinct;
    if Inos(n) <= keep <= start.data.Keys {
      assert Inos(n.kids[k]) <= Inos(n);
      hide Inos;
      HalfOverKeys(start, was, src, dst, done);
      if forall j | j in done + {k} :: Keeps(start, src + [j], dst + [j], keep) {
        EntryKeeps(start, was, src, dst, done, k, keep);
        SameDataThen(start, was, now, keep);
      }
      if LeftDistinct(start, dst) {
        EntryDistinct(start, was, src, dst, done, k);
        EntryEmptied(start, was, now, src, dst, done, k);
        forall j | j in done + {k} ensures Emptied(start, now, src + [j], dst + [j]) {
          if j != k {
            StillEmptied(start, was, now, src, dst, done, j, k);
          }
        }
        if SameData(start, now, keep) {
          SameBefore(start, was, now, src, dst, done, k, keep);
          EntryKeeps(start, was, src, dst, done, k, keep);
        }
      }
    }
  }

  lemma HalfOverKeys(start: State, was: State, src: Path, dst: Path, done: set<string>)
    requires HalfOver(start, was, src, dst, done)
    ensures start.data.Keys <= was.data.Keys
  {
  }

  lemma OntoEnds(before: seq<State>, after: seq<State>, start: State, now: State, src: Path, dst: Path, n: Node,
                 keep: set<nat>, quiet: bool)
    requires HalfOnto(before, after, start, now, src, dst, n, keep, {}) && n.Dir?
    ensures Onto(before, after, start, now, src, dst, n, keep, true, quiet)
  {
    hide Sound, HalfOver, AllOver, Matches, CanStart, Inos, Keeps, Emptied, LeftDistinct, SameData, SelfLinks;
    hide Blanked;
    if Apart(src, dst) && Sound(start) && Get(start.root, src) == Some(n) {
      assert n.kids.Keys - {} == n.kids.Keys;
      HalfOverIsOver(start, now, src, dst, n.kids.Keys);
      EntriesKeep(start, src, dst, n, keep);
      if forall j | j in n.kids :: Emptied(start, now, src + [j], dst + [j]) {
        EntriesEmptied(start, now, src, dst, n);
      }
    }
  }

  /** Part way through a directory: `left` is what was in it to begin with, `done` what has been
      copied of it. */
  ghost predicate HalfCopied(before: seq<State>, after: seq<State>, start: State, now: State, src: Path, dst: Path,
                             put: PutMode, n: Node, left: map<string, Node>, done: map<string, Node>) {
    && n.Dir? && done.Keys <= n.kids.Keys && DirsOf(Dir(left), n)
    && Apart(src, dst) && Get(start.root, src) == Some(n)
    && Sound(start)
    && OnlyAt(before, after, start, {dst}) && Elsewhere(start, now, {dst})
    && Get(now.root, dst) == Some(Dir(left + done))
    && forall k | k in done :: Copied(n.kids[k], done[k], start, now, Linkable(put, src, n))
  }

  lemma CopyBegun(before: seq<State>, after: seq<State>, start: State, now: State, src: Path, dst: Path, put: PutMode,
                  n: Node)
    returns (left: map<string, Node>)
    requires n.Dir? && FitToCopy(start, src, dst, n) && Sound(start) && IsDir(now.root, dst) && SameFiles(start, now)
    requires OnlyAt(before, after, start, {dst}) && Elsewhere(start, now, {dst})
    requires if Get(start.root, dst) == None then Get(now.root, dst) == Some(Dir(map[])) else now == start
    ensures HalfCopied(before, after, start, now, src, dst, put, n, left, map[])
  {
    left := Get(now.root, dst).value.kids;
    assert left + map[] == left;
  }

  /** The next entry is still there to copy, and its place is fit for the copy. */
  lemma CopyReady(before: seq<State>, after: seq<State>, start: State, was: State, src: Path, dst: Path, put: PutMode,
                  n: Node, left: map<string, Node>, done: map<string, Node>, k: string)
    requires HalfCopied(before, after, start, was, src, dst, put, n, left, done) && k in n.kids && k !in done
    ensures FitEntry(was, src + [k], dst + [k], n.kids[k])
  {
    hide Elsewhere, OnlyAt, Copied, Linkable, Inos;
    var to := dst + [k];
    SourceKept(start, was, src, dst);
    EntryOf(was.root, src, n, k);
    EntryOf(was.root, dst, Dir(left + done), k);
    ApartBelow(src, dst, [k], [k]);
    RoomIsParent(was.root, to);
    assert to[..|to| - 1] == dst;
    if k in left {
      assert DirsOf(Dir(left).kids[k], n.kids[k]);
    }
    NotInTheWay(was.root, dst, k);
  }

  lemma NotInTheWay(root: Node, dst: Path, k: string)
    requires IsDir(root, dst) && !IsFile(root, dst + [k])
    ensures !Blocked(root, dst + [k])
  {
    hide Get;
    forall q | q <= dst + [k] ensures !IsFile(root, q) {
      if |q| < |dst| {
        assert q == (dst + [k])[..|q|] == dst[..|q|];
        WayIsDir(root, q, dst);
      } else if |q| == |dst| {
        assert q == dst;
      } else {
        assert q == dst + [k];
      }
    }
  }

  lemma SourceKept(start: State, was: State, src: Path, dst: Path)
    requires Elsewhere(start, was, {dst}) && Apart(src, dst)
    ensures Get(was.root, src) == Get(start.root, src)
  {
    NotUnderOne(dst);
  }

  lemma CopyGoesOn(before: seq<State>, had: seq<State>, after: seq<State>, start: State, was: State, now: State,
                   src: Path, dst: Path, put: PutMode, n: Node, left: map<string, Node>, done: map<string, Node>,
                   names: set<string>, k: string, ok: bool)
    returns (more: map<string, Node>)
    requires HalfCopied(before, had, start, was, src, dst, put, n, left, done)
    requires k in names && names <= n.kids.Keys && done.Keys == n.kids.Keys - names
    requires OnlyAt(had, after, was, {dst + [k]}) && Elsewhere(was, now, {dst + [k]})
    requires ok ==> Get(now.root, dst + [k]).Some?
                    && Copied(n.kids[k], Get(now.root, dst + [k]).value, was, now, Linkable(put, src + [k], n.kids[k]))
    ensures OnlyAt(before, after, start, {dst}) && Elsewhere(start, now, {dst})
    ensures ok ==> HalfCopied(before, after, start, now, src, dst, put, n, left, more)
    ensures ok ==> more.Keys == n.kids.Keys - (names - {k})
  {
    hide Elsewhere, OnlyAt, Copied, Linkable, DirsOf;
    Joins(before, had, after, start, was, now, dst, dst + [k]);
    more := done;
    if ok {
      var c := Get(now.root, dst + [k]).value;
      CopyGrows(before, had, after, start, was, now, src, dst, put, n, left, done, k, c);
      more := done[k := c];
    }
  }

  lemma CopyGrows(before: seq<State>, had: seq<State>, after: seq<State>, start: State, was: State, t: State,
                  src: Path, dst: Path, put: PutMode, n: Node, left: map<string, Node>, done: map<string, Node>,
                  k: string, c: Node)
    requires HalfCopied(before, had, start, was, src, dst, put, n, left, done)
    requires OnlyAt(before, after, start, {dst}) && Elsewhere(start, t, {dst})
    requires Elsewhere(was, t, {dst + [k]}) && k in n.kids && Get(t.root, dst + [k]) == Some(c)
    requires Copied(n.kids[k], c, was, t, Linkable(put, src + [k], n.kids[k]))
    ensures HalfCopied(before, after, start, t, src, dst, put, n, left, done[k := c])
  {
    hide Elsewhere, Get, Copied, Clear, NotUnder, Room, OnlyAt, Linkable, DirsOf;
    EntrySet(was, t, dst, left + done, k, c);
    assert (left + done)[k := c] == left + done[k := c];
    CopiedOneMore(start, was, t, src, dst, put, n, done, k, c);
  }

  lemma CopyWhole(before: seq<State>, after: seq<State>, start: State, now: State, src: Path, dst: Path, put: PutMode,
                  n: Node, left: map<string, Node>, done: map<string, Node>)
    requires HalfCopied(before, after, start, now, src, dst, put, n, left, done) && done.Keys == n.kids.Keys
    ensures Get(now.root, dst).Some? && Copied(n, Get(now.root, dst).value, start, now, Linkable(put, src, n))
    ensures OnlyAt(before, after, start, {dst}) && Elsewhere(start, now, {dst})
  {
    assert left + done == done;
    WholeDir(n, done, start, now, Linkable(put, src, n));
  }

  lemma WholeDir(n: Node, done: map<string, Node>, start: State, t: State, shared: set<nat>)
    requires n.Dir? && done.Keys == n.kids.Keys
    requires forall k | k in done :: Copied(n.kids[k], done[k], start, t, shared)
    ensures Copied(n, Dir(done), start, t, shared)
  {
  }

  lemma ApartBelow(p: Path, q: Path, r: Path, s: Path)
    requires Apart(p, q)
    ensures Apart(p + r, q + s)
  {
    if p + r <= q + s {
      ShorterPrefix(p, q, q + s);
    }
    if q + s <= p + r {
      ShorterPrefix(q, p, p + r);
    }
  }

  lemma CopiedOneMore(start: State, was: State, t: State, src: Path, dst: Path, put: PutMode, n: Node,
                      done: map<string, Node>, k: string, c: Node)
    requires Sound(start) && Elsewhere(start, was, {dst}) && Elsewhere(was, t, {dst + [k]})
    requires Get(start.root, src) == Some(n) && n.Dir? && k in n.kids && done.Keys <= n.kids.Keys
    requires forall j | j in done :: Copied(n.kids[j], done[j], start, was, Linkable(put, src, n))
    requires Copied(n.kids[k], c, was, t, Linkable(put, src + [k], n.kids[k]))
    ensures forall j | j in done[k := c] :: Copied(n.kids[j], done[k := c][j], start, t, Linkable(put, src, n))
  {
    hide Elsewhere, Get, Copied, Clear, NotUnder, Room;
    var shared := Linkable(put, src, n);
    GrowsOf(start, was, {dst});
    GrowsOf(was, t, {dst + [k]});
    InosOfGet(start.root, src);
    LinkableEntry(put, src, n, k);
    forall j | j in done[k := c]
      ensures Copied(n.kids[j], done[k := c][j], start, t, shared)
    {
      assert Inos(n.kids[j]) <= Inos(n);
      if j == k {
        CopiedBetween(n.kids[k], c, start, was, t, t, Linkable(put, src + [k], n.kids[k]), shared);
      } else {
        CopiedBetween(n.kids[j], done[j], start, start, was, t, shared, shared);
      }
    }
  }

  lemma GrowsOf(s: State, t: State, ps: set<Path>)
    requires Elsewhere(s, t, ps)
    ensures Grows(s.data, t.data) && s.next <= t.next && Grows(s.data, s.data) && Grows(t.data, t.data)
  {
  }

  lemma LinkableEntry(put: PutMode, path: Path, n: Node, k: string)
    requires n.Dir? && k in n.kids
    ensures Linkable(put, path + [k], n.kids[k]) <= Linkable(put, path, n)
  {
    if put.Linking? && put.logs <= path {
      assert put.logs <= path + [k];
    }
  }

  // ---- Saving one item ----

  function Readme(b: Backup): Path {
    b.dir + [README]
  }

  function Place(b: Backup, rel: Path): Path {
    b.dir + rel
  }

  /** The name a copy is made under before it is moved in. */
  function Partial(b: Backup, rel: Path, pid: string): Path
    requires rel != []
  {
    Place(b, rel)[..|Place(b, rel)| - 1] + ["." + rel[|rel| - 1] + ".partial-" + pid]
  }

  /** A whole copy of what was at `src` in `start` is at `dest` in `t`. */
  ghost predicate WholeCopy(start: State, src: Path, put: PutMode, t: State, dest: Path) {
    var n, m := Get(start.root, src), Get(t.root, dest);
    n.Some? && m.Some? && Copied(n.value, m.value, start, t, Linkable(put, src, n.value))
  }

  /** What a disk that was in `start` may be in while `src` is being saved: as it was but for the
      backup's own places, with what is at the item's place what was there before or a whole copy. */
  ghost predicate WhileSaving(start: State, t: State, b: Backup, src: Path, rel: Path, put: PutMode, pid: string)
    requires rel != []
  {
    && Elsewhere(start, t, {Readme(b), Partial(b, rel, pid), Place(b, rel)})
    && (Get(t.root, Place(b, rel)) == Get(start.root, Place(b, rel))
        || (Get(start.root, Place(b, rel)) == None && WholeCopy(start, src, put, t, Place(b, rel))))
  }

  ghost predicate ItemPlace(rel: Path) {
    |rel| == 2 && rel[0] != README
  }

  lemma PlacesApart(b: Backup, rel: Path, pid: string)
    requires ItemPlace(rel)
    ensures Apart(Readme(b), Place(b, rel)) && Apart(Readme(b), Partial(b, rel, pid))
    ensures Apart(Partial(b, rel, pid), Place(b, rel))
    ensures Apart(Place(b, rel), Partial(b, rel, pid))
  {
    var d := |b.dir|;
    assert Readme(b)[d] == README && Place(b, rel)[d] == rel[0] && Partial(b, rel, pid)[d] == rel[0];
    var name, hidden := rel[1], "." + rel[1] + ".partial-" + pid;
    assert Place(b, rel)[d + 1] == name && Partial(b, rel, pid)[d + 1] == hidden;
    assert |hidden| > |name|;
  }

  /** `begin`: make the backup's directory, saying what it is. */
  method Begin(disk: Disk, b: Backup, about: string) returns (ok: bool)
    requires disk.Valid()
    modifies disk
    ensures disk.Valid() && OnlyAt(old(disk.seen), disk.seen, old(disk.now), {Readme(b)})
    ensures Elsewhere(old(disk.now), disk.now, {Readme(b)})
    ensures disk.hits >= old(disk.hits) && (ok ==> disk.hits == old(disk.hits))
    ensures ok || disk.hits > old(disk.hits) || Blocked(old(disk.now).root, b.dir)
              || IsDir(old(disk.now).root, Readme(b))
    ensures IsFile(old(disk.now).root, Readme(b)) ==>
              ok && disk.now == old(disk.now) && disk.calls == old(disk.calls) && disk.hits == old(disk.hits)
    ensures forall q :: IsFile(disk.now.root, q) ==> IsFile(old(disk.now).root, q) || q == Readme(b)
    ensures ok ==> IsFile(disk.now.root, Readme(b))
    ensures ok && !IsFile(old(disk.now).root, Readme(b)) ==> ReadText(disk.now, Readme(b)) == Some(about)
  {
    hide Elsewhere, Get, Room, Inos, Clear, NotUnder, SameFiles, NamesUpTo, Blocked, Count, OnlyAt, AllNamesStay;
    hide NamesStay, Sound, AllSound, ReadText, Create;
    ghost var start := disk.now;
    SameElsewhere(start, {Readme(b)});
    NoSteps(disk.seen, start, {Readme(b)});
    var there := Get(disk.now.root, Readme(b));
    if there.Some? && there.value.File? {
      return true;
    }
    ok := disk.MakeDirs(b.dir, Readme(b));
    FilesAsBefore(start, disk.now);
    if !ok {
      return;
    }
    ghost var was, had := disk.now, disk.seen;
    NotYetMade(start, was, b.dir, README);
    there := Get(disk.now.root, Readme(b));
    if there.Some? {
      return false;
    }
    ReadmeRoom(disk.now.root, b);
    ok := disk.WriteNew(Readme(b), about);
    NewFileAt(was, disk.now, Readme(b));
    if ok {
      NewFileReads(was, Readme(b), about);
    }
    JoinsAt(old(disk.seen), had, disk.seen, start, was, disk.now, {Readme(b)}, {Readme(b)});
  }

  lemma NewFileReads(s: State, p: Path, text: string)
    requires Sound(s) && Room(s.root, p)
    ensures IsFile(Create(s, p, text).root, p) && ReadText(Create(s, p, text), p) == Some(text)
  {
    CreateElsewhere(s, p, text);
  }

  lemma ReadmeRoom(n: Node, b: Backup)
    ensures Room(n, Readme(b)) <==> IsDir(n, b.dir)
  {
    RoomIsParent(n, Readme(b));
    assert Readme(b)[..|Readme(b)| - 1] == b.dir;
  }

  lemma NotYetMade(s: State, t: State, dir: Path, name: string)
    requires NamesUpTo(s.root, t.root, dir)
    ensures Get(s.root, dir + [name]).None? ==> Get(t.root, dir + [name]).None?
  {
  }

  lemma FilesAsBefore(s: State, t: State)
    requires SameFiles(s, t)
    ensures forall q :: IsFile(t.root, q) ==> IsFile(s.root, q)
  {
    forall q | IsFile(t.root, q) ensures IsFile(s.root, q) {
      FileSince(s, t, q);
    }
  }

  lemma NewFileAt(s: State, t: State, p: Path)
    requires t == s || (Room(s.root, p) && exists text :: t == Create(s, p, text))
    requires Get(s.root, p) == None
    ensures forall q :: IsFile(t.root, q) ==> IsFile(s.root, q) || q == p
  {
    if t != s {
      forall q | IsFile(t.root, q) ensures IsFile(s.root, q) || q == p {
        GetPut(s.root, p, File(s.next), q);
        if p <= q {
          assert q == p + q[|p|..];
        }
      }
    }
  }

  /** What `save` finds in its way when it begins to copy, once the removal of what an earlier copy
      left has been tried, is harmless. */
  ghost predicate LeftHarmless(s: State, b: Backup, src: Path, rel: Path, pid: string)
    requires rel != []
  {
    HarmlessAt(s, src, Partial(b, rel, pid))
  }

  /** What a save needs, when no call fails by chance: it is there already, or there is a directory
      to copy and no file where one has to be made. */
  ghost predicate SaveRoom(s: State, b: Backup, src: Path, rel: Path, pid: string)
    requires rel != []
  {
    || Get(s.root, Place(b, rel)).Some?
    || (IsDir(s.root, src) && !IsDir(s.root, Readme(b)) && !Blocked(s.root, Partial(b, rel, pid)))
  }

  ghost predicate AlwaysSaving(before: seq<State>, after: seq<State>, now: State, start: State, b: Backup, src: Path,
                               rel: Path, put: PutMode, pid: string)
    requires rel != []
  {
    && before <= after
    && (forall i :: |before| <= i < |after| ==> WhileSaving(start, after[i], b, src, rel, put, pid))
    && WhileSaving(start, now, b, src, rel, put, pid)
  }

  /** A save that started in `start` began to copy in state number `at`: nothing but the README and what
      an earlier copy left has changed, and of that nothing is there that was not. `struck` is how many
      calls had failed by then: one, if what was left is there, the one that was to remove it. */
  ghost predicate BeganIn(seen: seq<State>, start: State, at: nat, b: Backup, src: Path, rel: Path, pid: string,
                          hits: nat, struck: nat)
    requires rel != []
  {
    at < |seen|
    && var s := seen[at];
       && Elsewhere(start, s, {Readme(b), Partial(b, rel, pid)})
       && Get(start.root, Place(b, rel)) == None && Get(s.root, src) == Get(start.root, src)
       && LeftIsIn(s, start, Partial(b, rel, pid), Partial(b, rel, pid))
       && struck == hits + if IsDir(s.root, Partial(b, rel, pid)) then 1 else 0
  }

  /** Before state number `m` a copy had begun over something harmful. */
  ghost predicate Harmful(seen: seq<State>, begun: Option<nat>, m: nat, b: Backup, src: Path, rel: Path, pid: string)
    requires rel != []
  {
    begun.Some? && begun.value < m && begun.value < |seen| && !LeftHarmless(seen[begun.value], b, src, rel, pid)
  }

  /** What is so of state `t`, since a turn to save `plan.src`, and then to change it, began in `s`: nothing
      out of reach has changed; what was at the item's place is there, and what has come there is a whole
      copy; nor has the item changed unless something is there. If the turn is soiled, that copy is
      excepted, and the texts of files that names left led to. */
  ghost predicate Since(s: State, t: State, plan: Plan, put: PutMode, soiled: bool) {
    && Sound(t) && s.next <= t.next && s.data.Keys <= t.data.Keys
    && (forall q :: Clear(q, plan.reach) ==> Get(t.root, q) == Get(s.root, q))
    && (forall i | i in s.data && t.data[i] != s.data[i] ::
          soiled && exists q :: LeadsOver(s, plan.src, plan.partial, q, i))
    && (Get(s.root, plan.dest).Some? ==> Get(t.root, plan.dest) == Get(s.root, plan.dest))
    && (Get(s.root, plan.dest) == None && Get(t.root, plan.dest).Some? ==>
          soiled || WholeCopy(s, plan.src, put, t, plan.dest))
    && (Get(t.root, plan.src) == Get(s.root, plan.src) || Get(t.root, plan.dest).Some?)
  }

  /** State number `m` of a turn that began in number `from`. */
  ghost predicate TurnState(seen: seq<State>, from: nat, m: nat, plan: Plan, put: PutMode) {
    from <= m < |seen|
    && Since(seen[from], seen[m], plan, put, SoiledIn(seen, from, m, plan.src, plan.partial, plan.dest))
  }

  ghost predicate TurnTrace(seen: seq<State>, from: nat, plan: Plan, put: PutMode) {
    forall m | from <= m < |seen| :: TurnState(seen, from, m, plan, put)
  }

  /** What a save is of, and what it may reach. */
  ghost function SavePlan(b: Backup, src: Path, rel: Path, pid: string): Plan
    requires rel != []
  {
    Plan(src, Place(b, rel), Partial(b, rel, pid), {Readme(b), Partial(b, rel, pid), Place(b, rel)})
  }

  lemma SavingSince(start: State, t: State, b: Backup, src: Path, rel: Path, put: PutMode, pid: string, soiled: bool)
    requires ItemPlace(rel) && Apart(src, b.dir) && WhileSaving(start, t, b, src, rel, put, pid)
    ensures Since(start, t, SavePlan(b, src, rel, pid), put, soiled)
  {
    SourceOutside(start, t, b, src, rel, pid);
    hide Partial, Place, Readme, WholeCopy, Get, Sound, Apart;
  }

  lemma SavingIsTraced(before: seq<State>, seen: seq<State>, now: State, start: State, b: Backup, src: Path, rel: Path,
                       put: PutMode, pid: string)
    requires ItemPlace(rel) && Apart(src, b.dir) && before != [] && before[|before| - 1] == start && Sound(start)
    requires AlwaysSaving(before, seen, now, start, b, src, rel, put, pid)
    ensures TurnTrace(seen, |before| - 1, SavePlan(b, src, rel, pid), put)
  {
    SameElsewhere(start, {Readme(b), Partial(b, rel, pid), Place(b, rel)});
    assert WhileSaving(start, start, b, src, rel, put, pid);
    hide Partial, Place, Readme, WholeCopy, Get, Sound, SoiledIn, Since, SavePlan, WhileSaving, Apart;
    var from, plan := |before| - 1, SavePlan(b, src, rel, pid);
    forall m | from <= m < |seen| ensures TurnState(seen, from, m, plan, put) {
      SavingSince(start, seen[m], b, src, rel, put, pid, SoiledIn(seen, from, m, plan.src, plan.partial, plan.dest));
    }
  }

  /** A turn's states, whatever comes after them. */
  lemma TurnInPrefix(seen: seq<State>, all: seq<State>, from: nat, m: nat, plan: Plan, put: PutMode)
    requires seen <= all && m < |seen|
    ensures TurnState(seen, from, m, plan, put) <==> TurnState(all, from, m, plan, put)
  {
    SoiledInPrefix(seen, all, from, m, plan.src, plan.partial, plan.dest);
    hide SoiledIn, Since;
  }

  /** What a save finds before it copies. */
  lemma BeforeSaveCopies(first: seq<State>, had: seq<State>, seen: seq<State>, start: State, was: State, b: Backup,
                         src: Path, rel: Path, pid: string)
    requires ItemPlace(rel) && Apart(src, b.dir) && first != [] && first[|first| - 1] == start && seen != []
    requires OnlyAt(first, had, start, {Readme(b)}) && Elsewhere(start, was, {Readme(b)}) && |had| > 0
    requires had[|had| - 1] == was && OnlyAt(had, seen, was, {Partial(b, rel, pid)})
    requires Shrinking(had, seen) && NamesStay(seen[|seen| - 1].root, was.root)
    ensures BeforeCopy(seen, |first| - 1, |seen| - 1, src, Partial(b, rel, pid))
  {
    hide Partial, Readme, NamesStay, Elsewhere, Apart, LeftIsIn;
    var partial, c := Partial(b, rel, pid), seen[|seen| - 1];
    PlacesApart(b, rel, pid);
    PlacesClearOf(b, src, rel, pid);
    ClearOfEach(src, Readme(b), partial);
    ApartIsClear(partial, Readme(b), Readme(b));
    SameLeft(c, was, was, partial);
    StayIsIn(c, was, partial);
    forall j | |first| - 1 <= j < |seen|
      ensures LeftIsIn(c, seen[j], partial, partial) && Get(seen[j].root, src) == Get(start.root, src)
    {
      if j < |had| {
        assert seen[j] == had[j];
        assert seen[j] == start || Elsewhere(start, seen[j], {Readme(b)});
        BesideReadme(start, was, seen[j], b, src, partial);
        SameLeft(c, was, seen[j], partial);
      } else {
        ShrunkSince(had, seen, j, |seen| - 1);
        StayIsIn(c, seen[j], partial);
        StillThere(was, seen[j], {partial}, src);
        BesideReadme(start, was, was, b, src, partial);
      }
    }
  }

  lemma ClearOfEach(p: Path, q: Path, r: Path)
    requires Clear(p, {q, r})
    ensures Clear(p, {q}) && Clear(p, {r})
  {
  }

  lemma BesideReadme(start: State, was: State, t: State, b: Backup, src: Path, partial: Path)
    requires Elsewhere(start, was, {Readme(b)}) && (t == start || Elsewhere(start, t, {Readme(b)}))
    requires Clear(src, {Readme(b)}) && Apart(Readme(b), partial)
    ensures Get(t.root, src) == Get(start.root, src) == Get(was.root, src)
    ensures Get(t.root, partial) == Get(was.root, partial)
  {
    NotUnderOne(Readme(b));
  }

  lemma SameLeft(c: State, was: State, t: State, partial: Path)
    requires Get(t.root, partial) == Get(was.root, partial)
    ensures LeftIsIn(c, was, partial, partial) ==> LeftIsIn(c, t, partial, partial)
  {
    forall q ensures Get(t.root, partial + q) == Get(was.root, partial + q) {
      GetUnder(t.root, partial, q);
      GetUnder(was.root, partial, q);
    }
  }

  lemma BeforeInPrefix(seen: seq<State>, all: seq<State>, from: nat, c: nat, src: Path, partial: Path)
    requires seen <= all && BeforeCopy(seen, from, c, src, partial)
    ensures BeforeCopy(all, from, c, src, partial)
  {
    hide LeftIsIn, Get;
    assert forall j | 0 <= j < |seen| :: all[j] == seen[j];
  }

  /** A state since a copy began over something harmful. */
  lemma UncleanState(seen: seq<State>, from: nat, c: nat, e: nat, m: nat, b: Backup, src: Path, rel: Path, put: PutMode,
                     pid: string)
    requires ItemPlace(rel) && Apart(src, b.dir) && from <= c <= m < |seen| && Sound(seen[from])
    requires BeforeCopy(seen, from, c, src, Partial(b, rel, pid))
    requires CopyTrace(seen, c, e, src, Partial(b, rel, pid), Place(b, rel))
    requires !LeftHarmless(seen[c], b, src, rel, pid) && Get(seen[from].root, Place(b, rel)) == None
    requires Elsewhere(seen[from], seen[c], {Readme(b), Partial(b, rel, pid)})
    ensures TurnState(seen, from, m, SavePlan(b, src, rel, pid), put)
  {
    var partial, dest := Partial(b, rel, pid), Place(b, rel);
    PlacesApart(b, rel, pid);
    SourceStays(seen[from], seen[c], b, src, rel, pid);
    NothingThere(seen[from], seen[c], b, rel, pid);
    SinceCopy(seen, c, e, m, src, partial, dest);
    PlacesClearOf(b, src, rel, pid);
    if Get(seen[m].root, dest).Some? {
      FillSoils(seen, from, c, e, m, src, partial, dest);
    }
    TextsSoiled(seen, from, c, e, m, src, partial, dest);
    SinceUnclean(seen[from], seen[c], seen[m], Readme(b), partial, dest, src, put,
                 SoiledIn(seen, from, m, src, partial, dest));
    hide *;
  }

  lemma TextsSoiled(seen: seq<State>, from: nat, c: nat, e: nat, m: nat, src: Path, partial: Path, dest: Path)
    requires BeforeCopy(seen, from, c, src, partial) && CopyTrace(seen, c, e, src, partial, dest) && c <= m < |seen|
    requires !HarmlessAt(seen[c], src, partial) && Apart(src, partial)
    requires from <= c && Grows(seen[from].data, seen[c].data) && seen[c].data.Keys <= seen[m].data.Keys
    ensures forall i | i in seen[from].data && seen[m].data[i] != seen[from].data[i] ::
              SoiledIn(seen, from, m, src, partial, dest) && exists q :: LeadsOver(seen[from], src, partial, q, i)
  {
    hide CopyTrace, BeforeCopy, HarmlessAt, SoiledIn, Apart, LeadsOver;
    forall i | i in seen[from].data && seen[m].data[i] != seen[from].data[i]
      ensures SoiledIn(seen, from, m, src, partial, dest) && exists q :: LeadsOver(seen[from], src, partial, q, i)
    {
      ChangeSoils(seen, from, c, e, m, i, src, partial, dest);
      var q :| LeadsOver(seen[c], src, partial, q, i);
      LedBefore(seen, from, c, src, partial, q, i);
    }
  }

  lemma SinceUnclean(s: State, c: State, t: State, readme: Path, partial: Path, dest: Path, src: Path, put: PutMode,
                     soiled: bool)
    requires Elsewhere(s, c, {readme, partial}) && Sound(t) && c.next <= t.next && c.data.Keys <= t.data.Keys
    requires forall q :: Clear(q, {partial, dest}) ==> Get(t.root, q) == Get(c.root, q)
    requires Get(s.root, dest) == None && (Get(t.root, dest).Some? ==> soiled)
    requires Clear(src, {readme, partial}) && Apart(dest, src)
    requires forall i | i in s.data && t.data[i] != s.data[i] :: soiled && exists q :: LeadsOver(s, src, partial, q, i)
    ensures Since(s, t, Plan(src, dest, partial, {readme, partial, dest}), put, soiled)
  {
    hide Get, LeadsOver, Sound;
    forall q | Clear(q, {readme, partial, dest}) ensures Get(t.root, q) == Get(s.root, q) {
      assert Clear(q, {readme, partial}) && Clear(q, {partial, dest});
    }
  }

  lemma SinceCopy(seen: seq<State>, c: nat, e: nat, m: nat, src: Path, partial: Path, dest: Path)
    requires CopyTrace(seen, c, e, src, partial, dest) && c <= m < |seen|
    ensures Sound(seen[m]) && seen[c].next <= seen[m].next && seen[c].data.Keys <= seen[m].data.Keys
    ensures forall q :: Clear(q, {partial, dest}) ==> Get(seen[m].root, q) == Get(seen[c].root, q)
  {
    hide Get, NamesStay, CanRename, Renamed, LeadsOver, Sound;
    assert WrittenOver(seen[c], seen[e], src, partial);
    if m <= e {
      assert WrittenOver(seen[c], seen[m], src, partial);
    } else {
      assert AfterCopy(seen[e], seen[m], partial, dest);
    }
  }

  lemma LedBefore(seen: seq<State>, from: nat, c: nat, src: Path, partial: Path, q: Path, i: nat)
    requires BeforeCopy(seen, from, c, src, partial) && LeadsOver(seen[c], src, partial, q, i)
    ensures LeadsOver(seen[from], src, partial, q, i)
  {
    assert LeftIsIn(seen[c], seen[from], partial, partial);
    GetUnder(seen[c].root, src, q);
    GetUnder(seen[from].root, src, q);
  }

  /** A save whose copy, if it began one, began over nothing harmful took no soiling step. */
  lemma CleanNotSoiled(before: seq<State>, seen: seq<State>, now: State, start: State, begun: Option<nat>, b: Backup,
                       src: Path, rel: Path, put: PutMode, pid: string)
    requires rel != [] && before != [] && before[|before| - 1] == start && Sound(start) && seen != []
    requires AlwaysSaving(before, seen, now, start, b, src, rel, put, pid) && seen[|seen| - 1] == now
    requires forall i :: |before| <= i < |seen| - 1 ==>
               Get(seen[i].root, Place(b, rel)) == Get(start.root, Place(b, rel))
    requires if begun.None? then Get(now.root, Place(b, rel)) == Get(start.root, Place(b, rel))
             else begun.value < |seen| && LeftHarmless(seen[begun.value], b, src, rel, pid)
                  && |before| <= begun.value + 1 && Get(seen[begun.value].root, Place(b, rel)) == None
    ensures !SoiledIn(seen, |before| - 1, |seen| - 1, src, Partial(b, rel, pid), Place(b, rel))
  {
    var from := |before| - 1;
    SameElsewhere(start, {Readme(b), Partial(b, rel, pid), Place(b, rel)});
    assert WhileSaving(start, start, b, src, rel, put, pid);
    assert forall m | from <= m < |seen| :: WhileSaving(start, seen[m], b, src, rel, put, pid);
    assert forall m | from <= m < |seen| :: Grows(start.data, seen[m].data) by {
      hide Get, Partial, Place, Readme, WholeCopy, Clear, NotUnder, AlwaysSaving;
    }
    hide WhileSaving, Partial, Place, Readme, Get, Sound, HarmlessAt, Grows;
    NotSoiled(seen, from, begun, src, Partial(b, rel, pid), Place(b, rel));
  }

  lemma NotSoiled(seen: seq<State>, from: nat, begun: Option<nat>, src: Path, partial: Path, dest: Path)
    requires from < |seen| && forall m | from <= m < |seen| :: Grows(seen[from].data, seen[m].data)
    requires forall m :: from <= m < |seen| - 1 ==> Get(seen[m].root, dest) == Get(seen[from].root, dest)
    requires if begun.None? then Get(seen[|seen| - 1].root, dest) == Get(seen[from].root, dest)
             else from <= begun.value < |seen| && HarmlessAt(seen[begun.value], src, partial)
                  && Get(seen[begun.value].root, dest) == None
    ensures !SoiledIn(seen, from, |seen| - 1, src, partial, dest)
  {
    hide Get, HarmlessAt;
    forall k: nat | k < |seen| - 1 ensures !SoilingStep(seen, from, k, src, partial, dest) {
      if from <= k {
        forall i ensures !(i in seen[from].data && TextChanges(seen[k], seen[k + 1], i)) {
        }
      }
    }
  }

  /** `Backup::save`. What is so of each of its states, whatever was left, is in `TurnTrace`. `begun` is the
      number of the state it began to copy in, if it came to that, and `struck` how many calls had failed
      by then: from it on names only come, until the copy is moved in or names only go. `clean` says that
      nothing harmful was left there by an earlier copy. Something was only if it was there at the start
      and the call to remove it failed: as it does if the first call fails, when the README is there. */
  method Save(disk: Disk, b: Backup, src: Path, rel: Path, put: PutMode, pid: string, about: string)
    returns (ok: bool, ghost clean: bool, ghost begun: Option<nat>, ghost struck: nat)
    requires disk.Valid() && ItemPlace(rel) && Apart(src, b.dir)
    modifies disk
    ensures disk.Valid() && disk.hits >= old(disk.hits) && old(disk.seen) <= disk.seen
    ensures begun.Some? ==>
              && |old(disk.seen)| <= begun.value + 1
              && BeganIn(disk.seen, old(disk.now), begun.value, b, src, rel, pid, old(disk.hits), struck)
              && AlwaysSaving(old(disk.seen), disk.seen[..begun.value + 1], disk.seen[begun.value], old(disk.now), b,
                              src, rel, put, pid)
              && exists e: nat :: CopyTrace(disk.seen, begun.value, e, src, Partial(b, rel, pid), Place(b, rel))
    ensures struck <= disk.hits
    ensures clean <==> !Harmful(disk.seen, begun, |disk.seen|, b, src, rel, pid)
    ensures !clean ==> IsDir(old(disk.now).root, Partial(b, rel, pid)) && disk.hits > old(disk.hits)
    ensures Get(old(disk.now).root, Place(b, rel)) == None && IsFile(old(disk.now).root, Readme(b))
            && IsDir(old(disk.now).root, Partial(b, rel, pid)) && disk.faults(old(disk.calls)) ==>
              begun.Some? && disk.seen[begun.value] == old(disk.now) && struck == old(disk.hits) + 1
    ensures begun.Some? ==>
              SourceAfter(old(disk.seen), disk.seen, disk.seen[begun.value], disk.now, src, Partial(b, rel, pid), ok,
                          disk.hits == struck)
    ensures clean ==> AlwaysSaving(old(disk.seen), disk.seen, disk.now, old(disk.now), b, src, rel, put, pid)
    ensures clean ==> forall i :: |old(disk.seen)| <= i < |disk.seen| - 1 ==>
                        Get(disk.seen[i].root, Place(b, rel)) == Get(old(disk.now).root, Place(b, rel))
    ensures begun.Some? ==> IsFile(disk.now.root, Readme(b)) && (!ok ==>
              Cleaned(disk.seen[begun.value], disk.now, src, Partial(b, rel, pid), disk.hits - struck))
    ensures ok ==> Get(disk.now.root, Place(b, rel)).Some?
                   && (begun.Some? <==> Get(old(disk.now).root, Place(b, rel)) == None)
    ensures ok && begun.Some? ==> SavedFrom(disk.seen[begun.value], disk.now, b, src, rel, put, pid)
    ensures ok && begun.Some? && disk.hits == struck ==>
              LinksIn(disk.seen[begun.value], disk.now, src, Partial(b, rel, pid), Place(b, rel), put)
    ensures ok || disk.hits > old(disk.hits) || !SaveRoom(old(disk.now), b, src, rel, pid)
    ensures TurnTrace(disk.seen, |old(disk.seen)| - 1, SavePlan(b, src, rel, pid), put)
    ensures SoiledIn(disk.seen, |old(disk.seen)| - 1, |disk.seen| - 1, src, Partial(b, rel, pid), Place(b, rel)) ==>
              !clean
  {
    hide Elsewhere, Get, Inos, Apart, Partial, Readme, Place, Blocked, OnlyAt, NamesStay, Count, AllSound, Sound;
    hide WhileSaving, TurnTrace, SavePlan, SoiledIn, CopyTrace, BeganIn;
    hide AlwaysSaving, SourceAfter, SavedFrom, LeftHarmless, LinksIn, Cleaned;
    ghost var start, seen := disk.now, disk.seen;
    var dest := Place(b, rel);
    clean, begun, struck := true, None, disk.hits;
    if Get(disk.now.root, dest).Some? {
      NothingSaved(seen, seen, start, start, b, src, rel, put, pid);
      return true, true, None, struck;
    }
    ok := Begin(disk, b, about);
    StepsAdd(seen, disk.seen, start, {Readme(b)});
    if !ok {
      NothingSaved(seen, disk.seen, disk.now, start, b, src, rel, put, pid);
      WayToPartial(start, disk.now, b, rel, pid);
      return;
    }
    WayToPartial(start, disk.now, b, rel, pid);
    PlacesApart(b, rel, pid);
    StillThere(start, disk.now, {Readme(b)}, Partial(b, rel, pid));
    PlacesClearOf(b, src, rel, pid);
    ClearOfEach(src, Readme(b), Partial(b, rel, pid));
    StillThere(start, disk.now, {Readme(b)}, src);
    ok, clean, begun, struck := Replace(disk, b, src, rel, put, pid, seen, start);
  }

  /** The rest of a save, once the README is there: remove what an earlier copy left, and copy. */
  method Replace(disk: Disk, b: Backup, src: Path, rel: Path, put: PutMode, pid: string, ghost before: seq<State>,
                 ghost start: State)
    returns (ok: bool, ghost clean: bool, ghost begun: Option<nat>, ghost struck: nat)
    requires disk.Valid() && ItemPlace(rel) && Apart(src, b.dir) && Sound(start)
    requires before != [] && before[|before| - 1] == start && Get(start.root, Place(b, rel)) == None
    requires OnlyAt(before, disk.seen, start, {Readme(b)}) && Elsewhere(start, disk.now, {Readme(b)})
    requires IsFile(disk.now.root, Readme(b))
    modifies disk
    ensures disk.Valid() && disk.hits >= old(disk.hits) && before <= disk.seen && begun.Some?
    ensures |before| <= begun.value + 1
            && BeganIn(disk.seen, start, begun.value, b, src, rel, pid, old(disk.hits), struck)
            && AlwaysSaving(before, disk.seen[..begun.value + 1], disk.seen[begun.value], start, b, src, rel, put, pid)
            && exists e: nat :: CopyTrace(disk.seen, begun.value, e, src, Partial(b, rel, pid), Place(b, rel))
    ensures struck <= disk.hits
    ensures clean <==> !Harmful(disk.seen, begun, |disk.seen|, b, src, rel, pid)
    ensures !clean ==> IsDir(old(disk.now).root, Partial(b, rel, pid)) && disk.hits > old(disk.hits)
    ensures IsDir(old(disk.now).root, Partial(b, rel, pid)) && disk.faults(old(disk.calls)) ==>
              disk.seen[begun.value] == old(disk.now) && struck == old(disk.hits) + 1
    ensures SourceAfter(before, disk.seen, disk.seen[begun.value], disk.now, src, Partial(b, rel, pid), ok,
                        disk.hits == struck)
    ensures !ok ==>
              Cleaned(disk.seen[begun.value], disk.now, src, Partial(b, rel, pid), disk.hits - struck)
    ensures IsFile(disk.now.root, Readme(b))
    ensures clean ==> AlwaysSaving(before, disk.seen, disk.now, start, b, src, rel, put, pid)
    ensures clean ==> forall i :: |before| <= i < |disk.seen| - 1 ==>
                        Get(disk.seen[i].root, Place(b, rel)) == Get(start.root, Place(b, rel))
    ensures ok ==> SavedFrom(disk.seen[begun.value], disk.now, b, src, rel, put, pid)
                   && Get(disk.now.root, Place(b, rel)).Some?
    ensures ok && disk.hits == struck ==>
              LinksIn(disk.seen[begun.value], disk.now, src, Partial(b, rel, pid), Place(b, rel), put)
    ensures ok || disk.hits > old(disk.hits) || !IsDir(old(disk.now).root, src)
              || Blocked(old(disk.now).root, Partial(b, rel, pid))
    ensures TurnTrace(disk.seen, |before| - 1, SavePlan(b, src, rel, pid), put)
    ensures SoiledIn(disk.seen, |before| - 1, |disk.seen| - 1, src, Partial(b, rel, pid), Place(b, rel)) ==> !clean
  {
    hide Elsewhere, Get, Inos, Apart, Partial, Readme, Place, Blocked, OnlyAt, NamesStay, Count, AllSound, Sound;
    hide WhileSaving, TurnTrace, SavePlan, SoiledIn, CopyTrace, BeforeCopy, Shrinking;
    hide AlwaysSaving, SourceAfter, SavedFrom, LeftHarmless, LeftIsIn, LinksIn, Cleaned, IsFile, Renamed, CanRename;
    var partial := Partial(b, rel, pid);
    ghost var ours := {Readme(b), partial};
    PlacesApart(b, rel, pid);
    ghost var was, had := disk.now, disk.seen;
    SameElsewhere(start, ours);
    NoSteps(before, start, ours);
    JoinsAt(before, before, had, start, start, was, ours, {Readme(b)});
    SourceStays(start, was, b, src, rel, pid);
    StillThere(start, disk.now, {Readme(b)}, partial);
    NotRoot(b, rel, pid);
    var gone := disk.RemoveTree(partial);
    JoinsAt(before, had, disk.seen, start, was, disk.now, ours, {partial});
    Removed(was, disk.now, partial, gone);
    begun, struck := Some(|disk.seen| - 1), disk.hits;
    OnlyBefore(before, disk.seen, disk.now, start, b, src, rel, put, pid);
    clean := LeftHarmless(disk.now, b, src, rel, pid);
    SourceStays(start, disk.now, b, src, rel, pid);
    LeftWasThere(start, was, disk.now, partial);
    assert !clean ==> !gone && IsDir(was.root, partial) by {
      HarmfulIsDir(was, disk.now, b, src, rel, pid, gone);
    }
    BeforeSaveCopies(before, had, disk.seen, start, was, b, src, rel, pid);
    StillNothing(start, disk.now, b, rel, pid);
    ghost var copying, sofar := disk.now, disk.seen;
    ghost var e;
    ok, e := CopyIn(disk, b, src, rel, put, pid, before, start);
    assert disk.seen[..|sofar|] == sofar && disk.seen[|sofar| - 1] == copying;
    ReadmeStays(disk.seen, |sofar| - 1, e, was, b, src, rel, pid);
    if ok {
      SavedIsThere(copying, disk.now, b, src, rel, put, pid);
    }
    SourceSince(before, sofar, disk.seen, start, copying, disk.now, b, src, rel, pid, ok, disk.hits == struck);
    if clean {
      Traced(before, disk.seen, disk.now, start, begun, b, src, rel, put, pid);
    } else {
      UncleanTrace(before, sofar, disk.seen, start, e, b, src, rel, put, pid);
    }
  }

  lemma ReadmeStays(seen: seq<State>, c: nat, e: nat, was: State, b: Backup, src: Path, rel: Path, pid: string)
    requires ItemPlace(rel) && CopyTrace(seen, c, e, src, Partial(b, rel, pid), Place(b, rel)) && c < |seen|
    requires Elsewhere(was, seen[c], {Partial(b, rel, pid)})
    ensures IsFile(seen[|seen| - 1].root, Readme(b)) <==> IsFile(was.root, Readme(b))
  {
    PlacesApart(b, rel, pid);
    SinceCopy(seen, c, e, |seen| - 1, src, Partial(b, rel, pid), Place(b, rel));
    hide CopyTrace, Partial, Place, Readme, Get, Sound;
  }

  lemma SavedIsThere(s: State, t: State, b: Backup, src: Path, rel: Path, put: PutMode, pid: string)
    requires rel != [] && SavedFrom(s, t, b, src, rel, put, pid)
    ensures Get(t.root, Place(b, rel)).Some?
  {
  }

  lemma NothingSaved(before: seq<State>, seen: seq<State>, now: State, start: State, b: Backup, src: Path, rel: Path,
                     put: PutMode, pid: string)
    requires ItemPlace(rel) && Apart(src, b.dir) && before != [] && before[|before| - 1] == start && Sound(start)
    requires seen != [] && seen[|seen| - 1] == now && before <= seen
    requires (seen == before && now == start)
             || (OnlyAt(before, seen, start, {Readme(b)}) && Elsewhere(start, now, {Readme(b)}))
    ensures AlwaysSaving(before, seen, now, start, b, src, rel, put, pid)
    ensures forall i :: |before| <= i < |seen| - 1 ==>
              Get(seen[i].root, Place(b, rel)) == Get(start.root, Place(b, rel))
    ensures TurnTrace(seen, |before| - 1, SavePlan(b, src, rel, pid), put)
    ensures !SoiledIn(seen, |before| - 1, |seen| - 1, src, Partial(b, rel, pid), Place(b, rel))
  {
    hide Elsewhere, Partial, Place, Readme, AlwaysSaving, TurnTrace, SoiledIn, OnlyAt, Apart, WhileSaving, Get, Sound;
    var ours := {Readme(b), Partial(b, rel, pid)};
    SameElsewhere(start, ours);
    SameElsewhere(start, {Readme(b)});
    NoSteps(before, start, ours);
    NoSteps(before, start, {Readme(b)});
    assert seen == before ==> seen[..] == before;
    JoinsAt(before, before, seen, start, start, now, ours, {Readme(b)});
    OnlyBefore(before, seen, now, start, b, src, rel, put, pid);
    StillNothing(start, now, b, rel, pid);
    Traced(before, seen, now, start, None, b, src, rel, put, pid);
  }

  lemma Traced(before: seq<State>, seen: seq<State>, now: State, start: State, begun: Option<nat>, b: Backup, src: Path,
               rel: Path, put: PutMode, pid: string)
    requires ItemPlace(rel) && Apart(src, b.dir) && before != [] && before[|before| - 1] == start && Sound(start)
    requires seen != []
    requires AlwaysSaving(before, seen, now, start, b, src, rel, put, pid) && seen[|seen| - 1] == now
    requires forall i :: |before| <= i < |seen| - 1 ==>
               Get(seen[i].root, Place(b, rel)) == Get(start.root, Place(b, rel))
    requires if begun.None? then Get(now.root, Place(b, rel)) == Get(start.root, Place(b, rel))
             else begun.value < |seen| && LeftHarmless(seen[begun.value], b, src, rel, pid)
                  && |before| <= begun.value + 1 && Get(seen[begun.value].root, Place(b, rel)) == None
    ensures TurnTrace(seen, |before| - 1, SavePlan(b, src, rel, pid), put)
    ensures !SoiledIn(seen, |before| - 1, |seen| - 1, src, Partial(b, rel, pid), Place(b, rel))
  {
    SavingIsTraced(before, seen, now, start, b, src, rel, put, pid);
    CleanNotSoiled(before, seen, now, start, begun, b, src, rel, put, pid);
    hide *;
  }

  lemma UncleanTrace(before: seq<State>, sofar: seq<State>, seen: seq<State>, start: State, e: nat, b: Backup,
                     src: Path, rel: Path, put: PutMode, pid: string)
    requires ItemPlace(rel) && Apart(src, b.dir) && before != [] && before[|before| - 1] == start && Sound(start)
    requires sofar != [] && before <= sofar <= seen
    requires AlwaysSaving(before, sofar, sofar[|sofar| - 1], start, b, src, rel, put, pid)
    requires BeforeCopy(sofar, |before| - 1, |sofar| - 1, src, Partial(b, rel, pid))
    requires CopyTrace(seen, |sofar| - 1, e, src, Partial(b, rel, pid), Place(b, rel))
    requires !LeftHarmless(sofar[|sofar| - 1], b, src, rel, pid) && Get(start.root, Place(b, rel)) == None
    requires Elsewhere(start, sofar[|sofar| - 1], {Readme(b), Partial(b, rel, pid)})
    ensures TurnTrace(seen, |before| - 1, SavePlan(b, src, rel, pid), put)
  {
    hide Elsewhere, Apart, Partial, Place, Readme, AlwaysSaving, BeforeCopy, CopyTrace, LeftHarmless, TurnState, Sound;
    hide Get, SavePlan;
    var from, plan := |before| - 1, SavePlan(b, src, rel, pid);
    SavingIsTraced(before, sofar, sofar[|sofar| - 1], start, b, src, rel, put, pid);
    BeforeInPrefix(sofar, seen, from, |sofar| - 1, src, Partial(b, rel, pid));
    assert seen[from] == start && seen[|sofar| - 1] == sofar[|sofar| - 1];
    forall m | from <= m < |seen| ensures TurnState(seen, from, m, plan, put) {
      if m < |sofar| - 1 {
        TurnInPrefix(sofar, seen, from, m, plan, put);
      } else {
        UncleanState(seen, from, |sofar| - 1, e, m, b, src, rel, put, pid);
      }
    }
  }

  lemma StillNothing(start: State, t: State, b: Backup, rel: Path, pid: string)
    requires ItemPlace(rel) && Elsewhere(start, t, {Readme(b), Partial(b, rel, pid)})
    ensures Get(t.root, Place(b, rel)) == Get(start.root, Place(b, rel))
  {
    PlacesApart(b, rel, pid);
    assert Clear(Place(b, rel), {Readme(b), Partial(b, rel, pid)});
  }

  lemma LeftWasThere(start: State, was: State, t: State, partial: Path)
    requires Get(was.root, partial) == Get(start.root, partial) && NamesStay(t.root, was.root)
    ensures LeftIsIn(t, start, partial, partial)
  {
    forall q | Get(t.root, partial + q).Some?
      ensures (IsDir(t.root, partial + q) && IsDir(start.root, partial + q))
                || Get(start.root, partial + q) == Get(t.root, partial + q)
    {
      GetUnder(start.root, partial, q);
      GetUnder(was.root, partial, q);
    }
  }

  /** Until it began to copy, the source read as it did. */
  lemma SourceSince(before: seq<State>, begun: seq<State>, after: seq<State>, start: State, s: State, t: State,
                    b: Backup, src: Path, rel: Path, pid: string, ok: bool, quiet: bool)
    requires ItemPlace(rel) && Apart(src, b.dir) && Sound(start) && Sound(s)
    requires OnlyAt(before, begun, start, {Readme(b), Partial(b, rel, pid)})
    requires Elsewhere(start, s, {Readme(b), Partial(b, rel, pid)})
    requires SourceAfter(begun, after, s, t, src, Partial(b, rel, pid), ok, quiet)
    ensures SourceAfter(before, after, s, t, src, Partial(b, rel, pid), ok, quiet)
  {
    hide Sound, Elsewhere, Matches, LeftDistinct, SparesSource, Blocked, Shared, Partial, Readme, Emptied, TextsKept;
    var partial := Partial(b, rel, pid);
    SourceStays(start, s, b, src, rel, pid);
    PlacesClearOf(b, src, rel, pid);
    if !Shared(s, src, partial) {
      forall i | |before| <= i < |after| ensures TextsKept(s, after[i], src) {
        if i < |begun| {
          assert after[i] == begun[i];
          ClearReads(start, after[i], src, {Readme(b), partial});
          ClearReads(start, s, src, {Readme(b), partial});
          TextsAround(start, s, after[i], src);
        }
      }
    }
  }

  lemma PlacesClearOf(b: Backup, src: Path, rel: Path, pid: string)
    requires ItemPlace(rel) && Apart(src, b.dir)
    ensures Clear(src, {Readme(b), Partial(b, rel, pid)})
  {
    var partial := Partial(b, rel, pid);
    assert src + [] == src;
    assert partial == b.dir + [rel[0]] + [partial[|partial| - 1]] == b.dir + ([rel[0]] + [partial[|partial| - 1]]);
    ApartBelow(src, b.dir, [], [README]);
    ApartBelow(src, b.dir, [], [rel[0]] + [partial[|partial| - 1]]);
  }

  lemma PlacesClearOfAll(b: Backup, src: Path, rel: Path, pid: string)
    requires ItemPlace(rel) && Apart(src, b.dir)
    ensures Clear(src, SavePlan(b, src, rel, pid).reach)
  {
    PlacesClearOf(b, src, rel, pid);
    assert src + [] == src;
    ApartBelow(src, b.dir, [], rel);
  }

  lemma TextsAround(start: State, s: State, t: State, src: Path)
    requires TextsKept(start, s, src) && TextsKept(start, t, src)
    ensures TextsKept(s, t, src)
  {
    hide ReadText;
  }

  /** What a save over whatever was left made of the source, `s` being the state it began to copy in:
      where nothing is shared the source reads as it did in every state; nothing but a mismatch, a file
      in the way, or chance stops it; and if it is done, the source reads as it did if each of its files
      that was copied over was given the text it had, and, when no two names left led to one file, only
      if; a file copied over itself is empty then. */
  ghost predicate SourceAfter(before: seq<State>, after: seq<State>, s: State, t: State, src: Path, partial: Path,
                              ok: bool, quiet: bool) {
    && (!Shared(s, src, partial) ==> AllTextsKept(before, after, s, src) && TextsKept(s, t, src))
    && (IsDir(s.root, src) && Matches(s, src, partial) && !Blocked(s.root, partial) && quiet ==> ok)
    && (ok ==>
          && (SparesSource(s, src, partial) ==> TextsKept(s, t, src))
          && (LeftDistinct(s, partial) ==>
                (TextsKept(s, t, src) ==> SparesSource(s, src, partial)) && Emptied(s, t, src, partial)))
  }

  lemma NothingToCopy(before: seq<State>, s: State, src: Path, partial: Path, quiet: bool)
    requires Get(s.root, src) == None
    ensures SourceAfter(before, before, s, s, src, partial, false, quiet) && AllOver(before, before, s, src, partial)
  {
  }

  lemma SourceCopied(before: seq<State>, after: seq<State>, s: State, t: State, src: Path, partial: Path, n: Node,
                     ok: bool, quiet: bool)
    requires Sound(s) && Sound(t) && Apart(src, partial) && Get(s.root, src) == Some(n)
    requires n.Dir? ==> Onto(before, after, s, t, src, partial, n, Inos(n), ok, quiet)
    requires n.File? ==> !ok && t == s && after == before
    ensures SourceAfter(before, after, s, t, src, partial, ok, quiet)
    ensures forall q | Apart(partial, q) :: Get(t.root, q) == Get(s.root, q)
    ensures AllOver(before, after, s, src, partial) && (ok ==> SelfBlanks(s, t, src, partial))
  {
    hide Sound, Matches, Keeps, LeftDistinct, TextsKept, SameData, Blocked, SelfBlanks;
    if n.Dir? {
      assert Inos(n) <= s.data.Keys by { SoundSource(s, src); }
      assert src + [] == src;
      ApartUnder(partial, src, []);
      TextsAreData(s, t, src);
      if !Shared(s, src, partial) {
        NotSharedKept(s, t, src, partial);
        forall i | |before| <= i < |after| ensures TextsKept(s, after[i], src) {
          NotSharedKept(s, after[i], src, partial);
        }
      }
    } else {
      SameTexts(s, src);
    }
  }

  lemma SoundSource(s: State, src: Path)
    requires Sound(s) && Get(s.root, src).Some?
    ensures Inos(Get(s.root, src).value) <= s.data.Keys
  {
    InosOfGet(s.root, src);
  }

  lemma SameTexts(s: State, src: Path)
    ensures TextsKept(s, s, src)
  {
  }

  /** What follows the copying writes to no file and does not reach the source. */
  lemma SourceStill(before: seq<State>, had: seq<State>, after: seq<State>, s: State, was: State, t: State, src: Path,
                    partial: Path, ps: set<Path>, copied: bool, ok: bool, quiet: bool, allQuiet: bool)
    requires SourceAfter(before, had, s, was, src, partial, copied, quiet) && before <= had && Sound(was)
    requires OnlyAt(had, after, was, ps) && Elsewhere(was, t, ps) && Clear(src, ps)
    requires (ok ==> copied) && (allQuiet ==> quiet && (copied ==> ok))
    ensures SourceAfter(before, after, s, t, src, partial, ok, allQuiet)
  {
    hide Sound, Elsewhere, Matches, LeftDistinct, SparesSource, Blocked, Shared;
    forall u | Elsewhere(was, u, ps) ensures TextsKept(was, u, src) {
      ClearReads(was, u, src, ps);
    }
    if !Shared(s, src, partial) {
      forall i | |before| <= i < |after| ensures TextsKept(s, after[i], src) {
        if i < |had| {
          assert after[i] == had[i];
        } else {
          TextsThen(s, was, after[i], src);
        }
      }
      TextsThen(s, was, t, src);
    }
    if ok && TextsKept(s, was, src) {
      TextsThen(s, was, t, src);
    }
    if ok && TextsKept(s, t, src) {
      TextsBack(s, was, t, src);
    }
    if ok && Emptied(s, was, src, partial) {
      EmptiedThen(s, was, t, src, partial);
    }
  }

  lemma ApartIsClear(p: Path, q: Path, r: Path)
    requires Apart(p, q)
    ensures Clear(p, {q}) && (Apart(p, r) ==> Clear(p, {q, r}))
  {
  }

  lemma ClearReads(s: State, t: State, src: Path, ps: set<Path>)
    requires Sound(s) && Elsewhere(s, t, ps) && Clear(src, ps)
    ensures TextsKept(s, t, src)
  {
    forall q ensures ReadText(t, src + q) == ReadText(s, src + q) {
      GetUnder(s.root, src, q);
      GetUnder(t.root, src, q);
      if IsFile(s.root, src + q) {
        InoHeld(s, src + q);
      }
    }
  }

  lemma TextsThen(s: State, t: State, u: State, src: Path)
    requires TextsKept(s, t, src) && TextsKept(t, u, src)
    ensures TextsKept(s, u, src)
  {
    hide ReadText;
  }

  lemma TextsBack(s: State, t: State, u: State, src: Path)
    requires TextsKept(s, u, src) && TextsKept(t, u, src)
    ensures TextsKept(s, t, src)
  {
    hide ReadText;
  }

  lemma EmptiedThen(s: State, t: State, u: State, src: Path, partial: Path)
    requires Emptied(s, t, src, partial) && TextsKept(t, u, src)
    ensures Emptied(s, u, src, partial)
  {
  }

  /** Of a copy that failed nothing is left, unless the call to remove it failed too: then two did, or one
      and there was no copying `src`. */
  ghost predicate Cleaned(s: State, t: State, src: Path, partial: Path, failed: int) {
    IsDir(t.root, partial) ==>
      failed > 1 || (failed == 1 && !(IsDir(s.root, src) && Matches(s, src, partial) && !Blocked(s.root, partial)))
  }

  lemma CleanedUp(before: seq<State>, had: seq<State>, s: State, was: State, t: State, src: Path, partial: Path,
                  failed: nat)
    requires SourceAfter(before, had, s, was, src, partial, false, failed == 0)
    ensures Cleaned(s, t, src, partial, failed + 1)
  {
  }

  /** The rest of a save, once the removal of what an earlier copy left has been tried: copy, and move
      the copy in; if that fails, remove what was copied. */
  method CopyIn(disk: Disk, b: Backup, src: Path, rel: Path, put: PutMode, pid: string, ghost before: seq<State>,
                ghost start: State)
    returns (ok: bool, ghost e: nat)
    requires disk.Valid() && ItemPlace(rel) && Apart(src, b.dir) && Sound(start)
    requires Get(start.root, Place(b, rel)) == None
    requires OnlyAt(before, disk.seen, start, {Readme(b), Partial(b, rel, pid)})
    requires Elsewhere(start, disk.now, {Readme(b), Partial(b, rel, pid)})
    modifies disk
    ensures disk.Valid() && disk.hits >= old(disk.hits) && old(disk.seen) <= disk.seen
    ensures CopyTrace(disk.seen, |old(disk.seen)| - 1, e, src, Partial(b, rel, pid), Place(b, rel))
    ensures LeftHarmless(old(disk.now), b, src, rel, pid) ==>
              && AlwaysSaving(before, disk.seen, disk.now, start, b, src, rel, put, pid)
              && (forall i :: |before| <= i < |disk.seen| - 1 ==> Get(disk.seen[i].root, Place(b, rel)) == None)
              && (ok || disk.hits > old(disk.hits) || !IsDir(old(disk.now).root, src)
                  || Blocked(old(disk.now).root, Partial(b, rel, pid)))
    ensures ok ==> SavedFrom(old(disk.now), disk.now, b, src, rel, put, pid)
    ensures ok && disk.hits == old(disk.hits) ==>
              LinksIn(old(disk.now), disk.now, src, Partial(b, rel, pid), Place(b, rel), put)
    ensures !ok ==> Cleaned(old(disk.now), disk.now, src, Partial(b, rel, pid), disk.hits - old(disk.hits))
    ensures SourceAfter(old(disk.seen), disk.seen, old(disk.now), disk.now, src, Partial(b, rel, pid), ok,
                        disk.hits == old(disk.hits))
  {
    hide Elsewhere, Get, Inos, Apart, Partial, Readme, Place, Blocked, OnlyAt, NamesStay, Count, AllSound, Sound;
    hide WhileSaving, Matches;
    hide LeftHarmless, SourceAfter, SavedFrom, CopyTrace, Shrinking, LinksIn;
    var partial := Partial(b, rel, pid);
    ghost var copying, c := disk.now, |disk.seen| - 1;
    ghost var clean := LeftHarmless(copying, b, src, rel, pid);
    ok, e := Make(disk, b, src, rel, put, pid, before, start);
    if ok {
      return;
    }
    ghost var was, had, quiet, failed := disk.now, disk.seen, disk.hits == old(disk.hits), disk.hits - old(disk.hits);
    NotRoot(b, rel, pid);
    SourceStays(start, copying, b, src, rel, pid);
    ApartIsClear(src, partial, partial);
    var gone := disk.RemoveTree(partial);
    CleanedUp(old(disk.seen), had, copying, was, disk.now, src, partial, failed);
    StepsAdd(had, disk.seen, was, {partial});
    PlacesApart(b, rel, pid);
    TraceCleaned(had, disk.seen, c, src, partial, Place(b, rel));
    SourceStill(old(disk.seen), had, disk.seen, copying, was, disk.now, src, partial, {partial}, false, false, quiet,
                disk.hits == old(disk.hits));
    if clean {
      JoinsPartial(before, had, disk.seen, start, was, disk.now, b, rel, pid);
      OnlyBefore(before, disk.seen, disk.now, start, b, src, rel, put, pid);
      StepsAdd(before, disk.seen, start, {Readme(b), partial});
    }
  }

  /** What changes only the partial copy changes only it and the README. */
  lemma JoinsPartial(before: seq<State>, had: seq<State>, after: seq<State>, start: State, was: State, now: State,
                     b: Backup, rel: Path, pid: string)
    requires rel != []
    requires OnlyAt(before, had, start, {Readme(b), Partial(b, rel, pid)})
    requires Elsewhere(start, was, {Readme(b), Partial(b, rel, pid)})
    requires OnlyAt(had, after, was, {Partial(b, rel, pid)}) && Elsewhere(was, now, {Partial(b, rel, pid)})
    ensures OnlyAt(before, after, start, {Readme(b), Partial(b, rel, pid)})
    ensures Elsewhere(start, now, {Readme(b), Partial(b, rel, pid)})
  {
    hide Elsewhere, OnlyAt, Partial, Readme;
    var partial := Partial(b, rel, pid);
    assert partial in {Readme(b), partial} && partial <= partial;
    JoinsAt(before, had, after, start, was, now, {Readme(b), partial}, {partial});
  }

  /** What may be left for the copy to be whole all the same: directories the source has, and empty files
      of it that the copy links to. */
  ghost predicate LeftSame(s: State, src: Path, put: PutMode, partial: Path) {
    Get(s.root, src).Some? && forall q | Get(s.root, partial + q).Some? ::
      (IsDir(s.root, partial + q) && IsDir(s.root, src + q)) || LeftLink(s, src, put, partial, q)
  }

  ghost predicate LeftLink(s: State, src: Path, put: PutMode, partial: Path, q: Path)
    requires Get(s.root, src).Some?
  {
    IsFile(s.root, src + q) && EmptyLink(s, src + q, partial + q)
    && Get(s.root, src + q).value.ino in Linkable(put, src, Get(s.root, src).value)
  }

  /** A copy moved in: what became of what was left, and when exactly the copy is whole, or reads like
      the source. */
  ghost predicate SavedFrom(s: State, t: State, b: Backup, src: Path, rel: Path, put: PutMode, pid: string)
    requires rel != []
  {
    && Get(t.root, Place(b, rel)).Some? && LeftIsIn(s, t, Partial(b, rel, pid), Place(b, rel))
    && (LeftSame(s, src, put, Partial(b, rel, pid)) <==> WholeCopy(s, src, put, t, Place(b, rel)))
    && (LeftHarmless(s, b, src, rel, pid) ==> LeftSame(s, src, put, Partial(b, rel, pid)))
    && (put.Copying? && LeftSame(s, src, put, Partial(b, rel, pid)) ==> LeftHarmless(s, b, src, rel, pid))
    && (Spare(s, src, Partial(b, rel, pid)) ==>
          (LeftFits(s, src, Partial(b, rel, pid)) <==> Alike(s, src, t, Place(b, rel))))
  }

  /** A copy moved in: each file that may be linked is, where nothing was left. */
  ghost predicate LinksIn(s: State, t: State, src: Path, partial: Path, dest: Path, put: PutMode) {
    forall q :: IsFile(s.root, src + q) && MayLink(put, src + q) && Get(s.root, partial + q) == None ==>
      Get(t.root, dest + q) == Get(s.root, src + q)
  }

  lemma LinksMoveIn(s: State, was: State, t: State, src: Path, partial: Path, dest: Path, put: PutMode, n: Node)
    requires Linked(s, was, src, partial, put, n) && Apart(src, partial) && Sound(s) && Get(s.root, src) == Some(n)
    requires Sound(was) && CanRename(was.root, partial, dest) && t == Renamed(was, partial, dest)
    ensures LinksIn(s, t, src, partial, dest, put)
  {
    RenameMoves(was, partial, dest);
    hide CanRename, Renamed, Sound, MayLink;
    forall q | IsFile(s.root, src + q) && MayLink(put, src + q) && Get(s.root, partial + q) == None
      ensures Get(t.root, dest + q) == Get(s.root, src + q)
    {
      GetUnder(was.root, partial, q);
      GetUnder(t.root, dest, q);
    }
  }

  /** `copy_tree`, and then the rename. */
  method Make(disk: Disk, b: Backup, src: Path, rel: Path, put: PutMode, pid: string, ghost before: seq<State>,
              ghost start: State)
    returns (ok: bool, ghost e: nat)
    requires disk.Valid() && ItemPlace(rel) && Apart(src, b.dir) && Sound(start)
    requires Get(start.root, Place(b, rel)) == None
    requires OnlyAt(before, disk.seen, start, {Readme(b), Partial(b, rel, pid)})
    requires Elsewhere(start, disk.now, {Readme(b), Partial(b, rel, pid)})
    modifies disk
    ensures disk.Valid() && disk.hits >= old(disk.hits) && old(disk.seen) <= disk.seen
    ensures CopyTrace(disk.seen, |old(disk.seen)| - 1, e, src, Partial(b, rel, pid), Place(b, rel))
    ensures !ok ==> e == |disk.seen| - 1 && Get(disk.now.root, Place(b, rel)) == None
    ensures LeftHarmless(old(disk.now), b, src, rel, pid) ==>
              && (if ok then
                    && AlwaysSaving(before, disk.seen, disk.now, start, b, src, rel, put, pid)
                    && (forall i :: |before| <= i < |disk.seen| - 1 ==> Get(disk.seen[i].root, Place(b, rel)) == None)
                  else
                    && OnlyAt(before, disk.seen, start, {Readme(b), Partial(b, rel, pid)})
                    && Elsewhere(start, disk.now, {Readme(b), Partial(b, rel, pid)}))
              && (ok || disk.hits > old(disk.hits) || !IsDir(old(disk.now).root, src)
                  || Blocked(old(disk.now).root, Partial(b, rel, pid)))
    ensures ok ==> SavedFrom(old(disk.now), disk.now, b, src, rel, put, pid)
    ensures ok && disk.hits == old(disk.hits) ==>
              LinksIn(old(disk.now), disk.now, src, Partial(b, rel, pid), Place(b, rel), put)
    ensures SourceAfter(old(disk.seen), disk.seen, old(disk.now), disk.now, src, Partial(b, rel, pid), ok,
                        disk.hits == old(disk.hits))
  {
    hide Elsewhere, Get, Inos, Apart, Partial, Readme, Place, Blocked, OnlyAt, NamesStay, Count, AllSound, Sound;
    hide WhileSaving;
    hide LeftHarmless, SourceAfter, SavedFrom, Onto, CopiedOver, FitToCopy, Copied, WholeCopy, CanRename, Renamed;
    hide SelfBlanks, Linked, LinksIn;
    hide AlwaysSaving, Linkable, CopyTrace, AllNamesStay, AllOver;
    var dest, partial := Place(b, rel), Partial(b, rel, pid);
    ghost var copying, clean := disk.now, LeftHarmless(disk.now, b, src, rel, pid);
    StepsAdd(before, disk.seen, start, {Readme(b), partial});
    NotRoot(b, rel, pid);
    SourceStays(start, copying, b, src, rel, pid);
    NothingThere(start, copying, b, rel, pid);
    ApartIsClear(src, partial, dest);
    PlacesApart(b, rel, pid);
    var n := Get(disk.now.root, src);
    e := |disk.seen| - 1;
    if n.None? {
      NothingToCopy(disk.seen, copying, src, partial, true);
      NoneGone(disk.seen, copying);
      TraceCopied(disk.seen, disk.seen, src, partial, dest);
      return false, e;
    }
    if clean {
      FitWhenClean(copying, b, src, rel, pid);
    }
    ok := CopyTree(disk, src, partial, put, n.value, Inos(n.value));
    ghost var was, had, copied, quiet := disk.now, disk.seen, ok, disk.hits == old(disk.hits);
    SourceCopied(old(disk.seen), had, copying, was, src, partial, n.value, ok, quiet);
    e := |had| - 1;
    TraceCopied(old(disk.seen), had, src, partial, dest);
    if clean {
      JoinsPartial(before, old(disk.seen), had, start, copying, was, b, rel, pid);
    }
    if !ok {
      return;
    }
    CanMoveIn(was, b, rel, pid);
    ok := disk.Rename(partial, dest);
    if !ok {
      SameElsewhere(was, {partial});
      NoSteps(had, was, {partial});
      SourceStill(old(disk.seen), had, disk.seen, copying, was, was, src, partial, {partial}, copied, ok, quiet,
                  disk.hits == old(disk.hits));
      return;
    }
    RenameMoves(was, partial, dest);
    TraceMoved(had, disk.now, |old(disk.seen)| - 1, src, partial, dest);
    OneStep(had, disk.now, was, {partial, dest});
    SourceStill(old(disk.seen), had, disk.seen, copying, was, disk.now, src, partial, {partial, dest}, copied, ok,
                quiet, disk.hits == old(disk.hits));
    if clean {
      WholeWhenCopied(copying, was, src, put, partial);
      MovedIn(start, copying, was, disk.now, b, src, rel, put, pid);
      AllButLast(before, had, was, disk.now, start, b, src, rel, put, pid);
    }
    Moved(copying, was, disk.now, b, src, rel, put, pid, n.value);
    if disk.hits == old(disk.hits) {
      LinksMoveIn(copying, was, disk.now, src, partial, dest, put, n.value);
    }
  }

  /** The rename is the one step that changes what is at the item's place. */
  lemma AllButLast(before: seq<State>, had: seq<State>, was: State, now: State, start: State, b: Backup, src: Path,
                   rel: Path, put: PutMode, pid: string)
    requires ItemPlace(rel) && Get(start.root, Place(b, rel)) == None
    requires OnlyAt(before, had, start, {Readme(b), Partial(b, rel, pid)})
    requires Elsewhere(start, was, {Readme(b), Partial(b, rel, pid)})
    requires WhileSaving(start, now, b, src, rel, put, pid)
    ensures AlwaysSaving(before, had + [now], now, start, b, src, rel, put, pid)
    ensures forall i :: |before| <= i < |had| ==> Get((had + [now])[i].root, Place(b, rel)) == None
  {
    hide WhileSaving, Get, Elsewhere, Partial, Place, Readme;
    OnlyBefore(before, had, was, start, b, src, rel, put, pid);
  }

  lemma Moved(s: State, was: State, t: State, b: Backup, src: Path, rel: Path, put: PutMode, pid: string, n: Node)
    requires ItemPlace(rel) && Sound(s) && Sound(was) && Sound(t) && Apart(src, Partial(b, rel, pid))
    requires NamesStay(s.root, was.root)
    requires Get(s.root, src) == Some(n) && CopiedOver(s, was, src, Partial(b, rel, pid), put, n)
    requires SelfBlanks(s, was, src, Partial(b, rel, pid)) && Get(was.root, src) == Get(s.root, src)
    requires CanRename(was.root, Partial(b, rel, pid), Place(b, rel))
    requires t == Renamed(was, Partial(b, rel, pid), Place(b, rel))
    requires LeftHarmless(s, b, src, rel, pid) ==> WholeCopy(s, src, put, t, Place(b, rel))
    ensures SavedFrom(s, t, b, src, rel, put, pid)
  {
    hide Get, Sound, Partial, Place, WholeCopy, CanRename, Renamed, CopiedOver, LeftIsIn, LeftFits, Alike, Spare;
    hide LeftHarmless, NamesStay, LeftSame, SelfBlanks;
    var partial, dest := Partial(b, rel, pid), Place(b, rel);
    LeftMovesIn(s, was, t, partial, dest);
    LikeTheSource(s, was, t, src, put, n, partial, dest);
    if LeftSame(s, src, put, partial) {
      SameIsWhole(s, was, t, src, put, n, partial, dest);
    }
    RenamedData(was, partial, dest);
    if WholeCopy(s, src, put, t, dest) {
      WholeIsSame(s, was, t, src, put, n, partial, dest);
    }
    if put.Copying? && !LeftHarmless(s, b, src, rel, pid) {
      HarmfulNotWhole(s, t, b, src, rel, pid);
    }
  }

  /** Over links to the source's own empty files the copy is whole. */
  lemma SameIsWhole(s: State, was: State, t: State, src: Path, put: PutMode, n: Node, partial: Path, dest: Path)
    requires Sound(s) && Sound(was) && Sound(t) && Apart(src, partial)
    requires Get(s.root, src) == Some(n) && CopiedOver(s, was, src, partial, put, n) && LeftSame(s, src, put, partial)
    requires CanRename(was.root, partial, dest) && t == Renamed(was, partial, dest)
    ensures WholeCopy(s, src, put, t, dest)
  {
    RenameMoves(was, partial, dest);
    var shared := Linkable(put, src, n);
    SameFits(s, src, put, partial);
    assert src + [] == src && partial + [] == partial;
    hide Get, Sound, Alike, Linkable, CanRename, Renamed, Inos, LeftSame, Written, Spare, LeftFits;
    forall q | IsFile(was.root, partial + q) ensures WholeAt(s, was, src, partial, shared, q) {
      PutIsWhole(s, was, src, partial, put, n, q);
    }
    var m := Get(was.root, partial).value;
    AlikeIsCopied(s, was, src, partial, shared, [], n, m);
    CopiedElsewhere(n, m, s, was, t, shared);
  }

  lemma {:induction false} CopiedElsewhere(n: Node, m: Node, s: State, t: State, u: State, shared: set<nat>)
    requires Copied(n, m, s, t, shared) && Grows(t.data, u.data)
    ensures Copied(n, m, s, u, shared)
    decreases n
  {
    if n.Dir? {
      forall k | k in n.kids ensures Copied(n.kids[k], m.kids[k], s, u, shared) {
        CopiedElsewhere(n.kids[k], m.kids[k], s, t, u, shared);
      }
    }
  }

  lemma RenamedData(s: State, from: Path, to: Path)
    requires CanRename(s.root, from, to)
    ensures Renamed(s, from, to).data == s.data
  {
  }

  lemma SameFits(s: State, src: Path, put: PutMode, partial: Path)
    requires LeftSame(s, src, put, partial)
    ensures Spare(s, src, partial) && LeftFits(s, src, partial)
  {
    hide Get, Linkable, OneName;
  }

  /** The file at `q` is the copy's own, or shared. */
  ghost predicate WholeAt(s: State, t: State, src: Path, dst: Path, shared: set<nat>, q: Path)
    requires IsFile(t.root, dst + q)
  {
    var i := Get(t.root, dst + q).value.ino;
    s.next <= i || (i in shared && Get(s.root, src + q) == Some(File(i)))
  }

  lemma PutIsWhole(s: State, t: State, src: Path, dst: Path, put: PutMode, n: Node, q: Path)
    requires Get(s.root, src) == Some(n) && LeftSame(s, src, put, dst) && Written(s, t, src, dst, put)
    requires IsFile(t.root, dst + q)
    ensures WholeAt(s, t, src, dst, Linkable(put, src, n), q)
  {
    assert PutThere(s, t, src, dst, put, q);
    if MayLink(put, src + q) && Get(t.root, dst + q) == Get(s.root, src + q) {
      GetUnder(s.root, src, q);
      LinkableAt(put, src, n, q);
    }
    hide Linkable;
  }

  lemma {:induction false} LinkableAt(put: PutMode, path: Path, n: Node, q: Path)
    requires MayLink(put, path + q) && Get(n, q).Some? && Get(n, q).value.File?
    ensures Get(n, q).value.ino in Linkable(put, path, n)
    decreases |q|
  {
    if put.logs <= path {
      AboveToo(put.logs, path, q);
      assert false;
    }
    if q != [] {
      assert path + q == path + [q[0]] + q[1..];
      LinkableAt(put, path + [q[0]], n.kids[q[0]], q[1..]);
    } else {
      assert path + q == path;
    }
  }

  lemma AboveToo(p: Path, path: Path, q: Path)
    requires p <= path
    ensures p <= path + q
  {
  }

  /** What reads alike, through files of its own or shared ones, is a copy. */
  lemma {:induction false} AlikeIsCopied(s: State, t: State, src: Path, dst: Path, shared: set<nat>, q: Path, n: Node,
                                         m: Node)
    requires Sound(s) && Sound(t) && Alike(s, src, t, dst)
    requires forall r | IsFile(t.root, dst + r) :: WholeAt(s, t, src, dst, shared, r)
    requires Get(s.root, src + q) == Some(n) && Get(t.root, dst + q) == Some(m)
    ensures Copied(n, m, s, t, shared)
    decreases n
  {
    AlikeAt(s, src, t, dst, q);
    hide Alike;
    if n.File? {
      InoHeld(s, src + q);
      assert m.File?;
      InoHeld(t, dst + q);
      assert WholeAt(s, t, src, dst, shared, q);
    } else {
      assert m.Dir?;
      forall k ensures k in n.kids <==> k in m.kids {
        KidAlike(s, t, src, dst, q, n, m, k);
      }
      forall k | k in n.kids ensures Copied(n.kids[k], m.kids[k], s, t, shared) {
        KidAlike(s, t, src, dst, q, n, m, k);
        AlikeIsCopied(s, t, src, dst, shared, q + [k], n.kids[k], m.kids[k]);
      }
    }
  }

  lemma KidAlike(s: State, t: State, src: Path, dst: Path, q: Path, n: Node, m: Node, k: string)
    requires Sound(s) && Sound(t) && Alike(s, src, t, dst)
    requires Get(s.root, src + q) == Some(n) && Get(t.root, dst + q) == Some(m) && n.Dir? && m.Dir?
    ensures k in n.kids <==> k in m.kids
    ensures k in n.kids ==> Get(s.root, src + (q + [k])) == Some(n.kids[k])
    ensures k in m.kids ==> Get(t.root, dst + (q + [k])) == Some(m.kids[k])
  {
    AlikeAt(s, src, t, dst, q + [k]);
    KidThere(s, src, q, n, k);
    KidThere(t, dst, q, m, k);
    hide Alike, Sound, ReadText, Get;
  }

  lemma KidThere(s: State, p: Path, q: Path, n: Node, k: string)
    requires Sound(s) && Get(s.root, p + q) == Some(n) && n.Dir?
    ensures Get(s.root, p + (q + [k])) == if k in n.kids then Some(n.kids[k]) else None
    ensures IsFile(s.root, p + (q + [k])) ==> ReadText(s, p + (q + [k])).Some?
    ensures IsDir(s.root, p + (q + [k])) ==> ReadText(s, p + (q + [k])) == None
  {
    EntryOf(s.root, p + q, n, k);
    assert p + q + [k] == p + (q + [k]);
    if IsFile(s.root, p + (q + [k])) {
      InoHeld(s, p + (q + [k]));
    }
  }

  /** And only over those, or bare directories: a file left is in the copy, which shares none but the
      source's, and a file copied over itself is left empty. */
  lemma WholeIsSame(s: State, was: State, t: State, src: Path, put: PutMode, n: Node, partial: Path, dest: Path)
    requires Sound(s) && Sound(was) && Get(s.root, src) == Some(n) && Get(was.root, src) == Some(n)
    requires SelfBlanks(s, was, src, partial) && t.data == was.data
    requires LeftIsIn(s, t, partial, dest) && WholeCopy(s, src, put, t, dest)
    ensures LeftSame(s, src, put, partial)
  {
    hide Get, Sound, Linkable, LeftIsIn, Copied, WholeCopy, Emptied, Blanked;
    forall q | IsFile(s.root, partial + q) ensures Get(s.root, src + q) == Get(s.root, partial + q) {
      LeftInWhole(s, t, src, put, n, partial, dest, q);
    }
    assert SelfLinks(s, src, partial);
    forall q | Get(s.root, partial + q).Some?
      ensures (IsDir(s.root, partial + q) && IsDir(s.root, src + q)) || LeftLink(s, src, put, partial, q)
    {
      LeftInWhole(s, t, src, put, n, partial, dest, q);
      if IsFile(s.root, partial + q) {
        EmptiedIsEmpty(s, was, src, partial, n, q);
      }
    }
  }

  /** Something left, found in a whole copy. */
  lemma LeftInWhole(s: State, t: State, src: Path, put: PutMode, n: Node, partial: Path, dest: Path, q: Path)
    requires Sound(s) && Get(s.root, src) == Some(n) && Get(s.root, partial + q).Some?
    requires LeftIsIn(s, t, partial, dest) && WholeCopy(s, src, put, t, dest)
    ensures IsDir(s.root, partial + q) ==> IsDir(s.root, src + q)
    ensures IsFile(s.root, partial + q) ==>
              && Get(s.root, src + q) == Get(s.root, partial + q)
              && var i := Get(s.root, src + q).value.ino;
                 i in Linkable(put, src, n) && i in s.data && i in t.data && t.data[i] == s.data[i]
  {
    var m := Get(t.root, dest).value;
    CopiedNames(n, m, s, t, Linkable(put, src, n), q);
    GetUnder(s.root, src, q);
    GetUnder(t.root, dest, q);
    if IsFile(s.root, partial + q) {
      InoHeld(s, partial + q);
    }
    hide Linkable, Sound, Inos;
  }

  lemma EmptiedIsEmpty(s: State, was: State, src: Path, partial: Path, n: Node, q: Path)
    requires Sound(s) && Get(s.root, src) == Some(n) && Get(was.root, src) == Some(n) && Emptied(s, was, src, partial)
    requires IsFile(s.root, src + q) && Get(s.root, src + q) == Get(s.root, partial + q)
    requires var i := Get(s.root, src + q).value.ino; i in s.data && i in was.data && was.data[i] == s.data[i]
    ensures ReadText(s, partial + q) == Some("")
  {
    GetUnder(s.root, src, q);
    GetUnder(was.root, src, q);
    assert ReadText(was, src + q) == Some("");
  }

  /** What is moved in is like the source exactly when all that was left fits it. */
  lemma LikeTheSource(s: State, was: State, now: State, src: Path, put: PutMode, n: Node, partial: Path, dest: Path)
    requires Sound(s) && Sound(was) && Sound(now) && Apart(src, partial)
    requires Get(s.root, src) == Some(n) && CopiedOver(s, was, src, partial, put, n)
    requires CanRename(was.root, partial, dest) && now == Renamed(was, partial, dest) && LeftIsIn(s, now, partial, dest)
    ensures Spare(s, src, partial) ==> (LeftFits(s, src, partial) <==> Alike(s, src, now, dest))
  {
    hide Spare, LeftFits, Alike, LeftIsIn, CanRename, Renamed;
    if Spare(s, src, partial) {
      if LeftFits(s, src, partial) {
        AlikeMoved(s, src, was, now, partial, dest);
      } else {
        MisfitStays(s, now, src, partial, dest);
      }
    }
  }

  lemma WholeWhenCopied(s: State, t: State, src: Path, put: PutMode, dest: Path)
    requires Get(s.root, src).Some? && IsDir(t.root, dest)
    requires Copied(Get(s.root, src).value, Get(t.root, dest).value, s, t, Linkable(put, src, Get(s.root, src).value))
    ensures WholeCopy(s, src, put, t, dest)
  {
  }

  /** The files that were in the way of nothing on the way to `partial` still are not. */
  lemma WayToPartial(start: State, t: State, b: Backup, rel: Path, pid: string)
    requires ItemPlace(rel)
    requires forall q :: IsFile(t.root, q) ==> IsFile(start.root, q) || q == Readme(b)
    ensures !Blocked(start.root, Partial(b, rel, pid)) ==> !Blocked(t.root, Partial(b, rel, pid))
    ensures Blocked(start.root, b.dir) ==> Blocked(start.root, Partial(b, rel, pid))
  {
    PlacesApart(b, rel, pid);
    var partial := Partial(b, rel, pid);
    assert b.dir <= partial;
    hide Partial, Readme;
    if Blocked(start.root, b.dir) {
      var q :| q <= b.dir && IsFile(start.root, q);
      assert q <= partial;
    }
  }

  /** After a removal was tried: gone, and no file in the way; or what there is, is not in one. */
  lemma Removed(s: State, t: State, p: Path, gone: bool)
    requires Elsewhere(s, t, {p})
    requires gone ==> IsDir(s.root, p) && Get(t.root, p) == None
    requires !IsDir(s.root, p) ==> t == s
    ensures !Blocked(s.root, p) && (gone || t == s) ==> !Blocked(t.root, p)
  {
    if gone && !Blocked(s.root, p) {
      RemovedBlocks(s, t, p);
    }
  }

  lemma HarmfulIsDir(s: State, t: State, b: Backup, src: Path, rel: Path, pid: string, gone: bool)
    requires rel != []
    requires gone ==> Get(t.root, Partial(b, rel, pid)) == None
    requires !IsDir(s.root, Partial(b, rel, pid)) ==> t == s
    ensures !LeftHarmless(t, b, src, rel, pid) ==> !gone && IsDir(s.root, Partial(b, rel, pid))
  {
  }

  lemma FitWhenClean(s: State, b: Backup, src: Path, rel: Path, pid: string)
    requires ItemPlace(rel) && Apart(src, Partial(b, rel, pid)) && LeftHarmless(s, b, src, rel, pid)
    requires Get(s.root, src).Some?
    ensures FitToCopy(s, src, Partial(b, rel, pid), Get(s.root, src).value)
  {
  }

  lemma NothingThere(start: State, t: State, b: Backup, rel: Path, pid: string)
    requires ItemPlace(rel) && Get(start.root, Place(b, rel)) == None
    requires Elsewhere(start, t, {Readme(b), Partial(b, rel, pid)})
    ensures Get(t.root, Place(b, rel)) == None
  {
    PlacesApart(b, rel, pid);
    assert Clear(Place(b, rel), {Readme(b), Partial(b, rel, pid)});
  }

  lemma CanMoveIn(was: State, b: Backup, rel: Path, pid: string)
    requires ItemPlace(rel) && IsDir(was.root, Partial(b, rel, pid)) && Get(was.root, Place(b, rel)) == None
    ensures CanRename(was.root, Partial(b, rel, pid), Place(b, rel))
  {
    var partial, dest := Partial(b, rel, pid), Place(b, rel);
    PlacesApart(b, rel, pid);
    var up := partial[..|partial| - 1];
    assert up == dest[..|dest| - 1] && up < partial;
    WayIsDir(was.root, up, partial);
    RoomIsParent(was.root, dest);
  }

  lemma HarmfulNotWhole(s: State, t: State, b: Backup, src: Path, rel: Path, pid: string)
    requires ItemPlace(rel) && Sound(s) && !LeftHarmless(s, b, src, rel, pid)
    requires LeftIsIn(s, t, Partial(b, rel, pid), Place(b, rel)) && Get(t.root, Place(b, rel)).Some?
    ensures !WholeCopy(s, src, Copying, t, Place(b, rel))
  {
    var n := Get(s.root, src).value;
    hide Copied, Inos, DirsOf, LeftIsIn, Partial, Place;
    if n.Dir? {
      LeftoverIsMovedIn(s, t, Partial(b, rel, pid), Place(b, rel), n);
    } else {
      FileNotDir(s, t, Partial(b, rel, pid), Place(b, rel), n);
    }
  }

  lemma FileNotDir(s: State, t: State, partial: Path, dest: Path, n: Node)
    requires n.File? && IsDir(s.root, partial) && LeftIsIn(s, t, partial, dest) && Get(t.root, dest).Some?
    ensures !Copied(n, Get(t.root, dest).value, s, t, {})
  {
    assert partial + [] == partial && dest + [] == dest;
  }

  lemma LeftMovesIn(s: State, was: State, now: State, partial: Path, dest: Path)
    requires NamesStay(s.root, was.root) && Sound(was)
    requires CanRename(was.root, partial, dest) && now == Renamed(was, partial, dest)
    ensures LeftIsIn(s, now, partial, dest) && Get(now.root, dest).Some?
  {
    RenameMoves(was, partial, dest);
    forall q | Get(s.root, partial + q).Some?
      ensures (IsDir(s.root, partial + q) && IsDir(now.root, dest + q))
                || Get(now.root, dest + q) == Get(s.root, partial + q)
    {
      GetUnder(was.root, partial, q);
      GetUnder(now.root, dest, q);
    }
  }

  lemma NotRoot(b: Backup, rel: Path, pid: string)
    requires rel != []
    ensures Partial(b, rel, pid) != []
  {
  }

  lemma StillThere(s: State, t: State, ps: set<Path>, q: Path)
    requires Elsewhere(s, t, ps) && Clear(q, ps)
    ensures Get(t.root, q) == Get(s.root, q)
  {
  }

  lemma SourceStays(start: State, t: State, b: Backup, src: Path, rel: Path, pid: string)
    requires ItemPlace(rel) && Apart(src, b.dir) && Elsewhere(start, t, {Readme(b), Partial(b, rel, pid)})
    ensures Get(t.root, src) == Get(start.root, src)
    ensures Apart(src, Partial(b, rel, pid)) && Apart(src, Place(b, rel))
  {
    var partial := Partial(b, rel, pid);
    assert src + [] == src;
    assert partial == b.dir + [rel[0]] + [partial[|partial| - 1]] == b.dir + ([rel[0]] + [partial[|partial| - 1]]);
    ApartBelow(src, b.dir, [], [README]);
    ApartBelow(src, b.dir, [], [rel[0]] + [partial[|partial| - 1]]);
    ApartBelow(src, b.dir, [], rel);
    assert Clear(src, {Readme(b), partial});
  }

  lemma SourceOutside(start: State, mid: State, b: Backup, src: Path, rel: Path, pid: string)
    requires ItemPlace(rel) && Apart(src, b.dir)
    requires Elsewhere(start, mid, {Readme(b), Partial(b, rel, pid), Place(b, rel)})
    ensures Get(mid.root, src) == Get(start.root, src)
  {
    hide Get;
    var partial := Partial(b, rel, pid);
    assert src + [] == src;
    assert partial == b.dir + [rel[0]] + [partial[|partial| - 1]] == b.dir + ([rel[0]] + [partial[|partial| - 1]]);
    ApartBelow(src, b.dir, [], [README]);
    ApartBelow(src, b.dir, [], [rel[0]] + [partial[|partial| - 1]]);
    ApartBelow(src, b.dir, [], rel);
    assert Clear(src, {Readme(b), partial, Place(b, rel)});
  }

  /** As long as only the README and the partial copy change, the item's place is as it was. */
  lemma OnlyBefore(before: seq<State>, after: seq<State>, now: State, start: State, b: Backup, src: Path, rel: Path,
                   put: PutMode, pid: string)
    requires ItemPlace(rel)
    requires OnlyAt(before, after, start, {Readme(b), Partial(b, rel, pid)})
    requires Elsewhere(start, now, {Readme(b), Partial(b, rel, pid)})
    ensures forall i :: |before| <= i < |after| ==>
              WhileSaving(start, after[i], b, src, rel, put, pid)
                  && Get(after[i].root, Place(b, rel)) == Get(start.root, Place(b, rel))
    ensures WhileSaving(start, now, b, src, rel, put, pid)
    ensures AlwaysSaving(before, after, now, start, b, src, rel, put, pid)
  {
    forall i | |before| <= i < |after|
      ensures WhileSaving(start, after[i], b, src, rel, put, pid)
      ensures Get(after[i].root, Place(b, rel)) == Get(start.root, Place(b, rel))
    {
      NotYetIn(start, after[i], b, src, rel, put, pid);
    }
    NotYetIn(start, now, b, src, rel, put, pid);
  }

  lemma NotYetIn(start: State, t: State, b: Backup, src: Path, rel: Path, put: PutMode, pid: string)
    requires ItemPlace(rel) && Elsewhere(start, t, {Readme(b), Partial(b, rel, pid)})
    ensures WhileSaving(start, t, b, src, rel, put, pid) && Get(t.root, Place(b, rel)) == Get(start.root, Place(b, rel))
  {
    hide Get, Partial, Readme, Place;
    PlacesApart(b, rel, pid);
    var few, all := {Readme(b), Partial(b, rel, pid)}, {Readme(b), Partial(b, rel, pid), Place(b, rel)};
    ElsewhereWider(start, t, few, all);
    assert Clear(Place(b, rel), few);
  }

  /** The rename brings a whole copy to the item's place. */
  lemma MovedIn(start: State, copying: State, was: State, now: State, b: Backup, src: Path, rel: Path, put: PutMode,
                pid: string)
    requires ItemPlace(rel) && Sound(start) && Sound(was) && Apart(src, b.dir)
    requires Elsewhere(start, copying, {Readme(b), Partial(b, rel, pid)})
    requires Elsewhere(start, was, {Readme(b), Partial(b, rel, pid)})
    requires Get(start.root, Place(b, rel)) == None
    requires Get(copying.root, src).Some? && WholeCopy(copying, src, put, was, Partial(b, rel, pid))
    requires CanRename(was.root, Partial(b, rel, pid), Place(b, rel))
    requires now == Renamed(was, Partial(b, rel, pid), Place(b, rel))
    ensures WhileSaving(start, now, b, src, rel, put, pid) && Get(now.root, Place(b, rel)).Some?
    ensures WholeCopy(copying, src, put, now, Place(b, rel))
  {
    hide Get, Partial, Readme, Place, Copied, Linkable, Elsewhere, Apart, CanRename, Renamed, Inos;
    var partial, dest := Partial(b, rel, pid), Place(b, rel);
    var few, all := {Readme(b), partial}, {Readme(b), partial, dest};
    PlacesApart(b, rel, pid);
    SourceStays(start, copying, b, src, rel, pid);
    RenameMoves(was, partial, dest);
    ElsewhereWider(start, was, few, all);
    ElsewhereWider(was, now, {partial, dest}, all);
    ElsewhereThen(start, was, now, all);
    var n, m := Get(start.root, src).value, Get(now.root, dest).value;
    InosOfGet(start.root, src);
    GrowsOf(start, copying, few);
    GrowsOf(was, now, {partial, dest});
    CopiedBetween(n, m, start, copying, was, now, Linkable(put, src, n), Linkable(put, src, n));
    CopiedBetween(n, m, copying, copying, was, now, Linkable(put, src, n), Linkable(put, src, n));
  }

  // ---- What leftovers do ----

  /** A whole copy has the names the item has. */
  lemma {:induction false} CopiedNames(n: Node, m: Node, start: State, t: State, shared: set<nat>, q: Path)
    ensures Copied(n, m, start, t, shared) ==> (Get(n, q).Some? <==> Get(m, q).Some?)
    ensures Copied(n, m, start, t, shared) && Get(n, q).Some? ==>
              Copied(Get(n, q).value, Get(m, q).value, start, t, shared)
    decreases |q|
  {
    if q != [] && n.Dir? && m.Dir? && q[0] in n.kids && q[0] in m.kids {
      CopiedNames(n.kids[q[0]], m.kids[q[0]], start, t, shared, q[1..]);
    }
  }

  /** Whatever the item: moved in with a leftover that is not harmless, it is no whole copy. A name the
      item lacks is in it for good, or a file an earlier copy made and not this one. */
  lemma LeftoverIsMovedIn(s: State, t: State, partial: Path, dest: Path, n: Node)
    requires Sound(s) && IsDir(s.root, partial) && n.Dir? && !DirsOf(Get(s.root, partial).value, n)
    requires LeftIsIn(s, t, partial, dest) && Get(t.root, dest).Some?
    ensures !Copied(n, Get(t.root, dest).value, s, t, {})
  {
    var q := HarmfulHas(Get(s.root, partial).value, n);
    GetUnder(s.root, partial, q);
    GetUnder(t.root, dest, q);
    InosOfGet(s.root, partial + q);
    CopiedNames(n, Get(t.root, dest).value, s, t, {}, q);
    hide Get, Inos;
  }

  // ---- A save over a leftover that could not be removed ----

  /** Whenever the first call, which removes something of a leftover, fails and no other does, the save
      succeeds with all that was left in it, as long as no name is a directory on one side and a file
      on the other. */
  method SaveOverLeftover(disk: Disk, b: Backup, src: Path, rel: Path, put: PutMode, pid: string, about: string)
    returns (ok: bool)
    requires disk.Valid() && ItemPlace(rel) && Apart(src, b.dir)
    requires IsDir(disk.now.root, src) && Get(disk.now.root, Place(b, rel)) == None && IsFile(disk.now.root, Readme(b))
    requires IsDir(disk.now.root, Partial(b, rel, pid)) && Matches(disk.now, src, Partial(b, rel, pid))
    requires disk.faults(disk.calls) && forall c :: c > disk.calls ==> !disk.faults(c)
    modifies disk
    ensures disk.Valid() && ok && SavedFrom(old(disk.now), disk.now, b, src, rel, put, pid)
    ensures SourceAfter(old(disk.seen), disk.seen, old(disk.now), disk.now, src, Partial(b, rel, pid), true, true)
  {
    hide Get, Inos, Partial, Place, Readme, Matches, Blocked, SavedFrom, LeftHarmless, Sound, AllSound, Elsewhere;
    hide Apart;
    ghost var n, start := disk.calls, disk.now;
    DirNotBlocked(start.root, Partial(b, rel, pid));
    ghost var clean, begun, struck;
    ok, clean, begun, struck := Save(disk, b, src, rel, put, pid, about);
    FailsOnce(disk.faults, n, disk.calls);
  }

  lemma DirNotBlocked(n: Node, p: Path)
    requires IsDir(n, p)
    ensures !Blocked(n, p)
  {
    forall q | q <= p ensures !IsFile(n, q) {
      if q < p {
        WayIsDir(n, q, p);
      } else {
        assert q == p;
      }
    }
  }

  /** A home with something at `x`, and what an earlier copy of it left in the backup. */
  function Home(kind: string, n: Node, left: Node): State {
    State(Dir(map["x" := n, "backup" := Dir(map[README := File(1), kind := Dir(map[".x.partial-1" := left])])]),
          map[0 := "text", 1 := "about", 2 := "stale"], 3)
  }

  lemma HomeHas(kind: string, n: Node, left: Node)
    requires kind != README && Inos(n) <= {0, 1, 2} && Inos(left) <= {0, 1, 2}
    ensures var s, b, rel := Home(kind, n, left), Backup(["backup"]), [kind, "x"];
            && Sound(s) && Get(s.root, ["x"]) == Some(n) && IsFile(s.root, Readme(b))
            && Get(s.root, Partial(b, rel, "1")) == Some(left) && Get(s.root, Place(b, rel)) == None
  {
    var s, b, rel := Home(kind, n, left), Backup(["backup"]), [kind, "x"];
    HomeInos(kind, n, left);
    HomePaths(kind);
    HomeTree(kind, n, left);
    hide Get, Inos, Place, Partial, Home;
  }

  lemma HomePaths(kind: string)
    ensures var b, rel := Backup(["backup"]), [kind, "x"];
            && Place(b, rel) == ["backup"] + [kind] + ["x"] && Readme(b) == ["backup"] + [README]
            && Partial(b, rel, "1") == ["backup"] + [kind] + [".x.partial-1"]
  {
    assert "." + "x" + ".partial-" + "1" == ".x.partial-1";
  }

  lemma HomeTree(kind: string, n: Node, left: Node)
    requires kind != README
    ensures var root := Home(kind, n, left).root;
            && Get(root, ["x"]) == Some(n) && Get(root, ["backup"] + [README]) == Some(File(1))
            && Get(root, ["backup"] + [kind] + [".x.partial-1"]) == Some(left)
            && Get(root, ["backup"] + [kind] + ["x"]) == None
  {
    var root := Home(kind, n, left).root;
    var items := Dir(map[".x.partial-1" := left]);
    var backup := Dir(map[README := File(1), kind := items]);
    assert |"x"| != |"backup"| && |"x"| != |".x.partial-1"|;
    assert Get(root, []) == Some(root) && root.kids["x"] == n && root.kids["backup"] == backup;
    assert "x" !in items.kids;
    hide Get, Home;
    EntryOf(root, [], root, "x");
    EntryOf(root, [], root, "backup");
    assert [] + ["x"] == ["x"] && [] + ["backup"] == ["backup"];
    EntryOf(root, ["backup"], backup, README);
    EntryOf(root, ["backup"], backup, kind);
    EntryOf(root, ["backup"] + [kind], items, "x");
    EntryOf(root, ["backup"] + [kind], items, ".x.partial-1");
  }

  lemma HomeInos(kind: string, n: Node, left: Node)
    requires Inos(n) <= {0, 1, 2} && Inos(left) <= {0, 1, 2}
    ensures Inos(Home(kind, n, left).root) <= {0, 1, 2}
  {
    var items := Dir(map[".x.partial-1" := left]);
    assert Inos(items) <= {0, 1, 2};
    var readme := File(1);
    assert Inos(readme) == {1};
    var backup := Dir(map[README := readme, kind := items]);
    assert Inos(backup) <= {0, 1, 2};
  }

  /** A directory with one file in it. */
  function OneFile(name: string, i: nat): Node {
    Dir(map[name := File(i)])
  }

  lemma OneFileHas(root: Node, p: Path, name: string, i: nat)
    requires Get(root, p) == Some(OneFile(name, i))
    ensures forall q :: Get(root, p + q) == if q == [] then Some(OneFile(name,
              i)) else if q == [name] then Some(File(i)) else None
  {
    forall q
      ensures Get(root, p + q) == if q == [] then Some(OneFile(name,
                i)) else if q == [name] then Some(File(i)) else None
    {
      GetUnder(root, p, q);
    }
  }

  lemma InosOfOne(name: string, i: nat)
    ensures Inos(OneFile(name, i)) == {i}
  {
    var file := File(i);
    assert Inos(file) == {i} && OneFile(name, i).kids[name] == file;
  }

  /** The two sides of a home where a directory of one file meets what is left of a copy of another. */
  lemma OneFileHome(kind: string, name: string, left: string, i: nat)
    requires kind != README && i <= 2
    ensures var s, b := Home(kind, OneFile(name, 0), OneFile(left, i)), Backup(["backup"]);
            var src, partial, dest := ["x"], Partial(b, [kind, "x"], "1"), Place(b, [kind, "x"]);
            && Sound(s) && IsDir(s.root, src) && IsDir(s.root, partial) && IsFile(s.root, Readme(b))
            && Get(s.root, dest) == None
            && Matches(s, src, partial) && LeftDistinct(s, partial)
            && Get(s.root, src + [name]) == Some(File(0)) && Get(s.root, partial + [left]) == Some(File(i))
            && (left != name ==> Get(s.root, src + [left]) == None) && Apart(src, b.dir)
  {
    var s, b := Home(kind, OneFile(name, 0), OneFile(left, i)), Backup(["backup"]);
    var src, partial := ["x"], Partial(b, [kind, "x"], "1");
    InosOfOne(name, 0);
    InosOfOne(left, i);
    HomeHas(kind, OneFile(name, 0), OneFile(left, i));
    OneFileHas(s.root, src, name, 0);
    OneFileHas(s.root, partial, left, i);
    assert partial + [] == partial && src + [] == src;
    assert |src[0]| != |b.dir[0]|;
    hide Get, Inos, Home, Partial, Place, Readme;
  }

  /** A blueprint that has lost a file since a copy of it was cut short: the leftover is not removed, and
      the save that reports success has the lost file. */
  method StaleNameIsSaved() returns (ok: bool, stale: bool)
    ensures ok && stale && Get(OneFile("agent.toml", 0), ["old.txt"]) == None
  {
    hide Get, Inos, Home, Partial, Place, Readme, Matches, LeftDistinct, SourceAfter, OneFile, Sound, AllSound;
    var b, rel := Backup(["backup"]), ["agents", "x"];
    var start := Home("agents", OneFile("agent.toml", 0), OneFile("old.txt", 2));
    assert "agents"[0] != README[0];
    OneFileHome("agents", "agent.toml", "old.txt", 2);
    var disk := new Disk(start, c => c == 0);
    ok := SaveOverLeftover(disk, b, ["x"], rel, Copying, "1", "about");
    var there := Get(disk.now.root, Place(b, rel) + ["old.txt"]);
    stale := there.Some? && there.value.File?;
    NotInOne("agent.toml", "old.txt");
  }

  lemma NotInOne(name: string, other: string)
    requires |name| != |other|
    ensures Get(OneFile(name, 0), [other]) == None
  {
  }

  /** A run whose linking was cut short: the leftover, a link to the run's own file, is not removed, no
      new link can be made over it, and copying in its stead empties the file before it is read. The
      save reports success, and the run's file is empty. */
  method LinkLeftoverLosesText() returns (ok: bool, was: Option<string>, now: Option<string>)
    ensures ok && was == Some("text") && now == Some("")
  {
    hide Get, Inos, Partial, Place, Readme, Matches, OneFile, Sound, AllSound, SavedFrom;
    var b, rel := Backup(["backup"]), ["runs", "x"];
    var start := Home("runs", OneFile("meta.json", 0), OneFile("meta.json", 0));
    assert "runs"[0] != README[0];
    OneFileHome("runs", "meta.json", "meta.json", 0);
    assert start.data[0] == "text";
    hide Home;
    var disk := new Disk(start, c => c == 0);
    was := ReadText(disk.now, ["x"] + ["meta.json"]);
    ok := SaveOverLeftover(disk, b, ["x"], rel, Linking(["x", "stages"]), "1", "about");
    now := ReadText(disk.now, ["x"] + ["meta.json"]);
  }
}
