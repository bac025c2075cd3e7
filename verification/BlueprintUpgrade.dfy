/** Upgrading an old blueprint in place: saved whole first, then replaced by the bundled one, or
    migrated, or rewritten. Each is a run of steps any of which may fail, and a process may die
    between any two of them. */
module BlueprintUpgrade {
  import opened Wrappers
  import opened Filesystem
  import opened DiskModel
  import opened HomeBackup
  import opened Bundled
  import Decimal
  import opened Sets

  const OLD_MANIFEST := "agent.leviath"

  // ---- Replacing an install of a bundled blueprint ----

  function Staging(parent: Path, name: string, pid: string): Path {
    parent + ["." + name + ".upgrading-" + pid]
  }

  function Aside(parent: Path, name: string, pid: string): Path {
    parent + ["." + name + ".old-" + pid]
  }

  function Kept(dir: Path): Path {
    dir + [LEGACY]
  }

  /** Reinstalls of one blueprint by processes of different ids share neither working directory. */
  lemma OtherProcessWorks(parent: Path, name: string, pid: string, other: string)
    requires pid != other
    ensures Apart(Staging(parent, name, pid), Staging(parent, name, other))
    ensures Apart(Staging(parent, name, pid), Aside(parent, name, other))
    ensures Apart(Aside(parent, name, pid), Staging(parent, name, other))
    ensures Apart(Aside(parent, name, pid), Aside(parent, name, other))
  {
    var up, old_ := "." + name + ".upgrading-", "." + name + ".old-";
    assert (up + pid)[|up|..] == pid && (up + other)[|up|..] == other;
    assert (old_ + pid)[|old_|..] == pid && (old_ + other)[|old_|..] == other;
    assert (up + pid)[|name| + 2] == 'u' && (up + other)[|name| + 2] == 'u';
    assert (old_ + pid)[|name| + 2] == 'o' && (old_ + other)[|name| + 2] == 'o';
    Siblings(parent, up + pid, up + other);
    Siblings(parent, up + pid, old_ + other);
    Siblings(parent, old_ + pid, up + other);
    Siblings(parent, old_ + pid, old_ + other);
  }

  lemma WorkingNamesApart(parent: Path, name: string, pid: string)
    ensures var dir, staging, aside := parent + [name], Staging(parent, name, pid), Aside(parent, name, pid);
            && Apart(dir, staging) && Apart(staging, dir) && Apart(dir, aside) && Apart(aside, dir)
            && Apart(staging, aside) && Apart(aside, staging)
            && Apart(staging, Kept(dir)) && Apart(aside, Kept(dir)) && dir <= Kept(dir)
  {
    var s, a := "." + name + ".upgrading-" + pid, "." + name + ".old-" + pid;
    assert |s| > |name| && |a| > |name|;
    assert s[|name| + 2] == 'u' && a[|name| + 2] == 'o';
    Siblings(parent, name, s);
    Siblings(parent, s, name);
    Siblings(parent, name, a);
    Siblings(parent, a, name);
    Siblings(parent, s, a);
    Siblings(parent, a, s);
    assert (parent + [s]) + [] == parent + [s] && (parent + [a]) + [] == parent + [a];
    ApartBelow(parent + [s], parent + [name], [], [LEGACY]);
    ApartBelow(parent + [a], parent + [name], [], [LEGACY]);
  }

  /** The user's old tree is whole at one of the three places it may be, at one only unless the aside
      place held the same to begin with, none of its files written to; and nothing but the blueprint and
      the upgrade's own two directories has changed. */
  ghost predicate OldIsWhole(start: State, t: State, parent: Path, name: string, pid: string) {
    var dir, staging, aside := parent + [name], Staging(parent, name, pid), Aside(parent, name, pid);
    && Elsewhere(start, t, {dir, staging, aside})
    && var tree := Get(start.root, dir);
       && (Get(t.root, dir) == tree || Get(t.root, aside) == tree || Get(t.root, Kept(dir)) == tree)
       && AtOneOnly(tree, Get(start.root, aside), Get(t.root, dir), Get(t.root, aside), Get(t.root, Kept(dir)))
  }

  ghost predicate AtOneOnly(tree: Option<Node>, was: Option<Node>, dir: Option<Node>, aside: Option<Node>,
                            kept: Option<Node>) {
    tree.Some? && was != tree ==>
      !(dir == tree && aside == tree) && !(dir == tree && kept == tree) && !(aside == tree && kept == tree)
  }

  /** Nothing is in itself. */
  lemma NotInItself(n: Node, dir: Path)
    ensures Get(n, dir).Some? ==> Get(n, Kept(dir)) != Get(n, dir)
    ensures Get(n, dir) == None ==> Get(n, Kept(dir)) == None
  {
    GetUnder(n, dir, [LEGACY]);
    if Get(n, dir).Some? && Get(n, dir).value.Dir? && LEGACY in Get(n, dir).value.kids {
      var kids := Get(n, dir).value.kids;
      assert kids[LEGACY] < Get(n, dir).value;
    }
  }

  /** What was built, of files the old tree does not know, is not the old tree, nor is anything in it. */
  lemma BuiltIsOther(start: State, t: State, dir: Path, files: seq<Entry>)
    requires Sound(start) && ValidBundle(files) && Holds(t, dir, files) && NothingElse(t, dir, files)
    requires FreshFiles(start, t, dir)
    ensures Get(t.root, dir) != Get(start.root, dir) && Get(t.root, Kept(dir)) == None
  {
    var last := files[|files| - 1].rel;
    assert ReadText(t, dir + last) == BundleText(files, last) == Some(files[|files| - 1].text);
    GetUnder(start.root, dir, last);
    GetUnder(t.root, dir, last);
    if IsFile(start.root, dir + last) {
      InosOfGet(start.root, dir + last);
      assert Get(start.root, dir + last).value.ino in Inos(Get(start.root, dir + last).value);
    }
    assert !OnTheWay(files, [LEGACY]);
    assert dir + [LEGACY] == Kept(dir);
  }

  ghost predicate AlwaysWhole(before: seq<State>, after: seq<State>, start: State, parent: Path, name: string,
                              pid: string) {
    && before <= after
    && forall i :: |before| <= i < |after| ==> OldIsWhole(start, after[i], parent, name, pid)
  }

  /** A call confined to one of the working places leaves the old tree where it was. */
  lemma WholeThrough(before: seq<State>, had: seq<State>, after: seq<State>, start: State, was: State, now: State,
                     parent: Path, name: string, pid: string, q: Path, place: Path)
    requires AlwaysWhole(before, had, start, parent, name, pid) && OldIsWhole(start, was, parent, name, pid)
    requires OnlyAt(had, after, was, {q}) && Elsewhere(was, now, {q}) && Staging(parent, name, pid) <= q
    requires place == parent + [name] || place == Aside(parent, name, pid)
    requires Get(was.root, place) == Get(start.root, parent + [name])
    ensures AlwaysWhole(before, after, start, parent, name, pid)
    ensures OldIsWhole(start, now, parent, name, pid)
    ensures Get(now.root, place) == Get(start.root, parent + [name])
  {
    hide Elsewhere, Get, Staging, Aside, Apart, AtOneOnly;
    forall i | |before| <= i < |after|
      ensures OldIsWhole(start, after[i], parent, name, pid)
    {
      if i < |had| {
        assert after[i] == had[i];
      } else {
        WholeStill(start, was, after[i], parent, name, pid, q, place);
      }
    }
    WholeStill(start, was, now, parent, name, pid, q, place);
  }

  lemma WholeStill(start: State, was: State, t: State, parent: Path, name: string, pid: string, q: Path, place: Path)
    requires OldIsWhole(start, was, parent, name, pid)
    requires Elsewhere(was, t, {q}) && Staging(parent, name, pid) <= q
    requires place == parent + [name] || place == Aside(parent, name, pid)
    requires Get(was.root, place) == Get(start.root, parent + [name])
    ensures OldIsWhole(start, t, parent, name, pid) && Get(t.root, place) == Get(start.root, parent + [name])
    ensures Elsewhere(start, t, {parent + [name], Staging(parent, name, pid), Aside(parent, name, pid)})
  {
    hide Get, Staging, Aside, Inos;
    var all := {parent + [name], Staging(parent, name, pid), Aside(parent, name, pid)};
    WorkingNamesApart(parent, name, pid);
    BelowApart(Staging(parent, name, pid), q, parent + [name]);
    BelowApart(Staging(parent, name, pid), q, Aside(parent, name, pid));
    BelowApart(Staging(parent, name, pid), q, Kept(parent + [name]));
    assert Clear(parent + [name], {q}) && Clear(Aside(parent, name, pid), {q}) && Clear(Kept(parent + [name]), {q});
    ElsewhereWider(was, t, {q}, all);
    ElsewhereThen(start, was, t, all);
  }

  /** The ways the old tree comes to be at one place. */
  lemma WholeAt(start: State, t: State, parent: Path, name: string, pid: string)
    requires Elsewhere(start, t, {parent + [name], Staging(parent, name, pid), Aside(parent, name, pid)})
    requires var dir, aside := parent + [name], Aside(parent, name, pid);
             var tree := Get(start.root, dir);
             || (Get(t.root, dir) == tree && (Get(t.root, aside) == Get(start.root, aside)
                                              || Get(t.root, aside) == None))
             || (Get(t.root, aside) == tree && Get(t.root, dir) == None)
             || (Get(t.root, aside) == tree && Get(t.root, dir) != tree && Get(t.root, Kept(dir)) == None)
             || (Get(t.root, Kept(dir)) == tree && Get(t.root, aside) == None)
    ensures OldIsWhole(start, t, parent, name, pid)
  {
    NotInItself(t.root, parent + [name]);
    hide Get, Staging, Aside, Elsewhere, Kept;
  }

  lemma BelowApart(p: Path, q: Path, r: Path)
    requires p <= q && Apart(p, r)
    ensures Apart(q, r)
  {
    if r <= q {
      ShorterPrefix(p, r, q);
    }
  }

  /** A rename between two of the places leaves everything else as it was. */
  lemma RenamedWithin(start: State, was: State, from: Path, to: Path, all: set<Path>)
    requires Sound(was) && Elsewhere(start, was, all) && CanRename(was.root, from, to)
    requires exists p :: p in all && p <= from
    requires exists p :: p in all && p <= to
    ensures Elsewhere(start, Renamed(was, from, to), all)
    ensures Get(was.root, from).Some? && Get(Renamed(was, from, to).root, from) == None
    ensures Get(Renamed(was, from, to).root, to) == Get(was.root, from)
    ensures forall q | Apart(from, q) && Apart(to, q) :: Get(Renamed(was, from, to).root, q) == Get(was.root, q)
  {
    RenameMoves(was, from, to);
    hide Get, Inos, CanRename, Renamed;
    var t := Renamed(was, from, to);
    ElsewhereWider(was, t, {from, to}, all);
    ElsewhereThen(start, was, t, all);
    forall q | Apart(from, q) && Apart(to, q)
      ensures Get(t.root, q) == Get(was.root, q)
    {
      assert Clear(q, {from, to});
    }
  }

  /** The files a renamed directory holds are the files it held. */
  lemma HoldsMoved(was: State, t: State, from: Path, to: Path, files: seq<Entry>)
    requires Holds(was, from, files) && Sound(was) && CanRename(was.root, from, to) && t == Renamed(was, from, to)
    ensures Holds(t, to, files)
    ensures NothingElse(was, from, files) ==> NothingElse(t, to, files)
    ensures forall s :: FreshFiles(s, was, from) ==> FreshFiles(s, t, to)
  {
    RenameMoves(was, from, to);
    forall q
      ensures ReadText(t, to + q) == ReadText(was, from + q) && Get(t.root, to + q) == Get(was.root, from + q)
    {
      GetUnder(t.root, to, q);
      GetUnder(was.root, from, q);
    }
  }

  /** With the old tree kept under `legacy/`, what lies outside it is still exactly the bundle. */
  lemma IntactWithLegacy(was: State, t: State, dir: Path, aside: Path, files: seq<Entry>)
    requires ValidBundle(files) && Holds(was, dir, files) && Apart(aside, dir)
    requires Sound(was) && CanRename(was.root, aside, Kept(dir)) && t == Renamed(was, aside, Kept(dir))
    requires IsDir(was.root, aside)
    ensures Intact(t, dir, files)
  {
    RenameMoves(was, aside, Kept(dir));
    RoomIsParent(was.root, Kept(dir));
    assert Kept(dir)[..|Kept(dir)| - 1] == dir;
    NotRenamed(dir, aside);
    hide CanRename, Renamed, Get, Room;
    forall q | !KeptAside(q)
      ensures ReadText(t, dir + q) == BundleText(files, q)
    {
      assert ReadText(was, dir + q) == BundleText(files, q);
      if q != [] && q[0] != LEGACY {
        BesideLegacy(dir, aside, q);
        TextStays(was, t, {aside, Kept(dir)}, dir + q);
      } else {
        DirsReadAsNone(was, t, dir, q);
      }
    }
  }

  lemma NotRenamed(dir: Path, aside: Path)
    requires Apart(aside, dir)
    ensures NotUnder(dir, {aside, Kept(dir)})
  {
  }

  lemma BesideLegacy(dir: Path, aside: Path, q: Path)
    requires Apart(aside, dir) && q != [] && q[0] != LEGACY
    ensures Clear(dir + q, {aside, Kept(dir)})
  {
    assert aside + [] == aside;
    ApartBelow(aside, dir, [], q);
    assert (dir + q)[|dir|] != Kept(dir)[|dir|];
  }

  /** The blueprint's directory, and its `legacy/`, are no files. */
  lemma DirsReadAsNone(was: State, t: State, dir: Path, q: Path)
    requires q == [] || q == [LEGACY]
    requires IsDir(was.root, dir) && IsDir(t.root, dir) && (q == [LEGACY] ==>
                                                              IsDir(t.root, Kept(dir))
                                                                  && ReadText(was, dir + q) == None)
    ensures ReadText(t, dir + q) == ReadText(was, dir + q)
  {
    assert dir + [] == dir && dir + [LEGACY] == Kept(dir);
  }

  /** What a reinstall needs, when no call fails by chance: an old install that can move aside, and no
      file where the new one is built. */
  ghost predicate ReinstallRoom(s: State, parent: Path, agent: Agent, pid: string) {
    && IsDir(s.root, parent + [agent.name])
    && CanRename(s.root, parent + [agent.name], Aside(parent, agent.name, pid))
    && InstallRoom(s, Staging(parent, agent.name, pid) + [agent.name], agent.files)
  }

  /** Exactly when there is room: an install is there, no more than an empty directory where it is moved
      aside, and no file where the new one is built. */
  lemma RoomToReinstall(s: State, parent: Path, agent: Agent, pid: string)
    ensures var staging := parent + ["." + agent.name + ".upgrading-" + pid];
            ReinstallRoom(s, parent, agent, pid)
            <==> && IsDir(s.root, parent + [agent.name]) && FitsAsTree(agent.files)
                 && Get(s.root, parent + ["." + agent.name + ".old-" + pid]) in {None, Some(Dir(map[]))}
                 && !IsFile(s.root, staging) && !IsFile(s.root, staging + [agent.name])
  {
    var dir, staging, aside := parent + [agent.name], Staging(parent, agent.name, pid), Aside(parent, agent.name, pid);
    var built := staging + [agent.name];
    WorkingNamesApart(parent, agent.name, pid);
    RoomIsParent(s.root, aside);
    assert aside[..|aside| - 1] == parent && staging <= built;
    if IsDir(s.root, dir) {
      forall q | q <= parent ensures IsDir(s.root, q) {
        assert q <= dir && dir[|q|..] != [];
        PrefixGet(s.root, q, dir);
      }
      forall q | q <= built ensures IsFile(s.root, q) ==> q == staging || q == built {
        if |q| <= |parent| {
          assert q == built[..|q|] == parent[..|q|] && IsDir(s.root, q);
        } else if |q| == |staging| {
          assert q == built[..|q|] == staging;
        } else {
          assert q == built[..|q|] == built;
        }
      }
      assert Blocked(s.root, built) <==> IsFile(s.root, staging) || IsFile(s.root, built);
      assert parent <= parent && IsDir(s.root, parent) && Room(s.root, aside);
      assert dir != [] && aside != [] && !(dir <= aside) && !(aside <= dir);
      assert Get(s.root, aside).Some? && Get(s.root, aside).value.Dir? && Get(s.root, aside).value.kids == map[] ==>
          Get(s.root, aside) == Some(Dir(map[]));
      assert CanRename(s.root, dir, aside) <==> Get(s.root, aside) in {None, Some(Dir(map[]))};
    }
  }

  /** `reinstall_with`. An error that names a path says the old files are there; one that names none
      says they are back where they were. They are not put back only if the new install is in place, or
      a second call failed. */
  method Reinstall(disk: Disk, parent: Path, agent: Agent, pid: string) returns (r: Result<(), Option<Path>>)
    requires disk.Valid() && ValidBundle(agent.files)
    modifies disk
    ensures disk.Valid() && disk.hits >= old(disk.hits)
    ensures AlwaysWhole(old(disk.seen), disk.seen, old(disk.now), parent, agent.name, pid)
    ensures OldIsWhole(old(disk.now), disk.now, parent, agent.name, pid)
    ensures ReinstallAnswers(old(disk.now), disk.now, parent, agent, pid, r)
    ensures r.Ok? || disk.hits > old(disk.hits) || !ReinstallRoom(old(disk.now), parent, agent, pid)
    ensures StagingGone(old(disk.now), disk.now, Staging(parent, agent.name, pid), disk.hits - old(disk.hits),
                        r.Err? && ReinstallRoom(old(disk.now), parent, agent, pid))
    ensures r.Err? && r.error.Some? ==>
              disk.hits > old(disk.hits) + 1 || Holds(disk.now, parent + [agent.name], agent.files)
  {
    hide Elsewhere, Get, Room, Inos, Clear, NotUnder, OnlyAt, Holds, NothingElse, FreshFiles, FitsAsTree, Blocked;
    hide Intact, AtOneOnly, CanRename, Renamed, Apart, Staging, Aside, Kept, Count;
    var dir, staging, aside := parent + [agent.name], Staging(parent, agent.name, pid), Aside(parent, agent.name, pid);
    var built := staging + [agent.name];
    ghost var start := disk.now;
    ghost var all := {dir, staging, aside};
    WorkingNamesApart(parent, agent.name, pid);
    SameElsewhere(start, all);
    WholeAt(start, start, parent, agent.name, pid);
    ghost var was, had := disk.now, disk.seen;
    var ok := InstallBundled(disk, agent, staging);
    WholeThrough(old(disk.seen), had, disk.seen, start, was, disk.now, parent, agent.name, pid, built, dir);
    StillMovesAside(start, disk.now, parent, agent.name, pid);
    was, had := disk.now, disk.seen;
    OnlyNewEntry(start, was, staging, agent.name);
    if !ok {
      ok := disk.RemoveTree(staging);
      WholeThrough(old(disk.seen), had, disk.seen, start, was, disk.now, parent, agent.name, pid, staging, dir);
      return Err(None);
    }
    ok := disk.Rename(dir, aside);
    if !ok {
      ok := disk.RemoveTree(staging);
      WholeThrough(old(disk.seen), had, disk.seen, start, was, disk.now, parent, agent.name, pid, staging, dir);
      return Err(None);
    }
    RenamedWithin(start, was, dir, aside, all);
    WholeAt(start, disk.now, parent, agent.name, pid);
    HoldsStill(was, disk.now, dir, aside, built, staging, agent.files);
    EntryStays(was, disk.now, dir, aside, staging, agent.name);
    r := MoveIn(disk, parent, agent, pid, old(disk.seen), start);
  }

  /** Where there was no staging directory there is none, unless a call failed; two did, if one was what
      stopped the reinstall. */
  ghost predicate StagingGone(s: State, t: State, staging: Path, failed: int, stopped: bool) {
    !IsDir(s.root, staging) && IsDir(t.root, staging) ==> failed > 0 && (stopped ==> failed > 1)
  }

  /** Nothing is in the directory but what has this name. */
  ghost predicate OnlyEntry(s: State, p: Path, name: string) {
    forall k :: k != name ==> Get(s.root, p + [k]) == None
  }

  lemma OnlyNewEntry(s: State, t: State, p: Path, name: string)
    requires Elsewhere(s, t, {p + [name]})
    ensures !IsDir(s.root, p) ==> OnlyEntry(t, p, name)
  {
    NotUnderOne(p + [name]);
    if !IsDir(s.root, p) {
      forall k | k != name ensures Get(t.root, p + [k]) == None {
        Siblings(p, name, k);
        GetUnder(s.root, p, [k]);
      }
    }
  }

  lemma EntryStays(was: State, t: State, dir: Path, aside: Path, staging: Path, name: string)
    requires Sound(was) && CanRename(was.root, dir, aside) && t == Renamed(was, dir, aside)
    requires Apart(dir, staging) && Apart(aside, staging)
    ensures OnlyEntry(was, staging, name) ==> OnlyEntry(t, staging, name)
  {
    RenameMoves(was, dir, aside);
    forall k ensures Get(t.root, staging + [k]) == Get(was.root, staging + [k]) {
      BelowApart(staging, staging + [k], dir);
      BelowApart(staging, staging + [k], aside);
      assert Clear(staging + [k], {dir, aside});
    }
  }

  /** With the new install moved out of it, the staging directory is empty. */
  lemma StagingEmptied(was: State, t: State, staging: Path, name: string, dir: Path)
    requires Sound(was) && CanRename(was.root, staging + [name], dir) && t == Renamed(was, staging + [name], dir)
    requires OnlyEntry(was, staging, name) && Apart(dir, staging)
    ensures IsDir(t.root, staging) ==> Get(t.root, staging) == Some(Dir(map[]))
  {
    var built := staging + [name];
    RenameMoves(was, built, dir);
    if IsDir(t.root, staging) {
      var n := Get(t.root, staging).value;
      forall k ensures k !in n.kids {
        EntryOf(t.root, staging, n, k);
        if k != name {
          Siblings(staging, name, k);
          BelowApart(staging, staging + [k], dir);
          assert Clear(staging + [k], {built, dir});
        }
      }
      assert n.kids == map[];
    }
  }

  /** Building the new install beside it leaves the old one as free to move aside as it was. */
  lemma StillMovesAside(start: State, t: State, parent: Path, name: string, pid: string)
    requires Elsewhere(start, t, {Staging(parent, name, pid) + [name]})
    ensures CanRename(start.root, parent + [name], Aside(parent, name, pid)) ==>
              CanRename(t.root, parent + [name], Aside(parent, name, pid))
  {
    var dir, staging, aside := parent + [name], Staging(parent, name, pid), Aside(parent, name, pid);
    WorkingNamesApart(parent, name, pid);
    BelowApart(staging, staging + [name], dir);
    BelowApart(staging, staging + [name], aside);
    assert Clear(dir, {staging + [name]}) && Clear(aside, {staging + [name]});
    RoomIsParent(start.root, aside);
    RoomIsParent(t.root, aside);
    assert aside[..|aside| - 1] == parent && !(staging + [name] <= parent);
    assert NotUnder(parent, {staging + [name]});
  }

  /** What the answer of a reinstall says of the old tree and of the new one. */
  ghost predicate ReinstallAnswers(start: State, t: State, parent: Path, agent: Agent, pid: string,
                                   r: Result<(), Option<Path>>) {
    var dir := parent + [agent.name];
    var kept := Get(start.root, dir);
    match r
    case Ok(_) => (IsDir(start.root, dir) ==> Intact(t, dir, agent.files)) && Get(t.root, Kept(dir)) == kept
    case Err(None) => Get(t.root, dir) == kept
    case Err(Some(at)) => at == Aside(parent, agent.name, pid) && Get(t.root, at) == kept
  }

  /** After a reinstall that reports success, setup has nothing to offer for the blueprint. */
  lemma ReinstalledIsUpToDate(start: State, t: State, parent: Path, agent: Agent, pid: string,
                              readVersion: string -> Option<string>)
    requires ReinstallAnswers(start, t, parent, agent, pid, Ok(())) && IsDir(start.root, parent + [agent.name])
    requires ValidBundle(agent.files) && SaysItsVersion(agent, readVersion)
    ensures PlannedAction(t, agent, parent, readVersion) == UpToDate
  {
    UpToDateIsIntact(t, agent, parent, readVersion);
  }

  /** The rest of a reinstall, once the old tree is aside and the new one built. */
  method MoveIn(disk: Disk, parent: Path, agent: Agent, pid: string, ghost before: seq<State>, ghost start: State)
    returns (r: Result<(), Option<Path>>)
    requires disk.Valid() && ValidBundle(agent.files) && Get(start.root, parent + [agent.name]).Some?
    requires Elsewhere(start, disk.now, {parent + [agent.name], Staging(parent, agent.name, pid),
                                         Aside(parent, agent.name, pid)})
    requires AlwaysWhole(before, disk.seen, start, parent, agent.name, pid)
    requires Get(disk.now.root, Aside(parent, agent.name, pid)) == Get(start.root, parent + [agent.name])
    requires Get(disk.now.root, parent + [agent.name]) == None && OldIsWhole(start, disk.now, parent, agent.name, pid)
    requires var built := Staging(parent, agent.name, pid) + [agent.name];
             && Holds(disk.now, built, agent.files) && NothingElse(disk.now, built, agent.files)
             && Sound(start) && FreshFiles(start, disk.now, built)
    modifies disk
    ensures disk.Valid() && disk.hits >= old(disk.hits)
    ensures AlwaysWhole(before, disk.seen, start, parent, agent.name, pid)
    ensures OldIsWhole(start, disk.now, parent, agent.name, pid)
    ensures ReinstallAnswers(start, disk.now, parent, agent, pid, r)
    ensures r.Ok? || disk.hits > old(disk.hits)
    ensures OnlyEntry(old(disk.now), Staging(parent, agent.name, pid), agent.name)
            && IsDir(disk.now.root, Staging(parent, agent.name, pid)) ==>
              disk.hits > old(disk.hits) && (r.Err? ==> disk.hits > old(disk.hits) + 1)
    ensures r.Err? && r.error.Some? ==>
              disk.hits > old(disk.hits) + 1 || Holds(disk.now, parent + [agent.name], agent.files)
  {
    hide Elsewhere, Get, Room, Inos, Clear, NotUnder, OnlyAt, Holds, NothingElse, FreshFiles, Intact, AtOneOnly;
    hide CanRename, Renamed, Apart, OnlyEntry;
    hide Staging, Aside, Kept, Count, Sound, AllSound, ReadText;
    var dir, staging, aside := parent + [agent.name], Staging(parent, agent.name, pid), Aside(parent, agent.name, pid);
    var built := staging + [agent.name];
    ghost var all := {dir, staging, aside};
    WorkingNamesApart(parent, agent.name, pid);
    ghost var was, had := disk.now, disk.seen;
    BuiltCanMove(was, parent, agent.name, pid, agent.files);
    var ok := disk.Rename(built, dir);
    if !ok {
      AsideCanReturn(was, parent, agent.name, pid);
      var back := disk.Rename(aside, dir);
      if back {
        RenamedWithin(start, was, aside, dir, all);
        WholeAt(start, disk.now, parent, agent.name, pid);
      }
      was, had := disk.now, disk.seen;
      ok := disk.RemoveTree(staging);
      WholeThrough(before, had, disk.seen, start, was, disk.now, parent, agent.name, pid, staging,
                   if back then dir else aside);
      return Err(if back then None else Some(aside));
    }
    RenamedWithin(start, was, built, dir, all);
    BelowApart(staging, built, aside);
    HoldsMoved(was, disk.now, built, dir, agent.files);
    BuiltIsOther(start, disk.now, dir, agent.files);
    WholeAt(start, disk.now, parent, agent.name, pid);
    if OnlyEntry(was, staging, agent.name) {
      StagingEmptied(was, disk.now, staging, agent.name, dir);
    }
    was, had := disk.now, disk.seen;
    StagingNamed(parent, agent.name, pid);
    ok := disk.RemoveEntry(staging);
    if ok {
      DelElsewhere(was, staging);
      NothingAt(was, staging);
      OneStep(had, disk.now, was, {staging});
    } else {
      SameElsewhere(was, {staging});
      NoSteps(had, was, {staging});
    }
    WholeThrough(before, had, disk.seen, start, was, disk.now, parent, agent.name, pid, staging, aside);
    HoldsBeside(was, disk.now, staging, dir, agent.files);
    r := KeepOld(disk, parent, agent, pid, before, start);
  }

  lemma StagingNamed(parent: Path, name: string, pid: string)
    ensures Staging(parent, name, pid) != []
  {
  }

  lemma NothingAt(s: State, p: Path)
    requires p != [] && Get(s.root, p).Some?
    ensures Get(Del(s.root, p), p) == None
  {
    GetDel(s.root, p, p);
  }

  /** The last step: the old tree into the new one, as its `legacy/`. */
  method KeepOld(disk: Disk, parent: Path, agent: Agent, pid: string, ghost before: seq<State>, ghost start: State)
    returns (r: Result<(), Option<Path>>)
    requires disk.Valid() && ValidBundle(agent.files) && Get(start.root, parent + [agent.name]).Some?
    requires AlwaysWhole(before, disk.seen, start, parent, agent.name, pid)
    requires OldIsWhole(start, disk.now, parent, agent.name, pid)
    requires Get(disk.now.root, Aside(parent, agent.name, pid)) == Get(start.root, parent + [agent.name])
    requires Holds(disk.now, parent + [agent.name], agent.files)
    requires NothingElse(disk.now, parent + [agent.name], agent.files)
    modifies disk
    ensures disk.Valid() && disk.hits >= old(disk.hits)
    ensures AlwaysWhole(before, disk.seen, start, parent, agent.name, pid)
    ensures OldIsWhole(start, disk.now, parent, agent.name, pid)
    ensures ReinstallAnswers(start, disk.now, parent, agent, pid, r)
    ensures r.Ok? || disk.hits > old(disk.hits)
    ensures Get(disk.now.root, Staging(parent, agent.name, pid))
            == Get(old(disk.now).root, Staging(parent, agent.name, pid))
    ensures r.Err? ==> r.error.Some? && Holds(disk.now, parent + [agent.name], agent.files)
  {
    hide Elsewhere, Get, Room, Inos, Clear, NotUnder, OnlyAt, Holds, NothingElse, FreshFiles, Intact, AtOneOnly;
    hide CanRename, Renamed, Apart;
    hide Staging, Aside, Kept, Count, Sound, AllSound, ReadText;
    var dir, staging, aside := parent + [agent.name], Staging(parent, agent.name, pid), Aside(parent, agent.name, pid);
    ghost var was := disk.now;
    WorkingNamesApart(parent, agent.name, pid);
    LegacyIsFree(was, dir, aside, agent.files);
    var ok := disk.Rename(aside, Kept(dir));
    if !ok {
      return Err(Some(aside));
    }
    RenamedWithin(start, was, aside, Kept(dir), {dir, staging, aside});
    StagingBeside(was, disk.now, aside, Kept(dir), staging, dir);
    WholeAt(start, disk.now, parent, agent.name, pid);
    OldWasDir(start, was, dir, aside);
    if IsDir(start.root, dir) {
      IntactWithLegacy(was, disk.now, dir, aside, agent.files);
    }
    return Ok(());
  }

  lemma StagingBeside(was: State, t: State, from: Path, to: Path, staging: Path, dir: Path)
    requires Sound(was) && CanRename(was.root, from, to) && t == Renamed(was, from, to)
    requires Apart(from, staging) && Apart(staging, dir) && dir <= to
    ensures Get(t.root, staging) == Get(was.root, staging)
  {
    RenameMoves(was, from, to);
    BelowApart(dir, to, staging);
    assert Clear(staging, {from, to});
  }

  lemma OldWasDir(start: State, was: State, dir: Path, aside: Path)
    requires Get(was.root, aside) == Get(start.root, dir)
    ensures IsDir(start.root, dir) <==> IsDir(was.root, aside)
  {
  }

  /** A directory that holds a bundle's files is there. */
  lemma HoldsIsDir(s: State, dest: Path, files: seq<Entry>)
    requires ValidBundle(files) && Holds(s, dest, files)
    ensures IsDir(s.root, dest)
  {
    var last := files[|files| - 1];
    assert ReadText(s, dest + last.rel) == BundleText(files, last.rel) == Some(last.text);
    WayIsDir(s.root, dest, dest + last.rel);
  }

  lemma BuiltCanMove(s: State, parent: Path, name: string, pid: string, files: seq<Entry>)
    requires ValidBundle(files) && Holds(s, Staging(parent, name, pid) + [name], files)
    requires Get(s.root, parent + [name]) == None && Get(s.root, Aside(parent, name, pid)).Some?
    ensures CanRename(s.root, Staging(parent, name, pid) + [name], parent + [name])
  {
    hide Get, Holds, Room;
    var dir, staging, aside := parent + [name], Staging(parent, name, pid), Aside(parent, name, pid);
    HoldsIsDir(s, staging + [name], files);
    WorkingNamesApart(parent, name, pid);
    BelowApart(staging, staging + [name], dir);
    WayIsDir(s.root, parent, aside);
    RoomIsParent(s.root, dir);
    assert dir[..|dir| - 1] == parent;
  }

  /** What was moved aside can be moved back. */
  lemma AsideCanReturn(s: State, parent: Path, name: string, pid: string)
    requires Get(s.root, parent + [name]) == None && Get(s.root, Aside(parent, name, pid)).Some?
    ensures CanRename(s.root, Aside(parent, name, pid), parent + [name])
  {
    hide Get, Room;
    var dir, aside := parent + [name], Aside(parent, name, pid);
    WorkingNamesApart(parent, name, pid);
    WayIsDir(s.root, parent, aside);
    RoomIsParent(s.root, dir);
    assert dir[..|dir| - 1] == parent;
  }

  /** The bundle has nothing under `legacy/`, so the old tree has room there. */
  lemma LegacyIsFree(s: State, dir: Path, aside: Path, files: seq<Entry>)
    requires ValidBundle(files) && Holds(s, dir, files) && Get(s.root, aside).Some? && Apart(aside, Kept(dir))
    requires aside != []
    ensures NothingElse(s, dir, files) ==> CanRename(s.root, aside, Kept(dir))
  {
    hide Get, Holds, Room;
    HoldsIsDir(s, dir, files);
    RoomIsParent(s.root, Kept(dir));
    assert Kept(dir)[..|Kept(dir)| - 1] == dir;
    if NothingElse(s, dir, files) {
      assert !OnTheWay(files, [LEGACY]);
      assert Get(s.root, dir + [LEGACY]).None?;
    }
  }

  /** What is under a place apart from what changed reads as it did. */
  lemma HoldsBeside(was: State, t: State, q: Path, place: Path, files: seq<Entry>)
    requires Holds(was, place, files) && Elsewhere(was, t, {q}) && Apart(q, place) && Sound(was)
    ensures Holds(t, place, files)
    ensures NothingElse(was, place, files) ==> NothingElse(t, place, files)
    ensures forall s :: FreshFiles(s, was, place) ==> FreshFiles(s, t, place)
  {
    assert Clear(place, {q});
    SameNodeHolds(was, t, place, files);
  }

  lemma HoldsStill(was: State, t: State, from: Path, to: Path, place: Path, above: Path, files: seq<Entry>)
    requires Holds(was, place, files) && Sound(was) && CanRename(was.root, from, to) && t == Renamed(was, from, to)
    requires Apart(above, from) && Apart(above, to) && above <= place
    ensures Holds(t, place, files)
    ensures NothingElse(was, place, files) ==> NothingElse(t, place, files)
    ensures forall s :: FreshFiles(s, was, place) ==> FreshFiles(s, t, place)
  {
    RenameMoves(was, from, to);
    BelowApart(above, place, from);
    BelowApart(above, place, to);
    assert Clear(place, {from, to});
    SameNodeHolds(was, t, place, files);
  }

  lemma SameNodeHolds(was: State, t: State, place: Path, files: seq<Entry>)
    requires Holds(was, place, files) && Sound(was) && Grows(was.data, t.data)
    requires Get(t.root, place) == Get(was.root, place)
    ensures Holds(t, place, files)
    ensures NothingElse(was, place, files) ==> NothingElse(t, place, files)
    ensures forall s :: FreshFiles(s, was, place) ==> FreshFiles(s, t, place)
  {
    forall q
      ensures ReadText(t, place + q) == ReadText(was, place + q) && Get(t.root, place + q) == Get(was.root, place + q)
    {
      GetUnder(t.root, place, q);
      GetUnder(was.root, place, q);
      if Get(was.root, place + q).Some? {
        InosOfGet(was.root, place + q);
      }
    }
  }

  // ---- Migrating in place ----

  /** What a blueprint's directory may look like while it is migrated: nothing but the new manifest,
      the old one and `legacy/` has changed, and the old manifest is at its place or kept. */
  ghost predicate ManifestIsSafe(start: State, t: State, dir: Path) {
    && Elsewhere(start, t, {Kept(dir), dir + [MANIFEST], dir + [OLD_MANIFEST]})
    && var manifest := Get(start.root, dir + [OLD_MANIFEST]);
       Get(t.root, dir + [OLD_MANIFEST]) == manifest || Get(t.root, Kept(dir) + [OLD_MANIFEST]) == manifest
  }

  lemma MigrationPlaces(dir: Path)
    ensures Apart(Kept(dir), dir + [MANIFEST]) && Apart(Kept(dir), dir + [OLD_MANIFEST])
    ensures Apart(dir + [MANIFEST], dir + [OLD_MANIFEST]) && Apart(dir + [MANIFEST], Kept(dir))
    ensures Apart(Kept(dir) + [OLD_MANIFEST], dir + [MANIFEST]) && Kept(dir) <= Kept(dir) + [OLD_MANIFEST]
    ensures Apart(dir + [MANIFEST], Kept(dir) + [OLD_MANIFEST])
  {
    assert OLD_MANIFEST[6] == 'l' && MANIFEST[6] == 't';
    Siblings(dir, LEGACY, MANIFEST);
    Siblings(dir, LEGACY, OLD_MANIFEST);
    Siblings(dir, MANIFEST, OLD_MANIFEST);
    Siblings(dir, MANIFEST, LEGACY);
    BelowApart(Kept(dir), Kept(dir) + [OLD_MANIFEST], dir + [MANIFEST]);
  }

  lemma ManifestStays(start: State, was: State, t: State, dir: Path, q: Path)
    requires Elsewhere(start, was, {Kept(dir), dir + [MANIFEST], dir + [OLD_MANIFEST]})
    requires Get(was.root, dir + [OLD_MANIFEST]) == Get(start.root, dir + [OLD_MANIFEST])
    requires Elsewhere(was, t, {q}) && (q == Kept(dir) || q == dir + [MANIFEST])
    ensures ManifestIsSafe(start, t, dir) && Get(t.root, dir + [OLD_MANIFEST]) == Get(start.root, dir + [OLD_MANIFEST])
  {
    hide Get, Kept;
    var all := {Kept(dir), dir + [MANIFEST], dir + [OLD_MANIFEST]};
    MigrationPlaces(dir);
    assert Clear(dir + [OLD_MANIFEST], {q});
    ElsewhereWider(was, t, {q}, all);
    ElsewhereThen(start, was, t, all);
  }

  /** The step an upgrade in place ends at: one that fails, or the end of it. */
  datatype UpgradeStep = Reading | MakingRoom | Opening | Keeping | Writing | MovingOld | Done

  /** A directory one of whose paths leads elsewhere is another. */
  lemma Differs(s: State, t: State, dir: Path, q: Path)
    requires Get(t.root, dir + q) != Get(s.root, dir + q)
    ensures Get(t.root, dir) != Get(s.root, dir)
  {
    GetUnder(s.root, dir, q);
    GetUnder(t.root, dir, q);
  }

  /** Where a migration ends when no call fails by chance. */
  function MigrationEnd(s: State, dir: Path, convert: string -> Option<string>): UpgradeStep {
    var text := ReadText(s, dir + [OLD_MANIFEST]);
    if text.None? || convert(text.value).None? then Reading
    else if IsFile(s.root, Kept(dir)) then MakingRoom
    else if IsDir(s.root, dir + [MANIFEST]) then Writing
    else if IsDir(s.root, Kept(dir) + [OLD_MANIFEST]) then MovingOld
    else Done
  }

  /** What a migration that ended at `step` has done. */
  ghost predicate MigrationAnswers(start: State, t: State, dir: Path, convert: string -> Option<string>, ok: bool,
                                   step: UpgradeStep) {
    && (ok <==> step == Done)
    && (!ok ==> (SameFiles(start, t) <==> step != MovingOld))
    && (!ok ==> (Get(t.root, dir) == Get(start.root, dir) <==>
                   step == Reading || step == MakingRoom || (step == Writing && IsDir(start.root, Kept(dir)))))
    && var text := ReadText(start, dir + [OLD_MANIFEST]);
       if ok then
         && text.Some? && convert(text.value).Some?
         && ReadText(t, dir + [MANIFEST]) == convert(text.value)
         && Get(t.root, dir + [OLD_MANIFEST]) == None
         && ReadText(t, Kept(dir) + [OLD_MANIFEST]) == text
       else if step == MovingOld then
         && text.Some? && convert(text.value).Some?
         && ReadText(t, dir + [MANIFEST]) == convert(text.value)
         && ReadText(t, dir + [OLD_MANIFEST]) == text
       else SameFiles(start, t)
  }

  /** `migrate`; `convert` is the converter of the old manifest's text. A failure leaves every file as
      it was, exactly when the step that fails is not the last one: once the new manifest is written
      and the old one does not move, both are there. When no call fails by chance that is so exactly
      when the old manifest's name under `legacy/` is a directory. It leaves the blueprint as it was,
      directories too, exactly when no more was done than to read the manifest, or than to find that
      `legacy/` was there. */
  method Migrate(disk: Disk, dir: Path, convert: string -> Option<string>) returns (ok: bool, ghost step: UpgradeStep)
    requires disk.Valid()
    modifies disk
    ensures disk.Valid() && old(disk.seen) <= disk.seen && disk.hits >= old(disk.hits)
    ensures MigrationAnswers(old(disk.now), disk.now, dir, convert, ok, step)
    ensures disk.hits > old(disk.hits) || step == MigrationEnd(old(disk.now), dir, convert)
    ensures (MigrationEnd(old(disk.now), dir, convert) == Done && Get(old(disk.now).root, Kept(dir)) == None
             && !disk.faults(old(disk.calls)) && disk.faults(old(disk.calls) + 1)) ==> step == Writing
    ensures forall i :: |old(disk.seen)| <= i < |disk.seen| ==> ManifestIsSafe(old(disk.now), disk.seen[i], dir)
    ensures ManifestIsSafe(old(disk.now), disk.now, dir)
  {
    hide Elsewhere, Get, Room, Inos, Clear, NotUnder, CanRename, Renamed, Apart, SameFiles, NamesUpTo, Blocked, Count;
    hide OnlyAt, Create;
    hide ManifestIsSafe, Sound, AllSound, MigrationAnswers, ReadText, IsDir, AllNamesStay, NamesStay;
    ghost var start := disk.now;
    ManifestsAsTheyAre(start, dir);
    assert Kept(dir)[..|Kept(dir)| - 1] == dir;
    hide Kept;
    var text := ReadText(disk.now, dir + [OLD_MANIFEST]);
    step := Reading;
    if text.None? || convert(text.value).None? {
      LeftAlone(start, dir, convert, step);
      return false, step;
    }
    ManifestsDir(start, dir, text.value);
    ok := disk.MakeDirs(Kept(dir), Kept(dir));
    StepsAdd(old(disk.seen), disk.seen, start, {Kept(dir)});
    ghost var made := disk.now;
    ManifestsStay(start, made, old(disk.seen), disk.seen, dir);
    if !ok {
      step := MakingRoom;
      LeftAlone(start, dir, convert, step);
      return;
    }
    KeptMade(start, made, dir);
    ok, step := WriteMigrated(disk, dir, convert, text.value, old(disk.seen), start);
  }

  /** The rest of a migration, once there is a `legacy/`: the new manifest, and the old one moved. */
  method WriteMigrated(disk: Disk, dir: Path, convert: string -> Option<string>, text: string,
                       ghost before: seq<State>, ghost start: State)
    returns (ok: bool, ghost step: UpgradeStep)
    requires disk.Valid() && Sound(start) && ReadText(start, dir + [OLD_MANIFEST]) == Some(text) && convert(text).Some?
    requires SameFiles(start, disk.now) && Elsewhere(start, disk.now, {Kept(dir)}) && IsDir(disk.now.root, Kept(dir))
    requires Get(disk.now.root, dir + [OLD_MANIFEST]) == Get(start.root, dir + [OLD_MANIFEST])
    requires !IsFile(start.root, Kept(dir)) && Room(disk.now.root, dir + [MANIFEST])
    requires if Get(start.root, Kept(dir)) == None then Get(disk.now.root,
              Kept(dir)) == Some(Dir(map[])) else disk.now == start
    requires before <= disk.seen && forall i :: |before| <= i < |disk.seen| ==> ManifestIsSafe(start, disk.seen[i], dir)
    requires ManifestIsSafe(start, disk.now, dir)
    modifies disk
    ensures disk.Valid() && old(disk.seen) <= disk.seen && disk.hits >= old(disk.hits)
    ensures MigrationAnswers(start, disk.now, dir, convert, ok, step)
    ensures disk.hits > old(disk.hits)
            || step == (if IsDir(old(disk.now).root, dir + [MANIFEST]) then Writing
                        else if IsDir(old(disk.now).root, Kept(dir) + [OLD_MANIFEST]) then MovingOld else Done)
    ensures disk.faults(old(disk.calls)) ==> step == Writing
    ensures forall i :: |before| <= i < |disk.seen| ==> ManifestIsSafe(start, disk.seen[i], dir)
    ensures ManifestIsSafe(start, disk.now, dir)
  {
    hide Elsewhere, Get, Room, Inos, Clear, NotUnder, CanRename, Renamed, Apart, SameFiles, NamesUpTo, Blocked, Count;
    hide OnlyAt, Create, Kept;
    hide ManifestIsSafe, Sound, AllSound, MigrationAnswers, ReadText, IsDir;
    ghost var made := disk.now;
    ok := disk.WriteAtomic(dir + [MANIFEST], convert(text).value);
    if !ok {
      step := Writing;
      LegacyLeft(start, made, dir, convert);
      return;
    }
    ghost var written := disk.now;
    BothStand(start, made, written, dir, text, convert(text).value);
    ok := disk.Rename(dir + [OLD_MANIFEST], Kept(dir) + [OLD_MANIFEST]);
    if !ok {
      step := MovingOld;
      BothLeft(start, written, dir, convert);
      return;
    }
    step := Done;
    Migrated(start, written, disk.now, dir, text, convert(text).value);
    AllDone(start, disk.now, dir, convert);
  }

  lemma LeftAlone(s: State, dir: Path, convert: string -> Option<string>, step: UpgradeStep)
    requires step == Reading || step == MakingRoom
    ensures MigrationAnswers(s, s, dir, convert, false, step)
  {
  }

  lemma LegacyLeft(start: State, made: State, dir: Path, convert: string -> Option<string>)
    requires SameFiles(start, made) && !IsFile(start.root, Kept(dir))
    requires if Get(start.root, Kept(dir)) == None then Get(made.root, Kept(dir)) == Some(Dir(map[])) else made == start
    ensures MigrationAnswers(start, made, dir, convert, false, Writing)
  {
    hide SameFiles;
    KeptIs(dir);
    if Get(start.root, Kept(dir)) == None {
      Differs(start, made, dir, [LEGACY]);
    }
  }

  lemma BothLeft(start: State, written: State, dir: Path, convert: string -> Option<string>)
    requires !SameFiles(start, written) && Get(written.root, dir) != Get(start.root, dir)
    requires var text := ReadText(start, dir + [OLD_MANIFEST]);
             text.Some? && convert(text.value).Some?
             && ReadText(written, dir + [MANIFEST]) == convert(text.value)
             && ReadText(written, dir + [OLD_MANIFEST]) == text
    ensures MigrationAnswers(start, written, dir, convert, false, MovingOld)
  {
  }

  lemma AllDone(start: State, t: State, dir: Path, convert: string -> Option<string>)
    requires var text := ReadText(start, dir + [OLD_MANIFEST]);
             text.Some? && convert(text.value).Some?
             && ReadText(t, dir + [MANIFEST]) == convert(text.value)
             && Get(t.root, dir + [OLD_MANIFEST]) == None && ReadText(t, Kept(dir) + [OLD_MANIFEST]) == text
    ensures MigrationAnswers(start, t, dir, convert, true, Done)
  {
  }

  lemma KeptIs(dir: Path)
    ensures Kept(dir) == dir + [LEGACY]
  {
  }

  /** Where there is a manifest there is a directory, and only `legacy` itself can be in the way of one. */
  lemma ManifestsDir(s: State, dir: Path, text: string)
    requires ReadText(s, dir + [OLD_MANIFEST]) == Some(text)
    ensures IsDir(s.root, dir) && Room(s.root, dir + [MANIFEST])
    ensures Blocked(s.root, Kept(dir)) <==> IsFile(s.root, Kept(dir))
  {
    WayIsDir(s.root, dir, dir + [OLD_MANIFEST]);
    RoomIsParent(s.root, dir + [MANIFEST]);
    assert (dir + [MANIFEST])[..|dir + [MANIFEST]| - 1] == dir;
    if !IsFile(s.root, Kept(dir)) {
      NotInTheWay(s.root, dir, LEGACY);
    } else {
      assert Kept(dir) <= Kept(dir);
    }
  }

  /** Making `legacy/` leaves the manifests' places as they were. */
  lemma KeptMade(start: State, made: State, dir: Path)
    requires Elsewhere(start, made, {Kept(dir)}) && IsDir(start.root, dir) && IsDir(made.root, Kept(dir))
    requires Get(start.root, Kept(dir)).Some? ==> made == start
    requires Get(start.root, Kept(dir)) == None ==> Get(made.root, Kept(dir)) == Some(Dir(map[]))
    ensures !IsFile(start.root, Kept(dir)) && Room(made.root, dir + [MANIFEST])
    ensures IsDir(made.root, dir + [MANIFEST]) <==> IsDir(start.root, dir + [MANIFEST])
    ensures IsDir(made.root, Kept(dir) + [OLD_MANIFEST]) <==> IsDir(start.root, Kept(dir) + [OLD_MANIFEST])
  {
    MigrationPlaces(dir);
    assert Clear(dir + [MANIFEST], {Kept(dir)}) && NotUnder(dir, {Kept(dir)});
    RoomIsParent(made.root, dir + [MANIFEST]);
    assert (dir + [MANIFEST])[..|dir + [MANIFEST]| - 1] == dir;
    if Get(start.root, Kept(dir)) == None {
      EntryOf(made.root, Kept(dir), Dir(map[]), OLD_MANIFEST);
      GetUnder(start.root, Kept(dir), [OLD_MANIFEST]);
    }
  }

  lemma ManifestsAsTheyAre(s: State, dir: Path)
    requires Sound(s)
    ensures SameFiles(s, s) && ManifestIsSafe(s, s, dir)
  {
    SameElsewhere(s, {Kept(dir), dir + [MANIFEST], dir + [OLD_MANIFEST]});
  }

  /** What there is between writing the new manifest and moving the old one. */
  lemma BothStand(start: State, made: State, written: State, dir: Path, text: string, new_: string)
    requires Sound(start) && Sound(made) && SameFiles(start, made) && Elsewhere(start, made, {Kept(dir)})
    requires IsDir(made.root, Kept(dir))
    requires Get(made.root, dir + [OLD_MANIFEST]) == Get(start.root, dir + [OLD_MANIFEST])
    requires ReadText(start, dir + [OLD_MANIFEST]) == Some(text)
    requires Room(made.root, dir + [MANIFEST]) && written == Create(made, dir + [MANIFEST], new_)
    ensures Elsewhere(start, written, {Kept(dir), dir + [MANIFEST], dir + [OLD_MANIFEST]}) && !SameFiles(start, written)
    ensures ManifestIsSafe(start, written, dir)
    ensures Get(written.root, dir + [OLD_MANIFEST]) == Get(start.root, dir + [OLD_MANIFEST])
    ensures ReadText(written, dir + [OLD_MANIFEST]) == Some(text) && ReadText(written, dir + [MANIFEST]) == Some(new_)
    ensures Get(written.root, dir) != Get(start.root, dir)
    ensures CanRename(written.root, dir + [OLD_MANIFEST], Kept(dir) + [OLD_MANIFEST]) <==>
              !IsDir(made.root, Kept(dir) + [OLD_MANIFEST])
  {
    hide Elsewhere, Get, Room, Inos, Clear, NotUnder, CanRename, Apart, Kept;
    assert written.next > start.next;
    assert !SameFiles(start, written);
    hide SameFiles;
    var all := {Kept(dir), dir + [MANIFEST], dir + [OLD_MANIFEST]};
    CreateElsewhere(made, dir + [MANIFEST], new_);
    NewFileDiffers(start, written, dir, MANIFEST);
    SameElsewhere(start, all);
    ElsewhereWider(start, made, {Kept(dir)}, all);
    ManifestStays(start, made, written, dir, dir + [MANIFEST]);
    ElsewhereWider(made, written, {dir + [MANIFEST]}, all);
    ElsewhereThen(start, made, written, all);
    TextStays(start, written, all, dir + [OLD_MANIFEST]);
    TextStays(start, made, {Kept(dir)}, dir + [OLD_MANIFEST]);
    OldCanMove(made, written, dir);
  }

  lemma NewFileDiffers(s: State, t: State, dir: Path, name: string)
    requires Sound(s) && IsFile(t.root, dir + [name]) && Get(t.root, dir + [name]).value.ino >= s.next
    ensures Get(t.root, dir) != Get(s.root, dir)
  {
    if IsFile(s.root, dir + [name]) {
      InosOfGet(s.root, dir + [name]);
    }
    Differs(s, t, dir, [name]);
  }

  /** Once the new manifest is written, the old one can move unless a directory has its name. */
  lemma OldCanMove(made: State, written: State, dir: Path)
    requires Elsewhere(made, written, {dir + [MANIFEST]}) && IsDir(made.root, Kept(dir))
    requires IsFile(made.root, dir + [OLD_MANIFEST])
    ensures CanRename(written.root, dir + [OLD_MANIFEST], Kept(dir) + [OLD_MANIFEST])
            <==> !IsDir(made.root, Kept(dir) + [OLD_MANIFEST])
  {
    var from, to := dir + [OLD_MANIFEST], Kept(dir) + [OLD_MANIFEST];
    MigrationPlaces(dir);
    Siblings(dir, OLD_MANIFEST, MANIFEST);
    Siblings(dir, MANIFEST, OLD_MANIFEST);
    assert Clear(from, {dir + [MANIFEST]}) && Clear(to, {dir + [MANIFEST]}) && Clear(Kept(dir), {dir + [MANIFEST]});
    RoomIsParent(written.root, to);
    assert to[..|to| - 1] == Kept(dir);
    assert from[|dir|] != to[|dir|] by {
      assert OLD_MANIFEST[0] != LEGACY[0];
    }
  }

  lemma ManifestsStay(start: State, made: State, before: seq<State>, after: seq<State>, dir: Path)
    requires Sound(start) && OnlyAt(before, after, start, {Kept(dir)}) && Elsewhere(start, made, {Kept(dir)})
    ensures forall i :: |before| <= i < |after| ==> ManifestIsSafe(start, after[i], dir)
    ensures ManifestIsSafe(start, made, dir)
    ensures Get(made.root, dir + [OLD_MANIFEST]) == Get(start.root, dir + [OLD_MANIFEST])
  {
    hide Get, Kept;
    SameElsewhere(start, {Kept(dir), dir + [MANIFEST], dir + [OLD_MANIFEST]});
    forall i | |before| <= i < |after|
      ensures ManifestIsSafe(start, after[i], dir)
    {
      ManifestStays(start, start, after[i], dir, Kept(dir));
    }
    ManifestStays(start, start, made, dir, Kept(dir));
  }

  /** A file still under its name still holds its text. */
  lemma TextStays(s: State, t: State, ps: set<Path>, q: Path)
    requires Sound(s) && Elsewhere(s, t, ps) && Get(t.root, q) == Get(s.root, q)
    ensures ReadText(t, q) == ReadText(s, q)
  {
    if Get(s.root, q).Some? {
      InosOfGet(s.root, q);
    }
  }

  lemma Migrated(start: State, written: State, now: State, dir: Path, text: string, new_: string)
    requires Sound(start) && Sound(written)
    requires Elsewhere(start, written, {Kept(dir), dir + [MANIFEST], dir + [OLD_MANIFEST]})
    requires Get(written.root, dir + [OLD_MANIFEST]) == Get(start.root, dir + [OLD_MANIFEST])
    requires ReadText(written, dir + [OLD_MANIFEST]) == Some(text) && ReadText(written, dir + [MANIFEST]) == Some(new_)
    requires CanRename(written.root, dir + [OLD_MANIFEST], Kept(dir) + [OLD_MANIFEST])
    requires now == Renamed(written, dir + [OLD_MANIFEST], Kept(dir) + [OLD_MANIFEST])
    ensures ManifestIsSafe(start, now, dir)
    ensures ReadText(now, dir + [MANIFEST]) == Some(new_)
    ensures Get(now.root, dir + [OLD_MANIFEST]) == None
    ensures ReadText(now, Kept(dir) + [OLD_MANIFEST]) == Some(text)
  {
    hide Get, Kept, Room;
    var from, to := dir + [OLD_MANIFEST], Kept(dir) + [OLD_MANIFEST];
    var all := {Kept(dir), dir + [MANIFEST], from};
    MigrationPlaces(dir);
    assert Kept(dir) in all && from in all && from <= from;
    RenamedWithin(start, written, from, to, all);
    RenameMoves(written, from, to);
    Siblings(dir, OLD_MANIFEST, MANIFEST);
    TextStays(written, now, {from, to}, dir + [MANIFEST]);
    assert Get(now.root, to) == Get(written.root, from);
  }

  /** A blueprint whose `legacy/` has a directory by the old manifest's name. */
  function BlockedBlueprint(): State {
    State(Dir(map["bp" := Dir(map[OLD_MANIFEST := File(0), LEGACY := Dir(map[OLD_MANIFEST := Dir(map[])])])]),
          map[0 := "old"], 1)
  }

  lemma BlockedBlueprintHas()
    ensures var root := BlockedBlueprint().root;
            && Sound(BlockedBlueprint())
            && Get(root, ["bp", OLD_MANIFEST]) == Some(File(0)) && Get(root, ["bp", MANIFEST]) == None
            && IsDir(root, ["bp", LEGACY]) && IsDir(root, ["bp", LEGACY, OLD_MANIFEST])
  {
    var root := BlockedBlueprint().root;
    var bp := root.kids["bp"];
    assert Get(root, ["bp"]) == Some(bp);
    assert MANIFEST !in bp.kids && LEGACY in bp.kids && OLD_MANIFEST in bp.kids by {
      assert OLD_MANIFEST[6] == 'l' && MANIFEST[6] == 't' && MANIFEST[0] != LEGACY[0] && OLD_MANIFEST[0] != LEGACY[0];
    }
    EntryOf(root, ["bp"], bp, OLD_MANIFEST);
    EntryOf(root, ["bp"], bp, MANIFEST);
    EntryOf(root, ["bp"], bp, LEGACY);
    assert ["bp"] + [LEGACY] == ["bp", LEGACY] && ["bp"] + [OLD_MANIFEST] == ["bp", OLD_MANIFEST]
        && ["bp"] + [MANIFEST] == ["bp", MANIFEST];
    EntryOf(root, ["bp", LEGACY], bp.kids[LEGACY], OLD_MANIFEST);
    assert ["bp", LEGACY] + [OLD_MANIFEST] == ["bp", LEGACY, OLD_MANIFEST];
    NoOtherInos();
  }

  lemma NoOtherInos()
    ensures Inos(BlockedBlueprint().root) <= {0}
  {
    var empty, old_ := Dir(map[]), File(0);
    assert Inos(empty) == {} && Inos(old_) == {0};
    var inner := Dir(map[OLD_MANIFEST := empty]);
    assert Inos(inner) == {};
    var bp := Dir(map[OLD_MANIFEST := old_, LEGACY := inner]);
    assert Inos(bp) <= {0};
  }

  /** It cannot be migrated, though no call fails by chance, and is not left as it was: it has both
      manifests. */
  method MigrationLeavesBoth() returns (ok: bool, old_: Option<string>, new_: Option<string>)
    ensures !ok && old_ == Some("old") && new_ == Some("new")
    ensures Get(BlockedBlueprint().root, ["bp", MANIFEST]) == None
  {
    hide Get, Inos, Elsewhere;
    BlockedBlueprintHas();
    var dir := ["bp"];
    assert dir + [OLD_MANIFEST] == ["bp", OLD_MANIFEST] && Kept(dir) == ["bp", LEGACY]
        && dir + [MANIFEST] == ["bp", MANIFEST];
    assert Kept(dir) + [OLD_MANIFEST] == ["bp", LEGACY, OLD_MANIFEST];
    var disk := new Disk(BlockedBlueprint(), _ => false);
    ghost var step;
    ok, step := Migrate(disk, dir, _ => Some("new"));
    NeverByChance(disk.faults, disk.calls);
    assert ReadText(BlockedBlueprint(), dir + [OLD_MANIFEST]) == Some("old");
    assert step == MovingOld;
    old_, new_ := ReadText(disk.now, dir + [OLD_MANIFEST]), ReadText(disk.now, dir + [MANIFEST]);
  }

  // ---- Rewriting in place ----

  /** The names a kept manifest may take, in order. */
  function KeptName(n: nat): string {
    if n == 0 then MANIFEST else "agent." + Decimal.Show(n) + ".toml"
  }

  lemma KeptNamesDiffer(m: nat, n: nat)
    requires m < n
    ensures KeptName(m) != KeptName(n)
  {
    Decimal.ShowReads(n);
    var b := KeptName(n);
    assert b[6..|b| - 5] == Decimal.Show(n);
    if m == 0 {
      assert Decimal.IsDigit(b[6]) by { assert b[6] == Decimal.Show(n)[0]; }
      assert MANIFEST[6] == 't';
    } else {
      Decimal.ShowReads(m);
      var a := KeptName(m);
      assert a[6..|a| - 5] == Decimal.Show(m);
    }
  }

  /** The entries `legacy` has. */
  ghost function Taken(root: Node, legacy: Path): set<string> {
    var here := Get(root, legacy);
    if here.Some? && here.value.Dir? then here.value.kids.Keys else {}
  }

  /** The names from `n` on that are taken: fewer of them, once `n` is known to be one. */
  ghost function StillTaken(root: Node, legacy: Path, n: nat): set<string> {
    set k | k in Taken(root, legacy) && forall m: nat | m < n :: k != KeptName(m)
  }

  lemma FewerTaken(root: Node, legacy: Path, n: nat)
    requires Get(root, legacy + [KeptName(n)]).Some?
    ensures |StillTaken(root, legacy, n + 1)| < |StillTaken(root, legacy, n)|
  {
    GetUnder(root, legacy, [KeptName(n)]);
    forall m: nat | m < n
      ensures KeptName(m) != KeptName(n)
    {
      KeptNamesDiffer(m, n);
    }
    assert KeptName(n) in StillTaken(root, legacy, n);
    assert StillTaken(root, legacy, n + 1) <= StillTaken(root, legacy, n) - {KeptName(n)};
    SubsetSize(StillTaken(root, legacy, n + 1), StillTaken(root, legacy, n) - {KeptName(n)});
  }

  /** The first name not yet taken in `legacy/`; there is always one. */
  method FreeName(disk: Disk, legacy: Path) returns (path: Path, ghost n: nat)
    ensures path == legacy + [KeptName(n)] && Get(disk.now.root, path) == None
    ensures forall m: nat :: m < n ==> Get(disk.now.root, legacy + [KeptName(m)]).Some?
  {
    hide Get, KeptName, StillTaken;
    var i := 0;
    path := legacy + [KeptName(0)];
    while Get(disk.now.root, path).Some?
      invariant path == legacy + [KeptName(i)]
      invariant forall m: nat :: m < i ==> Get(disk.now.root, legacy + [KeptName(m)]).Some?
      decreases |StillTaken(disk.now.root, legacy, i)|
    {
      FewerTaken(disk.now.root, legacy, i);
      i := i + 1;
      path := legacy + [KeptName(i)];
    }
    n := i;
  }

  /** While a manifest is rewritten, its text is in its file or kept, and no other file changes: the
      manifests earlier rewrites kept least of all. */
  ghost predicate TextIsSafe(start: State, t: State, file: Path, kept: Path) {
    && Elsewhere(start, t, {file, kept})
    && (Get(t.root, file) == Get(start.root, file) || ReadText(t, kept) == ReadText(start, file))
  }

  /** Where a rewrite ends when no call fails by chance. */
  function RewriteEnd(s: State, dir: Path, reform: string -> Option<string>): UpgradeStep {
    var text := ReadText(s, dir + [MANIFEST]);
    if text.None? || reform(text.value).None? then Reading
    else if IsFile(s.root, Kept(dir)) then MakingRoom
    else Done
  }

  predicate RewriteRoom(s: State, dir: Path, reform: string -> Option<string>) {
    RewriteEnd(s, dir, reform) == Done
  }

  /** What a rewrite that failed at `step` leaves. */
  ghost predicate RewriteLeaves(start: State, t: State, dir: Path, kept: Path, step: UpgradeStep) {
    step != Done ==>
      && (Get(t.root, dir) == Get(start.root, dir) <==>
            step == Reading || step == MakingRoom || (step == Opening && IsDir(start.root, Kept(dir))))
      && (Get(t.root, kept) == None <==> step == Reading || step == MakingRoom || step == Opening)
  }

  /** What a rewrite's answer says: done, the manifest reads as rewritten, and its text is kept under a
      number not taken before; if not, the manifest is as it was. */
  ghost predicate RewriteAnswers(start: State, t: State, dir: Path, reform: string -> Option<string>, kept: Path,
                                 ok: bool, step: UpgradeStep) {
    && (ok <==> step == Done)
    && RewriteLeaves(start, t, dir, kept, step)
    && (exists n: nat :: kept == Kept(dir) + [KeptName(n)])
    && Get(start.root, kept) == None
    && var text := ReadText(start, dir + [MANIFEST]);
       if ok then
         && text.Some? && reform(text.value).Some?
         && ReadText(t, dir + [MANIFEST]) == reform(text.value)
         && ReadText(t, kept) == text
       else Get(t.root, dir + [MANIFEST]) == Get(start.root, dir + [MANIFEST])
  }

  /** `rewrite`; `reform` is the rewriter of the manifest's text, `None` when it finds nothing to do
      or cannot. A failure leaves the blueprint as it was, directories too, exactly when no more was
      done than to read the manifest, or than to find that `legacy/` was there: a kept copy stays, be
      it part of one. */
  method Rewrite(disk: Disk, dir: Path, reform: string -> Option<string>)
    returns (ok: bool, ghost kept: Path, ghost step: UpgradeStep)
    requires disk.Valid()
    modifies disk
    ensures disk.Valid() && old(disk.seen) <= disk.seen && disk.hits >= old(disk.hits)
    ensures RewriteAnswers(old(disk.now), disk.now, dir, reform, kept, ok, step)
    ensures disk.hits > old(disk.hits) || step == RewriteEnd(old(disk.now), dir, reform)
    ensures (RewriteRoom(old(disk.now), dir, reform) && IsDir(old(disk.now).root, Kept(dir))
             && !disk.faults(old(disk.calls)) && !disk.faults(old(disk.calls) + 1)
                 && disk.faults(old(disk.calls) + 2)) ==> step == Writing
    ensures forall i :: |old(disk.seen)| <= i < |disk.seen| ==>
              TextIsSafe(old(disk.now), disk.seen[i], dir + [MANIFEST], kept)
    ensures TextIsSafe(old(disk.now), disk.now, dir + [MANIFEST], kept)
  {
    hide Elsewhere, Get, Room, Inos, Clear, NotUnder, Apart, SameFiles, NamesUpTo, Blocked, Count, OnlyAt, Sound;
    hide AllSound, Create;
    hide TextIsSafe, KeptName, RewriteLeaves;
    ghost var start := disk.now;
    var file := dir + [MANIFEST];
    var path, n := FreeName(disk, Kept(dir));
    kept, step := path, Reading;
    assert Kept(dir)[..|Kept(dir)| - 1] == dir;
    KeptIs(dir);
    hide Kept;
    ghost var all := {file, path};
    RewritePlaces(dir, path);
    SameElsewhere(start, all);
    FileAsItIs(start, file, path);
    var text := ReadText(disk.now, file);
    if text.None? || reform(text.value).None? {
      NothingLeftBy(start, dir, kept, step);
      return false, kept, step;
    }
    RewriteBegins(start, dir);
    ok := disk.MakeDirs(Kept(dir), path);
    FileStays(old(disk.seen), old(disk.seen), disk.seen, start, start, disk.now, file, path);
    if !ok {
      step := MakingRoom;
      NothingLeftBy(start, dir, kept, step);
      return;
    }
    RoomThere(start, disk.now, dir, path);
    ok, step := KeepAndWrite(disk, dir, path, reform, text.value, old(disk.seen), start);
  }

  /** The rest of a rewrite, once there is a `legacy/`: the old text kept, and the new one written. */
  method KeepAndWrite(disk: Disk, dir: Path, path: Path, reform: string -> Option<string>, text: string,
                      ghost before: seq<State>, ghost start: State)
    returns (ok: bool, ghost step: UpgradeStep)
    requires disk.Valid() && Sound(start) && ReadText(start, dir + [MANIFEST]) == Some(text) && reform(text).Some?
    requires exists n: nat :: path == Kept(dir) + [KeptName(n)]
    requires Get(start.root, path) == None && Get(disk.now.root, path) == None && Room(disk.now.root, path)
    requires IsDir(disk.now.root, Kept(dir)) && (Get(start.root, Kept(dir)).Some? ==> disk.now == start)
    requires Elsewhere(start, disk.now, {dir + [MANIFEST], path})
    requires Get(disk.now.root, dir + [MANIFEST]) == Get(start.root, dir + [MANIFEST])
    requires before <= disk.seen && forall i :: |before| <= i < |disk.seen| ==>
              TextIsSafe(start, disk.seen[i], dir + [MANIFEST], path)
    requires TextIsSafe(start, disk.now, dir + [MANIFEST], path)
    modifies disk
    ensures disk.Valid() && old(disk.seen) <= disk.seen && disk.hits >= old(disk.hits)
    ensures (ok <==> step == Done) && (disk.hits > old(disk.hits) || step == Done)
    ensures (!disk.faults(old(disk.calls)) && !disk.faults(old(disk.calls) + 1) && disk.faults(old(disk.calls) + 2)) ==>
              step == Writing
    ensures RewriteLeaves(start, disk.now, dir, path, step)
    ensures forall i :: |before| <= i < |disk.seen| ==> TextIsSafe(start, disk.seen[i], dir + [MANIFEST], path)
    ensures TextIsSafe(start, disk.now, dir + [MANIFEST], path)
    ensures if ok then ReadText(disk.now, dir + [MANIFEST]) == reform(text) && ReadText(disk.now, path) == Some(text)
            else Get(disk.now.root, dir + [MANIFEST]) == Get(start.root, dir + [MANIFEST])
  {
    hide Elsewhere, Get, Room, Inos, Clear, NotUnder, Apart, SameFiles, NamesUpTo, Blocked, Count, OnlyAt, Sound;
    hide AllSound, Create, Kept;
    hide TextIsSafe, KeptName, RewriteLeaves, IsDir;
    var file := dir + [MANIFEST];
    ghost var made, had := disk.now, disk.seen;
    RewritePlaces(dir, path);
    ok := disk.WriteNew(path, text);
    StepsAdd(had, disk.seen, made, {path});
    FileStays(before, had, disk.seen, start, made, disk.now, file, path);
    KeptDiffers(start, made, disk.now, dir, path);
    if !ok {
      step := if disk.now == made then Opening else Keeping;
      return;
    }
    assert disk.now != made by { CreateDiffers(made, path, text); }
    ghost var copied := disk.now;
    CreateElsewhere(made, path, text);
    FileCanBeWritten(copied, dir);
    ok := disk.WriteAtomic(file, reform(text).value);
    if !ok {
      step := Writing;
      return;
    }
    step := Done;
    LeavesNothingToSay(start, disk.now, dir, path);
    Rewritten(start, copied, disk.now, file, path, text, reform(text).value);
  }

  lemma FileAsItIs(s: State, file: Path, path: Path)
    requires Sound(s)
    ensures TextIsSafe(s, s, file, path)
  {
    SameElsewhere(s, {file, path});
  }

  lemma RewriteBegins(s: State, dir: Path)
    requires IsFile(s.root, dir + [MANIFEST])
    ensures Blocked(s.root, Kept(dir)) <==> IsFile(s.root, Kept(dir))
    ensures IsDir(s.root, dir)
  {
    WayIsDir(s.root, dir, dir + [MANIFEST]);
    if !IsFile(s.root, Kept(dir)) {
      NotInTheWay(s.root, dir, LEGACY);
    } else {
      assert Kept(dir) <= Kept(dir);
    }
  }

  lemma NothingLeftBy(s: State, dir: Path, kept: Path, step: UpgradeStep)
    requires Get(s.root, kept) == None && (step == Reading || step == MakingRoom)
    ensures RewriteLeaves(s, s, dir, kept, step)
  {
  }

  lemma LeavesNothingToSay(start: State, t: State, dir: Path, kept: Path)
    ensures RewriteLeaves(start, t, dir, kept, Done)
  {
  }

  lemma CreateDiffers(s: State, path: Path, text: string)
    requires Room(s.root, path)
    ensures Create(s, path, text) != s
  {
    assert Create(s, path, text).next != s.next;
  }

  /** Once `legacy/` was made, or a copy kept in it, the blueprint is not as it was. */
  lemma KeptDiffers(start: State, made: State, t: State, dir: Path, path: Path)
    requires Get(start.root, path) == None && (exists n: nat :: path == Kept(dir) + [KeptName(n)])
    requires Get(start.root, Kept(dir)).Some? ==> made == start
    requires IsDir(made.root, Kept(dir)) && Get(made.root, path) == None
    requires t == made || (Room(made.root, path) && exists part :: t == Create(made, path, part))
    ensures t == made ==> RewriteLeaves(start, t, dir, path, Opening)
    ensures t != made ==> RewriteLeaves(start, t, dir, path, Keeping) && RewriteLeaves(start, t, dir, path, Writing)
  {
    KeptIs(dir);
    if t == made {
      if Get(start.root, Kept(dir)) == None {
        Differs(start, made, dir, [LEGACY]);
      }
    } else {
      var part :| t == Create(made, path, part);
      GetPut(made.root, path, File(made.next), path);
      assert path == dir + path[|dir|..];
      Differs(start, t, dir, path[|dir|..]);
    }
  }

  lemma RoomThere(start: State, made: State, dir: Path, path: Path)
    requires IsDir(made.root, Kept(dir)) && exists n: nat :: path == Kept(dir) + [KeptName(n)]
    requires Get(start.root, Kept(dir)).Some? ==> made == start
    ensures Room(made.root, path) && !IsFile(start.root, Kept(dir))
  {
    RoomIsParent(made.root, path);
    assert path[..|path| - 1] == Kept(dir);
  }

  lemma FileCanBeWritten(s: State, dir: Path)
    requires IsFile(s.root, dir + [MANIFEST])
    ensures Room(s.root, dir + [MANIFEST]) && !IsDir(s.root, dir + [MANIFEST])
  {
    WayIsDir(s.root, dir, dir + [MANIFEST]);
    RoomIsParent(s.root, dir + [MANIFEST]);
    assert (dir + [MANIFEST])[..|dir + [MANIFEST]| - 1] == dir;
  }

  lemma RewritePlaces(dir: Path, path: Path)
    requires exists n: nat :: path == Kept(dir) + [KeptName(n)]
    ensures Apart(path, dir + [MANIFEST]) && Apart(dir + [MANIFEST], path) && Kept(dir) <= path && Kept(dir) != path
  {
    MigrationPlaces(dir);
    BelowApart(Kept(dir), path, dir + [MANIFEST]);
  }

  lemma FileStays(before: seq<State>, had: seq<State>, after: seq<State>, start: State, was: State, now: State,
                  file: Path, path: Path)
    requires Elsewhere(start, was, {file, path}) && Get(was.root, file) == Get(start.root, file) && Apart(path, file)
    requires before <= had && forall i :: |before| <= i < |had| ==> TextIsSafe(start, had[i], file, path)
    requires OnlyAt(had, after, was, {path}) && Elsewhere(was, now, {path})
    ensures before <= after && forall i :: |before| <= i < |after| ==> TextIsSafe(start, after[i], file, path)
    ensures TextIsSafe(start, now, file, path) && Get(now.root, file) == Get(start.root, file)
    ensures Elsewhere(start, now, {file, path})
  {
    hide Elsewhere, Get;
    forall i | |before| <= i < |after|
      ensures TextIsSafe(start, after[i], file, path)
    {
      if i < |had| {
        assert after[i] == had[i];
      } else {
        FileIsThere(start, was, after[i], file, path);
      }
    }
    FileIsThere(start, was, now, file, path);
  }

  lemma FileIsThere(start: State, was: State, t: State, file: Path, path: Path)
    requires Elsewhere(start, was, {file, path}) && Get(was.root, file) == Get(start.root, file) && Apart(path, file)
    requires Elsewhere(was, t, {path})
    ensures TextIsSafe(start, t, file, path) && Get(t.root, file) == Get(start.root, file)
  {
    hide Get;
    assert Clear(file, {path});
    ElsewhereWider(was, t, {path}, {file, path});
    ElsewhereThen(start, was, t, {file, path});
  }

  lemma Rewritten(start: State, copied: State, now: State, file: Path, path: Path, text: string, new_: string)
    requires Elsewhere(start, copied, {file, path}) && Sound(copied) && Apart(file, path)
    requires ReadText(start, file) == Some(text) && ReadText(copied, path) == Some(text)
    requires Room(copied.root, file) && now == Create(copied, file, new_)
    ensures TextIsSafe(start, now, file, path)
    ensures ReadText(now, file) == Some(new_) && ReadText(now, path) == Some(text)
  {
    hide Get, Room;
    CreateElsewhere(copied, file, new_);
    assert Clear(path, {file});
    TextStays(copied, now, {file}, path);
    ElsewhereWider(copied, now, {file}, {file, path});
    ElsewhereThen(start, copied, now, {file, path});
  }

  // ---- What failures leave ----

  function OneBlueprint(kids: map<string, Node>): State {
    State(Dir(map["bp" := Dir(kids)]), map[0 := "old"], 1)
  }

  lemma OneBlueprintHas(kids: map<string, Node>)
    requires forall k | k in kids :: Inos(kids[k]) <= {0}
    ensures var s := OneBlueprint(kids);
            Sound(s) && forall k :: Get(s.root, ["bp"] + [k]) == if k in kids then Some(kids[k]) else None
  {
    var s, bp := OneBlueprint(kids), Dir(kids);
    assert Get(s.root, ["bp"]) == Some(bp);
    forall k ensures Get(s.root, ["bp"] + [k]) == if k in kids then Some(kids[k]) else None {
      EntryOf(s.root, ["bp"], bp, k);
    }
    assert Inos(bp) <= {0};
  }

  /** A migration whose new manifest cannot be written, that one call failing by chance: the blueprint
      has a `legacy/` it had not. */
  method MigrationLeavesLegacy() returns (ok: bool, same: bool)
    ensures !ok && !same
  {
    hide Get, Inos, Elsewhere, OneBlueprint, Sound;
    var kids := map[OLD_MANIFEST := File(0)];
    assert OLD_MANIFEST[0] != LEGACY[0] && OLD_MANIFEST[6] == 'l' && MANIFEST[6] == 't';
    FileInos(0);
    OneBlueprintHas(kids);
    OneBlueprintReads(kids, OLD_MANIFEST);
    NothingUnderNone(OneBlueprint(kids).root, ["bp"] + [LEGACY], OLD_MANIFEST);
    var disk := new Disk(OneBlueprint(kids), c => c == 1);
    var before := Get(disk.now.root, ["bp"]);
    ghost var step;
    ok, step := Migrate(disk, ["bp"], _ => Some("new"));
    same := Get(disk.now.root, ["bp"]) == before;
  }

  /** A rewrite whose new manifest cannot be written, in the same way: it has a kept copy it had not. */
  method RewriteLeavesCopy() returns (ok: bool, same: bool)
    ensures !ok && !same
  {
    hide Get, Inos, Elsewhere, OneBlueprint, Sound;
    var kids := map[MANIFEST := File(0), LEGACY := Dir(map[])];
    assert MANIFEST[0] != LEGACY[0];
    FileInos(0);
    OneBlueprintHas(kids);
    OneBlueprintReads(kids, MANIFEST);
    var disk := new Disk(OneBlueprint(kids), c => c == 2);
    var before := Get(disk.now.root, ["bp"]);
    ghost var step, kept;
    ok, kept, step := Rewrite(disk, ["bp"], _ => Some("new"));
    same := Get(disk.now.root, ["bp"]) == before;
  }

  lemma FileInos(i: nat)
    ensures Inos(File(i)) == {i} && Inos(Dir(map[])) == {}
  {
  }

  lemma OneBlueprintReads(kids: map<string, Node>, name: string)
    requires name in kids && kids[name] == File(0)
    ensures ReadText(OneBlueprint(kids), ["bp"] + [name]) == Some("old")
  {
    assert Get(OneBlueprint(kids).root, ["bp"]) == Some(Dir(kids));
    EntryOf(OneBlueprint(kids).root, ["bp"], Dir(kids), name);
  }

  lemma NothingUnderNone(n: Node, p: Path, name: string)
    requires Get(n, p) == None
    ensures Get(n, p + [name]) == None
  {
    GetUnder(n, p, [name]);
  }
}
