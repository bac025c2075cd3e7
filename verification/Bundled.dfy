/** The blueprints the binary ships: writing one out, telling an installed copy from it byte for byte
    by comparing the files it ships and counting the rest, and what setup then offers. */
module Bundled {
  import opened Wrappers
  import opened Filesystem
  import opened DiskModel
  import opened Sets

  datatype Entry = Entry(rel: Path, text: string)

  datatype Agent = Agent(name: string, version: string, files: seq<Entry>)

  datatype AgentAction = Install | Update(from: string) | Modified | UpToDate

  const LEGACY := "legacy"
  const MANIFEST := "agent.toml"

  /** What the build puts in its table: a manifest, each file once, and nothing under `legacy/`. */
  ghost predicate ValidBundle(files: seq<Entry>) {
    && files != []
    && (forall i :: 0 <= i < |files| ==> files[i].rel != [] && files[i].rel[0] != LEGACY)
    && (forall i, j :: 0 <= i < j < |files| ==> files[i].rel != files[j].rel)
  }

  /** The text the bundle has at `q`, if any. */
  function BundleText(files: seq<Entry>, q: Path): (r: Option<string>)
    ensures r.Some? ==> exists i :: 0 <= i < |files| && files[i].rel == q && files[i].text == r.value
    ensures r.None? ==> forall i :: 0 <= i < |files| ==> files[i].rel != q
  {
    if files == [] then None
    else if files[|files| - 1].rel == q then Some(files[|files| - 1].text)
    else BundleText(files[..|files| - 1], q)
  }

  /** Outside `legacy/`, the files under `dest` are the bundle's, byte for byte. */
  ghost predicate Intact(s: State, dest: Path, files: seq<Entry>) {
    forall q :: !KeptAside(q) ==> ReadText(s, dest + q) == BundleText(files, q)
  }

  /** The path of a file inside the directory an upgrade keeps the old install in. */
  predicate KeptAside(q: Path) {
    |q| > 1 && q[0] == LEGACY
  }

  // ---- Installing ----

  lemma CreateTexts(s: State, p: Path, text: string, q: Path)
    requires Sound(s) && Room(s.root, p) && Get(s.root, p) == None
    ensures ReadText(Create(s, p, text), q) == if q == p then Some(text) else ReadText(s, q)
  {
    GetPut(s.root, p, File(s.next), q);
    if p <= q {
      PrefixGet(s.root, p, q);
    } else if Get(s.root, q).Some? {
      InosOfGet(s.root, q);
      if Get(s.root, q).value.File? {
        assert Get(s.root, q).value.ino in Inos(s.root);
      }
    }
  }

  /** The files of the bundle so far are what is under `dest`. */
  ghost predicate Holds(s: State, dest: Path, files: seq<Entry>) {
    forall q :: ReadText(s, dest + q) == BundleText(files, q)
  }

  /** One file more, written where nothing is. */
  lemma HoldsOneMore(s: State, mid: State, t: State, dest: Path, files: seq<Entry>, i: nat)
    requires ValidBundle(files) && i < |files| && Holds(s, dest, files[..i])
    requires SameFiles(s, mid) && Sound(mid)
    requires Room(mid.root, dest + files[i].rel) && Get(mid.root, dest + files[i].rel) == None
    requires t == Create(mid, dest + files[i].rel, files[i].text)
    ensures Holds(t, dest, files[..i + 1])
  {
    var rel := files[i].rel;
    assert files[..i + 1][..i] == files[..i];
    forall q
      ensures ReadText(t, dest + q) == BundleText(files[..i + 1], q)
    {
      CreateTexts(mid, dest + rel, files[i].text, dest + q);
      assert dest + q == dest + rel ==> q == rel by { assert (dest + q)[|dest|..] == q
                                                     && (dest + rel)[|dest|..] == rel; }
      SameTexts(s, mid, dest + q);
    }
  }

  lemma SameTexts(s: State, t: State, q: Path)
    requires SameFiles(s, t)
    ensures ReadText(s, q) == ReadText(t, q)
  {
    if IsFile(s.root, q) {
      assert Get(s.root, q) == Some(File(Get(s.root, q).value.ino));
    }
    if IsFile(t.root, q) {
      assert Get(t.root, q) == Some(File(Get(t.root, q).value.ino));
    }
  }

  lemma NothingHeld(s: State, dest: Path)
    requires Get(s.root, dest) == None
    ensures Holds(s, dest, []) && NothingElse(s, dest, []) && forall start :: FreshFiles(start, s, dest)
  {
    forall q ensures Get(s.root, dest + q) == None { GetUnder(s.root, dest, q); }
  }

  /** No file of the bundle is a directory on the way to another: they come from one directory. */
  ghost predicate FitsAsTree(files: seq<Entry>) {
    forall i, j :: 0 <= i < |files| && 0 <= j < |files| && i != j ==> !(files[i].rel <= files[j].rel)
  }

  ghost predicate InstallRoom(s: State, dest: Path, files: seq<Entry>) {
    !Blocked(s.root, dest) && FitsAsTree(files)
  }

  /** Nothing is there but the files so far and the directories they are in. */
  ghost predicate NothingElse(s: State, dest: Path, files: seq<Entry>) {
    forall q :: Get(s.root, dest + q).Some? ==> OnTheWay(files, q)
  }

  ghost predicate OnTheWay(files: seq<Entry>, q: Path) {
    exists i :: 0 <= i < |files| && q <= files[i].rel
  }

  lemma OnTheWayOf(files: seq<Entry>, i: nat, q: Path)
    requires i < |files|
    ensures OnTheWay(files[..i + 1], q) <==> OnTheWay(files[..i], q) || q <= files[i].rel
  {
    if OnTheWay(files[..i], q) {
      var j :| 0 <= j < i && q <= files[..i][j].rel;
      assert files[..i + 1][j] == files[j];
    }
    if OnTheWay(files[..i + 1], q) {
      var j :| 0 <= j < i + 1 && q <= files[..i + 1][j].rel;
      assert j < i ==> files[..i][j] == files[j];
    }
    assert files[..i + 1][i] == files[i];
  }

  /** No file so far is in the way of the next one. */
  lemma WayClear(s: State, dest: Path, files: seq<Entry>, i: nat)
    requires ValidBundle(files) && i < |files| && Sound(s) && Holds(s, dest, files[..i]) && InstallRoom(s, dest, files)
    ensures !Blocked(s.root, dest + files[i].rel[..|files[i].rel| - 1])
  {
    hide Get, Inos;
    var rel := files[i].rel;
    var path := dest + rel[..|rel| - 1];
    forall q | q <= path
      ensures !IsFile(s.root, q)
    {
      ShorterPrefix(q, dest, path);
      if !(q <= dest) {
        var r := q[|dest|..];
        assert q == dest + r && r <= rel by {
          assert q == path[..|q|] && r == rel[..|r|];
        }
        FileHasText(s, q);
        assert ReadText(s, dest + r) == BundleText(files[..i], r);
        NotEarlier(files, i, r);
      }
    }
  }

  lemma NotEarlier(files: seq<Entry>, i: nat, r: Path)
    requires FitsAsTree(files) && i < |files| && r <= files[i].rel
    ensures BundleText(files[..i], r) == None
  {
    assert forall j :: 0 <= j < i ==> files[..i][j] == files[j] && !(files[j].rel <= files[i].rel);
  }

  /** The next file's place is free once there is a directory for it. */
  lemma PlaceFree(s: State, mid: State, dest: Path, files: seq<Entry>, i: nat)
    requires ValidBundle(files) && i < |files| && NothingElse(s, dest, files[..i])
    requires NamesUpTo(s.root, mid.root, dest + files[i].rel[..|files[i].rel| - 1])
    ensures FitsAsTree(files) ==> Get(mid.root, dest + files[i].rel) == None
    ensures NothingElse(mid, dest, files[..i + 1])
  {
    var rel := files[i].rel;
    forall q | Get(mid.root, dest + q).Some?
      ensures OnTheWay(files[..i + 1], q) && (FitsAsTree(files) ==> q != rel)
    {
      OnTheWayOf(files, i, q);
      if Get(s.root, dest + q).Some? {
        NextApart(files, i, q);
      } else {
        Below(dest, q, rel[..|rel| - 1]);
      }
    }
  }

  lemma Below(dest: Path, q: Path, r: Path)
    ensures dest + q <= dest + r <==> q <= r
  {
    assert (dest + q)[|dest|..] == q && (dest + r)[|dest|..] == r;
    if q <= r {
      assert dest + r == (dest + q) + r[|q|..];
    }
    if dest + q <= dest + r {
      assert q == (dest + r)[..|dest + q|][|dest|..] == r[..|q|];
    }
  }

  lemma NextApart(files: seq<Entry>, i: nat, q: Path)
    requires i < |files| && OnTheWay(files[..i], q)
    ensures FitsAsTree(files) ==> q != files[i].rel
  {
    var j :| 0 <= j < i && q <= files[..i][j].rel;
    assert files[..i][j] == files[j];
  }

  lemma FileAdded(mid: State, t: State, dest: Path, files: seq<Entry>, i: nat)
    requires i < |files| && files[i].rel != [] && NothingElse(mid, dest, files[..i + 1])
    requires Room(mid.root, dest + files[i].rel) && Get(mid.root, dest + files[i].rel) == None
    requires t == Create(mid, dest + files[i].rel, files[i].text)
    ensures NothingElse(t, dest, files[..i + 1])
  {
    var path := dest + files[i].rel;
    PutNames(mid.root, path, File(mid.next));
    forall q | Get(t.root, dest + q).Some?
      ensures OnTheWay(files[..i + 1], q)
    {
      OnTheWayOf(files, i, q);
      if Get(mid.root, dest + q).None? {
        assert dest + q == path + (dest + q)[|path|..];
        Below(dest, q, files[i].rel);
      }
    }
  }

  /** No file of `s` has a name under `dest`. */
  ghost predicate FreshFiles(s: State, t: State, dest: Path) {
    forall q :: IsFile(t.root, dest + q) ==> Get(t.root, dest + q).value.ino >= s.next
  }

  lemma FreshAdded(start: State, was: State, mid: State, t: State, dest: Path, path: Path, text: string)
    requires FreshFiles(start, was, dest) && SameFiles(was, mid) && start.next <= mid.next
    requires Room(mid.root, path) && Get(mid.root, path) == None && t == Create(mid, path, text)
    ensures FreshFiles(start, t, dest)
  {
    forall q | IsFile(t.root, dest + q) ensures Get(t.root, dest + q).value.ino >= start.next {
      var i := Get(t.root, dest + q).value.ino;
      FileThere(mid, path, text, dest + q);
      if i != mid.next {
        assert Get(mid.root, dest + q) == Some(File(i));
        assert Get(was.root, dest + q) == Some(File(i));
      }
    }
  }

  lemma FileThere(s: State, path: Path, text: string, q: Path)
    requires Room(s.root, path) && IsFile(Create(s, path, text).root, q)
    ensures Get(Create(s, path, text).root, q) == Some(File(s.next))
              || Get(Create(s, path, text).root, q) == Get(s.root, q)
  {
    GetPut(s.root, path, File(s.next), q);
  }

  /** A file put below a directory is not in the way of it. */
  lemma FileBelow(mid: State, t: State, dest: Path, path: Path, text: string)
    requires dest < path && Room(mid.root, path) && t == Create(mid, path, text)
    ensures !Blocked(t.root, dest)
  {
    forall q | q <= dest
      ensures !IsFile(t.root, q)
    {
      assert q < path;
      GetPut(mid.root, path, File(mid.next), q);
    }
  }

  /** What is under `dest` once some of the bundle's files are written: them and nothing else, and no
      file in the way of the next if none was to begin with. */
  ghost predicate PartInstalled(start: State, t: State, dest: Path, files: seq<Entry>, i: nat)
    requires i <= |files|
  {
    && Elsewhere(start, t, {dest}) && Holds(t, dest, files[..i])
    && NothingElse(t, dest, files[..i]) && FreshFiles(start, t, dest)
    && (!Blocked(start.root, dest) ==> !Blocked(t.root, dest))
  }

  /** `install_bundled`: whatever was in the blueprint's place is removed, then each file written. */
  method InstallBundled(disk: Disk, agent: Agent, agentsDir: Path) returns (ok: bool)
    requires disk.Valid() && ValidBundle(agent.files)
    modifies disk
    ensures disk.Valid()
    ensures OnlyAt(old(disk.seen), disk.seen, old(disk.now), {agentsDir + [agent.name]})
    ensures Elsewhere(old(disk.now), disk.now, {agentsDir + [agent.name]})
    ensures disk.hits >= old(disk.hits)
    ensures ok || disk.hits > old(disk.hits) || !InstallRoom(old(disk.now), agentsDir + [agent.name], agent.files)
    ensures ok ==> Holds(disk.now, agentsDir + [agent.name], agent.files)
    ensures ok ==> NothingElse(disk.now, agentsDir + [agent.name], agent.files)
    ensures ok ==> FreshFiles(old(disk.now), disk.now, agentsDir + [agent.name])
  {
    hide Elsewhere, Get, Room, Inos, Clear, NotUnder, OnlyAt, Holds, NothingElse, FitsAsTree, Blocked, IsDir, Count;
    var dest := agentsDir + [agent.name];
    ghost var start := disk.now;
    SameElsewhere(start, {dest});
    NoSteps(disk.seen, start, {dest});
    if Get(disk.now.root, dest).Some? {
      DirUnlessBlocked(disk.now.root, dest);
      ok := disk.RemoveTree(dest);
      if !ok {
        return;
      }
      UpIsDir(start, disk.now, dest);
    }
    NothingHeld(disk.now, dest);
    assert agent.files[..0] == [];
    var i := 0;
    while i < |agent.files|
      invariant i <= |agent.files|
      invariant disk.Valid() && OnlyAt(old(disk.seen), disk.seen, start, {dest}) && disk.hits >= old(disk.hits)
      invariant PartInstalled(start, disk.now, dest, agent.files, i)
    {
      ok := InstallFile(disk, dest, agent.files, i, old(disk.seen), start);
      if !ok {
        return;
      }
      i := i + 1;
    }
    assert agent.files[..i] == agent.files;
    ok := true;
  }

  /** One file of the bundle, with the directories on its way. */
  method InstallFile(disk: Disk, dest: Path, files: seq<Entry>, i: nat, ghost before: seq<State>, ghost start: State)
    returns (ok: bool)
    requires disk.Valid() && ValidBundle(files) && i < |files|
    requires OnlyAt(before, disk.seen, start, {dest}) && PartInstalled(start, disk.now, dest, files, i)
    modifies disk
    ensures disk.Valid() && OnlyAt(before, disk.seen, start, {dest}) && Elsewhere(start, disk.now, {dest})
    ensures disk.hits >= old(disk.hits)
    ensures ok || disk.hits > old(disk.hits) || !InstallRoom(start, dest, files)
    ensures ok ==> PartInstalled(start, disk.now, dest, files, i + 1)
  {
    hide Elsewhere, Get, Room, Inos, Clear, NotUnder, OnlyAt, Holds, SameFiles, NothingElse, FreshFiles, FitsAsTree;
    hide Blocked, NamesUpTo;
    hide IsDir, Count, Sound, AllSound, Create;
    var file := files[i];
    var parent, path := dest + file.rel[..|file.rel| - 1], dest + file.rel;
    ghost var was, had := disk.now, disk.seen;
    if InstallRoom(was, dest, files) {
      WayClear(was, dest, files, i);
    }
    ok := disk.MakeDirs(parent, parent);
    Joins(before, had, disk.seen, start, was, disk.now, dest, parent);
    if !ok {
      return;
    }
    PlaceFree(was, disk.now, dest, files, i);
    RoomIsParent(disk.now.root, path);
    assert path[..|path| - 1] == parent;
    ghost var mid := disk.now;
    NextGrows(start, mid, {dest});
    if Get(disk.now.root, path).Some? {
      // A directory: no earlier file of the bundle has this path.
      return false;
    }
    had := disk.seen;
    ok := disk.WriteNew(path, file.text);
    Joins(before, had, disk.seen, start, mid, disk.now, dest, path);
    if !ok {
      return;
    }
    OneMoreInstalled(start, was, mid, disk.now, dest, files, i);
  }

  lemma OneMoreInstalled(start: State, was: State, mid: State, t: State, dest: Path, files: seq<Entry>, i: nat)
    requires ValidBundle(files) && i < |files| && PartInstalled(start, was, dest, files, i)
    requires SameFiles(was, mid) && Sound(mid) && start.next <= mid.next && NothingElse(mid, dest, files[..i + 1])
    requires Room(mid.root, dest + files[i].rel) && Get(mid.root, dest + files[i].rel) == None
    requires t == Create(mid, dest + files[i].rel, files[i].text) && Elsewhere(start, t, {dest})
    ensures PartInstalled(start, t, dest, files, i + 1)
  {
    hide Elsewhere, Get, Room, Holds, SameFiles, NothingElse, FreshFiles, Blocked, Sound, Create;
    HoldsOneMore(was, mid, t, dest, files, i);
    FileBelow(mid, t, dest, dest + files[i].rel, files[i].text);
    FileAdded(mid, t, dest, files, i);
    FreshAdded(start, was, mid, t, dest, dest + files[i].rel, files[i].text);
  }

  lemma NextGrows(s: State, t: State, ps: set<Path>)
    requires Elsewhere(s, t, ps)
    ensures s.next <= t.next
  {
  }

  // ---- Comparing ----

  /** The paths of the files under `n`. */
  ghost function FilePaths(n: Node): set<Path> {
    match n
    case File(_) => {[]}
    case Dir(kids) => set k, q | k in kids && q in FilePaths(kids[k]) :: [k] + q
  }

  lemma {:induction false} FilePathsAreFiles(n: Node, q: Path)
    ensures q in FilePaths(n) <==> IsFile(n, q)
    decreases |q|
  {
    if n.Dir? && q != [] {
      assert q == [q[0]] + q[1..];
      if q[0] in n.kids {
        FilePathsAreFiles(n.kids[q[0]], q[1..]);
      }
      if q in FilePaths(n) {
        var k, r :| k in n.kids && r in FilePaths(n.kids[k]) && q == [k] + r;
        assert k == q[0] && r == q[1..];
      }
    }
  }

  /** The files under the entries of `n` that are in `names`. */
  ghost function PathsIn(n: Node, names: set<string>): set<Path> {
    set q | q in FilePaths(n) && q != [] && q[0] in names
  }

  lemma PathsOfOne(n: Node, k: string)
    requires n.Dir? && k in n.kids
    ensures |PathsIn(n, {k})| == |FilePaths(n.kids[k])|
  {
    var below := FilePaths(n.kids[k]);
    Prefixed(below, k);
    assert PathsIn(n, {k}) == set q | q in below :: [k] + q by {
      forall p
        ensures p in PathsIn(n, {k}) <==> p in (set q | q in below :: [k] + q)
      {
        if p in PathsIn(n, {k}) {
          var j, r :| j in n.kids && r in FilePaths(n.kids[j]) && p == [j] + r;
          assert p[0] == j == k && r in below;
        }
      }
    }
  }

  lemma {:induction false} Prefixed(paths: set<Path>, k: string)
    ensures |set q | q in paths :: [k] + q| == |paths|
  {
    if paths != {} {
      var p :| p in paths;
      Prefixed(paths - {p}, k);
      var rest := set q | q in paths - {p} :: [k] + q;
      assert (set q | q in paths :: [k] + q) == rest + {[k] + p};
      forall q | q in paths - {p}
        ensures [k] + q != [k] + p
      {
        assert ([k] + q)[1..] == q && ([k] + p)[1..] == p;
      }
    }
  }

  lemma PathsOneMore(n: Node, names: set<string>, k: string)
    requires n.Dir? && k in n.kids && k !in names
    ensures |PathsIn(n, names + {k})| == |PathsIn(n, names)| + |FilePaths(n.kids[k])|
  {
    hide FilePaths;
    PathsOfOne(n, k);
    assert PathsIn(n, names + {k}) == PathsIn(n, names) + PathsIn(n, {k});
  }

  lemma AllPathsIn(n: Node)
    requires n.Dir?
    ensures PathsIn(n, n.kids.Keys) == FilePaths(n) && PathsIn(n, {}) == {}
  {
  }

  /** `installed_file_count`: a directory that cannot be read counts as empty, a file it was asked
      about too. */
  method InstalledFileCount(n: Option<Node>) returns (count: nat)
    ensures count == if n.Some? && n.value.Dir? then |FilePaths(n.value)| else 0
  {
    count := 0;
    if n.Some? && n.value.Dir? {
      count := CountDir(n.value);
    }
  }

  method CountDir(dir: Node) returns (count: nat)
    requires dir.Dir?
    ensures count == |FilePaths(dir)|
    decreases dir
  {
    hide FilePaths, PathsIn;
    var names := dir.kids.Keys;
    ghost var counted: set<string> := {};
    AllPathsIn(dir);
    count := 0;
    while names != {}
      invariant names <= dir.kids.Keys && counted == dir.kids.Keys - names
      invariant count == |PathsIn(dir, counted)|
      decreases |names|
    {
      var k :| k in names;
      var more := 1;
      if dir.kids[k].Dir? {
        more := CountDir(dir.kids[k]);
      } else {
        OneFile(dir.kids[k]);
      }
      PathsOneMore(dir, counted, k);
      count := count + more;
      counted := counted + {k};
      names := names - {k};
    }
    assert counted == dir.kids.Keys;
  }

  lemma OneFile(n: Node)
    requires n.File?
    ensures |FilePaths(n)| == 1
  {
  }

  ghost function Rels(files: seq<Entry>): set<Path> {
    set i | 0 <= i < |files| :: files[i].rel
  }

  lemma {:induction false} RelsCount(files: seq<Entry>)
    requires forall i, j :: 0 <= i < j < |files| ==> files[i].rel != files[j].rel
    ensures |Rels(files)| == |files|
  {
    if files != [] {
      var most, last := files[..|files| - 1], files[|files| - 1];
      RelsCount(most);
      assert Rels(files) == Rels(most) + {last.rel};
      assert last.rel !in Rels(most);
    }
  }

  /** `matches_bundled`: every file the bundle ships is there with its text, and there are no more
      files than that outside `legacy/`. Counting suffices, and the count under `legacy/` never
      exceeds the whole. */
  method MatchesBundled(s: State, agent: Agent, agentsDir: Path) returns (same: bool)
    requires Sound(s) && ValidBundle(agent.files)
    ensures same <==> Intact(s, agentsDir + [agent.name], agent.files)
  {
    var dest := agentsDir + [agent.name];
    var i := 0;
    while i < |agent.files|
      invariant i <= |agent.files|
      invariant forall j :: 0 <= j < i ==> ReadText(s, dest + agent.files[j].rel) == Some(agent.files[j].text)
    {
      if ReadText(s, dest + agent.files[i].rel) != Some(agent.files[i].text) {
        OneDiffers(s, dest, agent.files, i);
        return false;
      }
      i := i + 1;
    }
    var here := Get(s.root, dest);
    HasDirectory(s, dest, agent.files);
    var legacy := Get(s.root, dest + [LEGACY]);
    EntryOf(s.root, dest, here.value, LEGACY);
    var kept := InstalledFileCount(legacy);
    var all := InstalledFileCount(here);
    CountsApart(here.value);
    same := all - kept == |agent.files|;
    Pigeonhole(s, dest, here.value, agent.files);
  }

  lemma OneDiffers(s: State, dest: Path, files: seq<Entry>, i: nat)
    requires ValidBundle(files) && i < |files| && ReadText(s, dest + files[i].rel) != Some(files[i].text)
    ensures !Intact(s, dest, files)
  {
    assert !KeptAside(files[i].rel);
    assert BundleText(files, files[i].rel) == Some(files[i].text);
  }

  lemma HasDirectory(s: State, dest: Path, files: seq<Entry>)
    requires ValidBundle(files)
    requires forall j :: 0 <= j < |files| ==> ReadText(s, dest + files[j].rel) == Some(files[j].text)
    ensures IsDir(s.root, dest)
  {
    assert ReadText(s, dest + files[0].rel).Some?;
    GetUnder(s.root, dest, files[0].rel);
  }

  ghost function Outside(n: Node): set<Path> {
    set q | q in FilePaths(n) && !KeptAside(q)
  }

  /** A file is found through the first name of its path: that name is the file, or a directory. */
  lemma Through(n: Node, q: Path)
    requires q != [] && IsFile(n, q)
    ensures n.Dir? && q[0] in n.kids && (n.kids[q[0]].File? <==> |q| == 1)
  {
    assert Get(n, q) == Get(n.kids[q[0]], q[1..]);
  }

  lemma CountsApart(n: Node)
    requires n.Dir?
    ensures var kept := if LEGACY in n.kids && n.kids[LEGACY].Dir? then |FilePaths(n.kids[LEGACY])| else 0;
            |FilePaths(n)| == |Outside(n)| + kept
  {
    hide FilePaths;
    var inside := set q | q in FilePaths(n) && KeptAside(q);
    assert FilePaths(n) == Outside(n) + inside;
    if LEGACY in n.kids && n.kids[LEGACY].Dir? {
      PathsOfOne(n, LEGACY);
      forall q | q in FilePaths(n) && q != [] && q[0] == LEGACY
        ensures |q| > 1
      {
        FilePathsAreFiles(n, q);
        Through(n, q);
      }
      assert inside == PathsIn(n, {LEGACY});
    } else {
      forall q | q in FilePaths(n)
        ensures !KeptAside(q)
      {
        FilePathsAreFiles(n, q);
        if q != [] {
          Through(n, q);
        }
      }
      assert inside == {};
    }
  }

  lemma Pigeonhole(s: State, dest: Path, n: Node, files: seq<Entry>)
    requires Sound(s) && ValidBundle(files) && Get(s.root, dest) == Some(n) && n.Dir?
    requires forall j :: 0 <= j < |files| ==> ReadText(s, dest + files[j].rel) == Some(files[j].text)
    ensures |Outside(n)| == |files| <==> Intact(s, dest, files)
  {
    RelsCount(files);
    forall q
      ensures q in FilePaths(n) <==> ReadText(s, dest + q).Some?
    {
      FilePathsAreFiles(n, q);
      GetUnder(s.root, dest, q);
      if Get(n, q).Some? {
        InosOfGet(s.root, dest);
        InosOfGet(n, q);
        if Get(n, q).value.File? {
          assert Get(n, q).value.ino in Inos(s.root);
        }
      }
    }
    assert Rels(files) <= Outside(n);
    if |Outside(n)| == |files| {
      SameSize(Rels(files), Outside(n));
      forall q | !KeptAside(q)
        ensures ReadText(s, dest + q) == BundleText(files, q)
      {
        assert q in Outside(n) <==> q in Rels(files);
      }
    }
    if Intact(s, dest, files) {
      assert Outside(n) == Rels(files) by {
        forall q
          ensures q in Outside(n) <==> q in Rels(files)
        {
          if !KeptAside(q) {
            assert ReadText(s, dest + q) == BundleText(files, q);
          }
        }
      }
    }
  }

  // ---- What setup offers ----

  /** `plan_agent_actions` for one blueprint; `readVersion` is the reader of a manifest's version. */
  method PlanAction(s: State, agent: Agent, agentsDir: Path, readVersion: string -> Option<string>)
    returns (action: AgentAction)
    requires Sound(s) && ValidBundle(agent.files)
    ensures action == PlannedAction(s, agent, agentsDir, readVersion)
  {
    var text := ReadText(s, agentsDir + [agent.name] + [MANIFEST]);
    var installed := if text.Some? then readVersion(text.value) else None;
    if installed.None? {
      return Install;
    }
    if installed.value != agent.version {
      return Update(installed.value);
    }
    var same := MatchesBundled(s, agent, agentsDir);
    return if same then UpToDate else Modified;
  }

  ghost function PlannedAction(s: State, agent: Agent, agentsDir: Path, readVersion: string -> Option<string>)
    : AgentAction
  {
    var text := ReadText(s, agentsDir + [agent.name] + [MANIFEST]);
    var installed := if text.Some? then readVersion(text.value) else None;
    if installed.None? then Install
    else if installed.value != agent.version then Update(installed.value)
    else if Intact(s, agentsDir + [agent.name], agent.files) then UpToDate
    else Modified
  }

  /** The manifest in `dir` is there and states this version. */
  ghost predicate StatesVersion(s: State, dir: Path, readVersion: string -> Option<string>, version: string) {
    exists text :: ReadText(s, dir + [MANIFEST]) == Some(text) && readVersion(text) == Some(version)
  }

  /** What each answer means: nothing installed that states a version; another version; or the bundle's,
      with every file outside `legacy/` the bundle's, or not. */
  lemma ActionMeans(s: State, agent: Agent, agentsDir: Path, readVersion: string -> Option<string>)
    ensures var action, dir := PlannedAction(s, agent, agentsDir, readVersion), agentsDir + [agent.name];
            && (action == Install <==> forall v :: !StatesVersion(s, dir, readVersion, v))
            && (forall v :: action == Update(v) <==> StatesVersion(s, dir, readVersion, v) && v != agent.version)
            && (action == UpToDate <==>
                  StatesVersion(s, dir, readVersion, agent.version) && Intact(s, dir, agent.files))
            && (action == Modified <==>
                  StatesVersion(s, dir, readVersion, agent.version) && !Intact(s, dir, agent.files))
  {
    hide Intact, ReadText;
    var dir := agentsDir + [agent.name];
    var text := ReadText(s, dir + [MANIFEST]);
    if text.Some? && readVersion(text.value).Some? {
      assert StatesVersion(s, dir, readVersion, readVersion(text.value).value);
    }
  }

  /** The bundle's own manifest states the bundle's version. */
  ghost predicate SaysItsVersion(agent: Agent, readVersion: string -> Option<string>) {
    var text := BundleText(agent.files, [MANIFEST]);
    text.Some? && readVersion(text.value) == Some(agent.version)
  }

  /** An install is up to date exactly when its files outside `legacy/` are the bundle's: what the
      version check adds is only the name of the difference. */
  lemma UpToDateIsIntact(s: State, agent: Agent, agentsDir: Path, readVersion: string -> Option<string>)
    requires ValidBundle(agent.files) && SaysItsVersion(agent, readVersion)
    ensures PlannedAction(s, agent, agentsDir, readVersion) == UpToDate <==>
              Intact(s, agentsDir + [agent.name], agent.files)
  {
    assert !KeptAside([MANIFEST]);
    if Intact(s, agentsDir + [agent.name], agent.files) {
      assert ReadText(s, agentsDir + [agent.name] + [MANIFEST]) == BundleText(agent.files, [MANIFEST]);
    }
  }

  /** Hence a fresh install is up to date. */
  lemma InstalledIsUpToDate(s: State, agent: Agent, agentsDir: Path, readVersion: string -> Option<string>)
    requires ValidBundle(agent.files) && SaysItsVersion(agent, readVersion)
    requires Holds(s, agentsDir + [agent.name], agent.files)
    ensures PlannedAction(s, agent, agentsDir, readVersion) == UpToDate
  {
    UpToDateIsIntact(s, agent, agentsDir, readVersion);
  }
}
