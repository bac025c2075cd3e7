/** A saved run shares inodes with the run it was saved from. What the run's own files go through
    afterwards, being moved about and having their logs appended to, does not show in the copy. */
module RunAliasing {
  import opened Wrappers
  import opened Filesystem
  import opened DiskModel
  import opened Leftovers
  import opened Traces
  import opened HomeBackup

  /** What happens to a saved run's files: one is moved, or a log is appended to. */
  datatype RunOp = Move(from: Path, to: Path) | Append(log: Path, text: string)

  function Logs(run: Path): Path {
    run + ["stages"]
  }

  /** Files of the run move anywhere but into the saved copy, and into `stages/` only from there;
      only a log under `stages/` is appended to. */
  ghost predicate Allowed(s: State, op: RunOp, run: Path, dest: Path) {
    match op
    case Move(from, to) =>
      && CanRename(s.root, from, to) && run <= from
      && Apart(from, dest) && Apart(to, dest)
      && (Logs(run) <= to ==> Logs(run) <= from)
    case Append(log, _) => Logs(run) <= log && IsFile(s.root, log) && Get(s.root, log).value.ino in s.data
  }

  function AppendedTo(s: State, log: Path, text: string): State
    requires IsFile(s.root, log) && Get(s.root, log).value.ino in s.data
  {
    var ino := Get(s.root, log).value.ino;
    s.(data := s.data[ino := s.data[ino] + text])
  }

  ghost function Applied(s: State, op: RunOp, run: Path, dest: Path): State
    requires Allowed(s, op, run, dest)
  {
    match op
    case Move(from, to) => Renamed(s, from, to)
    case Append(log, text) => AppendedTo(s, log, text)
  }

  ghost function LogInos(s: State, run: Path): set<nat> {
    var logs := Get(s.root, Logs(run));
    if logs.Some? then Inos(logs.value) else {}
  }

  /** The saved copy is where it was, holds what it held, and no log leads to a file of it. */
  ghost predicate CopyKept(saved: State, s: State, run: Path, dest: Path) {
    && Sound(s)
    && Get(saved.root, dest).Some?
    && Get(s.root, dest) == Get(saved.root, dest)
    && var copy := Get(saved.root, dest).value;
       && (forall i | i in Inos(copy) :: i in saved.data && i in s.data && s.data[i] == saved.data[i])
       && LogInos(s, run) !! Inos(copy)
  }

  lemma {:induction false} DelInside(n: Node, p: Path, q: Path)
    requires q < p && Get(n, p).Some?
    ensures Get(n, q).Some? && Get(Get(n, q).value, p[|q|..]).Some?
    ensures Get(Del(n, p), q) == Some(Del(Get(n, q).value, p[|q|..]))
    decreases |q|
  {
    if q != [] {
      SamePrefix(q, p);
      DelInside(n.kids[p[0]], p[1..], q[1..]);
      assert p[1..][|q[1..]|..] == p[|q|..];
    }
  }

  lemma {:induction false} PutInside(n: Node, p: Path, x: Node, q: Path)
    requires q < p && Room(n, p)
    ensures Get(n, q).Some? && Room(Get(n, q).value, p[|q|..])
    ensures Get(Put(n, p, x), q) == Some(Put(Get(n, q).value, p[|q|..], x))
    decreases |q|
  {
    if q != [] {
      SamePrefix(q, p);
      PutInside(n.kids[p[0]], p[1..], x, q[1..]);
      assert p[1..][|q[1..]|..] == p[|q|..];
    }
  }

  /** Moving files about leaves the logs leading to no inode they did not lead to. */
  lemma MoveKeepsLogs(s: State, from: Path, to: Path, run: Path)
    requires Sound(s) && CanRename(s.root, from, to) && run <= from && (Logs(run) <= to ==> Logs(run) <= from)
    ensures LogInos(Renamed(s, from, to), run) <= LogInos(s, run)
  {
    hide Inos, LogInos;
    var logs, mid, x := Logs(run), Del(s.root, from), Get(s.root, from).value;
    RoomAfterDel(s.root, from, to);
    GetDel(s.root, from, logs);
    GetPut(mid, to, x, logs);
    assert run <= logs;
    LogInosAre(s, run);
    LogInosAre(Renamed(s, from, to), run);
    if to <= logs && to <= run {
      ShorterPrefix(to, run, from);
    }
    if logs < from {
      DelInside(s.root, from, logs);
      InosOfDel(Get(s.root, logs).value, from[|logs|..]);
      PrefixGet(s.root, logs, from);
      InosOfGet(Get(s.root, logs).value, from[|logs|..]);
      if logs < to {
        PutInside(mid, to, x, logs);
        InosOfPut(Get(mid, logs).value, to[|logs|..], x);
      }
    }
  }

  lemma LogInosAre(s: State, run: Path)
    ensures LogInos(s, run) == if Get(s.root, Logs(run)).Some? then Inos(Get(s.root, Logs(run)).value) else {}
  {
  }

  lemma StepKeepsCopy(saved: State, s: State, op: RunOp, run: Path, dest: Path)
    requires CopyKept(saved, s, run, dest) && Allowed(s, op, run, dest)
    ensures CopyKept(saved, Applied(s, op, run, dest), run, dest)
  {
    hide Inos, LogInos;
    match op
    case Move(from, to) =>
      RenameMoves(s, from, to);
      assert Clear(dest, {from, to});
      MoveKeepsLogs(s, from, to, run);
    case Append(log, text) =>
      LogInosAre(s, run);
      LogInosAre(AppendedTo(s, log, text), run);
      PrefixGet(s.root, Logs(run), log);
      InosOfGet(Get(s.root, Logs(run)).value, log[|Logs(run)|..]);
      FileIno(Get(s.root, log).value);
  }

  lemma FileIno(n: Node)
    requires n.File?
    ensures n.ino in Inos(n)
  {
  }

  ghost predicate AllAllowed(s: State, ops: seq<RunOp>, run: Path, dest: Path)
    decreases |ops|
  {
    ops == [] || (Allowed(s, ops[0], run, dest) && AllAllowed(Applied(s, ops[0], run, dest), ops[1..], run, dest))
  }

  ghost function AllApplied(s: State, ops: seq<RunOp>, run: Path, dest: Path): State
    requires AllAllowed(s, ops, run, dest)
    decreases |ops|
  {
    if ops == [] then s else AllApplied(Applied(s, ops[0], run, dest), ops[1..], run, dest)
  }

  lemma {:induction false} StepsKeepCopy(saved: State, s: State, ops: seq<RunOp>, run: Path, dest: Path)
    requires CopyKept(saved, s, run, dest) && AllAllowed(s, ops, run, dest)
    ensures CopyKept(saved, AllApplied(s, ops, run, dest), run, dest)
    decreases |ops|
  {
    if ops != [] {
      StepKeepsCopy(saved, s, ops[0], run, dest);
      StepsKeepCopy(saved, Applied(s, ops[0], run, dest), ops[1..], run, dest);
    }
  }

  /** When it is made, the copy shares no inode with a log: logs are copied, and what is linked is
      no log, unless the run itself had a log and another file in one inode. */
  lemma SavedRunSharesNoLog(start: State, saved: State, run: Path, dest: Path)
    requires Sound(start) && Sound(saved) && WholeCopy(start, run, Linking(Logs(run)), saved, dest)
    requires Get(saved.root, run) == Get(start.root, run)
    requires LogInos(start, run) !! Linkable(Linking(Logs(run)), run, Get(start.root, run).value)
    ensures CopyKept(saved, saved, run, dest)
  {
    var n, m := Get(start.root, run).value, Get(saved.root, dest).value;
    CopiedInos(n, m, start, saved, Linkable(Linking(Logs(run)), run, n));
    assert Logs(run) == run + ["stages"];
    GetUnder(start.root, run, ["stages"]);
    GetUnder(saved.root, run, ["stages"]);
    if Get(start.root, Logs(run)).Some? {
      InosOfGet(start.root, Logs(run));
    }
  }

  /** What `save_run` promises: however many moves and appends follow, and whichever files were
      linked and whichever copied, every file of the saved run reads as it did. */
  lemma SavedRunStays(start: State, saved: State, run: Path, dest: Path, ops: seq<RunOp>, q: Path)
    requires Sound(start) && Sound(saved) && WholeCopy(start, run, Linking(Logs(run)), saved, dest)
    requires Get(saved.root, run) == Get(start.root, run)
    requires LogInos(start, run) !! Linkable(Linking(Logs(run)), run, Get(start.root, run).value)
    requires AllAllowed(saved, ops, run, dest)
    ensures ReadText(AllApplied(saved, ops, run, dest), dest + q) == ReadText(saved, dest + q)
  {
    SavedRunSharesNoLog(start, saved, run, dest);
    StepsKeepCopy(saved, saved, ops, run, dest);
    var t := AllApplied(saved, ops, run, dest);
    GetUnder(saved.root, dest, q);
    GetUnder(t.root, dest, q);
    if IsFile(saved.root, dest + q) {
      InosOfGet(Get(saved.root, dest).value, q);
      FileIno(Get(saved.root, dest + q).value);
    }
  }

  /** `save_run`: a run that is saved whole reads in the backup as it did when it was saved, whatever
      moves and appends follow, as long as no log of it was also another of its files. It is saved whole
      unless something harmful an earlier process of the same id left was there all the while, and a
      step soiled the copy; and over what was there when copying began, it is whole exactly when that
      was directories the run has and links to empty files of it. Something harmful was there only if
      the call to remove it failed. */
  method SaveRun(disk: Disk, b: Backup, run: Path, pid: string, about: string)
    returns (ok: bool, ghost clean: bool, ghost begun: Option<nat>, ghost struck: nat)
    requires disk.Valid() && run != [] && Apart(run, b.dir) && Get(disk.now.root, SavedAt(b, run)) == None
    modifies disk
    ensures disk.Valid() && disk.hits >= old(disk.hits) && old(disk.seen) <= disk.seen
    ensures clean <==> !Harmful(disk.seen, begun, |disk.seen|, b, run, RunRel(run), pid)
    ensures begun.Some? ==>
              && |old(disk.seen)| <= begun.value + 1 && struck <= disk.hits
              && BeganIn(disk.seen, old(disk.now), begun.value, b, run, RunRel(run), pid, old(disk.hits), struck)
              && exists e: nat :: CopyTrace(disk.seen, begun.value, e, run, PartialAt(b, run, pid), SavedAt(b, run))
    ensures clean || (disk.hits > old(disk.hits) && IsDir(old(disk.now).root, PartialAt(b, run, pid)))
    ensures ok || disk.hits > old(disk.hits) || !SaveRoom(old(disk.now), b, run, RunRel(run), pid)
    ensures ok ==>
              && begun.Some? && begun.value < |disk.seen|
              && (LeftSame(disk.seen[begun.value], run, Linking(Logs(run)), PartialAt(b, run, pid))
                  <==> WholeCopy(disk.seen[begun.value], run, Linking(Logs(run)), disk.now, SavedAt(b, run)))
    ensures ok && disk.hits == old(disk.hits) ==> AllLinked(old(disk.now), disk.now, run, SavedAt(b, run))
    ensures RunSoiled(disk.seen, |old(disk.seen)| - 1, b, run, pid) ==> !clean
    ensures ok && !RunSoiled(disk.seen, |old(disk.seen)| - 1, b, run, pid) ==>
              && WholeCopy(old(disk.now), run, Linking(Logs(run)), disk.now, SavedAt(b, run))
              && (LogsAreLogs(old(disk.now), run) ==>
                    forall ops, q :: AllAllowed(disk.now, ops, run, SavedAt(b, run)) ==>
                      ReadText(AllApplied(disk.now, ops, run, SavedAt(b, run)), SavedAt(b, run) + q)
                      == ReadText(disk.now, SavedAt(b, run) + q))
  {
    hide Get, Inos, Partial, Place, Readme, SaveRoom, LeftHarmless, SourceAfter, WholeCopy, LogInos, CopyTrace;
    hide Linkable, Elsewhere, Apart, Harmful, LeftSame, SoiledIn, LeftIsIn, Spare, LeftFits, Alike;
    ghost var start, from, dest := disk.now, |disk.seen| - 1, SavedAt(b, run);
    ok, clean, begun, struck := Save(disk, b, run, RunRel(run), Linking(Logs(run)), pid, about);
    if begun.Some? {
      ghost var e: nat :| CopyTrace(disk.seen, begun.value, e, run, Partial(b, RunRel(run), pid),
                                    Place(b, RunRel(run)));
      assert CopyTrace(disk.seen, begun.value, e, run, PartialAt(b, run, pid), SavedAt(b, run));
    }
    if ok && disk.hits == old(disk.hits) {
      NothingFailedLinks(disk.seen, start, disk.now, begun.value, b, run, pid, disk.hits);
    }
    if ok && !RunSoiled(disk.seen, from, b, run, pid) {
      assert disk.seen[from] == start;
      SavedClean(disk.seen, from, b, run, pid);
      if LogsAreLogs(start, run) {
        forall ops, q | AllAllowed(disk.now, ops, run, dest)
          ensures ReadText(AllApplied(disk.now, ops, run, dest), dest + q) == ReadText(disk.now, dest + q)
        {
          SavedRunStays(start, disk.now, run, dest, ops, q);
        }
      }
    }
  }

  /** Every file in the run's directory but its stage logs is linked, not copied. */
  ghost predicate AllLinked(s: State, t: State, run: Path, dest: Path) {
    forall q :: q != [] && IsFile(s.root, run + q) && !(run + ["stages"] <= run + q) ==>
      Get(t.root, dest + q) == Get(s.root, run + q)
  }

  /** Where no call failed nothing was in the way, and whatever may be linked is. */
  lemma NothingFailedLinks(seen: seq<State>, start: State, t: State, begun: nat, b: Backup, run: Path, pid: string,
                           hits: nat)
    requires run != [] && BeganIn(seen, start, begun, b, run, RunRel(run), pid, hits, hits)
    requires LinksIn(seen[begun], t, run, PartialAt(b, run, pid), SavedAt(b, run), Linking(Logs(run)))
    ensures AllLinked(start, t, run, SavedAt(b, run))
  {
    var s, partial := seen[begun], PartialAt(b, run, pid);
    hide LeftIsIn, Partial, Elsewhere, LeftSame;
    forall q | q != [] && IsFile(start.root, run + q) && !(run + ["stages"] <= run + q)
      ensures Get(t.root, SavedAt(b, run) + q) == Get(start.root, run + q)
    {
      GetUnder(start.root, run, q);
      GetUnder(s.root, run, q);
      GetUnder(s.root, partial, q);
    }
  }

  /** A step soiled the run's copy. */
  ghost predicate RunSoiled(seen: seq<State>, from: nat, b: Backup, run: Path, pid: string)
    requires run != [] && seen != []
  {
    SoiledIn(seen, from, |seen| - 1, run, PartialAt(b, run, pid), SavedAt(b, run))
  }

  lemma SavedClean(seen: seq<State>, from: nat, b: Backup, run: Path, pid: string)
    requires run != [] && Apart(run, b.dir) && from < |seen| && !RunSoiled(seen, from, b, run, pid)
    requires TurnTrace(seen, from, SavePlan(b, run, RunRel(run), pid), Linking(Logs(run)))
    requires Get(seen[from].root, SavedAt(b, run)) == None && Get(seen[|seen| - 1].root, SavedAt(b, run)).Some?
    ensures var s, t := seen[from], seen[|seen| - 1];
            && WholeCopy(s, run, Linking(Logs(run)), t, SavedAt(b, run))
            && Get(s.root, run).Some? && Get(t.root, run) == Get(s.root, run)
  {
    PlacesClearOfAll(b, run, RunRel(run), pid);
    assert TurnState(seen, from, |seen| - 1, SavePlan(b, run, RunRel(run), pid), Linking(Logs(run)));
    hide SoiledIn, Get, Sound, Linkable;
  }

  /** Where in the backup a run goes. */
  function RunRel(run: Path): (rel: Path)
    requires run != []
    ensures ItemPlace(rel)
  {
    ["runs", run[|run| - 1]]
  }

  function SavedAt(b: Backup, run: Path): Path
    requires run != []
  {
    Place(b, RunRel(run))
  }

  /** It goes under `runs/` by its name, so two runs of one directory share a place only if they are one. */
  lemma RunPlaces(b: Backup, home: Path, name: string, other: string)
    ensures SavedAt(b, home + [name]) == b.dir + ["runs", name]
    ensures SavedAt(b, home + [name]) == SavedAt(b, home + [other]) <==> name == other
  {
    var x, y := ["runs", name], ["runs", other];
    assert (b.dir + x)[|b.dir|..] == x && (b.dir + y)[|b.dir|..] == y;
    assert x[1] == name && y[1] == other;
  }

  /** The name a run's copy is made under. */
  function PartialAt(b: Backup, run: Path, pid: string): Path
    requires run != []
  {
    Partial(b, RunRel(run), pid)
  }

  /** No log of the run leads to a file of it that may be linked. */
  ghost predicate LogsAreLogs(s: State, run: Path) {
    Get(s.root, run).Some? ==> LogInos(s, run) !! Linkable(Linking(Logs(run)), run, Get(s.root, run).value)
  }

  /** What an append shows in, exactly: the copy reads as it did if and only if the file appended to
      is none of its own, or nothing was appended. */
  lemma AppendShowsIff(s: State, log: Path, text: string, dest: Path)
    requires Sound(s) && IsFile(s.root, log) && Get(s.root, log).value.ino in s.data && Get(s.root, dest).Some?
    ensures (forall q :: ReadText(AppendedTo(s, log, text), dest + q) == ReadText(s, dest + q))
            <==> (Get(s.root, log).value.ino !in Inos(Get(s.root, dest).value) || text == "")
  {
    var ino, copy, t := Get(s.root, log).value.ino, Get(s.root, dest).value, AppendedTo(s, log, text);
    if ino !in Inos(copy) || text == "" {
      forall q
        ensures ReadText(t, dest + q) == ReadText(s, dest + q)
      {
        GetUnder(s.root, dest, q);
        if IsFile(s.root, dest + q) {
          InosOfGet(copy, q);
          FileIno(Get(s.root, dest + q).value);
        }
        assert text == "" ==> s.data[ino] + text == s.data[ino];
      }
    } else {
      var q := InoHasPath(copy, ino);
      GetUnder(s.root, dest, q);
      InosOfGet(s.root, dest + q);
      assert ReadText(t, dest + q) == Some(s.data[ino] + text);
      assert |s.data[ino] + text| > |s.data[ino]|;
    }
  }

  // ---- Why nothing is moved into `stages/` ----

  function RunDir(): Node {
    Dir(map["meta" := File(0), "stages" := Dir(map[])])
  }

  function SavedDir(): Node {
    Dir(map["meta" := File(0)])
  }

  function Shared(): State {
    State(Dir(map["run" := RunDir(), "saved" := SavedDir()]), map[0 := "old"], 1)
  }

  lemma SharedGets()
    ensures var n := Shared().root;
            && Get(n, ["run"]) == Some(RunDir()) && Get(n, ["saved"]) == Some(SavedDir())
            && Get(n, ["run", "meta"]) == Some(File(0)) && Get(n, ["saved", "meta"]) == Some(File(0))
            && Get(n, ["run", "stages"]) == Some(Dir(map[])) && Get(n, ["run", "stages", "meta"]) == None
            && CanRename(n, ["run", "meta"], ["run", "stages", "meta"])
  {
    var n := Shared().root;
    EntryOf(n, [], n, "run");
    EntryOf(n, [], n, "saved");
    EntryOf(n, ["run"], RunDir(), "meta");
    EntryOf(n, ["run"], RunDir(), "stages");
    EntryOf(n, ["saved"], SavedDir(), "meta");
    EntryOf(n, ["run", "stages"], Dir(map[]), "meta");
    assert [] + ["run"] == ["run"] && [] + ["saved"] == ["saved"];
    assert ["run"] + ["meta"] == ["run", "meta"] && ["run"] + ["stages"] == ["run", "stages"];
    assert ["saved"] + ["meta"] == ["saved", "meta"] && ["run", "stages"] + ["meta"] == ["run", "stages", "meta"];
    RoomIsParent(n, ["run", "stages", "meta"]);
    assert ["run", "stages", "meta"][..2] == ["run", "stages"];
  }

  lemma SharedInos()
    ensures Sound(Shared()) && Inos(Dir(map[])) == {}
    ensures 0 in Inos(SavedDir()) && Inos(SavedDir()) <= {0}
  {
    assert Inos(RunDir()) <= {0};
    assert SavedDir().kids["meta"] == File(0);
    assert 0 in Inos(SavedDir().kids["meta"]);
  }

  /** A run whose log directory is empty, whose copy is kept as the promise asks, and in which one
      file is moved into `stages/` and appended to there: the copy then reads otherwise. */
  lemma MovedIntoStagesShows()
    ensures var s, run, dest, from, to := Shared(), ["run"], ["saved"], ["run", "meta"], ["run", "stages", "meta"];
            && CopyKept(s, s, run, dest)
            && CanRename(s.root, from, to) && run <= from && Logs(run) <= to
            && var moved := Renamed(s, from, to);
               && IsFile(moved.root, to) && Get(moved.root, to).value.ino in moved.data
               && exists q :: ReadText(AppendedTo(moved, to, "more"), dest + q) != ReadText(s, dest + q)
  {
    hide Inos, Get, CanRename, Renamed;
    var s, run, dest, from, to := Shared(), ["run"], ["saved"], ["run", "meta"], ["run", "stages", "meta"];
    SharedGets();
    SharedInos();
    LogInosAre(s, run);
    assert Logs(run) == ["run", "stages"];
    RenameMoves(s, from, to);
    var moved := Renamed(s, from, to);
    assert from[0] == to[0] == "run" && dest[0] == "saved" && |from[0]| != |dest[0]|;
    assert Apart(from, dest) && Apart(to, dest);
    assert Clear(dest, {from, to}) && Get(moved.root, dest) == Some(SavedDir());
    AppendShowsIff(moved, to, "more", dest);
    TextsMove(s, moved, dest);
  }

  lemma TextsMove(s: State, t: State, dest: Path)
    requires Sound(s) && Grows(s.data, t.data) && Get(s.root, dest).Some? && Get(t.root, dest) == Get(s.root, dest)
    ensures forall q :: ReadText(t, dest + q) == ReadText(s, dest + q)
  {
    forall q
      ensures ReadText(t, dest + q) == ReadText(s, dest + q)
    {
      GetUnder(s.root, dest, q);
      GetUnder(t.root, dest, q);
      if IsFile(s.root, dest + q) {
        InosOfGet(s.root, dest + q);
        FileIno(Get(s.root, dest + q).value);
      }
    }
  }
}
