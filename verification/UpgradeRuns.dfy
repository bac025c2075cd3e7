/** Whole runs of the upgrade: each blueprint saved, then changed; processes that die and start
    again; and what the backup holds throughout. */
module UpgradeRuns {
  import opened Wrappers
  import opened Filesystem
  import opened DiskModel
  import opened Leftovers
  import opened Traces
  import opened HomeBackup
  import opened Turns
  import opened Bundled
  import opened BlueprintUpgrade
  import Decimal

  datatype Outcome = Migrated | Reinstalled | Failed

  /** An old blueprint: the directory it was found in, its own, and whether it is an install. */
  datatype Item = Item(parent: Path, src: Path, installed: bool)

  /** What the upgrade asks of code it calls: a digest of a path, the converter and the rewriter of
      manifests, and the blueprints this build ships. */
  datatype Tools = Tools(digest: Path -> string, convert: string -> Option<string>, reform: string -> Option<string>,
                         bundle: seq<Agent>)

  function NameOf(src: Path): string
    requires src != []
  {
    src[|src| - 1]
  }

  /** Where in the backup a blueprint goes. */
  function RelOf(src: Path, agentsDir: Option<Path>, digest: Path -> string): (rel: Path)
    requires src != []
    ensures ItemPlace(rel)
  {
    var parent := src[..|src| - 1];
    if agentsDir == Some(parent) then ["agents", NameOf(src)] else ["agent_paths", NameOf(src) + "-" + digest(parent)]
  }

  function BundledNamed(bundle: seq<Agent>, name: string): (r: Option<Agent>)
    ensures r.Some? ==> r.value in bundle && r.value.name == name
    ensures r.None? ==> forall a | a in bundle :: a.name != name
  {
    if bundle == [] then None
    else if bundle[0].name == name then Some(bundle[0])
    else BundledNamed(bundle[1..], name)
  }

  predicate IsLeviath(s: State, dir: Path) {
    IsFile(s.root, dir + [OLD_MANIFEST]) && Get(s.root, dir + [MANIFEST]).None?
  }

  /** What upgrading one item may change. */
  ghost function Reach(b: Backup, item: Item, tools: Tools, rel: Path, pid: string): set<Path>
    requires item.src != [] && rel != []
  {
    {Readme(b), Partial(b, rel, pid), Place(b, rel)} + Working(item, tools, pid)
  }

  /** The bundled blueprint that takes an install's place. */
  function Replacement(item: Item, tools: Tools): Option<Agent>
    requires item.src != []
  {
    if item.installed then BundledNamed(tools.bundle, NameOf(item.src)) else None
  }

  /** An install, and no other blueprint, gives way to the bundled one of its name, if there is one. */
  lemma ReplacementIs(item: Item, tools: Tools)
    requires item.src != []
    ensures Replacement(item, tools).Some? <==>
              item.installed && exists a | a in tools.bundle :: a.name == item.src[|item.src| - 1]
    ensures Replacement(item, tools).Some? ==>
              Replacement(item, tools).value in tools.bundle
              && Replacement(item, tools).value.name == item.src[|item.src| - 1]
  {
  }

  /** Only a reinstall works beside the blueprint. */
  ghost function Working(item: Item, tools: Tools, pid: string): set<Path>
    requires item.src != []
  {
    {item.src}
    + if Replacement(item, tools).Some? then {Staging(item.parent, NameOf(item.src), pid),
                                              Aside(item.parent, NameOf(item.src), pid)} else {}
  }

  /** What is so of an item whatever the disk holds: it is not in the backup, nor the backup in it; and
      an install that a bundled blueprint replaces is named after it, in a directory of which the same
      is so. */
  ghost predicate ItemFits(b: Backup, item: Item, tools: Tools) {
    && item.src != []
    && Apart(item.src, b.dir)
    && (forall a | a in tools.bundle :: ValidBundle(a.files))
    && (Replacement(item, tools).Some? ==> item.src == item.parent + [NameOf(item.src)] && Apart(item.parent, b.dir))
  }

  /** What upgrading an item needs, when no call fails by chance. */
  ghost predicate UpgradeRoom(s: State, item: Item, tools: Tools, pid: string)
    requires item.src != []
  {
    var bundled := Replacement(item, tools);
    if bundled.Some? then ReinstallRoom(s, item.parent, bundled.value, pid)
    else if IsLeviath(s, item.src) then MigrationEnd(s, item.src, tools.convert) == Done
    else RewriteRoom(s, item.src, tools.reform)
  }

  lemma PlacesClear(b: Backup, item: Item, tools: Tools, rel: Path, pid: string)
    requires ItemFits(b, item, tools) && ItemPlace(rel)
    ensures Clear(Place(b, rel), Working(item, tools, pid))
  {
    var dest := Place(b, rel);
    assert item.src + [] == item.src;
    ApartBelow(item.src, b.dir, [], rel);
    if Replacement(item, tools).Some? {
      ApartBelow(item.parent, b.dir, ["." + NameOf(item.src) + ".upgrading-" + pid], rel);
      ApartBelow(item.parent, b.dir, ["." + NameOf(item.src) + ".old-" + pid], rel);
    }
  }

  /** What came of an item that was saved, between two states: an install gave way to a new one, or
      the manifest was migrated, or rewritten; or none of it, with what that leaves. */
  ghost predicate Upgraded(s: State, t: State, item: Item, tools: Tools, pid: string, r: Outcome)
    requires item.src != []
  {
    var bundled := Replacement(item, tools);
    if bundled.Some? then exists answer :: InstallCame(s, t, item.parent, bundled.value, pid, answer, r)
    else r != Reinstalled && ManifestCame(s, t, item.src, tools, r == Migrated)
  }

  ghost predicate InstallCame(s: State, t: State, parent: Path, agent: Agent, pid: string,
                              answer: Result<(), Option<Path>>, r: Outcome) {
    ReinstallAnswers(s, t, parent, agent, pid, answer) && r == if answer.Ok? then Reinstalled else Failed
  }

  ghost predicate ManifestCame(s: State, t: State, src: Path, tools: Tools, ok: bool) {
    if IsFile(s.root, src + [OLD_MANIFEST]) && Get(s.root, src + [MANIFEST]) == None then
      exists step :: MigrationAnswers(s, t, src, tools.convert, ok, step)
    else exists kept, step :: RewriteAnswers(s, t, src, tools.reform, kept, ok, step)
  }

  /** Once it is saved, a blueprint is changed by one of the three ways to upgrade it. */
  method UpgradeOne(disk: Disk, b: Backup, item: Item, tools: Tools, pid: string) returns (r: Outcome)
    requires disk.Valid() && ItemFits(b, item, tools)
    modifies disk
    ensures disk.Valid() && disk.hits >= old(disk.hits)
    ensures OnlyAt(old(disk.seen), disk.seen, old(disk.now), Working(item, tools, pid))
    ensures Elsewhere(old(disk.now), disk.now, Working(item, tools, pid))
    ensures r != Failed || disk.hits > old(disk.hits) || !UpgradeRoom(old(disk.now), item, tools, pid)
    ensures Upgraded(old(disk.now), disk.now, item, tools, pid, r)
  {
    hide Elsewhere, Get, Inos, Clear, NotUnder, Staging, Aside, Count, AllSound, ReinstallRoom, RewriteEnd;
    hide ReinstallAnswers, RewriteAnswers;
    hide MigrationEnd, Apart;
    ghost var start, had := disk.now, disk.seen;
    var bundled := Replacement(item, tools);
    if bundled.Some? {
      var answer := Reinstall(disk, item.parent, bundled.value, pid);
      assert Working(item, tools, pid)
          == {item.src, Staging(item.parent, NameOf(item.src), pid), Aside(item.parent, NameOf(item.src), pid)};
      r := if answer.Ok? then Reinstalled else Failed;
      assert InstallCame(start, disk.now, item.parent, bundled.value, pid, answer, r);
      return;
    }
    var ok;
    if IsLeviath(disk.now, item.src) {
      ghost var step;
      ok, step := Migrate(disk, item.src, tools.convert);
      forall i | |had| <= i < |disk.seen| ensures Elsewhere(start, disk.seen[i], Working(item, tools, pid)) {
        InsideBlueprint(start, disk.seen[i], item, tools, pid,
                        {Kept(item.src), item.src + [MANIFEST], item.src + [OLD_MANIFEST]});
      }
      InsideBlueprint(start, disk.now, item, tools, pid, {Kept(item.src), item.src + [MANIFEST],
                item.src + [OLD_MANIFEST]});
    } else {
      ghost var kept, step;
      ok, kept, step := Rewrite(disk, item.src, tools.reform);
      KeptInside(start, disk.now, item.src, tools.reform, kept, ok, step);
      forall i | |had| <= i < |disk.seen| ensures Elsewhere(start, disk.seen[i], Working(item, tools, pid)) {
        InsideBlueprint(start, disk.seen[i], item, tools, pid, {item.src + [MANIFEST], kept});
      }
      InsideBlueprint(start, disk.now, item, tools, pid, {item.src + [MANIFEST], kept});
    }
    assert ManifestCame(start, disk.now, item.src, tools, ok);
    return if ok then Migrated else Failed;
  }

  lemma KeptInside(s: State, t: State, src: Path, reform: string -> Option<string>, kept: Path, ok: bool,
                   step: UpgradeStep)
    requires RewriteAnswers(s, t, src, reform, kept, ok, step)
    ensures src <= kept && (ok <==> step == Done)
  {
    assert src <= Kept(src) <= kept;
  }

  lemma InsideBlueprint(start: State, t: State, item: Item, tools: Tools, pid: string, ps: set<Path>)
    requires item.src != [] && Elsewhere(start, t, ps) && forall p | p in ps :: item.src <= p
    ensures Elsewhere(start, t, Working(item, tools, pid))
  {
    hide Elsewhere;
    assert item.src in Working(item, tools, pid);
    ElsewhereWider(start, t, ps, Working(item, tools, pid));
  }

  // ---- One turn ----

  /** The name an item's copy is made under. */
  ghost function PartialOf(b: Backup, item: Item, agentsDir: Option<Path>, tools: Tools, pid: string): Path
    requires item.src != []
  {
    Partial(b, RelOf(item.src, agentsDir, tools.digest), pid)
  }

  ghost function DestOf(b: Backup, item: Item, agentsDir: Option<Path>, tools: Tools): Path
    requires item.src != []
  {
    Place(b, RelOf(item.src, agentsDir, tools.digest))
  }

  ghost function ReachOf(b: Backup, item: Item, agentsDir: Option<Path>, tools: Tools, pid: string): set<Path>
    requires item.src != []
  {
    Reach(b, item, tools, RelOf(item.src, agentsDir, tools.digest), pid)
  }

  /** The turn of one item. */
  ghost function PlanOf(b: Backup, item: Item, agentsDir: Option<Path>, tools: Tools, pid: string): Plan
    requires item.src != []
  {
    Plan(item.src, DestOf(b, item, agentsDir, tools), PartialOf(b, item, agentsDir, tools, pid),
         ReachOf(b, item, agentsDir, tools, pid))
  }

  /** `upgrade_saved`: one that cannot be saved is left as it was. Whatever is left, whatever fails and
      wherever the process dies, in every state a saved copy that was there is there, and the blueprint
      is as it was unless one is. One that has come is whole, and no text has changed, unless by a
      soiling step; and none is taken unless a call failed. */
  method UpgradeSaved(disk: Disk, b: Backup, item: Item, agentsDir: Option<Path>, tools: Tools, pid: string,
                      about: string)
    returns (r: Outcome)
    requires disk.Valid() && ItemFits(b, item, tools)
    modifies disk
    ensures disk.Valid() && disk.hits >= old(disk.hits) && old(disk.seen) <= disk.seen
    ensures var plan, from, to := PlanOf(b, item, agentsDir, tools, pid), |old(disk.seen)| - 1, |disk.seen| - 1;
            && IsTurn(disk.seen, plan, from, to)
            && (SoiledAt(disk.seen, plan, from, to) ==> disk.hits > old(disk.hits))
            && TurnAnswers(disk.seen, from, to, b, item, agentsDir, tools, pid, r)
            && (disk.hits > old(disk.hits) || Answered(old(disk.now), b, item, agentsDir, tools, pid, r))
  {
    hide Elsewhere, Get, Inos, Clear, Staging, Aside, WholeCopy, Partial, Place, Readme, WhileSaving, UpgradeRoom;
    hide SaveRoom, Count, AllSound, OnlyAt, LeftHarmless, SourceAfter, SavedFrom, AlwaysSaving, Sound, IsDir, IsTurn;
    hide TurnTrace, SoiledIn, SoiledAt, Harmful, BeganIn, CopyTrace, Upgraded, SavePlan, PlanOf;
    var rel := RelOf(item.src, agentsDir, tools.digest);
    ghost var start, from := disk.now, |disk.seen| - 1;
    ghost var clean, begun, struck;
    var ok;
    ok, clean, begun, struck := Save(disk, b, item.src, rel, Copying, pid, about);
    ghost var mid, had := disk.now, disk.seen;
    SavingIsTurn(disk.seen, from, b, item, agentsDir, tools, pid);
    if !ok {
      return Failed;
    }
    if clean {
      RoomSince(old(disk.seen), disk.seen, start, mid, b, item, tools, rel, pid);
    }
    r := UpgradeOne(disk, b, item, tools, pid);
    StepsAdd(had, disk.seen, mid, Working(item, tools, pid));
    UpgradingIsTurn(had, disk.seen, from, b, item, agentsDir, tools, pid);
    assert disk.seen[|had| - 1] == mid;
    assert SavedThen(disk.seen, from, |had| - 1, |disk.seen| - 1, b, item, agentsDir, tools, pid, r);
  }

  /** A turn's answer: the item was not saved, and is as it was; or it was as it was when it had been
      saved, and this came of it then. */
  ghost predicate TurnAnswers(seen: seq<State>, from: nat, to: nat, b: Backup, item: Item, agentsDir: Option<Path>,
                              tools: Tools, pid: string, r: Outcome)
    requires item.src != []
  {
    from <= to < |seen| &&
    ( || (r == Failed && Get(seen[to].root, item.src) == Get(seen[from].root, item.src))
      || exists m: nat :: SavedThen(seen, from, m, to, b, item, agentsDir, tools, pid, r))
  }

  ghost predicate SavedThen(seen: seq<State>, from: nat, m: nat, to: nat, b: Backup, item: Item,
                            agentsDir: Option<Path>, tools: Tools, pid: string, r: Outcome)
    requires item.src != []
  {
    && from <= m <= to < |seen| && Get(seen[m].root, item.src) == Get(seen[from].root, item.src)
    && Get(seen[m].root, DestOf(b, item, agentsDir, tools)).Some?
    && Get(seen[to].root, DestOf(b, item, agentsDir, tools)) == Get(seen[m].root, DestOf(b, item, agentsDir, tools))
    && Upgraded(seen[m], seen[to], item, tools, pid, r)
  }

  /** If it failed, there was something in its way when its turn came. */
  ghost predicate Answered(s: State, b: Backup, item: Item, agentsDir: Option<Path>, tools: Tools, pid: string,
                           r: Outcome)
    requires item.src != []
  {
    r != Failed || !SaveRoom(s, b, item.src, RelOf(item.src, agentsDir, tools.digest), pid)
    || !UpgradeRoom(s, item, tools, pid)
  }

  /** Saving a blueprint leaves what its upgrade needs as it was. */
  lemma RoomStays(start: State, mid: State, b: Backup, item: Item, tools: Tools, rel: Path, pid: string)
    requires ItemFits(b, item, tools) && ItemPlace(rel) && Sound(start)
    requires Elsewhere(start, mid, {Readme(b), Partial(b, rel, pid), Place(b, rel)})
    ensures UpgradeRoom(start, item, tools, pid) ==> UpgradeRoom(mid, item, tools, pid)
  {
    hide Elsewhere, Get, Inos, ReinstallRoom, MigrationEnd, RewriteRoom, Apart, Readme, Partial, Place;
    SourceOutside(start, mid, b, item.src, rel, pid);
    SameBlueprint(start, mid, item.src, {Readme(b), Partial(b, rel, pid), Place(b, rel)}, tools);
    var bundled := Replacement(item, tools);
    if bundled.Some? {
      SourceOutside(start, mid, b, item.parent, rel, pid);
      ReinstallRoomStays(start, mid, item.parent, bundled.value, pid);
    }
  }

  /** A directory that is as it was is migrated, or rewritten, as it would have been. */
  lemma SameBlueprint(start: State, mid: State, src: Path, ps: set<Path>, tools: Tools)
    requires Sound(start) && Elsewhere(start, mid, ps) && Get(mid.root, src) == Get(start.root, src)
    ensures IsLeviath(mid, src) == IsLeviath(start, src)
    ensures MigrationEnd(mid, src, tools.convert) == MigrationEnd(start, src, tools.convert)
    ensures RewriteRoom(mid, src, tools.reform) == RewriteRoom(start, src, tools.reform)
  {
    hide Elsewhere, Get, ReadText;
    SameInside(start, mid, src, ps);
    assert Kept(src) + [OLD_MANIFEST] == src + [LEGACY, OLD_MANIFEST];
    assert Kept(src) == src + [LEGACY];
  }

  lemma SameInside(start: State, mid: State, src: Path, ps: set<Path>)
    requires Sound(start) && Elsewhere(start, mid, ps) && Get(mid.root, src) == Get(start.root, src)
    ensures forall q :: Get(mid.root, src + q) == Get(start.root, src + q)
                        && ReadText(mid, src + q) == ReadText(start, src + q)
  {
    hide Elsewhere, ReadText;
    forall q
      ensures Get(mid.root, src + q) == Get(start.root, src + q) && ReadText(mid, src + q) == ReadText(start, src + q)
    {
      GetUnder(mid.root, src, q);
      GetUnder(start.root, src, q);
      TextStays(start, mid, ps, src + q);
    }
  }

  /** What a reinstall needs is all in the directory the install is in. */
  lemma ReinstallRoomStays(start: State, mid: State, parent: Path, agent: Agent, pid: string)
    requires Get(mid.root, parent) == Get(start.root, parent)
    ensures ReinstallRoom(start, parent, agent, pid) ==> ReinstallRoom(mid, parent, agent, pid)
  {
    var dir, staging, aside := parent + [agent.name], Staging(parent, agent.name, pid), Aside(parent, agent.name, pid);
    var built := staging + [agent.name];
    forall q ensures Get(mid.root, parent + q) == Get(start.root, parent + q) {
      GetUnder(mid.root, parent, q);
      GetUnder(start.root, parent, q);
    }
    RoomIsParent(mid.root, aside);
    RoomIsParent(start.root, aside);
    assert aside[..|aside| - 1] == parent;
    if ReinstallRoom(start, parent, agent, pid) {
      WayOpen(start.root, mid.root, parent, built);
    }
  }

  lemma WayOpen(s: Node, t: Node, parent: Path, p: Path)
    requires parent <= p && IsDir(s, parent) && Get(t, parent) == Get(s, parent) && !Blocked(s, p)
    ensures !Blocked(t, p)
  {
    forall q | q <= p ensures !IsFile(t, q) {
      ShorterPrefix(q, parent, p);
      if parent <= q {
        PrefixGet(s, parent, q);
        PrefixGet(t, parent, q);
        assert !IsFile(s, q);
      } else {
        WayIsDir(t, q, parent);
      }
    }
  }

  lemma RoomSince(before: seq<State>, seen: seq<State>, start: State, mid: State, b: Backup, item: Item, tools: Tools,
                  rel: Path, pid: string)
    requires ItemFits(b, item, tools) && ItemPlace(rel) && Sound(start)
    requires AlwaysSaving(before, seen, mid, start, b, item.src, rel, Copying, pid)
    ensures UpgradeRoom(start, item, tools, pid) ==> UpgradeRoom(mid, item, tools, pid)
  {
    RoomStays(start, mid, b, item, tools, rel, pid);
  }

  /** A save is a turn so far, in which the item does not change. */
  lemma SavingIsTurn(seen: seq<State>, from: nat, b: Backup, item: Item, agentsDir: Option<Path>, tools: Tools,
                     pid: string)
    requires ItemFits(b, item, tools) && from < |seen|
    requires var rel := RelOf(item.src, agentsDir, tools.digest);
             TurnTrace(seen, from, SavePlan(b, item.src, rel, pid), Copying)
    ensures IsTurn(seen, PlanOf(b, item, agentsDir, tools, pid), from, |seen| - 1)
    ensures Get(seen[|seen| - 1].root, item.src) == Get(seen[from].root, item.src)
    ensures var rel, plan := RelOf(item.src, agentsDir, tools.digest), PlanOf(b, item, agentsDir, tools, pid);
            SoiledAt(seen, plan, from, |seen| - 1)
            <==> SoiledIn(seen, from, |seen| - 1, item.src, Partial(b, rel, pid), Place(b, rel))
  {
    var rel := RelOf(item.src, agentsDir, tools.digest);
    var few, plan := SavePlan(b, item.src, rel, pid), PlanOf(b, item, agentsDir, tools, pid);
    PlacesClearOfAll(b, item.src, rel, pid);
    assert forall q :: Clear(q, plan.reach) ==> Clear(q, few.reach) by {
      hide Partial, Place, Readme, Apart, Working;
    }
    hide Get, Clear, Partial, Place, Readme, WholeCopy, SoiledIn, LeadsOver, Sound, PlanOf, SavePlan;
    forall m | from <= m <= |seen| - 1 ensures TurnState(seen, from, m, plan, Copying) {
      assert TurnState(seen, from, m, few, Copying);
    }
    assert TurnState(seen, from, |seen| - 1, few, Copying);
  }

  /** So is an upgrade of an item that is saved. */
  lemma UpgradingIsTurn(had: seq<State>, seen: seq<State>, from: nat, b: Backup, item: Item, agentsDir: Option<Path>,
                        tools: Tools, pid: string)
    requires ItemFits(b, item, tools) && from < |had| && had <= seen && Sound(had[from])
    requires IsTurn(had, PlanOf(b, item, agentsDir, tools, pid), from, |had| - 1)
    requires var mid := had[|had| - 1];
             && Get(mid.root, DestOf(b, item, agentsDir, tools)).Some?
             && OnlyAt(had, seen, mid, Working(item, tools, pid))
    ensures IsTurn(seen, PlanOf(b, item, agentsDir, tools, pid), from, |seen| - 1)
    ensures SoiledAt(seen, PlanOf(b, item, agentsDir, tools, pid), from, |seen| - 1)
            <==> SoiledAt(had, PlanOf(b, item, agentsDir, tools, pid), from, |had| - 1)
    ensures Get(seen[|seen| - 1].root, DestOf(b, item, agentsDir, tools))
            == Get(had[|had| - 1].root, DestOf(b, item, agentsDir, tools))
  {
    var plan, work := PlanOf(b, item, agentsDir, tools, pid), Working(item, tools, pid);
    var mid, c := had[|had| - 1], |had| - 1;
    PlacesClear(b, item, tools, RelOf(item.src, agentsDir, tools.digest), pid);
    assert TurnState(had, from, c, plan, Copying);
    SameElsewhere(mid, work);
    hide PlanOf, Working, Get, Clear, Sound, Since, SoiledIn, NotUnder;
    NothingSoiledSince(seen, from, c, mid, plan, work);
    TurnHere(had, seen, plan, from, c);
    SoiledBefore(had, seen, plan, from, c);
    forall m | from <= m <= |seen| - 1 ensures TurnState(seen, from, m, plan, Copying) {
      if m >= |had| {
        SinceThen(seen[from], mid, seen[m], plan, work, SoiledAt(seen, plan, from, c));
        if SoiledAt(seen, plan, from, c) {
          SoiledLater(seen, from, c, m, plan.src, plan.partial, plan.dest);
        }
        SinceWider(seen[from], seen[m], plan, SoiledAt(seen, plan, from, c), SoiledAt(seen, plan, from, m));
      }
    }
  }

  // ---- All of them, and again ----

  ghost predicate AllFit(b: Backup, items: seq<Item>, tools: Tools) {
    forall i | 0 <= i < |items| :: items[i].src != [] && ItemFits(b, items[i], tools)
  }

  /** The turns of a list of items. */
  ghost function PlansOf(b: Backup, items: seq<Item>, agentsDir: Option<Path>, tools: Tools, pid: string)
    : (r: seq<Plan>)
    requires forall i | 0 <= i < |items| :: items[i].src != []
    ensures |r| == |items|
  {
    seq(|items|, i requires 0 <= i < |items| => PlanOf(b, items[i], agentsDir, tools, pid))
  }

  // ---- Whose place is whose ----

  function ParentOf(src: Path): Path
    requires src != []
  {
    src[..|src| - 1]
  }

  /** The digests of the two directories are as long as each other, and tell them apart. */
  predicate ToldApart(digest: Path -> string, x: Path, y: Path)
    requires x != [] && y != []
  {
    |digest(ParentOf(x))| == |digest(ParentOf(y))|
    && (digest(ParentOf(x)) == digest(ParentOf(y)) ==> ParentOf(x) == ParentOf(y))
  }

  /** An install is saved under `agents/` by its name; any other blueprint under `agent_paths/`, under a
      name that begins with its own. */
  lemma PlaceIs(b: Backup, item: Item, agentsDir: Option<Path>, tools: Tools)
    requires item.src != []
    ensures agentsDir == Some(ParentOf(item.src)) ==>
              DestOf(b, item, agentsDir, tools) == b.dir + ["agents", NameOf(item.src)]
    ensures agentsDir != Some(ParentOf(item.src)) ==>
              exists name :: DestOf(b, item, agentsDir, tools) == b.dir + ["agent_paths", name]
                             && NameOf(item.src) + "-" <= name
  {
    if agentsDir != Some(ParentOf(item.src)) {
      var name := NameOf(item.src) + "-" + tools.digest(ParentOf(item.src));
      assert NameOf(item.src) + "-" <= name;
      assert DestOf(b, item, agentsDir, tools) == b.dir + ["agent_paths", name];
    }
  }

  /** Two blueprints have one place in the backup exactly when they are one, or, neither of them an
      install, have one name and directories that the digest does not tell apart. */
  lemma PlacesTell(b: Backup, x: Item, y: Item, agentsDir: Option<Path>, tools: Tools)
    requires x.src != [] && y.src != []
    requires |tools.digest(ParentOf(x.src))| == |tools.digest(ParentOf(y.src))|
    ensures DestOf(b, x, agentsDir, tools) == DestOf(b, y, agentsDir, tools) <==>
            || x.src == y.src
            || (NameOf(x.src) == NameOf(y.src)
                && tools.digest(ParentOf(x.src)) == tools.digest(ParentOf(y.src))
                && agentsDir != Some(ParentOf(x.src)) && agentsDir != Some(ParentOf(y.src)))
  {
    var m, n := NameOf(x.src), NameOf(y.src);
    var d, e := tools.digest(ParentOf(x.src)), tools.digest(ParentOf(y.src));
    assert x.src == ParentOf(x.src) + [m] && y.src == ParentOf(y.src) + [n];
    SameTwo(b.dir, "agents", m, "agents", n);
    SameTwo(b.dir, "agents", m, "agent_paths", n + "-" + e);
    SameTwo(b.dir, "agent_paths", m + "-" + d, "agents", n);
    SameTwo(b.dir, "agent_paths", m + "-" + d, "agent_paths", n + "-" + e);
    assert |"agents"| != |"agent_paths"|;
    SameNamed(m, d, n, e);
  }

  lemma SameNamed(m: string, d: string, n: string, e: string)
    requires |d| == |e|
    ensures m + "-" + d == n + "-" + e <==> m == n && d == e
  {
    var s, t := m + "-" + d, n + "-" + e;
    if s == t {
      assert |m| == |n| && s[..|m|] == m && t[..|n|] == n && s[|m| + 1..] == d && t[|n| + 1..] == e;
    }
  }

  predicate PlainName(name: string) {
    name != "" && name[0] != '.'
  }

  /** Two blueprints of which neither holds the other or a directory a reinstall of it works in, and whose
      directories the digest tells apart. */
  ghost predicate Beside(x: Item, y: Item, tools: Tools) {
    && x.src != [] && y.src != [] && Apart(x.src, y.src) && ToldApart(tools.digest, x.src, y.src)
    && (Replacement(y, tools).Some? && y.parent < x.src ==> PlainName(x.src[|y.parent|]))
  }

  lemma BesideWorking(b: Backup, x: Item, y: Item, tools: Tools, pid: string)
    requires ItemFits(b, y, tools) && Beside(x, y, tools)
    ensures Clear(x.src, Working(y, tools, pid))
  {
    if Replacement(y, tools).Some? {
      var name := NameOf(y.src);
      HiddenApart(x.src, y.parent, name, "." + name + ".upgrading-" + pid);
      HiddenApart(x.src, y.parent, name, "." + name + ".old-" + pid);
    }
  }

  lemma HiddenApart(src: Path, parent: Path, name: string, hidden: string)
    requires Apart(src, parent + [name]) && hidden != "" && hidden[0] == '.'
    requires parent < src ==> PlainName(src[|parent|])
    ensures Apart(parent + [hidden], src)
  {
    EntryAbove(parent, hidden, src);
    EntryBelow(parent, hidden, src);
    assert src <= parent ==> src <= parent + [name];
  }

  lemma EntryAbove(parent: Path, name: string, src: Path)
    ensures parent + [name] <= src ==> parent < src && src[|parent|] == name
  {
    if parent + [name] <= src {
      assert src[|parent|] == (parent + [name])[|parent|];
    }
  }

  lemma EntryBelow(parent: Path, name: string, src: Path)
    ensures src <= parent + [name] ==> src <= parent || (parent < src && src[|parent|] == name)
  {
    if src <= parent + [name] {
      if |src| <= |parent| {
        assert src == (parent + [name])[..|src|] == parent[..|src|];
      } else {
        assert src == parent + [name];
      }
    }
  }

  /** The turn of one leaves the other alone, and its place. */
  lemma TurnLeavesAlone(b: Backup, x: Item, y: Item, agentsDir: Option<Path>, tools: Tools, pid: string)
    requires ItemFits(b, x, tools) && ItemFits(b, y, tools) && Beside(x, y, tools) && PlainName(NameOf(x.src))
    ensures GuardedBy(PlanOf(b, y, agentsDir, tools, pid), x.src, DestOf(b, x, agentsDir, tools))
  {
    SourceLeftAlone(b, x, y, agentsDir, tools, pid);
    PlaceLeftAlone(b, x, y, agentsDir, tools, pid);
    hide ReachOf, DestOf, PartialOf, Beside, ItemFits;
  }

  lemma SourceLeftAlone(b: Backup, x: Item, y: Item, agentsDir: Option<Path>, tools: Tools, pid: string)
    requires ItemFits(b, x, tools) && ItemFits(b, y, tools) && Beside(x, y, tools)
    ensures Clear(x.src, ReachOf(b, y, agentsDir, tools, pid))
  {
    BesideWorking(b, x, y, tools, pid);
    PlacesClearOfAll(b, x.src, RelOf(y.src, agentsDir, tools.digest), pid);
    hide Partial, Place, Readme, Apart, RelOf, Working, Beside;
  }

  lemma PlaceLeftAlone(b: Backup, x: Item, y: Item, agentsDir: Option<Path>, tools: Tools, pid: string)
    requires ItemFits(b, x, tools) && ItemFits(b, y, tools) && Beside(x, y, tools) && PlainName(NameOf(x.src))
    ensures Clear(DestOf(b, x, agentsDir, tools), ReachOf(b, y, agentsDir, tools, pid))
  {
    var rel, own := RelOf(y.src, agentsDir, tools.digest), RelOf(x.src, agentsDir, tools.digest);
    PlacesTell(b, x, y, agentsDir, tools);
    assert x.src != y.src && x.src == ParentOf(x.src) + [NameOf(x.src)] && y.src == ParentOf(y.src) + [NameOf(y.src)];
    NamesOf(b, x, agentsDir, tools, pid);
    NamesOf(b, y, agentsDir, tools, pid);
    assert own[1][0] == NameOf(x.src)[0] && PartialName(rel[1], pid)[0] == '.';
    WorkingApart(b, y, tools, pid, own);
    hide ItemFits, Partial, Place, Readme, PartialOf, DestOf, Apart, PartialName, RelOf, Working, ToldApart;
    TwoDown(b.dir, own[0], own[1], README, README);
    TwoDown(b.dir, rel[0], PartialName(rel[1], pid), own[0], own[1]);
    TwoDown(b.dir, rel[0], rel[1], own[0], own[1]);
    SameTwo(b.dir, own[0], own[1], rel[0], rel[1]);
    assert own == [own[0], own[1]];
  }

  /** What is so of the blueprints of one list, or of several: each is named plainly, and any two are one,
      or lie beside each other. */
  ghost predicate OwnPlaces(b: Backup, xs: seq<Item>, ys: seq<Item>, tools: Tools) {
    && (forall i | 0 <= i < |xs| :: xs[i].src != [] && ItemFits(b, xs[i], tools) && PlainName(NameOf(xs[i].src)))
    && (forall j | 0 <= j < |ys| :: ys[j].src != [] && ItemFits(b, ys[j], tools))
    && forall i, j | 0 <= i < |xs| && 0 <= j < |ys| :: xs[i].src == ys[j].src || Beside(xs[i], ys[j], tools)
  }

  lemma OwnGuarded(b: Backup, xs: seq<Item>, ys: seq<Item>, agentsDir: Option<Path>, tools: Tools, pid: string, i: nat)
    requires OwnPlaces(b, xs, ys, tools) && i < |xs|
    ensures Guarded(PlansOf(b, ys, agentsDir, tools, pid), xs[i].src, DestOf(b, xs[i], agentsDir, tools))
  {
    hide ItemFits, Beside, PlainName, GuardedBy;
    forall j | 0 <= j < |ys|
      ensures GuardedBy(PlanOf(b, ys[j], agentsDir, tools, pid), xs[i].src, DestOf(b, xs[i], agentsDir, tools))
    {
      if xs[i].src == ys[j].src {
        OwnTurn(b, xs[i], ys[j], agentsDir, tools, pid);
      } else {
        TurnLeavesAlone(b, xs[i], ys[j], agentsDir, tools, pid);
      }
    }
  }

  lemma OwnTurn(b: Backup, x: Item, y: Item, agentsDir: Option<Path>, tools: Tools, pid: string)
    requires x.src == y.src && x.src != []
    ensures GuardedBy(PlanOf(b, y, agentsDir, tools, pid), x.src, DestOf(b, x, agentsDir, tools))
  {
  }

  /** `upgrade_all`: each blueprint is saved and changed in turn. Whatever is left, whatever fails, and
      in every state: a saved copy that was there is there, and a blueprint, in the list or not, is as it
      was unless its saved copy is there. What has come there is a whole copy, unless the blueprint's own
      turn was soiled, and no text of either has changed, unless what a soiled turn's copy was made over
      led to one of theirs. No turn is soiled if nothing was left by a process of the same id, or if no
      call failed. Turn `j` is from state number `cuts[j]` to number `cuts[j + 1]`. */
  method UpgradeAll(disk: Disk, b: Backup, items: seq<Item>, agentsDir: Option<Path>, tools: Tools, pid: string,
                    about: string)
    returns (done: seq<Outcome>, ghost cuts: seq<nat>, ghost struck: seq<nat>)
    requires disk.Valid() && AllFit(b, items, tools)
    modifies disk
    ensures disk.Valid() && disk.hits >= old(disk.hits) && old(disk.seen) <= disk.seen
    ensures |done| == |items| && |cuts| == |items| + 1
    ensures cuts[0] == |old(disk.seen)| - 1 && cuts[|items|] == |disk.seen| - 1
    ensures var plans := PlansOf(b, items, agentsDir, tools, pid);
            && InTurns(disk.seen, plans, cuts) && AllPromised(disk.seen, plans, cuts)
            && (AnySoiled(disk.seen, plans, cuts, |disk.seen|) ==>
                  disk.hits > old(disk.hits) && !NothingLeft(old(disk.now), plans))
    ensures OwnPlaces(b, items, items, tools) ==> forall i | 0 <= i < |items| ::
              AlwaysSavedFirst(disk.seen, PlansOf(b, items, agentsDir, tools, pid), cuts, items[i].src,
                               DestOf(b, items[i], agentsDir, tools))
    ensures AllAnswered(disk.seen, cuts, done, struck, b, items, agentsDir, tools, pid)
    ensures |struck| == |items| + 1 && struck[0] == old(disk.hits) && struck[|items|] == disk.hits
  {
    hide ItemFits, PlanOf, Sound, IsTurn, SoiledAt, TurnAnswers, Answered, AllSound, Count, AnySoiled, NothingLeft;
    hide AllAnswered;
    hide InTurns, AllPromised, Get, IsDir;
    ghost var start, from, plans := disk.now, |disk.seen| - 1, PlansOf(b, items, agentsDir, tools, pid);
    done, cuts, struck := [], [from], [disk.hits];
    NoneAnswered(disk.seen, from, disk.hits, b, agentsDir, tools, pid);
    NoTurns(disk.seen, from);
    assert plans[..0] == [];
    while |done| < |items|
      invariant |done| <= |items| && |cuts| == |done| + 1 && cuts[0] == from && cuts[|done|] == |disk.seen| - 1
      invariant disk.Valid() && old(disk.seen) <= disk.seen && disk.hits >= old(disk.hits)
      invariant InTurns(disk.seen, plans[..|done|], cuts)
      invariant AnySoiled(disk.seen, plans[..|done|], cuts, |disk.seen|) ==> disk.hits > old(disk.hits)
      invariant AllAnswered(disk.seen, cuts, done, struck, b, items[..|done|], agentsDir, tools, pid)
      invariant |struck| == |done| + 1 && struck[0] == old(disk.hits) && struck[|done|] == disk.hits
    {
      var i := |done|;
      ghost var was, had, first := disk.now, disk.seen, |disk.seen| - 1;
      var r := UpgradeSaved(disk, b, items[i], agentsDir, tools, pid, about);
      ghost var last := |disk.seen| - 1;
      assert had[first] == disk.seen[first] == was;
      TurnAlone(disk.seen, plans[i], first, last);
      TurnsJoin(had, disk.seen, plans[..i], cuts, [plans[i]], [first, last]);
      assert plans[..i] + [plans[i]] == plans[..i + 1] && cuts + [first, last][1..] == cuts + [last];
      AllAnsweredThen(had, disk.seen, cuts, done, struck, b, items[..i], items[i], agentsDir, tools, pid, r,
                      disk.hits);
      assert items[..i + 1] == items[..i] + [items[i]];
      done, cuts, struck := done + [r], cuts + [last], struck + [disk.hits];
    }
    assert plans[..|items|] == plans && items[..|items|] == items;
    TurnsKeepPromise(disk.seen, plans, cuts);
    if OwnPlaces(b, items, items, tools) {
      hide OwnPlaces, AlwaysSavedFirst, DestOf, Guarded;
      forall i | 0 <= i < |items|
        ensures AlwaysSavedFirst(disk.seen, plans, cuts, items[i].src, DestOf(b, items[i], agentsDir, tools))
      {
        OwnGuarded(b, items, items, agentsDir, tools, pid, i);
        PromisedSavedFirst(disk.seen, plans, cuts, items[i].src, DestOf(b, items[i], agentsDir, tools));
      }
    }
    if NothingLeft(start, plans) {
      SoiledWasLeft(disk.seen, plans, cuts);
    }
  }

  /** What came of each turn. `struck` is how many calls had failed when it began: if none did in a turn, it
      did not fail without cause, nor was it soiled. */
  ghost predicate AllAnswered(seen: seq<State>, cuts: seq<nat>, done: seq<Outcome>, struck: seq<nat>, b: Backup,
                              items: seq<Item>, agentsDir: Option<Path>, tools: Tools, pid: string) {
    && |done| == |items| && |cuts| == |struck| == |items| + 1
    && forall j | 0 <= j < |items| ::
         && items[j].src != [] && cuts[j] < |seen| && struck[j] <= struck[j + 1]
         && TurnAnswers(seen, cuts[j], cuts[j + 1], b, items[j], agentsDir, tools, pid, done[j])
         && (struck[j] == struck[j + 1] ==>
               Blameless(seen, cuts[j], cuts[j + 1], b, items[j], agentsDir, tools, pid, done[j]))
  }

  ghost predicate Blameless(seen: seq<State>, from: nat, to: nat, b: Backup, item: Item, agentsDir: Option<Path>,
                            tools: Tools, pid: string, r: Outcome)
    requires item.src != []
  {
    && from <= to < |seen| && Answered(seen[from], b, item, agentsDir, tools, pid, r)
    && !SoiledAt(seen, PlanOf(b, item, agentsDir, tools, pid), from, to)
  }

  lemma NoneAnswered(seen: seq<State>, from: nat, hits: nat, b: Backup, agentsDir: Option<Path>, tools: Tools,
                     pid: string)
    ensures AllAnswered(seen, [from], [], [hits], b, [], agentsDir, tools, pid)
  {
  }

  lemma AllAnsweredThen(had: seq<State>, seen: seq<State>, cuts: seq<nat>, done: seq<Outcome>, struck: seq<nat>,
                        b: Backup, items: seq<Item>, item: Item, agentsDir: Option<Path>, tools: Tools, pid: string,
                        r: Outcome, hits: nat)
    requires had <= seen && item.src != []
    requires AllAnswered(had, cuts, done, struck, b, items, agentsDir, tools, pid)
    requires cuts[|items|] == |had| - 1 && struck[|items|] <= hits
    requires TurnAnswers(seen, |had| - 1, |seen| - 1, b, item, agentsDir, tools, pid, r)
    requires struck[|items|] == hits ==>
               Blameless(seen, |had| - 1, |seen| - 1, b, item, agentsDir, tools, pid, r)
    ensures AllAnswered(seen, cuts + [|seen| - 1], done + [r], struck + [hits], b, items + [item], agentsDir, tools,
                        pid)
  {
    hide TurnAnswers, Blameless;
    var all, ends, came, now := items + [item], cuts + [|seen| - 1], done + [r], struck + [hits];
    forall j | 0 <= j < |all|
      ensures all[j].src != [] && ends[j] < |seen| && now[j] <= now[j + 1]
      ensures TurnAnswers(seen, ends[j], ends[j + 1], b, all[j], agentsDir, tools, pid, came[j])
      ensures now[j] == now[j + 1] ==>
                Blameless(seen, ends[j], ends[j + 1], b, all[j], agentsDir, tools, pid, came[j])
    {
      if j < |items| {
        AnswersStay(had, seen, cuts[j], cuts[j + 1], b, items[j], agentsDir, tools, pid, done[j]);
      }
    }
  }

  lemma AnswersStay(had: seq<State>, seen: seq<State>, from: nat, to: nat, b: Backup, item: Item,
                    agentsDir: Option<Path>, tools: Tools, pid: string, r: Outcome)
    requires had <= seen && item.src != [] && TurnAnswers(had, from, to, b, item, agentsDir, tools, pid, r)
    ensures TurnAnswers(seen, from, to, b, item, agentsDir, tools, pid, r)
    ensures Blameless(had, from, to, b, item, agentsDir, tools, pid, r) ==>
              Blameless(seen, from, to, b, item, agentsDir, tools, pid, r)
  {
    hide Upgraded, DestOf, Get, PlanOf, SoiledAt, Answered;
    SoiledBefore(had, seen, PlanOf(b, item, agentsDir, tools, pid), from, to);
    if m: nat :| SavedThen(had, from, m, to, b, item, agentsDir, tools, pid, r) {
      assert SavedThen(seen, from, m, to, b, item, agentsDir, tools, pid, r);
    }
  }

  // ---- Process after process ----

  /** One process: its id, the old blueprints it finds, and how many states of the disk it lives to
      see after the one it starts in. */
  datatype Run = Run(pid: string, items: seq<Item>, lives: nat)

  ghost predicate RunsFit(b: Backup, runs: seq<Run>, tools: Tools) {
    forall r | 0 <= r < |runs| :: AllFit(b, runs[r].items, tools)
  }

  /** The turns of process after process, all of each. */
  ghost function AllPlans(b: Backup, runs: seq<Run>, agentsDir: Option<Path>, tools: Tools): seq<Plan>
    requires RunsFit(b, runs, tools)
  {
    if runs == [] then []
    else
      var n := |runs| - 1;
      AllPlans(b, runs[..n], agentsDir, tools) + PlansOf(b, runs[n].items, agentsDir, tools, runs[n].pid)
  }

  ghost predicate RunsOwnPlaces(b: Backup, runs: seq<Run>, tools: Tools) {
    forall r, t | 0 <= r < |runs| && 0 <= t < |runs| :: OwnPlaces(b, runs[r].items, runs[t].items, tools)
  }

  lemma {:induction false} RunsGuarded(b: Backup, runs: seq<Run>, xs: seq<Item>, agentsDir: Option<Path>, tools: Tools,
                                       i: nat)
    requires RunsFit(b, runs, tools) && i < |xs| && xs[i].src != []
    requires forall t | 0 <= t < |runs| :: OwnPlaces(b, xs, runs[t].items, tools)
    ensures Guarded(AllPlans(b, runs, agentsDir, tools), xs[i].src, DestOf(b, xs[i], agentsDir, tools))
    decreases |runs|
  {
    hide OwnPlaces, DestOf, GuardedBy, PlansOf;
    if runs != [] {
      var n := |runs| - 1;
      RunsGuarded(b, runs[..n], xs, agentsDir, tools, i);
      OwnGuarded(b, xs, runs[n].items, agentsDir, tools, runs[n].pid, i);
    }
  }

  lemma RunsSavedFirst(seen: seq<State>, cuts: seq<nat>, b: Backup, runs: seq<Run>, agentsDir: Option<Path>,
                       tools: Tools)
    requires RunsFit(b, runs, tools) && RunsOwnPlaces(b, runs, tools)
    requires AllPromised(seen, AllPlans(b, runs, agentsDir, tools), cuts)
    ensures forall r, i | 0 <= r < |runs| && 0 <= i < |runs[r].items| ::
              AlwaysSavedFirst(seen, AllPlans(b, runs, agentsDir, tools), cuts, runs[r].items[i].src,
                               DestOf(b, runs[r].items[i], agentsDir, tools))
  {
    hide OwnPlaces, DestOf, AlwaysSavedFirst, AllPromised, AllPlans, Guarded, ItemFits;
    forall r, i | 0 <= r < |runs| && 0 <= i < |runs[r].items|
      ensures AlwaysSavedFirst(seen, AllPlans(b, runs, agentsDir, tools), cuts, runs[r].items[i].src,
                               DestOf(b, runs[r].items[i], agentsDir, tools))
    {
      var x := runs[r].items[i];
      assert forall t | 0 <= t < |runs| :: OwnPlaces(b, runs[r].items, runs[t].items, tools);
      RunsGuarded(b, runs, runs[r].items, agentsDir, tools, i);
      PromisedSavedFirst(seen, AllPlans(b, runs, agentsDir, tools), cuts, x.src, DestOf(b, x, agentsDir, tools));
    }
  }

  /** Process after process, each started in the state the one before it ended or died in. Whatever each
      of them finds, wherever it dies, and whatever calls fail, all that the turns of one process promise
      is promised of all of them, in every state from the first on; a turn that a process did not live to
      is over when it dies. No turn is soiled if no process finds something left under its own id, or if
      no call fails. A process dies where it is to, or has done all it had to. */
  method RunAfterRun(disk: Disk, b: Backup, runs: seq<Run>, agentsDir: Option<Path>, tools: Tools, about: string)
    returns (ghost done: seq<seq<Outcome>>, ghost cuts: seq<nat>, ghost struck: seq<seq<nat>>)
    requires disk.Valid() && RunsFit(b, runs, tools)
    modifies disk
    ensures disk.Valid() && disk.hits >= old(disk.hits) && old(disk.seen) <= disk.seen
    ensures var plans := AllPlans(b, runs, agentsDir, tools);
            && |cuts| == |plans| + 1 && cuts[0] == |old(disk.seen)| - 1 && cuts[|plans|] == |disk.seen| - 1
            && InTurns(disk.seen, plans, cuts) && AllPromised(disk.seen, plans, cuts)
            && (AnySoiled(disk.seen, plans, cuts, |disk.seen|) ==>
                  disk.hits > old(disk.hits) && !NothingLeft(old(disk.now), plans))
    ensures RunsOwnPlaces(b, runs, tools) ==> forall r, i | 0 <= r < |runs| && 0 <= i < |runs[r].items| ::
              AlwaysSavedFirst(disk.seen, AllPlans(b, runs, agentsDir, tools), cuts, runs[r].items[i].src,
                               DestOf(b, runs[r].items[i], agentsDir, tools))
    ensures Chained(old(disk.hits), struck, disk.hits)
    ensures AllEnded(disk.seen, cuts, done, struck, b, runs, |runs|, agentsDir, tools)
  {
    hide RunEnded, AllEnded, Chained, AllAnswered, RunsOwnPlaces, AlwaysSavedFirst, DestOf, Get, IsDir;
    hide ItemFits, PlanOf, PlansOf, AllPlans, Sound, IsTurn, SoiledAt, TurnAnswers, Answered, Count, AnySoiled;
    hide NothingLeft, InTurns, AllPromised;
    ghost var start, from := disk.now, |disk.seen| - 1;
    done, cuts, struck := [], [from], [];
    ghost var plans: seq<Plan> := [];
    NoTurns(disk.seen, from);
    NoPlans(b, runs[..0], agentsDir, tools);
    NoneEnded(disk.seen, cuts, disk.hits, b, runs, agentsDir, tools);
    var n := 0;
    while n < |runs|
      invariant n <= |runs| && disk.Valid() && old(disk.seen) <= disk.seen && disk.hits >= old(disk.hits)
      invariant plans == AllPlans(b, runs[..n], agentsDir, tools)
      invariant |cuts| == |plans| + 1 && cuts[0] == from && cuts[|plans|] == |disk.seen| - 1
      invariant InTurns(disk.seen, plans, cuts)
      invariant AnySoiled(disk.seen, plans, cuts, |disk.seen|) ==> disk.hits > old(disk.hits)
      invariant Chained(old(disk.hits), struck, disk.hits)
      invariant AllEnded(disk.seen, cuts, done, struck, b, runs, n, agentsDir, tools)
    {
      var run, first := runs[n], |disk.seen| - 1;
      ghost var had := disk.seen;
      ghost var ends, hits;
      var came;
      came, ends, hits := UpgradeAll(disk, b, run.items, agentsDir, tools, run.pid, about);
      ghost var after, more := disk.seen, PlansOf(b, run.items, agentsDir, tools, run.pid);
      var at := if first + run.lives < |disk.seen| then first + run.lives else |disk.seen| - 1;
      AllSoundAt(after, at);
      EndsIn(after, more, ends);
      TurnsCut(after, more, ends, at);
      disk.DieAt(at);
      assert had <= disk.seen;
      TurnsJoin(had, disk.seen, plans, cuts, more, CutAt(ends, at));
      OneRunMore(b, runs, n, agentsDir, tools);
      RunEnds(had, after, at, cuts, ends, came, hits, b, run, agentsDir, tools);
      AllEndedThen(had, disk.seen, cuts, CutAt(ends, at)[1..], done, struck, came, hits, b, runs, n, agentsDir, tools);
      ChainedThen(old(disk.hits), struck, hits, disk.hits);
      plans, cuts, done := plans + more, cuts + CutAt(ends, at)[1..], done + [came];
      struck := struck + [hits];
      n := n + 1;
    }
    assert runs[..n] == runs;
    TurnsKeepPromise(disk.seen, plans, cuts);
    if RunsOwnPlaces(b, runs, tools) {
      RunsSavedFirst(disk.seen, cuts, b, runs, agentsDir, tools);
    }
    if NothingLeft(start, plans) {
      SoiledWasLeft(disk.seen, plans, cuts);
    }
  }

  /** How many calls had failed when each turn began, run after run: each begins where the last one ended. */
  ghost predicate Chained(first: nat, struck: seq<seq<nat>>, last: nat) {
    if struck == [] then first == last
    else
      var n := |struck| - 1;
      struck[n] != [] && struck[n][|struck[n]| - 1] == last && Chained(first, struck[..n], struck[n][0])
  }

  /** A run, of which turn number `first` is the first, died as it was to, or did all it had to. */
  ghost predicate RunEnded(seen: seq<State>, cuts: seq<nat>, first: nat, done: seq<Outcome>, struck: seq<nat>,
                           b: Backup, run: Run, agentsDir: Option<Path>, tools: Tools) {
    var last := first + |run.items|;
    last < |cuts|
    && (cuts[last] == cuts[first] + run.lives
        || AllAnswered(seen, cuts[first..last + 1], done, struck, b, run.items, agentsDir, tools, run.pid))
  }

  ghost predicate AllEnded(seen: seq<State>, cuts: seq<nat>, done: seq<seq<Outcome>>, struck: seq<seq<nat>>,
                           b: Backup, runs: seq<Run>, n: nat, agentsDir: Option<Path>, tools: Tools)
    requires RunsFit(b, runs, tools)
  {
    n == |done| == |struck| <= |runs| && forall r | 0 <= r < n ::
      RunEnded(seen, cuts, |AllPlans(b, runs[..r], agentsDir, tools)|, done[r], struck[r], b, runs[r], agentsDir, tools)
  }

  lemma NoneEnded(seen: seq<State>, cuts: seq<nat>, hits: nat, b: Backup, runs: seq<Run>, agentsDir: Option<Path>,
                  tools: Tools)
    requires RunsFit(b, runs, tools)
    ensures AllEnded(seen, cuts, [], [], b, runs, 0, agentsDir, tools) && Chained(hits, [], hits)
  {
  }

  lemma AllEndedThen(had: seq<State>, seen: seq<State>, cuts: seq<nat>, more: seq<nat>, done: seq<seq<Outcome>>,
                     struck: seq<seq<nat>>, came: seq<Outcome>, hits: seq<nat>, b: Backup, runs: seq<Run>, n: nat,
                     agentsDir: Option<Path>, tools: Tools)
    requires RunsFit(b, runs, tools) && n < |runs| && had <= seen
    requires AllEnded(had, cuts, done, struck, b, runs, n, agentsDir, tools)
    requires RunEnded(seen, cuts + more, |AllPlans(b, runs[..n], agentsDir, tools)|, came, hits, b, runs[n], agentsDir,
                      tools)
    ensures AllEnded(seen, cuts + more, done + [came], struck + [hits], b, runs, n + 1, agentsDir, tools)
  {
    hide RunEnded, AllPlans;
    forall r | 0 <= r < n
      ensures RunEnded(seen, cuts + more, |AllPlans(b, runs[..r], agentsDir, tools)|, done[r], struck[r], b, runs[r],
                       agentsDir, tools)
    {
      StillEnded(had, seen, cuts, more, |AllPlans(b, runs[..r], agentsDir, tools)|, done[r], struck[r], b, runs[r],
                 agentsDir, tools);
    }
  }

  lemma ChainedThen(first: nat, struck: seq<seq<nat>>, hits: seq<nat>, last: nat)
    requires hits != [] && hits[|hits| - 1] == last && Chained(first, struck, hits[0])
    ensures Chained(first, struck + [hits], last)
  {
    assert (struck + [hits])[..|struck|] == struck;
  }

  lemma StillEnded(had: seq<State>, seen: seq<State>, cuts: seq<nat>, more: seq<nat>, first: nat, done: seq<Outcome>,
                   struck: seq<nat>, b: Backup, run: Run, agentsDir: Option<Path>, tools: Tools)
    requires had <= seen && RunEnded(had, cuts, first, done, struck, b, run, agentsDir, tools)
    ensures RunEnded(seen, cuts + more, first, done, struck, b, run, agentsDir, tools)
  {
    var last := first + |run.items|;
    assert (cuts + more)[first..last + 1] == cuts[first..last + 1];
    if AllAnswered(had, cuts[first..last + 1], done, struck, b, run.items, agentsDir, tools, run.pid) {
      StillAnswered(had, seen, cuts[first..last + 1], done, struck, b, run.items, agentsDir, tools, run.pid);
    }
    hide AllAnswered;
  }

  lemma StillAnswered(had: seq<State>, seen: seq<State>, cuts: seq<nat>, done: seq<Outcome>, struck: seq<nat>,
                      b: Backup, items: seq<Item>, agentsDir: Option<Path>, tools: Tools, pid: string)
    requires had <= seen && AllAnswered(had, cuts, done, struck, b, items, agentsDir, tools, pid)
    ensures AllAnswered(seen, cuts, done, struck, b, items, agentsDir, tools, pid)
  {
    hide TurnAnswers, Blameless;
    forall j | 0 <= j < |items|
      ensures cuts[j] < |seen|
      ensures TurnAnswers(seen, cuts[j], cuts[j + 1], b, items[j], agentsDir, tools, pid, done[j])
      ensures struck[j] == struck[j + 1] ==>
                Blameless(seen, cuts[j], cuts[j + 1], b, items[j], agentsDir, tools, pid, done[j])
    {
      AnswersStay(had, seen, cuts[j], cuts[j + 1], b, items[j], agentsDir, tools, pid, done[j]);
    }
  }

  /** A run that died in state number `at`, or is over then. */
  lemma RunEnds(had: seq<State>, after: seq<State>, at: nat, cuts: seq<nat>, ends: seq<nat>, done: seq<Outcome>,
                struck: seq<nat>, b: Backup, run: Run, agentsDir: Option<Path>, tools: Tools)
    requires had != [] && cuts != [] && ends != [] && cuts[|cuts| - 1] == ends[0] == |had| - 1 <= at < |after|
    requires |ends| == |run.items| + 1 && ends[|run.items|] == |after| - 1
    requires forall j | 0 <= j < |ends| :: ends[0] <= ends[j] < |after|
    requires at == |had| - 1 + run.lives || at == |after| - 1
    requires AllAnswered(after, ends, done, struck, b, run.items, agentsDir, tools, run.pid)
    ensures RunEnded(after[..at + 1], cuts + CutAt(ends, at)[1..], |cuts| - 1, done, struck, b, run, agentsDir, tools)
  {
    var lived := CutAt(ends, at);
    var all, first, last := cuts + lived[1..], |cuts| - 1, |cuts| - 1 + |run.items|;
    assert all[first] == lived[0] == |had| - 1 && all[last] == lived[|run.items|] == at;
    if at == |after| - 1 {
      assert lived == ends && all[first..last + 1] == ends && after[..at + 1] == after;
      StillAnswered(after, after, ends, done, struck, b, run.items, agentsDir, tools, run.pid);
    }
    hide AllAnswered;
  }

  lemma NoPlans(b: Backup, runs: seq<Run>, agentsDir: Option<Path>, tools: Tools)
    requires runs == []
    ensures AllPlans(b, runs, agentsDir, tools) == []
  {
  }

  lemma AllSoundAt(seen: seq<State>, at: nat)
    requires AllSound(seen) && at < |seen|
    ensures Sound(seen[at])
  {
  }

  lemma OneRunMore(b: Backup, runs: seq<Run>, n: nat, agentsDir: Option<Path>, tools: Tools)
    requires n < |runs| && RunsFit(b, runs, tools)
    ensures AllPlans(b, runs[..n + 1], agentsDir, tools)
            == AllPlans(b, runs[..n], agentsDir, tools) + PlansOf(b, runs[n].items, agentsDir, tools, runs[n].pid)
  {
    assert runs[..n + 1][..n] == runs[..n] && runs[..n + 1][n] == runs[n];
  }

  /** The names of an item's copy while it is made, and of its place. */
  lemma NamesOf(b: Backup, x: Item, agentsDir: Option<Path>, tools: Tools, pid: string)
    requires x.src != []
    ensures var rel := RelOf(x.src, agentsDir, tools.digest);
            && |rel| == 2 && rel[0] != README
            && PartialOf(b, x, agentsDir, tools, pid) == b.dir + [rel[0], PartialName(rel[1], pid)]
            && DestOf(b, x, agentsDir, tools) == b.dir + [rel[0], rel[1]]
            && ReachOf(b, x, agentsDir, tools, pid)
               == {b.dir + [README], b.dir + [rel[0], PartialName(rel[1], pid)],
                   b.dir + [rel[0], rel[1]]} + Working(x, tools, pid)
  {
  }

  function PartialName(name: string, pid: string): string {
    "." + name + ".partial-" + pid
  }

  /** Two levels down in the backup, the name is all that is reached. */
  lemma TwoDown(dir: Path, k: string, n: string, l: string, m: string)
    ensures Apart(dir + [k, n], dir + [l, m]) <==> k != l || n != m
    ensures k != l ==> Apart(dir + [l], dir + [k, n])
  {
    assert (dir + [k, n])[|dir|] == k && (dir + [k, n])[|dir| + 1] == n;
    assert (dir + [l, m])[|dir|] == l && (dir + [l, m])[|dir| + 1] == m && (dir + [l])[|dir|] == l;
  }

  lemma WorkingApart(b: Backup, x: Item, tools: Tools, pid: string, below: Path)
    requires ItemFits(b, x, tools)
    ensures Clear(b.dir + below, Working(x, tools, pid))
  {
    assert x.src + [] == x.src;
    ApartBelow(x.src, b.dir, [], below);
    if Replacement(x, tools).Some? {
      ApartBelow(x.parent, b.dir, ["." + NameOf(x.src) + ".upgrading-" + pid], below);
      ApartBelow(x.parent, b.dir, ["." + NameOf(x.src) + ".old-" + pid], below);
    }
  }

  /** An upgrade reaches the name another's copy is made under only if it is the name of its own copy,
      or of its place. */
  lemma OtherNamesClear(b: Backup, x: Item, y: Item, agentsDir: Option<Path>, tools: Tools, pidX: string, pidY: string)
    requires ItemFits(b, x, tools) && ItemFits(b, y, tools)
    ensures var q := PartialOf(b, y, agentsDir, tools, pidY);
            Clear(q, ReachOf(b, x, agentsDir, tools, pidX)) <==>
            q != PartialOf(b, x, agentsDir, tools, pidX) && q != DestOf(b, x, agentsDir, tools)
  {
    var rel, own := RelOf(y.src, agentsDir, tools.digest), RelOf(x.src, agentsDir, tools.digest);
    NamesOf(b, x, agentsDir, tools, pidX);
    NamesOf(b, y, agentsDir, tools, pidY);
    hide ItemFits, Partial, Place, Readme, PartialOf, DestOf, ReachOf, Apart, PartialName, RelOf;
    var hidden := PartialName(rel[1], pidY);
    TwoDown(b.dir, rel[0], hidden, README, README);
    TwoDown(b.dir, own[0], PartialName(own[1], pidX), rel[0], hidden);
    TwoDown(b.dir, own[0], own[1], rel[0], hidden);
    WorkingApart(b, x, tools, pidX, [rel[0], hidden]);
    SameTwo(b.dir, own[0], PartialName(own[1], pidX), rel[0], hidden);
    SameTwo(b.dir, own[0], own[1], rel[0], hidden);
    hide Working;
  }

  lemma SameTwo(dir: Path, k: string, n: string, l: string, m: string)
    ensures dir + [k, n] == dir + [l, m] <==> k == l && n == m
  {
    assert (dir + [k, n])[|dir|..] == [k, n] && (dir + [l, m])[|dir|..] == [l, m];
    assert [k, n][0] == k && [k, n][1] == n && [l, m][0] == l && [l, m][1] == m;
  }

  /** The name a copy is made under says whose it is and which process makes it. */
  lemma PartialNamesDiffer(n: string, p: string, m: string, q: string)
    requires Decimal.AllDigits(p) && Decimal.AllDigits(q) && PartialName(n, p) == PartialName(m, q)
    ensures n == m && p == q
  {
    var s := PartialName(n, p);
    assert s == ("." + n + ".partial") + ("-" + p) == ("." + m + ".partial") + ("-" + q);
    SameEnd("." + n + ".partial", p, "." + m + ".partial", q);
    var k := |s| - |p|;
    assert s[k..] == p && s[k..] == q;
    assert s[1..k - 9] == n && s[1..k - 9] == m;
  }

  lemma SameEnd(a: string, p: string, c: string, q: string)
    requires Decimal.AllDigits(p) && Decimal.AllDigits(q) && a + ("-" + p) == c + ("-" + q)
    ensures |p| == |q|
  {
    var s := a + ("-" + p);
    assert s[|a|] == '-' && s[|c|] == '-';
    assert forall i :: |a| < i < |s| ==> s[i] == p[i - |a| - 1];
    assert forall i :: |c| < i < |s| ==> s[i] == q[i - |c| - 1];
  }

  /** Processes of different ids are out of each other's way at one blueprint. */
  lemma OtherProcessClear(b: Backup, x: Item, agentsDir: Option<Path>, tools: Tools, pidX: string, pidY: string)
    requires ItemFits(b, x, tools) && pidX != pidY
    ensures Clear(PartialOf(b, x, agentsDir, tools, pidY), ReachOf(b, x, agentsDir, tools, pidX))
  {
    var rel := RelOf(x.src, agentsDir, tools.digest);
    OtherNamesClear(b, x, x, agentsDir, tools, pidX, pidY);
    NamesOf(b, x, agentsDir, tools, pidX);
    NamesOf(b, x, agentsDir, tools, pidY);
    var stem := "." + rel[1] + ".partial-";
    assert PartialName(rel[1], pidY) == stem + pidY && PartialName(rel[1], pidX) == stem + pidX;
    assert (stem + pidY)[|stem|..] == pidY && (stem + pidX)[|stem|..] == pidX;
    assert |stem + pidY| > |rel[1]|;
    SameTwo(b.dir, rel[0], stem + pidY, rel[0], stem + pidX);
    SameTwo(b.dir, rel[0], stem + pidY, rel[0], rel[1]);
  }

  // ---- When nothing is left ----

  /** A process's id is a number, no blueprint's name is hidden, none is listed twice, and the digest tells
      their directories apart. */
  ghost predicate PlainRun(b: Backup, run: Run, agentsDir: Option<Path>, tools: Tools) {
    && Decimal.AllDigits(run.pid)
    && (forall i | 0 <= i < |run.items| ::
          ItemFits(b, run.items[i], tools) && PlainName(NameOf(run.items[i].src)))
    && forall i, j | 0 <= i < j < |run.items| ::
         run.items[i].src != run.items[j].src && ToldApart(tools.digest, run.items[i].src, run.items[j].src)
  }

  lemma NotEachOthers(b: Backup, x: Item, y: Item, agentsDir: Option<Path>, tools: Tools, pidX: string, pidY: string)
    requires ItemFits(b, x, tools) && ItemFits(b, y, tools) && Decimal.AllDigits(pidX) && Decimal.AllDigits(pidY)
    requires PlainName(NameOf(x.src))
    requires pidX != pidY || (x.src != y.src && ToldApart(tools.digest, x.src, y.src))
    ensures Clear(PartialOf(b, y, agentsDir, tools, pidY), ReachOf(b, x, agentsDir, tools, pidX))
  {
    var rel, own := RelOf(y.src, agentsDir, tools.digest), RelOf(x.src, agentsDir, tools.digest);
    OtherNamesClear(b, x, y, agentsDir, tools, pidX, pidY);
    if pidX == pidY {
      PlacesTell(b, x, y, agentsDir, tools);
      assert x.src == ParentOf(x.src) + [NameOf(x.src)] && y.src == ParentOf(y.src) + [NameOf(y.src)];
    }
    NamesOf(b, x, agentsDir, tools, pidX);
    NamesOf(b, y, agentsDir, tools, pidY);
    assert own[1][0] == NameOf(x.src)[0] && PartialName(rel[1], pidY)[0] == '.';
    hide ItemFits, PartialOf, DestOf, ReachOf, RelOf, PartialName, Clear;
    SameTwo(b.dir, rel[0], PartialName(rel[1], pidY), own[0], own[1]);
    SameTwo(b.dir, rel[0], PartialName(rel[1], pidY), own[0], PartialName(own[1], pidX));
    if PartialName(rel[1], pidY) == PartialName(own[1], pidX) {
      PartialNamesDiffer(rel[1], pidY, own[1], pidX);
    }
  }

  /** What all of a run's items leave alone. */
  ghost predicate ClearOfRun(b: Backup, run: Run, agentsDir: Option<Path>, tools: Tools, q: Path) {
    forall i | 0 <= i < |run.items| :: run.items[i].src != []
        && Clear(q, ReachOf(b, run.items[i], agentsDir, tools, run.pid))
  }

  lemma {:induction false} ClearOfRuns(b: Backup, runs: seq<Run>, agentsDir: Option<Path>, tools: Tools, q: Path)
    requires RunsFit(b, runs, tools) && forall r | 0 <= r < |runs| :: ClearOfRun(b, runs[r], agentsDir, tools, q)
    ensures OutOfReach(AllPlans(b, runs, agentsDir, tools), q)
    decreases |runs|
  {
    hide Clear, ReachOf, ItemFits;
    if runs != [] {
      var n := |runs| - 1;
      ClearOfRuns(b, runs[..n], agentsDir, tools, q);
      assert ClearOfRun(b, runs[n], agentsDir, tools, q);
    }
  }

  /** Processes no two of which have one id, started where nothing is left under their ids, find nothing
      left: so none of their turns is soiled, whatever fails and wherever they die. */
  lemma {:induction false} DifferentProcesses(s: State, b: Backup, runs: seq<Run>, agentsDir: Option<Path>,
                                              tools: Tools)
    requires forall r | 0 <= r < |runs| :: PlainRun(b, runs[r], agentsDir, tools)
    requires forall r, t | 0 <= r < t < |runs| :: runs[r].pid != runs[t].pid
    requires RunsFit(b, runs, tools) && forall r, j | 0 <= r < |runs| && 0 <= j < |runs[r].items| ::
               !IsDir(s.root, PartialOf(b, runs[r].items[j], agentsDir, tools, runs[r].pid))
    ensures NothingLeft(s, AllPlans(b, runs, agentsDir, tools))
    decreases |runs|
  {
    if runs != [] {
      var n := |runs| - 1;
      var run, more := runs[n], PlansOf(b, runs[n].items, agentsDir, tools, runs[n].pid);
      DifferentProcesses(s, b, runs[..n], agentsDir, tools);
      hide PartialOf, DestOf, ReachOf, Clear, ItemFits, IsDir, NothingLeft, AllPlans;
      forall j | 0 <= j < |more|
        ensures !IsDir(s.root, more[j].partial)
        ensures OutOfReach(AllPlans(b, runs[..n], agentsDir, tools), more[j].partial)
        ensures OutOfReach(more[..j], more[j].partial)
      {
        ClearOfOthers(b, runs, n, j, agentsDir, tools);
      }
      NothingLeftThen(s, AllPlans(b, runs[..n], agentsDir, tools), more);
      OneRunMore(b, runs, n, agentsDir, tools);
      assert runs[..n + 1] == runs;
    } else {
      NoPlans(b, runs, agentsDir, tools);
    }
  }

  /** The name an item's copy is made under is out of reach of all before it. */
  lemma ClearOfOthers(b: Backup, runs: seq<Run>, n: nat, j: nat, agentsDir: Option<Path>, tools: Tools)
    requires n < |runs| && j < |runs[n].items| && RunsFit(b, runs, tools)
    requires forall r | 0 <= r < |runs| :: PlainRun(b, runs[r], agentsDir, tools)
    requires forall r, t | 0 <= r < t < |runs| :: runs[r].pid != runs[t].pid
    ensures var q := PartialOf(b, runs[n].items[j], agentsDir, tools, runs[n].pid);
            && OutOfReach(AllPlans(b, runs[..n], agentsDir, tools), q)
            && forall i | 0 <= i < j ::
                 Clear(q, ReachOf(b, runs[n].items[i], agentsDir, tools, runs[n].pid))
  {
    hide PartialOf, DestOf, ReachOf, Clear, ItemFits;
    var y := runs[n].items[j];
    var q := PartialOf(b, y, agentsDir, tools, runs[n].pid);
    assert PlainRun(b, runs[n], agentsDir, tools);
    hide PlainName, ToldApart;
    forall r, i | 0 <= r <= n && 0 <= i < |runs[r].items| && (r < n || i < j)
      ensures Clear(q, ReachOf(b, runs[r].items[i], agentsDir, tools, runs[r].pid))
    {
      assert PlainRun(b, runs[r], agentsDir, tools);
      NotEachOthers(b, runs[r].items[i], y, agentsDir, tools, runs[r].pid, runs[n].pid);
    }
    var before := runs[..n];
    forall r | 0 <= r < n ensures ClearOfRun(b, before[r], agentsDir, tools, q) {
      assert before[r] == runs[r];
    }
    ClearOfRuns(b, before, agentsDir, tools, q);
  }
}
