# Leviath: a verified model of its writers, upgrades and release tools

A Dafny model of the parts of Leviath that change something a person relies on, with proofs of what they promise.

- **The blueprint writer** (`TomlTree`, `Candidates`, `Minimise`, `MinimiseLaws`, `Refill`, `SchemaReader`,
  `RenderSchema`): a bisecting minimiser over a TOML tree that leaves out every key whose absence reads back as the same
  file, and the pass that gives emptied tables a key back. The reader is first any predicate on trees, then a reader that
  goes by a schema, for which what is written always reads back as the file.
- **The upgrade of blueprints in place** (`Filesystem`, `Disk`, `Leftovers`, `Traces`, `HomeBackup`, `Bundled`, `Decimal`,
  `BlueprintUpgrade`, `Turns`, `UpgradeRuns`, `RunAliasing`): renames, links, copies and removals over a file system with
  inodes. Every call may fail: an oracle the disk carries says which do, and the disk counts those (`hits`), so that what
  succeeds when nothing fails by chance can be said. It also keeps each state it has been in, so that a property of all of
  them is a property of every point at which the process may die, and a later process can start from any of them. What
  went wrong is read off those states too: a turn is soiled by a step that rewrites a file, or fills its place in the
  backup, while something harmful an earlier copy left has been in the way all along.
- **The table refreshers** (`Order`, `Diff`, `Refresh`, `Litellm`, `Prices`, `PriceLaws`, `Lookups`, `UnitRows`,
  `BedrockWindows`, `Modalities`): merges of fetched rows into a kept table, with refusals, prefix collapse and exact
  change lists, and the lookup that prices the ids left out. Figures are reals.
- **A stage's added regions** (`AddRegions`): the order-keeping overlay on the shared layout.
- **The release tools** (`Text`, `Semver`, `Manifest`, `Versions`, `BumpLevel`, `CivilDate`, `Release`, `Structure`):
  line-by-line rewriting of versions, the changelog's roll, the level a bump has to move, the calendar, and the count
  of production lines. Text is a sequence of characters.

Code that works step by step is a method with its loops, or a class with its fields, proved against a function; what the
code promises is proved of that function. `Wrappers` and `Sets` are shared. The clock, what is fetched, which
system call fails, the digest of a path and the converters of old manifests are parameters, or nondeterministic choices.

## Where the code does less than is said of it

- A migration whose last rename fails has already written `agent.toml`: both manifests then stand, though the module's
  comment (crates/leviath-cli/src/blueprint_upgrade.rs:13-14) has a blueprint that cannot be migrated left exactly as it
  was. Its files are, exactly when the failing step is an earlier one; when no call fails by chance, exactly when
  `legacy/agent.leviath` is not a directory or an earlier step stops it (`BlueprintUpgrade.Migrate`, and
  `BlueprintUpgrade.MigrationLeavesBoth` for an input).
- The blueprint is left exactly as it was, directories too, exactly when the migration failed at reading the manifest or
  making `legacy/`, or at writing with `legacy/` there before: otherwise a new `legacy/` stays
  (`BlueprintUpgrade.MigrationLeavesLegacy`). A rewrite that fails once it has begun to keep the old text leaves the copy,
  and the same holds of it (`BlueprintUpgrade.Rewrite`, `BlueprintUpgrade.RewriteLeavesCopy`), though a failure is described
  as left as it was (crates/leviath-cli/src/blueprint_upgrade.rs:58).
- A leftover of an interrupted copy that cannot be removed is copied over and moved in with the next copy
  (`HomeBackup.SaveOverLeftover`, and `HomeBackup.StaleNameIsSaved` for a run). The copy then is whole exactly when
  nothing was left but directories of the blueprint's, or, for a run, links to empty files of its own; it reads like the
  source exactly when the source has every name that was left, as the same kind, where no file left matters by another
  name (`HomeBackup.CopyIn`). Either can be looked up before the copy begins. Even so the blueprint is not touched unless
  a copy is in its place (`UpgradeRuns.UpgradeSaved`). A leftover link to a run's own file can cost that file its text
  (`HomeBackup.LinkLeftoverLosesText`); the same contract says exactly when the source keeps its texts.
- A linked file of a saved run that is later moved into `stages/` and appended to changes the saved run
  (`RunAliasing.MovedIntoStagesShows`).
- LiteLLM's copies of a model are compared with the first of them and not with each other, so copies that disagree beyond
  tolerance can be kept (`Litellm.DisagreeingCopiesKept`; exactly when they are dropped: `Litellm.DroppedExactlyWhen`; how
  far apart those kept can be: `Litellm.KeptCopiesAreClose`).
- The tier of a long prompt is that of the least threshold named, not of the least that carries both prices
  (`Litellm.TierAsDocumented`).
- An id left out because a shorter one covers it need not be priced by the row the lookup finds: that row may be another
  one, a person's, or lack a cache rate or a long prompt's tier that the id has. Exactly when it is priced right:
  `Lookups.LeftOutPricedRight`, and `Lookups.CoveredPricedRight` in terms of the two published rates; inputs that fail:
  `Lookups.CacheSideAndTierLost`, `Lookups.CoverByHandPricesOtherwise`, `Lookups.RowBetweenPricesOtherwise`.
- A Bedrock refresh run twice is refused the second time when the first one made the table more than twice as long as the
  cards read (`BedrockWindows.RefreshTwice`).
- A shared layout with a repeated name, hidden and added once, shows a second region of it (`AddRegions.FoldShows`).
  Checking a graph refuses such a layout elsewhere.
- A pin whose quotes hold the start of its path is written once and not again (`Versions.SetTwice`, and
  `Versions.SetTwiceDiffers` for a manifest).
- `set` finds a changelog without its heading, or a document without its version line, only after both manifests are
  written (`Release.Workspace.Set`).
- The line of the workspace version is replaced whole, so a comment after it is lost (`Versions.CommentIsLost`).

## Model

| member | source | states |
|---|---|---|
| TomlTree.RemoveKeepsOthers | crates/leviath-blueprint/src/write.rs:137-184 | no candidate lies beneath another and array positions never move: after one is taken out every other is still a candidate, at the same path, holding the same value |
| TomlTree.RemovesCommute | crates/leviath-blueprint/src/write.rs:173-184 | two candidates can be taken out in either order, each still there when its turn comes, with the same tree left |
| TomlTree.RemoveShrinks | crates/leviath-blueprint/src/write.rs:173-184 | taking a key out takes at least it away from the keys of the tree and brings none in: why the outer loop ends |
| Candidates.ListedExactly | crates/leviath-blueprint/src/write.rs:137-171 | the walk lists every default-looking key at any depth, each once, and nothing else |
| Candidates.Collect | crates/leviath-blueprint/src/write.rs:137-161 | the pushing walk yields what was there followed by that listing |
| Candidates.RemoveThins | crates/leviath-blueprint/src/write.rs:173-184 | a tree with a key taken out is the tree thinned: same arrays and leaves, tables with fewer keys in the same order |
| Minimise.RemoveAll | crates/leviath-blueprint/src/write.rs:90-93 | a whole batch can be taken out without any path going missing; only keys of the batch, and keys that were there, are affected |
| Minimise.SettleSplits | crates/leviath-blueprint/src/write.rs:102-106 | both halves of a split batch are non-empty, what the first half keeps is not in the second and survives it, and settling the batch is settling the halves in turn |
| Minimise.SettleDecides | crates/leviath-blueprint/src/write.rs:84-108 | each round leaves strictly fewer keys that are in the tree and not known to be needed, although an emptied table makes new candidates |
| Minimise.Minimizer.SettleBatch | crates/leviath-blueprint/src/write.rs:84-108 | the recursive bisection, changing the tree and the set of needed keys in place, computes `Settle` and never loses a needed key |
| Minimise.Minimizer.Minimize | crates/leviath-blueprint/src/write.rs:69-80 | the loop ends, and leaves `Minimized` of the tree it was given |
| Minimise.MinimizeReads | crates/leviath-blueprint/src/write.rs:69-108 | whatever the reader does, a tree that reads as the file still does once minimised |
| Minimise.KeptStays | crates/leviath-blueprint/src/write.rs:84-108 | a key found needed is a candidate of the tree to the end, so it is never looked at again in vain |
| MinimiseLaws.MinimizeFromIsNormal | crates/leviath-blueprint/src/write.rs:69-108 | for a reader that reads alike between two trees it reads alike, every default-looking key left in is one without which the file reads otherwise |
| MinimiseLaws.NothingMoreCanGo | crates/leviath-blueprint/src/write.rs:69-108 | nor can any batch of the keys left be taken out together |
| MinimiseLaws.NoDefaultStays | crates/leviath-blueprint/src/write.rs:137-171 | so a boolean, one of the words that are defaults, an empty list or an empty table that is still there is one without which the file reads otherwise |
| MinimiseLaws.SettingsStay | crates/leviath-blueprint/src/write.rs:137-171 | whatever the reader does, a number, or a word that is no default, is at its place in the minimised tree |
| MinimiseLaws.MinimizeIsRun | crates/leviath-blueprint/src/write.rs:69-108 | every minimisation is some order of single removals, the tree reading as the file after each |
| MinimiseLaws.RunsAgree | crates/leviath-blueprint/src/write.rs:69-108 | for a reader that fills absent keys in one by one, any two orders of single removals that can go no further end in the same tree |
| MinimiseLaws.MinimizeIsOneAtATime | crates/leviath-blueprint/src/write.rs:69-108 | bisection refines the simple form: trying keys one at a time in any order until none can go gives exactly the minimised tree, whatever the split |
| MinimiseLaws.MinimizeHasARun | crates/leviath-blueprint/src/write.rs:69-108 | such an order exists for every tree |
| Refill.RefilledBetween | crates/leviath-blueprint/src/write.rs:113-131 | refilling never asks for a key the full tree lacks, and its result lies between the minimised tree and the full one |
| Refill.RefilledNothingEmptied | crates/leviath-blueprint/src/write.rs:110-131 | no table is left empty that was not empty in the full tree |
| Refill.RefilledOnlyEmptied | crates/leviath-blueprint/src/write.rs:110-131 | where no table was emptied nothing changes |
| Refill.RefilledTwice | crates/leviath-blueprint/src/write.rs:113-131 | refilling again changes nothing |
| Refill.RefilledIsFirstBack | crates/leviath-blueprint/src/write.rs:113-131 | refilling gives the tree that does so, and no other tree does |
| Refill.Render | crates/leviath-blueprint/src/write.rs:110-131 | path by path, wherever the minimised tree has an empty table and the full one a table with keys, what is written has the full table's first key with all it holds; everywhere else it has the minimised tree's keys, order and leaves |
| Refill.RenderRoundTrips | crates/leviath-blueprint/src/file.rs:78-83 | what is written reads back as the file, although `refill` never reads the tree again, for any reader that reads alike between two trees it reads alike: the general form of the round trip |
| Refill.RefillNeedsConvex | crates/leviath-blueprint/src/write.rs:110-131 | of the general form only, some such condition is needed: a reader of two trees and no other, which no schema gives, for which what is written reads otherwise though the minimised tree reads as the file |
| RenderSchema.RefilledReads | crates/leviath-blueprint/src/write.rs:110-131 | for a reader by a schema of any kind, the keys put back into emptied tables of a thinned tree leave what it reads as alone |
| RenderSchema.SchemaRoundTrips | crates/leviath-blueprint/src/file.rs:78-83 | for every schema, with records, lists, maps, documents, tagged variants and short forms that may read as what their table reads as, and any defaults at all, and for every file: the value written reads back as the file |
| SchemaReader.ReadBetween | crates/leviath-blueprint/src/write.rs:133-135 | a reader that goes by a schema with defaults, variants and short forms, whose own default of a field is what its bare value reads as, reads every tree between two the way it reads those |
| SchemaReader.SchemaIsConvexAndJoint | crates/leviath-blueprint/src/write.rs:133-135 | so it meets both conditions the minimiser's results rest on, for every file |
| SchemaReader.IncoherentSchemaIsNotConvex | crates/leviath-blueprint/src/write.rs:133-135 | a struct default that is not what its fields' defaults add up to breaks the first of them |
| Filesystem.RenameMoves | crates/leviath-cli/src/blueprint_upgrade.rs:200-210 | a rename moves the tree at one path to another, changes nothing apart from the two, and writes to no file |
| DiskModel.Disk.RemoveTree | crates/leviath-cli/src/blueprint_upgrade.rs:227-230 | `remove_dir_all` goes entry by entry and may stop anywhere; it changes nothing apart from the directory |
| DiskModel.Disk.MakeDirs | crates/leviath-cli/src/home_backup.rs:149-191 | making the way to a place may stop anywhere and changes no file |
| BlueprintUpgrade.Reinstall | crates/leviath-cli/src/blueprint_upgrade.rs:219-259 | for every pattern of failing steps and every state on the way: the old tree is whole, unwritten, at exactly one of `dir`, the aside path and `dir/legacy` (at one at least, if the aside path held the very same to begin with); on success `dir` outside `legacy/` is the bundle and `dir/legacy` is the old tree; on an error the old tree is at `dir`, or at the aside path the error names; with the room it needs it succeeds unless a call fails by chance; it is not put back only if the new install is in place or a second call failed; and no staging directory stays unless the call to remove it failed |
| BlueprintUpgrade.MoveIn | crates/leviath-cli/src/blueprint_upgrade.rs:240-259 | the same for the steps after the old tree went aside, where undoing may itself fail; it succeeds unless a call fails by chance |
| BlueprintUpgrade.RoomToReinstall | crates/leviath-cli/src/blueprint_upgrade.rs:210-230 | the room a reinstall needs, exactly: an install there, no more than an empty directory where it is moved aside, no file where the new one is built, and no file of the bundle where another needs a directory |
| BlueprintUpgrade.OtherProcessWorks | crates/leviath-cli/src/blueprint_upgrade.rs:210-221 | reinstalls of one blueprint by processes of different ids share neither working directory |
| BlueprintUpgrade.ReinstalledIsUpToDate | crates/leviath-cli/src/blueprint_upgrade.rs:219-259 | after a reinstall that reports success nothing is planned for the blueprint: it is up to date |
| BlueprintUpgrade.IntactWithLegacy | crates/leviath-cli/src/blueprint_upgrade.rs:250-252 | the old tree kept under `legacy/` does not make the install differ from the bundle |
| BlueprintUpgrade.Migrate | crates/leviath-cli/src/blueprint_upgrade.rs:285-309 | in every state on the way the old manifest is whole at its place or under `legacy/`; on success the converted text is in `agent.toml` and the old manifest only under `legacy/`; an error leaves every file as it was if and only if the failing step is not the last rename, after which both manifests stand; it leaves the blueprint exactly as it was, directories too, if and only if it failed at reading or making `legacy/`, or at writing with `legacy/` there before; which step it ends at, when no call fails by chance, is read off the state before it |
| BlueprintUpgrade.MigrationLeavesBoth | crates/leviath-cli/src/blueprint_upgrade.rs:285-309 | a blueprint whose `legacy/agent.leviath` is a directory: no call fails by chance, the migration reports an error, and both manifests are there |
| BlueprintUpgrade.MigrationLeavesLegacy | crates/leviath-cli/src/blueprint_upgrade.rs:301-309 | a blueprint without `legacy/`, and a write that fails: the migration reports an error and the blueprint is not as it was |
| BlueprintUpgrade.KeptNamesDiffer | crates/leviath-cli/src/blueprint_upgrade.rs:323-329 | no two numbers give one name for a kept manifest |
| BlueprintUpgrade.FreeName | crates/leviath-cli/src/blueprint_upgrade.rs:323-329 | the search for a name not yet taken ends, at the first such name |
| BlueprintUpgrade.Rewrite | crates/leviath-cli/src/blueprint_upgrade.rs:314-348 | in every state on the way the manifest's text is in its file or kept, and no earlier kept manifest changes; on success the kept name was free, the old text is under it and the new text in the file; when no call fails by chance it succeeds exactly when there is something to rewrite and `legacy` is not a file; and an error leaves the blueprint exactly as it was if and only if it failed at reading or making `legacy/`, or before the kept copy was opened with `legacy/` there before |
| BlueprintUpgrade.RewriteLeavesCopy | crates/leviath-cli/src/blueprint_upgrade.rs:330-333 | a last write that fails: the rewrite reports an error and the blueprint is not as it was |
| HomeBackup.CopyTree | crates/leviath-cli/src/home_backup.rs:234-248 | over nothing, or over bare directories of the source's: a copy that reports success is whole, the same names, each leading to the same text, and one that fails or is cut short changed nothing apart from its destination. Over anything: names there stay; in every state nothing is written to but what names left, which the source has as files, lead to; it succeeds unless a call fails by chance, a file is in the way, or a name is a directory on one side and a file on the other; and the source's files hold what they held if each that is copied over is given the text it has, and only if, when no two names left lead to one file |
| HomeBackup.Save | crates/leviath-cli/src/home_backup.rs:130-145 | whatever was left, whatever fails, in every state, crash points included: nothing but the backup's own places changes, the item is as it was, and what was at its backup path is there; what has come there is a whole copy, and no text has changed, unless a step before that rewrote a file or filled the place while something harmful had been there ever since the save began. When copying began, and what had failed by then, is fixed by the names that come and go. Over whatever was left the copy succeeds unless a call fails after that or the kinds of two names clash, with all that was left in it; the source reads as it did, in every state, where no file left is one of the source's. Of a copy that failed nothing is left unless the call to remove it failed too, and the README is there. A save with the room it needs succeeds unless a call fails by chance |
| HomeBackup.Replace | crates/leviath-cli/src/home_backup.rs:136-145 | the same of its steps once the README is there; something harmful is in the way of the copy only if the call to remove it failed |
| HomeBackup.SaveOverLeftover | crates/leviath-cli/src/home_backup.rs:136-145 | whenever the first call of the removal is the only one that fails, the save reports success over the leftover: what it leaves in the backup, and what becomes of the source, is as stated for `CopyIn` |
| HomeBackup.StaleNameIsSaved | crates/leviath-cli/src/home_backup.rs:138-140 | a run of `Save` in which the removal fails, that reports success with a file in the backup the blueprint has not |
| HomeBackup.CopyIn | crates/leviath-cli/src/home_backup.rs:138-145 | of what was left when copying begins, copied or linked: what is moved in is a whole copy if and only if nothing was left but directories of the source's and links to empty files of it that may be linked, for a copy directories alone; where each file left has no other name, or is such a link, it reads like the source, path by path, if and only if nothing was left that the source has not; and the source reads as it did if each of its files copied over is given the text it has, and only if, when no two names left lead to one file |
| HomeBackup.SameIsWhole | crates/leviath-cli/src/home_backup.rs:109-124 | over bare directories of the source's and links to its own empty files, a copy or a linking that reports success is whole |
| HomeBackup.WholeIsSame | crates/leviath-cli/src/home_backup.rs:109-124 | and over nothing else: whatever else was left, what is moved in is no whole copy |
| HomeBackup.MovedIn | crates/leviath-cli/src/home_backup.rs:139-140 | the last rename is what brings the copy to its place, all of it at once |
| HomeBackup.LeftoverIsMovedIn | crates/leviath-cli/src/home_backup.rs:138-140 | for every source directory: with anything left but bare directories of its own, what is moved in is not wholly in files of its own; that it is moved in is `SaveOverLeftover` |
| Traces.ChangeSoils | crates/leviath-cli/src/home_backup.rs:136-140 | over something harmful, a text changes only by a step that soils the copy, and only of a file that a name left led to, where the source has a file too |
| Traces.FillSoils | crates/leviath-cli/src/home_backup.rs:136-140 | over something harmful, the place in the backup is filled only by a step that soils the copy |
| Leftovers.MisfitStays | crates/leviath-cli/src/home_backup.rs:138-140 | for every source: a name left that the source lacks, or has as the other kind, is in what is moved in, which is not like the source then |
| Leftovers.NotSharedKept | crates/leviath-cli/src/home_backup.rs:109-124 | whatever is written over, the source reads as it did where no file left that it has too is one of its own |
| HomeBackup.LinkLeftoverLosesText | crates/leviath-cli/src/home_backup.rs:109-145 | a run of `Save`, linking, over a leftover link to the run's own file that is not removed: it reports success, and the run's file is empty |
| UpgradeRuns.UpgradeOne | crates/leviath-cli/src/blueprint_upgrade.rs:182-196 | the way chosen changes nothing apart from the blueprint and, when it is reinstalled, its own two working directories; and each answer means what the reinstall, the migration or the rewrite it comes from means by it |
| UpgradeRuns.ReplacementIs | crates/leviath-cli/src/blueprint_upgrade.rs:182-196 | an install, and no other blueprint, gives way to the bundled one of its name, if there is one |
| UpgradeRuns.PlaceIs | crates/leviath-cli/src/home_backup.rs:91-100 | an install goes to `agents/` under its own name; any other blueprint to `agent_paths/`, under its name and a dash and more |
| UpgradeRuns.PlacesTell | crates/leviath-cli/src/home_backup.rs:81-100 | for digests of one length, two blueprints share a place in the backup exactly when they are one blueprint, or neither is an install, they have one name, and the digest does not tell their directories apart |
| UpgradeRuns.TurnLeavesAlone | crates/leviath-cli/src/home_backup.rs:81-100 | so of two blueprints that lie apart, whose directories the digest tells apart, the turn of one leaves the other and its place alone |
| UpgradeRuns.OwnGuarded | crates/leviath-cli/src/blueprint_upgrade.rs:124-144 | and over a whole list of such blueprints, whose names begin with no dot, every turn is the blueprint's own or leaves it and its place alone |
| UpgradeRuns.RunsGuarded | crates/leviath-cli/src/blueprint_upgrade.rs:124-144 | and over the lists of several runs |
| UpgradeRuns.UpgradeSaved | crates/leviath-cli/src/blueprint_upgrade.rs:148-164 | in every state from start to crash or end, under no condition: a copy already at the blueprint's backup path stays as it is, and the blueprint has not changed unless one is there. One that has come is a whole copy of the blueprint as it was, and no text has changed, unless a step soiled it: one that rewrote a file or filled the place while something harmful had been at the partial path ever since the turn began; none is taken unless a call fails. A blueprint that is not saved is left as it was, and one that is is changed as the answer says |
| UpgradeRuns.UpgradeAll | crates/leviath-cli/src/blueprint_upgrade.rs:124-144 | the same of every blueprint, in the list or not, that each turn is of or does not reach. In every state, under no condition, its saved copy stays and it is as it was unless one is there; a soiled turn costs its own blueprint the whole copy, and no other blueprint anything, unless a file it was copied over was theirs too. Of a list of blueprints that lie apart and are told apart, each one not saved before is changed only once a whole copy of that very blueprint is in its place, but for soiled turns. No turn is soiled if no process of the same id left anything, or if no call fails in it; and an item fails only if a call fails in its turn or it lacks the room at its turn |
| Turns.SafeThen | crates/leviath-cli/src/home_backup.rs:81-101 | two stretches of work that each keep a blueprint's texts, and save it whole if at all, do so as one |
| Turns.TurnsKeepPromise | crates/leviath-cli/src/blueprint_upgrade.rs:124-164 | over any list of turns, whichever were soiled: in each state every saved copy is there, and every blueprint as it was unless one is; texts are kept but for files a soiled turn was copied over, and copies are whole but for soiled turns' own |
| Turns.OwnFilesSpillNothing | crates/leviath-cli/src/home_backup.rs:136-140 | a soiled turn whose leftover files have no other name costs no other blueprint anything |
| Turns.PromisedSavedFirst | crates/leviath-cli/src/blueprint_upgrade.rs:146-164 | where nothing had been saved for a blueprint, then in every state in which no soiled turn was its own or came over a file of its, it is as it was, or a whole copy of that very blueprint is in its place |
| Turns.TurnsCut | crates/leviath-cli/src/blueprint_upgrade.rs:124-164 | a process that dies at any state leaves its turns kept so far as they went, and soiled only if they would have been |
| Turns.NothingLeftAllKept | crates/leviath-cli/src/blueprint_upgrade.rs:124-164 | where nothing was left, all of this holds of every state under no condition |
| UpgradeRuns.RunAfterRun | crates/leviath-cli/src/blueprint_upgrade.rs:124-164 | over any number of runs, each with its own process id and its own list and stopped at any state, whatever is left and whatever calls fail: in every state, under no condition, each such blueprint is as it was at first unless a saved copy of it is there, which then stays; that copy is a whole copy of it as it was at first unless its own turn was soiled, and the texts of either are kept unless a soiled turn was copied over a file of theirs; where the blueprints of all lists lie apart and are told apart, this is so of each, and one not saved before is changed only once a whole copy of that very blueprint is in its place, but for soiled turns; no turn is soiled if no process finds a leftover under its own id, or if no call fails in it; and a run ends where it dies, or has answered for every item |
| UpgradeRuns.DifferentProcesses | crates/leviath-cli/src/home_backup.rs:136-137 | processes of different ids, started where nothing is left under their ids, find nothing left: so none of their turns is soiled |
| UpgradeRuns.OtherNamesClear | crates/leviath-cli/src/home_backup.rs:136-137 | one upgrade reaches the name another makes its copy under exactly when that name is its own copy's or its place's |
| UpgradeRuns.OtherProcessClear | crates/leviath-cli/src/home_backup.rs:136-137 | so processes of different ids are out of each other's way at one blueprint, as the name is meant to ensure |
| RunAliasing.SavedRunSharesNoLog | crates/leviath-cli/src/home_backup.rs:113-124 | a saved run shares no inode with a stage log, whichever files were linked and whichever fell back to a copy |
| RunAliasing.StepsKeepCopy | crates/leviath-cli/src/home_backup.rs:103-124 | any sequence of renames of the run's files and appends to its logs keeps that so |
| RunAliasing.SavedRunStays | crates/leviath-cli/src/home_backup.rs:103-124 | after any such sequence every file of the saved run reads as at save time |
| RunAliasing.SaveRun | crates/leviath-cli/src/home_backup.rs:103-124 | `save_run` itself: if it reports success the run is saved whole, and then reads as it did when saved whatever such sequence follows, unless a step soiled the copy while something harmful was there from the start on; the copy moved in is whole if and only if, when copying began, nothing was left but directories of the run's and links to its own empty files; something harmful was there then only if the call to remove it failed; and, if no call fails by chance, every file but the logs is the run's own, linked |
| RunAliasing.RunPlaces | crates/leviath-cli/src/home_backup.rs:112-117 | a run goes to `runs/` under its name, so two runs of one directory share a place only if they are one |
| RunAliasing.AppendShowsIff | crates/leviath-cli/src/home_backup.rs:109-112 | an append shows in the saved run exactly when it is of a non-empty text to a file of the saved run's own |
| RunAliasing.MovedIntoStagesShows | crates/leviath-cli/src/home_backup.rs:109-112 | a file that was linked, moved into `stages/` and appended to there does change the saved run |
| Bundled.InstallBundled | crates/leviath-cli/src/bundled.rs:254-273 | on success what is under the directory is the bundle's files and no other; stopped anywhere, nothing apart from the directory has changed |
| Bundled.InstalledFileCount | crates/leviath-cli/src/bundled.rs:110-120 | the recursive count is the number of file paths under the directory |
| Bundled.CountsApart | crates/leviath-cli/src/bundled.rs:90-103 | the count under `legacy/` is part of the whole count, so the subtraction never underflows, and what is left counts the files outside it |
| Bundled.MatchesBundled | crates/leviath-cli/src/bundled.rs:90-103 | true exactly when the files outside `legacy/` are the bundle's, byte for byte, with none missing and none more |
| Bundled.UpToDateIsIntact | crates/leviath-cli/src/bundled.rs:136-149 | the answer is `UpToDate` exactly when those files are the bundle's |
| Bundled.ActionMeans | crates/leviath-cli/src/bundled.rs:136-149 | `Install` exactly when nothing there states a version, `Update` when another version is stated, and of the bundle's version `UpToDate` or `Modified` as every file outside `legacy/` is the bundle's or not |
| Bundled.InstalledIsUpToDate | crates/leviath-cli/src/bundled.rs:136-149 | a fresh install is up to date |
| Diff.DiffApplies | xtask/src/prices.rs:837-963 | the list of changes applied to the table before gives the table after, when no row was dropped |
| Diff.NoDiff | xtask/src/prices.rs:837-963 | nothing is listed exactly when nothing changed |
| Refresh.Fold | xtask/src/modalities.rs:297-323 | the loop the two smaller refreshers share: refused exactly when some row it would replace is refused, else the rows are those of `After` and the changes exactly the difference |
| Refresh.AfterTwice | xtask/src/modalities.rs:297-323 | folding the same rows in again finds nothing to replace |
| Prices.AgreementIsNotTransitive | xtask/src/prices.rs:425-428 | two figures may each agree with a third and not with each other |
| Prices.KeptIff | xtask/src/prices.rs:884-898 | an id is kept exactly when the file has it or no kept shorter id of the same provider that is a prefix of it agrees with it |
| Prices.KeptKeysCollapse | xtask/src/prices.rs:884-898 | there is a set of ids that meets that rule, which speaks of the set itself |
| Prices.CollapseIsUnique | xtask/src/prices.rs:884-898 | and only one |
| Prices.Collapse | xtask/src/prices.rs:884-898 | one pass over the ids in order, comparing with those kept so far, finds it |
| Prices.CollapseAgain | xtask/src/prices.rs:884-898 | taking the kept ids as already in the file keeps the same ids |
| Prices.CheckSources | xtask/src/prices.rs:843-851 | a merge starts exactly when both sources list every provider; a refusal names a source and a provider it does not list |
| Prices.SameDoesNotMove | xtask/src/prices.rs:900-938 | a row written as it was has not moved, so asking about the move before or after asking whether it changed is the same |
| Prices.Write | xtask/src/prices.rs:900-938 | refused exactly when some row it would write moves too far; else the rows and the exact changes |
| Prices.Merge | xtask/src/prices.rs:837-963 | goes ahead exactly when the sources are complete, no written row moves too far and every row left has a positive price; then, id by id: a person's row, one in dispute and one no source prices stay; any other id of the table that is priced, and a new one unless a shorter id of the table prices it within tolerance, is written with input, output and cache sides of OpenRouter where it prices the id and else of LiteLLM, to the millionth, LiteLLM's tier, and the name of the source, or `both`; with the exact changes, exactly the ids priced apart in dispute, and a new day only when something changed |
| Prices.TableAfter | xtask/src/prices.rs:837-963 | this is what becomes of every id, present, new or left out |
| PriceLaws.RefreshTwice | xtask/src/prices.rs:837-963 | a refresh that goes ahead goes ahead again on its own table, and leaves it as it is, although the ids already in the file are now others |
| PriceLaws.RefreshAgain | xtask/src/prices.rs:837-963 | two merges in a row: the second has no changes, the same rows and the same day |
| PriceLaws.RefreshIsCareful | xtask/src/prices.rs:53-57 | no row is lost, a person's row and a row in dispute stay, no input or output of a row moves more than threefold, and every price is positive |
| PriceLaws.FarIsThreefold | xtask/src/prices.rs:935-963 | a row moves too far exactly when one of two inputs, or of two outputs, is more than three times the other |
| PriceLaws.RefreshAdds | xtask/src/prices.rs:884-938 | a row is new exactly when its id was kept and not in the file |
| PriceLaws.RefreshDiffApplies | xtask/src/prices.rs:900-963 | the change list applied to the old table gives the new one |
| Lookups.LeftOutIsCovered | xtask/src/prices.rs:884-898 | an id left out is covered by a kept id that has a row in the new table |
| Lookups.LeftOutPricedRight | xtask/src/prices.rs:34-36 | the row the longest-prefix lookup finds for an id left out prices it right if and only if, when the refresh wrote that row, the two candidates' figures and tiers are alike, and when it did not, the figures and tier of the row that was there are |
| Lookups.CoveredPricedRight | xtask/src/prices.rs:395-436 | so, for rates published to the millionth that agree, it is priced right exactly when each cache side only one of them publishes is within tolerance of what the other is charged in its stead, and the long-prompt tiers are alike |
| Lookups.CacheSideAndTierLost | xtask/src/prices.rs:415-436 | a covered id with a cache read and a tier of its own is charged ten times the cache read and no tier, with no row between and none by hand |
| Lookups.CoverByHandPricesOtherwise | xtask/src/prices.rs:900-912 | with a person's row at the covering id the id left out gets that row's price, which is not its own |
| Lookups.RowBetweenPricesOtherwise | xtask/src/prices.rs:34-36 | with a row between the two at another price, the id left out is priced otherwise |
| Lookups.RowBetweenAtThePrice | xtask/src/prices.rs:34-36 | with a row between at the same price it is priced right |
| Lookups.RoundingParts | xtask/src/prices.rs:338-340 | rounding to the millionth can part two figures that agree |
| PriceLaws.RoundsToNearest | xtask/src/prices.rs:338-340 | rounding takes a figure to the nearest millionth and leaves a rounded one alone |
| PriceLaws.ResolvedFigures | xtask/src/prices.rs:395-413 | a cache write is taken only when it is at least the input rate, a cache read when it is more than nothing, and input stands in for either |
| Litellm.OneRate | xtask/src/prices.rs:783-790 | of the copies of a model the rate of the one whose key sorts first, if every copy agrees with it |
| Litellm.OrderOfCopies | xtask/src/prices.rs:783-790 | the order the copies come in does not matter |
| Litellm.KeptCopiesAreClose | xtask/src/prices.rs:724-728 | a model kept has no two copies more than 9.75% apart in input or output: twice the tolerance, less its square |
| Litellm.DroppedExactlyWhen | xtask/src/prices.rs:724-790 | that a model with any two disagreeing copies is dropped holds if and only if some copy disagrees with the first, or the least and the greatest figure published agree on every side |
| Litellm.TwoCopiesDropped | xtask/src/prices.rs:724-790 | it always holds of at most two copies |
| Litellm.DisagreeingCopiesKept | xtask/src/prices.rs:724-728 | with three it can fail, when the first lies between the others |
| Litellm.LitellmTier | xtask/src/prices.rs:493-510 | the tier of the least threshold an input field names, if that one carries both prices and both are positive: that threshold in tokens, with its own figures and cache sides |
| Litellm.TierReads | xtask/src/prices.rs:493-510 | the threshold of that tier is its number of thousands, its figures are those named for that number, and there is none exactly when one of the two prices is missing or not positive |
| Litellm.TierAsDocumented | xtask/src/prices.rs:491-510 | this is the least threshold that carries both prices exactly when the least threshold named does, or the least that does has no positive price, or none does |
| Litellm.LaterTierHidden | xtask/src/prices.rs:491-492 | a threshold without an output price hides a later one with both |
| UnitRows.MergeUnits | xtask/src/prices.rs:676-722 | a person's rows in order, then each fetched row no person priced in order, with the day of an earlier row of the same figure and else the new day; a line for each that is new or moved in order, and then one for each that is gone |
| UnitRows.UnitsAre | xtask/src/prices.rs:676-722 | row by row and line by line, what a merge leaves and prints is that |
| UnitRows.UnitsTwice | xtask/src/prices.rs:676-722 | merged again with the same rows, one a model, the rows stay and no line is printed |
| BedrockWindows.Merge | xtask/src/bedrock_windows.rs:422-465 | refused exactly for no cards, for cards fewer than half the rows, or for a limit that would move more than threefold; else the rows and the exact changes |
| BedrockWindows.RefreshIsCareful | xtask/src/bedrock_windows.rs:410-465 | no row is dropped, a person's row and a row no card names stay, and no limit moves more than threefold |
| BedrockWindows.RefreshAdds | xtask/src/bedrock_windows.rs:445-465 | a card's row is new where the table had none, and no other row is |
| BedrockWindows.GoesAheadWhen | xtask/src/bedrock_windows.rs:410-440 | a merge goes ahead exactly when some card is read, at least half as many as there are rows, and no row but a person's has a limit more than threefold, or less than a third of, its card's |
| BedrockWindows.RefreshTwice | xtask/src/bedrock_windows.rs:422-465 | merging the same cards again changes nothing, and is refused exactly when the grown table has more rows than twice the cards |
| BedrockWindows.RefreshAgain | xtask/src/bedrock_windows.rs:422-465 | two merges in a row: no changes the second time, or the refusal for few cards, by that condition |
| BedrockWindows.SecondRefreshRefused | xtask/src/bedrock_windows.rs:422-465 | the refused case happens |
| Modalities.RefreshLists | xtask/src/modalities.rs:297-323 | a person's row, and one whose lists are the catalogue's already, is as it was; any other fetched model's row is the catalogue's; and no other row changes |
| Modalities.MergeAgain | xtask/src/modalities.rs:297-323 | merging the same catalogue again changes nothing, whatever the table; the first change list gives the table |
| AddRegions.MergeRegions | crates/leviath-blueprint/src/add.rs:62-79 | the loop over slots that are emptied as they are taken computes the simple form `Laid` |
| AddRegions.LaidAt | crates/leviath-blueprint/src/add.rs:56-79 | place by place, repeated names or not: the n-th shared region of a name gives its place to the n-th added one of that name while there is one, and is kept after |
| AddRegions.LaidConserves | crates/leviath-blueprint/src/add.rs:62-79 | every added region is there exactly once, beside the shared regions none replaced |
| AddRegions.FoldLays | crates/leviath-blueprint/src/add.rs:56-79 | a folded stage's layout has, at each shared place, the next added region of that place's name while there is one and the shared one after that; behind them the other added regions in the order given; and of `hide` it keeps in order what no added region carries. A refusal is of a layout of its own, or names the first region that cannot be added and why |
| AddRegions.LeftNamed | crates/leviath-blueprint/src/add.rs:62-79 | of each name, the shared regions left are those that outnumber the added ones |
| AddRegions.FoldMeans | crates/leviath-blueprint/src/add.rs:157-196 | a stage is folded exactly when it has no layout of its own and no added name is always shown, or declared in the shared layout and not hidden; the shared total and eviction order carry over, and exactly the added names come out of `hide` |
| AddRegions.FoldShows | crates/leviath-blueprint/src/add.rs:157-196 | a folded stage shows what it showed and what it adds, each as often, exactly when no added name is more often in the shared layout than among the added regions |
| AddRegions.DistinctIsCovered | crates/leviath-blueprint/src/add.rs:157-196 | a shared layout of distinct names meets that condition |
| AddRegions.RepeatedNameComesBack | crates/leviath-blueprint/src/add.rs:157-196 | a name the shared layout has twice, hidden and added once, is shown twice |
| AddRegions.RunGraph.Fold | crates/leviath-blueprint/src/add.rs:157-196 | one stage is given just that layout or, for just that reason, nothing changes; the shared layout and the other stages never do |
| AddRegions.RunGraph.FoldAll | crates/leviath-blueprint/src/add.rs:43-54 | succeeds exactly when every stage's own fold does, and each stage is given just that layout, whatever the order |
| CivilDate.EraIsFloor | xtask/src/version.rs:399-410 | the truncating division with its correction is division that rounds down, and the day of the era is in 0..146096 |
| CivilDate.CivilIsTheCalendar | xtask/src/version.rs:399-410 | day 0 is 1970-01-01, every day's date is a date of the proleptic Gregorian calendar, and each day's date is the day after the one before, for every integer |
| CivilDate.CivilCounts | xtask/src/version.rs:399-410 | counting the days up to the date found gives the day number back |
| CivilDate.CivilOfNumber | xtask/src/version.rs:399-410 | every date is the date of its number: the other half of the inverse |
| CivilDate.NothingOverflowsIff | xtask/src/version.rs:399-410 | of all the values the arithmetic passes through, inner quotients and products included, none overflows 64 bits exactly up to the largest number less 719468; those that follow from the day of the era stay in -9..146096, and month and day fit the casts |
| Release.TodayReads | xtask/src/version.rs:385-392 | the date written is a full-date that reads back as the calendar's, ten characters long up to the year 9999 |
| Text.RejoinLines | xtask/src/version.rs:301-307 | text without carriage returns is its lines rejoined |
| Text.RejoinReads | xtask/src/version.rs:301-307 | rewritten lines rejoined read as those lines, the text ended as it was |
| Manifest.SameOccurrence | xtask/src/version.rs:161-164 | reading a pin and replacing it find the same occurrence: exactly the quoted text is replaced |
| Manifest.PinIs | xtask/src/version.rs:156-178 | a line's pin is what stands in quotes at the first `version = `, and counts where the line has the path of a crate of the workspace |
| Manifest.PinReadsBack | xtask/src/version.rs:311-319 | a replaced pin reads back as what it was replaced by |
| Manifest.FoundOutside | xtask/src/version.rs:156-158 | what names a crate by path is found in a rewritten line exactly where it stands clear of the version |
| Versions.WriteVersions | xtask/src/version.rs:257-276 | the loop with its flag computes `SetVersions`, errors included |
| Versions.AgreeingIsNone | xtask/src/version.rs:189-195 | no crate is reported exactly when every workspace pin is the version expected |
| Versions.DisagreeingAre | xtask/src/version.rs:182-197 | the crates reported are those of the lines whose pin is another, in order, each with what it pins |
| Versions.NamedByLine | xtask/src/version.rs:136-153 | a line's crate is the word before its ` = `, white space aside |
| Versions.SetThenAgrees | xtask/src/version.rs:257-276 | afterwards the manifest declares the new version and no pin disagrees |
| Versions.PinsThenAgree | xtask/src/version.rs:284-288 | the same of a manifest that has only pins |
| Versions.OnlyVersionsChange | xtask/src/version.rs:257-276 | only the first line that starts with the key, and of other lines only the text between a workspace pin's quotes, change; lines and last newline stay |
| Versions.AnchoredLine | xtask/src/version.rs:257-276 | that line is then the key and the new version, and nothing else |
| Versions.OnlyPinsChange | xtask/src/version.rs:284-298 | of a manifest of pins, nothing but the text between a pin's quotes changes |
| Versions.CommentIsLost | xtask/src/version.rs:257-276 | a comment after the workspace's version, whatever it says, is lost when the version is set |
| Versions.UnchangedWhenSet | xtask/src/version.rs:257-276 | the text is left as it is exactly when it declares the version already, alone on its line, and no pin disagrees |
| Versions.SetTwice | xtask/src/version.rs:257-276 | setting a and then b is setting b, exactly when a is b or no line's path runs into its pin |
| Versions.RunsIntoPin | xtask/src/version.rs:156-164 | there is a line whose path runs into its pin |
| Versions.SetTwiceDiffers | xtask/src/version.rs:257-276 | for any two different versions there is a manifest, with that line, for which setting one and then the other is not setting the other |
| BumpLevel.ShippedLines | xtask/src/bump_level.rs:23-37 | the flag carried through the lines computes `Shipped` |
| BumpLevel.ShippedByHeading | xtask/src/bump_level.rs:19-37 | a line is shipped exactly when it is no heading and the last heading over it is unreleased or of the version |
| BumpLevel.ShipsByName | xtask/src/bump_level.rs:23-40 | a heading ships what is under it exactly when the word it begins with, bare or in brackets, is the version or says unreleased, in either case |
| BumpLevel.RollKeepsShipped | xtask/src/version.rs:370-380 | rolling the changelog leaves the lines the version ships as they were |
| BumpLevel.RollDates | xtask/src/version.rs:370-380 | rolling is refused exactly when no such heading is there; else the first one becomes the version, a dash and the date, and all else stays |
| BumpLevel.VerdictSurvivesRoll | xtask/src/version.rs:370-380 | so the verdict on a bump is the same before and after the roll, whatever version it is from |
| BumpLevel.IsTooSmall | xtask/src/bump_level.rs:93-111 | refused exactly for a forward bump that ships a breaking entry without moving the breaking level |
| BumpLevel.RefusedWhen | xtask/src/bump_level.rs:80-112 | a bump is refused exactly when a breaking entry is shipped and only the minor and patch move on, or, while the major is 0, only the patch |
| BumpLevel.SuggestedIsBigEnough | xtask/src/bump_level.rs:93-119 | a refused bump is below the version suggested, which is never refused |
| Semver.SuggestedReads | xtask/src/bump_level.rs:113-119 | the version suggested, written out, reads back as the next number on the level |
| Semver.MovesFromSuggestedOn | xtask/src/bump_level.rs:80-87 | a bump moves the breaking level exactly when it is at least the version suggested, in version order, as items 8 and 11 of Semantic Versioning 2.0.0 have it |
| Release.SpecSetTwice | xtask/src/version.rs:332-358 | the published document set to one version and then another is the document set to the other |
| Release.SpecDeclares | xtask/src/version.rs:332-358 | it is set exactly when one line of it, and only one, starts and ends as the version's; then a reader of what stands in quotes finds the new version on that line, and every other line and the last newline are as they were |
| Release.SetLeavesItClean | xtask/src/version.rs:780-800 | the manifests a `set` writes pass the pin check, and the changelog it writes gets the verdict the old one got, from every version |
| Release.Workspace.Set | xtask/src/version.rs:780-813 | which step refuses, and which files are written by then; after success the published document declares the version on its one line and the changelog's first unreleased heading is dated, all else in both as it was, the pins agree and the bump from the previous version is not refused |
| Release.Workspace.CheckPins | xtask/src/version.rs:686-697 | clean exactly when the manifest declares a version and both manifests' pins are that version; else the crates listed are those of the lines that disagree, in order, of the one manifest and then the other |
| Release.Workspace.CheckBump | xtask/src/version.rs:772-779 | passes exactly when a version is declared and the bump to it is not refused |
| Structure.PastTestItem | xtask/src/structure.rs:110-126 | the two inner loops find how far the item runs, at most one past the end |
| Structure.ProductionLines | xtask/src/structure.rs:81-94 | the scan ends, and counts `Production`, never more than the lines |
| Structure.CountsAdd | xtask/src/structure.rs:81-126 | up to a boundary of the scan, the count of a text and of what follows add up |
| Structure.ItemsAreInvisible | xtask/src/structure.rs:81-126 | a complete test item put in or taken out at a boundary leaves the count as it is |
| Structure.EveryLineCounts | xtask/src/structure.rs:81-98 | where no line starts a test item every line counts |
| Structure.OpenItemCountsNothing | xtask/src/structure.rs:110-133 | a test item that no line closes runs to the end, and nothing of it counts |
| Structure.WrittenItem | xtask/src/structure.rs:99-142 | a test module or table as it is written, with any attributes stacked over it, is a complete item: in it may stand any line that does not begin with a brace and is not all of `];` or `);`, a lone bracket of a raw string too |
| Structure.WrittenLine | xtask/src/structure.rs:99-126 | and so is a declaration that ends in a semicolon, white space after it or not |
| Structure.BoundaryIsWhereCountsAdd | xtask/src/structure.rs:81-126 | the counts add up, whatever follows, exactly at the boundaries |

## Left out

- Minimise.Minimizer.Minimize: the tree is replaced whole where the code changes a `toml::Value` in place; aliasing inside a value does not arise there.
- Refill.Render: the formatting that follows (`tidy`, `shrink`, inline tables) and the text itself; the round trip is of the value.
- Refill.RenderRoundTrips: assumes of the reader that it reads alike between two trees it reads alike; `RenderSchema.SchemaRoundTrips` assumes nothing of a reader by schema. The blueprint's own types are not written out as a schema.
- SchemaReader.ReadBetween: what a table is read as is not converted further, where a few of the blueprint's types make of two tables one value; a unit variant is read from its name only, or as the short form of its table.
- DiskModel.Disk.MakeDirs: symbolic links, permissions and directories that cannot be listed are not modelled, in any call.
- BlueprintUpgrade.Migrate: `write_atomic` is one step here; the file it writes under another name first is not shown. Keeping the warnings beside the blueprint is left out.
- BlueprintUpgrade.Rewrite: the rewriting of fan-outs, like the migration of manifests, is any function that may fail.
- HomeBackup.Save: a whole copy is one in files of its own or, for a run, the run's own, so a leftover file that is written over is not part of one even where it reads the same; when it reads the same is said apart, where each file left has no other name or is an empty link to the source's. That a source keeps its texts only under the condition stated is for a leftover no two names of which lead to one file: with two, a file may be written over and then back.
- UpgradeRuns.RunAfterRun: what is in a copy whose own turn was soiled is said by `HomeBackup.Save` of that save, and not carried through the runs. What a person changes between two runs is not followed.
- UpgradeRuns.UpgradeAll: the list of old blueprints is given; none is in the backup or holds it, and an install that is replaced is named after its blueprint, in a directory that does not hold the backup either; of blueprints whose directories run into those of another item, or whose places do (exactly when, `UpgradeRuns.PlacesTell` says), nothing is promised. The digest of a directory, cut to twelve characters, is any function of it; the form for whole lists is for names that begin with no dot.
- RunAliasing.SavedRunStays: assumes that no stage log shares an inode with another file of the run when it is saved, and that nothing but a rename within the run or an append to a log follows.
- Bundled.UpToDateIsIntact: assumes that the bundle's own manifest states the bundle's version.
- Lookups.CoveredPricedRight: for rates published to the millionth, the precision the table is written in; `Lookups.RoundingParts` shows that rounding others can part two that agree, and `Lookups.LeftOutPricedRight` is for all rates.
- Prices.Merge: figures are reals, so no rounding but the rounding to a millionth, and no figure that is not a number.
- UnitRows.UnitsTwice: for fetched rows of which no two are of one model, as the parser yields them.
- AddRegions.RunGraph.FoldAll: reading the `add` tables out of the document is left out; the regions and the stage of each are given, no stage twice.
- Versions.SetThenAgrees: for text without carriage returns, as are the other results about rewritten text.
- BumpLevel.IsTooSmall: which lines are breaking entries is any test of a line, not the one on bullets and wording.
- Semver.MovesFromSuggestedOn: for a version whose level is not the largest 64-bit number, for which the version suggested does not exist.
- Release.Workspace.CheckPins: the rest of `--check` (release profiles, release lists, provider loops, publish order) and errors of reading or writing a file are left out.
- Structure.ProductionLines: walking the workspace, skipping test files by name and sorting the report are left out.
- Litellm.LitellmTier: thresholds are unbounded numbers; one that overflows 64 bits when multiplied by a thousand is not modelled.
- The listing of old blueprints, the check that a start is the place to upgrade, and what a second pass finds.
- Fetching, the rest of the parsers of the two price sources, of the model cards and of the catalogue, and the writing of tables as text.
- Which home a backup is for, its announcements, the list of blueprints left as they were, and the start-up board.
- Lint opt-outs, coverage, command lines, messages, and the agent runtime itself.
