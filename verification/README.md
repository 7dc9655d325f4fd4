# Verified model of the Rucio client, migration and rendering logic

This project models, in Dafny, the parts of Rucio whose correctness rests on chains of
invariants rather than on single functions, and proves what they promise. It stands on its own:
`dafny verify dfyconfig.toml` checks everything.

**Download client.** Input items are indexed and grouped (`Grouping`), merged into options for each
file (`MergedOptions`), given destinations (`Destinations`, in plain strings `PlainPaths`, and `Isolation`) and planned: the planner
keeps two inverted indexes, archive to files and file to archives, and changes both in place in
five loops (`Planner`, `ArchiveIndex`, `Packing`, and all together `Preparation`). Dicts and sets
are walked over in an arbitrary order, so what is proved holds for every order. Single files are
downloaded by `DownloadItem` on a file system that is a map from paths to contents; transfers,
checksums and connections are arbitrary functions. `Workers` and `Aria` are state machines whose
runs are arbitrary sequences of enabled steps: the worker threads on a shared queue, and the
polling loop around aria2c, which is assumed to hand out unused ids and to report live ones only.
`Interleaving` takes downloads apart into single accesses to the file system, run in any order, and
`PlannedDownloads` says exactly when the downloads of a plan, packs included, do not disturb each other.

**Database tools.** `VoNames` and `VoRename` model the renaming of a VO on every scope and account
column of a PostgreSQL database, foreign keys being enforced whenever they are present.
`SchemaOps`, `ColumnMigration` and `DeclaredConstraints` model the two RBAC scripts against a
database that refuses a statement which does not apply or would leave a constraint violated.

**Requests.** `Requests` models the retry loop of the base client and the token getters it calls,
for every authentication type but OIDC. The 401 it reacts to is section 15.5.2 of RFC 9110. The
server is a function from the number of a request to an arbitrary reply.

**Rendering.** `Decimals`, `Rounding`, `Sizes` and `Percentages` model the sizes and percentages of
the command line over exact numbers; `Texts`, `Trees`, `PermissionTrees` and `Sections` its trees
and tables.

Code that changes dicts, lists or files step by step is a method with loops, proved against what
it promises; what spans several functions is stated in lemmas about the values these methods return.
Where the source has one function with several loops, each loop is a method of its own.

## What the code does not promise

Some properties one might expect do not hold. The code is modelled as it is, and the exact
condition is proved, or a concrete input is given.

- The check for equal destinations does not look at temporary paths: files `x` and `x.part` in one
  directory are accepted (`Isolation.TempClashExample`, exact condition in
  `Isolation.TempsClearIffPartFree`).
- Nor does it look at packs: asking for a file and for the archive holding it sends both to one path
  (`Preparation.PackClashExample`, exact conditions in `PlannedDownloads.PacksOffIff`,
  `PlannedDownloads.PacksIsolatedIff` and, for all downloads of a plan, `PlannedDownloads.EntriesApartIffClear`).
- A merged timeout can be shorter than the one an item would get alone when items ask in
  different ways, one by a timeout and one by a speed for instance (`MergedOptions.MixedKindsFail`, exact
  condition for given items in `MergedOptions.NeverShorterIffCovered`).
- An item without `nrandom` can lose its DIDs to an earlier one with it (`Grouping.LaterItemMayBeLost`,
  exact condition for a DID to have a file item in `Grouping.ResolveAll`).
- The docstring of `_send_request` does not say so, but `ServerConnectionException` also comes out of
  a call that did receive a response, a 401, when fetching the token then gets none
  (`Requests.UnauthorisedThenDown`, exact condition in `Requests.ConnectionFailsIff`). The retry loop of `__get_token` never goes round twice.
- `db_roles_column_rename.py` says in its module docstring that `scope` is not converted; the function
  copies it into `scope_pattern`, and the model follows the function. The docstring also says the
  script can be run again at any time; a half-applied table is refused
  (`ColumnMigration.HalfAppliedIsRefused`, exact condition in `ColumnMigration.PermissionMigration`).
- `apply_declared_constraints` compares actions only, so a foreign key over other columns is not
  repaired when its actions are right (`DeclaredConstraints.DefinitionInForceIff`).
- A new VO of more than three characters is cut by the cast (`VoNames.LongVoIsCut`).

## Model

| member | source | states |
|---|---|---|
| Planner.ArchiveIdIsLastComponent | lib/rucio/client/downloadclient.py:1703-1708 | The id taken from a PFN is its last path component, one trailing slash aside, and nothing else is: an id is the one taken if and only if it holds no slash, stands behind a slash or nothing, and ends the PFN without being empty or stands before one last slash |
| Planner.ScanSources | lib/rucio/client/downloadclient.py:1689-1721 | One pass over a file's sources keeps the usable ones in order, finds every archive and only archives, the least archive priority, and whether any other source exists; it fails exactly on an archive source with an empty PFN |
| Planner.Decide | lib/rucio/client/downloadclient.py:1689-1742 | A file must come out of an archive exactly if every source is an archive source or the best archive source has priority 1 |
| Planner.Enter | lib/rucio/client/downloadclient.py:1728-1742 | Entering a file under its archives keeps the two indexes inverse, no archive empty and all other files as they were |
| Planner.Classify | lib/rucio/client/downloadclient.py:1630-1742 | After the first loop the pure index holds exactly the files that must be extracted, the mixed one exactly those that may be, each under all its archives |
| ArchiveIndex.ForgetFile | lib/rucio/client/downloadclient.py:1769-1774 | Removing a file from its mixed archives always finds it there and touches nothing else |
| ArchiveIndex.PromoteArchive | lib/rucio/client/downloadclient.py:1761-1777 | One promotion moves exactly the archive's files to the pure index and out of every mixed archive |
| ArchiveIndex.PromotionKeepsVisited | lib/rucio/client/downloadclient.py:1744-1777 | Promoting an archive shrinks other mixed archives, yet gives none visited earlier a reason to be promoted |
| ArchiveIndex.Promote | lib/rucio/client/downloadclient.py:1744-1777 | One pass reaches the fixpoint in every visiting order: no mixed archive is pure or reaches the threshold; every promoted archive is justified; every file stays indexed, inverse and in one index only |
| ArchiveIndex.DropArchive | lib/rucio/client/downloadclient.py:1790-1799 | Dropping an archive whose files are all held elsewhere leaves every file covered |
| ArchiveIndex.DropKeepsPrivateFiles | lib/rucio/client/downloadclient.py:1790-1799 | Dropping an archive never takes away the private file of one already examined |
| ArchiveIndex.Prune | lib/rucio/client/downloadclient.py:1790-1799 | Pruning ends, in every visiting order, in an irredundant cover: each archive left holds a file only it holds, and no file lost its last archive |
| ArchiveIndex.SettleArchive | lib/rucio/client/downloadclient.py:1801-1808 | The set the inner loop walks over is not changed by its body, and all files of the archive end up in it alone |
| ArchiveIndex.Assign | lib/rucio/client/downloadclient.py:1801-1808 | The cover becomes a partition: each file has exactly one archive, one of those that held it, and no remaining archive is empty |
| Packing.FilterSources | lib/rucio/client/downloadclient.py:1779-1788 | Assigned files keep just their archive sources, files left alone that had archives just the others |
| Packing.PackFile | lib/rucio/client/downloadclient.py:1810-1835 | One step of packing: the file joins its archive's pack, opens it, or stays alone, and the earlier entries stay a correct packing |
| Packing.PackCount | lib/rucio/client/downloadclient.py:1810-1835 | Entries number the files without an archive plus the remaining archives |
| Packing.EntryHasSources | lib/rucio/client/downloadclient.py:1779-1835 | A file with a usable source is carried by an entry with sources; a pack's sources include one naming its archive |
| Packing.EachFileOnce | lib/rucio/client/downloadclient.py:1810-1835 | Each file is carried by exactly one entry, and once in it |
| Packing.Plan | lib/rucio/client/downloadclient.py:1630-1835 | The whole planner: it fails exactly on an unnamed archive source; otherwise files are conserved, entries stand in order, no archive has two packs, no file is fetched directly while an archive holding it is fetched, as soon as threshold files could come out of one archive they are not all fetched directly, every pack is worth it and cannot be spared |
| Destinations.CollectFile | lib/rucio/client/downloadclient.py:1643-1670 | The paths of one file are collected unless one was asked for before, and fail exactly then or on an unknown DID |
| Destinations.PrepareDestinations | lib/rucio/client/downloadclient.py:1633-1682 | Succeeds exactly if every input DID is known and no path is asked for twice, and says which of the two fails; then each file has exactly the paths asked for, each once |
| PlainPaths.PathThroughDataset | lib/rucio/client/downloadclient.py:1650-1660 | Through a dataset a file goes to base/dataset/file, without sub-directories to base/file; a leading slash of the dataset is dropped, and of a file name with one only the last part is taken |
| PlainPaths.PathOfFile | lib/rucio/client/downloadclient.py:1661-1665 | Asked for directly it goes to base/scope/file, without sub-directories to base/file, a leading slash dropped |
| PlainPaths.PathOfPack | lib/rucio/client/downloadclient.py:1816-1827 | A pack goes to base/scope/archive, without sub-directories to base/archive |
| PlainPaths.DatasetsApart | lib/rucio/client/downloadclient.py:1650-1671 | Below one base directory a file asked for through two datasets, or through one and directly, goes to one path if and only if both directories have one name |
| PlainPaths.FilePathsAreAsked | lib/rucio/client/downloadclient.py:1650-1671 | The destinations of a file are just the paths some item asks for through one of its input DIDs |
| PlainPaths.RepeatsIffAskedTwice | lib/rucio/client/downloadclient.py:1650-1671 | A repeated path is found if and only if some path is asked for twice: by two items, through two DIDs or for two files |
| Isolation.DestinationsDisjoint | lib/rucio/client/downloadclient.py:1643-1670 | Destinations of distinct file items are disjoint |
| Isolation.TempPathsDistinct | lib/rucio/client/downloadclient.py:1677-1682 | Temporary paths of distinct file items are distinct |
| Isolation.OptionsMeanDestination | lib/rucio/client/downloadclient.py:1672-1682 | An item has a destination exactly if some input item asks for it |
| Isolation.OwnTempIsFree | lib/rucio/client/downloadclient.py:1648-1682 | No item's temporary path is one of its own destinations, whatever the names |
| Isolation.TempsClearIffPartFree | lib/rucio/client/downloadclient.py:1663-1682 | Temporary paths are clear of all destinations in every order a path set may be listed in if and only if no requested path is another one with .part appended |
| Isolation.TempClashExample | lib/rucio/client/downloadclient.py:1663-1682 | The check for equal destinations accepts files x and x.part, although the temporary path of one is the destination of the other |
| Isolation.DownloadOne | lib/rucio/client/downloadclient.py:699-930 | A download changes no path but its destinations and its temporary one, and delivers what it reports |
| Isolation.DownloadAll | lib/rucio/client/downloadclient.py:641-659 | Downloading isolated items one after the other delivers each as if it had been alone, judged between the first and the last state of the files |
| Isolation.PreparedItemsAreIsolated | lib/rucio/client/downloadclient.py:1633-1682 | What the preparation returns is isolated in that sense whenever no requested path is another one with .part appended |
| MergedOptions.Merge | lib/rucio/client/downloadclient.py:1565-1593 | Merged options: all destinations, any item's switches, the longest timeout, the slowest speed; none exactly if no item asks |
| MergedOptions.MergeDependsOnSet | lib/rucio/client/downloadclient.py:1565-1593 | Merged options depend only on which items ask, not on order or repetition |
| MergedOptions.MergeOfConcatIsJoin | lib/rucio/client/downloadclient.py:1565-1593 | Merging is a homomorphism into a commutative join, so items may be merged in any grouping |
| MergedOptions.TimeoutMeans | lib/rucio/client/downloadclient.py:662-697 | The timeout asked for; six minutes without size or speed; otherwise the whole seconds of the transfer at the speed, or at 500 kB/s if that is not positive, and a minute |
| MergedOptions.NeverShorterIffCovered | lib/rucio/client/downloadclient.py:662-697 | For given items the merged timeout is never shorter than any single one's, whatever the file, if and only if each is covered, a condition read off the merged options |
| MergedOptions.MergedNeverShorter | lib/rucio/client/downloadclient.py:662-697 | Items that all ask in the same way (all fix a timeout, or all give a positive minimum speed, ...) are never shortened, whatever the file |
| MergedOptions.MixedKindsFail | lib/rucio/client/downloadclient.py:662-697 | For each two different ways of asking there are items, and a file, for which the merged timeout is shorter than one gets alone |
| Preparation.PrepareItems | lib/rucio/client/downloadclient.py:1595-1835 | Exact success condition of the whole preparation, and all its promises together |
| Preparation.OptionsIffDestination | lib/rucio/client/downloadclient.py:1672-1682 | An item has options exactly if it has a destination |
| Preparation.OptionsFromAskers | lib/rucio/client/downloadclient.py:1565-1593 | Every item asking for one of the file's input DIDs gets its destination and its switches into the file's options |
| Preparation.EveryFileIsCarried | lib/rucio/client/downloadclient.py:1595-1835 | Every file item is downloaded exactly once and, having a usable source, by an entry that has sources |
| Preparation.ResolvedIsKnown | lib/rucio/client/downloadclient.py:1430-1440 | After the resolution the lookup of a requested DID cannot fail |
| Preparation.PacksApart | lib/rucio/client/downloadclient.py:1815-1831 | No two packs share a path or a temporary path |
| Preparation.PackOffDestinations | lib/rucio/client/downloadclient.py:1815-1831 | A pack's path is no file's destination unless that file is named like the archive; the exact condition is in PlannedDownloads.PacksOffIff |
| Preparation.PackClashExample | lib/rucio/client/downloadclient.py:1663-1668 | Asking for a file and for the archive holding it is accepted, although both are sent to one path |
| PlannedDownloads.PacksOffIff | lib/rucio/client/downloadclient.py:1815-1831 | No pack goes to a requested path, whichever destination of its first file is chosen, if and only if none of its choices is a requested path |
| PlannedDownloads.PacksIsolatedIff | lib/rucio/client/downloadclient.py:1815-1831 | A pack touches no path a file touches, temporary ones included and whatever is chosen, if and only if no choice is a requested path with or without .part appended on either side |
| PlannedDownloads.EntriesApartIffClear | lib/rucio/client/downloadclient.py:1680-1682 | The downloads of a plan, packs included, touch no path in common, whatever is chosen, if and only if no path one may use is one another may use, nor that with .part appended |
| PlannedDownloads.ClearPlanDelivers | lib/rucio/client/downloadclient.py:541-659 | Then in every interleaving of the downloads each that has finished has delivered what it reports, and each that gets enough turns finishes |
| Interleaving.AloneDelivers | lib/rucio/client/downloadclient.py:699-930 | A download taken step by step, each access to the file system being one, has delivered what it reports once it has finished |
| Interleaving.AloneFinishes | lib/rucio/client/downloadclient.py:748-930 | It finishes within a number of steps linear in its destinations and sources |
| Interleaving.RunProjects | lib/rucio/client/downloadclient.py:641-659 | Whatever the order of steps, downloads that touch no path in common stand where they would stand alone and find their files as alone |
| Interleaving.InterleavingDelivers | lib/rucio/client/downloadclient.py:641-659 | In every interleaving each finished download has delivered what it reports, judged between the first and the present files |
| Grouping.IndexRequests | lib/rucio/client/downloadclient.py:1430-1440 | Each resolved DID leads to the items asking for it and to nothing else |
| Grouping.GroupItems | lib/rucio/client/downloadclient.py:1447-1461 | Groups partition the items; members agree with their head on the three keys; only the head may have nrandom; groups with equal keys are told apart by it |
| Grouping.PlainHeadsHaveDistinctKeys | lib/rucio/client/downloadclient.py:1447-1461 | No two groups headed by items without nrandom share their keys |
| Grouping.KeysAgree | lib/rucio/client/downloadclient.py:1447-1461 | Keys are equal exactly if RSE, scheme and the wish for unpacked archives are |
| Grouping.DropTapeSources | lib/rucio/client/downloadclient.py:1530-1539 | Walking over a copy and removing by value leaves just the sources not on tape, each as often as it was and in order; no removal fails |
| Grouping.PassThrough | lib/rucio/client/downloadclient.py:1518-1528 | Every requested DID is resolved by some file afterwards; what is added has no sources and stands for a DID nothing resolved |
| Grouping.ResolveGroup | lib/rucio/client/downloadclient.py:1509-1550 | Each file of the answer becomes a file item with its DID, the input DIDs it resolves and its sources, those on tape dropped exactly if asked to; then come the DIDs nothing resolved. A requested DID ends up with a file item exactly if the answer resolved it or was not cut short by nrandom |
| Grouping.ResolveAll | lib/rucio/client/downloadclient.py:1447-1552 | The file items are those of the groups one after the other, each made of its file with or without tape sources. Over all groups: a DID has a file item if and only if some group asking for it was not cut short or had it resolved by the server; file items stand for requested DIDs only |
| Grouping.PlainRequestsAreAnswered | lib/rucio/client/downloadclient.py:1447-1552 | Without nrandom every requested DID ends up with a file item |
| Grouping.LaterItemMayBeLost | lib/rucio/client/downloadclient.py:1447-1528 | An item without nrandom that joins the group of an earlier one with it loses its DID when just that many files come back |
| DownloadItem.UseLocalCopy | lib/rucio/client/downloadclient.py:748-782 | Done already exactly if some destination is accepted; then just the missing destinations are filled; fails exactly on a size-only check without an expected size |
| DownloadItem.TryOnce | lib/rucio/client/downloadclient.py:866-898 | One attempt starts without a temporary file and succeeds exactly if the transfer does and no check contradicts it |
| DownloadItem.Fetch | lib/rucio/client/downloadclient.py:821-900 | Reachable sources are tried in order, each twice, until the first attempt that ends the search |
| DownloadItem.Publish | lib/rucio/client/downloadclient.py:907-923 | All destinations get the content of the temporary file, nothing else changes; fails exactly without that file or on a repeated first destination |
| DownloadItem.Download | lib/rucio/client/downloadclient.py:699-930 | At most two attempts per source, each with a clean start; for each state the exact condition under which it is reported; all destinations hold the content of the last, verified transfer when done, and all are unchanged when failed or not found |
| DownloadItem.DoneMeans | lib/rucio/client/downloadclient.py:699-930 | Done means: the first transfer that succeeded with a checksum not found wrong left its content at all destinations and no temporary file, and no destination had held a file that would have done |
| DownloadItem.LocalCopyMeans | lib/rucio/client/downloadclient.py:748-770 | What counts as a local copy: going by the size alone if so configured, otherwise by the checksum unless that is switched off |
| Workers.WorkersWanted | lib/rucio/client/downloadclient.py:573-588 | The least of the files, the number asked for and five, or a single worker if one of the first two is below two |
| Workers.RunConserves | lib/rucio/client/downloadclient.py:641-659 | In every interleaving queued, held, reported and lost items add up to the input |
| Workers.ReportsAreTrue | lib/rucio/client/downloadclient.py:641-659 | An item is reported with a state if and only if some worker's download of it ended with that state |
| Workers.RunIsBounded | lib/rucio/client/downloadclient.py:641-659 | Every step uses up some of a measure on the queue and the workers |
| Workers.Progress | lib/rucio/client/downloadclient.py:641-659 | A worker that has not stopped always has a step to take |
| Workers.DownloadTerminates | lib/rucio/client/downloadclient.py:571-659 | No run has more than three steps per item and one per worker; one that cannot go on has all workers stopped |
| Workers.AllStoppedMeansAllDone | lib/rucio/client/downloadclient.py:541-610 | With at least one worker and no interrupt, the output is exactly the input once all workers have stopped, so the counts agree |
| Workers.CheckOutput | lib/rucio/client/downloadclient.py:1872-1913 | Returns the output exactly if told to be quiet or if there is some and all of it succeeded, and says which failure it is |
| Workers.Conclude | lib/rucio/client/downloadclient.py:447-456 | Exact condition of a normal return and of the count mismatch |
| Workers.NormalReturnMeansAllSucceeded | lib/rucio/client/downloadclient.py:447-456 | A normal return with exceptions active means every item was reported once and succeeded, even after interrupts |
| Workers.LostMeansMismatch | lib/rucio/client/downloadclient.py:447-456 | An item lost or left in the queue always shows in the counts |
| Aria.RunKeepsPartition | lib/rucio/client/downloadclient.py:1182-1322 | In every run waiting, live and final items partition the input, and traces hang on live items only |
| Aria.ReturnedMeansAllFinal | lib/rucio/client/downloadclient.py:1182-1322 | When the loop returns every item was given exactly one final state, one that fits whether it existed, had no source or was downloaded, and no trace is left |
| Aria.FinalStaysFinal | lib/rucio/client/downloadclient.py:1228-1316 | A final state once set is never changed |
| Aria.StatesAreTrue | lib/rucio/client/downloadclient.py:1250-1317 | In every run an item is done, invalid or failed if and only if some download of it was reported as complete with the right checksum, as complete with a wrong one, or as not complete |
| Aria.TakenFromTheEnd | lib/rucio/client/downloadclient.py:1184-1192 | Items are taken from the end of the list |
| Aria.RoundIsBounded | lib/rucio/client/downloadclient.py:1187-1191 | At most 100 items are submitted in a round, and the client polls exactly when it has submitted 100 or nothing waits |
| Aria.AlwaysAStep | lib/rucio/client/downloadclient.py:1186-1322 | Until it returns the loop has a step that does not wait for a download to stop; if the next item is to be downloaded that step submits it, otherwise not |
| VoNames.Recompose | tools/convert_database_vo.py:44-56 | A well-formed value is its name and its VO, put together again |
| VoNames.RewriteMoves | tools/convert_database_vo.py:145-154 | Values of other VOs stay; a value of the old VO keeps its name and moves to the new VO |
| VoNames.RewriteText | tools/convert_database_vo.py:124-154 | In plain strings: name@old becomes name@new, the default VO being written as the bare name; names in other VOs stay |
| VoNames.RewriteMergesIff | tools/convert_database_vo.py:145-154 | Two values become one exactly if one is of the old VO, the other already of the new one, and their names agree |
| VoNames.RewriteBack | tools/convert_database_vo.py:145-154 | Renaming back restores a value exactly if it was not of the new VO to begin with |
| VoNames.LongVoIsCut | tools/convert_database_vo.py:151 | A value reaches the new VO exactly if that is at most three characters long |
| VoRename.RewriteKeepsKey | tools/convert_database_vo.py:137-166 | Rewriting both sides of a foreign key alike keeps it satisfied |
| VoRename.CellsMeant | tools/convert_database_vo.py:83-161 | Which columns are rewritten, which foreign keys dropped, and what each cell holds afterwards, by the parts of their names |
| VoRename.MoveKeepsVoKey | tools/convert_database_vo.py:156-161 | Moving the RSEs keeps their foreign key satisfied once the new VO exists |
| VoRename.UniqueMeanwhile | tools/convert_database_vo.py:143-161 | If the new VO was unused, a unique key holds between any two statements exactly if it held before |
| VoRename.UpdateAll | tools/convert_database_vo.py:143-161 | The update loop yields the rewritten data; with foreign and unique keys enforced after every statement none is violated if each foreign key can stand the rename and, for the unique ones, the new VO is unused |
| VoRename.RenameVo | tools/convert_database_vo.py:66-175 | All or nothing: on failure nothing changed; on success every cell is rewritten, all foreign keys are back and all constraints hold; it succeeds if each foreign key can stand the rename and, where there are unique keys, the new VO is unused |
| VoRename.RenameBack | tools/convert_database_vo.py:66-175 | If the new VO was unused, renaming back restores every row exactly |
| VoRename.KeysStayUnique | tools/convert_database_vo.py:145-154 | If the new VO was unused, a set of columns is a unique key after the rename exactly if it was before |
| ColumnMigration.EmitFlag | tools/rbac/db_roles_column_rename.py:134-158 | Run behind what was emitted before, the statements for one flag add it as false to all roles, or are refused exactly because its check name is taken |
| ColumnMigration.EmitRoles | tools/rbac/db_roles_column_rename.py:161-185 | Run on any valid table they were emitted for, the statements lead to the new table if it is ready, and are refused otherwise |
| ColumnMigration.RolesMigration | tools/rbac/db_roles_column_rename.py:134-185 | The roles step goes through exactly if its names are free and nothing unknown depends on locked; no constraint is left on a dropped column, no null under NOT NULL |
| ColumnMigration.RolesMigrationIdempotent | tools/rbac/db_roles_column_rename.py:134-185 | A second run of the roles step emits no statement |
| ColumnMigration.RolesRows | tools/rbac/db_roles_column_rename.py:134-185 | Roles lose locked, gain the missing flags as false, and keep everything else |
| ColumnMigration.RolesTableMeans | tools/rbac/db_roles_column_rename.py:134-185 | The new roles table: its columns, what is mandatory, its keys |
| ColumnMigration.RolesChecksMean | tools/rbac/db_roles_column_rename.py:178-185 | Of the check constraints only that of locked is gone |
| ColumnMigration.EmitPermissions | tools/rbac/db_roles_column_rename.py:188-235 | Run on any valid table they were emitted for, the statements lead to the new table if it is ready, and are refused otherwise |
| ColumnMigration.PermissionMigration | tools/rbac/db_roles_column_rename.py:188-235 | The permission step goes through exactly if the names are free, the new key holds and nothing unknown depends on scope |
| ColumnMigration.PermissionMigrationIdempotent | tools/rbac/db_roles_column_rename.py:188-235 | A second run of the permission step emits no statement |
| ColumnMigration.OldFormatIsReady | tools/rbac/db_roles_column_rename.py:188-235 | Every old-format table can be migrated; the key around scope_pattern is still unique |
| ColumnMigration.OldFormatRows | tools/rbac/db_roles_column_rename.py:205-235 | Each (role, scope, operation) becomes (role, scope_pattern, operation) with the same values, other columns staying |
| ColumnMigration.PermissionTableMeans | tools/rbac/db_roles_column_rename.py:188-235 | The new permission table: the pattern takes the place of the scope, also in the primary key; the constraints known to need the scope are gone, all others stay |
| ColumnMigration.HalfAppliedIsRefused | tools/rbac/db_roles_column_rename.py:203-224 | With both columns there and a null pattern the script is refused rather than resumed |
| DeclaredConstraints.NormaliseTwice | tools/rbac/db_roles_modification.py:193-196 | What is written back reads as itself |
| DeclaredConstraints.NormaliseMeans | tools/rbac/db_roles_modification.py:193-196 | No action, the empty one and NO ACTION in any spelling mean none; every other one is read in capitals |
| DeclaredConstraints.ActionsForDialect | tools/rbac/db_roles_modification.py:225-248 | Oracle gets no ON UPDATE and no ON DELETE RESTRICT, other dialects what was declared |
| DeclaredConstraints.CreatedMeans | tools/rbac/db_roles_modification.py:225-284 | A key is created as declared, but for Oracle without ON UPDATE and without ON DELETE RESTRICT |
| DeclaredConstraints.UndeclaredKeyStays | tools/rbac/db_roles_modification.py:265-285 | Foreign keys no model declares are left alone |
| DeclaredConstraints.DeclaredKeyApplied | tools/rbac/db_roles_modification.py:265-284 | Each declared foreign key ends up with exactly the actions the dialect can express, whatever was there |
| DeclaredConstraints.UndeclaredUniqueStays | tools/rbac/db_roles_modification.py:287-293 | Unique constraints no model declares are left alone |
| DeclaredConstraints.DeclaredUniqueApplied | tools/rbac/db_roles_modification.py:287-293 | Each declared unique constraint exists; an existing one is not touched |
| DeclaredConstraints.DefinitionInForceIff | tools/rbac/db_roles_modification.py:272-283 | Exactly when the declared columns are in force: a key over other columns whose actions are right is not repaired |
| DeclaredConstraints.ModelInLine | tools/rbac/db_roles_modification.py:251-293 | One application leaves nothing to do |
| DeclaredConstraints.ApplyDeclaredConstraints | tools/rbac/db_roles_modification.py:251-293 | The statements emitted are never refused, bring every declared table in line and leave others alone; none is emitted exactly if all are in line already |
| Requests.Client.SendRequest | lib/rucio/client/baseclient.py:450-533 | The whole outcome of a call as a function of the server's replies: its rounds, the token each carries, what is fetched after each 401, and which response or error it ends with |
| Requests.OutcomeIsOne | lib/rucio/client/baseclient.py:450-533 | That description leaves nothing open: replies and token at the start decide rounds, requests sent and result |
| Requests.RejectionGoesOn | lib/rucio/client/baseclient.py:524-527 | After a 401 the call goes on if and only if a token can be fetched from there on; otherwise it ends with just the error of the fetch |
| Requests.RetryCarriesFreshToken | lib/rucio/client/baseclient.py:488-529 | Every retry after a 401 carries the token obtained after it |
| Requests.AtMostRequests | lib/rucio/client/baseclient.py:488-533 | A call sends at most three requests, and fetching a token at most three after each, for SSH six |
| Requests.ConnectionFailsIff | lib/rucio/client/baseclient.py:488-533 | The connection is reported as failed if and only if the server is down for three requests from the first on, or for fetching a token after a 401, and three requests are tried |
| Requests.SilentAtTheEnd | lib/rucio/client/baseclient.py:488-533 | A call that reports this has just sent three requests in a row that got no response |
| Requests.LatestIndex | lib/rucio/client/baseclient.py:488-533 | What counts as the latest response is one nothing was received after |
| Requests.Client.SendOnce | lib/rucio/client/baseclient.py:489-529 | One round: which replies end the call and how, and which make it fetch a token |
| Requests.PlainOutcome | lib/rucio/client/baseclient.py:488-533 | What a call without re-authentication comes to, read off the replies |
| Requests.Client.CheckedRequest | lib/rucio/client/baseclient.py:535-567 | A getter's request never fetches a token itself; it succeeds exactly with the first conclusive response if that is a 200, and each error has its exact condition on the replies |
| Requests.Client.FetchToken | lib/rucio/client/baseclient.py:714-838 | Succeeds exactly if the client is ready, for SSH a challenge is answered, and the request after it is answered with a token, which is the one stored; each error has its exact condition, and leaves the old token |
| Requests.Client.GetToken | lib/rucio/client/baseclient.py:841-877 | Same for the getter loop, which never goes round twice |
| Requests.FetchIsOne | lib/rucio/client/baseclient.py:535-838 | From one request on at most one token can be fetched |
| Requests.FetchGetsOrFails | lib/rucio/client/baseclient.py:535-838 | Where a token can be fetched, fetching does not fail |
| Requests.FetchFailureIsOne | lib/rucio/client/baseclient.py:535-838 | Fetching fails in one way at most |
| Requests.FetchDownIff | lib/rucio/client/baseclient.py:488-533 | Fetching fails to connect exactly if the server is down right away or, for SSH, after the challenge |
| Requests.UnauthorisedThenDown | lib/rucio/client/baseclient.py:524-532 | A call that received a 401 and then cannot fetch a token reports the connection as failed, although it got a response |
| Requests.FewRetries | lib/rucio/client/baseclient.py:509-513 | With fewer than two retries configured the connection is never reported as failed |
| Decimals.FixedReads | lib/rucio/cli/utils.py:173 | A number written with fixed decimals reads back as itself |
| Decimals.TrimReads | lib/rucio/cli/utils.py:173-174 | Stripping zeros and the point keeps the number and leaves nothing to strip |
| Rounding.NearestUnique | lib/rucio/cli/utils.py:169 | Being nearest, ties to the even side, determines the rounded number |
| Rounding.RoundedMonotone | lib/rucio/cli/utils.py:169 | Rounding keeps the order |
| Rounding.RoundedIsNear | lib/rucio/cli/utils.py:169 | Rounding moves a number by at most half a step |
| Sizes.CompactSize | lib/rucio/cli/utils.py:159-174 | The loop stops at the one unit that is the first in which the rounded size has less than 1000, or the last; the text reads back as the rounded size in that unit and has no trailing zeros |
| Sizes.ShowReads | lib/rucio/cli/utils.py:173-174 | The shown text reads back as the rounded number, sign included |
| Sizes.ShownRange | lib/rucio/cli/utils.py:159-174 | Above bytes a size never reads as less than 1, below the last unit never as 1000 or more, and is within half a last decimal of the true one |
| Sizes.ShownMonotone | lib/rucio/cli/utils.py:159-174 | A larger size is never shown smaller, nor in a smaller unit |
| Percentages.FormatReads | lib/rucio/cli/utils.py:203-210 | The text of a share reads back as its mark and its number |
| Percentages.EndsAreExact | lib/rucio/cli/utils.py:193-210 | 0% only if nothing is used, 100% only if the limit is exactly reached, >100% only if it is exceeded |
| Percentages.ShareIsTrue | lib/rucio/cli/utils.py:193-210 | <, > and plain numbers claim what is true of the exact share |
| Percentages.FormatMonotone | lib/rucio/cli/utils.py:193-210 | More usage never reads as less |
| Texts.SplitJoin | lib/rucio/cli/utils.py:126-135 | Splitting joined texts gives back the lines of each, in order |
| Trees.FormatTree | lib/rucio/cli/utils.py:102-135 | The nested loops build the lines of the tree |
| Trees.TreeReadsBack | lib/rucio/cli/utils.py:119-135 | Removing the four-character prefixes gives back all branch lines in order |
| Trees.TreeLineAt | lib/rucio/cli/utils.py:119-135 | Each branch is attached exactly by its middle line, the last one by the last prefix; the trunk runs along all lines but those below the middle of the last branch |
| Trees.EmptyTree | lib/rucio/cli/utils.py:119-120 | Without branches the tree is its root and the placeholder |
| PermissionTrees.FormatPermissionTrees | lib/rucio/cli/utils.py:338-401 | One tree per role, all in the columns common to all roles |
| PermissionTrees.ColumnsAreTight | lib/rucio/cli/utils.py:379-386 | The columns are no wider than some entry needs |
| PermissionTrees.IdWidthMeans | lib/rucio/cli/utils.py:380-384 | An identifier takes two columns more than its characters, a list four more than its longest name |
| PermissionTrees.BranchBars | lib/rucio/cli/utils.py:393-399 | Each line of a list of RSEs has its bars where the columns begin and end, and the dash of the parameters on the middle one |
| PermissionTrees.MakeEntry | lib/rucio/cli/utils.py:360-370 | Type, identifier and parameters of an entry, a list exactly if the limit covers other RSEs than the one it names |
| PermissionTrees.NothingAssigned | lib/rucio/cli/utils.py:373-375 | A role without permissions is drawn with a line saying so |
| PermissionTrees.BranchInColumns | lib/rucio/cli/utils.py:389-400 | A branch has one line per RSE it lists, its parameters and type on the middle one |
| PermissionTrees.TreesLineUp | lib/rucio/cli/utils.py:377-401 | In all trees every identifier starts at one column and every parameter at another; type and parameters are on the very line by which the tree holds the branch |
| Sections.WidthsFit | lib/rucio/cli/utils.py:424-428 | Every line of every cell fits its column |
| Sections.WidthReached | lib/rucio/cli/utils.py:424-428 | A column is exactly as wide as some cell of it needs |
| Sections.RowShowsCells | lib/rucio/cli/utils.py:436-442 | Every line of a row shows the same line of each cell at the start of its column |
| Sections.RowIsTallEnough | lib/rucio/cli/utils.py:436-442 | A row has a line for every line of every cell |
| Sections.TallIffHigh | lib/rucio/cli/utils.py:451 | A row counts as tall exactly if it is shown in more than one line |
| Sections.TableIsRectangular | lib/rucio/cli/utils.py:404-455 | Every line of the table has the same width, whatever the cells hold |
| Sections.TableHoldsRows | lib/rucio/cli/utils.py:444-455 | Without its rules the table is the lines of its headers and rows, each once and in order |
| Sections.FormatSections | lib/rucio/cli/utils.py:404-455 | The loops build these lines |

## Left out

- Isolation.DownloadAll: one download after the other; interleavings are in `Interleaving.InterleavingDelivers`.
- Isolation.PreparedItemsAreIsolated: the file items alone; all downloads of a plan with their packs are in `PlannedDownloads.EntriesApartIffClear`.
- Interleaving.RunProjects: a transfer, a copy and a rename are one step each, as no other download touches their paths; which worker holds which download is in `Workers`.
- Preparation.PrepareItems: checks all destinations before any archive name, while the source goes file by file; which of two errors comes first is not modelled.
- MergedOptions.Merge: timeouts and speeds are numbers already; converting them from text is not modelled.
- DownloadItem.Download: without pcache and without archive contents; a failing copy or rename (full disk, missing rights) is not modelled.
- Aria.ReturnedMeansAllFinal: what aria2c writes to disk and the renaming of its files are not modelled; it also assumes that live ids only are reported.
- Aria.AlwaysAStep: termination depends on aria2c stopping every download, which nothing here forces.
- VoRename.RenameVo: success is given a sufficient condition only, because what a database refuses on misaligned keys depends on the order of the statements; constraints are checked after each statement; the inserted row of the new VO is taken to be there already; commits, dumped commands and connection failures are not modelled.
- VoNames.RewriteMoves: the blanks by which a database may fill CHAR(4) for VOs shorter than three characters are not modelled.
- ColumnMigration.PermissionMigration: column types and lengths are not modelled, nor are conditional checks other than "is not null".
- DeclaredConstraints.ApplyDeclaredConstraints: constraint names are unique per table, and existing rows are taken to satisfy a constraint that is added.
- Requests.Client.SendRequest: request methods other than the four known ones, header overrides by the caller and waiting times are not modelled; nor is a getter stopping early on a missing certificate, key or module beyond the flag `ready`.
- Sizes.CompactSize: exact numbers in place of floats, and no negative zero as input.
- Percentages.FormatReads: exact numbers in place of floats; a negative usage or limit does not occur.
- PermissionTrees.TreesLineUp: for names and parameters without line breaks; a line break in one of them would add lines of its own.
- Texts.Blank: only the ASCII characters Python strips.
- `permission_lines`, `format_limits` and `format_quota_usage`: sorting and joining texts; their results are inputs of `PermissionTrees`.
- `_resolve_one_item_dids`, `list_replicas` and metalink parsing: the server's answer is arbitrary.
- Archive extraction, traces, log messages, timing fields and metrics.
- OIDC polling, signing a challenge, reading and writing token files.
- `remove_vo`, the drivers around it, and the branch of `split_vo` for databases other than PostgreSQL, which the source marks as untested.
- `add_roles_locked` and `replace_account_role_locked_with_expires_at`: the same column steps as in `ColumnMigration`, on other columns.
- The REST client wrappers, the command bodies and the role synchronisation tools: no state of their own worth proving.
