# Verified model of a files and conversations side panel

This project models the parts of the panel where state is cached, derived and exchanged with
background workers, and proves what the code around them relies on. It verifies with Dafny 4.11:
`dafny verify dfyconfig.toml`.

**Files tree** (`Paths`, `Status`, `Tree`, `Rows`, `FilesTree`, `Snapshots`). Paths are component sequences, the
empty one the root; a listing is a map, as the loader promises distinct direct children. The cached
tree is a node map with statuses, changed files, a children index and a selection. Directory loads,
status merges and overlay copies are functions on values with per-path references beside them, and
methods of the class `Files` that change the tree in place and are proved equal to those functions;
`Snapshots` states what a merge leaves entry by entry.

**Refresh gate and files model** (`Refresh`, `FilesModel`). Status snapshots are merged off-thread into
a captured tree; the prepared merge is proved to refine a direct one over every interleaving.

**Filesystem jobs and rows** (`Runtime`, `Jobs`, `FilesRuntime`). Expansions, reloads, generations, panics
and visible rows are a state machine over intents, completions and panics, with the class `FilesView`
carrying out its steps; `Jobs` states what each event does without the machine's own functions.

**File search** (`Search`, `Projection`, `SearchMachine`, `SearchRuns`, `SearchSteps`, `FileSearch`). Pages of bounded
directory loads build an index and a searchable map on a worker; projections turn matches into rows.
The machine's run invariant covers the directory queue, the index, the map and what is shown;
`SearchSteps` states what each event does.

**Conversation index** (`Conversations`, `Discovery`, `Index`, `IndexRuns`, `Pages`). One refresh visits
all sources past their watermarks and stages removals, insertions, trimming and bounded watermarks; a
history of emissions states what a watermark promises. Texts are byte sequences; a time is a number of
nanoseconds within the system clock's range.

**Crash safety** (`CacheNames`, `CacheFiles`, `CachePersist`, `CacheRuns`). A directory maps names to
contents; every file operation may work, fail or stop half-way, leaving a torn file. The document codec
is a parameter assumed faithful.

**Live merge, key bindings, Jujutsu diff, History list** (`Active`, `Keybindings`, `JjDiff`,
`History`). Each is a small machine or parser with its loops proved against a declarative meaning.

Workers are an environment that accepts or rejects a submission and later completes it once or
panics; submission answers, cancellation polls, disk look-ups, loaders, sources, faults and
lower-casing are parameters. Generations, epochs and revisions are unbounded naturals.

What the proofs found about the code:

- Loading and merging commute exactly under a stated condition; a missing path that is a cached
  directory with other cached entries below breaks it (`Tree.LoadAndMergeCommute`,
  `Tree.LeftBehindExample`).
- A page that lists a missing-file row as a directory leaves that row in the searchable map until the
  next overlay (`Search.PageExactness`, `Search.StaleEntryExample`, `SearchRuns.OverlayRepairs`).
- A second panic before anything settles drops a reload, and wishes for expansion with it
  (`Runtime.ReloadTheorem`, `Runtime.DroppedReloadExample`, `Runtime.PanicKeepsSound`).
- Two copies of a session in one refresh leave the older one cached, as insertions run newest first
  (`IndexRuns.NewestStaysIff`, `IndexRuns.OlderCopyExample`); so what a watermark promises of a session
  is the session itself if its refresh found it once (`IndexRuns.WatermarkTheorem`).
- Publishing does not check watermark sources, counts of watermarks or NUL bytes in paths, although
  loading does: an index comes back exactly when these hold (`CacheFiles.DiskRoundTrip`,
  `Conversations.ConversationRoundTrip`), as they do after refreshes from trusted sources
  (`CacheRuns.StagedStorable`, `CacheRuns.RefreshStorable`); one it refuses is
  `CacheFiles.UnstorableExample`.
- A page of limit 0 counts cached entries, not deduplicated rows, when it says more is to come: it is
  right at every offset exactly if no two entries share a session (`Pages.EntriesCountRows`,
  `Pages.TwinsExample`). The program only asks with a limit above 0 (src/controller.rs:1269).
- With duplicate session references, selecting a History row selects the first row like it
  (`History.SelectThenSelected`, `History.RepeatedRowExample`).

## Model

| member | source | states |
|---|---|---|
| `Status.SummaryMeaning` | src/files/tree.rs:536-570 | A status map holds, at every reported path and nowhere else, the kind of least preference order among those reported there |
| `Status.InsertExtendsSummary` | src/files/tree.rs:557-570 | Inserting one report by preference turns the map of some reports into the map of one more, whatever the order |
| `Status.AggregateMeaning` | src/files/tree.rs:536-555 | A path carries a status exactly if something was reported at or below it, and then the preferred one of its own kinds and the lifted kinds reported below it |
| `Status.ConflictsShow` | src/files/tree.rs:536-555 | It is Conflicted exactly if a conflict was reported at or below it, and nothing but Conflicted or Modified if all reports are below it |
| `Tree.ApplyDirectoryMeaning` | src/files/tree.rs:229-277 | Loading the root or a cached directory of a parent-closed tree makes its cached children exactly the listing, leaves at every other path what a per-path reference says, and keeps the tree parent-closed |
| `Tree.ApplyAt` | src/files/tree.rs:229-277 | The retained and extended node map equals the per-path reference: listed, under a listed directory, missing-file row, or untouched |
| `Tree.SurvivesBelow` | src/files/tree.rs:229-277 | A deeper cached entry survives exactly when its ancestor directly under the loaded directory is listed as a directory |
| `Tree.MergeMakesAgreement` | src/files/tree.rs:283-356 | After a status merge every cached entry shows the status map at its path |
| `Tree.LoadKeepsAgreement` | src/files/tree.rs:229-277 | Loaded entries are stamped from the status map, so loads keep that agreement |
| `Tree.OverlayKeepsClosed` | src/files/tree.rs:337-341 | A new overlay of missing-file rows keeps the tree parent-closed when no row replaces a cached directory |
| `Tree.LoadAndMergeCommute` | src/files/tree.rs:229-356 | Loading a directory and merging a snapshot in either order give the same nodes exactly when no missing path is listed and no missing cached child directory holds a cached entry that is not missing |
| `Tree.LeftBehindExample` | src/files/tree.rs:229-356 | A deleted directory with a cached file: loading and then merging drops the file, merging and then loading leaves it behind |
| `Snapshots.MissingRows` | src/files/tree.rs:289-341 | After a merge a path is a missing-file row exactly if it is visible, the disk has nothing there, and some entry reports a deletion at it, by kind, index or worktree, or has it as its source |
| `Snapshots.OtherRows` | src/files/tree.rs:337-341 | Every other row of a merge was cached before, with the same kind, and shows the merged status of its path |
| `Snapshots.StatusesMeaning` | src/files/tree.rs:289-333 | The merged status of a path is the preferred one among what the entries report there, what left it if it is missing, and the lifted kinds of what they say below it; it has one exactly if they say anything |
| `Snapshots.RootHasNone` | src/files/tree.rs:536-543 | The root carries no status, whatever is reported |
| `Snapshots.ChangedMeaning` | src/files/tree.rs:289-356 | The changed files are exactly the visible paths the entries report or that are missing, in path order, each once, with its preferred kind and its missing mark |
| `FilesTree.LoadMergeOrder` | src/files/tree.rs:229-356 | The same equivalence for whole trees: nodes, statuses, changed files and children index, selection aside |
| `FilesTree.MergeTwice` | src/files/tree.rs:283-356 | Merging the same snapshot again changes nothing, selection included |
| `FilesTree.MergeIgnoresOrder` | src/files/tree.rs:283-356 | Two orders of the same entries merge to the same tree |
| `FilesTree.RestoredStable` | src/files/tree.rs:508-530 | A restored selection is cached, and restoring again keeps it |
| `FilesTree.RestoredMeaning` | src/files/tree.rs:508-530 | A cached selection stays, a lost one moves to its nearest cached ancestor, and if there is none to the row no other comes before |
| `FilesTree.SearchSeedMeaning` | src/files/tree.rs:402-422 | A search index holds only missing-file rows, as they are in the tree, as many as the limit allows, and none that comes after one left out |
| `FilesTree.LoadKeepsCoherent` | src/files/tree.rs:229-277 | Loads keep the children index derived from the nodes and the statuses in agreement |
| `FilesTree.MergeKeepsCoherent` | src/files/tree.rs:283-356 | So do status merges, from any tree |
| `FilesTree.SyncKeepsCoherent` | src/files/tree.rs:424-443 | So does copying the overlay of another tree |
| `FilesTree.InsertStatusWithAncestors` | src/files/tree.rs:536-555 | The loop that climbs from a path to the top turns the summary of some reports into that of one more report and its lifted copies |
| `FilesTree.UpsertChangedFile` | src/files/tree.rs:572-587 | One more report and missing mark in the tally of changed files, each path keeping its preferred kind |
| `FilesTree.CollectEntries` | src/files/tree.rs:289-312 | The first pass leaves the summaries of the direct reports and of the missing-file candidates, rename sources among them, and the tally of changes |
| `FilesTree.CollectGone` | src/files/tree.rs:314-333 | The second pass adds exactly the candidates missing on disk, reaching the merged statuses, rows and changes |
| `FilesTree.Files.constructor` | src/files/tree.rs:157-208 | A new tree is empty and coherent |
| `FilesTree.Files.RebuildChildren` | src/files/tree.rs:488-506 | Pushing nodes in path order and sorting each list gives the children index: all nodes by display parent, directories first |
| `FilesTree.Files.RestoreSelection` | src/files/tree.rs:508-522 | A lost selection moves to the nearest cached ancestor, else to the first row |
| `FilesTree.Files.Select` | src/files/tree.rs:363-371 | Only a cached path becomes the selection |
| `FilesTree.Files.ApplyDirectory` | src/files/tree.rs:229-277 | The in-place load equals the load on values and keeps the object valid |
| `FilesTree.Files.MergeWorkspaceStatus` | src/files/tree.rs:283-357 | The in-place merge equals the declarative merge of the set of entries, whose rows, statuses and changes `Snapshots` states entry by entry, and keeps the object valid |
| `FilesTree.Files.SyncStatusOverlayFrom` | src/files/tree.rs:424-443 | The index takes over statuses, changed files and missing-file rows of the tree, keeping its own cached entries |
| `FilesTree.Files.SearchIndex` | src/files/tree.rs:402-422 | A search index starts from the first missing-file rows in path order, up to the limit, sharing nothing with the tree |
| `FilesTree.Files.DisplayDepth` | src/files/tree.rs:458-469 | The depth loop counts the display ancestors of a row |
| `Rows.DisplayParentMeaning` | src/files/tree.rs:471-486 | A row on disk hangs under its parent; a missing-file row under its nearest ancestor that is the root or a cached directory, with none in between |
| `Rows.ChildrenPartition` | src/files/tree.rs:488-506 | Every node is in exactly one list of the children index, that of its display parent |
| `Rows.ChildSortedUnique` | src/files/tree.rs:602-610 | Siblings have only one order: directories first, then by path |
| `Rows.ListingTheorem` | src/runtime.rs:1604-1631 | The recursive listing holds exactly the shown nodes whose display parents reach the root through open ones, each once, in pre-order, siblings directories first |
| `Search.TracksExactly` | src/files/search.rs:123-135 | A tracking searchable map is the one built from scratch exactly if it has no stale entry |
| `Search.LoadAllNode` | src/files/search.rs:131-134 | After a page a path holds what the page lists it as, or an earlier node of a directory not scanned |
| `Search.PageKeepsTracking` | src/files/search.rs:123-135 | A page keeps the searchable map in step with its index; new stale entries are exactly the missing-file rows it lists as directories |
| `Search.PageExactness` | src/files/search.rs:123-135 | From an exact map a page leaves an exact map if and only if it lists no remaining missing-file row as a directory |
| `Search.ListedRemains` | src/files/search.rs:131-134 | What a page of directories apart lists is in the index after it |
| `Search.StaleEntry` | src/files/search.rs:123-135 | A page that lists a missing-file row as a directory makes it one and leaves its entry in the searchable map |
| `Search.StaleEntryExample` | src/files/search.rs:123-135 | One such page of the root |
| `Search.OverlayMakesExact` | src/runtime.rs:186-206 | Copying the status overlay makes the map exact, stale entries included |
| `Search.ScanDirectories` | src/files/search.rs:72-121 | The bounded loop lists distinct page directories in order within the entry budget; uncut it lists or skips every one |
| `Search.PreparePage` | src/files/search.rs:49-147 | A page worker brings back the loaded index and the swept and extended map, or nothing changed when cancelled |
| `Projection.ProjectionMeaning` | src/files/search.rs:149-202 | On a parent-closed index the projected rows are exactly the matches and all they hang under, once each in pre-order, and the expanded context is exactly the directory rows |
| `Projection.IncludedReach` | src/files/search.rs:166-176 | Every included row reaches the root through included directories |
| `Projection.AncestorsMeaning` | src/files/search.rs:166-176 | The ancestors collected for a match are exactly the rows it hangs under, some display parents up, the root excepted |
| `Projection.Project` | src/files/search.rs:149-202 | The projecting loops compute that projection, or stop only when cancelled |
| `Projection.AppendChildren` | src/files/search.rs:204-228 | The recursive walk appends exactly the listing of the included rows under a directory |
| `Refresh.Started` | src/files/refresh.rs:27-34 | A start claims the newest request exactly when one is pending and none runs |
| `Refresh.Finished` | src/files/refresh.rs:45-53 | A finish answers whether nothing was requested since; another generation changes nothing |
| `Refresh.RequestIsServed` | src/files/refresh.rs:21-53 | A request starts under its own generation and finishes as current, or as outdated with another one to start; a released start can be repeated, and no other generation is released |
| `Refresh.RefreshCoordinator.Request` | src/files/refresh.rs:21-25 | Requesting raises the requested generation by one |
| `Refresh.RefreshCoordinator.StartNext` | src/files/refresh.rs:27-34 | The object steps as the gate on values |
| `Refresh.RefreshCoordinator.CancelStart` | src/files/refresh.rs:36-43 | Only the running generation can be released |
| `Refresh.RefreshCoordinator.Finish` | src/files/refresh.rs:45-53 | The object steps as the gate on values |
| `FilesModel.MergeIgnoresSelection` | src/files/mod.rs:35-61 | Merging two trees that differ in selection and reselecting gives the same tree |
| `FilesModel.PreparedRefinesDirect` | src/files/mod.rs:228-285 | When a merge prepared off-thread is accepted, tree, notice, stale flag and gate are those the direct merge would leave on the current model |
| `FilesModel.SnapshotNotLost` | src/files/mod.rs:228-252 | A good snapshot of the running generation is installed, or a newer request is pending and can start; it is installed exactly when nothing was requested or loaded meanwhile |
| `FilesModel.PreparedMergeTheorem` | src/files/mod.rs:35-61 | Both facts after every run of requests, loads, selections, panics and completions |
| `FilesModel.RunKeepsOk` | src/files/mod.rs:170-285 | Every run keeps the gate consistent and the held job equal to the tree unless something was loaded since |
| `FilesModel.RequestWorks` | src/files/mod.rs:202-226 | A request is worked on with the tree and revision as they are; a start that was not accepted loses nothing |
| `FilesModel.RequestServed` | src/files/mod.rs:228-252 | Its good snapshot is merged into the tree with notice, stale mark and totals set and nothing left to ask; a bad one leaves only its message |
| `FilesModel.RequestServedDirectly` | src/files/mod.rs:254-285 | So it is when the snapshot is merged directly, with the revision raised and the totals gone |
| `FilesModel.RequestOutdated` | src/files/mod.rs:228-235 | A load meanwhile stays, whatever the snapshot, and the next start takes the loaded tree along |
| `FilesModel.RequestPanics` | src/runtime.rs:1978-1983 | A panic of its worker changes nothing and the next start asks again |
| `FilesModel.Model.ApplyDirectory` | src/files/mod.rs:174-178 | A load raises the tree revision |
| `FilesModel.Model.BeginRefresh` | src/files/mod.rs:207-226 | Starting captures the tree and its revision |
| `FilesModel.Model.CompletePreparedRefresh` | src/files/mod.rs:228-252 | The object accepts or rejects a prepared merge as the model on values |
| `FilesModel.Model.CompleteRefresh` | src/files/mod.rs:254-285 | The object merges a snapshot directly as the model on values |
| `FilesModel.Model.ReplaceTree` | src/files/mod.rs:295-298 | Replacing the tree raises the revision, so no merge prepared before it is installed |
| `FilesModel.Model.MarkStatusStale` | src/files/mod.rs:194-200 | Marking the status stale tells whether it was not |
| `Runtime.VisibleRowsMeaning` | src/runtime.rs:1604-1631 | The rows of an unfiltered view are exactly the nodes whose display parents reach the root through expanded directories, in pre-order |
| `Runtime.RebuildShowsSelection` | src/runtime.rs:1633-1659 | After a rebuild the selection is one of the visible rows when there are any |
| `Jobs.VisibleSelectionMeaning` | src/runtime.rs:1633-1659 | A visible selection stays; a hidden one moves to the lowest visible row that it hangs under, else to the first row |
| `Jobs.RebuiltMeaning` | src/runtime.rs:1604-1620 | A rebuild closes and forgets exactly what is no directory, lists the rows that show in pre-order, and moves the selection so |
| `Runtime.ByDepth` | src/runtime.rs:1342-1360 | Job directories are visited by depth, then by path, each once |
| `Runtime.InstallKeepsClosed` | src/runtime.rs:1429-1456 | Installing job results one after the other keeps the tree parent-closed |
| `Runtime.NextKeepsSound` | src/runtime.rs:984-1062 | Every intent, completion and panic keeps the filesystem machine sound: expanded within desired, waiting and running expansions apart from expanded, a current job means nothing waits |
| `Jobs.SettledMeaning` | src/runtime.rs:1421-1481 | A job nothing has outdated installs its results in order, each where its directory is the root or cached just then; of its expansions exactly the wanted ones that came back as directories open, the others are wanted no more, every other wish and open directory stays, as far as it is a directory where the view is unfiltered; the rows are those that show |
| `Jobs.StartedMeaning` | src/runtime.rs:1335-1403 | A job starts exactly when the view is active, none runs, something is to load and the queue takes it; it loads the root and all open directories if a reload is owed, and the waiting expansions, parents first, each once |
| `Jobs.ToggleMeaning` | src/runtime.rs:984-1005 | Toggling shuts a wanted row and asks for any other directory |
| `Jobs.ExpandMeaning` | src/runtime.rs:955-982 | Expanding an open row selects its first child, the one no other comes before; any other directory is asked for |
| `Jobs.CollapseMeaning` | src/runtime.rs:1007-1041 | Collapsing shuts a wanted row; from any other the selection goes up to the row it hangs under |
| `Jobs.StaleMeaning` | src/runtime.rs:1405-1428 | An outdated job installs nothing; its reload and the expansions still wanted are owed and submitted again, and if there is nothing the newest request counts as answered |
| `Jobs.PanicMeaning` | src/runtime.rs:1954-1977 | What a panicked job was asked for is asked again as a new request, once; after a second panic, or with nothing owed, the request counts as answered |
| `Jobs.MergedMeaning` | src/runtime.rs:1545-1556 | A merged snapshot replaces the tree and the view follows it, unless a search filters it |
| `Jobs.SearchMeaning` | src/runtime.rs:730-742 | A search hides the tree's rows until projections come in; leaving it shows them again |
| `Jobs.IgnoredMeaning` | src/runtime.rs:616-625 | Toggling ignored files leaves a search and reloads |
| `Jobs.ReloadMeaning` | src/runtime.rs:1056-1062 | A reload outdates running work and is owed until submitted; a pause submits nothing |
| `Jobs.ResumeMeaning` | src/runtime.rs:1867-1872 | Coming back reloads and offers what that leaves pending once more |
| `Runtime.StaleChangesNothing` | src/runtime.rs:1405-1420 | A completion of an older generation never changes the tree |
| `Runtime.ReloadNotLost` | src/runtime.rs:1954-1977 | A reload that is owed is settled by installing, or dropped only by a panic while an earlier panic is unsettled |
| `Runtime.PanicKeepsSound` | src/runtime.rs:1955-1977 | A panic keeps the machine sound; wishes survive unless it follows an unsettled panic |
| `Runtime.RetriedMeansPanicked` | src/runtime.rs:1966-1976 | The retry mark is up only after a panic with nothing settled since |
| `Runtime.RunTheorem` | src/runtime.rs:984-1062 | Over every run the machine is sound, an unfiltered view lists exactly the rows that show, and without a second panic every wish is open, waiting or loading |
| `Runtime.ReloadTheorem` | src/runtime.rs:1335-1481 | Over every run an owed reload is settled, or dropped by a second consecutive panic |
| `Runtime.DroppedReloadExample` | src/runtime.rs:1954-1977 | From any start, a reload whose worker panics twice running is dropped with nothing loaded and nothing owed |
| `Runtime.ClosedKept` | src/runtime.rs:1335-1481 | Steps whose merges turn no cached directory into a missing-file row keep the tree parent-closed |
| `Runtime.ClosedTheorem` | src/runtime.rs:1335-1481 | Over every run of such steps from bootstrapping the tree stays parent-closed |
| `FilesRuntime.FilesView.RebuildVisibleRows` | src/runtime.rs:1604-1620 | The object rebuilds rows, expansions and selection as the machine |
| `FilesRuntime.FilesView.RestoreVisibleSelection` | src/runtime.rs:1633-1659 | The climbing loop selects the nearest visible display ancestor, else the first row |
| `FilesRuntime.FilesView.StartNextFilesystem` | src/runtime.rs:1335-1403 | The object submits a job, or keeps what waits, as the machine |
| `FilesRuntime.FilesView.RequestDirectoryExpansion` | src/runtime.rs:1043-1054 | The object records a wish and outdates running work as the machine |
| `FilesRuntime.FilesView.ToggleSelected` | src/runtime.rs:984-1005 | The object toggles the selected directory as the machine |
| `FilesRuntime.FilesView.CollapsePath` | src/runtime.rs:1007-1041 | Collapsing forgets the wish and outdates running work as the machine |
| `FilesRuntime.FilesView.RequestTreeReload` | src/runtime.rs:1056-1062 | The object owes a reload and submits it as the machine |
| `FilesRuntime.FilesView.CompleteFilesystem` | src/runtime.rs:1405-1481 | The object installs current results, opening what `Jobs.SettledMeaning` says, and returns stale work to the queue as the machine |
| `FilesRuntime.FilesView.FailFilesystem` | src/runtime.rs:1954-1977 | The object takes a panic, retrying once, as the machine |
| `SearchRuns.LaunchQueue` | src/runtime.rs:1087-1167 | Starting a page only moves directories from the pending to the running ones, or gives up the rest as truncated |
| `SearchRuns.PausedQueue` | src/runtime.rs:1893-1915 | Pausing leaves the directory queue as it is and outdates the running page |
| `SearchRuns.CancelledQueue` | src/runtime.rs:1190-1196 | A cancelled page leaves the directory queue as it is |
| `SearchMachine.QueueAdvances` | src/runtime.rs:1196-1213 | Replacing listed directories by those found in them keeps the queue free of repeats and nesting and ahead of everything listed |
| `SearchRuns.AdvancedQueue` | src/runtime.rs:1169-1223 | An accepted page lists only directories not listed since the last restart |
| `SearchRuns.StepOk` | src/runtime.rs:1064-1333 | Every event keeps queue, running fields, index, searchable map, held jobs and projection in order together |
| `SearchRuns.QueueTheorem` | src/runtime.rs:1064-1223 | Along every run running and pending directories are distinct, none above another, and a running page names the current epoch and newest job |
| `SearchRuns.ListedOnce` | src/runtime.rs:1169-1223 | No directory is listed twice between restarts |
| `SearchRuns.LoadAdvances` | src/runtime.rs:1169-1223 | A page of queued directories keeps the index parent-closed and everything in it listed or at or under a queued directory |
| `SearchRuns.CompleteScanTheorem` | src/runtime.rs:1087-1223 | A scan that completes uncut, with nothing skipped or lost and no overlay over a directory, has listed the root and every directory of the index |
| `SearchRuns.ShownTheorem` | src/runtime.rs:1300-1333 | With every projection request answered, as `SearchSteps.ProjectedMeaning` shows a finished one does, and none lost to a panic, the rows on show are exactly the matches of the current query in the current index and all they hang under, in pre-order |
| `SearchSteps.ProjectedMeaning` | src/runtime.rs:1300-1333 | A finished projection of the newest request answers every request: the matches are exactly the rows whose folded path has the folded query in it, the rows exactly those with all they hang under, in pre-order and once each, the expanded context their directories; a selection that is no match moves to the first matching row |
| `SearchSteps.UnprojectedMeaning` | src/runtime.rs:1300-1311 | An outdated or cancelled projection leaves what is on show |
| `SearchSteps.PageMeaning` | src/runtime.rs:1169-1223 | A page of another job is dropped, one of another epoch makes room, a cancelled one goes back to the front of the queue; any other leaves its index and map, queues what it found, adds its counts, ends the scan if cut short or nothing is queued, and a projection is asked for |
| `SearchSteps.PageStartedMeaning` | src/runtime.rs:1087-1167 | An active search takes the next 64 directories off the queue with the index as it is, unless one runs, the scan is through or at its bounds |
| `SearchSteps.TypedMeaning` | src/runtime.rs:695-712 | Typing lengthens the query, empties the view, asks for its projection and starts a page |
| `SearchSteps.BackspacedMeaning` | src/runtime.rs:714-728 | Deleting asks for the projection of what is left, or turns the filter off |
| `SearchSteps.PanickedMeaning` | src/runtime.rs:1984-2009 | A panicked page is given up, which ends the scan of its epoch; a panicked projection counts as answered if it was the newest |
| `SearchSteps.RestartedMeaning` | src/runtime.rs:1064-1085 | A restart begins an epoch with the root alone queued and the missing-file rows counted as scanned |
| `SearchSteps.PausedMeaning` | src/runtime.rs:1893-1915 | A pause puts a running page back in front in a new epoch and outdates a held projection; a return starts both anew |
| `SearchSteps.OverlayMeaning` | src/runtime.rs:1545-1552 | A new overlay is taken over, the map is rebuilt from the index, and a projection is asked for |
| `SearchRuns.QueueProjectionKeeps` | src/runtime.rs:1225-1243 | Outdating the projection at every change keeps shown rows from standing for another index or query |
| `SearchRuns.AcceptedExactly` | src/runtime.rs:1169-1223 | In every reachable state an accepted page keeps the searchable map exact if and only if it shows no missing-file row as a directory |
| `SearchRuns.ExactTheorem` | src/runtime.rs:130-207 | Along every run without such pages from an opened search, the searchable map is the one built from the index: its keys are exactly the rows that are no directories, with equal kinds |
| `SearchRuns.OverlayRepairs` | src/runtime.rs:186-206 | A status overlay makes the map exact whatever happened before |
| `FileSearch.SearchView.RestartScan` | src/runtime.rs:1064-1085 | The object restarts a scan as the machine |
| `FileSearch.SearchView.StartNextPage` | src/runtime.rs:1087-1167 | The object submits the next page as the machine |
| `FileSearch.SearchView.CompleteSearchPage` | src/runtime.rs:1169-1223 | The object accepts, requeues or rejects the held page as the machine; any older page changes nothing |
| `FileSearch.SearchView.RequestProjection` | src/runtime.rs:1225-1243 | The object outdates and requests a projection as the machine |
| `FileSearch.SearchView.StartNextProjection` | src/runtime.rs:1258-1298 | The object submits a projection as the machine |
| `FileSearch.SearchView.CompleteSearchProjection` | src/runtime.rs:1300-1333 | The object shows a current projection and moves the selection to the first match as the machine, and so as `SearchSteps.ProjectedMeaning` says; any older projection changes nothing |
| `FileSearch.SearchView.PauseBackground` | src/runtime.rs:1893-1915 | The object requeues the running page and outdates the held projection as the machine |
| `FileSearch.SearchView.SyncOverlay` | src/runtime.rs:1545-1552 | The object copies the overlay into index and map and requests a projection as the machine |
| `FileSearch.SearchView.FailSearchPage` | src/runtime.rs:1984-1998 | A panicked page gives up its directories and ends the scan of its epoch; any older page changes nothing |
| `FileSearch.SearchView.AppendQuery` | src/runtime.rs:695-712 | What fits of the printable characters typed joins the query, outdates the projection and starts a page as the machine |
| `Texts.FittingMeaning` | src/runtime.rs:699-705 | What joins a query is the longest beginning of the printable characters within 256 bytes of UTF-8 |
| `Texts.QueryFits` | src/runtime.rs:699-705 | A query within 256 bytes stays within them, whatever is typed |
| `Texts.PrintableMeaning` | src/runtime.rs:699-705 | The printable part of a text is that of its parts, joined, and a single character is printable unless it is a control character |
| `FileSearch.SearchView.BackspaceQuery` | src/runtime.rs:714-728 | The last character goes; an emptied query voids the projection, another outdates it, as the machine |
| `FileSearch.SearchView.FailSearchProjection` | src/runtime.rs:1999-2009 | A panicked projection counts as answered; any older one changes nothing |
| `Conversations.TimeRoundTrip` | src/conversations/index.rs:823-861 | Storing a time and loading it gives it back, for every representable time |
| `Conversations.PartsRoundTrip` | src/conversations/index.rs:823-861 | A loadable stored time is canonical exactly if it is not the negative zero |
| `Conversations.PathRoundTrip` | src/conversations/index.rs:572-600 | A storable path loads again exactly if it holds no NUL byte |
| `Conversations.ApprovedNames` | src/conversations/index.rs:864-888 | Approved source and tool names are trimmed and free of NUL |
| `Conversations.CheckSourceMeaning` | src/conversations/index.rs:864-888 | A source passes exactly if it is a store of one known tool, the expected one if any; one of no known tool is incompatible |
| `Conversations.ValidatedRebuilds` | src/conversations/index.rs:689-819 | Whatever passes the load check can be rebuilt, so reading a page never fails |
| `Conversations.ConversationRoundTrip` | src/conversations/index.rs:631-819 | A cacheable conversation comes back from its cached form, and passes the load check, exactly if its path holds no NUL byte |
| `Conversations.KeyUnique` | src/conversations/index.rs:729-734 | Equal cache keys mean equal source, namespace and session |
| `Discovery.MarksAfter` | src/conversations/discovery.rs:147-247 | The continuation of each source depends on its own visit alone: a refused one is dropped, a fully read page leaves its own, anything else what was there; undesired sources lose theirs, unvisited ones keep theirs |
| `Discovery.MarkNeverPassesFailure` | src/conversations/discovery.rs:202-247 | A watermark moves only past a batch all of whose candidates were read and belong to the project |
| `Discovery.PurgedLoseMarks` | src/conversations/discovery.rs:153-200 | A purged source is undesired or was refused with a watermark, and keeps no watermark |
| `Discovery.GatheredMeaning` | src/conversations/discovery.rs:147-247 | However the visits went, a run leaves the conversations of all pages, the removals of fully read ones, the undesired and refused sources purged, and more to come exactly if a source was refused or a fully read page says so |
| `Discovery.DiscoveredConversations` | src/conversations/discovery.rs:202-237 | An uninterrupted run finds exactly the conversations of this project among the candidates of all sources that answer |
| `Discovery.DiscoveredMeaning` | src/conversations/discovery.rs:139-270 | An uninterrupted run, told by what the sources answer: removals and continuations of those whose candidates all belong to the project, refusing and undesired sources purged, and more to come exactly if one refused or, fully read, says so |
| `Discovery.ReadCandidates` | src/conversations/discovery.rs:202-237 | The candidate loop reads up to a cancellation and reports failure exactly when some candidate was not read or is of another project |
| `Discovery.Discover` | src/conversations/discovery.rs:139-270 | The nested loops amount to the visits of the sources, in order, with the conversations found sorted newest first |
| `Index.TrimMeaning` | src/conversations/index.rs:336-352 | Trimming keeps as many entries as the limit allows, unchanged, and cuts none newer than one it keeps |
| `Index.CutIsOlder` | src/conversations/index.rs:336-352 | Every cut entry ranks after every kept one, ties by key |
| `Index.TrimOldest` | src/conversations/index.rs:336-352 | Sorting, taking and retaining equals keeping the entries with fewer than the limit ahead of them |
| `Index.InsertConversations` | src/conversations/index.rs:279-290 | The insertion loop equals inserting one after the other, counts the insertions that changed something, and fails on the first conversation that cannot be cached |
| `Index.BoundWatermarks` | src/conversations/index.rs:294-319 | The loop keeps watermarks in source order within the byte budgets, exactly those `IndexRuns.BudgetMeaning` names |
| `Index.ConversationIndex.RefreshPage` | src/conversations/index.rs:217-334 | A refresh installs the whole staged index exactly when published, counts what it added or changed, and otherwise changes nothing; `IndexRuns.RefreshedEntries` and `IndexRuns.RefreshedMarks` say what was staged |
| `IndexRuns.RefreshWithinLimit` | src/conversations/index.rs:291-293 | A published refresh is within the limit and cut nothing newer than it kept |
| `IndexRuns.RefreshedEntries` | src/conversations/index.rs:246-293 | A published refresh holds under each key exactly what is due: the last conversation found with that key, else what was there unless its source is not desired, was purged or took it back; nothing else, and of that only what trimming cut is missing |
| `IndexRuns.RefreshFailsIff` | src/conversations/index.rs:279-290 | A refresh fails exactly if it found a conversation the cache cannot take |
| `IndexRuns.BudgetMeaning` | src/conversations/index.rs:294-319 | Exactly the watermarks are kept that are short enough and fit behind the kept ones before them |
| `IndexRuns.RefreshedMarks` | src/conversations/index.rs:294-334 | A published refresh is the next generation with those watermarks, and there is more to come exactly if discovery says so and every watermark fitted |
| `IndexRuns.OldestStays` | src/conversations/index.rs:279-290 | Of several copies of a key in one refresh the oldest stays cached |
| `IndexRuns.NewestStaysIff` | src/conversations/index.rs:279-290 | A refresh caches the newest copy it found under a key exactly when all copies found there are equally new |
| `IndexRuns.OlderCopyExample` | src/conversations/index.rs:279-290 | Two copies of one session in one refresh: the cache ends with the older |
| `IndexRuns.BudgetKeeps` | src/conversations/index.rs:294-319 | Kept watermarks are unchanged, within the budgets, and all of them unless one was dropped |
| `IndexRuns.MovesAccount` | src/conversations/index.rs:217-334 | However a key moves in a refresh, an emission accounted for stays accounted for |
| `IndexRuns.RefreshKeepsHistory` | src/conversations/index.rs:217-334 | A published refresh keeps cache and history straight |
| `IndexRuns.WatermarkTheorem` | src/conversations/discovery.rs:147-247 | Over every run of refreshes, failures, cancellations and reopenings, of a conversation emitted behind a stored watermark the cache holds under its key what a later refresh found there, or what its own refresh found there, not newer and the conversation itself if found alone; unless its source removed it or trimming cut it since |
| `Pages.DedupIsReading` | src/conversations/index.rs:423-465 | Sorting and keeping the first row of each session gives the newest-first list of every cached session once, by its newest copy |
| `Pages.ReadingUnique` | src/conversations/index.rs:423-465 | An index has exactly one such list |
| `Pages.PagesJoin` | src/conversations/index.rs:466-477 | Pages at offsets 0, L, 2L and so on join to the whole list |
| `Pages.ReadPage` | src/conversations/index.rs:423-477 | A page is the slice of that list, with more to come exactly if rows or sources remain; with limit 0 raw entries are counted instead of rows |
| `Pages.EntriesCountRows` | src/conversations/index.rs:423-429 | Counting entries for rows says at every offset whether rows follow exactly if no two entries share a session |
| `Pages.TwinsExample` | src/conversations/index.rs:423-429 | Two entries of one session, from two stores of a tool, make one row |
| `Pages.RefreshKeepsReadable` | src/conversations/index.rs:217-334 | A refresh keeps every entry readable while no emitted path holds a NUL byte |
| `CacheNames.GenerationOf` | src/conversations/index.rs:1028-1041 | A published file name gives its generation back |
| `CacheNames.GenerationMeaning` | src/conversations/index.rs:1028-1041 | Exactly the names of a published file's form have a generation, the number their digits stand for |
| `CacheNames.TemporaryMeaning` | src/conversations/index.rs:1043-1067 | Exactly the names of a temporary cache or pointer file's form are temporary |
| `CacheNames.NamesDiffer` | src/conversations/index.rs:384-393 | Distinct generations or nonces give distinct names |
| `CacheNames.TemporaryNames` | src/conversations/index.rs:1043-1067 | Temporary names are recognised and never taken for published files or the current pointer |
| `CacheFiles.DiskRoundTrip` | src/conversations/index.rs:154-206 | An index comes back from its document as it was exactly if it is storable: NUL-free root, approved watermark sources, bounded counts and tokens, valid entries; under a raised limit without its continuations |
| `CacheFiles.DocumentMeaning` | src/conversations/index.rs:154-206 | Exactly the documents load that are of this version and project, within bounds, with good watermarks of distinct sources and valid records of distinct keys; the index has their generation, records and continuations |
| `CacheFiles.OpenMeaning` | src/conversations/index.rs:68-133 | Whatever is on disk, opening loads exactly if the current pointer names a published file with such a document of its generation; else the index is empty, and missing exactly if no such file is named |
| `CacheFiles.UnstorableExample` | src/conversations/index.rs:154-206 | An index with a watermark of a source nobody approved is written and refused when it is opened |
| `CacheFiles.OpenedUsable` | src/conversations/index.rs:68-133 | Whatever is on disk, all entries of an opened index can be read |
| `CacheFiles.SameViewOpens` | src/conversations/index.rs:965-1000 | Files the current pointer does not lead to do not change what opening gives |
| `CacheRuns.StagedStorable` | src/conversations/index.rs:289-321 | What a refresh stages comes back from disk exactly if its continuations are at most 32, of approved sources and not empty, and its entries readable; count and lengths are seen to |
| `CacheRuns.RefreshStorable` | src/conversations/index.rs:217-334 | Refreshing a storable index from approved sources, with NUL-free paths, stages a storable one |
| `CacheFiles.MovedOpens` | src/conversations/index.rs:68-133 | Once the current file names the complete new file, opening gives exactly the new index |
| `CachePersist.PublishDocument` | src/conversations/index.rs:395-420 | Write aside, rename into place; a cancellation in between leaves the directory as it was |
| `CachePersist.PublishPointer` | src/conversations/index.rs:1194-1220 | Write the current pointer aside and rename it over the current one |
| `CachePersist.RemoveOlder` | src/conversations/index.rs:1222-1256 | Only published files of earlier generations go |
| `CachePersist.Persist` | src/conversations/index.rs:354-421 | Whatever operation fails and wherever the process stops, the current pointer is on the complete new file, or it has not moved and no other published file changed: the outcomes the runs of `CacheRuns` go over |
| `CachePersist.CleanUp` | src/conversations/index.rs:1002-1026 | Only temporary files go |
| `CachePersist.OpenCache` | src/conversations/index.rs:57-133 | Opening, clean-up included, gives what the directory showed before |
| `CacheRuns.OldOrNew` | src/conversations/index.rs:354-421 | After one interrupted publication the next opening, under any limit, gives what it would have given before, or exactly the new index |
| `CacheRuns.CrashTheorem` | src/conversations/index.rs:354-421 | Over every run of refreshes published, failed or stopped anywhere, and reopenings by any process under any limit, the next opening under any limit gives exactly the last index whose pointer was put in place, continuations given up only under a raised limit, or an empty one if there was none |
| `CacheRuns.MemoryTheorem` | src/conversations/index.rs:217-421 | Over every such run whose publications are installed in memory exactly if their pointer was put in place, the index in memory holds what opening the cache again would give |
| `CacheRuns.RunsMirrored` | src/conversations/index.rs:354-421 | Each step of these runs is a step of the runs that `IndexRuns.WatermarkTheorem` speaks of, with the same index in memory and on disk |
| `Active.UniqueMeaning` | src/conversations/active.rs:454-462 | A key finds an index exactly if it was registered once, for that index |
| `Active.PrepareFilesystem` | src/conversations/active.rs:194-219 | Sessions and transcripts of all rows are registered in order |
| `Active.MatchedMeaning` | src/conversations/active.rs:248-263 | A row is found for a live session exactly if its native session is that row's alone; or no row owns the native one alone and of all provenances only one, of that row, identifies as its transcript; or neither names a row and its documented session is that row's alone |
| `Active.PreparedInRange` | src/conversations/active.rs:194-219 | Whatever was prepared can be merged into |
| `Active.EnrichedMeaning` | src/conversations/active.rs:407-432 | Enriching keeps tool, session, times of creation and archiving and resume data, adds the first title where there is none, makes the row live and its time no older than observed, and extends the provenance by exactly that of the sessions, each once |
| `Active.LiveRowMeaning` | src/conversations/active.rs:434-452 | The row of sessions that match none has the first one's tool and session, the first title and exactly their provenance, each once, and is live since observed |
| `Active.RecentMeaning` | src/conversations/active.rs:464-478 | Rows come newest first, then by tool, namespace and session; only rows that agree in all of these are not ordered |
| `Active.MergeLive` | src/conversations/active.rs:239-283 | Every filesystem row is enriched by exactly the sessions that belong to it, in order; those that belong to none share one row per tool and identifier; all rows are sorted newest first |
| `Active.MergeConserves` | src/conversations/active.rs:239-283 | Every filesystem row keeps what it is; it gains the provenance of every session that belongs to it and is live then, and stays as it was if none does |
| `Active.ReplacedCopy` | src/conversations/active.rs:131-145 | The last row of a session after replacing is its last fresh copy, else the last earlier one |
| `Active.ReplacedRows` | src/conversations/active.rs:131-145 | Replacing keeps every earlier row but the last of its session, and appends each session the earlier rows lack once |
| `Active.MergeSnapshots` | src/conversations/active.rs:127-150 | The merged rows are the replaced rows, sorted newest first; from earlier rows that repeat no session, each session appears exactly once, by its last fresh copy or else its earlier one |
| `Keybindings.DefaultsApart` | src/config.rs:544-579 | No two actions share a default chord |
| `Keybindings.ChordsMeaning` | src/config.rs:1211-1224 | A configured array is read exactly if all items are chords, duplicates dropped |
| `Keybindings.ChosenMeaning` | src/config.rs:1208-1229 | An action is configured exactly by an array of one to sixteen chords, and has those then |
| `Keybindings.SettledMeaning` | src/config.rs:1232-1262 | The conflict loop ends with no chord owned by two actions and every action on its configured chords or its defaults |
| `Keybindings.RevertedIff` | src/config.rs:1232-1262 | An action loses its configured chords exactly if in some round one of them was shared |
| `Keybindings.FindConflicts` | src/config.rs:1234-1245 | Collecting owners chord by chord finds exactly the configured actions that share a chord |
| `Keybindings.ParseKeybindings` | src/config.rs:1203-1263 | The loops compute those bindings and report exactly the configured actions that did not get their chords |
| `Keybindings.MapKeyMeaning` | src/config.rs:518-524 | A key maps to an action exactly if the action has the chord, so binding order does not matter |
| `JjDiff.SplitTerminated` | src/vcs/jj.rs:257-268 | Splitting undoes NUL-terminating, for any fields without NUL |
| `JjDiff.DiffRoundTrip` | src/vcs/jj.rs:22-30 | Parsing undoes the template for every list of up to 100000 well-formed records |
| `JjDiff.AcceptedIsPrinted` | src/vcs/jj.rs:257-320 | Only prints of well-formed records are accepted: any other number of fields than seven a record, or more records, is rejected |
| `JjDiff.ReadableIff` | src/vcs/jj.rs:272-282 | A record is read exactly if its letter, flags and file types are known words and its paths usable, a source path only where the letter is of a rename or copy |
| `JjDiff.RecordMeaning` | src/vcs/jj.rs:283-318 | A record of no file on either side has no entry; any other one has the paths its fields name, Conflicted wherever a conflict is flagged or present, TypeChanged for a modified file of another type, else what its letter says |
| `JjDiff.ParsePathMeaning` | src/vcs/jj.rs:402-418 | A path is usable exactly if it is not empty, not absolute, has no leading dot and no step up; it is its naming pieces, in order |
| `JjDiff.EntryAt` | src/vcs/jj.rs:281-318 | Every record that is a file on some side has its classified entry, in order |
| `JjDiff.ParseTemplatedDiff` | src/vcs/jj.rs:257-320 | The field loop gives the entries of the records, or the first error in field order |
| `History.RowsDistinct` | src/model.rs:542-570 | With distinct sessions and providers no row occurs twice |
| `History.RowsMeaning` | src/model.rs:474-496 | A provider has a row exactly if it passes the filter or one of its sessions does by its title; a session has one exactly if its provider is not collapsed and either passes |
| `History.RowsInOrder` | src/model.rs:542-570 | Rows come provider by provider, each provider's own row first and its sessions in the order of the items |
| `History.SelectThenSelected` | src/model.rs:523-540 | Selecting a row selects the first row like it, which is the row itself exactly if no earlier row is the same, and always without duplicate sessions |
| `History.RepeatedRowExample` | src/model.rs:634-662 | Of a session listed twice the second row is looked up as the first |
| `History.ScrollShows` | src/model.rs:678-691 | The selected row is in view, with no blank space that rows could fill |
| `History.ScrollsLeast` | src/model.rs:678-691 | No other position that shows the row without blank space is nearer; without a selection the list goes to the top |
| `History.SelectedMeaning` | src/model.rs:634-662 | The selected row is the first place of the selected session, or of the selected provider if no session is |
| `History.MovedMeaning` | src/model.rs:497-521 | A move goes as far as asked, or to the end it would pass; with nothing selected it starts at the end it comes from |
| `History.SelectShows` | src/model.rs:523-540 | Without duplicate sessions a selected row is the selected one and in view |
| `History.MigratedMeaning` | src/model.rs:275-297 | A selection among the new items stays; one whose session is gone moves to a session exactly if that is the only new item sharing a file with the session's first old item |
| `History.RowAt` | src/model.rs:542-570 | The lookup loops find the row at a place of the one row list |
| `History.FindRow` | src/model.rs:634-662 | The search loops find the first place of a row in that list |
| `History.CountRows` | src/model.rs:664-676 | The counting loops give the length of that list |
| `History.HistoryView.TargetAtRow` | src/model.rs:542-570 | A place has a row exactly if it is below the row count |
| `History.HistoryView.SelectedRow` | src/model.rs:634-662 | The selected row is the first place of the selection in the list |
| `History.HistoryView.SelectRow` | src/model.rs:523-540 | Selecting sets provider and session of the row and brings it into view; past the end nothing changes |
| `History.HistoryView.MoveRowSelection` | src/model.rs:497-521 | Moving stops at either end, starts from the near end when nothing is selected, and tells whether anything changed |
| `History.HistoryView.SetSelectedProviderCollapsed` | src/model.rs:572-591 | Collapsing from a session goes up to its provider; from a provider it hides or shows its sessions; the selected row is brought into view |
| `History.HistoryView.ReplaceVisibleItems` | src/model.rs:275-330 | Providers are the sorted tools of the new items, and selection and selected provider agree with them |

## Left out

- Saturation of 64-bit generations, epochs, revisions and nonces: they are unbounded here, and cache file names assume they fit.
- Rendering, key and pointer decoding, viewport geometry of the Files view, notices, warnings' wording and redraw flags: presentation only.
- Ignore rules and directory reading: a loader answers with distinct direct children within the given bounds, or fails.
- Ordering a listing's entries: a listing is a map from paths to kinds, as nodes are keyed by path anyway.
- Unicode: names and titles compare and contain by characters or bytes, lower-casing is a parameter, and trimming and control characters cover ASCII only, save in typed queries.
- Process handling, timeouts, adaptive refresh intervals, fingerprints and pane input: plumbing around the modelled state.
- Workers' queues: of several jobs in flight only the newest is held, because every older one fails the generation tests and changes nothing.
- Source adapters and metadata extraction: a source answers a probe, a batch and each candidate; its records carry its own identifier. Discovery's diagnostics are not collected.
- `Index.ConversationIndex.RefreshPage`: the answer of publishing is a parameter here; `CachePersist.Persist` models publishing itself, and `IndexRuns` runs over both outcomes.
- File permissions, ownership checks, symbolic links and flushing: a rename is atomic and what it renamed is complete; the directory holds regular files only.
- Pointer contents with path separators, which the program never writes.
- The JSON encoding of the cache and the hash that names the project directory: the codec is faithful by assumption, and one project directory is modelled.
- `Active.MergeLive`: how host sessions are normalised into tool, identities and provenance is not modelled; any normalised session is covered.
- `Keybindings.MapKeyMeaning`: parsing chord texts and decoding key events into chords are not modelled; a configured item is a chord or not.
- Searching ignored files, the split view of changed files, and selected-file references: separate small features of the Files view.
- History's pointer handling, provider toggling, error lists and loading flags: thin layers over the modelled row operations.
- Parsing of Git output and the rest of the Jujutsu adapter: only the templated diff is modelled, for Unix paths.
