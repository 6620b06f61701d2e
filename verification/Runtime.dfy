/** The filesystem job machine of the files runtime and its visible rows, as states and steps. */
module Runtime {
  import opened Wrappers
  import opened Paths
  import opened Tree
  import opened Rows
  import opened FilesTree

  /** One accepted background load: its generation, what it was asked to expand, what it loads. */
  datatype FsJob = FsJob(generation: nat, expansions: set<Path>, directories: seq<Path>)

  datatype FsState = FsState(
    tree: TreeState,
    filter: bool,
    expanded: set<Path>,
    desired: set<Path>,
    rows: seq<Path>,
    generation: nat,
    applied: nat,
    running: Option<nat>,
    expansionsRunning: set<Path>,
    reloadRunning: bool,
    pending: set<Path>,
    reloadPending: bool,
    panicRetried: bool,
    active: bool,
    job: Option<FsJob>)

  // ---------------------------------------------------------------- visible rows

  function VisibleRows(nodes: Nodes, expanded: set<Path>): seq<Path>
    requires ROOT !in nodes
  {
    RowsUnder(nodes, nodes.Keys, expanded, ROOT)
  }

  /** A node shows exactly when every display ancestor below the root is an expanded directory. */
  predicate Shows(nodes: Nodes, expanded: set<Path>, p: Path)
    requires ROOT !in nodes
    decreases |p|
  {
    && p in nodes
    && var q := DisplayParent(nodes, p);
       q == ROOT || (IsDirectory(nodes, q) && q in expanded && Shows(nodes, expanded, q))
  }

  lemma {:induction false} ShowsReaches(nodes: Nodes, expanded: set<Path>, p: Path)
    requires ROOT !in nodes
    ensures Shows(nodes, expanded, p) <==> Reaches(nodes, nodes.Keys, expanded, p)
    decreases |p|
  {
    if p in nodes && DisplayParent(nodes, p) != ROOT {
      ShowsReaches(nodes, expanded, DisplayParent(nodes, p));
    }
  }

  /** The visible rows are the nodes that show, each once, in pre-order. */
  lemma VisibleRowsMeaning(nodes: Nodes, expanded: set<Path>)
    requires ROOT !in nodes
    ensures forall p :: p in VisibleRows(nodes, expanded) <==> Shows(nodes, expanded, p)
    ensures Preorder(nodes, VisibleRows(nodes, expanded))
    ensures forall i, j :: 0 <= i < j < |VisibleRows(nodes, expanded)| ==>
              VisibleRows(nodes, expanded)[i] != VisibleRows(nodes, expanded)[j]
  {
    ListingTheorem(nodes, nodes.Keys, expanded);
    forall p ensures Shows(nodes, expanded, p) <==> Reaches(nodes, nodes.Keys, expanded, p) {
      ShowsReaches(nodes, expanded, p);
    }
  }

  function DirectoriesOf(nodes: Nodes, paths: set<Path>): set<Path> {
    set p | p in paths && IsDirectory(nodes, p)
  }

  /** Climbs from a hidden row to the nearest visible display ancestor. */
  function NearestVisible(nodes: Nodes, rows: seq<Path>, p: Path): Option<Path>
    requires ROOT !in nodes
    decreases |p|
  {
    if p !in nodes then None
    else
      var q := DisplayParent(nodes, p);
      if q in rows then Some(q) else NearestVisible(nodes, rows, q)
  }

  function VisibleSelection(nodes: Nodes, rows: seq<Path>, selection: Option<Path>): Option<Path>
    requires ROOT !in nodes
  {
    if selection.None? || selection.value in rows then selection
    else if NearestVisible(nodes, rows, selection.value).Some? then NearestVisible(nodes, rows, selection.value)
    else if rows != [] then Some(rows[0])
    else selection
  }

  lemma {:induction false} NearestIsVisible(nodes: Nodes, rows: seq<Path>, p: Path)
    requires ROOT !in nodes
    ensures NearestVisible(nodes, rows, p).Some? ==> NearestVisible(nodes, rows, p).value in rows
    decreases |p|
  {
    if p in nodes && DisplayParent(nodes, p) !in rows {
      NearestIsVisible(nodes, rows, DisplayParent(nodes, p));
    }
  }

  /** Rebuilding keeps directories expanded, relists the rows and keeps the selection visible;
      while a search filters the view it does nothing. */
  function Rebuilt(s: FsState): FsState
    requires ROOT !in s.tree.nodes
  {
    if s.filter then s
    else
      var expanded := DirectoriesOf(s.tree.nodes, s.expanded);
      var rows := VisibleRows(s.tree.nodes, expanded);
      s.(expanded := expanded,
         desired := DirectoriesOf(s.tree.nodes, s.desired),
         rows := rows,
         tree := s.tree.(selection := VisibleSelection(s.tree.nodes, rows, s.tree.selection)))
  }

  // ---------------------------------------------------------------- job steps

  predicate DepthSorted(s: seq<Path>) {
    forall i, j :: 0 <= i < j < |s| ==> |s[i]| < |s[j]| || (|s[i]| == |s[j]| && PathLess(s[i], s[j]))
  }

  function Deepest(s: seq<Path>): (n: nat)
    ensures forall p :: p in s ==> |p| <= n
  {
    if s == [] then 0
    else
      var n := Deepest(s[1..]);
      assert forall p :: p in s ==> p == s[0] || p in s[1..];
      if n < |s[0]| then |s[0]| else n
  }

  lemma LevelAppends(front: seq<Path>, level: seq<Path>, n: nat)
    requires DepthSorted(front) && forall p :: p in front ==> |p| < n
    requires SortedPaths(level) && forall p :: p in level ==> |p| == n
    ensures DepthSorted(front + level)
  {
    var s := front + level;
    forall i, j | 0 <= i < j < |s|
      ensures |s[i]| < |s[j]| || (|s[i]| == |s[j]| && PathLess(s[i], s[j]))
    {
      assert s[i] in front || s[i] in level;
      assert s[j] in front || s[j] in level;
      if i >= |front| {
        assert s[i] == level[i - |front|] && s[j] == level[j - |front|];
      } else if j < |front| {
        assert s[i] == front[i] && s[j] == front[j];
      } else {
        assert s[i] in front && s[j] in level;
      }
    }
  }

  function UpToDepth(s: set<Path>, n: nat): (r: seq<Path>)
    ensures forall p :: p in r <==> p in s && |p| < n
    ensures DepthSorted(r)
  {
    if n == 0 then [] else
      var front := UpToDepth(s, n - 1);
      var level := InOrder(set p | p in s && |p| == n - 1);
      LevelAppends(front, level, n - 1);
      front + level
  }

  /** Job directories load parents before children, siblings in path order, each once. */
  function ByDepth(s: set<Path>): (r: seq<Path>)
    ensures forall p :: p in r <==> p in s
    ensures DepthSorted(r)
  {
    UpToDepth(s, Deepest(InOrder(s)) + 1)
  }

  function JobDirectories(reload: bool, expanded: set<Path>, expansions: set<Path>): set<Path> {
    (if reload then {ROOT} + expanded else {}) + expansions
  }

  /** Submits everything pending as one job, unless paused, busy or idle. */
  function StartNext(s: FsState, accepted: bool): FsState {
    var wanted := JobDirectories(s.reloadPending, s.expanded, s.pending);
    if !s.active || s.running.Some? || wanted == {} || !accepted then s
    else
      s.(running := Some(s.generation), reloadRunning := s.reloadPending, expansionsRunning := s.pending,
         reloadPending := false, pending := {},
         job := Some(FsJob(s.generation, s.pending, ByDepth(wanted))))
  }

  function RequestExpansion(s: FsState, p: Path, accepted: bool): FsState {
    if !IsDirectory(s.tree.nodes, p) || p in s.desired then s
    else
      StartNext(s.(desired := s.desired + {p}, generation := s.generation + 1, pending := s.pending + {p}), accepted)
  }

  function Collapse(s: FsState, p: Path): FsState
    requires ROOT !in s.tree.nodes
  {
    var t := s.(desired := s.desired - {p}, pending := s.pending - {p},
                generation := if s.running.Some? then s.generation + 1 else s.generation);
    if p in s.expanded then Rebuilt(t.(expanded := s.expanded - {p})) else t
  }

  function Toggle(s: FsState, accepted: bool): FsState
    requires ROOT !in s.tree.nodes
  {
    if s.filter || s.tree.selection.None? then s
    else if s.tree.selection.value in s.desired then Collapse(s, s.tree.selection.value)
    else RequestExpansion(s, s.tree.selection.value, accepted)
  }

  function RequestReload(s: FsState, accepted: bool): FsState {
    StartNext(s.(generation := s.generation + 1, reloadPending := true), accepted)
  }

  /** One directory of a finished job: its listing, or nothing when loading failed. */
  datatype LoadResult = LoadResult(directory: Path, listing: Option<Listing>)

  predicate ValidResults(results: seq<LoadResult>) {
    forall i :: 0 <= i < |results| && results[i].listing.Some? ==>
      ValidListing(results[i].listing.value) && results[i].listing.value.directory == results[i].directory
  }

  /** Results install in order; directories that are gone by then are skipped. */
  function Installs(t: TreeState, r: LoadResult): bool {
    r.listing.Some? && (r.directory == ROOT || IsDirectory(t.nodes, r.directory))
  }

  function Install(t: TreeState, results: seq<LoadResult>): TreeState {
    if results == [] then t
    else
      var before := Install(t, results[..|results| - 1]);
      var r := results[|results| - 1];
      if Installs(before, r) then Loaded(before, r.listing.value) else before
  }

  function Installed(t: TreeState, results: seq<LoadResult>): set<Path> {
    if results == [] then {}
    else
      var before := Install(t, results[..|results| - 1]);
      var r := results[|results| - 1];
      Installed(t, results[..|results| - 1]) + (if Installs(before, r) then {r.directory} else {})
  }

  lemma {:induction false} InstallKeepsCoherent(t: TreeState, results: seq<LoadResult>)
    requires Coherent(t) && ValidResults(results)
    ensures Coherent(Install(t, results))
  {
    if results != [] {
      var before := Install(t, results[..|results| - 1]);
      InstallKeepsCoherent(t, results[..|results| - 1]);
      if Installs(before, results[|results| - 1]) {
        LoadKeepsCoherent(before, results[|results| - 1].listing.value);
      }
      hide Coherent, Loaded;
    }
  }

  /** Every listing is installed under the root or a cached directory, so the tree stays closed. */
  lemma {:induction false} InstallKeepsClosed(t: TreeState, results: seq<LoadResult>)
    requires ParentClosed(t.nodes) && ValidResults(results)
    ensures ParentClosed(Install(t, results).nodes)
  {
    if results != [] {
      var before, r := Install(t, results[..|results| - 1]), results[|results| - 1];
      InstallKeepsClosed(t, results[..|results| - 1]);
      if Installs(before, r) {
        ApplyDirectoryMeaning(before.nodes, before.statuses, r.listing.value);
        assert Loaded(before, r.listing.value).nodes == Applied(before.nodes, before.statuses, r.listing.value);
      }
      hide ParentClosed, Applied, Loaded;
    }
  }

  /** The expansions that came back as loaded directories. */
  function Opened(tree: TreeState, loaded: set<Path>, expansions: set<Path>): set<Path> {
    set p | p in expansions && p in loaded && IsDirectory(tree.nodes, p)
  }

  function InstallJob(s: FsState, j: FsJob, results: seq<LoadResult>): FsState
    requires Coherent(s.tree) && ValidResults(results)
  {
    InstallKeepsCoherent(s.tree, results);
    var tree := Install(s.tree, results);
    var fulfilled := Opened(tree, Installed(s.tree, results), j.expansions);
    var t := s.(tree := tree, panicRetried := false, applied := j.generation,
                expanded := s.expanded + (fulfilled * s.desired),
                desired := s.desired - (j.expansions - fulfilled));
    if Installed(s.tree, results) != {} then Rebuilt(t) else t
  }

  /** A job comes back: a current one is installed, a stale one only returns what it owed. */
  function Complete(s: FsState, results: seq<LoadResult>, accepted: bool): FsState
    requires Coherent(s.tree) && ValidResults(results)
  {
    if s.job.None? then s
    else
      var j := s.job.value;
      var t := s.(expansionsRunning := {}, job := None);
      if s.running != Some(j.generation) then t
      else
        var t := t.(running := None, reloadRunning := false);
        if j.generation != s.generation then StartNext(Returned(s, j), accepted)
        else StartNext(InstallJob(t, j, results), accepted)
  }

  /** A stale job hands back the reload and the expansions that are still wanted. */
  function Returned(s: FsState, j: FsJob): FsState {
    var owed := s.(expansionsRunning := {}, job := None, running := None, reloadRunning := false,
                   reloadPending := s.reloadPending || s.reloadRunning,
                   pending := s.pending + (j.expansions * s.desired));
    if !owed.reloadPending && owed.pending == {} then owed.(applied := s.generation) else owed
  }

  /** The worker died: retry once what is still wanted, give up the second time. */
  function Panic(s: FsState, accepted: bool): FsState {
    if s.running.None? then s
    else
      var t := s.(running := None, reloadRunning := false, expansionsRunning := {}, job := None,
                  reloadPending := s.reloadPending || s.reloadRunning,
                  pending := s.pending + (s.expansionsRunning * s.desired),
                  generation := s.generation + 1);
      if !s.panicRetried && (t.reloadPending || t.pending != {}) then
        StartNext(t.(panicRetried := true), accepted)
      else
        t.(reloadPending := false, pending := {}, applied := t.generation)
  }

  // ---------------------------------------------------------------- events

  datatype Event =
    | SelectRow(path: Path)
    | ToggleSelected(accepted: bool)
    | ExpandOrDescend(accepted: bool)
    | CollapseOrAscend
    | Reload(accepted: bool)
    | JobDone(results: seq<LoadResult>, accepted: bool)
    | JobPanicked(accepted: bool)
    | StatusMerged(c: MergeContext, entries: set<StatusEntry>)
    | ToggleIgnored(editing: bool, accepted: bool)
    | SearchInput
    | Projected(rows: seq<Path>)
    | ClearSearch(editing: bool)
    | Pause
    | Resume(accepted: bool, again: bool)
    | Retry(accepted: bool)

  predicate Enabled(s: FsState, e: Event) {
    match e
    case JobDone(results, _) => s.job.Some? && ValidResults(results)
    case JobPanicked(_) => s.job.Some?
    case Projected(_) => s.filter
    case _ => true
  }

  function Selected(s: FsState, p: Path): FsState {
    if p in s.tree.nodes then s.(tree := s.tree.(selection := Some(p))) else s
  }

  function Cleared(s: FsState, editing: bool): FsState
    requires ROOT !in s.tree.nodes
  {
    if s.filter || editing then Rebuilt(s.(filter := false)) else s
  }

  function Next(s: FsState, e: Event): FsState
    requires Coherent(s.tree) && Enabled(s, e)
  {
    match e
    case SelectRow(p) => Selected(s, p)
    case ToggleSelected(accepted) => Toggle(s, accepted)
    case ExpandOrDescend(accepted) =>
      if s.filter || s.tree.selection.None? then s
      else if s.tree.selection.value in s.expanded then
        var children := ChildrenAt(s.tree.children, s.tree.selection.value);
        if children == [] then s else Selected(s, children[0])
      else RequestExpansion(s, s.tree.selection.value, accepted)
    case CollapseOrAscend =>
      if s.filter || s.tree.selection.None? then s
      else
        var p := s.tree.selection.value;
        if p in s.desired then Collapse(s, p)
        else if p in s.tree.nodes && DisplayParent(s.tree.nodes, p) != ROOT then
          Selected(s, DisplayParent(s.tree.nodes, p))
        else s
    case Reload(accepted) => RequestReload(s, accepted)
    case JobDone(results, accepted) => Complete(s, results, accepted)
    case JobPanicked(accepted) => Panic(s, accepted)
    case StatusMerged(c, entries) =>
      MergeKeepsCoherent(s.tree, c, entries);
      Rebuilt(s.(tree := Merged(s.tree, c, entries)))
    case ToggleIgnored(editing, accepted) =>
      SyncKeepsCoherent(s.tree, s.tree);
      RequestReload(Cleared(s.(tree := Synced(s.tree, s.tree)), editing), accepted)
    case SearchInput => s.(filter := true, rows := [])
    case Projected(rows) => s.(rows := rows)
    case ClearSearch(editing) => Cleared(s, editing)
    case Pause => s.(active := false)
    case Resume(accepted, again) => StartNext(RequestReload(s.(active := true), accepted), again)
    case Retry(accepted) => StartNext(s, accepted)
  }

  // ---------------------------------------------------------------- invariants

  /** The job record and the running fields tell the same story. */
  predicate JobOk(job: Option<FsJob>, running: Option<nat>, expansions: set<Path>, reload: bool) {
    match job
    case None => running.None? && expansions == {} && !reload
    case Some(j) =>
      && running == Some(j.generation)
      && j.expansions == expansions
      && (reload ==> ROOT in j.directories)
      && (forall p :: p in j.expansions ==> p in j.directories)
      && DepthSorted(j.directories)
  }

  predicate FsOk(s: FsState) {
    && Coherent(s.tree)
    && JobOk(s.job, s.running, s.expansionsRunning, s.reloadRunning)
    && s.expanded <= s.desired
    && s.pending !! s.expanded
    && s.expansionsRunning !! s.expanded
    && s.applied <= s.generation
    && (s.running.Some? ==> s.running.value <= s.generation)
    && (s.running == Some(s.generation) ==> !s.reloadPending && s.pending == {})
  }

  /** The rows are the ones the tree and the expansions call for. */
  predicate RowsFit(nodes: Nodes, expanded: set<Path>, desired: set<Path>, rows: seq<Path>) {
    && ROOT !in nodes
    && rows == VisibleRows(nodes, expanded)
    && (forall p :: p in desired ==> IsDirectory(nodes, p))
    && (forall p :: p in expanded ==> IsDirectory(nodes, p))
  }

  /** Without a search filter the rows fit. */
  predicate RowsOk(s: FsState) {
    s.filter || RowsFit(s.tree.nodes, s.expanded, s.desired, s.rows)
  }

  /** What the user wants open is open, queued or being loaded. */
  predicate Wanted(s: FsState) {
    s.desired <= s.expanded + s.pending + s.expansionsRunning
  }

  /** A requested reload is queued or being loaded. */
  predicate OwesReload(s: FsState) {
    s.reloadPending || s.reloadRunning
  }

  // ---------------------------------------------------------------- every step keeps them

  predicate Sound(s: FsState) {
    FsOk(s) && RowsOk(s)
  }

  lemma NewJobOk(reload: bool, expanded: set<Path>, expansions: set<Path>, generation: nat)
    ensures JobOk(Some(FsJob(generation, expansions, ByDepth(JobDirectories(reload, expanded, expansions)))),
                  Some(generation), expansions, reload)
  {
    hide ByDepth, DepthSorted;
  }

  lemma StartKeepsSound(s: FsState, accepted: bool)
    requires FsOk(s)
    ensures FsOk(StartNext(s, accepted))
    ensures RowsOk(s) ==> RowsOk(StartNext(s, accepted))
    ensures Wanted(StartNext(s, accepted)) <==> Wanted(s)
    ensures OwesReload(StartNext(s, accepted)) <==> OwesReload(s)
  {
    NewJobOk(s.reloadPending, s.expanded, s.pending, s.generation);
    assert s.running.None? ==> s.expansionsRunning == {} && !s.reloadRunning;
    hide Coherent, JobOk, RowsFit, ByDepth, JobDirectories;
  }

  /** Submitting changes neither the tree nor what is expanded or shown. */
  lemma StartFrame(s: FsState, accepted: bool)
    ensures var t := StartNext(s, accepted);
            && t.tree == s.tree && t.rows == s.rows && t.expanded == s.expanded && t.desired == s.desired
            && t.panicRetried == s.panicRetried
  {
  }

  lemma RebuildKeepsSound(s: FsState)
    requires FsOk(s)
    ensures FsOk(Rebuilt(s)) && RowsOk(Rebuilt(s))
    ensures Wanted(s) ==> Wanted(Rebuilt(s))
  {
    var t := Rebuilt(s);
    SelectionKeepsCoherent(s.tree, t.tree.selection);
    hide Coherent, JobOk, VisibleRows, VisibleSelection;
  }

  lemma SelectionKeepsCoherent(t: TreeState, selection: Option<Path>)
    requires Coherent(t)
    ensures Coherent(t.(selection := selection))
  {
  }

  lemma SelectKeepsSound(s: FsState, p: Path)
    requires Sound(s)
    ensures Sound(Selected(s, p))
    ensures Wanted(Selected(s, p)) <==> Wanted(s)
  {
    SelectionKeepsCoherent(s.tree, Some(p));
    hide Coherent, JobOk, RowsFit;
  }

  function ExpansionRequested(s: FsState, p: Path): FsState {
    s.(desired := s.desired + {p}, generation := s.generation + 1, pending := s.pending + {p})
  }

  lemma ExpansionRequestedOk(s: FsState, p: Path)
    requires Sound(s) && IsDirectory(s.tree.nodes, p) && p !in s.desired
    ensures FsOk(ExpansionRequested(s, p)) && RowsOk(ExpansionRequested(s, p))
    ensures Wanted(s) ==> Wanted(ExpansionRequested(s, p))
  {
    hide Coherent, JobOk, VisibleRows;
  }

  lemma ExpansionKeepsSound(s: FsState, p: Path, accepted: bool)
    requires Sound(s)
    ensures Sound(RequestExpansion(s, p, accepted))
    ensures Wanted(s) ==> Wanted(RequestExpansion(s, p, accepted))
    ensures OwesReload(RequestExpansion(s, p, accepted)) <==> OwesReload(s)
  {
    if IsDirectory(s.tree.nodes, p) && p !in s.desired {
      ExpansionRequestedOk(s, p);
      StartKeepsSound(ExpansionRequested(s, p), accepted);
    }
    hide FsOk, RowsOk, Wanted, StartNext;
  }

  function Collapsed(s: FsState, p: Path): FsState {
    s.(desired := s.desired - {p}, pending := s.pending - {p}, expanded := s.expanded - {p},
       generation := if s.running.Some? then s.generation + 1 else s.generation)
  }

  lemma CollapsedOk(s: FsState, p: Path)
    requires Sound(s)
    ensures FsOk(Collapsed(s, p))
    ensures p !in s.expanded ==> RowsOk(Collapsed(s, p))
    ensures Wanted(s) ==> Wanted(Collapsed(s, p))
    ensures Collapse(s, p) == if p in s.expanded then Rebuilt(Collapsed(s, p)) else Collapsed(s, p)
  {
    if p !in s.expanded { assert s.expanded - {p} == s.expanded; }
    hide Coherent, JobOk, VisibleRows, Rebuilt;
  }

  lemma CollapseKeepsSound(s: FsState, p: Path)
    requires Sound(s)
    ensures Sound(Collapse(s, p))
    ensures Wanted(s) ==> Wanted(Collapse(s, p))
    ensures OwesReload(Collapse(s, p)) <==> OwesReload(s)
  {
    CollapsedOk(s, p);
    RebuildOwes(Collapsed(s, p));
    RebuildKeepsSound(Collapsed(s, p));
    hide FsOk, RowsOk, Wanted, Collapse, Rebuilt;
  }

  lemma RebuildOwes(s: FsState)
    requires ROOT !in s.tree.nodes
    ensures OwesReload(Rebuilt(s)) <==> OwesReload(s)
  {
  }

  function ReloadRequested(s: FsState): FsState {
    s.(generation := s.generation + 1, reloadPending := true)
  }

  lemma ReloadRequestedOk(s: FsState)
    requires Sound(s)
    ensures FsOk(ReloadRequested(s)) && RowsOk(ReloadRequested(s))
    ensures Wanted(s) ==> Wanted(ReloadRequested(s))
  {
    hide Coherent, JobOk, RowsFit;
  }

  lemma ReloadKeepsSound(s: FsState, accepted: bool)
    requires Sound(s)
    ensures Sound(RequestReload(s, accepted))
    ensures Wanted(s) ==> Wanted(RequestReload(s, accepted))
    ensures OwesReload(RequestReload(s, accepted))
  {
    ReloadRequestedOk(s);
    StartKeepsSound(ReloadRequested(s), accepted);
    hide FsOk, RowsOk, Wanted, StartNext;
  }

  lemma InstallJobKeepsSound(s: FsState, j: FsJob, results: seq<LoadResult>)
    requires FsOk(s) && ValidResults(results) && s.running.None?
    requires j.generation <= s.generation && j.expansions !! s.expanded
    requires s.pending == {} && !s.reloadPending
    requires RowsOk(s)
    ensures Sound(InstallJob(s, j, results))
    ensures s.desired <= s.expanded + j.expansions ==> Wanted(InstallJob(s, j, results))
  {
    var tree := Install(s.tree, results);
    InstallKeepsCoherent(s.tree, results);
    var loaded := Installed(s.tree, results);
    var fulfilled := Opened(tree, loaded, j.expansions);
    var t := s.(tree := tree, panicRetried := false, applied := j.generation,
                expanded := s.expanded + (fulfilled * s.desired),
                desired := s.desired - (j.expansions - fulfilled));
    if loaded == {} {
      NothingInstalled(s.tree, results);
      assert fulfilled == {};
      assert t.expanded == s.expanded;
    }
    hide Coherent, JobOk, RowsFit, Rebuilt, Install, Installed;
    assert FsOk(t);
    if loaded != {} { RebuildKeepsSound(t); }
  }

  lemma {:induction false} NothingInstalled(t: TreeState, results: seq<LoadResult>)
    requires Installed(t, results) == {}
    ensures Install(t, results) == t
  {
    if results != [] {
      NothingInstalled(t, results[..|results| - 1]);
    }
  }

  lemma ReturnedOk(s: FsState)
    requires Sound(s) && s.job.Some?
    ensures FsOk(Returned(s, s.job.value)) && RowsOk(Returned(s, s.job.value))
    ensures Wanted(s) ==> Wanted(Returned(s, s.job.value))
    ensures OwesReload(Returned(s, s.job.value)) <==> OwesReload(s)
  {
    assert JobOk(None, None, {}, false);
    assert s.running == Some(s.job.value.generation);
    hide Coherent, RowsFit;
  }

  lemma CompleteKeepsSound(s: FsState, results: seq<LoadResult>, accepted: bool)
    requires Sound(s) && s.job.Some? && ValidResults(results)
    ensures Sound(Complete(s, results, accepted))
    ensures Wanted(s) ==> Wanted(Complete(s, results, accepted))
  {
    var j := s.job.value;
    var t := s.(expansionsRunning := {}, job := None, running := None, reloadRunning := false);
    if j.generation != s.generation {
      ReturnedOk(s);
      StartKeepsSound(Returned(s, j), accepted);
      hide Coherent, JobOk, RowsFit, StartNext, Returned;
    } else {
      hide Coherent, JobOk, RowsFit, StartNext, InstallJob;
      assert FsOk(t) && RowsOk(t);
      InstallJobKeepsSound(t, j, results);
      StartKeepsSound(InstallJob(t, j, results), accepted);
    }
  }

  /** The state a panic leaves before any retry. */
  function Fallen(s: FsState): FsState {
    s.(running := None, reloadRunning := false, expansionsRunning := {}, job := None,
       reloadPending := s.reloadPending || s.reloadRunning,
       pending := s.pending + (s.expansionsRunning * s.desired),
       generation := s.generation + 1)
  }

  /** A first panic keeps every wish; a second one in a row keeps exactly those already open. */
  lemma PanicKeepsSound(s: FsState, accepted: bool)
    requires Sound(s) && s.job.Some?
    ensures Sound(Panic(s, accepted))
    ensures !s.panicRetried && Wanted(s) ==> Wanted(Panic(s, accepted))
    ensures s.panicRetried ==> (Wanted(Panic(s, accepted)) <==> s.desired <= s.expanded)
    ensures OwesReload(s) ==> (OwesReload(Panic(s, accepted)) <==> !s.panicRetried)
  {
    FallenOk(s);
    PanicIs(s, accepted);
    FallenWants(s);
    hide FsOk, RowsOk, Wanted, OwesReload, StartNext, Panic, Fallen;
    StartKeepsSound(Fallen(s).(panicRetried := true), accepted);
  }

  /** A panic retries from, or settles for, what it left. */
  lemma PanicIs(s: FsState, accepted: bool)
    requires Sound(s) && s.job.Some?
    ensures Panic(s, accepted) ==
            if !s.panicRetried && (Fallen(s).reloadPending || Fallen(s).pending != {})
            then StartNext(Fallen(s).(panicRetried := true), accepted)
            else GivenUp(Fallen(s))
  {
    assert s.running.Some?;
    hide Coherent, RowsFit, StartNext;
  }

  function GivenUp(s: FsState): FsState {
    s.(reloadPending := false, pending := {}, applied := s.generation)
  }

  lemma FallenWants(s: FsState)
    requires FsOk(Fallen(s)) && RowsOk(Fallen(s))
    ensures FsOk(GivenUp(Fallen(s))) && RowsOk(GivenUp(Fallen(s))) && !OwesReload(GivenUp(Fallen(s)))
    ensures Wanted(GivenUp(Fallen(s))) <==> s.desired <= s.expanded
    ensures Wanted(s) ==> Wanted(Fallen(s)) && Wanted(Fallen(s).(panicRetried := true))
    ensures Wanted(Fallen(s)) && Fallen(s).pending == {} ==> Wanted(GivenUp(Fallen(s)))
    ensures OwesReload(s) <==> OwesReload(Fallen(s).(panicRetried := true))
    ensures OwesReload(s) <==> Fallen(s).reloadPending
  {
    hide Coherent, RowsFit;
  }

  lemma FallenOk(s: FsState)
    requires Sound(s) && s.job.Some?
    ensures FsOk(Fallen(s)) && RowsOk(Fallen(s))
    ensures FsOk(Fallen(s).(panicRetried := true)) && RowsOk(Fallen(s).(panicRetried := true))
  {
    assert JobOk(None, None, {}, false);
    hide Coherent, JobOk, RowsFit;
  }

  lemma ReplaceTreeKeepsSound(s: FsState, tree: TreeState)
    requires Sound(s) && Coherent(tree)
    ensures Sound(Rebuilt(s.(tree := tree)))
    ensures Wanted(s) ==> Wanted(Rebuilt(s.(tree := tree)))
  {
    hide Coherent, JobOk, RowsFit, Rebuilt;
    assert FsOk(s.(tree := tree));
    RebuildKeepsSound(s.(tree := tree));
  }

  lemma MergeKeepsSound(s: FsState, c: MergeContext, entries: set<StatusEntry>)
    requires Sound(s)
    ensures Sound(Next(s, StatusMerged(c, entries)))
    ensures Wanted(s) ==> Wanted(Next(s, StatusMerged(c, entries)))
    ensures OwesReload(Next(s, StatusMerged(c, entries))) <==> OwesReload(s)
  {
    var tree := Merged(s.tree, c, entries);
    assert Coherent(tree) && ROOT !in tree.nodes by { MergeKeepsCoherent(s.tree, c, entries); }
    hide *;
    RebuildOwes(s.(tree := tree));
    ReplaceTreeKeepsSound(s, tree);
    MergedNext(s, c, entries);
  }

  lemma MergedNext(s: FsState, c: MergeContext, entries: set<StatusEntry>)
    requires Sound(s)
    ensures ROOT !in Merged(s.tree, c, entries).nodes
    ensures Next(s, StatusMerged(c, entries)) == Rebuilt(s.(tree := Merged(s.tree, c, entries)))
  {
    MergeKeepsCoherent(s.tree, c, entries);
    hide Merged, Rebuilt;
  }

  lemma ClearKeepsSound(s: FsState, editing: bool)
    requires Sound(s)
    ensures Sound(Cleared(s, editing))
    ensures Wanted(s) ==> Wanted(Cleared(s, editing))
    ensures OwesReload(Cleared(s, editing)) <==> OwesReload(s)
  {
    RebuildOwes(s.(filter := false));
    hide Coherent, JobOk, RowsFit, Rebuilt;
    assert FsOk(s.(filter := false));
    RebuildKeepsSound(s.(filter := false));
  }

  /** Copying the overlay of a coherent tree onto itself changes no node. */
  lemma SelfSync(t: TreeState)
    requires Coherent(t)
    ensures Synced(t, t).nodes == t.nodes
  {
    var after := Overlaid(t.nodes, t.statuses, VirtualOverlay(t.nodes));
    forall p ensures Lookup(after, p) == Lookup(t.nodes, p) {
      SelfSyncAt(t, p);
    }
    hide Overlaid, VirtualOverlay, Coherent, Overlay;
    assert Synced(t, t).nodes == after by { SyncedNodes(t); }
    SameMaps(after, t.nodes);
  }

  lemma SyncedNodes(t: TreeState)
    ensures Synced(t, t).nodes == Overlaid(t.nodes, t.statuses, VirtualOverlay(t.nodes))
  {
    hide Overlaid, VirtualOverlay;
  }

  lemma SelfSyncAt(t: TreeState, p: Path)
    requires Coherent(t)
    ensures Lookup(Overlaid(t.nodes, t.statuses, VirtualOverlay(t.nodes)), p) == Lookup(t.nodes, p)
  {
    if p in t.nodes && t.nodes[p].kind != Virtual { assert t.nodes[p].status == Lookup(t.statuses, p); }
  }

  lemma ToggleIgnoredKeepsSound(s: FsState, editing: bool, accepted: bool)
    requires Sound(s)
    ensures Sound(Next(s, ToggleIgnored(editing, accepted)))
    ensures Wanted(s) ==> Wanted(Next(s, ToggleIgnored(editing, accepted)))
    ensures OwesReload(Next(s, ToggleIgnored(editing, accepted)))
  {
    SyncKeepsCoherent(s.tree, s.tree);
    SelfSync(s.tree);
    var t := s.(tree := Synced(s.tree, s.tree));
    hide Coherent, JobOk, RowsFit, Cleared, RequestReload, Synced;
    assert Sound(t);
    ClearKeepsSound(t, editing);
    ReloadKeepsSound(Cleared(t, editing), accepted);
  }

  /** Every enabled step keeps the machine sound. */
  lemma NextKeepsSound(s: FsState, e: Event)
    requires Sound(s) && Enabled(s, e)
    ensures Sound(Next(s, e))
    ensures Wanted(s) && !(e.JobPanicked? && s.panicRetried) ==> Wanted(Next(s, e))
  {
    hide Coherent, JobOk, RowsFit, Rebuilt, Merged, Synced, StartNext, InstallJob, Collapse, RequestExpansion, Cleared;
    match e
    case SelectRow(p) => SelectKeepsSound(s, p);
    case ToggleSelected(accepted) =>
      if s.tree.selection.Some? {
        CollapseKeepsSound(s, s.tree.selection.value);
        ExpansionKeepsSound(s, s.tree.selection.value, accepted);
      }
    case ExpandOrDescend(accepted) =>
      if s.tree.selection.Some? {
        var children := ChildrenAt(s.tree.children, s.tree.selection.value);
        if children != [] { SelectKeepsSound(s, children[0]); }
        ExpansionKeepsSound(s, s.tree.selection.value, accepted);
      }
    case CollapseOrAscend =>
      if s.tree.selection.Some? {
        var p := s.tree.selection.value;
        CollapseKeepsSound(s, p);
        if p in s.tree.nodes { SelectKeepsSound(s, DisplayParent(s.tree.nodes, p)); }
      }
    case Reload(accepted) => ReloadKeepsSound(s, accepted);
    case JobDone(results, accepted) => CompleteKeepsSound(s, results, accepted);
    case JobPanicked(accepted) => PanicKeepsSound(s, accepted);
    case StatusMerged(c, entries) => MergeKeepsSound(s, c, entries);
    case ToggleIgnored(editing, accepted) => ToggleIgnoredKeepsSound(s, editing, accepted);
    case SearchInput =>
    case Projected(rows) =>
    case ClearSearch(editing) => ClearKeepsSound(s, editing);
    case Pause =>
    case Resume(accepted, again) =>
      ResumeKeepsSound(s, accepted, again);
    case Retry(accepted) => StartKeepsSound(s, accepted);
  }

  lemma ResumeKeepsSound(s: FsState, accepted: bool, again: bool)
    requires Sound(s)
    ensures Sound(Next(s, Resume(accepted, again)))
    ensures Wanted(s) ==> Wanted(Next(s, Resume(accepted, again)))
    ensures OwesReload(Next(s, Resume(accepted, again)))
  {
    var t := s.(active := true);
    hide Coherent, JobOk, RowsFit, StartNext, RequestReload;
    assert Sound(t);
    ReloadKeepsSound(t, accepted);
    StartKeepsSound(RequestReload(t, accepted), again);
  }

  /** A stale completion never touches the tree, the rows or what is expanded, and keeps what it owed. */
  lemma StaleChangesNothing(s: FsState, results: seq<LoadResult>, accepted: bool)
    requires Sound(s) && s.job.Some? && ValidResults(results)
    requires s.job.value.generation != s.generation
    ensures var t := Complete(s, results, accepted);
            t.tree == s.tree && t.rows == s.rows && t.expanded == s.expanded && t.desired == s.desired
    ensures OwesReload(Complete(s, results, accepted)) <==> OwesReload(s)
  {
    var j := s.job.value;
    assert s.running == Some(j.generation);
    StartFrame(Returned(s, j), accepted);
    hide Coherent, JobOk, RowsFit, StartNext;
  }

  /** The completion of a job nothing has outdated. */
  predicate Settles(s: FsState, e: Event) {
    e.JobDone? && s.job.Some? && s.job.value.generation == s.generation
  }

  /** A requested reload stops being owed only when a current job that loads the root comes back,
      or on a panic when one was already retried. */
  lemma ReloadNotLost(s: FsState, e: Event)
    requires Sound(s) && Enabled(s, e) && OwesReload(s) && !OwesReload(Next(s, e))
    ensures (Settles(s, e) && s.reloadRunning && ROOT in s.job.value.directories) || (e.JobPanicked? && s.panicRetried)
  {
    if Settles(s, e) {
      assert s.running == Some(s.job.value.generation);
    } else if e.JobPanicked? {
      PanicKeepsSound(s, e.accepted);
    } else {
      if e.JobDone? { StaleOwes(s, e); } else { OtherStepsOwe(s, e); }
      assert false;
    }
  }

  lemma StaleOwes(s: FsState, e: Event)
    requires Sound(s) && Enabled(s, e) && e.JobDone? && !Settles(s, e)
    ensures OwesReload(s) ==> OwesReload(Next(s, e))
  {
    StaleChangesNothing(s, e.results, e.accepted);
    hide Complete, Sound;
  }

  lemma OtherStepsOwe(s: FsState, e: Event)
    requires Sound(s) && Enabled(s, e) && !e.JobDone? && !e.JobPanicked?
    ensures OwesReload(s) ==> OwesReload(Next(s, e))
  {
    hide Coherent, JobOk, RowsFit, Rebuilt, Merged, Synced, StartNext, InstallJob, Collapse, RequestExpansion, Cleared;
    match e
    case SelectRow(p) =>
    case ToggleSelected(accepted) =>
      if s.tree.selection.Some? {
        CollapseKeepsSound(s, s.tree.selection.value);
        ExpansionKeepsSound(s, s.tree.selection.value, accepted);
      }
    case ExpandOrDescend(accepted) =>
      if s.tree.selection.Some? {
        ExpansionKeepsSound(s, s.tree.selection.value, accepted);
      }
    case CollapseOrAscend =>
      if s.tree.selection.Some? { CollapseKeepsSound(s, s.tree.selection.value); }
    case Reload(accepted) => ReloadKeepsSound(s, accepted);
    case StatusMerged(c, entries) => MergeKeepsSound(s, c, entries);
    case ToggleIgnored(editing, accepted) => ToggleIgnoredKeepsSound(s, editing, accepted);
    case SearchInput =>
    case Projected(rows) =>
    case ClearSearch(editing) => ClearKeepsSound(s, editing);
    case Pause =>
    case Resume(accepted, again) => ResumeKeepsSound(s, accepted, again);
    case Retry(accepted) => StartKeepsSound(s, accepted);
  }

  /** A rebuilt, unfiltered view shows its selection whenever it shows anything. */
  lemma RebuildShowsSelection(s: FsState)
    requires ROOT !in s.tree.nodes && !s.filter
    ensures var t := Rebuilt(s);
            t.rows != [] && t.tree.selection.Some? ==> t.tree.selection.value in t.rows
  {
    var rows := Rebuilt(s).rows;
    if s.tree.selection.Some? { NearestIsVisible(s.tree.nodes, rows, s.tree.selection.value); }
    hide VisibleRows, NearestVisible;
  }

  // ---------------------------------------------------------------- runs

  /** The state right after the root listing is loaded. */
  function Boot(l: Listing): FsState {
    FsState(Loaded(EMPTY, l), false, {}, {}, [], 0, 0, None, {}, false, {}, false, false, true, None)
  }

  lemma BootIsSound(l: Listing)
    requires ValidListing(l)
    ensures FsOk(Boot(l)) && FsOk(Rebuilt(Boot(l))) && RowsOk(Rebuilt(Boot(l))) && Wanted(Rebuilt(Boot(l)))
  {
    LoadKeepsCoherent(EMPTY, l);
    assert JobOk(None, None, {}, false);
    hide Coherent, RowsFit, Loaded, Rebuilt;
    assert FsOk(Boot(l)) && Wanted(Boot(l));
    RebuildKeepsSound(Boot(l));
  }

  /** The state after bootstrapping. */
  function Start(l: Listing): (s: FsState)
    requires ValidListing(l)
    ensures Sound(s) && Wanted(s)
  {
    BootIsSound(l);
    Rebuilt(Boot(l))
  }

  ghost predicate Legal(s: FsState, es: seq<Event>)
    requires Sound(s)
    decreases |es|
  {
    es == [] || (Enabled(s, es[0]) && (NextKeepsSound(s, es[0]); Legal(Next(s, es[0]), es[1..])))
  }

  ghost function After(s: FsState, es: seq<Event>): (t: FsState)
    requires Sound(s) && Legal(s, es)
    ensures Sound(t)
    decreases |es|
  {
    if es == [] then s else
      NextKeepsSound(s, es[0]);
      After(Next(s, es[0]), es[1..])
  }

  /** One more event is one more step. */
  lemma {:induction false} AfterLast(s: FsState, es: seq<Event>, e: Event)
    requires Sound(s) && Legal(s, es + [e])
    ensures Legal(s, es) && Enabled(After(s, es), e) && After(s, es + [e]) == Next(After(s, es), e)
    decreases |es|
  {
    hide Coherent, JobOk, RowsOk, Next, Enabled;
    if es == [] {
      assert (es + [e])[1..] == [];
      NextKeepsSound(s, e);
    } else {
      assert (es + [e])[0] == es[0] && (es + [e])[1..] == es[1..] + [e];
      NextKeepsSound(s, es[0]);
      AfterLast(Next(s, es[0]), es[1..], e);
    }
  }

  /** Panics since the last settled job, counting from `n`. */
  ghost function Streak(s: FsState, es: seq<Event>, n: nat): nat
    requires Sound(s) && Legal(s, es)
    decreases |es|
  {
    if es == [] then n else
      NextKeepsSound(s, es[0]);
      Streak(Next(s, es[0]), es[1..],
             if Settles(s, es[0]) then 0 else if es[0].JobPanicked? then n + 1 else n)
  }

  /** Steps that install nothing keep the nodes and the panic mark. */
  predicate SameBase(s: FsState, t: FsState) {
    t.tree.nodes == s.tree.nodes && t.panicRetried == s.panicRetried
  }

  lemma RebuildFrame(s: FsState)
    requires ROOT !in s.tree.nodes
    ensures SameBase(s, Rebuilt(s))
  {
    hide VisibleRows, VisibleSelection;
  }

  lemma CollapseFrame(s: FsState, p: Path)
    requires Sound(s)
    ensures SameBase(s, Collapse(s, p))
  {
    CollapsedOk(s, p);
    RebuildFrame(Collapsed(s, p));
    hide Rebuilt, Collapse, Sound, Coherent, FsOk;
  }

  lemma ReloadFrame(s: FsState, accepted: bool)
    ensures SameBase(s, RequestReload(s, accepted))
  {
    StartFrame(ReloadRequested(s), accepted);
    hide StartNext;
  }

  lemma MergeFrame(s: FsState, c: MergeContext, entries: set<StatusEntry>)
    requires Sound(s)
    ensures Next(s, StatusMerged(c, entries)).tree.nodes == MergedNodes(s.tree.nodes, c, entries)
    ensures Next(s, StatusMerged(c, entries)).panicRetried == s.panicRetried
  {
    MergeKeepsCoherent(s.tree, c, entries);
    RebuildFrame(s.(tree := Merged(s.tree, c, entries)));
    assert Merged(s.tree, c, entries).nodes == MergedNodes(s.tree.nodes, c, entries);
    hide Merged, MergedNodes, Rebuilt, Coherent;
  }

  lemma ToggleIgnoredFrame(s: FsState, editing: bool, accepted: bool)
    requires Sound(s)
    ensures SameBase(s, Next(s, ToggleIgnored(editing, accepted)))
  {
    SyncKeepsCoherent(s.tree, s.tree);
    SelfSync(s.tree);
    var t := s.(tree := Synced(s.tree, s.tree));
    ReloadFrame(Cleared(t, editing), accepted);
    hide Cleared, RequestReload, Synced, Coherent;
  }

  lemma RetriedStep(s: FsState, e: Event)
    requires Sound(s) && Enabled(s, e)
    ensures Settles(s, e) ==> !Next(s, e).panicRetried
    ensures Next(s, e).panicRetried && !s.panicRetried ==> e.JobPanicked?
  {
    match e
    case JobDone(results, accepted) => RetriedOnDone(s, results, accepted);
      hide Complete, Sound;
    case JobPanicked(accepted) =>
    case StatusMerged(c, entries) => MergeFrame(s, c, entries);
      hide Next, Sound;
    case ToggleIgnored(editing, accepted) => ToggleIgnoredFrame(s, editing, accepted);
      hide Next, Sound;
    case _ => OtherNodes(s, e);
      hide Next, Sound;
  }

  lemma RetriedOnDone(s: FsState, results: seq<LoadResult>, accepted: bool)
    requires Sound(s) && s.job.Some? && ValidResults(results)
    ensures var t := Complete(s, results, accepted);
            if s.job.value.generation == s.generation then !t.panicRetried else t.panicRetried == s.panicRetried
  {
    var j := s.job.value;
    assert s.running == Some(j.generation);
    if j.generation == s.generation {
      var t := s.(expansionsRunning := {}, job := None, running := None, reloadRunning := false);
      InstallKeepsCoherent(s.tree, results);
      StartFrame(InstallJob(t, j, results), accepted);
      hide StartNext, InstallJob;
    } else {
      StartFrame(Returned(s, j), accepted);
      hide StartNext;
    }
  }

  lemma {:induction false} RetriedMeansPanicked(s: FsState, es: seq<Event>, n: nat)
    requires Sound(s) && Legal(s, es) && (s.panicRetried ==> n >= 1)
    ensures After(s, es).panicRetried ==> Streak(s, es, n) >= 1
    decreases |es|
  {
    if es != [] {
      NextKeepsSound(s, es[0]);
      RetriedStep(s, es[0]);
      RetriedMeansPanicked(Next(s, es[0]), es[1..],
                           if Settles(s, es[0]) then 0 else if es[0].JobPanicked? then n + 1 else n);
      hide Sound, Next, Settles;
    }
  }

  /** No step of the run is a panic that follows an unsettled panic. */
  ghost predicate PanicsSettled(s: FsState, es: seq<Event>)
    requires Sound(s) && Legal(s, es)
    decreases |es|
  {
    es == [] ||
    (!(es[0].JobPanicked? && s.panicRetried)
     && (NextKeepsSound(s, es[0]); PanicsSettled(Next(s, es[0]), es[1..])))
  }

  lemma {:induction false} WantedKept(s: FsState, es: seq<Event>)
    requires Sound(s) && Legal(s, es) && Wanted(s) && PanicsSettled(s, es)
    ensures Wanted(After(s, es))
    decreases |es|
  {
    if es != [] {
      NextKeepsSound(s, es[0]);
      WantedKept(Next(s, es[0]), es[1..]);
      hide Sound, Next, Wanted;
    }
  }

  /** Over every run: the machine stays sound, an unfiltered view lists exactly the rows that show, in
      pre-order, and with no panic upon an unsettled panic every wish is open, queued or loading. */
  lemma RunTheorem(l: Listing, es: seq<Event>)
    requires ValidListing(l) && Legal(Start(l), es)
    ensures var s := After(Start(l), es);
            && Sound(s)
            && (!s.filter ==> forall p :: p in s.rows <==> Shows(s.tree.nodes, s.expanded, p))
            && (!s.filter ==> Preorder(s.tree.nodes, s.rows))
            && (PanicsSettled(Start(l), es) ==> Wanted(s))
  {
    var s := After(Start(l), es);
    if PanicsSettled(Start(l), es) { WantedKept(Start(l), es); }
    assert ROOT !in s.tree.nodes;
    if !s.filter {
      assert s.rows == VisibleRows(s.tree.nodes, s.expanded);
      VisibleRowsMeaning(s.tree.nodes, s.expanded);
    }
    hide Sound, Start, After, Shows, Preorder, Wanted;
  }

  /** Over every run: a reload that was owed and no longer is was settled, or was dropped by a panic
      with another panic before it and nothing settled between the two. */
  lemma ReloadTheorem(l: Listing, es: seq<Event>, e: Event)
    requires ValidListing(l) && Legal(Start(l), es)
    requires var s := After(Start(l), es);
             Enabled(s, e) && OwesReload(s) && !OwesReload(Next(s, e))
    ensures var s := After(Start(l), es);
            || (Settles(s, e) && s.reloadRunning && ROOT in s.job.value.directories)
            || (e.JobPanicked? && Streak(Start(l), es, 0) >= 1)
  {
    var s := After(Start(l), es);
    ReloadNotLost(s, e);
    RetriedMeansPanicked(Start(l), es, 0);
    hide Sound, After, Next, Settles, OwesReload, Streak;
  }

  /** A reload whose worker panics twice running is dropped: nothing was loaded, and nothing is owed. */
  lemma DroppedReloadExample(l: Listing)
    requires ValidListing(l)
    ensures Legal(Start(l), [Reload(true), JobPanicked(true), JobPanicked(true)])
    ensures var s := After(Start(l), [Reload(true), JobPanicked(true), JobPanicked(true)]);
            s.tree == Start(l).tree && !OwesReload(s) && s.running.None? && s.applied == s.generation
  {
    var s := Start(l);
    var asked := Next(s, Reload(true));
    StartAsks(l);
    NextKeepsSound(s, Reload(true));
    PanicAgain(asked);
    NextKeepsSound(asked, JobPanicked(true));
    var fallen := Next(asked, JobPanicked(true));
    NextKeepsSound(fallen, JobPanicked(true));
    hide Sound, Start, Next, Enabled;
    var es := [Reload(true), JobPanicked(true), JobPanicked(true)];
    assert es[1..] == [JobPanicked(true), JobPanicked(true)] && es[1..][1..] == [JobPanicked(true)];
    assert es[1..][1..][1..] == [];
    assert Legal(Next(fallen, JobPanicked(true)), []);
    assert Legal(fallen, [JobPanicked(true)]);
    assert Legal(asked, es[1..]);
  }

  lemma StartAsks(l: Listing)
    requires ValidListing(l)
    ensures var s := Start(l);
            var t := Next(s, Reload(true));
            && Enabled(s, Reload(true)) && t.reloadRunning && t.job.Some? && t.tree == s.tree
            && !t.panicRetried && t.active
  {
    RebuildAsks(Boot(l));
    hide Rebuilt, Loaded, ByDepth;
  }

  lemma RebuildAsks(s: FsState)
    requires ROOT !in s.tree.nodes
    ensures var t := Rebuilt(s);
            t == s.(tree := t.tree, expanded := t.expanded, desired := t.desired, rows := t.rows)
  {
    hide VisibleRows, VisibleSelection;
  }

  lemma PanicAgain(s: FsState)
    requires s.reloadRunning && s.job.Some? && s.running.Some? && !s.panicRetried && s.active && Coherent(s.tree)
    ensures var t := Next(s, JobPanicked(true));
            && Enabled(s, JobPanicked(true)) && Coherent(t.tree) && Enabled(t, JobPanicked(true))
            && var u := Next(t, JobPanicked(true));
               u.tree == s.tree && !OwesReload(u) && u.running.None? && u.applied == u.generation
  {
    hide Coherent, ByDepth;
  }

  /** The merge turns no cached directory into a missing-file row. */
  predicate Harmless(s: FsState, e: Event) {
    e.StatusMerged? ==> forall p :: p in Gone(e.c, e.entries) ==> !IsDirectory(s.tree.nodes, p)
  }

  /** Harmless steps keep every cached entry under a cached directory. */
  lemma ClosedKept(s: FsState, e: Event)
    requires Sound(s) && Enabled(s, e) && Harmless(s, e) && ParentClosed(s.tree.nodes)
    ensures ParentClosed(Next(s, e).tree.nodes)
  {
    match e
    case JobDone(results, accepted) =>
      InstallKeepsClosed(s.tree, results);
      JobNodes(s, results, accepted);
      hide Complete, ParentClosed, Install, Sound;
    case StatusMerged(c, entries) =>
      MergeFrame(s, c, entries);
      OverlayKeepsClosed(s.tree.nodes, MergedStatuses(c, entries), VirtualNodes(Gone(c, entries)));
      hide ParentClosed, Overlaid, MergedStatuses, Gone, VirtualNodes, Next, Sound;
    case ToggleIgnored(editing, accepted) =>
      ToggleIgnoredFrame(s, editing, accepted);
      hide ParentClosed, Next, Sound;
    case JobPanicked(accepted) =>
      StartFrame(Fallen(s).(panicRetried := true), accepted);
      hide ParentClosed, StartNext, Sound;
    case _ =>
      OtherNodes(s, e);
      hide ParentClosed, Next, Sound;
  }

  /** After bootstrapping the tree is closed: only the root was loaded. */
  lemma StartIsClosed(l: Listing)
    requires ValidListing(l) && l.directory == ROOT
    ensures ParentClosed(Start(l).tree.nodes)
  {
    BootIsSound(l);
    RebuildFrame(Boot(l));
    ApplyDirectoryMeaning(map[], map[], l);
    assert Boot(l).tree.nodes == Applied(map[], map[], l);
    hide Rebuilt, ParentClosed, Applied;
  }

  /** No merge of the run turns a cached directory into a missing-file row. */
  ghost predicate AllHarmless(s: FsState, es: seq<Event>)
    requires Sound(s) && Legal(s, es)
    decreases |es|
  {
    es == [] || (Harmless(s, es[0]) && (NextKeepsSound(s, es[0]); AllHarmless(Next(s, es[0]), es[1..])))
  }

  lemma {:induction false} RunStaysClosed(s: FsState, es: seq<Event>)
    requires Sound(s) && Legal(s, es) && AllHarmless(s, es) && ParentClosed(s.tree.nodes)
    ensures ParentClosed(After(s, es).tree.nodes)
    decreases |es|
  {
    if es != [] {
      NextKeepsSound(s, es[0]);
      ClosedKept(s, es[0]);
      hide Sound, Next, ParentClosed, Harmless;
      RunStaysClosed(Next(s, es[0]), es[1..]);
    }
  }

  /** Over every run of harmless merges from bootstrapping, every cached entry stays under a cached directory. */
  lemma ClosedTheorem(l: Listing, es: seq<Event>)
    requires ValidListing(l) && l.directory == ROOT && Legal(Start(l), es) && AllHarmless(Start(l), es)
    ensures ParentClosed(After(Start(l), es).tree.nodes)
  {
    StartIsClosed(l);
    hide Start, Legal, AllHarmless, After, ParentClosed;
    RunStaysClosed(Start(l), es);
  }

  lemma JobNodes(s: FsState, results: seq<LoadResult>, accepted: bool)
    requires Sound(s) && s.job.Some? && ValidResults(results)
    ensures Complete(s, results, accepted).tree.nodes in {s.tree.nodes, Install(s.tree, results).nodes}
  {
    var j := s.job.value;
    assert s.running == Some(j.generation);
    if j.generation == s.generation {
      var t := s.(expansionsRunning := {}, job := None, running := None, reloadRunning := false);
      StartFrame(InstallJob(t, j, results), accepted);
    } else {
      StaleChangesNothing(s, results, accepted);
    }
    hide StartNext, InstallJob, Coherent;
  }

  lemma ResumeFrame(s: FsState, accepted: bool, again: bool)
    ensures SameBase(s, StartNext(RequestReload(s.(active := true), accepted), again))
  {
    ReloadFrame(s.(active := true), accepted);
    StartFrame(RequestReload(s.(active := true), accepted), again);
    hide StartNext, RequestReload;
  }

  predicate RowKey(e: Event) {
    e.ToggleSelected? || e.ExpandOrDescend? || e.CollapseOrAscend?
  }

  lemma RowKeyFrame(s: FsState, e: Event)
    requires Sound(s) && RowKey(e)
    ensures SameBase(s, Next(s, e))
  {
    hide Sound, Coherent;
    if s.tree.selection.Some? {
      CollapseFrame(s, s.tree.selection.value);
    }
    hide Collapse, RequestExpansion, DisplayParent;
  }

  lemma OtherNodes(s: FsState, e: Event)
    requires Sound(s) && Enabled(s, e) && !e.JobDone? && !e.JobPanicked? && !e.StatusMerged? && !e.ToggleIgnored?
    ensures SameBase(s, Next(s, e))
  {
    hide Sound, Coherent;
    if RowKey(e) {
      RowKeyFrame(s, e);
      hide Next;
    } else {
      hide StartNext, RequestReload, Cleared, Toggle, Collapse, RequestExpansion, Complete, Panic, Selected;
      match e
      case Reload(accepted) => ReloadFrame(s, accepted);
      case Resume(accepted, again) => ResumeFrame(s, accepted, again);
      case Retry(accepted) => StartFrame(s, accepted);
      case _ =>
    }
  }
}
