/** What the filesystem jobs of the files runtime load and what their completions leave, event by event. */
module Jobs {
  import opened Wrappers
  import opened Paths
  import opened Tree
  import opened Rows
  import opened FilesTree
  import opened Runtime

  // ---------------------------------------------------------------- results, one after the other

  /** A result has something to install: it was loaded, for the root or for a directory cached just then. */
  predicate Taken(t: TreeState, r: LoadResult) {
    r.listing.Some? && (r.directory == ROOT || (r.directory in t.nodes && t.nodes[r.directory].kind == Directory))
  }

  /** The trees that the results of a job lead through. */
  ghost predicate Played(t: TreeState, results: seq<LoadResult>, trees: seq<TreeState>) {
    && |trees| == |results| + 1 && trees[0] == t
    && forall i :: 0 <= i < |results| ==>
         trees[i + 1] == if Taken(trees[i], results[i]) then Loaded(trees[i], results[i].listing.value) else trees[i]
  }

  /** A directory was loaded, and installed when its turn came. */
  ghost predicate CameBack(results: seq<LoadResult>, trees: seq<TreeState>, p: Path)
    requires |trees| == |results| + 1
  {
    exists i :: 0 <= i < |results| && results[i].directory == p && Taken(trees[i], results[i])
  }

  function TreesOf(t: TreeState, results: seq<LoadResult>): (trees: seq<TreeState>)
    ensures |trees| == |results| + 1
  {
    if results == [] then [t] else TreesOf(t, results[..|results| - 1]) + [Install(t, results)]
  }

  lemma {:induction false} TreesPlayed(t: TreeState, results: seq<LoadResult>)
    ensures Played(t, results, TreesOf(t, results)) && TreesOf(t, results)[|results|] == Install(t, results)
    ensures forall p :: p in Installed(t, results) <==> CameBack(results, TreesOf(t, results), p)
  {
    if results != [] {
      var n := |results| - 1;
      TreesPlayed(t, results[..n]);
      var (trees, more) := (TreesOf(t, results[..n]), TreesOf(t, results));
      assert forall i :: 0 <= i < n ==> results[..n][i] == results[i] && more[i] == trees[i];
      assert more[n] == Install(t, results[..n]);
      hide Loaded, TreesOf;
      forall p ensures p in Installed(t, results) <==> CameBack(results, more, p) {
        CameBackMore(results, trees, more, p);
      }
    }
  }

  lemma CameBackMore(results: seq<LoadResult>, trees: seq<TreeState>, more: seq<TreeState>, p: Path)
    requires results != [] && |trees| == |results| && |more| == |trees| + 1 && more[..|trees|] == trees
    ensures var n := |results| - 1;
            CameBack(results, more, p)
            <==> CameBack(results[..n], trees, p) || (results[n].directory == p && Taken(trees[n], results[n]))
  {
    var n := |results| - 1;
    assert forall i :: 0 <= i < |trees| ==> more[i] == trees[i];
    if CameBack(results[..n], trees, p) {
      var i :| 0 <= i < n && results[..n][i].directory == p && Taken(trees[i], results[..n][i]);
      assert results[i].directory == p && Taken(more[i], results[i]);
    }
    if CameBack(results, more, p) {
      var i :| 0 <= i < |results| && results[i].directory == p && Taken(more[i], results[i]);
      if i < n { assert results[..n][i] == results[i]; }
    }
  }

  // ---------------------------------------------------------------- the visible selection

  /** The lowest visible row above a row, this many levels up. */
  ghost predicate LowestVisible(nodes: Nodes, rows: seq<Path>, p: Path, q: Path, levels: nat) {
    && levels > 0 && Above(nodes, p, levels) == Some(q) && q in rows
    && forall n: nat :: 0 < n < levels ==> Above(nodes, p, n).Some? && Above(nodes, p, n).value !in rows
  }

  ghost predicate IsLowestVisible(nodes: Nodes, rows: seq<Path>, p: Path, q: Path) {
    exists n: nat :: LowestVisible(nodes, rows, p, q, n)
  }

  /** No row above a row is visible. */
  ghost predicate NoneVisible(nodes: Nodes, rows: seq<Path>, p: Path) {
    forall n: nat :: n > 0 && Above(nodes, p, n).Some? ==> Above(nodes, p, n).value !in rows
  }

  lemma {:induction false} NearestVisibleMeaning(nodes: Nodes, rows: seq<Path>, p: Path)
    requires ROOT !in nodes
    ensures match NearestVisible(nodes, rows, p)
            case Some(q) => IsLowestVisible(nodes, rows, p, q)
            case None => NoneVisible(nodes, rows, p)
    decreases |p|
  {
    if p in nodes {
      var q := DisplayParent(nodes, p);
      assert Above(nodes, p, 1) == Above(nodes, q, 0) == Some(q);
      if q in rows {
        assert LowestVisible(nodes, rows, p, q, 1);
      } else {
        NearestVisibleMeaning(nodes, rows, q);
        AboveMore(nodes, p);
        hide DisplayParent, Above;
        if NearestVisible(nodes, rows, q).Some? {
          var n: nat :| LowestVisible(nodes, rows, q, NearestVisible(nodes, rows, q).value, n);
          assert LowestVisible(nodes, rows, p, NearestVisible(nodes, rows, q).value, n + 1);
        }
      }
    }
  }

  /** A visible selection stays; a hidden one moves to the lowest visible row above it, else to the first row. */
  ghost predicate SelectionMoved(nodes: Nodes, rows: seq<Path>, was: Option<Path>, now: Option<Path>) {
    if was.None? || was.value in rows then now == was
    else
      || (now.Some? && IsLowestVisible(nodes, rows, was.value, now.value))
      || (NoneVisible(nodes, rows, was.value) && now == if rows == [] then was else Some(rows[0]))
  }

  lemma VisibleSelectionMeaning(nodes: Nodes, rows: seq<Path>, selection: Option<Path>)
    requires ROOT !in nodes
    ensures SelectionMoved(nodes, rows, selection, VisibleSelection(nodes, rows, selection))
  {
    if selection.Some? { NearestVisibleMeaning(nodes, rows, selection.value); }
    hide IsLowestVisible, NoneVisible, NearestVisible;
  }

  // ---------------------------------------------------------------- a job that nothing has outdated

  /** What is wanted after a job: of its own expansions those that came back, and all others; an unfiltered view
      drops what is no directory. */
  ghost predicate WantedAfter(s: FsState, j: FsJob, results: seq<LoadResult>, trees: seq<TreeState>, p: Path)
    requires |trees| == |results| + 1
  {
    var directory := IsDirectory(trees[|results|].nodes, p);
    && p in s.desired
    && (p in j.expansions ==> CameBack(results, trees, p) && directory)
    && (s.filter || directory)
  }

  /** What is open after a job: what was, and the wanted expansions that came back; an unfiltered view closes
      what is no directory. */
  ghost predicate OpenAfter(s: FsState, j: FsJob, results: seq<LoadResult>, trees: seq<TreeState>, p: Path)
    requires |trees| == |results| + 1
  {
    var directory := IsDirectory(trees[|results|].nodes, p);
    && (p in s.expanded || (p in j.expansions && p in s.desired && CameBack(results, trees, p) && directory))
    && (s.filter || directory)
  }

  /** An unfiltered view lists the rows that show, in order and once each, and moves a hidden selection. */
  ghost predicate ViewFits(nodes: Nodes, expanded: set<Path>, rows: seq<Path>) {
    && ROOT !in nodes && (forall p :: p in rows <==> Shows(nodes, expanded, p)) && Preorder(nodes, rows)
    && forall i, j :: 0 <= i < j < |rows| ==> rows[i] != rows[j]
  }

  /** The state a settled job leaves. */
  ghost predicate SettledAs(s: FsState, j: FsJob, results: seq<LoadResult>, trees: seq<TreeState>, t: FsState)
    requires |trees| == |results| + 1
  {
    var tree := trees[|results|];
    && (forall p :: p in t.desired <==> WantedAfter(s, j, results, trees, p))
    && (forall p :: p in t.expanded <==> OpenAfter(s, j, results, trees, p))
    && t.tree == tree.(selection := t.tree.selection)
    && (if s.filter || forall p :: !CameBack(results, trees, p) then t.tree == tree && t.rows == s.rows
        else ViewFits(tree.nodes, t.expanded, t.rows)
             && SelectionMoved(tree.nodes, t.rows, tree.selection, t.tree.selection))
    && t.applied == j.generation && t.job.None? && t.running.None? && !t.reloadRunning && !t.reloadPending
    && t.pending == t.expansionsRunning == {} && !t.panicRetried
    && t.filter == s.filter && t.generation == s.generation && t.active == s.active
  }

  /** Rebuilding the rows of an unfiltered view. */
  lemma RebuiltMeaning(s: FsState)
    requires ROOT !in s.tree.nodes && !s.filter
    ensures var t := Rebuilt(s);
            && (forall p :: p in t.expanded <==> p in s.expanded && IsDirectory(s.tree.nodes, p))
            && (forall p :: p in t.desired <==> p in s.desired && IsDirectory(s.tree.nodes, p))
            && ViewFits(s.tree.nodes, t.expanded, t.rows)
            && SelectionMoved(s.tree.nodes, t.rows, s.tree.selection, t.tree.selection)
            && t == s.(expanded := t.expanded, desired := t.desired, rows := t.rows, tree := t.tree)
            && t.tree == s.tree.(selection := t.tree.selection)
  {
    var t := Rebuilt(s);
    VisibleRowsMeaning(s.tree.nodes, t.expanded);
    VisibleSelectionMeaning(s.tree.nodes, t.rows, s.tree.selection);
    hide VisibleRows, VisibleSelection, Shows, Preorder, SelectionMoved;
  }

  /** The wishes a job leaves before the view is rebuilt. */
  function WishesSettled(s: FsState, j: FsJob, tree: TreeState, fulfilled: set<Path>): FsState {
    s.(tree := tree, panicRetried := false, applied := j.generation, expanded := s.expanded + (fulfilled * s.desired),
       desired := s.desired - (j.expansions - fulfilled))
  }

  lemma InstallJobParts(s: FsState, j: FsJob, results: seq<LoadResult>)
    requires FsOk(s) && ValidResults(results)
    ensures ROOT !in s.tree.nodes && ROOT !in Install(s.tree, results).nodes
    ensures var tree, loaded := Install(s.tree, results), Installed(s.tree, results);
            var u := WishesSettled(s, j, tree, Opened(tree, loaded, j.expansions));
            && InstallJob(s, j, results) == (if loaded != {} then Rebuilt(u) else u)
            && (loaded == {} ==> tree == s.tree)
            && forall p :: p in loaded <==> CameBack(results, TreesOf(s.tree, results), p)
  {
    TreesPlayed(s.tree, results);
    InstallKeepsCoherent(s.tree, results);
    if Installed(s.tree, results) == {} { NothingInstalled(s.tree, results); }
    hide TreesOf, Install, Installed, CameBack, Rebuilt, Played, Opened;
  }

  /** The wishes of a filtered view, and those of one that nothing came back to. */
  lemma WishesUnbuilt(s: FsState, j: FsJob, results: seq<LoadResult>, trees: seq<TreeState>, loaded: set<Path>)
    requires |trees| == |results| + 1 && forall p :: p in loaded <==> CameBack(results, trees, p)
    requires FsOk(s) && RowsOk(s) && (s.filter || (loaded == {} && trees[|results|] == s.tree))
    requires s.pending == {} && !s.reloadPending && s.job.None? && j.generation == s.generation
    ensures SettledAs(s, j, results, trees,
                      WishesSettled(s, j, trees[|results|], Opened(trees[|results|], loaded, j.expansions)))
  {
    if loaded == {} { assert forall p :: !CameBack(results, trees, p); }
    hide Coherent, CameBack, ViewFits, SelectionMoved, VisibleRows;
  }

  lemma WishesRebuilt(s: FsState, j: FsJob, results: seq<LoadResult>, trees: seq<TreeState>, loaded: set<Path>)
    requires |trees| == |results| + 1 && forall p :: p in loaded <==> CameBack(results, trees, p)
    requires FsOk(s) && !s.filter && loaded != {} && ROOT !in trees[|results|].nodes
    requires s.pending == {} && !s.reloadPending && s.job.None? && j.generation == s.generation
    ensures SettledAs(s, j, results, trees,
                      Rebuilt(WishesSettled(s, j, trees[|results|], Opened(trees[|results|], loaded, j.expansions))))
  {
    RebuiltMeaning(WishesSettled(s, j, trees[|results|], Opened(trees[|results|], loaded, j.expansions)));
    var p :| p in loaded;
    assert CameBack(results, trees, p);
    hide Coherent, CameBack, ViewFits, SelectionMoved, Rebuilt;
  }

  lemma InstallJobIs(s: FsState, j: FsJob, results: seq<LoadResult>)
    requires FsOk(s) && RowsOk(s) && ValidResults(results) && s.pending == {} && !s.reloadPending
    requires s.job.None? && j.generation == s.generation
    ensures SettledAs(s, j, results, TreesOf(s.tree, results), InstallJob(s, j, results))
  {
    TreesPlayed(s.tree, results);
    InstallJobParts(s, j, results);
    var trees, loaded := TreesOf(s.tree, results), Installed(s.tree, results);
    hide FsOk, RowsOk, TreesOf, Install, Installed, CameBack, Played, SettledAs, Opened, InstallJob, WishesSettled;
    if s.filter || loaded == {} {
      WishesUnbuilt(s, j, results, trees, loaded);
      hide Rebuilt;
    } else {
      WishesRebuilt(s, j, results, trees, loaded);
    }
  }

  /** A job that nothing has outdated: its results are installed in their order, the wanted expansions that came
      back as directories open and the others are no longer wanted, and nothing else is wanted or open. */
  lemma SettledMeaning(s: FsState, e: Event)
    requires Sound(s) && Enabled(s, e) && Settles(s, e)
    ensures exists trees :: Played(s.tree, e.results, trees) && SettledAs(s, s.job.value, e.results, trees, Next(s, e))
  {
    var j := s.job.value;
    var t := s.(expansionsRunning := {}, job := None, running := None, reloadRunning := false);
    assert JobOk(None, None, {}, false);
    assert FsOk(t) && RowsOk(t) && t.pending == {} && !t.reloadPending;
    InstallJobIs(t, j, e.results);
    TreesPlayed(s.tree, e.results);
    SettledAlike(s, t, j, e.results, TreesOf(s.tree, e.results), InstallJob(t, j, e.results));
    NothingToStart(InstallJob(t, j, e.results), e.accepted);
    hide FsOk, RowsOk, InstallJob, StartNext, Coherent, Played, SettledAs, TreesOf;
  }

  lemma SettledAlike(s: FsState, t: FsState, j: FsJob, results: seq<LoadResult>, trees: seq<TreeState>, u: FsState)
    requires t == s.(expansionsRunning := {}, job := None, running := None, reloadRunning := false)
    requires |trees| == |results| + 1 && SettledAs(t, j, results, trees, u)
    ensures SettledAs(s, j, results, trees, u)
    ensures u.pending == {} && !u.reloadPending
  {
    hide CameBack, ViewFits, SelectionMoved;
  }

  /** With nothing pending nothing is started. */
  lemma NothingToStart(s: FsState, accepted: bool)
    requires s.pending == {} && !s.reloadPending
    ensures StartNext(s, accepted) == s
  {
  }

  // ---------------------------------------------------------------- starting a job

  /** What a job started now loads: the root and everything open if a reload is owed, and what is to expand. */
  predicate ToLoad(s: FsState, p: Path) {
    (s.reloadPending && (p == ROOT || p in s.expanded)) || p in s.pending
  }

  /** With something to load, nothing loading and a queue that takes it, everything pending becomes one job
      that loads parents before children, each directory once; else nothing happens. */
  ghost predicate StartedAs(s: FsState, accepted: bool, t: FsState) {
    if s.active && s.running.None? && accepted && exists p :: ToLoad(s, p) then
      && t.job.Some? && t.job.value.generation == s.generation && t.job.value.expansions == s.pending
      && (forall p :: p in t.job.value.directories <==> ToLoad(s, p))
      && DepthSorted(t.job.value.directories)
      && t == s.(job := t.job, running := Some(s.generation), reloadRunning := s.reloadPending, reloadPending := false,
                 expansionsRunning := s.pending, pending := {})
    else t == s
  }

  lemma ToLoadAre(s: FsState)
    ensures var wanted := JobDirectories(s.reloadPending, s.expanded, s.pending);
            (forall p :: p in wanted <==> ToLoad(s, p)) && (wanted != {} <==> exists p :: ToLoad(s, p))
  {
    var wanted := JobDirectories(s.reloadPending, s.expanded, s.pending);
    assert forall p :: p in wanted <==> ToLoad(s, p);
    if wanted != {} {
      var p :| p in wanted;
      assert ToLoad(s, p);
    }
  }

  lemma StartedMeaning(s: FsState, accepted: bool)
    ensures StartedAs(s, accepted, StartNext(s, accepted))
  {
    ToLoadAre(s);
    hide ByDepth, DepthSorted, JobDirectories, ToLoad;
  }

  // ---------------------------------------------------------------- the keys of a row

  /** A directory that was not wanted open is, and is to be loaded. */
  ghost predicate AskedOpen(s: FsState, p: Path, accepted: bool, t: FsState) {
    if IsDirectory(s.tree.nodes, p) && p !in s.desired then
      StartedAs(s.(desired := s.desired + {p}, pending := s.pending + {p}, generation := s.generation + 1), accepted, t)
    else t == s
  }

  /** A path is wanted open no more; a job that runs is outdated, and an open directory is shut. */
  ghost predicate Shut(s: FsState, p: Path, t: FsState) {
    && t.desired == s.desired - {p} && t.pending == s.pending - {p} && t.expanded == s.expanded - {p}
    && t.generation == (if s.running.Some? then s.generation + 1 else s.generation)
    && (if p in s.expanded then
          && ViewFits(s.tree.nodes, t.expanded, t.rows)
          && SelectionMoved(s.tree.nodes, t.rows, s.tree.selection, t.tree.selection)
        else t.rows == s.rows && t.tree == s.tree)
    && t == s.(desired := t.desired, pending := t.pending, expanded := t.expanded, generation := t.generation,
               rows := t.rows, tree := s.tree.(selection := t.tree.selection))
  }

  lemma ShutMeaning(s: FsState, p: Path)
    requires Sound(s) && !s.filter
    ensures Shut(s, p, Collapse(s, p))
  {
    var u := Collapsed(s, p);
    CollapsedOk(s, p);
    RebuiltMeaning(u);
    if p !in s.expanded { assert s.expanded - {p} == s.expanded; }
    hide Coherent, JobOk, ViewFits, SelectionMoved, Rebuilt, Collapse, VisibleRows;
  }

  lemma AskedMeaning(s: FsState, p: Path, accepted: bool)
    ensures AskedOpen(s, p, accepted, RequestExpansion(s, p, accepted))
  {
    hide StartNext, StartedAs;
    StartedMeaning(ExpansionRequested(s, p), accepted);
  }

  /** The first row under a directory: no other comes before it. */
  ghost predicate FirstUnder(nodes: Nodes, d: Path, p: Path) {
    p in ChildSet(nodes, d) && forall q :: q in ChildSet(nodes, d) ==> q == p || ChildLess(nodes, p, q)
  }

  lemma FirstUnderMeaning(nodes: Nodes, d: Path)
    ensures var children := ChildrenAt(ChildIndex(nodes), d);
            if children == [] then ChildSet(nodes, d) == {} else FirstUnder(nodes, d, children[0])
  {
    IndexedChildren(nodes, d);
    var rows := SortedChildren(nodes, d);
    hide ChildIndex, SortedChildren, ChildSet, ChildLess;
    if rows == [] {
      assert forall q :: q !in rows;
    } else {
      forall q | q in ChildSet(nodes, d) ensures q == rows[0] || ChildLess(nodes, rows[0], q) {
        var i :| 0 <= i < |rows| && rows[i] == q;
      }
      assert rows[0] in rows;
    }
  }

  /** Toggling the selected row shuts a wanted one and asks for a directory that is not. */
  lemma ToggleMeaning(s: FsState, accepted: bool)
    requires Sound(s)
    ensures var t := Next(s, ToggleSelected(accepted));
            if s.filter || s.tree.selection.None? then t == s
            else if s.tree.selection.value in s.desired then Shut(s, s.tree.selection.value, t)
            else AskedOpen(s, s.tree.selection.value, accepted, t)
  {
    if s.tree.selection.Some? && !s.filter {
      ShutMeaning(s, s.tree.selection.value);
      AskedMeaning(s, s.tree.selection.value, accepted);
    }
    hide Shut, AskedOpen, Collapse, RequestExpansion, Coherent;
  }

  /** Expanding an open row goes down to its first child; any other row is asked open. */
  lemma ExpandMeaning(s: FsState, accepted: bool)
    requires Sound(s)
    ensures var t := Next(s, ExpandOrDescend(accepted));
            if s.filter || s.tree.selection.None? then t == s
            else if s.tree.selection.value !in s.expanded then AskedOpen(s, s.tree.selection.value, accepted, t)
            else if ChildSet(s.tree.nodes, s.tree.selection.value) == {} then t == s
            else
              && t == s.(tree := s.tree.(selection := t.tree.selection)) && t.tree.selection.Some?
              && FirstUnder(s.tree.nodes, s.tree.selection.value, t.tree.selection.value)
  {
    if s.tree.selection.Some? {
      FirstUnderMeaning(s.tree.nodes, s.tree.selection.value);
      AskedMeaning(s, s.tree.selection.value, accepted);
    }
    hide AskedOpen, RequestExpansion, ChildIndex, ChildLess, VisibleRows;
  }

  /** Collapsing shuts a wanted row; from any other row it goes up to the row it hangs under. */
  lemma CollapseMeaning(s: FsState)
    requires Sound(s)
    ensures var t := Next(s, CollapseOrAscend);
            if s.filter || s.tree.selection.None? then t == s
            else
              var p := s.tree.selection.value;
              if p in s.desired then Shut(s, p, t)
              else if p in s.tree.nodes && DisplayParent(s.tree.nodes, p) in s.tree.nodes then
                t == s.(tree := s.tree.(selection := Some(DisplayParent(s.tree.nodes, p))))
              else t == s
  {
    if s.tree.selection.Some? && !s.filter { ShutMeaning(s, s.tree.selection.value); }
    hide Shut, Collapse, DisplayParent, ChildIndex;
  }

  // ---------------------------------------------------------------- reloads, stale jobs and panics

  /** A reload is owed from now on, and whatever runs is outdated. */
  function Owing(s: FsState): FsState {
    s.(generation := s.generation + 1, reloadPending := true)
  }

  lemma ReloadMeaning(s: FsState, accepted: bool)
    requires Coherent(s.tree)
    ensures StartedAs(Owing(s), accepted, Next(s, Reload(accepted)))
    ensures StartedAs(s, accepted, Next(s, Retry(accepted)))
    ensures Next(s, Pause) == s.(active := false)
  {
    StartedMeaning(Owing(s), accepted);
    StartedMeaning(s, accepted);
    hide StartNext, StartedAs, Coherent;
  }

  /** Coming back to the front reloads; whatever that leaves pending is offered once more. */
  lemma ResumeMeaning(s: FsState, accepted: bool, again: bool)
    requires Coherent(s.tree)
    ensures exists u :: StartedAs(Owing(s.(active := true)), accepted, u)
                        && StartedAs(u, again, Next(s, Resume(accepted, again)))
  {
    var u := StartNext(Owing(s.(active := true)), accepted);
    StartedMeaning(Owing(s.(active := true)), accepted);
    StartedMeaning(u, again);
    hide StartNext, StartedAs, Coherent;
  }

  /** What the running job was asked for is owed again: a reload, and the expansions still wanted. */
  function OwedAgain(s: FsState): FsState {
    s.(job := None, running := None, reloadRunning := false, expansionsRunning := {},
       reloadPending := s.reloadPending || s.reloadRunning,
       pending := s.pending + (set p | p in s.expansionsRunning && p in s.desired))
  }

  predicate OwesNothing(s: FsState) {
    !s.reloadPending && s.pending == {}
  }

  /** A job that was outdated installs nothing: what it was asked for is owed and submitted again, and if that
      is nothing the newest request is answered. */
  lemma StaleMeaning(s: FsState, results: seq<LoadResult>, accepted: bool)
    requires Sound(s) && s.job.Some? && ValidResults(results) && s.job.value.generation != s.generation
    ensures var (owed, t) := (OwedAgain(s), Next(s, JobDone(results, accepted)));
            if OwesNothing(owed) then t == owed.(applied := s.generation) else StartedAs(owed, accepted, t)
  {
    var owed, u := OwedAgain(s), Returned(s, s.job.value);
    ReturnedIs(s);
    CompleteNext(s, results, accepted);
    StartedMeaning(u, accepted);
    if OwesNothing(owed) { NothingToStart(u, accepted); }
    hide StartNext, StartedAs, Returned, OwedAgain, Sound, Next, Coherent;
  }

  lemma ReturnedIs(s: FsState)
    requires Sound(s) && s.job.Some?
    ensures var owed := OwedAgain(s);
            && Returned(s, s.job.value) == (if OwesNothing(owed) then owed.(applied := s.generation) else owed)
            && (OwesNothing(owed) ==> OwesNothing(owed.(applied := s.generation)))
  {
    assert s.job.value.expansions == s.expansionsRunning;
    assert s.job.value.expansions * s.desired == set p | p in s.expansionsRunning && p in s.desired;
    hide Coherent, RowsFit;
  }

  lemma CompleteNext(s: FsState, results: seq<LoadResult>, accepted: bool)
    requires Sound(s) && s.job.Some? && ValidResults(results) && s.job.value.generation != s.generation
    ensures Next(s, JobDone(results, accepted)) == StartNext(Returned(s, s.job.value), accepted)
  {
    assert s.running == Some(s.job.value.generation);
    hide Coherent, RowsFit, StartNext, Returned;
  }

  /** A job whose worker panicked is asked for again as a new request, once; if it panics again before anything
      settles, or nothing is owed, the request counts as answered. */
  lemma PanicMeaning(s: FsState, accepted: bool)
    requires Sound(s) && s.job.Some?
    ensures var (owed, t) := (OwedAgain(s).(generation := s.generation + 1), Next(s, JobPanicked(accepted)));
            if s.panicRetried || OwesNothing(owed) then
              t == owed.(reloadPending := false, pending := {}, applied := owed.generation)
            else StartedAs(owed.(panicRetried := true), accepted, t)
  {
    var owed := OwedAgain(s).(generation := s.generation + 1);
    assert s.running.Some?;
    assert s.expansionsRunning * s.desired == set p | p in s.expansionsRunning && p in s.desired;
    assert owed == Fallen(s);
    PanicIs(s, accepted);
    hide StartNext, StartedAs, Panic, Next, Fallen, Sound, Coherent, FsOk, RowsOk;
    StartedMeaning(owed.(panicRetried := true), accepted);
    PanicNext(s, accepted);
  }

  lemma PanicNext(s: FsState, accepted: bool)
    requires Coherent(s.tree) && s.job.Some?
    ensures Next(s, JobPanicked(accepted)) == Panic(s, accepted)
  {
    hide Panic, Coherent;
  }

  // ---------------------------------------------------------------- new trees and the search filter

  /** The view of a tree: filtered it stays; else the rows that show, and what is open or wanted as far as it
      is a directory. */
  ghost predicate ViewedAs(s: FsState, t: FsState) {
    if s.filter then t == s
    else
      && (forall p :: p in t.expanded <==> p in s.expanded && IsDirectory(s.tree.nodes, p))
      && (forall p :: p in t.desired <==> p in s.desired && IsDirectory(s.tree.nodes, p))
      && ViewFits(s.tree.nodes, t.expanded, t.rows)
      && SelectionMoved(s.tree.nodes, t.rows, s.tree.selection, t.tree.selection)
      && t == s.(expanded := t.expanded, desired := t.desired, rows := t.rows,
                 tree := s.tree.(selection := t.tree.selection))
  }

  lemma ViewedMeaning(s: FsState)
    requires ROOT !in s.tree.nodes
    ensures ViewedAs(s, Rebuilt(s))
  {
    if !s.filter { RebuiltMeaning(s); }
    hide VisibleRows, VisibleSelection, ViewFits, SelectionMoved;
  }

  lemma MergedMeaning(s: FsState, c: MergeContext, entries: set<StatusEntry>)
    requires Sound(s)
    ensures ViewedAs(s.(tree := Merged(s.tree, c, entries)), Next(s, StatusMerged(c, entries)))
  {
    MergedNext(s, c, entries);
    hide Merged, Rebuilt, Next, Sound, ViewedAs;
    ViewedMeaning(s.(tree := Merged(s.tree, c, entries)));
  }

  /** Leaving a search shows the tree's own rows again. */
  ghost predicate LeftSearch(s: FsState, editing: bool, t: FsState) {
    if s.filter || editing then ViewedAs(s.(filter := false), t) else t == s
  }

  lemma LeftMeaning(s: FsState, editing: bool)
    requires ROOT !in s.tree.nodes
    ensures LeftSearch(s, editing, Cleared(s, editing))
  {
    ViewedMeaning(s.(filter := false));
    hide Rebuilt, ViewedAs;
  }

  /** A search hides all rows until its projections come in. */
  lemma SearchMeaning(s: FsState, rows: seq<Path>, editing: bool)
    requires Sound(s)
    ensures Next(s, SearchInput) == s.(filter := true, rows := [])
    ensures s.filter ==> Next(s, Projected(rows)) == s.(rows := rows)
    ensures LeftSearch(s, editing, Next(s, ClearSearch(editing)))
  {
    LeftMeaning(s, editing);
    hide Cleared, LeftSearch;
  }

  lemma RootedNot(t: TreeState)
    requires Coherent(t)
    ensures ROOT !in t.nodes
  {
  }

  lemma Reloading(s: FsState, accepted: bool)
    ensures RequestReload(s, accepted) == StartNext(Owing(s), accepted)
  {
    hide StartNext;
  }

  lemma IgnoredNext(s: FsState, editing: bool, accepted: bool)
    requires Coherent(s.tree)
    ensures var synced := s.(tree := Synced(s.tree, s.tree));
            && ROOT !in synced.tree.nodes
            && Next(s, ToggleIgnored(editing, accepted)) == StartNext(Owing(Cleared(synced, editing)), accepted)
  {
    hide Synced, Cleared, StartNext, RequestReload;
    SyncKeepsCoherent(s.tree, s.tree);
    RootedNot(Synced(s.tree, s.tree));
    hide Coherent;
    assert RequestReload(Cleared(s.(tree := Synced(s.tree, s.tree)), editing), accepted)
        == StartNext(Owing(Cleared(s.(tree := Synced(s.tree, s.tree)), editing)), accepted)
        by { Reloading(Cleared(s.(tree := Synced(s.tree, s.tree)), editing), accepted); }
  }

  /** Showing or hiding ignored files copies the overlay over, leaves a search and reloads. */
  lemma IgnoredMeaning(s: FsState, editing: bool, accepted: bool)
    requires Sound(s)
    ensures exists u ::
              && LeftSearch(s.(tree := Synced(s.tree, s.tree)), editing, u)
              && StartedAs(Owing(u), accepted, Next(s, ToggleIgnored(editing, accepted)))
  {
    IgnoredNext(s, editing, accepted);
    hide *;
    var synced := s.(tree := Synced(s.tree, s.tree));
    LeftMeaning(synced, editing);
    StartedMeaning(Owing(Cleared(synced, editing)), accepted);
  }
}
