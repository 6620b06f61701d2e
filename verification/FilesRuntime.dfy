/** The files runtime object: the filesystem job machine and the visible rows, updated in place. */
module FilesRuntime {
  import opened Wrappers
  import opened Paths
  import opened Tree
  import opened Rows
  import opened FilesTree
  import opened Runtime

  class FilesView {
    const tree: Files
    var filter: bool
    var expanded: set<Path>
    var desiredExpanded: set<Path>
    var visibleRows: seq<Path>
    var filesystemGeneration: nat
    var filesystemAppliedGeneration: nat
    var filesystemRunning: Option<nat>
    var expansionsRunning: set<Path>
    var reloadRunning: bool
    var pendingExpansions: set<Path>
    var reloadPending: bool
    var panicRetried: bool
    var backgroundActive: bool
    var job: Option<FsJob>

    function State(): FsState
      reads this, tree
    {
      FsState(tree.State(), filter, expanded, desiredExpanded, visibleRows, filesystemGeneration,
              filesystemAppliedGeneration, filesystemRunning, expansionsRunning, reloadRunning,
              pendingExpansions, reloadPending, panicRetried, backgroundActive, job)
    }

    ghost predicate Valid()
      reads this, tree
    {
      tree.Valid()
    }

    /** Bootstraps with the root listing. */
    constructor (l: Listing)
      requires ValidListing(l)
      ensures Valid() && fresh(tree) && State() == Start(l)
    {
      var files := new Files();
      tree := files;
      filter, expanded, desiredExpanded, visibleRows := false, {}, {}, [];
      filesystemGeneration, filesystemAppliedGeneration, filesystemRunning := 0, 0, None;
      expansionsRunning, reloadRunning, pendingExpansions, reloadPending := {}, false, {}, false;
      panicRetried, backgroundActive, job := false, true, None;
      new;
      hide Loaded, Rebuilt, Coherent;
      tree.ApplyDirectory(l);
      assert State() == Boot(l);
      BootIsSound(l);
      RebuildVisibleRows();
    }

    method RebuildVisibleRows()
      requires Valid()
      modifies this, tree
      ensures Valid() && State() == Rebuilt(old(State()))
    {
      if filter { return; }
      var kept := DirectoriesOf(tree.nodes, expanded);
      RebuildFacts(tree.State(), kept);
      hide Coherent, VisibleSelection, RowsUnder, DirectoriesOf;
      var rows := AppendVisible(tree.nodes, tree.children, kept, ROOT, []);
      expanded, desiredExpanded, visibleRows := kept, DirectoriesOf(tree.nodes, desiredExpanded), rows;
      RestoreVisibleSelection();
    }

    method RestoreVisibleSelection()
      requires ROOT !in tree.nodes && forall p :: p in visibleRows ==> p in tree.nodes
      modifies tree
      ensures tree.State() == old(tree.State()).(selection := VisibleSelection(old(tree.nodes), visibleRows,
          old(tree.selection)))
    {
      if tree.selection.None? || tree.selection.value in visibleRows { return; }
      var selected := tree.selection.value;
      var candidate := if selected in tree.nodes then Some(DisplayParent(tree.nodes, selected)) else None;
      while candidate.Some?
        invariant NearestVisible(tree.nodes, visibleRows, selected)
               == if candidate.None? then None
                  else if candidate.value in visibleRows then candidate
                  else NearestVisible(tree.nodes, visibleRows, candidate.value)
        decreases if candidate.Some? then |candidate.value| + 1 else 0
      {
        if candidate.value in visibleRows {
          var _ := tree.Select(candidate.value);
          return;
        }
        candidate := if candidate.value in tree.nodes then Some(DisplayParent(tree.nodes, candidate.value)) else None;
      }
      if visibleRows != [] {
        var _ := tree.Select(visibleRows[0]);
      }
    }

    /** Submits the pending work as one job; the queue may refuse it. */
    method StartNextFilesystem(accepted: bool)
      requires Valid()
      modifies this
      ensures Valid() && State() == StartNext(old(State()), accepted)
    {
      hide Coherent, ByDepth, JobDirectories, DepthSorted;
      if !backgroundActive || filesystemRunning.Some? { return; }
      var reload, expansions := reloadPending, pendingExpansions;
      reloadPending, pendingExpansions := false, {};
      var directories := ByDepth(JobDirectories(reload, expanded, expansions));
      if directories == [] {
        EmptyJob(reload, expanded, expansions);
        return;
      }
      assert directories[0] in directories;
      var generation := filesystemGeneration;
      if accepted {
        filesystemRunning, reloadRunning, expansionsRunning := Some(generation), reload, expansions;
        job := Some(FsJob(generation, expansions, directories));
      } else {
        reloadPending := reloadPending || reload;
        pendingExpansions := pendingExpansions + expansions;
      }
    }

    method RequestDirectoryExpansion(path: Path, accepted: bool) returns (requested: bool)
      requires Valid()
      modifies this
      ensures Valid() && State() == RequestExpansion(old(State()), path, accepted)
    {
      hide Coherent, StartNext;
      if !IsDirectory(tree.nodes, path) { return false; }
      requested := path !in desiredExpanded;
      if requested {
        desiredExpanded := desiredExpanded + {path};
        filesystemGeneration := filesystemGeneration + 1;
        pendingExpansions := pendingExpansions + {path};
        StartNextFilesystem(accepted);
      }
    }

    method RequestTreeReload(accepted: bool)
      requires Valid()
      modifies this
      ensures Valid() && State() == RequestReload(old(State()), accepted)
    {
      hide Coherent, StartNext;
      filesystemGeneration := filesystemGeneration + 1;
      reloadPending := true;
      StartNextFilesystem(accepted);
    }

    method ToggleSelected(accepted: bool) returns (changed: bool)
      requires Valid()
      modifies this, tree
      ensures Valid() && State() == Toggle(old(State()), accepted)
    {
      assert ROOT !in tree.nodes;
      hide Coherent, Collapse, RequestExpansion;
      if filter || tree.selection.None? { return false; }
      var path := tree.selection.value;
      if path in desiredExpanded {
        CollapsePath(path);
        return true;
      }
      changed := RequestDirectoryExpansion(path, accepted);
    }

    method CollapsePath(path: Path)
      requires Valid()
      modifies this, tree
      ensures Valid() && State() == Collapse(old(State()), path)
    {
      assert ROOT !in tree.nodes;
      hide Coherent, Rebuilt;
      desiredExpanded := desiredExpanded - {path};
      if filesystemRunning.Some? { filesystemGeneration := filesystemGeneration + 1; }
      pendingExpansions := pendingExpansions - {path};
      if path in expanded {
        expanded := expanded - {path};
        RebuildVisibleRows();
      }
    }

    /** The finished job's results come back to the interface thread. */
    method CompleteFilesystem(results: seq<LoadResult>, accepted: bool) returns (current: bool)
      requires Valid() && ValidResults(results) && job.Some?
      modifies this, tree
      ensures Valid() && State() == Complete(old(State()), results, accepted)
    {
      hide Coherent, StartNext, InstallJob, ValidResults;
      var done := job.value;
      job := None;
      expansionsRunning := {};
      if filesystemRunning != Some(done.generation) { return false; }
      filesystemRunning := None;
      var reload := reloadRunning;
      reloadRunning := false;
      if done.generation != filesystemGeneration {
        ReturnStale(done, reload);
        assert State() == Returned(old(State()), done);
        StartNextFilesystem(accepted);
        return false;
      }
      InstallResults(done, results);
      StartNextFilesystem(accepted);
      current := true;
    }

    method ReturnStale(done: FsJob, reload: bool)
      modifies this
      ensures State() == old(State()).(
                reloadPending := old(reloadPending) || reload,
                pending := old(pendingExpansions) + (done.expansions * desiredExpanded),
                applied := if !old(reloadPending) && !reload && old(pendingExpansions)
                    + (done.expansions * desiredExpanded) == {}
                           then filesystemGeneration else old(filesystemAppliedGeneration))
    {
      reloadPending := reloadPending || reload;
      pendingExpansions := pendingExpansions + (done.expansions * desiredExpanded);
      if !reloadPending && pendingExpansions == {} {
        filesystemAppliedGeneration := filesystemGeneration;
      }
    }

    method InstallResults(done: FsJob, results: seq<LoadResult>)
      requires Valid() && ValidResults(results)
      modifies this, tree
      ensures Valid() && State() == InstallJob(old(State()), done, results)
    {
      ghost var before := State();
      InstallKeepsCoherent(tree.State(), results);
      var loaded := LoadResults(results);
      hide Coherent, Rebuilt, Install, Installed, ValidResults;
      panicRetried := false;
      filesystemAppliedGeneration := done.generation;
      var fulfilled := Opened(tree.State(), loaded, done.expansions);
      expanded := expanded + (fulfilled * desiredExpanded);
      desiredExpanded := desiredExpanded - (done.expansions - fulfilled);
      if loaded != {} {
        RebuildVisibleRows();
      }
    }

    /** Installs the listings in order, skipping directories that are gone by then. */
    method LoadResults(results: seq<LoadResult>) returns (loaded: set<Path>)
      requires Valid() && ValidResults(results)
      modifies tree
      ensures Valid() && tree.State() == Install(old(tree.State()), results)
      ensures loaded == Installed(old(tree.State()), results)
    {
      hide Coherent, Loaded;
      loaded := {};
      for i := 0 to |results|
        invariant Valid() && tree.State() == Install(old(tree.State()), results[..i])
        invariant loaded == Installed(old(tree.State()), results[..i])
      {
        var result := results[i];
        assert results[..i + 1][..i] == results[..i];
        if result.listing.Some? && (result.directory == ROOT || IsDirectory(tree.nodes, result.directory)) {
          tree.ApplyDirectory(result.listing.value);
          loaded := loaded + {result.directory};
        }
      }
      assert results[..|results|] == results;
    }

    method FailFilesystem(accepted: bool)
      requires Valid()
      modifies this
      ensures Valid() && State() == Panic(old(State()), accepted)
    {
      hide Coherent, StartNext;
      if filesystemRunning.None? { return; }
      TakeDownJob();
      if !panicRetried && (reloadPending || pendingExpansions != {}) {
        panicRetried := true;
        StartNextFilesystem(accepted);
      } else {
        reloadPending := false;
        pendingExpansions := {};
        filesystemAppliedGeneration := filesystemGeneration;
      }
    }

    method TakeDownJob()
      modifies this
      ensures State() == Fallen(old(State()))
    {
      hide Files.State;
      OweRunning();
      filesystemRunning, job, reloadRunning, expansionsRunning := None, None, false, {};
    }

    /** The running work is owed again. */
    method OweRunning()
      modifies this
      ensures State() == old(State()).(
                reloadPending := old(reloadPending) || old(reloadRunning),
                pending := old(pendingExpansions) + (old(expansionsRunning) * old(desiredExpanded)),
                generation := old(filesystemGeneration) + 1)
    {
      hide Files.State;
      reloadPending := reloadPending || reloadRunning;
      pendingExpansions := pendingExpansions + (expansionsRunning * desiredExpanded);
      filesystemGeneration := filesystemGeneration + 1;
    }
  }

  /** What rebuilding relies on: the rows are cached and moving the selection breaks nothing. */
  lemma RebuildFacts(t: TreeState, expanded: set<Path>)
    requires Coherent(t)
    ensures ROOT !in t.nodes && t.children == ChildIndex(t.nodes)
    ensures [] + RowsUnder(t.nodes, t.nodes.Keys, expanded, ROOT) == VisibleRows(t.nodes, expanded)
    ensures forall p :: p in VisibleRows(t.nodes, expanded) ==> p in t.nodes
    ensures forall selection :: Coherent(t.(selection := selection))
  {
    VisibleAreCached(t.nodes, expanded);
    forall selection ensures Coherent(t.(selection := selection)) {
      SelectionKeepsCoherent(t, selection);
    }
  }

  lemma VisibleAreCached(nodes: Nodes, expanded: set<Path>)
    requires ROOT !in nodes
    ensures forall p :: p in RowsUnder(nodes, nodes.Keys, expanded, ROOT) ==> p in nodes
  {
    ListingTheorem(nodes, nodes.Keys, expanded);
    hide RowsUnder;
  }

  lemma EmptyJob(reload: bool, expanded: set<Path>, expansions: set<Path>)
    requires ByDepth(JobDirectories(reload, expanded, expansions)) == []
    ensures JobDirectories(reload, expanded, expansions) == {} && !reload && expansions == {}
  {
    var wanted := JobDirectories(reload, expanded, expansions);
    forall p ensures p !in wanted {
      assert p in ByDepth(wanted) <==> p in wanted;
    }
    assert wanted == {};
    assert expansions <= wanted;
    assert reload ==> {ROOT} <= wanted;
  }

  method AppendVisible(nodes: Nodes, index: map<Path, seq<Path>>, expanded: set<Path>, directory: Path,
      before: seq<Path>)
    returns (rows: seq<Path>)
    requires ROOT !in nodes && index == ChildIndex(nodes)
    ensures rows == before + RowsUnder(nodes, nodes.Keys, expanded, directory)
    decreases Below(nodes, directory), 1
  {
    rows := before;
    IndexedChildren(nodes, directory);
    var children := ChildrenAt(index, directory);
    RowsStart(nodes, nodes.Keys, expanded, directory);
    hide *;
    ghost var total := RowsUnder(nodes, nodes.Keys, expanded, directory);
    ghost var rest := total;
    for i := 0 to |children|
      invariant rows + rest == before + total
      invariant rest == RowsAmong(nodes, nodes.Keys, expanded, directory, children[i..])
    {
      RowsStep(nodes, nodes.Keys, expanded, directory, children, i);
      ghost var listed, block := rows, Block(nodes, nodes.Keys, expanded, directory, children[i]);
      rows := AppendVisibleRow(nodes, index, expanded, directory, children[i], rows);
      rest := RowsAmong(nodes, nodes.Keys, expanded, directory, children[i + 1..]);
      Regroup(listed, block, rest);
    }
    assert rows + [] == rows;
  }

  method AppendVisibleRow(nodes: Nodes, index: map<Path, seq<Path>>, expanded: set<Path>, directory: Path,
                          path: Path, before: seq<Path>)
    returns (rows: seq<Path>)
    requires ROOT !in nodes && index == ChildIndex(nodes)
    requires path in nodes && DisplayParent(nodes, path) == directory
    ensures rows == before + Block(nodes, nodes.Keys, expanded, directory, path)
    decreases Below(nodes, directory), 0
  {
    hide ChildIndex, DisplayParent;
    rows := before + [path];
    if nodes[path].kind == Directory && path in expanded {
      BelowShrinks(nodes, directory, path);
      rows := AppendVisible(nodes, index, expanded, path, rows);
    }
  }
}
