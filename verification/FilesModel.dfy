/** The files view model: a tree behind a refresh gate, with status merges prepared off-thread. */
module FilesModel {
  import opened Wrappers
  import opened Paths
  import opened Status
  import opened Tree
  import opened Rows
  import opened FilesTree
  import opened Refresh

  datatype Snapshot = Snapshot(entries: seq<StatusEntry>, stale: bool)

  type StatusResult = Result<Snapshot, string>

  datatype ModelState = ModelState(
    tree: TreeState, gate: Gate, notice: Option<string>, stale: bool, stats: Option<nat>, revision: nat)

  /** What a status worker takes along, and what it brings back. */
  datatype MergeInput = MergeInput(tree: TreeState, revision: nat)

  datatype Prepared = Prepared(
    generation: nat, revision: nat, tree: Result<(TreeState, bool), string>, stats: Option<nat>)

  function EntrySet(s: Snapshot): set<StatusEntry> {
    set e | e in s.entries
  }

  function Prepare(generation: nat, input: MergeInput, c: MergeContext, snapshot: StatusResult,
      stats: Option<nat>): Prepared {
    Prepared(generation, input.revision,
             match snapshot
             case Ok(s) => Ok((Merged(input.tree, c, EntrySet(s)), s.stale))
             case Err(message) => Err(message),
             stats)
  }

  function Reselected(t: TreeState, selection: Option<Path>): TreeState {
    t.(selection := Restored(t.nodes, t.children, selection))
  }

  function CompletePrepared(m: ModelState, p: Prepared): (ModelState, bool) {
    var (gate, current) := Finished(m.gate, p.generation);
    var m := m.(gate := gate);
    if !current then (m, false)
    else if p.revision != m.revision then (m.(gate := Requested(gate)), false)
    else
      match p.tree
      case Ok((tree, stale)) =>
        (m.(tree := Reselected(tree, m.tree.selection), notice := None, stale := stale, stats := p.stats), true)
      case Err(message) => (m.(notice := Some(message)), false)
  }

  function CompleteDirect(m: ModelState, generation: nat, c: MergeContext, snapshot: StatusResult): (ModelState, bool) {
    var (gate, current) := Finished(m.gate, generation);
    var m := m.(gate := gate);
    if !current then (m, false)
    else
      match snapshot
      case Ok(s) =>
        (m.(tree := Merged(m.tree, c, EntrySet(s)), revision := m.revision + 1, notice := None,
            stale := s.stale, stats := None), true)
      case Err(message) => (m.(notice := Some(message)), false)
  }

  // ---------------------------------------------------------------- runs

  /** The model with the status job a worker may hold. */
  datatype Run = Run(model: ModelState, job: Option<(nat, MergeInput)>)

  datatype Event =
    | Request
    | Begin(accepted: bool)
    | Panic
    | Deliver(c: MergeContext, snapshot: StatusResult, stats: Option<nat>)
    | Direct(generation: nat, c: MergeContext, snapshot: StatusResult)
    | Load(listing: Listing)
    | Replace(tree: TreeState)
    | Select(path: Path)
    | MarkStale

  predicate SameButSelection(a: TreeState, b: TreeState) {
    a.(selection := None) == b.(selection := None)
  }

  /** What the environment respects: listings and replacement trees are well formed, and only a
      held job is delivered or lost. */
  predicate Enabled(r: Run, e: Event) {
    match e
    case Deliver(_, _, _) => r.job.Some?
    case Panic => r.job.Some?
    case Load(l) => ValidListing(l)
    case Replace(t) => Coherent(t)
    case _ => true
  }

  function Next(r: Run, e: Event): Run {
    var m := r.model;
    match e
    case Request => r.(model := m.(gate := Requested(m.gate)))
    case Begin(accepted) =>
      var (gate, started) := Started(m.gate);
      if started.None? then r
      else if accepted then Run(m.(gate := gate), Some((started.value, MergeInput(m.tree, m.revision))))
      else r.(model := m.(gate := Cancelled(gate, started.value)))
    case Panic =>
      if r.job.None? then r
      else Run(m.(gate := Requested(Cancelled(m.gate, r.job.value.0))), None)
    case Deliver(c, snapshot, stats) =>
      if r.job.None? then r
      else Run(CompletePrepared(m, Prepare(r.job.value.0, r.job.value.1, c, snapshot, stats)).0, None)
    case Direct(generation, c, snapshot) => r.(model := CompleteDirect(m, generation, c, snapshot).0)
    case Load(l) => r.(model := m.(tree := Loaded(m.tree, l), revision := m.revision + 1))
    case Replace(t) => r.(model := m.(tree := t, revision := m.revision + 1))
    case Select(p) =>
      r.(model := if p in m.tree.nodes then m.(tree := m.tree.(selection := Some(p))) else m)
    case MarkStale => r.(model := m.(stale := true))
  }

  /** A running generation has its job out; if nothing was loaded since, that job holds the
      current tree, selection aside. */
  predicate RunOk(r: Run) {
    && GateOk(r.model.gate)
    && Coherent(r.model.tree)
    && (r.model.gate.running.Some? ==> r.job.Some? && r.job.value.0 == r.model.gate.running.value)
    && (r.job.Some? ==>
          && r.job.value.1.revision <= r.model.revision
          && (r.model.gate.running.Some? && r.job.value.1.revision == r.model.revision ==>
                SameButSelection(r.job.value.1.tree, r.model.tree)))
  }

  lemma MergeIgnoresSelection(a: TreeState, b: TreeState, c: MergeContext, es: set<StatusEntry>)
    requires SameButSelection(a, b) && ROOT !in a.nodes
    ensures Reselected(Merged(a, c, es), b.selection) == Merged(b, c, es)
    ensures Coherent(Merged(a, c, es)) && Coherent(Merged(b, c, es))
  {
    MergeKeepsCoherent(a, c, es);
    MergeKeepsCoherent(b, c, es);
    assert a.nodes == a.(selection := None).nodes == b.nodes;
    hide MergedStatuses, MergedChanges, Gone, VirtualNodes, ChildIndex, Coherent, Restored;
  }

  /** The prepared merge refines the direct one: when it is accepted, the current model ends up as
      if the snapshot had been merged into it just now. */
  lemma PreparedRefinesDirect(r: Run, c: MergeContext, snapshot: StatusResult, stats: Option<nat>)
    requires RunOk(r) && r.job.Some?
    ensures var (generation, input) := r.job.value;
            var (after, accepted) := CompletePrepared(r.model, Prepare(generation, input, c, snapshot, stats));
            var (direct, alike) := CompleteDirect(r.model, generation, c, snapshot);
            accepted ==>
              && alike
              && after.tree == direct.tree
              && after.notice == direct.notice == None
              && after.stale == direct.stale
              && after.gate == direct.gate
  {
    var (generation, input) := r.job.value;
    var (after, accepted) := CompletePrepared(r.model, Prepare(generation, input, c, snapshot, stats));
    if accepted {
      assert Coherent(input.tree) by { assert input.tree.nodes == input.tree.(selection := None).nodes; }
      MergeIgnoresSelection(input.tree, r.model.tree, c, EntrySet(snapshot.value));
      hide Merged, Reselected;
    }
  }

  /** A successful snapshot of the running generation is installed, or a newer request is pending
      and startable; it is installed exactly when nothing was requested or loaded meanwhile. */
  lemma SnapshotNotLost(r: Run, c: MergeContext, s: Snapshot, stats: Option<nat>)
    requires RunOk(r) && r.model.gate.running.Some?
    ensures var (generation, input) := r.job.value;
            var (after, accepted) := CompletePrepared(r.model, Prepare(generation, input, c, Ok(s), stats));
            && (accepted || (Pending(after.gate) && Started(after.gate).1.Some?))
            && (accepted <==> r.model.gate.requested == generation && r.model.revision == input.revision)
            && (!accepted ==> after.tree == r.model.tree && after.notice == r.model.notice)
  {
    hide Merged, Reselected, Coherent, SameButSelection;
  }

  lemma NextKeepsOk(r: Run, e: Event)
    requires RunOk(r) && Enabled(r, e)
    ensures RunOk(Next(r, e))
  {
    var m := r.model;
    match e
    case Load(l) =>
      LoadKeepsCoherent(m.tree, l);
      hide Loaded, Coherent;
    case Deliver(c, snapshot, stats) =>
      DeliverKeepsOk(r, c, snapshot, stats);
    case Direct(generation, c, snapshot) =>
      if snapshot.Ok? { MergeKeepsCoherent(m.tree, c, EntrySet(snapshot.value)); }
      assert ROOT !in m.tree.nodes;
      hide Merged, Coherent;
    case Select(p) =>
      hide Coherent;
    case _ =>
      hide Coherent;
  }

  lemma DeliverKeepsOk(r: Run, c: MergeContext, snapshot: StatusResult, stats: Option<nat>)
    requires RunOk(r) && r.job.Some?
    ensures RunOk(Next(r, Deliver(c, snapshot, stats)))
  {
    var (generation, input) := r.job.value;
    var (after, accepted) := CompletePrepared(r.model, Prepare(generation, input, c, snapshot, stats));
    if accepted {
      assert ROOT !in r.model.tree.nodes;
      PreparedRefinesDirect(r, c, snapshot, stats);
      MergeKeepsCoherent(r.model.tree, c, EntrySet(snapshot.value));
      hide Merged, Reselected, Coherent;
    } else {
      hide Merged, Reselected, Coherent;
    }
  }

  ghost predicate Legal(r: Run, es: seq<Event>)
    decreases |es|
  {
    es == [] || (Enabled(r, es[0]) && Legal(Next(r, es[0]), es[1..]))
  }

  function After(r: Run, es: seq<Event>): Run
    decreases |es|
  {
    if es == [] then r else After(Next(r, es[0]), es[1..])
  }

  /** One more event is one more step. */
  lemma {:induction false} AfterLast(r: Run, es: seq<Event>, e: Event)
    ensures After(r, es + [e]) == Next(After(r, es), e)
    ensures Legal(r, es + [e]) <==> Legal(r, es) && Enabled(After(r, es), e)
    decreases |es|
  {
    hide Next, Enabled;
    if es == [] {
      assert (es + [e])[1..] == [];
    } else {
      AfterLast(Next(r, es[0]), es[1..], e);
      assert (es + [e])[1..] == es[1..] + [e];
    }
  }

  const START := Run(ModelState(EMPTY, IDLE, None, false, None, 0), None)

  lemma {:induction false} RunKeepsOk(r: Run, es: seq<Event>)
    requires RunOk(r) && Legal(r, es)
    ensures RunOk(After(r, es))
    decreases |es|
  {
    if es != [] {
      NextKeepsOk(r, es[0]);
      RunKeepsOk(Next(r, es[0]), es[1..]);
    }
  }

  /** Whatever requests, loads, selections, panics and completions came before, an accepted prepared
      merge equals the direct one, and a good snapshot of the running generation is not lost. */
  lemma PreparedMergeTheorem(es: seq<Event>, c: MergeContext, s: Snapshot, stats: Option<nat>)
    requires Legal(START, es)
    requires After(START, es).model.gate.running.Some?
    ensures var r := After(START, es);
            r.job.Some?
    ensures var r := After(START, es);
            var (generation, input) := r.job.value;
            var (after, accepted) := CompletePrepared(r.model, Prepare(generation, input, c, Ok(s), stats));
            var direct := CompleteDirect(r.model, generation, c, Ok(s)).0;
            && (accepted ==>
                  after.tree == direct.tree == Merged(r.model.tree, c, EntrySet(s)) && after.stale == s.stale)
            && (!accepted ==> Pending(after.gate) && after.gate.running.None?)
  {
    assert RunOk(START);
    RunKeepsOk(START, es);
    var r := After(START, es);
    PreparedRefinesDirect(r, c, Ok(s), stats);
    SnapshotNotLost(r, c, s, stats);
    hide After, RunOk, Merged, Reselected;
  }

  // ---------------------------------------------------------------- what becomes of one request

  /** The run after a request was made and its worker accepted. */
  function Working(r: Run): Run {
    Next(Next(r, Request), Begin(true))
  }

  /** A request is worked on with the tree as it is now; a start that was not accepted loses nothing. */
  lemma RequestWorks(r: Run)
    requires RunOk(r) && r.model.gate.running.None?
    ensures var w := Working(r);
            && w.job == Some((r.model.gate.requested + 1, MergeInput(r.model.tree, r.model.revision)))
            && w.model.gate.running == Some(w.model.gate.requested)
            && w.model.gate.requested == r.model.gate.requested + 1
            && w.model == r.model.(gate := w.model.gate) && RunOk(w)
            && Next(Next(r, Request), Begin(false)) == Next(r, Request)
  {
    NextKeepsOk(r, Request);
    NextKeepsOk(Next(r, Request), Begin(true));
    hide Coherent;
  }

  /** Its good snapshot is merged into the tree, with nothing left to ask; a bad one leaves its message. */
  lemma RequestServed(r: Run, c: MergeContext, s: Snapshot, stats: Option<nat>, message: string)
    requires RunOk(r) && r.model.gate.running.None?
    ensures var d := Next(Working(r), Deliver(c, Ok(s), stats));
            && d.model == ModelState(Merged(r.model.tree, c, EntrySet(s)), d.model.gate, None, s.stale, stats,
                                     r.model.revision)
            && !Pending(d.model.gate) && d.model.gate.running.None? && d.job.None?
    ensures var d := Next(Working(r), Deliver(c, Err(message), stats));
            && d.model == r.model.(notice := Some(message), gate := d.model.gate)
            && !Pending(d.model.gate) && d.model.gate.running.None? && d.job.None?
  {
    RequestWorks(r);
    MergeIgnoresSelection(r.model.tree, r.model.tree, c, EntrySet(s));
    hide Merged, Reselected, Coherent, Working, EntrySet;
  }

  /** So it is when the snapshot is merged directly. */
  lemma RequestServedDirectly(r: Run, c: MergeContext, s: Snapshot, message: string)
    requires RunOk(r) && r.model.gate.running.None?
    ensures var d := Next(Working(r), Direct(r.model.gate.requested + 1, c, Ok(s)));
            && d.model == ModelState(Merged(r.model.tree, c, EntrySet(s)), d.model.gate, None, s.stale, None,
                                     r.model.revision + 1)
            && !Pending(d.model.gate) && d.model.gate.running.None?
    ensures var d := Next(Working(r), Direct(r.model.gate.requested + 1, c, Err(message)));
            d.model == r.model.(notice := Some(message), gate := d.model.gate) && !Pending(d.model.gate)
  {
    RequestWorks(r);
    hide Merged, Reselected, Coherent, Working, EntrySet;
  }

  /** The next start takes along the tree as it is. */
  predicate AsksAgain(r: Run) {
    Next(r, Begin(true)).job == Some((r.model.gate.requested, MergeInput(r.model.tree, r.model.revision)))
  }

  /** A load meanwhile stays, and the snapshot is asked for again. */
  lemma RequestOutdated(r: Run, c: MergeContext, snapshot: StatusResult, stats: Option<nat>, l: Listing)
    requires RunOk(r) && r.model.gate.running.None?
    ensures var d := Next(Next(Working(r), Load(l)), Deliver(c, snapshot, stats));
            && d.model == r.model.(tree := Loaded(r.model.tree, l), gate := d.model.gate,
                                   revision := r.model.revision + 1)
            && AsksAgain(d)
  {
    RequestWorks(r);
    hide Merged, Loaded, Reselected, Coherent, Working, Prepare;
    var (generation, input) := Working(r).job.value;
    PreparedRevision(generation, input, c, snapshot, stats);
  }

  lemma PreparedRevision(generation: nat, input: MergeInput, c: MergeContext, snapshot: StatusResult,
                         stats: Option<nat>)
    ensures var p := Prepare(generation, input, c, snapshot, stats);
            p.revision == input.revision && p.generation == generation
  {
  }

  /** So it is after a panic, which changes nothing else. */
  lemma RequestPanics(r: Run)
    requires RunOk(r) && r.model.gate.running.None?
    ensures var d := Next(Working(r), Panic);
            d.model == r.model.(gate := d.model.gate) && d.job.None? && AsksAgain(d)
  {
    RequestWorks(r);
    hide Coherent, Working;
  }

  /** A new tree, a selection and a stale mark change what they name, and a new tree the revision. */
  lemma OtherEvents(r: Run, t: TreeState, p: Path)
    ensures Next(r, Replace(t)) == r.(model := r.model.(tree := t, revision := r.model.revision + 1))
    ensures Next(r, Select(p)) ==
            if p in r.model.tree.nodes then r.(model := r.model.(tree := r.model.tree.(selection := Some(p)))) else r
    ensures Next(r, MarkStale) == r.(model := r.model.(stale := true))
  {
  }

  // ---------------------------------------------------------------- the model object

  class Model {
    var tree: Files
    const refresh: RefreshCoordinator
    var failureNotice: Option<string>
    var statusIsStale: bool
    var diffStats: Option<nat>
    var treeRevision: nat

    ghost predicate Valid()
      reads this, tree, refresh
    {
      tree.Valid() && GateOk(refresh.State())
    }

    function State(): ModelState
      reads this, tree, refresh
    {
      ModelState(tree.State(), refresh.State(), failureNotice, statusIsStale, diffStats, treeRevision)
    }

    constructor ()
      ensures Valid() && State() == START.model
      ensures fresh(tree) && fresh(refresh)
    {
      tree := new Files();
      refresh := new RefreshCoordinator();
      failureNotice, statusIsStale, diffStats, treeRevision := None, false, None, 0;
    }

    method Select(path: Path) returns (selected: bool)
      requires Valid()
      modifies tree
      ensures Valid() && State() == Next(Run(old(State()), None), Event.Select(path)).model
      ensures selected == (path in tree.nodes)
    {
      hide ChildIndex, StatusesAgree;
      selected := tree.Select(path);
    }

    method ApplyDirectory(l: Listing)
      requires Valid() && ValidListing(l)
      modifies this, tree
      ensures Valid() && State() == Next(Run(old(State()), None), Load(l)).model
      ensures tree == old(tree)
    {
      hide Loaded, Coherent;
      tree.ApplyDirectory(l);
      treeRevision := treeRevision + 1;
    }

    method ReplaceTree(replacement: Files)
      requires Valid() && replacement.Valid()
      modifies this
      ensures Valid() && State() == Next(Run(old(State()), None), Replace(old(replacement.State()))).model
      ensures tree == replacement
    {
      hide Coherent;
      tree := replacement;
      treeRevision := treeRevision + 1;
    }

    method MarkStatusStale() returns (changed: bool)
      requires Valid()
      modifies this
      ensures Valid() && State() == Next(Run(old(State()), None), MarkStale).model
      ensures changed == !old(statusIsStale) && tree == old(tree)
    {
      hide Coherent;
      changed := !statusIsStale;
      statusIsStale := true;
    }

    /** Claims the next generation and captures the tree for its worker. */
    method BeginRefresh() returns (started: Option<nat>, input: MergeInput)
      requires Valid()
      modifies refresh
      ensures Valid() && State() == old(State()).(gate := Started(old(State()).gate).0)
      ensures started == Started(old(State()).gate).1
      ensures input == MergeInput(tree.State(), treeRevision)
    {
      hide Coherent;
      started := refresh.StartNext();
      input := MergeInput(tree.State(), treeRevision);
    }

    method CompletePreparedRefresh(p: Prepared) returns (accepted: bool)
      requires Valid() && (p.tree.Ok? ==> Coherent(p.tree.value.0))
      modifies this, refresh
      ensures Valid() && (State(), accepted) == CompletePrepared(old(State()), p)
    {
      hide Coherent;
      var current := refresh.Finish(p.generation);
      if !current {
        return false;
      }
      if p.revision != treeRevision {
        var _ := refresh.Request();
        return false;
      }
      if p.tree.Err? {
        failureNotice := Some(p.tree.error);
        return false;
      }
      var (prepared, stale) := p.tree.value;
      var selected := tree.selection;
      var installed := new Files.Clone(prepared);
      installed.RestoreSelectionFrom(selected);
      ReselectKeeps(prepared, selected);
      tree := installed;
      failureNotice, statusIsStale, diffStats := None, stale, p.stats;
      accepted := true;
    }

    method CompleteRefresh(generation: nat, c: MergeContext, snapshot: StatusResult) returns (accepted: bool)
      requires Valid()
      modifies this, tree, refresh
      ensures Valid() && (State(), accepted) == CompleteDirect(old(State()), generation, c, snapshot)
    {
      hide Coherent, Merged;
      var current := refresh.Finish(generation);
      if !current {
        return false;
      }
      match snapshot
      case Ok(s) =>
        tree.MergeWorkspaceStatus(s.entries, c);
        treeRevision := treeRevision + 1;
        failureNotice, statusIsStale, diffStats := None, s.stale, None;
        accepted := true;
      case Err(message) =>
        failureNotice := Some(message);
        accepted := false;
    }
  }

  lemma ReselectKeeps(t: TreeState, selection: Option<Path>)
    requires Coherent(t)
    ensures Coherent(Reselected(t, selection))
  {
  }
}
