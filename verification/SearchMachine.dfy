/** The search page queue and projection machine, as states and steps. */
module SearchMachine {
  import opened Wrappers
  import opened Paths
  import opened Tree
  import opened Rows
  import opened FilesTree
  import opened Search
  import opened Projection
  import opened Texts

  /** What a page worker took along. */
  datatype PageJob = PageJob(generation: nat, epoch: nat, index: TreeState, searchable: Searchable,
      directories: seq<Path>)

  /** What a projection worker took along. */
  datatype ProjectionJob = ProjectionJob(generation: nat, index: TreeState, searchable: Searchable, query: string)

  /** The case folding of the environment, for paths and for queries. */
  datatype Folding = Folding(path: Fold, query: string -> string)

  /** The directory queue with its running page. */
  datatype ScanState = ScanState(
    pending: seq<Path>,
    running: Option<(nat, nat)>,
    runningDirectories: seq<Path>,
    jobGeneration: nat,
    epoch: nat,
    scanned: nat,
    examined: nat,
    skipped: nat,
    complete: bool,
    truncated: bool,
    page: Option<PageJob>)

  /** What the filter shows and which projections were asked for. */
  datatype ShowState = ShowState(
    matches: set<Path>,
    expandedContext: set<Path>,
    rows: seq<Path>,
    requested: nat,
    submitted: nat,
    applied: nat,
    held: bool,
    job: Option<ProjectionJob>)

  datatype SearchState = SearchState(
    active: bool,
    editing: bool,
    query: string,
    index: TreeState,
    searchable: Searchable,
    scan: ScanState,
    show: ShowState)

  function VirtualCount(searchable: Searchable): nat {
    |set p | p in searchable && searchable[p].kind == Virtual|
  }

  /** A new search over the seeded index, its root still to scan. */
  function Opened(index: TreeState, fold: Fold, active: bool): SearchState {
    var searchable := SearchableOf(index.nodes, fold);
    SearchState(active, true, "", index, searchable,
                ScanState([ROOT], None, [], 0, 0, |searchable|, 0, 0, false, false, None),
                ShowState({}, {}, [], 0, 0, 0, false, None))
  }

  function Rescan(q: ScanState, virtuals: nat): ScanState {
    q.(epoch := q.epoch + 1, running := None, runningDirectories := [], pending := [ROOT],
       scanned := virtuals, examined := 0, skipped := 0, complete := false, truncated := false)
  }

  function Restarted(s: SearchState): SearchState {
    s.(scan := Rescan(s.scan, VirtualCount(s.searchable)))
  }

  function PageSize(pending: seq<Path>): nat {
    if |pending| <= DIRECTORIES_PER_PAGE then |pending| else DIRECTORIES_PER_PAGE
  }

  /** Submits the next page of queued directories, with the index to load them into. */
  function Launch(q: ScanState, index: TreeState, searchable: Searchable, accepted: bool): ScanState {
    if q.running.Some? || q.complete then q
    else if q.scanned >= MAX_INDEX_ENTRIES || q.examined >= MAX_EXAMINED_ENTRIES then
      q.(truncated := true, complete := true, pending := [])
    else if q.pending == [] then q.(complete := true)
    else if !accepted then q
    else
      var n := PageSize(q.pending);
      q.(pending := q.pending[n..], running := Some((q.jobGeneration + 1, q.epoch)),
         runningDirectories := q.pending[..n], jobGeneration := q.jobGeneration + 1,
         page := Some(PageJob(q.jobGeneration + 1, q.epoch, index, searchable, q.pending[..n])))
  }

  function StartPage(s: SearchState, accepted: bool): SearchState {
    if s.active && (s.editing || s.query != "") then s.(scan := Launch(s.scan, s.index, s.searchable, accepted)) else s
  }

  function StartProjection(s: SearchState, accepted: bool): SearchState {
    if !s.active || s.query == "" || s.show.submitted >= s.show.requested || !accepted then s
    else
      s.(show := s.show.(submitted := s.show.requested, held := true,
                         job := Some(ProjectionJob(s.show.requested, s.index, s.searchable, s.query))))
  }

  function Outdated(v: ShowState, clearRows: bool): ShowState {
    var w := v.(held := false, requested := v.requested + 1);
    if clearRows then w.(matches := {}, expandedContext := {}, rows := []) else w
  }

  function QueueProjection(s: SearchState, clearRows: bool, accepted: bool): SearchState {
    if s.query == "" then s else StartProjection(s.(show := Outdated(s.show, clearRows)), accepted)
  }

  /** Without a filter the tree's own rows show, so the projection's are void. */
  function ClearProjection(s: SearchState): SearchState {
    s.(show := s.show.(held := false, requested := s.show.requested + 1, applied := s.show.requested + 1,
                       matches := {}, expandedContext := {}))
  }

  /** What a page worker brings back. */
  datatype PageOutcome = PageOutcome(
    listings: seq<Listing>, reached: nat, examined: nat, skipped: nat, truncated: bool, cancelled: bool)

  /** The held page is the running one, of the current epoch, and it was not cancelled. */
  predicate Accepts(q: ScanState, o: PageOutcome) {
    q.page.Some? && q.running == Some((q.page.value.generation, q.page.value.epoch))
    && q.page.value.epoch == q.epoch && !o.cancelled
  }

  /** The running page is over. */
  function Landed(q: ScanState): ScanState {
    q.(page := None, running := None, runningDirectories := [])
  }

  /** The queue after an uncancelled page: what it discovered goes to the back. */
  function Advanced(q: ScanState, o: PageOutcome): ScanState {
    var queue := q.pending + Discovered(o.listings);
    Landed(q).(pending := if o.truncated then [] else queue,
               scanned := q.scanned + EntryCount(o.listings), examined := q.examined + o.examined,
               skipped := q.skipped + o.skipped,
               truncated := q.truncated || o.truncated,
               complete := q.complete || o.truncated || queue == [])
  }

  /** An accepted page replaces the index with the one its worker loaded into. */
  function AcceptPage(s: SearchState, j: PageJob, o: PageOutcome, fold: Fold): SearchState {
    var index := LoadAll(j.index, o.listings);
    s.(index := index, searchable := Refreshed(j.searchable, o.listings, index.nodes, fold),
        scan := Advanced(s.scan, o))
  }

  function CompletePage(s: SearchState, o: PageOutcome, fold: Fold, projected: bool, accepted: bool): SearchState {
    var q := s.scan;
    if q.page.None? then s
    else if q.running != Some((q.page.value.generation, q.page.value.epoch)) then s.(scan := q.(page := None))
    else if q.page.value.epoch != q.epoch then StartPage(s.(scan := Landed(q)), accepted)
    else if o.cancelled then s.(scan := Landed(q).(pending := q.runningDirectories + q.pending))
    else StartPage(QueueProjection(AcceptPage(s, q.page.value, o, fold), false, projected), accepted)
  }

  /** A panicked page gives up its directories and ends the scan of its epoch. */
  function LosePage(q: ScanState): ScanState {
    if q.page.Some? && q.running.Some? && q.running.value.0 == q.page.value.generation then
      Landed(q).(complete := q.complete || q.running.value.1 == q.epoch)
    else q.(page := None)
  }

  function FirstMatch(rows: seq<Path>, matches: set<Path>): Option<Path> {
    if rows == [] then None else if rows[0] in matches then Some(rows[0]) else FirstMatch(rows[1..], matches)
  }

  predicate Current(s: SearchState) {
    s.show.job.Some? && s.show.job.value.generation == s.show.requested && s.query != ""
  }

  /** The first matching row, when the selection is not itself a match. */
  function Reselect(t: TreeState, p: Projected): TreeState {
    var first := FirstMatch(p.rows, p.matches);
    if (t.selection.None? || t.selection.value !in p.matches) && first.Some? && first.value in t.nodes
    then t.(selection := first) else t
  }

  /** A finished projection is shown if nothing was requested since and the filter is still on. */
  function CompleteProjection(s: SearchState, finished: bool, f: Folding): SearchState
    requires s.show.job.Some? ==> ROOT !in s.show.job.value.index.nodes
  {
    if s.show.job.None? then s
    else if !Current(s) then s.(show := s.show.(job := None))
    else if !finished then s.(show := s.show.(job := None, held := false))
    else
      var j := s.show.job.value;
      var p := ProjectionOf(j.index.nodes, j.searchable, f.query(j.query));
      s.(index := Reselect(s.index, p),
         show := s.show.(job := None, held := false, applied := j.generation, matches := p.matches,
                         expandedContext := p.expandedContext, rows := p.rows))
  }

  function LoseProjection(v: ShowState): ShowState {
    if v.job.Some? && v.job.value.generation == v.requested then v.(job := None, held := false, applied := v.requested)
    else v.(job := None)
  }

  /** Pausing requeues a running page's directories and outdates both workers. */
  function PausedScan(q: ScanState): ScanState {
    if q.running.None? then q
    else q.(running := None, runningDirectories := [], pending := q.runningDirectories + q.pending,
        epoch := q.epoch + 1)
  }

  function Paused(s: SearchState): SearchState {
    s.(active := false, scan := PausedScan(s.scan),
       show := s.show.(held := false, requested := if s.show.held then s.show.requested + 1 else s.show.requested))
  }

  /** The status overlay of the tree is copied into the index. */
  function OverlayChanged(s: SearchState, source: TreeState, fold: Fold, projected: bool): SearchState {
    var index := Synced(s.index, source);
    QueueProjection(s.(index := index, searchable := WithVirtuals(s.searchable, index.nodes, fold)), false, projected)
  }

  function Typed(s: SearchState, added: string, projected: bool, accepted: bool): SearchState {
    if added == "" then s else StartPage(QueueProjection(s.(query := s.query + added), true, projected), accepted)
  }

  function Backspaced(s: SearchState, projected: bool): SearchState {
    if s.query == "" then s
    else if |s.query| == 1 then ClearProjection(s.(query := ""))
    else QueueProjection(s.(query := s.query[..|s.query| - 1]), true, projected)
  }

  function Emptied(s: SearchState, keepEditing: bool): SearchState {
    var t := s.(query := "", editing := keepEditing);
    if s.query != "" || s.editing != keepEditing then ClearProjection(t) else t
  }

  datatype Event =
    | Begin(accepted: bool)
    | Input(added: string, projected: bool, accepted: bool)
    | Backspace(projected: bool)
    | Clear(keepEditing: bool)
    | Commit
    | PageDone(outcome: PageOutcome, projected: bool, accepted: bool)
    | PagePanicked(projected: bool, accepted: bool)
    | ProjectionDone(finished: bool)
    | ProjectionPanicked(projected: bool, accepted: bool)
    | Restart(accepted: bool)
    | Overlay(source: TreeState, projected: bool)
    | Select(path: Path)
    | Pause
    | Resume(projected: bool, accepted: bool)
    | Retry(projected: bool, accepted: bool)

  function Next(s: SearchState, e: Event, f: Folding): SearchState
    requires s.show.job.Some? ==> ROOT !in s.show.job.value.index.nodes
  {
    match e
    case Begin(accepted) => StartPage(s.(editing := true), accepted)
    case Input(added, projected, accepted) => Typed(s, added, projected, accepted)
    case Backspace(projected) => Backspaced(s, projected)
    case Clear(keepEditing) => Emptied(s, keepEditing)
    case Commit => s.(editing := false)
    case PageDone(o, projected, accepted) => CompletePage(s, o, f.path, projected, accepted)
    case PagePanicked(projected, accepted) =>
      StartProjection(StartPage(s.(scan := LosePage(s.scan)), accepted), projected)
    case ProjectionDone(finished) => CompleteProjection(s, finished, f)
    case ProjectionPanicked(projected, accepted) =>
      StartProjection(StartPage(s.(show := LoseProjection(s.show)), accepted), projected)
    case Restart(accepted) => StartPage(Restarted(s), accepted)
    case Overlay(source, projected) => OverlayChanged(s, source, f.path, projected)
    case Select(p) => if p in s.index.nodes then s.(index := s.index.(selection := Some(p))) else s
    case Pause => Paused(s)
    case Resume(projected, accepted) => StartProjection(StartPage(s.(active := true), accepted), projected)
    case Retry(projected, accepted) => StartProjection(StartPage(s, accepted), projected)
  }

  /** What the environment respects: only held jobs come back, a page lists directories of its job in
      order and, unless cut short, lists or skips each of them, and overlays come from coherent trees.
      Older pages and projections come back too; they fail the generation tests and change nothing. */
  ghost predicate Enabled(s: SearchState, e: Event) {
    match e
    case PageDone(o, _, _) => s.scan.page.Some? && Plausible(s.scan.page.value, o)
    case PagePanicked(_, _) => s.scan.page.Some?
    case ProjectionDone(_) => s.show.job.Some?
    case ProjectionPanicked(_, _) => s.show.job.Some?
    case Overlay(source, _) => Coherent(source)
    case _ => true
  }

  ghost predicate Plausible(j: PageJob, o: PageOutcome) {
    && ValidListings(o.listings)
    && o.reached <= |j.directories|
    && FromDirectories(o.listings, j.directories[..o.reached])
    && (!o.cancelled && !o.truncated ==> |o.listings| + o.skipped == |j.directories|)
  }

  // ---------------------------------------------------------------- the directory queue

  function Queue(q: ScanState): seq<Path> {
    q.runningDirectories + q.pending
  }

  predicate NoRepeats(q: seq<Path>) {
    forall i, j :: 0 <= i < j < |q| ==> q[i] != q[j]
  }

  /** No entry repeats and none is above another. */
  predicate Antichain(q: seq<Path>) {
    && NoRepeats(q)
    && forall a, b :: a in q && b in q && a <= b ==> a == b
  }

  /** No queued directory is, or is above, one that was listed. */
  predicate Ahead(q: seq<Path>, listed: set<Path>) {
    forall a, d :: a in q && d in listed ==> !(a <= d)
  }

  /** The running fields name the current epoch, the newest job and its directories. */
  predicate PageOk(q: ScanState) {
    && (q.running.None? ==> q.runningDirectories == [])
    && (q.running.Some? ==>
          && q.running.value == (q.jobGeneration, q.epoch)
          && q.page.Some?
          && (q.page.value.generation, q.page.value.epoch) == q.running.value
          && q.page.value.directories == q.runningDirectories)
    && (q.page.Some? ==> q.page.value.generation <= q.jobGeneration)
  }

  /** Every discovered directory hangs directly under a listed one, and is discovered once. */
  lemma {:induction false} DiscoveredOnce(ls: seq<Listing>)
    requires ValidListings(ls) && DistinctDirectories(ls)
    ensures forall c :: c in Discovered(ls) ==>
              c != ROOT && exists i :: 0 <= i < |ls| && Parent(c) == ls[i].directory
    ensures NoRepeats(Discovered(ls))
  {
    if ls != [] {
      var n := |ls| - 1;
      var front, back := Discovered(ls[..n]), DirectoriesIn(ls[n]);
      DiscoveredOnce(ls[..n]);
      SortedDistinct(back);
      forall c | c in Discovered(ls) ensures c != ROOT && exists i :: 0 <= i < |ls| && Parent(c) == ls[i].directory {
        if c in back {
          assert Parent(c) == ls[n].directory;
        } else {
          assert c in front;
          var i :| 0 <= i < n && Parent(c) == ls[..n][i].directory;
          assert Parent(c) == ls[i].directory;
        }
      }
      forall i, j | 0 <= i < j < |Discovered(ls)| ensures Discovered(ls)[i] != Discovered(ls)[j] {
        if i < |front| <= j {
          assert Discovered(ls)[i] in front && Discovered(ls)[j] in back;
        }
      }
    }
  }

  function ListedBy(ls: seq<Listing>): set<Path> {
    set i | 0 <= i < |ls| :: ls[i].directory
  }

  /** `c` was found in `r`, `p` is queued beside `r`: neither is above the other. */
  lemma ChildApart(q: seq<Path>, r: Path, c: Path, p: Path)
    requires Antichain(q) && r in q && p in q && p != r
    requires c != ROOT && Parent(c) == r
    ensures !(p <= c) && !(c <= p)
  {
    ParentIs(r, c);
  }

  /** Found under entries of `running`, each at one place. */
  ghost predicate FoundIn(found: seq<Path>, running: seq<Path>) {
    && NoRepeats(found)
    && forall c :: c in found ==> c != ROOT && Parent(c) in running
  }

  lemma DiscoveredIn(ls: seq<Listing>, running: seq<Path>)
    requires ValidListings(ls) && DistinctDirectories(ls)
    requires forall i :: 0 <= i < |ls| ==> ls[i].directory in running
    ensures FoundIn(Discovered(ls), running)
    ensures forall d :: d in ListedBy(ls) ==> d in running
  {
    DiscoveredOnce(ls);
    hide Discovered;
    forall c | c in Discovered(ls) ensures c != ROOT && Parent(c) in running {
      var i :| 0 <= i < |ls| && Parent(c) == ls[i].directory;
    }
  }

  lemma NextApart(running: seq<Path>, pending: seq<Path>, found: seq<Path>, a: Path, b: Path)
    requires Antichain(running + pending) && FoundIn(found, running)
    requires a in pending + found && b in pending + found && a <= b
    ensures a == b
  {
    var q := running + pending;
    PendingApart(running, pending);
    assert forall c :: c in found ==> Parent(c) in q;
    assert forall c :: c in pending ==> c in q;
    if b in found {
      if a !in found { ChildApart(q, Parent(b), b, a); }
    } else if a in found {
      ChildApart(q, Parent(a), a, b);
    }
  }

  lemma NextAntichain(running: seq<Path>, pending: seq<Path>, found: seq<Path>)
    requires Antichain(running + pending) && FoundIn(found, running)
    ensures Antichain(pending + found)
  {
    NextDistinct(running, pending, found);
    forall a, b | a in pending + found && b in pending + found && a <= b ensures a == b {
      NextApart(running, pending, found, a, b);
    }
  }

  lemma NextAhead(running: seq<Path>, pending: seq<Path>, found: seq<Path>, listed: set<Path>, more: set<Path>)
    requires Antichain(running + pending) && FoundIn(found, running)
    requires Ahead(running + pending, listed) && forall d :: d in more ==> d in running
    ensures Ahead(pending + found, listed + more)
    ensures more !! listed
  {
    var q := running + pending;
    assert forall p :: p in running || p in pending <==> p in q;
    PendingApart(running, pending);
    forall a, d | a in pending + found && d in listed + more ensures !(a <= d) {
      if a in found {
        ParentIs(Parent(a), a);
      }
    }
    forall d | d in more ensures d !in listed {
      assert d <= d;
    }
  }

  /** Replacing listed directories by what was found in them keeps the queue an antichain ahead of
      everything listed, and nothing is listed a second time. */
  lemma QueueAdvances(running: seq<Path>, pending: seq<Path>, ls: seq<Listing>, listed: set<Path>)
    requires Antichain(running + pending) && Ahead(running + pending, listed)
    requires ValidListings(ls) && DistinctDirectories(ls)
    requires forall i :: 0 <= i < |ls| ==> ls[i].directory in running
    ensures Antichain(pending + Discovered(ls))
    ensures Ahead(pending + Discovered(ls), listed + ListedBy(ls))
    ensures ListedBy(ls) !! listed
  {
    DiscoveredIn(ls, running);
    hide Discovered, ListedBy;
    NextAntichain(running, pending, Discovered(ls));
    NextAhead(running, pending, Discovered(ls), listed, ListedBy(ls));
  }

  lemma PendingApart(running: seq<Path>, pending: seq<Path>)
    requires NoRepeats(running + pending)
    ensures forall p :: p in pending ==> p !in running
    ensures NoRepeats(running) && NoRepeats(pending)
  {
    var q := running + pending;
    forall p | p in pending ensures p !in running {
      var i :| 0 <= i < |pending| && pending[i] == p;
      assert q[|running| + i] == p;
      forall j | 0 <= j < |running| ensures running[j] != p {
        assert q[j] == running[j];
      }
    }
    forall i, j | 0 <= i < j < |running| ensures running[i] != running[j] {
      assert q[i] == running[i] && q[j] == running[j];
    }
    forall i, j | 0 <= i < j < |pending| ensures pending[i] != pending[j] {
      assert q[|running| + i] == pending[i] && q[|running| + j] == pending[j];
    }
  }

  lemma NextDistinct(running: seq<Path>, pending: seq<Path>, found: seq<Path>)
    requires Antichain(running + pending) && FoundIn(found, running)
    ensures NoRepeats(pending + found)
  {
    PendingApart(running, pending);
    var q, next := running + pending, pending + found;
    forall i, j | 0 <= i < j < |next| ensures next[i] != next[j] {
      if i < |pending| <= j {
        assert next[i] in pending && next[j] in found;
        ChildApart(q, Parent(next[j]), next[j], next[i]);
      }
    }
  }
}
