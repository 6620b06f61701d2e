/** What single events do to the search that filters the files view. */
module SearchSteps {
  import opened Wrappers
  import opened Paths
  import opened Tree
  import opened Rows
  import opened FilesTree
  import opened Search
  import opened Projection
  import opened Texts
  import opened SearchMachine
  import opened SearchRuns

  // ---------------------------------------------------------------- a finished projection

  /** A row answers the current query: its folded path has the folded query in it. */
  predicate Answers(s: SearchState, f: Folding, p: Path) {
    p in s.searchable && ContainsText(f.path(p), f.query(s.query))
  }

  /** A row is on show for an answer: it is one, or one hangs under it. */
  ghost predicate OnShow(s: SearchState, f: Folding, p: Path) {
    Answers(s, f, p) || (p != ROOT && exists m :: Answers(s, f, m) && HangsUnder(s.index.nodes, m, p))
  }

  /** The first of the rows that is an answer. */
  ghost predicate FirstAnswer(rows: seq<Path>, matches: set<Path>, p: Path) {
    exists i :: 0 <= i < |rows| && rows[i] == p && p in matches && forall j :: 0 <= j < i ==> rows[j] !in matches
  }

  /** The projection of the current query is on show: its answers with all they hang under, in order and once
      each, the directories among them open. */
  ghost predicate ShowsAnswers(s: SearchState, f: Folding, v: ShowState) {
    && ROOT !in s.index.nodes && (forall p :: p in v.matches <==> Answers(s, f, p))
    && (forall p :: p in v.rows <==> OnShow(s, f, p))
    && Preorder(s.index.nodes, v.rows)
    && (forall i, j :: 0 <= i < j < |v.rows| ==> v.rows[i] != v.rows[j])
    && (forall p :: p in v.expandedContext <==> OnShow(s, f, p) && IsDirectory(s.index.nodes, p))
  }

  lemma {:induction false} FirstMatchMeaning(rows: seq<Path>, matches: set<Path>)
    ensures match FirstMatch(rows, matches)
            case Some(p) => FirstAnswer(rows, matches, p)
            case None => forall p :: p in rows ==> p !in matches
  {
    if rows != [] && rows[0] !in matches {
      FirstMatchMeaning(rows[1..], matches);
      if FirstMatch(rows[1..], matches).Some? {
        var i :| && 0 <= i < |rows| - 1 && rows[1..][i] == FirstMatch(rows[1..], matches).value
                 && forall j :: 0 <= j < i ==> rows[1..][j] !in matches;
        assert forall j :: 0 < j <= i ==> rows[j] == rows[1..][j - 1];
        assert rows[i + 1] == FirstMatch(rows, matches).value;
      }
    }
  }

  lemma AnswersAre(s: SearchState, f: Folding)
    requires Tracks(s.searchable, s.index.nodes, f.path) && ROOT !in s.index.nodes
    ensures var matches := Matches(s.searchable, f.query(s.query));
            && (forall p :: p in matches <==> Answers(s, f, p))
            && forall p :: p in Included(s.index.nodes, matches) <==> OnShow(s, f, p)
  {
    var nodes, matches := s.index.nodes, Matches(s.searchable, f.query(s.query));
    forall p ensures p in matches <==> Answers(s, f, p) {}
    forall p ensures p in Included(nodes, matches) <==> OnShow(s, f, p) {
      forall m ensures p in DisplayAncestors(nodes, m) <==> p != ROOT && HangsUnder(nodes, m, p) {
        AncestorsMeaning(nodes, m, p);
      }
      hide HangsUnder, DisplayAncestors, Matches, Answers;
    }
  }

  /** The projection of the current index and map shows the answers to the current query. */
  lemma ProjectionShows(s: SearchState, f: Folding, v: ShowState)
    requires ParentClosed(s.index.nodes) && Tracks(s.searchable, s.index.nodes, f.path)
    requires Projected(v.matches, v.expandedContext, v.rows)
             == ProjectionOf(s.index.nodes, s.searchable, f.query(s.query))
    ensures ShowsAnswers(s, f, v)
  {
    var nodes := s.index.nodes;
    ProjectionMeaning(nodes, s.searchable, f.query(s.query));
    AnswersAre(s, f);
    assert v.matches == Matches(s.searchable, f.query(s.query));
    hide Preorder, Included, Matches, OnShow, Answers, ProjectionOf, ParentClosed, Tracks;
  }

  /** A selection that is no match moves to the first matching row. */
  lemma ReselectMeaning(t: TreeState, p: Projected)
    requires forall q :: q in p.matches ==> q in p.rows && q in t.nodes
    ensures var now := Reselect(t, p).selection;
            && Reselect(t, p) == t.(selection := now)
            && if (t.selection.Some? && t.selection.value in p.matches) || p.matches == {} then now == t.selection
               else now.Some? && FirstAnswer(p.rows, p.matches, now.value)
  {
    FirstMatchMeaning(p.rows, p.matches);
    if p.matches != {} {
      var q :| q in p.matches;
      assert q in p.rows;
    }
    hide FirstMatch;
  }

  /** A finished projection of the newest request answers it: everything asked is answered, the answers to the
      current query are on show, and a selection that is none of them moves to the first. */
  lemma ProjectedMeaning(r: Run, f: Folding)
    requires RunOk(r, f) && r.gentle && r.state.show.job.Some? && r.state.query != ""
    requires r.state.show.job.value.generation == r.state.show.requested
    ensures var (s, t) := (r.state, Next(r.state, ProjectionDone(true), f));
            && t.show.applied == t.show.requested == s.show.requested
            && ShowsAnswers(s, f, t.show)
            && (if (s.index.selection.Some? && s.index.selection.value in t.show.matches) || t.show.matches == {} then
                  t.index.selection == s.index.selection
                else t.index.selection.Some? && FirstAnswer(t.show.rows, t.show.matches, t.index.selection.value))
            && t.show.job.None? && !t.show.held && t.show.submitted == s.show.submitted
            && t == s.(index := s.index.(selection := t.index.selection), show := t.show)
  {
    var s := r.state;
    var p := ProjectionOf(s.index.nodes, s.searchable, f.query(s.query));
    var v := s.show.(job := None, held := false, applied := s.show.requested, matches := p.matches,
                     expandedContext := p.expandedContext, rows := p.rows);
    ProjectionLands(r, f, p, v);
    assert ParentClosed(s.index.nodes) && Tracks(s.searchable, s.index.nodes, f.path);
    hide RunOk, Next, ProjectionOf, ParentClosed, ShowsAnswers, Reselect, FirstAnswer;
    ProjectionShows(s, f, v);
    AnswersCached(s, f, v);
    ReselectMeaning(s.index, p);
  }

  lemma AnswersCached(s: SearchState, f: Folding, v: ShowState)
    requires ShowsAnswers(s, f, v) && Tracks(s.searchable, s.index.nodes, f.path)
    ensures forall q :: q in v.matches ==> q in v.rows && q in s.index.nodes
  {
    hide Preorder, HangsUnder, ContainsText;
  }

  lemma ProjectionLands(r: Run, f: Folding, p: Projected, v: ShowState)
    requires RunOk(r, f) && r.state.show.job.Some? && r.state.query != ""
    requires r.state.show.job.value.generation == r.state.show.requested
    requires p == ProjectionOf(r.state.index.nodes, r.state.searchable, f.query(r.state.query))
    requires v == r.state.show.(job := None, held := false, applied := r.state.show.requested, matches := p.matches,
                                expandedContext := p.expandedContext, rows := p.rows)
    ensures Next(r.state, ProjectionDone(true), f) == r.state.(index := Reselect(r.state.index, p), show := v)
  {
    assert Captured(r.state);
    hide ProjectionOf, Reselect, ScanOk;
  }

  /** A projection that was outdated, or cancelled, leaves what is on show. */
  lemma UnprojectedMeaning(s: SearchState, finished: bool, f: Folding)
    requires s.show.job.Some? && ROOT !in s.show.job.value.index.nodes
    requires !finished || s.query == "" || s.show.job.value.generation != s.show.requested
    ensures var t := Next(s, ProjectionDone(finished), f);
            t == s.(show := s.show.(job := None, held := t.show.held))
            && t.show.held == (s.show.held && (s.query == "" || s.show.job.value.generation != s.show.requested))
  {
    hide ProjectionOf, Reselect;
  }

  // ---------------------------------------------------------------- starting workers

  /** A search that is on looks for the next page: it gives up at its bounds, is through when nothing is queued,
      and else takes up to 64 directories off the queue with the index as it is, if the worker takes them. */
  ghost predicate PageStartedAs(s: SearchState, accepted: bool, t: SearchState) {
    var (q, r) := (s.scan, t.scan);
    && t == s.(scan := r)
    && if !s.active || (!s.editing && s.query == "") || q.running.Some? || q.complete then r == q
       else if q.scanned >= 50_000 || q.examined >= 200_000 then
         r == q.(pending := [], truncated := true, complete := true)
       else if q.pending == [] then r == q.(complete := true)
       else if !accepted then r == q
       else
         && q.pending == r.runningDirectories + r.pending
         && 0 < |r.runningDirectories| <= 64 && (|r.runningDirectories| == 64 || r.pending == [])
         && r.page == Some(PageJob(q.jobGeneration + 1, q.epoch, s.index, s.searchable, r.runningDirectories))
         && r == q.(pending := r.pending, runningDirectories := r.runningDirectories, page := r.page,
                    running := Some((q.jobGeneration + 1, q.epoch)), jobGeneration := q.jobGeneration + 1)
  }

  lemma PageStartedMeaning(s: SearchState, accepted: bool)
    ensures PageStartedAs(s, accepted, StartPage(s, accepted))
  {
    var q := s.scan;
    if q.pending != [] { assert q.pending == q.pending[..PageSize(q.pending)] + q.pending[PageSize(q.pending)..]; }
  }

  /** A projection that was asked for and not submitted takes along the index, the map and the query. */
  ghost predicate ProjectionStartedAs(s: SearchState, accepted: bool, t: SearchState) {
    if s.active && s.query != "" && s.show.submitted < s.show.requested && accepted then
      t == s.(show := s.show.(submitted := s.show.requested, held := true,
                              job := Some(ProjectionJob(s.show.requested, s.index, s.searchable, s.query))))
    else t == s
  }

  lemma ProjectionStartedMeaning(s: SearchState, accepted: bool)
    ensures ProjectionStartedAs(s, accepted, StartProjection(s, accepted))
  {
  }

  /** Both, the page first. */
  ghost predicate BothStartedAs(s: SearchState, accepted: bool, projected: bool, t: SearchState) {
    exists u :: PageStartedAs(s, accepted, u) && ProjectionStartedAs(u, projected, t)
  }

  lemma BothStartedMeaning(s: SearchState, accepted: bool, projected: bool)
    ensures BothStartedAs(s, accepted, projected, StartProjection(StartPage(s, accepted), projected))
  {
    PageStartedMeaning(s, accepted);
    ProjectionStartedMeaning(StartPage(s, accepted), projected);
    hide StartPage, StartProjection, PageStartedAs, ProjectionStartedAs;
  }

  /** With a query, a new projection is asked for, and what is on show may be emptied until it comes. */
  ghost predicate AskedAs(s: SearchState, emptied: bool, projected: bool, t: SearchState) {
    if s.query == "" then t == s
    else
      var v := s.show.(held := false, requested := s.show.requested + 1);
      var w := if emptied then v.(matches := {}, expandedContext := {}, rows := []) else v;
      ProjectionStartedAs(s.(show := w), projected, t)
  }

  lemma AskedMeaning(s: SearchState, emptied: bool, projected: bool)
    ensures AskedAs(s, emptied, projected, QueueProjection(s, emptied, projected))
  {
  }

  // ---------------------------------------------------------------- typing

  /** The filter is off: nothing matches, and every projection counts as answered. */
  function Unfiltered(s: SearchState): SearchState {
    var n := s.show.requested + 1;
    s.(show := s.show.(held := false, requested := n, applied := n, matches := {}, expandedContext := {}))
  }

  /** Typing lengthens the query, empties the view, and asks for a projection and the next page. */
  lemma TypedMeaning(s: SearchState, added: string, projected: bool, accepted: bool, f: Folding)
    requires s.show.job.Some? ==> ROOT !in s.show.job.value.index.nodes
    ensures var t := Next(s, Input(added, projected, accepted), f);
            if added == "" then t == s
            else exists u :: AskedAs(s.(query := s.query + added), true, projected, u) && PageStartedAs(u, accepted, t)
  {
    AskedMeaning(s.(query := s.query + added), true, projected);
    PageStartedMeaning(QueueProjection(s.(query := s.query + added), true, projected), accepted);
    hide StartPage, QueueProjection, PageStartedAs, AskedAs;
  }

  /** Deleting the last character asks for a projection of what is left, or turns the filter off. */
  lemma BackspacedMeaning(s: SearchState, projected: bool, f: Folding)
    requires s.show.job.Some? ==> ROOT !in s.show.job.value.index.nodes
    ensures var (t, n) := (Next(s, Backspace(projected), f), |s.query|);
            if n == 0 then t == s
            else if n == 1 then t == Unfiltered(s.(query := ""))
            else AskedAs(s.(query := s.query[..n - 1]), true, projected, t)
  {
    if |s.query| > 0 { AskedMeaning(s.(query := s.query[..|s.query| - 1]), true, projected); }
    hide QueueProjection, AskedAs;
  }

  /** Clearing, committing, beginning and selecting. */
  lemma EditedMeaning(s: SearchState, keepEditing: bool, accepted: bool, p: Path, f: Folding)
    requires s.show.job.Some? ==> ROOT !in s.show.job.value.index.nodes
    ensures Next(s, Clear(keepEditing), f)
            == (if s.query == "" && s.editing == keepEditing then s
                else Unfiltered(s.(query := "", editing := keepEditing)))
    ensures Next(s, Commit, f) == s.(editing := false)
    ensures PageStartedAs(s.(editing := true), accepted, Next(s, Begin(accepted), f))
    ensures Next(s, Select(p), f) == (if p in s.index.nodes then s.(index := s.index.(selection := Some(p))) else s)
  {
    PageStartedMeaning(s.(editing := true), accepted);
    hide StartPage, PageStartedAs;
  }

  // ---------------------------------------------------------------- pages that come back

  /** The running page is over. */
  function PageOver(q: ScanState): ScanState {
    q.(page := None, running := None, runningDirectories := [])
  }

  /** What an accepted page leaves: the index and map it loaded into, what it found at the end of the queue, its
      counts, and the end of the scan where the page was cut short or the queue is empty. */
  ghost predicate PageTaken(s: SearchState, o: PageOutcome, fold: Fold, t: SearchState)
    requires s.scan.page.Some?
  {
    var (j, q, r) := (s.scan.page.value, s.scan, t.scan);
    && t == s.(index := LoadAll(j.index, o.listings), searchable := t.searchable, scan := r)
    && t.searchable == Refreshed(j.searchable, o.listings, t.index.nodes, fold)
    && r.pending == (if o.truncated then [] else q.pending + Discovered(o.listings))
    && r.truncated == (q.truncated || o.truncated)
    && r.complete == (q.complete || o.truncated || r.pending == [])
    && r.scanned == q.scanned + EntryCount(o.listings) && r.examined == q.examined + o.examined
    && r.skipped == q.skipped + o.skipped
    && r == PageOver(q).(pending := r.pending, truncated := r.truncated, complete := r.complete, scanned := r.scanned,
                         examined := r.examined, skipped := r.skipped)
  }

  /** A page is dropped if it is not the running one; of another epoch it makes room for the next; cancelled it
      goes back to the front of the queue; else it is taken, and a projection and the next page are asked for. */
  lemma PageMeaning(s: SearchState, o: PageOutcome, projected: bool, accepted: bool, f: Folding)
    requires s.scan.page.Some? && (s.show.job.Some? ==> ROOT !in s.show.job.value.index.nodes)
    ensures var (j, q, t) := (s.scan.page.value, s.scan, Next(s, PageDone(o, projected, accepted), f));
            if q.running != Some((j.generation, j.epoch)) then t == s.(scan := q.(page := None))
            else if j.epoch != q.epoch then PageStartedAs(s.(scan := PageOver(q)), accepted, t)
            else if o.cancelled then t == s.(scan := PageOver(q).(pending := q.runningDirectories + q.pending))
            else exists u, v :: && PageTaken(s, o, f.path, u) && AskedAs(u, false, projected, v)
                                && PageStartedAs(v, accepted, t)
  {
    PageStartedMeaning(s.(scan := PageOver(s.scan)), accepted);
    var u := AcceptPage(s, s.scan.page.value, o, f.path);
    TakenMeaning(s, o, f.path);
    AskedMeaning(u, false, projected);
    PageStartedMeaning(QueueProjection(u, false, projected), accepted);
    hide StartPage, QueueProjection, PageStartedAs, AskedAs, AcceptPage, PageTaken;
  }

  lemma TakenMeaning(s: SearchState, o: PageOutcome, fold: Fold)
    requires s.scan.page.Some?
    ensures PageTaken(s, o, fold, AcceptPage(s, s.scan.page.value, o, fold))
  {
    hide LoadAll, Refreshed, Discovered, EntryCount;
  }

  /** A page whose worker panicked is given up, which ends the scan of its epoch; a projection whose worker
      panicked counts as answered if it was the newest. */
  lemma PanickedMeaning(s: SearchState, projected: bool, accepted: bool, f: Folding)
    requires s.show.job.Some? ==> ROOT !in s.show.job.value.index.nodes
    ensures s.scan.page.Some? ==>
              var (j, q) := (s.scan.page.value, s.scan);
              var r := if q.running.Some? && q.running.value.0 == j.generation
                       then PageOver(q).(complete := q.complete || q.running.value.1 == q.epoch)
                       else q.(page := None);
              BothStartedAs(s.(scan := r), accepted, projected, Next(s, PagePanicked(projected, accepted), f))
    ensures s.show.job.Some? ==>
              var v := s.show;
              var w := if v.job.value.generation == v.requested
                       then v.(job := None, held := false, applied := v.requested) else v.(job := None);
              BothStartedAs(s.(show := w), accepted, projected, Next(s, ProjectionPanicked(projected, accepted), f))
  {
    BothStartedMeaning(s.(scan := LosePage(s.scan)), accepted, projected);
    BothStartedMeaning(s.(show := LoseProjection(s.show)), accepted, projected);
    hide StartPage, StartProjection, BothStartedAs;
  }

  // ---------------------------------------------------------------- restarts, pauses and overlays

  /** A restart is a new epoch with the root alone queued, counting the missing-file rows as scanned. */
  lemma RestartedMeaning(s: SearchState, accepted: bool, f: Folding)
    requires s.show.job.Some? ==> ROOT !in s.show.job.value.index.nodes
    ensures exists virtuals: set<Path> ::
              && (forall p :: p in virtuals <==> p in s.searchable && s.searchable[p].kind == Virtual)
              && PageStartedAs(s.(scan := ScanState([ROOT], None, [], s.scan.jobGeneration, s.scan.epoch + 1,
                                                    |virtuals|, 0, 0, false, false, s.scan.page)),
                               accepted, Next(s, Restart(accepted), f))
  {
    var virtuals := set p | p in s.searchable && s.searchable[p].kind == Virtual;
    assert VirtualCount(s.searchable) == |virtuals|;
    PageStartedMeaning(Restarted(s), accepted);
    hide StartPage, PageStartedAs;
  }

  /** A pause puts a running page back in front, in a new epoch, and outdates a held projection; on return, and
      on every retry, a page and a projection are started. */
  lemma PausedMeaning(s: SearchState, projected: bool, accepted: bool, f: Folding)
    requires s.show.job.Some? ==> ROOT !in s.show.job.value.index.nodes
    ensures var q := s.scan;
            var r := if q.running.None? then q
                     else q.(running := None, runningDirectories := [], pending := q.runningDirectories + q.pending,
                             epoch := q.epoch + 1);
            var v := s.show.(held := false, requested := s.show.requested + (if s.show.held then 1 else 0));
            Next(s, Pause, f) == s.(active := false, scan := r, show := v)
    ensures BothStartedAs(s.(active := true), accepted, projected, Next(s, Resume(projected, accepted), f))
    ensures BothStartedAs(s, accepted, projected, Next(s, Retry(projected, accepted), f))
  {
    BothStartedMeaning(s.(active := true), accepted, projected);
    BothStartedMeaning(s, accepted, projected);
    hide StartPage, StartProjection, BothStartedAs;
  }

  /** A new overlay of a tracked search: the index takes it over, the map is the one built from that index, and a
      projection is asked for. */
  lemma OverlayMeaning(r: Run, source: TreeState, projected: bool, f: Folding)
    requires RunOk(r, f) && Coherent(source)
    ensures var index := Synced(r.state.index, source);
            AskedAs(r.state.(index := index, searchable := SearchableOf(index.nodes, f.path)), false, projected,
                    Next(r.state, Overlay(source, projected), f))
  {
    var index := Synced(r.state.index, source);
    SyncedIndexes(r.state.index, r.state.searchable, source, f.path);
    AskedMeaning(r.state.(index := index, searchable := SearchableOf(index.nodes, f.path)), false, projected);
    hide RunOk, WithVirtuals, SearchableOf, Synced, QueueProjection, AskedAs;
  }
}
