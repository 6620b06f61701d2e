/** The search object of the Files view: its methods carry out the steps of the search machine. */
module FileSearch {
  import opened Wrappers
  import opened Paths
  import opened Tree
  import opened FilesTree
  import opened Search
  import opened Projection
  import opened SearchMachine
  import opened Texts

  class SearchView {
    var active: bool
    var editing: bool
    var query: string
    var index: Files
    var searchable: Searchable
    var scan: ScanState
    var show: ShowState

    function State(): SearchState
      reads this, index
    {
      SearchState(active, editing, query, index.State(), searchable, scan, show)
    }

    constructor (seed: Files, fold: Fold, background: bool)
      ensures State() == Opened(old(seed.State()), fold, background) && index == seed
    {
      active, editing, query, index := background, true, "", seed;
      searchable := map p | p in seed.nodes && seed.nodes[p].kind != Directory :: Indexed(seed.nodes[p].kind, fold(p));
      show := ShowState({}, {}, [], 0, 0, 0, false, None);
      new;
      scan := ScanState([ROOT], None, [], 0, 0, |searchable|, 0, 0, false, false, None);
    }

    method RestartScan()
      modifies this`scan
      ensures State() == Restarted(old(State()))
    {
      var virtuals := |set p | p in searchable && searchable[p].kind == Virtual|;
      scan := scan.(epoch := scan.epoch + 1, running := None, runningDirectories := [], pending := [ROOT]);
      scan := scan.(scanned := virtuals, examined := 0, skipped := 0, complete := false, truncated := false);
    }

    /** Submits the next page; `accepted` is the worker queue's answer. */
    method StartNextPage(accepted: bool) returns (job: Option<PageJob>)
      modifies this`scan
      ensures State() == StartPage(old(State()), accepted)
      ensures job.Some? ==> scan.page == job
    {
      job := None;
      if !active || scan.running.Some? || !(editing || query != "") || scan.complete {
        return;
      }
      if scan.scanned >= MAX_INDEX_ENTRIES || scan.examined >= MAX_EXAMINED_ENTRIES {
        scan := scan.(truncated := true, complete := true, pending := []);
        return;
      }
      if scan.pending == [] {
        scan := scan.(complete := true);
        return;
      }
      var n := PageSize(scan.pending);
      var directories := scan.pending[..n];
      var generation := scan.jobGeneration + 1;
      if accepted {
        job := Some(PageJob(generation, scan.epoch, index.State(), searchable, directories));
        scan := scan.(pending := scan.pending[n..], running := Some((generation, scan.epoch)),
                      runningDirectories := directories, jobGeneration := generation, page := job);
      }
    }

    method StartNextProjection(accepted: bool) returns (job: Option<ProjectionJob>)
      modifies this`show
      ensures State() == StartProjection(old(State()), accepted)
      ensures job.Some? ==> show.job == job
    {
      job := None;
      if !active || query == "" || show.submitted >= show.requested {
        return;
      }
      if accepted {
        job := Some(ProjectionJob(show.requested, index.State(), searchable, query));
        show := show.(submitted := show.requested, held := true, job := job);
      }
    }

    method RequestProjection(clearRows: bool, accepted: bool)
      modifies this`show
      ensures State() == QueueProjection(old(State()), clearRows, accepted)
    {
      if query == "" {
        return;
      }
      show := show.(held := false, requested := show.requested + 1);
      if clearRows {
        show := show.(matches := {}, expandedContext := {}, rows := []);
      }
      var _ := StartNextProjection(accepted);
    }

    method VoidProjection()
      modifies this`show
      ensures State() == ClearProjection(old(State()))
    {
      show := show.(held := false, requested := show.requested + 1);
      show := show.(applied := show.requested, matches := {}, expandedContext := {});
    }

    /** Puts directories back in front of the queue, in order. */
    method Requeue(directories: seq<Path>)
      modifies this`scan
      ensures scan == old(scan).(pending := directories + old(scan).pending)
    {
      var i := |directories|;
      assert directories[i..] == [];
      while i > 0
        invariant 0 <= i <= |directories|
        invariant scan == old(scan).(pending := directories[i..] + old(scan).pending)
      {
        i := i - 1;
        scan := scan.(pending := [directories[i]] + scan.pending);
        assert directories[i..] == [directories[i]] + directories[i + 1..];
      }
      assert directories[0..] == directories;
    }

    /** The newest page submitted that has not come back. */
    predicate HoldsPage(generation: nat, epoch: nat)
      reads this
    {
      scan.page.Some? && (generation, epoch) == (scan.page.value.generation, scan.page.value.epoch)
    }

    predicate RunningIsHeld()
      reads this
    {
      scan.running.Some? ==> HoldsPage(scan.running.value.0, scan.running.value.1)
    }

    predicate HoldsProjection(generation: nat)
      reads this
    {
      show.job.Some? && generation == show.job.value.generation
    }

    method DropPage(generation: nat, epoch: nat)
      modifies this`scan
      ensures scan == if old(HoldsPage(generation, epoch)) then old(scan).(page := None) else old(scan)
    {
      if HoldsPage(generation, epoch) {
        scan := scan.(page := None);
      }
    }

    /** A page comes back with the index its worker loaded into; a page older than the held one changes
        nothing. */
    method CompleteSearchPage(generation: nat, epoch: nat, page: Page, prepared: Files, ghost ls: seq<Listing>,
                              ghost reached: nat, projected: bool, accepted: bool, ghost fold: Fold)
      returns (changed: bool)
      requires RunningIsHeld()
      requires HoldsPage(generation, epoch) ==>
                 && page.discovered == Discovered(ls) && page.scanned == EntryCount(ls)
                 && (!page.cancelled ==>
                       && prepared.State() == LoadAll(scan.page.value.index, ls)
                       && page.searchable == Refreshed(scan.page.value.searchable, ls, prepared.nodes, fold))
      modifies this
      ensures old(HoldsPage(generation, epoch)) ==>
                State() == CompletePage(old(State()),
                    PageOutcome(ls, reached, page.examined, page.skipped, page.truncated, page.cancelled), fold,
                    projected, accepted)
      ensures !old(HoldsPage(generation, epoch)) ==> State() == old(State()) && !changed
    {
      ghost var outcome := PageOutcome(ls, reached, page.examined, page.skipped, page.truncated, page.cancelled);
      hide Discovered, EntryCount, LoadAll, Refreshed, StartPage, QueueProjection;
      if scan.running != Some((generation, epoch)) {
        DropPage(generation, epoch);
        return false;
      }
      var directories := scan.runningDirectories;
      scan := scan.(page := None, running := None, runningDirectories := []);
      if epoch != scan.epoch {
        var _ := StartNextPage(accepted);
        return false;
      }
      if page.cancelled {
        Requeue(directories);
        return false;
      }
      index, searchable := prepared, page.searchable;
      QueueFound(page, outcome);
      assert scan == Advanced(old(scan), outcome);
      assert State() == AcceptPage(old(State()), old(scan).page.value, outcome, fold);
      changed := editing || query != "";
      RequestProjection(false, projected);
      var _ := StartNextPage(accepted);
    }

    method QueueFound(page: Page, ghost o: PageOutcome)
      requires page.discovered == Discovered(o.listings) && page.scanned == EntryCount(o.listings)
      requires (page.examined, page.skipped, page.truncated) == (o.examined, o.skipped, o.truncated)
      requires scan == Landed(scan)
      modifies this`scan
      ensures scan == Advanced(old(scan), o)
    {
      hide Discovered, EntryCount;
      scan := scan.(pending := scan.pending + page.discovered, scanned := scan.scanned + page.scanned,
                    examined := scan.examined + page.examined, skipped := scan.skipped + page.skipped);
      if page.truncated {
        scan := scan.(truncated := true, complete := true, pending := []);
      } else if scan.pending == [] {
        scan := scan.(complete := true);
      }
    }

    /** A page worker panics; one older than the held page changes nothing. */
    method FailSearchPage(generation: nat)
      requires RunningIsHeld()
      modifies this`scan
      ensures State() == old(State()).(scan := if old(scan).page.Some? && generation == old(scan).page.value.generation
                                               then LosePage(old(scan)) else old(scan))
    {
      if scan.page.Some? && generation == scan.page.value.generation {
        scan := scan.(page := None);
      }
      if scan.running.Some? && scan.running.value.0 == generation {
        var epoch := scan.running.value.1;
        scan := scan.(running := None, runningDirectories := []);
        if epoch == scan.epoch {
          scan := scan.(complete := true);
        }
      }
    }

    method FirstMatching(rows: seq<Path>, among: set<Path>) returns (first: Option<Path>)
      ensures first == FirstMatch(rows, among)
    {
      var i := 0;
      while i < |rows| && rows[i] !in among
        invariant 0 <= i <= |rows| && FirstMatch(rows, among) == FirstMatch(rows[i..], among)
      {
        i := i + 1;
      }
      first := if i < |rows| then Some(rows[i]) else None;
    }

    /** A projection comes back, or none if its worker was cancelled; one that is not held is older than
        the newest request and changes nothing. */
    method CompleteSearchProjection(generation: nat, projection: Option<Projected>, ghost f: Folding)
      returns (shown: bool)
      requires show.job.Some? ==> ROOT !in show.job.value.index.nodes
      requires HoldsProjection(generation) && projection.Some? ==>
                 projection.value == ProjectionOf(show.job.value.index.nodes, show.job.value.searchable,
                     f.query(show.job.value.query))
      requires !HoldsProjection(generation) ==> generation < show.requested
      modifies this`show, index
      ensures old(HoldsProjection(generation)) ==> State() == CompleteProjection(old(State()), projection.Some?, f)
      ensures !old(HoldsProjection(generation)) ==> State() == old(State())
      ensures shown == (old(HoldsProjection(generation)) && Current(old(State())) && projection.Some?)
    {
      hide ProjectionOf, FirstMatch;
      if HoldsProjection(generation) {
        show := show.(job := None);
      }
      if generation != show.requested || query == "" {
        return false;
      }
      show := show.(held := false);
      if projection.None? {
        return false;
      }
      var p := projection.value;
      show := show.(applied := generation, matches := p.matches, expandedContext := p.expandedContext, rows := p.rows);
      if index.selection.None? || index.selection.value !in p.matches {
        var first := FirstMatching(p.rows, p.matches);
        if first.Some? {
          var _ := index.Select(first.value);
        }
      }
      shown := true;
    }

    method FailSearchProjection(generation: nat)
      requires !HoldsProjection(generation) ==> generation < show.requested
      modifies this`show
      ensures State() == old(State()).(show := if old(HoldsProjection(generation)) then LoseProjection(old(show))
                                               else old(show))
    {
      if HoldsProjection(generation) {
        show := show.(job := None);
      }
      if generation == show.requested {
        show := show.(held := false, applied := generation);
      }
    }

    method PauseBackground()
      modifies this
      ensures State() == Paused(old(State())) && index == old(index)
    {
      active := false;
      if scan.running.Some? {
        var directories := scan.runningDirectories;
        scan := scan.(running := None, runningDirectories := []);
        Requeue(directories);
        scan := scan.(epoch := scan.epoch + 1);
      }
      if show.held {
        show := show.(held := false, requested := show.requested + 1);
      }
    }

    method SyncOverlay(source: Files, fold: Fold, projected: bool)
      requires index.Valid() && source.Valid() && source != index
      modifies this`searchable, this`show, index
      ensures State() == OverlayChanged(old(State()), old(source.State()), fold, projected)
      ensures index.Valid()
    {
      hide Synced, QueueProjection, Coherent;
      index.SyncStatusOverlayFrom(source);
      var virtuals := map p | p in index.nodes && index.nodes[p].kind == Virtual :: Indexed(Virtual, fold(p));
      searchable := map p | p in searchable && (searchable[p].kind != Virtual
          || (p in index.nodes && index.nodes[p].kind == Virtual)) :: searchable[p];
      searchable := searchable + virtuals;
      RequestProjection(false, projected);
    }

    /** Types a text: what fits of its printable characters joins the query. */
    method AppendQuery(value: string, projected: bool, accepted: bool) returns (changed: bool)
      modifies this
      ensures var added := Fitting(TextBytes(old(query)), Printable(value));
              && changed == (added != "") && index == old(index)
              && State() == Typed(old(State()), added, projected, accepted)
    {
      hide StartPage, QueueProjection;
      var prior := |query|;
      TypeCharacters(value);
      if |query| == prior {
        return false;
      }
      RequestProjection(true, projected);
      var _ := StartNextPage(accepted);
      changed := true;
    }

    method TypeCharacters(value: string)
      modifies this`query
      ensures query == old(query) + Fitting(TextBytes(old(query)), Printable(value))
    {
      var i := 0;
      assert value[0..] == value;
      while i < |value|
        invariant 0 <= i <= |value|
        invariant query + Fitting(TextBytes(query), Printable(value[i..]))
                  == old(query) + Fitting(TextBytes(old(query)), Printable(value))
      {
        assert value[i..][1..] == value[i + 1..] && value[i..][0] == value[i];
        assert IsControl(value[i]) ==> Printable(value[i..]) == Printable(value[i + 1..]);
        assert !IsControl(value[i]) ==> Printable(value[i..]) == [value[i]] + Printable(value[i + 1..]);
        hide Printable, Fitting, TextBytes, CharBytes, IsControl;
        if !IsControl(value[i]) {
          if TextBytes(query) + CharBytes(value[i]) > MAX_QUERY_BYTES {
            NothingFits(query, value[i], Printable(value[i + 1..]));
            return;
          }
          TypedCharacter(query, value[i], Printable(value[i + 1..]));
          query := query + [value[i]];
        }
        i := i + 1;
      }
    }

    method BackspaceQuery(projected: bool) returns (changed: bool)
      modifies this
      ensures changed == (old(query) != "") && index == old(index)
      ensures State() == Backspaced(old(State()), projected)
    {
      hide QueueProjection, ClearProjection;
      if query == "" {
        return false;
      }
      query := query[..|query| - 1];
      if query == "" {
        VoidProjection();
      } else {
        RequestProjection(true, projected);
      }
      changed := true;
    }
  }

  lemma NothingFits(query: string, c: char, rest: string)
    requires TextBytes(query) + CharBytes(c) > MAX_QUERY_BYTES
    ensures Fitting(TextBytes(query), [c] + rest) == ""
  {
  }

  lemma TypedCharacter(query: string, c: char, rest: string)
    requires TextBytes(query) + CharBytes(c) <= MAX_QUERY_BYTES
    ensures query + Fitting(TextBytes(query), [c] + rest)
            == query + [c] + Fitting(TextBytes(query + [c]), rest)
  {
    assert (query + [c])[..|query|] == query && ([c] + rest)[1..] == rest;
    assert TextBytes(query + [c]) == TextBytes(query) + CharBytes(c);
    hide TextBytes, CharBytes;
    assert Fitting(TextBytes(query), [c] + rest) == [c] + Fitting(TextBytes(query + [c]), rest);
    hide Fitting;
    assert query + ([c] + Fitting(TextBytes(query + [c]), rest)) == query + [c] + Fitting(TextBytes(query + [c]), rest);
  }
}
