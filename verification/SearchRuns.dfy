/** What every run of the search machine keeps. */
module SearchRuns {
  import opened Wrappers
  import opened Paths
  import opened Status
  import opened Tree
  import opened Rows
  import opened FilesTree
  import opened Search
  import opened Projection
  import opened SearchMachine

  // ---------------------------------------------------------------- the directory queue

  predicate QueueOk(q: ScanState, listed: set<Path>, panicked: bool) {
    && PageOk(q)
    && Antichain(Queue(q))
    && Ahead(Queue(q), listed)
    && (q.complete ==> q.running.None?)
    && (q.complete && !panicked ==> Queue(q) == [])
  }

  /** Starting a page moves directories from the pending to the running ones, or gives the rest up
      as truncated; the queue is the same otherwise. */
  lemma LaunchQueue(q: ScanState, index: TreeState, searchable: Searchable, accepted: bool)
    requires PageOk(q)
    ensures var t := Launch(q, index, searchable, accepted);
            && PageOk(t)
            && (Queue(t) == Queue(q) || (t.truncated && t.complete && Queue(t) == []))
            && (t.complete && !q.complete ==> Queue(t) == [])
            && (q.complete ==> t == q)
            && t.epoch == q.epoch && t.skipped == q.skipped
  {
    var n := PageSize(q.pending);
    assert q.pending[..n] + q.pending[n..] == q.pending;
  }

  /** Pausing puts the running directories back in front and outdates the job. */
  lemma PausedQueue(q: ScanState)
    requires PageOk(q)
    ensures var t := PausedScan(q);
            && PageOk(t) && t.running.None? && Queue(t) == Queue(q)
            && t.complete == q.complete && t.skipped == q.skipped && t.truncated == q.truncated
            && (q.running.Some? ==> t.epoch == q.epoch + 1)
  {
    assert [] + (q.runningDirectories + q.pending) == Queue(q);
  }

  /** A cancelled page gives its directories back in front. */
  lemma CancelledQueue(q: ScanState)
    requires PageOk(q)
    ensures var t := Landed(q).(pending := q.runningDirectories + q.pending);
            PageOk(t) && Queue(t) == Queue(q)
  {
    assert [] + (q.runningDirectories + q.pending) == Queue(q);
  }

  lemma LaunchKeeps(q: ScanState, listed: set<Path>, panicked: bool, index: TreeState, searchable: Searchable,
      accepted: bool)
    requires QueueOk(q, listed, panicked)
    ensures QueueOk(Launch(q, index, searchable, accepted), listed, panicked)
  {
    LaunchQueue(q, index, searchable, accepted);
    hide Launch, PageOk;
  }

  lemma PageListings(q: ScanState, o: PageOutcome)
    requires PageOk(q) && NoRepeats(Queue(q)) && Accepts(q, o) && Plausible(q.page.value, o)
    ensures DistinctDirectories(o.listings)
    ensures forall i :: 0 <= i < |o.listings| ==> o.listings[i].directory in q.runningDirectories
  {
    var part := q.page.value.directories[..o.reached];
    PendingApart(q.runningDirectories, q.pending);
    FromDirectoriesMembers(o.listings, part);
    assert forall d :: d in part ==> d in q.runningDirectories;
    assert forall i :: 0 <= i < |part| ==> part[i] == q.runningDirectories[i];
  }

  lemma AdvancedFields(q: ScanState, o: PageOutcome)
    requires PageOk(q) && Accepts(q, o)
    ensures PageOk(Advanced(q, o)) && Advanced(q, o).running.None?
    ensures Queue(Advanced(q, o)) == if o.truncated then [] else q.pending + Discovered(o.listings)
    ensures Advanced(q, o).complete ==> q.complete || Queue(Advanced(q, o)) == []
  {
    hide Discovered, EntryCount;
    assert [] + (q.pending + Discovered(o.listings)) == q.pending + Discovered(o.listings);
  }

  /** An accepted page lists only directories not listed since the last restart. */
  lemma AdvancedQueue(q: ScanState, listed: set<Path>, panicked: bool, o: PageOutcome)
    requires QueueOk(q, listed, panicked) && Accepts(q, o) && Plausible(q.page.value, o)
    ensures ListedBy(o.listings) !! listed
    ensures QueueOk(Advanced(q, o), listed + ListedBy(o.listings), panicked)
  {
    PageListings(q, o);
    assert ValidListings(o.listings);
    hide Plausible;
    AdvancedFields(q, o);
    assert NoRepeats([]) && Antichain([]) && Ahead([], listed + ListedBy(o.listings));
    hide *;
    QueueAdvances(q.runningDirectories, q.pending, o.listings, listed);
  }

  lemma LosePageKeeps(q: ScanState, listed: set<Path>, panicked: bool)
    requires QueueOk(q, listed, panicked)
    ensures QueueOk(LosePage(q), listed, panicked || q.running.Some?)
  {
    var t := LosePage(q);
    assert forall p :: p in q.pending ==> p in Queue(q);
    if q.running.Some? {
      PendingApart(q.runningDirectories, q.pending);
      assert Queue(t) == q.pending;
    }
  }

  // ---------------------------------------------------------------- the index under the queue

  /** The index is parent-closed and every queued directory is the root or cached as one. */
  ghost predicate Rooted(nodes: Nodes, queue: set<Path>) {
    && ParentClosed(nodes)
    && forall d :: d in queue ==> d == ROOT || IsDirectory(nodes, d)
  }

  /** No queued directory is above another. */
  predicate Apart(queue: set<Path>) {
    forall a, b :: a in queue && b in queue && a <= b ==> a == b
  }

  predicate AboveSome(queue: set<Path>, d: Path) {
    exists a :: a in queue && a <= d
  }

  /** Every directory row, and the root, was listed or lies at or under a queued directory. */
  ghost predicate Covered(nodes: Nodes, queue: set<Path>, listed: set<Path>) {
    forall d :: d == ROOT || IsDirectory(nodes, d) ==> d in listed || AboveSome(queue, d)
  }

  function DirectorySet(l: Listing): set<Path> {
    set p | p in l.entries && l.entries[p].kind == Directory
  }

  /** The queue after listing one of its directories. */
  function Unfolded(queue: set<Path>, l: Listing): set<Path> {
    queue - {l.directory} + DirectorySet(l)
  }

  lemma UnfoldedApart(queue: set<Path>, l: Listing)
    requires Apart(queue) && l.directory in queue && ValidListing(l)
    ensures Apart(Unfolded(queue, l))
  {
    forall a, b | a in Unfolded(queue, l) && b in Unfolded(queue, l) && a <= b ensures a == b {
      ParentIs(l.directory, a);
      ParentIs(l.directory, b);
    }
  }

  lemma UnfoldedRooted(nodes: Nodes, statuses: map<Path, StatusKind>, l: Listing, queue: set<Path>)
    requires Rooted(nodes, queue) && Apart(queue) && l.directory in queue && ValidListing(l)
    ensures Rooted(Applied(nodes, statuses, l), Unfolded(queue, l))
  {
    ApplyDirectoryMeaning(nodes, statuses, l);
    hide Applied;
    var after := Applied(nodes, statuses, l);
    forall d | d in Unfolded(queue, l) && d != ROOT ensures IsDirectory(after, d) {
      assert Lookup(after, d) == Expected(nodes, statuses, l, d);
    }
  }

  lemma UnfoldedCovered(nodes: Nodes, statuses: map<Path, StatusKind>, l: Listing, queue: set<Path>,
      listed: set<Path>, d: Path)
    requires Rooted(nodes, queue) && l.directory in queue && ValidListing(l)
    requires Covered(nodes, queue, listed)
    requires d == ROOT || IsDirectory(Applied(nodes, statuses, l), d)
    ensures d in listed + {l.directory} || AboveSome(Unfolded(queue, l), d)
  {
    ApplyAt(nodes, statuses, l, d);
    hide Applied;
    if l.directory < d {
      var b := if d in l.entries then d else Branch(l.directory, d);
      ParentIs(l.directory, d);
      assert b in DirectorySet(l) && b <= d;
    } else if d != l.directory && d !in listed {
      if d != ROOT { ParentIs(l.directory, d); }
      var a :| a in queue && a <= d;
      assert a in Unfolded(queue, l);
    }
  }

  lemma LoadStep(nodes: Nodes, statuses: map<Path, StatusKind>, l: Listing, queue: set<Path>, listed: set<Path>)
    requires Rooted(nodes, queue) && Apart(queue) && l.directory in queue && ValidListing(l)
    ensures Rooted(Applied(nodes, statuses, l), Unfolded(queue, l)) && Apart(Unfolded(queue, l))
    ensures Covered(nodes, queue, listed) ==> Covered(Applied(nodes, statuses, l), Unfolded(queue, l),
        listed + {l.directory})
  {
    UnfoldedApart(queue, l);
    UnfoldedRooted(nodes, statuses, l, queue);
    hide Applied, Unfolded, AboveSome, Rooted;
    if Covered(nodes, queue, listed) {
      forall d | d == ROOT || IsDirectory(Applied(nodes, statuses, l), d)
        ensures d in listed + {l.directory} || AboveSome(Unfolded(queue, l), d)
      {
        UnfoldedCovered(nodes, statuses, l, queue, listed, d);
      }
    }
  }

  /** The queue after the listings of a page. */
  function UnfoldedAll(queue: set<Path>, ls: seq<Listing>): set<Path> {
    queue - ListedBy(ls) + Members(Discovered(ls))
  }

  lemma UnfoldedLast(queue: set<Path>, ls: seq<Listing>)
    requires ls != [] && DistinctDirectories(ls) && ls[|ls| - 1].directory in queue
    requires ls[|ls| - 1].directory !in Members(Discovered(ls[..|ls| - 1]))
    ensures UnfoldedAll(queue, ls) == Unfolded(UnfoldedAll(queue, ls[..|ls| - 1]), ls[|ls| - 1])
    ensures ls[|ls| - 1].directory in UnfoldedAll(queue, ls[..|ls| - 1])
    ensures ListedBy(ls) == ListedBy(ls[..|ls| - 1]) + {ls[|ls| - 1].directory}
  {
    var n := |ls| - 1;
    var front := ls[..n];
    assert forall i :: 0 <= i < n ==> front[i] == ls[i];
    forall d ensures d in ListedBy(ls) <==> d in ListedBy(front) + {ls[n].directory} {
      if d in ListedBy(front) {
        var i :| 0 <= i < n && front[i].directory == d;
        assert ls[i].directory == d;
      }
      if d in ListedBy(ls) {
        var i :| 0 <= i <= n && ls[i].directory == d;
        if i < n { assert front[i].directory == d; }
      }
      assert ls[n].directory in ListedBy(ls);
    }
  }

  lemma NotDiscovered(queue: set<Path>, ls: seq<Listing>, d: Path)
    requires Apart(queue) && ValidListings(ls) && DistinctDirectories(ls) && d in queue
    requires forall i :: 0 <= i < |ls| ==> ls[i].directory in queue
    ensures d !in Members(Discovered(ls))
  {
    DiscoveredOnce(ls);
    hide Discovered;
    if d in Discovered(ls) {
      var i :| 0 <= i < |ls| && Parent(d) == ls[i].directory;
      ParentIs(Parent(d), d);
    }
  }

  /** A page of queued directories keeps the index rooted and, unless it leaves some out, covered. */
  lemma {:induction false} LoadAdvances(t: TreeState, ls: seq<Listing>, queue: set<Path>, listed: set<Path>)
    requires ValidListings(ls) && DistinctDirectories(ls) && Rooted(t.nodes, queue) && Apart(queue)
    requires forall i :: 0 <= i < |ls| ==> ls[i].directory in queue
    ensures Rooted(LoadAll(t, ls).nodes, UnfoldedAll(queue, ls)) && Apart(UnfoldedAll(queue, ls))
    ensures Covered(t.nodes, queue, listed) ==>
              Covered(LoadAll(t, ls).nodes, UnfoldedAll(queue, ls), listed + ListedBy(ls))
  {
    if ls == [] {
      assert UnfoldedAll(queue, ls) == queue && listed + ListedBy(ls) == listed;
    } else {
      var n := |ls| - 1;
      LoadAdvances(t, ls[..n], queue, listed);
      NotDiscovered(queue, ls[..n], ls[n].directory);
      UnfoldedLast(queue, ls);
      var before := LoadAll(t, ls[..n]);
      assert ValidListing(ls[n]);
      hide *;
      LoadStep(before.nodes, before.statuses, ls[n], UnfoldedAll(queue, ls[..n]), listed + ListedBy(ls[..n]));
      assert listed + ListedBy(ls) == listed + ListedBy(ls[..n]) + {ls[n].directory};
    }
  }

  // ---------------------------------------------------------------- all a scan keeps

  /** Nothing was cut off, skipped or lost since the last restart. */
  predicate Whole(q: ScanState, panicked: bool) {
    q.skipped == 0 && !q.truncated && !panicked
  }

  /** An index fit to scan the queue into. */
  ghost predicate Fit(t: TreeState, q: ScanState, listed: set<Path>, panicked: bool) {
    && Rooted(t.nodes, Members(Queue(q)))
    && (Whole(q, panicked) ==> Covered(t.nodes, Members(Queue(q)), listed))
  }

  /** The index with its searchable map. */
  ghost predicate Indexes(t: TreeState, searchable: Searchable, fold: Fold) {
    Coherent(t) && Tracks(searchable, t.nodes, fold)
  }

  ghost predicate ScanOk(t: TreeState, searchable: Searchable, q: ScanState, listed: set<Path>, panicked: bool,
                         gentle: bool, fold: Fold) {
    && QueueOk(q, listed, panicked)
    && Indexes(t, searchable, fold)
    && (q.page.Some? ==> Indexes(q.page.value.index, q.page.value.searchable, fold))
    && (gentle ==> Fit(t, q, listed, panicked))
    && (gentle && q.running.Some? ==> Fit(q.page.value.index, q, listed, panicked))
  }

  lemma FitSame(t: TreeState, q: ScanState, r: ScanState, listed: set<Path>, panicked: bool)
    requires Fit(t, q, listed, panicked)
    requires Queue(r) == Queue(q) && (Whole(r, panicked) ==> Whole(q, panicked))
    ensures Fit(t, r, listed, panicked)
  {
  }

  lemma LaunchScan(t: TreeState, searchable: Searchable, q: ScanState, listed: set<Path>, panicked: bool,
                   gentle: bool, fold: Fold, accepted: bool)
    requires ScanOk(t, searchable, q, listed, panicked, gentle, fold)
    ensures ScanOk(t, searchable, Launch(q, t, searchable, accepted), listed, panicked, gentle, fold)
  {
    var r := Launch(q, t, searchable, accepted);
    LaunchQueue(q, t, searchable, accepted);
    LaunchKeeps(q, listed, panicked, t, searchable, accepted);
    assert r.page == q.page || (r.page.value.index == t && r.page.value.searchable == searchable);
    assert r.running == q.running || (r.page.Some? && r.page.value.index == t);
    assert r.truncated == q.truncated || Queue(r) == [];
    assert Members([]) == {};
    hide Launch, QueueOk, Indexes, Queue, Fit, PageOk;
    if gentle {
      if Queue(r) == Queue(q) && r.truncated == q.truncated { FitSame(t, q, r, listed, panicked); }
    }
  }

  lemma PausedScanOk(t: TreeState, searchable: Searchable, q: ScanState, listed: set<Path>, panicked: bool,
                     gentle: bool, fold: Fold)
    requires ScanOk(t, searchable, q, listed, panicked, gentle, fold)
    ensures ScanOk(t, searchable, PausedScan(q), listed, panicked, gentle, fold)
  {
    PausedQueue(q);
    if gentle { FitSame(t, q, PausedScan(q), listed, panicked); }
    hide Indexes, Fit, Antichain, Ahead;
  }

  lemma CancelledScanOk(t: TreeState, searchable: Searchable, q: ScanState, listed: set<Path>, panicked: bool,
                        gentle: bool, fold: Fold)
    requires ScanOk(t, searchable, q, listed, panicked, gentle, fold)
    ensures ScanOk(t, searchable, Landed(q).(pending := q.runningDirectories + q.pending), listed, panicked, gentle,
        fold)
  {
    var r := Landed(q).(pending := q.runningDirectories + q.pending);
    CancelledQueue(q);
    if gentle { FitSame(t, q, r, listed, panicked); }
    hide Indexes, Fit, Antichain, Ahead;
  }

  lemma LostScanOk(t: TreeState, searchable: Searchable, q: ScanState, listed: set<Path>, panicked: bool,
                   gentle: bool, fold: Fold)
    requires ScanOk(t, searchable, q, listed, panicked, gentle, fold) && q.page.Some?
    ensures ScanOk(t, searchable, LosePage(q), listed, panicked || q.running.Some?, gentle, fold)
  {
    var r := LosePage(q);
    LosePageKeeps(q, listed, panicked);
    assert Members(Queue(r)) <= Members(Queue(q));
    assert q.running.None? ==> Queue(r) == Queue(q);
    if gentle {
      if q.running.None? { FitSame(t, q, r, listed, panicked); }
    }
    hide Indexes, Fit, QueueOk;
  }

  /** A queue of the root alone covers everything. */
  lemma RootCovers(nodes: Nodes, q: ScanState)
    requires q.runningDirectories == [] && q.pending == [ROOT]
    ensures Queue(q) == [ROOT] && Members(Queue(q)) == {ROOT} && Antichain(Queue(q))
    ensures Covered(nodes, {ROOT}, {})
  {
    forall d: Path ensures AboveSome({ROOT}, d) {
      assert ROOT in {ROOT} && ROOT <= d;
    }
  }

  lemma RescanOk(t: TreeState, searchable: Searchable, q: ScanState, listed: set<Path>, panicked: bool,
                 gentle: bool, fold: Fold, virtuals: nat)
    requires ScanOk(t, searchable, q, listed, panicked, gentle, fold)
    ensures ScanOk(t, searchable, Rescan(q, virtuals), {}, false, gentle, fold)
  {
    RootCovers(t.nodes, Rescan(q, virtuals));
    hide Indexes, Covered, ParentClosed;
  }

  lemma {:induction false} LoadAllCoherent(t: TreeState, ls: seq<Listing>)
    requires Coherent(t) && ValidListings(ls)
    ensures Coherent(LoadAll(t, ls))
  {
    if ls != [] {
      LoadAllCoherent(t, ls[..|ls| - 1]);
      assert ValidListing(ls[|ls| - 1]);
      LoadKeepsCoherent(LoadAll(t, ls[..|ls| - 1]), ls[|ls| - 1]);
      hide Coherent, Loaded;
    }
  }

  lemma {:induction false} AllListed(ls: seq<Listing>, directories: seq<Path>)
    requires FromDirectories(ls, directories) && |ls| == |directories|
    ensures forall d :: d in directories ==> d in ListedBy(ls)
  {
    if directories != [] {
      var n := |directories| - 1;
      if FromDirectories(ls, directories[..n]) { FromDirectoriesMembers(ls, directories[..n]); }
      AllListed(ls[..n], directories[..n]);
      forall d | d in directories ensures d in ListedBy(ls) {
        if d in directories[..n] {
          var i :| 0 <= i < n && ls[..n][i].directory == d;
          assert ls[i].directory == d;
        } else {
          assert d == directories[n] == ls[n].directory;
        }
      }
    }
  }

  lemma RunningListed(q: ScanState, o: PageOutcome)
    requires PageOk(q) && Accepts(q, o) && Plausible(q.page.value, o) && !o.truncated && o.skipped == 0
    ensures forall d :: d in q.runningDirectories ==> d in ListedBy(o.listings)
  {
    var directories := q.page.value.directories;
    FromDirectoriesMembers(o.listings, directories[..o.reached]);
    assert directories[..o.reached] == directories;
    AllListed(o.listings, directories);
    hide FromDirectories, ListedBy, ValidListings;
  }

  lemma QueueMembers(running: seq<Path>, pending: seq<Path>, ls: seq<Listing>)
    requires NoRepeats(running + pending) && forall d :: d in ListedBy(ls) ==> d in running
    ensures Members(pending + Discovered(ls)) <= UnfoldedAll(Members(running + pending), ls)
    ensures (forall d :: d in running ==> d in ListedBy(ls)) ==>
              UnfoldedAll(Members(running + pending), ls) == Members(pending + Discovered(ls))
  {
    PendingApart(running, pending);
    hide Discovered, ListedBy, NoRepeats;
    assert forall p :: p in running + pending <==> p in running || p in pending;
  }

  lemma AdvancedMembers(q: ScanState, o: PageOutcome)
    requires PageOk(q) && NoRepeats(Queue(q)) && Accepts(q, o) && Plausible(q.page.value, o)
    ensures Members(Queue(Advanced(q, o))) <= UnfoldedAll(Members(Queue(q)), o.listings)
    ensures !o.truncated && o.skipped == 0 ==>
              UnfoldedAll(Members(Queue(q)), o.listings) <= Members(Queue(Advanced(q, o)))
  {
    PageListings(q, o);
    if !o.truncated && o.skipped == 0 { RunningListed(q, o); }
    assert forall d :: d in ListedBy(o.listings) ==> d in q.runningDirectories;
    assert Members([]) == {};
    assert Queue(q) == q.runningDirectories + q.pending;
    hide *;
    QueueMembers(q.runningDirectories, q.pending, o.listings);
  }

  lemma AdvancedFit(q: ScanState, o: PageOutcome, listed: set<Path>, panicked: bool)
    requires QueueOk(q, listed, panicked) && Accepts(q, o) && Plausible(q.page.value, o)
    requires Fit(q.page.value.index, q, listed, panicked)
    ensures Fit(LoadAll(q.page.value.index, o.listings), Advanced(q, o), listed + ListedBy(o.listings), panicked)
  {
    var before, after := Members(Queue(q)), Members(Queue(Advanced(q, o)));
    AdvancedMembers(q, o);
    PageListings(q, o);
    assert Apart(before);
    assert forall d :: d in q.runningDirectories ==> d in before;
    assert ValidListings(o.listings);
    assert Whole(Advanced(q, o), panicked) ==> Whole(q, panicked) && !o.truncated && o.skipped == 0;
    hide QueueOk, Plausible, Advanced, LoadAll, Queue, UnfoldedAll, ListedBy, Apart, Whole, Members;
    LoadAdvances(q.page.value.index, o.listings, before, listed);
  }

  lemma PageIndexes(j: PageJob, ls: seq<Listing>, fold: Fold)
    requires Indexes(j.index, j.searchable, fold) && ValidListings(ls) && DistinctDirectories(ls)
    ensures Indexes(LoadAll(j.index, ls), Refreshed(j.searchable, ls, LoadAll(j.index, ls).nodes, fold), fold)
  {
    LoadAllCoherent(j.index, ls);
    assert ROOT !in j.index.nodes;
    PageKeepsTracking(j.searchable, j.index, ls, fold);
    hide LoadAll, Refreshed, Tracks, Coherent;
  }

  lemma AcceptedScanOk(s: SearchState, o: PageOutcome, listed: set<Path>, panicked: bool, gentle: bool, fold: Fold)
    requires ScanOk(s.index, s.searchable, s.scan, listed, panicked, gentle, fold)
    requires Accepts(s.scan, o) && Plausible(s.scan.page.value, o)
    ensures var t := AcceptPage(s, s.scan.page.value, o, fold);
            ScanOk(t.index, t.searchable, t.scan, listed + ListedBy(o.listings), panicked, gentle, fold)
  {
    var q := s.scan;
    AdvancedQueue(q, listed, panicked, o);
    PageListings(q, o);
    assert ValidListings(o.listings);
    assert Advanced(q, o).page.None? && Advanced(q, o).running.None?;
    hide Plausible, QueueOk, Advanced, Indexes, Fit, ListedBy, LoadAll, Refreshed;
    PageIndexes(q.page.value, o.listings, fold);
    if gentle { AdvancedFit(q, o, listed, panicked); }
  }

  /** No missing-file row of the overlay stands where the index holds a directory. */
  ghost predicate Gentle(t: TreeState, source: TreeState) {
    forall p :: IsDirectory(t.nodes, p) ==> p !in VirtualOverlay(source.nodes)
  }

  lemma SyncedFit(t: TreeState, q: ScanState, listed: set<Path>, panicked: bool, source: TreeState)
    requires Fit(t, q, listed, panicked) && Coherent(source) && Gentle(t, source)
    ensures Fit(Synced(t, source), q, listed, panicked)
  {
    var now := Overlaid(t.nodes, source.statuses, VirtualOverlay(source.nodes));
    OverlayKeepsClosed(t.nodes, source.statuses, VirtualOverlay(source.nodes));
    assert Synced(t, source).nodes == now;
    hide Synced, Overlaid, VirtualOverlay, Whole, AboveSome, Members, Queue;
  }

  lemma SyncedIndexes(t: TreeState, searchable: Searchable, source: TreeState, fold: Fold)
    requires Indexes(t, searchable, fold) && Coherent(source)
    ensures Indexes(Synced(t, source), WithVirtuals(searchable, Synced(t, source).nodes, fold), fold)
    ensures WithVirtuals(searchable, Synced(t, source).nodes, fold) == SearchableOf(Synced(t, source).nodes, fold)
  {
    SyncKeepsCoherent(t, source);
    OverlayMakesExact(searchable, t, source, fold);
    var now := Synced(t, source).nodes;
    hide Synced, Coherent, WithVirtuals;
    assert Tracks(SearchableOf(now, fold), now, fold);
  }

  lemma SyncedScanOk(t: TreeState, searchable: Searchable, q: ScanState, listed: set<Path>, panicked: bool,
                     gentle: bool, fold: Fold, source: TreeState)
    requires ScanOk(t, searchable, q, listed, panicked, gentle, fold) && Coherent(source)
    ensures var u := Synced(t, source);
            ScanOk(u, WithVirtuals(searchable, u.nodes, fold), q, listed, panicked, gentle && Gentle(t, source), fold)
  {
    SyncedIndexes(t, searchable, source, fold);
    if gentle && Gentle(t, source) { SyncedFit(t, q, listed, panicked, source); }
    hide QueueOk, WithVirtuals, SearchableOf, Synced, Indexes, Fit, Gentle;
  }

  // ---------------------------------------------------------------- projections

  /** The held projection of the newest request captured the current index, selection aside. */
  ghost predicate Captured(s: SearchState) {
    Current(s) ==>
      && s.show.job.value.index.nodes == s.index.nodes
      && s.show.job.value.searchable == s.searchable
      && s.show.job.value.query == s.query
  }

  /** With every request answered and none lost to a panic, the rows are the current projection. */
  ghost predicate Shown(s: SearchState, unshown: bool, f: Folding)
    requires ROOT !in s.index.nodes
  {
    s.query != "" && s.show.applied == s.show.requested && !unshown ==>
      Projected(s.show.matches, s.show.expandedContext, s.show.rows)
      == ProjectionOf(s.index.nodes, s.searchable, f.query(s.query))
  }

  predicate Numbered(v: ShowState) {
    && v.applied <= v.requested && v.submitted <= v.requested
    && (v.job.Some? ==> v.job.value.generation <= v.submitted)
    && (v.job.Some? && v.job.value.generation == v.requested ==> v.applied < v.requested)
  }

  ghost predicate ShowOk(s: SearchState, unshown: bool, f: Folding) {
    && ROOT !in s.index.nodes
    && Numbered(s.show) && Captured(s) && Shown(s, unshown, f)
    && (s.query != "" && s.show.applied == s.show.requested ==> s.show.submitted == s.show.requested)
    && (s.show.job.Some? ==> ROOT !in s.show.job.value.index.nodes)
  }

  /** What a projection looks at. */
  predicate SameView(s: SearchState, t: SearchState) {
    s.index.nodes == t.index.nodes && s.searchable == t.searchable && s.query == t.query && s.show == t.show
  }

  lemma ViewKeeps(s: SearchState, t: SearchState, unshown: bool, f: Folding)
    requires ShowOk(s, unshown, f) && SameView(s, t)
    ensures ShowOk(t, unshown, f)
  {
    hide ProjectionOf;
  }

  lemma StartProjectionKeeps(s: SearchState, accepted: bool, unshown: bool, f: Folding)
    requires ShowOk(s, unshown, f)
    ensures ShowOk(StartProjection(s, accepted), unshown, f)
  {
    hide ProjectionOf;
  }

  /** After any change of index, map or query, queueing a projection restores the invariant. */
  lemma QueueProjectionKeeps(s: SearchState, t: SearchState, clear: bool, accepted: bool, unshown: bool, f: Folding)
    requires ShowOk(s, unshown, f) && t.show == s.show && ROOT !in t.index.nodes
    ensures ShowOk(QueueProjection(t, clear, accepted), unshown, f)
  {
    hide ProjectionOf;
    if t.query != "" {
      var u := t.(show := Outdated(t.show, clear));
      assert ShowOk(u, unshown, f);
      StartProjectionKeeps(u, accepted, unshown, f);
    }
  }

  lemma CompleteProjectionKeeps(s: SearchState, finished: bool, unshown: bool, f: Folding)
    requires ShowOk(s, unshown, f)
    ensures ShowOk(CompleteProjection(s, finished, f), unshown && !(Current(s) && finished), f)
  {
    hide ProjectionOf, FirstMatch;
  }

  predicate Newest(v: ShowState) {
    v.job.Some? && v.job.value.generation == v.requested
  }

  // ---------------------------------------------------------------- runs

  /** A search state with its history: the directories listed and whether a page worker panicked since
      the last restart, whether every overlay so far was gentle, and whether the newest projection was
      lost to a panic. */
  datatype Run = Run(state: SearchState, listed: set<Path>, panicked: bool, gentle: bool, unshown: bool)

  ghost predicate RunOk(r: Run, f: Folding) {
    && ScanOk(r.state.index, r.state.searchable, r.state.scan, r.listed, r.panicked, r.gentle, f.path)
    && ShowOk(r.state, r.unshown, f)
    && (r.gentle && r.state.show.job.Some? ==> ParentClosed(r.state.show.job.value.index.nodes))
  }

  ghost function Step(r: Run, e: Event, f: Folding): Run
    requires r.state.show.job.Some? ==> ROOT !in r.state.show.job.value.index.nodes
  {
    var s := r.state;
    var t := r.(state := Next(s, e, f));
    match e
    case Restart(_) => t.(listed := {}, panicked := false)
    case PageDone(o, _, _) => if Accepts(s.scan, o) then t.(listed := r.listed + ListedBy(o.listings)) else t
    case PagePanicked(_, _) => t.(panicked := r.panicked || s.scan.running.Some?)
    case ProjectionDone(finished) => t.(unshown := r.unshown && !(Current(s) && finished))
    case ProjectionPanicked(_, _) => t.(unshown := r.unshown || Newest(s.show))
    case Overlay(source, _) => t.(gentle := r.gentle && Gentle(s.index, source))
    case _ => t
  }

  lemma StartPageOk(r: Run, accepted: bool, f: Folding)
    requires RunOk(r, f)
    ensures RunOk(r.(state := StartPage(r.state, accepted)), f)
  {
    var s := r.state;
    LaunchScan(s.index, s.searchable, s.scan, r.listed, r.panicked, r.gentle, f.path, accepted);
    assert SameView(s, StartPage(s, accepted));
    ViewKeeps(s, StartPage(s, accepted), r.unshown, f);
    hide ShowOk, ScanOk, Launch;
  }

  lemma StartProjectionOk(r: Run, accepted: bool, f: Folding)
    requires RunOk(r, f)
    ensures RunOk(r.(state := StartProjection(r.state, accepted)), f)
  {
    StartProjectionKeeps(r.state, accepted, r.unshown, f);
    hide ShowOk, QueueOk, Indexes, Whole, ParentClosed;
  }

  lemma QueueProjectionOk(r: Run, q: Run, clear: bool, accepted: bool, f: Folding)
    requires RunOk(r, f) && (q.gentle ==> r.gentle) && q.unshown == r.unshown && q.state.show == r.state.show
    requires ScanOk(q.state.index, q.state.searchable, q.state.scan, q.listed, q.panicked, q.gentle, f.path)
    ensures RunOk(q.(state := QueueProjection(q.state, clear, accepted)), f)
  {
    var t := QueueProjection(q.state, clear, accepted);
    QueueProjectionKeeps(r.state, q.state, clear, accepted, r.unshown, f);
    assert q.gentle ==> ParentClosed(q.state.index.nodes);
    assert t.show.job == r.state.show.job || t.show.job.value.index == q.state.index;
    assert t.scan == q.state.scan && t.index == q.state.index && t.searchable == q.state.searchable;
    hide ShowOk, ScanOk, ParentClosed, QueueProjection;
  }

  lemma ClearProjectionOk(r: Run, s: SearchState, f: Folding)
    requires RunOk(r, f) && s.query == ""
    requires s == r.state.(query := s.query, editing := s.editing)
    ensures RunOk(r.(state := ClearProjection(s)), f)
  {
    hide ScanOk, ParentClosed, ProjectionOf;
  }

  /** A page that is not accepted only gives its directories back, if it was the running one. */
  lemma UnacceptedScan(t: TreeState, searchable: Searchable, q: ScanState, listed: set<Path>, panicked: bool,
                       gentle: bool, fold: Fold, o: PageOutcome)
    requires ScanOk(t, searchable, q, listed, panicked, gentle, fold) && q.page.Some? && !Accepts(q, o)
    ensures q.running.Some? ==> q.running.value == (q.page.value.generation, q.page.value.epoch) && o.cancelled
    ensures q.running.Some? ==> q.page.value.epoch == q.epoch
    ensures q.running.None? ==> ScanOk(t, searchable, q.(page := None), listed, panicked, gentle, fold)
  {
    hide Antichain, Ahead, Indexes, Fit;
    if gentle { FitSame(t, q, q.(page := None), listed, panicked); }
  }

  lemma UnacceptedOk(r: Run, o: PageOutcome, projected: bool, accepted: bool, f: Folding)
    requires RunOk(r, f) && r.state.scan.page.Some? && !Accepts(r.state.scan, o)
    ensures RunOk(r.(state := CompletePage(r.state, o, f.path, projected, accepted)), f)
  {
    var s, q := r.state, r.state.scan;
    UnacceptedScan(s.index, s.searchable, q, r.listed, r.panicked, r.gentle, f.path, o);
    CancelledScanOk(s.index, s.searchable, q, r.listed, r.panicked, r.gentle, f.path);
    ViewKeeps(s, CompletePage(s, o, f.path, projected, accepted), r.unshown, f);
    hide ScanOk, ShowOk, StartPage, AcceptPage, QueueProjection;
  }

  lemma PageDoneOk(r: Run, e: Event, f: Folding)
    requires RunOk(r, f) && e.PageDone? && Enabled(r.state, e)
    ensures RunOk(Step(r, e, f), f)
  {
    var s, o := r.state, e.outcome;
    if Accepts(s.scan, o) {
      var u := AcceptPage(s, s.scan.page.value, o, f.path);
      var q := r.(state := u, listed := r.listed + ListedBy(o.listings));
      AcceptedScanOk(s, o, r.listed, r.panicked, r.gentle, f.path);
      QueueProjectionOk(r, q, false, e.projected, f);
      StartPageOk(q.(state := QueueProjection(u, false, e.projected)), e.accepted, f);
      hide RunOk, AcceptPage, QueueProjection, StartPage, ListedBy, Plausible;
    } else {
      UnacceptedOk(r, o, e.projected, e.accepted, f);
      hide RunOk, CompletePage, Plausible;
    }
  }

  lemma ScanChangedOk(r: Run, t: Run, f: Folding)
    requires RunOk(r, f) && t.gentle == r.gentle && t.unshown == r.unshown
    requires t.state == r.state.(scan := t.state.scan, active := t.state.active, editing := t.state.editing)
    requires ScanOk(t.state.index, t.state.searchable, t.state.scan, t.listed, t.panicked, t.gentle, f.path)
    ensures RunOk(t, f)
  {
    ViewKeeps(r.state, t.state, r.unshown, f);
    hide ScanOk, ShowOk, ParentClosed;
  }

  lemma RestartOk(r: Run, accepted: bool, f: Folding)
    requires RunOk(r, f)
    ensures RunOk(Step(r, Restart(accepted), f), f)
  {
    var s := r.state;
    var t := r.(state := Restarted(s), listed := {}, panicked := false);
    RescanOk(s.index, s.searchable, s.scan, r.listed, r.panicked, r.gentle, f.path, VirtualCount(s.searchable));
    ScanChangedOk(r, t, f);
    StartPageOk(t, accepted, f);
    hide RunOk, ScanOk, Restarted, StartPage;
  }

  lemma PagePanickedOk(r: Run, e: Event, f: Folding)
    requires RunOk(r, f) && e.PagePanicked? && Enabled(r.state, e)
    ensures RunOk(Step(r, e, f), f)
  {
    var s := r.state;
    var t := r.(state := s.(scan := LosePage(s.scan)), panicked := r.panicked || s.scan.running.Some?);
    LostScanOk(s.index, s.searchable, s.scan, r.listed, r.panicked, r.gentle, f.path);
    ScanChangedOk(r, t, f);
    StartPageOk(t, e.accepted, f);
    StartProjectionOk(t.(state := StartPage(t.state, e.accepted)), e.projected, f);
    hide RunOk, ScanOk, LosePage, StartPage, StartProjection;
  }

  lemma ProjectionLostOk(r: Run, e: Event, f: Folding)
    requires RunOk(r, f) && e.ProjectionPanicked?
    ensures RunOk(Step(r, e, f), f)
  {
    var s := r.state;
    var t := r.(state := s.(show := LoseProjection(s.show)), unshown := r.unshown || Newest(s.show));
    assert RunOk(t, f) by { hide ScanOk, ShowOk, ParentClosed; }
    StartPageOk(t, e.accepted, f);
    StartProjectionOk(t.(state := StartPage(t.state, e.accepted)), e.projected, f);
    hide RunOk, LoseProjection, StartPage, StartProjection;
  }

  lemma ProjectionDoneOk(r: Run, finished: bool, f: Folding)
    requires RunOk(r, f)
    ensures RunOk(Step(r, ProjectionDone(finished), f), f)
  {
    CompleteProjectionKeeps(r.state, finished, r.unshown, f);
    var s, t := r.state, CompleteProjection(r.state, finished, f);
    assert t.index.(selection := s.index.selection) == s.index;
    assert t.searchable == s.searchable && t.scan == s.scan;
    hide ScanOk, ShowOk, ParentClosed, CompleteProjection;
  }

  lemma OverlayOk(r: Run, e: Event, f: Folding)
    requires RunOk(r, f) && e.Overlay? && Enabled(r.state, e)
    ensures RunOk(Step(r, e, f), f)
  {
    var s := r.state;
    var index := Synced(s.index, e.source);
    var q := r.(state := s.(index := index, searchable := WithVirtuals(s.searchable, index.nodes, f.path)),
                gentle := r.gentle && Gentle(s.index, e.source));
    SyncedScanOk(s.index, s.searchable, s.scan, r.listed, r.panicked, r.gentle, f.path, e.source);
    QueueProjectionOk(r, q, false, e.projected, f);
    hide RunOk, ScanOk, Synced, WithVirtuals, QueueProjection, Gentle;
  }

  /** Every event keeps the whole of the invariant. */
  lemma StepOk(r: Run, e: Event, f: Folding)
    requires RunOk(r, f) && Enabled(r.state, e)
    ensures RunOk(Step(r, e, f), f)
  {
    match e
    case PageDone(_, _, _) => PageDoneOk(r, e, f);
    case PagePanicked(_, _) => PagePanickedOk(r, e, f);
    case ProjectionDone(finished) => ProjectionDoneOk(r, finished, f);
    case ProjectionPanicked(_, _) => ProjectionLostOk(r, e, f);
    case Restart(accepted) => RestartOk(r, accepted, f);
    case Overlay(_, _) => OverlayOk(r, e, f);
    case Select(_) =>
    case Pause => PauseOk(r, f);
    case Resume(_, _) => ResumeOk(r, e, f);
    case Retry(_, _) => ResumeOk(r, e, f);
    case _ => InputOk(r, e, f);
  }

  lemma PauseOk(r: Run, f: Folding)
    requires RunOk(r, f)
    ensures RunOk(Step(r, Pause, f), f)
  {
    var s := r.state;
    PausedScanOk(s.index, s.searchable, s.scan, r.listed, r.panicked, r.gentle, f.path);
    hide ScanOk, ShowOk, ParentClosed, PausedScan;
  }

  lemma BeginOk(r: Run, accepted: bool, f: Folding)
    requires RunOk(r, f)
    ensures RunOk(Step(r, Begin(accepted), f), f)
  {
    var t := r.(state := r.state.(editing := true));
    ScanChangedOk(r, t, f);
    StartPageOk(t, accepted, f);
    hide RunOk, StartPage;
  }

  lemma TypeOk(r: Run, e: Event, f: Folding)
    requires RunOk(r, f) && e.Input?
    ensures RunOk(Step(r, e, f), f)
  {
    var t := r.(state := r.state.(query := r.state.query + e.added));
    QueueProjectionOk(r, t, true, e.projected, f);
    StartPageOk(t.(state := QueueProjection(t.state, true, e.projected)), e.accepted, f);
    hide RunOk, QueueProjection, StartPage;
  }

  lemma BackspaceOk(r: Run, projected: bool, f: Folding)
    requires RunOk(r, f)
    ensures RunOk(Step(r, Backspace(projected), f), f)
  {
    var s := r.state;
    if |s.query| == 1 {
      ClearProjectionOk(r, s.(query := ""), f);
    } else if s.query != "" {
      QueueProjectionOk(r, r.(state := s.(query := s.query[..|s.query| - 1])), true, projected, f);
    }
    hide RunOk, QueueProjection, ClearProjection;
  }

  lemma CommitOk(r: Run, f: Folding)
    requires RunOk(r, f)
    ensures RunOk(Step(r, Commit, f), f)
  {
    ScanChangedOk(r, r.(state := r.state.(editing := false)), f);
    hide RunOk;
  }

  /** Typing and clearing. */
  lemma InputOk(r: Run, e: Event, f: Folding)
    requires RunOk(r, f)
    requires e.Begin? || e.Input? || e.Backspace? || e.Clear? || e.Commit?
    ensures RunOk(Step(r, e, f), f)
  {
    hide RunOk;
    match e
    case Begin(accepted) => BeginOk(r, accepted, f);
    case Input(_, _, _) => TypeOk(r, e, f);
    case Backspace(projected) => BackspaceOk(r, projected, f);
    case Clear(keepEditing) =>
      ClearProjectionOk(r, r.state.(query := "", editing := keepEditing), f);
      hide ClearProjection;
    case Commit => CommitOk(r, f);
  }

  /** Resuming and retrying. */
  lemma ResumeOk(r: Run, e: Event, f: Folding)
    requires RunOk(r, f) && (e.Resume? || e.Retry?)
    ensures RunOk(Step(r, e, f), f)
  {
    var t := if e.Resume? then r.(state := r.state.(active := true)) else r;
    assert RunOk(t, f) by { ScanChangedOk(r, t, f); }
    hide RunOk, StartPage, StartProjection;
    StartPageOk(t, e.accepted, f);
    StartProjectionOk(t.(state := StartPage(t.state, e.accepted)), e.projected, f);
  }

  // ---------------------------------------------------------------- whole runs

  ghost predicate Legal(r: Run, es: seq<Event>, f: Folding)
    requires RunOk(r, f)
    decreases |es|
  {
    es == [] || (Enabled(r.state, es[0]) && (StepOk(r, es[0], f); Legal(Step(r, es[0], f), es[1..], f)))
  }

  /** Where a run ends; the invariant holds there. */
  ghost function After(r: Run, es: seq<Event>, f: Folding): (t: Run)
    requires RunOk(r, f) && Legal(r, es, f)
    ensures RunOk(t, f)
    decreases |es|
  {
    if es == [] then r else (StepOk(r, es[0], f); After(Step(r, es[0], f), es[1..], f))
  }

  /** One more event is one more step. */
  lemma {:induction false} AfterLast(r: Run, es: seq<Event>, e: Event, f: Folding)
    requires RunOk(r, f) && Legal(r, es + [e], f)
    ensures Legal(r, es, f) && Enabled(After(r, es, f).state, e)
    ensures After(r, es + [e], f) == Step(After(r, es, f), e, f)
    decreases |es|
  {
    hide ScanOk, Captured, Shown, Numbered, ParentClosed, Step, Enabled;
    if es == [] {
      assert (es + [e])[1..] == [];
      StepOk(r, e, f);
    } else {
      assert (es + [e])[0] == es[0] && (es + [e])[1..] == es[1..] + [e];
      StepOk(r, es[0], f);
      AfterLast(Step(r, es[0], f), es[1..], e, f);
    }
  }

  /** A search opened over a tree. */
  function Start(tree: TreeState, f: Folding, active: bool): Run {
    Run(Opened(SearchSeed(tree, MAX_INDEX_ENTRIES), f.path, active), {}, false, true, false)
  }

  lemma SeedNodes(tree: TreeState, limit: nat)
    requires Coherent(tree)
    ensures var seed := SearchSeed(tree, limit);
            && ROOT !in seed.nodes && seed.children == ChildIndex(seed.nodes)
            && forall p :: p in seed.nodes ==> seed.nodes[p].kind == Virtual
  {
    var seed := SearchSeed(tree, limit);
    forall p | p in seed.nodes ensures p in VirtualOverlay(tree.nodes) && seed.nodes[p] == tree.nodes[p] {
      var virtuals := InOrder(VirtualOverlay(tree.nodes).Keys);
      assert p in virtuals;
    }
    hide ChildIndex;
  }

  lemma OpenedScanOk(seed: TreeState, f: Folding, active: bool)
    requires ROOT !in seed.nodes && seed.children == ChildIndex(seed.nodes)
    requires forall p :: p in seed.nodes ==> seed.nodes[p].kind == Virtual
    ensures var s := Opened(seed, f.path, active);
            ScanOk(seed, s.searchable, s.scan, {}, false, true, f.path)
  {
    var s := Opened(seed, f.path, active);
    SeedIndexes(seed, f);
    hide Indexes, ParentClosed, Covered, Antichain, SearchableOf;
    RootCovers(seed.nodes, s.scan);
  }

  lemma SeedIndexes(seed: TreeState, f: Folding)
    requires ROOT !in seed.nodes && seed.children == ChildIndex(seed.nodes)
    requires forall p :: p in seed.nodes ==> seed.nodes[p].kind == Virtual
    ensures Indexes(seed, SearchableOf(seed.nodes, f.path), f.path) && ParentClosed(seed.nodes)
  {
    hide ChildIndex;
  }

  lemma OpenedShowOk(seed: TreeState, f: Folding, active: bool)
    requires ROOT !in seed.nodes
    ensures ShowOk(Opened(seed, f.path, active), false, f)
  {
    hide ProjectionOf;
  }

  lemma StartOk(tree: TreeState, f: Folding, active: bool)
    requires Coherent(tree)
    ensures RunOk(Start(tree, f, active), f)
  {
    SeedNodes(tree, MAX_INDEX_ENTRIES);
    OpenedScanOk(SearchSeed(tree, MAX_INDEX_ENTRIES), f, active);
    OpenedShowOk(SearchSeed(tree, MAX_INDEX_ENTRIES), f, active);
    hide SearchSeed, ScanOk, ShowOk, ChildIndex;
  }

  /** The queue along every run: no directory repeats or lies above another, none reaches a directory
      already listed since the last restart, and a running page is of the current epoch, the newest job,
      and carries the running directories. */
  lemma QueueTheorem(tree: TreeState, f: Folding, active: bool, es: seq<Event>)
    requires Coherent(tree) && (StartOk(tree, f, active); Legal(Start(tree, f, active), es, f))
    ensures (StartOk(tree, f, active);
             var r := After(Start(tree, f, active), es, f);
             && Antichain(Queue(r.state.scan))
             && Ahead(Queue(r.state.scan), r.listed)
             && (r.state.scan.running.Some? ==>
                   r.state.scan.running.value == (r.state.scan.jobGeneration, r.state.scan.epoch)))
  {
    StartOk(tree, f, active);
    var r := After(Start(tree, f, active), es, f);
    assert QueueOk(r.state.scan, r.listed, r.panicked);
    hide RunOk, Legal, Antichain, Ahead, After, Start;
  }

  /** An accepted page never lists a directory a second time between restarts. */
  lemma ListedOnce(r: Run, o: PageOutcome, f: Folding)
    requires RunOk(r, f) && r.state.scan.page.Some? && Plausible(r.state.scan.page.value, o) && Accepts(r.state.scan, o)
    ensures ListedBy(o.listings) !! r.listed
  {
    AdvancedQueue(r.state.scan, r.listed, r.panicked, o);
  }

  /** A scan that completes whole has listed the root and every directory row of the index. */
  lemma CompleteScanTheorem(r: Run, f: Folding, d: Path)
    requires RunOk(r, f) && r.gentle
    requires r.state.scan.complete && Whole(r.state.scan, r.panicked)
    requires d == ROOT || IsDirectory(r.state.index.nodes, d)
    ensures d in r.listed
  {
    assert Members(Queue(r.state.scan)) == {};
    hide Indexes, Rooted;
  }

  /** With every projection request answered and none lost, the rows on show are exactly the matches of
      the current query in the current index with all they hang under, each once, in pre-order. */
  lemma ShownTheorem(r: Run, f: Folding)
    requires RunOk(r, f) && r.gentle
    requires r.state.query != "" && r.state.show.applied == r.state.show.requested && !r.unshown
    ensures var (v, nodes) := (r.state.show, r.state.index.nodes);
            && v.matches == Matches(r.state.searchable, f.query(r.state.query))
            && (forall p :: p in v.rows <==> p in Included(nodes, v.matches))
            && Preorder(nodes, v.rows)
            && (forall i, j :: 0 <= i < j < |v.rows| ==> v.rows[i] != v.rows[j])
            && (forall p :: p in v.expandedContext <==> p in v.rows && IsDirectory(nodes, p))
  {
    assert Shown(r.state, r.unshown, f);
    assert ParentClosed(r.state.index.nodes) && Tracks(r.state.searchable, r.state.index.nodes, f.path);
    assert ProjectionOf(r.state.index.nodes, r.state.searchable, f.query(r.state.query)).matches
           == Matches(r.state.searchable, f.query(r.state.query));
    hide RunOk, Included, Preorder, ParentClosed, Tracks, ProjectionOf, Matches;
    ProjectionMeaning(r.state.index.nodes, r.state.searchable, f.query(r.state.query));
  }

  // ---------------------------------------------------------------- when the map is exact

  /** The searchable map, and the one a page worker took along, are those built from scratch. */
  ghost predicate Exact(s: SearchState, f: Folding) {
    && s.searchable == SearchableOf(s.index.nodes, f.path)
    && (s.scan.page.Some? ==> s.scan.page.value.searchable == SearchableOf(s.scan.page.value.index.nodes, f.path))
  }

  /** An accepted page shows no missing-file row as a directory. */
  predicate NoRevival(s: SearchState, e: Event) {
    e.PageDone? && Accepts(s.scan, e.outcome) ==>
      Revived(s.scan.page.value.index.nodes, e.outcome.listings) == {}
  }

  lemma PageApart(q: ScanState, o: PageOutcome)
    requires PageOk(q) && Antichain(Queue(q)) && Accepts(q, o) && Plausible(q.page.value, o)
    ensures ValidListings(o.listings) && DistinctDirectories(o.listings) && ApartDirectories(o.listings)
  {
    PageListings(q, o);
    assert forall d :: d in q.runningDirectories ==> d in Queue(q);
    hide Plausible;
  }

  /** Whatever a page revives stays, as no directory of the page is above another. */
  lemma RevivedRemains(t: TreeState, ls: seq<Listing>)
    requires ValidListings(ls) && ApartDirectories(ls) && ROOT !in t.nodes
    ensures (forall p :: p in Revived(t.nodes, ls) ==> p !in LoadAll(t, ls).nodes) <==> Revived(t.nodes, ls) == {}
  {
    hide LoadAll, ApartDirectories, ValidListings;
    forall p | p in Revived(t.nodes, ls) ensures p in LoadAll(t, ls).nodes {
      ListedRemains(t, ls, p);
    }
  }

  /** Where a page is accepted, exactness survives exactly when nothing was revived. */
  lemma AcceptedExactly(r: Run, e: Event, f: Folding)
    requires RunOk(r, f) && Exact(r.state, f) && Enabled(r.state, e) && e.PageDone? && Accepts(r.state.scan, e.outcome)
    ensures Exact(Next(r.state, e, f), f) <==> NoRevival(r.state, e)
  {
    var s, o := r.state, e.outcome;
    var u := AcceptPage(s, s.scan.page.value, o, f.path);
    PageApart(s.scan, o);
    PageExactness(s.scan.page.value.index, o.listings, f.path);
    RevivedRemains(s.scan.page.value.index, o.listings);
    StartExact(u, e.projected, e.accepted, f);
    assert Next(s, e, f) == StartPage(QueueProjection(u, false, e.projected), e.accepted);
    hide StartPage, QueueProjection, Plausible, Revived, LoadAll, Refreshed, SearchableOf, RunOk, Advanced;
  }

  lemma StartExact(u: SearchState, projected: bool, accepted: bool, f: Folding)
    requires u.scan.page.None?
    ensures Exact(StartPage(QueueProjection(u, false, projected), accepted), f) <==> Exact(u, f)
  {
    QueueProjectionExact(u, false, projected, f);
    var v := QueueProjection(u, false, projected);
    hide SearchableOf, QueueProjection;
  }

  lemma QueueProjectionExact(s: SearchState, clear: bool, accepted: bool, f: Folding)
    ensures Exact(QueueProjection(s, clear, accepted), f) <==> Exact(s, f)
    ensures Exact(StartProjection(s, accepted), f) <==> Exact(s, f)
    ensures QueueProjection(s, clear, accepted).scan == s.scan
    ensures QueueProjection(s, clear, accepted).index == s.index
    ensures QueueProjection(s, clear, accepted).searchable == s.searchable
  {
    hide SearchableOf;
  }

  lemma StartPageExact(s: SearchState, accepted: bool, f: Folding)
    requires Exact(s, f)
    ensures Exact(StartPage(s, accepted), f)
  {
    hide SearchableOf;
  }

  lemma ScanExact(s: SearchState, t: SearchState, f: Folding)
    requires Exact(s, f) && t.index.nodes == s.index.nodes && t.searchable == s.searchable
    requires t.scan.page == s.scan.page || t.scan.page.None?
    ensures Exact(t, f)
  {
    hide SearchableOf;
  }

  /** Away from accepted pages and overlays the index keeps its nodes. */
  lemma QuietExact(s: SearchState, e: Event, f: Folding)
    requires Exact(s, f) && !e.Overlay? && (e.PageDone? ==> !Accepts(s.scan, e.outcome))
    requires s.show.job.Some? ==> ROOT !in s.show.job.value.index.nodes
    ensures Exact(Next(s, e, f), f)
  {
    hide Exact, Next;
    match e
    case Begin(_) => ScanningExact(s, e, f);
    case Restart(_) => ScanningExact(s, e, f);
    case Input(_, _, _) => TypingExact(s, e, f);
    case Backspace(_) => TypingExact(s, e, f);
    case PageDone(o, projected, accepted) => UnacceptedExact(s, o, projected, accepted, f);
      assert Next(s, e, f) == CompletePage(s, o, f.path, projected, accepted) by { NextPage(s, e, f); }
    case PagePanicked(_, _) => RestartingExact(s, e, f);
    case ProjectionPanicked(_, _) => RestartingExact(s, e, f);
    case Resume(_, _) => RestartingExact(s, e, f);
    case Retry(_, _) => RestartingExact(s, e, f);
    case _ => StillExact(s, e, f);
  }

  lemma NextPage(s: SearchState, e: Event, f: Folding)
    requires e.PageDone? && (s.show.job.Some? ==> ROOT !in s.show.job.value.index.nodes)
    ensures Next(s, e, f) == CompletePage(s, e.outcome, f.path, e.projected, e.accepted)
  {
    hide CompletePage;
  }

  lemma ScanningExact(s: SearchState, e: Event, f: Folding)
    requires Exact(s, f) && (e.Begin? || e.Restart?)
    requires s.show.job.Some? ==> ROOT !in s.show.job.value.index.nodes
    ensures Exact(Next(s, e, f), f)
  {
    var t := if e.Begin? then s.(editing := true) else Restarted(s);
    ScanExact(s, t, f);
    hide Exact, StartPage, Restarted;
    StartPageExact(t, e.accepted, f);
  }

  lemma TypingExact(s: SearchState, e: Event, f: Folding)
    requires Exact(s, f) && (e.Input? || e.Backspace?)
    requires s.show.job.Some? ==> ROOT !in s.show.job.value.index.nodes
    ensures Exact(Next(s, e, f), f)
  {
    hide Exact, StartPage, QueueProjection;
    if e.Input? {
      TypedExact(s, s.query + e.added, e.projected, f);
      StartPageExact(QueueProjection(s.(query := s.query + e.added), true, e.projected), e.accepted, f);
    } else {
      if |s.query| > 1 { TypedExact(s, s.query[..|s.query| - 1], e.projected, f); }
      ScanExact(s, ClearProjection(s.(query := "")), f);
    }
  }

  lemma UnacceptedExact(s: SearchState, o: PageOutcome, projected: bool, accepted: bool, f: Folding)
    requires Exact(s, f) && !Accepts(s.scan, o)
    ensures Exact(CompletePage(s, o, f.path, projected, accepted), f)
  {
    ScanExact(s, s.(scan := s.scan.(page := None)), f);
    ScanExact(s, s.(scan := Landed(s.scan)), f);
    ScanExact(s, s.(scan := Landed(s.scan).(pending := s.scan.runningDirectories + s.scan.pending)), f);
    hide Exact, StartPage, QueueProjection, AcceptPage, Landed;
    StartPageExact(s.(scan := Landed(s.scan)), accepted, f);
  }

  lemma RestartingExact(s: SearchState, e: Event, f: Folding)
    requires Exact(s, f) && (e.PagePanicked? || e.ProjectionPanicked? || e.Resume? || e.Retry?)
    requires s.show.job.Some? ==> ROOT !in s.show.job.value.index.nodes
    ensures Exact(Next(s, e, f), f)
  {
    var t := match e
      case PagePanicked(_, _) => s.(scan := LosePage(s.scan))
      case ProjectionPanicked(_, _) => s.(show := LoseProjection(s.show))
      case Resume(_, _) => s.(active := true)
      case _ => s;
    ScanExact(s, t, f);
    hide Exact, StartPage, StartProjection, LosePage, LoseProjection;
    StartAllExact(t, e.accepted, e.projected, f);
  }

  lemma TypedExact(s: SearchState, query: string, projected: bool, f: Folding)
    requires Exact(s, f)
    ensures Exact(QueueProjection(s.(query := query), true, projected), f)
  {
    QueueProjectionExact(s.(query := query), true, projected, f);
    hide QueueProjection, SearchableOf;
  }

  lemma StillExact(s: SearchState, e: Event, f: Folding)
    requires Exact(s, f) && (e.Clear? || e.Commit? || e.ProjectionDone? || e.Select? || e.Pause?)
    requires s.show.job.Some? ==> ROOT !in s.show.job.value.index.nodes
    ensures Exact(Next(s, e, f), f)
  {
    hide SearchableOf, ProjectionOf, FirstMatch;
  }

  lemma StartAllExact(s: SearchState, accepted: bool, projected: bool, f: Folding)
    requires Exact(s, f)
    ensures Exact(StartProjection(StartPage(s, accepted), projected), f)
  {
    StartPageExact(s, accepted, f);
    QueueProjectionExact(StartPage(s, accepted), false, projected, f);
    hide StartPage, StartProjection;
  }

  lemma StepExact(r: Run, e: Event, f: Folding)
    requires RunOk(r, f) && Exact(r.state, f) && Enabled(r.state, e) && NoRevival(r.state, e)
    ensures Exact(Next(r.state, e, f), f)
  {
    var s := r.state;
    if e.PageDone? && Accepts(s.scan, e.outcome) {
      AcceptedExactly(r, e, f);
    } else if e.Overlay? {
      SyncedIndexes(s.index, s.searchable, e.source, f.path);
      var index := Synced(s.index, e.source);
      QueueProjectionExact(s.(index := index, searchable := WithVirtuals(s.searchable, index.nodes, f.path)), false,
          e.projected, f);
      hide RunOk, WithVirtuals, Synced, SearchableOf, QueueProjection;
    } else {
      hide RunOk, Exact;
      QuietExact(s, e, f);
    }
  }

  /** No page of the run shows a missing-file row as a directory. */
  ghost predicate Quiet(r: Run, es: seq<Event>, f: Folding)
    requires RunOk(r, f) && Legal(r, es, f)
    decreases |es|
  {
    es == [] || (NoRevival(r.state, es[0]) && (StepOk(r, es[0], f); Quiet(Step(r, es[0], f), es[1..], f)))
  }

  lemma {:induction false} RunKeepsExact(r: Run, es: seq<Event>, f: Folding)
    requires RunOk(r, f) && Legal(r, es, f) && Quiet(r, es, f) && Exact(r.state, f)
    ensures Exact(After(r, es, f).state, f)
    decreases |es|
  {
    if es != [] {
      StepOk(r, es[0], f);
      StepExact(r, es[0], f);
      assert Step(r, es[0], f).state == Next(r.state, es[0], f);
      hide RunOk, Exact, Step, NoRevival;
      RunKeepsExact(Step(r, es[0], f), es[1..], f);
    }
  }

  /** Along every run without revivals from an opened search the searchable map is the one built from the
      index: its keys are exactly the rows that are no directories, with their kinds. */
  lemma ExactTheorem(tree: TreeState, f: Folding, active: bool, es: seq<Event>)
    requires Coherent(tree) && (StartOk(tree, f, active); Legal(Start(tree, f, active), es, f))
    requires (StartOk(tree, f, active); Quiet(Start(tree, f, active), es, f))
    ensures (StartOk(tree, f, active);
             var s := After(Start(tree, f, active), es, f).state;
             && s.searchable == SearchableOf(s.index.nodes, f.path)
             && (forall p :: p in s.searchable <==> p in s.index.nodes && s.index.nodes[p].kind != Directory)
             && (forall p :: p in s.searchable ==> s.searchable[p].kind == s.index.nodes[p].kind))
  {
    StartOk(tree, f, active);
    assert Exact(Start(tree, f, active).state, f) by { hide SearchableOf, SearchSeed; }
    RunKeepsExact(Start(tree, f, active), es, f);
    hide RunOk, Legal, Quiet, After, Start;
  }

  /** Copying the overlay repairs the map, whatever happened before. */
  lemma OverlayRepairs(r: Run, source: TreeState, projected: bool, f: Folding)
    requires RunOk(r, f) && Coherent(source)
    ensures var t := Next(r.state, Overlay(source, projected), f);
            t.searchable == SearchableOf(t.index.nodes, f.path)
  {
    var s := r.state;
    var index := Synced(s.index, source);
    SyncedIndexes(s.index, s.searchable, source, f.path);
    QueueProjectionExact(s.(index := index, searchable := WithVirtuals(s.searchable, index.nodes, f.path)), false,
        projected, f);
    hide RunOk, WithVirtuals, Synced, SearchableOf, QueueProjection, Exact;
  }
}
