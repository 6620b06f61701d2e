/** Search index pages and the projection of matches onto rows. */
module Search {
  import opened Wrappers
  import opened Paths
  import opened Status
  import opened Tree
  import opened Rows
  import opened FilesTree

  const DIRECTORIES_PER_PAGE: nat := 64
  const MAX_INDEX_ENTRIES: nat := 50_000
  const MAX_EXAMINED_ENTRIES: nat := 200_000

  datatype Indexed = Indexed(kind: NodeKind, normalized: string)

  type Searchable = map<Path, Indexed>

  /** Normalises a path for matching; lower-casing is the environment's. */
  type Fold = Path -> string

  /** The searchable map built from scratch: every cached row that is not a directory. */
  function SearchableOf(nodes: Nodes, fold: Fold): Searchable {
    map p | p in nodes && nodes[p].kind != Directory :: Indexed(nodes[p].kind, fold(p))
  }

  /** Entries left behind: kept as missing files although the index holds a directory there. */
  function Stale(searchable: Searchable, nodes: Nodes): set<Path> {
    set p | p in searchable && IsDirectory(nodes, p)
  }

  /** The incremental map is the one built from scratch, but for stale missing-file entries. */
  predicate Tracks(searchable: Searchable, nodes: Nodes, fold: Fold) {
    && (forall p :: p in searchable ==>
          p in nodes && searchable[p] == Indexed(if nodes[p].kind == Directory then Virtual
              else nodes[p].kind, fold(p)))
    && (forall p :: p in nodes && nodes[p].kind != Directory ==> p in searchable)
  }

  lemma TracksExactly(searchable: Searchable, nodes: Nodes, fold: Fold)
    requires Tracks(searchable, nodes, fold)
    ensures searchable == SearchableOf(nodes, fold) <==> Stale(searchable, nodes) == {}
  {
    var full := SearchableOf(nodes, fold);
    if Stale(searchable, nodes) == {} {
      forall p | p in searchable ensures p in full && searchable[p] == full[p] {
        assert p !in Stale(searchable, nodes);
      }
      assert searchable.Keys == full.Keys;
    } else {
      var p :| p in Stale(searchable, nodes);
      assert p !in full;
    }
  }

  // ---------------------------------------------------------------- pages

  datatype LoadOutcome = LoadFailed | DirectoryLoaded(listing: Listing, examined: nat, truncated: bool)

  /** A bounded directory load: entry budget, examination budget, outcome. */
  type Loader = (Path, nat, nat) -> LoadOutcome

  ghost predicate Faithful(load: Loader) {
    forall d, entries: nat, examined: nat :: load(d, entries, examined).DirectoryLoaded? ==>
      && ValidListing(load(d, entries, examined).listing)
      && load(d, entries, examined).listing.directory == d
      && |load(d, entries, examined).listing.entries| <= (if entries == 0 then 1 else entries)
  }

  /** The page's last word on a directory: its listed entries, if the page scanned it. */
  function ScanOf(ls: seq<Listing>, d: Path): Option<map<Path, Listed>> {
    if ls == [] then None
    else if ls[|ls| - 1].directory == d then Some(ls[|ls| - 1].entries)
    else ScanOf(ls[..|ls| - 1], d)
  }

  predicate ValidListings(ls: seq<Listing>) {
    forall i :: 0 <= i < |ls| ==> ValidListing(ls[i])
  }

  predicate DistinctDirectories(ls: seq<Listing>) {
    forall i, j :: 0 <= i < j < |ls| ==> ls[i].directory != ls[j].directory
  }

  function LoadAll(t: TreeState, ls: seq<Listing>): TreeState {
    if ls == [] then t else Loaded(LoadAll(t, ls[..|ls| - 1]), ls[|ls| - 1])
  }

  predicate InPage(ls: seq<Listing>, p: Path) {
    ScanOf(ls, Parent(p)).Some? && p in ScanOf(ls, Parent(p)).value
  }

  /** What the page says a path is, if it lists it. */
  function PageKind(ls: seq<Listing>, p: Path): NodeKind
    requires InPage(ls, p)
  {
    ScanOf(ls, Parent(p)).value[p].kind
  }

  /** Missing-file rows that the page shows as directories. */
  function Revived(nodes: Nodes, ls: seq<Listing>): set<Path> {
    set p | p in nodes && nodes[p].kind == Virtual && InPage(ls, p) && PageKind(ls, p) == Directory
  }

  lemma {:induction false} LoadAllKeepsRootOut(t: TreeState, ls: seq<Listing>)
    requires ROOT !in t.nodes && ValidListings(ls)
    ensures ROOT !in LoadAll(t, ls).nodes
  {
    if ls != [] {
      LoadAllKeepsRootOut(t, ls[..|ls| - 1]);
      hide LoadAll;
    }
  }

  lemma {:induction false} ScanAbsent(ls: seq<Listing>, d: Path)
    ensures ScanOf(ls, d).None? <==> forall i :: 0 <= i < |ls| ==> ls[i].directory != d
  {
    if ls != [] {
      ScanAbsent(ls[..|ls| - 1], d);
    }
  }

  /** After a page a cached path is what the page lists it as, or an earlier node of a directory
      the page did not scan; missing-file rows the page does not list stay. */
  ghost predicate PageNode(was: Nodes, now: Nodes, ls: seq<Listing>, p: Path) {
    && (p in now ==>
          if InPage(ls, p) then now[p].kind == PageKind(ls, p) != Virtual
          else p in was && now[p] == was[p] && (was[p].kind == Virtual || ScanOf(ls, Parent(p)).None?))
    && (p in was && was[p].kind == Virtual && !InPage(ls, p) ==> p in now)
  }

  lemma PageNodeStep(was: Nodes, before: Nodes, statuses: map<Path, StatusKind>, ls: seq<Listing>, p: Path)
    requires ls != [] && ValidListing(ls[|ls| - 1]) && p != ROOT
    requires ScanOf(ls[..|ls| - 1], ls[|ls| - 1].directory).None?
    requires PageNode(was, before, ls[..|ls| - 1], p)
    ensures PageNode(was, Applied(before, statuses, ls[|ls| - 1]), ls, p)
  {
    var l := ls[|ls| - 1];
    AppliedAt(before, statuses, l, p);
    assert Lookup(Applied(before, statuses, l), p).Some? <==> p in Applied(before, statuses, l);
    hide Applied;
  }

  lemma {:induction false} LoadAllNode(t: TreeState, ls: seq<Listing>, p: Path)
    requires ValidListings(ls) && DistinctDirectories(ls) && p != ROOT
    ensures PageNode(t.nodes, LoadAll(t, ls).nodes, ls, p)
  {
    if ls != [] {
      LoadAllNode(t, ls[..|ls| - 1], p);
      hide LoadAll;
      ScanAbsent(ls[..|ls| - 1], ls[|ls| - 1].directory);
      PageNodeStep(t.nodes, LoadAll(t, ls[..|ls| - 1]).nodes, LoadAll(t, ls[..|ls| - 1]).statuses, ls, p);
    }
  }

  // ---------------------------------------------------------------- the searchable map across a page

  function ScannedDirectories(ls: seq<Listing>): set<Path> {
    set i | 0 <= i < |ls| :: ls[i].directory
  }

  /** Entries of scanned directories are forgotten, missing-file entries excepted. */
  function Swept(searchable: Searchable, scanned: set<Path>): Searchable {
    map p | p in searchable && (searchable[p].kind == Virtual || Parent(p) !in scanned) :: searchable[p]
  }

  /** The non-directory entries of a page, later listings over earlier ones. */
  function PageEntries(ls: seq<Listing>, fold: Fold): Searchable {
    if ls == [] then map[]
    else PageEntries(ls[..|ls| - 1], fold) + EntriesOf(ls[|ls| - 1], fold)
  }

  function EntriesOf(l: Listing, fold: Fold): Searchable {
    map p | p in l.entries && l.entries[p].kind != Directory :: Indexed(l.entries[p].kind, fold(p))
  }

  function Refreshed(searchable: Searchable, ls: seq<Listing>, nodes: Nodes, fold: Fold): Searchable {
    var merged := Swept(searchable, ScannedDirectories(ls)) + PageEntries(ls, fold);
    map p | p in merged && p in nodes :: merged[p]
  }

  lemma {:induction false} PageEntriesAt(ls: seq<Listing>, fold: Fold, p: Path)
    requires ValidListings(ls) && DistinctDirectories(ls) && p != ROOT
    ensures p in PageEntries(ls, fold) <==> InPage(ls, p) && PageKind(ls, p) != Directory
    ensures p in PageEntries(ls, fold) ==> PageEntries(ls, fold)[p] == Indexed(PageKind(ls, p), fold(p))
  {
    if ls != [] {
      PageEntriesAt(ls[..|ls| - 1], fold, p);
      ScanAbsent(ls[..|ls| - 1], ls[|ls| - 1].directory);
    }
  }

  /** What a page owes the searchable map at one path. */
  ghost predicate RefreshedWell(searchable: Searchable, was: Nodes, after: Searchable, now: Nodes,
                                ls: seq<Listing>, fold: Fold, p: Path) {
    && (p in after ==> p in now)
    && (p in after ==> after[p] == Indexed(if now[p].kind == Directory then Virtual else now[p].kind, fold(p)))
    && (p in now && now[p].kind != Directory ==> p in after)
    && (p in after && IsDirectory(now, p) ==> p in Stale(searchable, was) || p in Revived(was, ls))
    && (p in Revived(was, ls) && p in now ==> p in after && IsDirectory(now, p))
  }

  lemma RefreshedAt(searchable: Searchable, was: Nodes, now: Nodes, ls: seq<Listing>, fold: Fold, p: Path)
    requires ValidListings(ls) && DistinctDirectories(ls)
    requires ROOT !in was && ROOT !in now
    requires Tracks(searchable, was, fold) && (p != ROOT ==> PageNode(was, now, ls, p))
    ensures RefreshedWell(searchable, was, Refreshed(searchable, ls, now, fold), now, ls, fold, p)
  {
    if p != ROOT {
      PageEntriesAt(ls, fold, p);
      ScanAbsent(ls, Parent(p));
      assert Parent(p) in ScannedDirectories(ls) <==> ScanOf(ls, Parent(p)).Some?;
    }
  }

  /** A page keeps the searchable map in step with the index; new stale entries arise exactly from
      the missing-file rows the page lists as directories. */
  lemma PageKeepsTracking(searchable: Searchable, t: TreeState, ls: seq<Listing>, fold: Fold)
    requires ValidListings(ls) && DistinctDirectories(ls) && ROOT !in t.nodes
    requires Tracks(searchable, t.nodes, fold)
    ensures Tracks(Refreshed(searchable, ls, LoadAll(t, ls).nodes, fold), LoadAll(t, ls).nodes, fold)
    ensures forall p :: p in Stale(Refreshed(searchable, ls, LoadAll(t, ls).nodes, fold), LoadAll(t, ls).nodes) ==>
              p in Stale(searchable, t.nodes) || p in Revived(t.nodes, ls)
    ensures forall p :: p in Revived(t.nodes, ls) && p in LoadAll(t, ls).nodes ==>
              p in Stale(Refreshed(searchable, ls, LoadAll(t, ls).nodes, fold), LoadAll(t, ls).nodes)
  {
    var now := LoadAll(t, ls).nodes;
    var after := Refreshed(searchable, ls, now, fold);
    LoadAllKeepsRootOut(t, ls);
    forall p ensures RefreshedWell(searchable, t.nodes, after, now, ls, fold, p) {
      if p != ROOT { LoadAllNode(t, ls, p); }
      RefreshedAt(searchable, t.nodes, now, ls, fold, p);
    }
    hide *;
    WellEverywhere(searchable, t.nodes, after, now, ls, fold);
  }

  lemma WellEverywhere(searchable: Searchable, was: Nodes, after: Searchable, now: Nodes, ls: seq<Listing>, fold: Fold)
    requires forall p :: RefreshedWell(searchable, was, after, now, ls, fold, p)
    ensures Tracks(after, now, fold)
    ensures forall p :: p in Stale(after, now) ==> p in Stale(searchable, was) || p in Revived(was, ls)
    ensures forall p :: p in Revived(was, ls) && p in now ==> p in Stale(after, now)
  {
    hide Revived;
    forall p | p in after
      ensures p in now && after[p] == Indexed(if now[p].kind == Directory then Virtual else now[p].kind, fold(p))
      ensures IsDirectory(now, p) ==> p in Stale(searchable, was) || p in Revived(was, ls)
    {
      assert RefreshedWell(searchable, was, after, now, ls, fold, p);
    }
    forall p | p in now && now[p].kind != Directory ensures p in after {
      assert RefreshedWell(searchable, was, after, now, ls, fold, p);
    }
    forall p | p in Revived(was, ls) && p in now ensures p in after && IsDirectory(now, p) {
      assert RefreshedWell(searchable, was, after, now, ls, fold, p);
    }
  }

  /** Starting exact, a page leaves the map exact exactly when it lists no remaining missing-file
      row as a directory. */
  lemma PageExactness(t: TreeState, ls: seq<Listing>, fold: Fold)
    requires ValidListings(ls) && DistinctDirectories(ls) && ROOT !in t.nodes
    ensures Refreshed(SearchableOf(t.nodes, fold), ls, LoadAll(t, ls).nodes, fold)
            == SearchableOf(LoadAll(t, ls).nodes, fold)
            <==> forall p :: p in Revived(t.nodes, ls) ==> p !in LoadAll(t, ls).nodes
  {
    var start := SearchableOf(t.nodes, fold);
    var now := LoadAll(t, ls).nodes;
    var after := Refreshed(start, ls, now, fold);
    assert Tracks(start, t.nodes, fold) && Stale(start, t.nodes) == {};
    PageKeepsTracking(start, t, ls, fold);
    TracksExactly(after, now, fold);
    hide LoadAll, Refreshed, Tracks, SearchableOf, Revived;
    forall p ensures p in Stale(after, now) <==> p in Revived(t.nodes, ls) && p in now {
      assert p in Stale(after, now) ==> p in now;
    }
  }

  /** No directory of a page is, or is above, another. */
  predicate ApartDirectories(ls: seq<Listing>) {
    forall i, j :: 0 <= i < |ls| && 0 <= j < |ls| && i != j ==> !(ls[i].directory <= ls[j].directory)
  }

  lemma BelowParent(a: Path, p: Path)
    ensures a < p ==> a <= Parent(p)
  {
    if a < p { assert a <= p[..|p| - 1]; }
  }

  /** What a page of directories apart lists is there after it. */
  lemma {:induction false} ListedRemains(t: TreeState, ls: seq<Listing>, p: Path)
    requires ValidListings(ls) && ApartDirectories(ls) && ROOT !in t.nodes && p != ROOT && InPage(ls, p)
    ensures p in LoadAll(t, ls).nodes
  {
    var n := |ls| - 1;
    var before, l := LoadAll(t, ls[..n]), ls[n];
    if l.directory != Parent(p) {
      ListedRemains(t, ls[..n], p);
      LoadAllKeepsRootOut(t, ls[..n]);
      ScanAbsent(ls[..n], Parent(p));
      var i :| 0 <= i < n && ls[..n][i].directory == Parent(p);
      assert ls[i].directory == Parent(p) && ValidListing(l);
      BelowParent(l.directory, p);
      SurvivesOutside(before.nodes, l, p);
    }
    LoadedIs(before, l, p);
  }

  lemma LoadedIs(t: TreeState, l: Listing, p: Path)
    ensures p in l.entries || (p in t.nodes && Survives(t.nodes, l, p)) ==> p in Loaded(t, l).nodes
  {
    assert p in l.entries ==> p in Stamped(l, t.statuses);
    hide ChildIndex;
  }

  /** A page that lists as a directory what the index holds as a missing-file row: the row becomes a
      directory, and its entry stays in the searchable map. */
  lemma StaleEntry(t: TreeState, l: Listing, p: Path, fold: Fold)
    requires ValidListing(l) && p in l.entries && l.entries[p].kind == Directory
    requires ROOT !in t.nodes && p in t.nodes && t.nodes[p].kind == Virtual
    ensures var now := LoadAll(t, [l]).nodes;
            && IsDirectory(now, p) && p !in SearchableOf(now, fold)
            && p in Refreshed(SearchableOf(t.nodes, fold), [l], now, fold)
  {
    OnePage(t, l, p);
    assert Tracks(SearchableOf(t.nodes, fold), t.nodes, fold);
    hide LoadAll, Refreshed, Revived, Tracks;
    PageKeepsTracking(SearchableOf(t.nodes, fold), t, [l], fold);
  }

  lemma OnePage(t: TreeState, l: Listing, p: Path)
    requires ValidListing(l) && p in l.entries && l.entries[p].kind == Directory
    requires p in t.nodes && t.nodes[p].kind == Virtual
    ensures ValidListings([l]) && DistinctDirectories([l])
    ensures p in Revived(t.nodes, [l]) && IsDirectory(LoadAll(t, [l]).nodes, p)
  {
    assert LoadAll(t, [l]) == Loaded(t, l) by { assert [l][..0] == []; hide Loaded; }
    assert p in Stamped(l, t.statuses);
    hide ChildIndex, LoadAll;
  }

  /** One such page of the root: a deleted `x` comes back as a directory. */
  lemma StaleEntryExample(t: TreeState, fold: Fold)
    requires t.nodes == map[["x"] := Node(Virtual, Some(Deleted), false)]
    ensures var l := Listing(ROOT, map[["x"] := Listed(Directory, false)]);
            ValidListing(l) && ["x"] in Refreshed(SearchableOf(t.nodes, fold), [l], LoadAll(t, [l]).nodes, fold)
    ensures var l := Listing(ROOT, map[["x"] := Listed(Directory, false)]);
            ["x"] !in SearchableOf(LoadAll(t, [l]).nodes, fold)
  {
    hide LoadAll, Refreshed, SearchableOf;
    StaleEntry(t, Listing(ROOT, map[["x"] := Listed(Directory, false)]), ["x"], fold);
  }

  /** The missing-file part of the map after an overlay change. */
  function WithVirtuals(searchable: Searchable, nodes: Nodes, fold: Fold): Searchable {
    (map p | p in searchable && (searchable[p].kind != Virtual || (p in nodes && nodes[p].kind == Virtual))
        :: searchable[p])
    + (map p | p in nodes && nodes[p].kind == Virtual :: Indexed(Virtual, fold(p)))
  }

  lemma OverlayAt(searchable: Searchable, nodes: Nodes, statuses: map<Path, StatusKind>, rows: Nodes, fold: Fold,
      p: Path)
    requires Tracks(searchable, nodes, fold) && forall q :: q in rows ==> rows[q].kind == Virtual
    ensures Lookup(WithVirtuals(searchable, Overlaid(nodes, statuses, rows), fold), p)
            == Lookup(SearchableOf(Overlaid(nodes, statuses, rows), fold), p)
  {
    var now := Overlaid(nodes, statuses, rows);
    assert p in now <==> IsReal(nodes, p) || p in rows;
    assert p in now ==> now[p].kind == if p in rows then Virtual else nodes[p].kind;
    hide Overlaid;
  }

  /** Copying the status overlay makes the map exact, stale entries included. */
  lemma OverlayMakesExact(searchable: Searchable, t: TreeState, source: TreeState, fold: Fold)
    requires Tracks(searchable, t.nodes, fold)
    ensures WithVirtuals(searchable, Synced(t, source).nodes, fold) == SearchableOf(Synced(t, source).nodes, fold)
  {
    var rows := VirtualOverlay(source.nodes);
    var now := Overlaid(t.nodes, source.statuses, rows);
    assert Synced(t, source).nodes == now;
    forall p ensures Lookup(WithVirtuals(searchable, now, fold), p) == Lookup(SearchableOf(now, fold), p) {
      OverlayAt(searchable, t.nodes, source.statuses, rows, fold, p);
    }
    hide WithVirtuals, SearchableOf, Overlaid;
    SameEntries(WithVirtuals(searchable, now, fold), SearchableOf(now, fold));
  }

  lemma SameEntries(a: Searchable, b: Searchable)
    requires forall p :: Lookup(a, p) == Lookup(b, p)
    ensures a == b
  {
    forall p ensures p in a <==> p in b {
      assert Lookup(a, p) == Lookup(b, p);
    }
    forall p | p in a ensures a[p] == b[p] {
      assert Lookup(a, p) == Lookup(b, p);
    }
    assert a.Keys == b.Keys;
  }

  datatype Page = Page(
    searchable: Searchable, discovered: seq<Path>, scanned: nat, examined: nat, skipped: nat,
    truncated: bool, cancelled: bool)

  function DirectoriesIn(l: Listing): seq<Path> {
    InOrder(set p | p in l.entries && l.entries[p].kind == Directory)
  }

  function Discovered(ls: seq<Listing>): seq<Path> {
    if ls == [] then [] else Discovered(ls[..|ls| - 1]) + DirectoriesIn(ls[|ls| - 1])
  }

  function EntryCount(ls: seq<Listing>): nat {
    if ls == [] then 0 else EntryCount(ls[..|ls| - 1]) + |ls[|ls| - 1].entries|
  }

  /** The listings come from distinct page directories, in page order. */
  ghost predicate FromDirectories(ls: seq<Listing>, directories: seq<Path>)
    decreases |directories|
  {
    if directories == [] then ls == []
    else
      var n, last := |directories| - 1, directories[|directories| - 1];
      || FromDirectories(ls, directories[..n])
      || (ls != [] && ls[|ls| - 1].directory == last && FromDirectories(ls[..|ls| - 1], directories[..n]))
  }

  lemma {:induction false} FromDirectoriesMembers(ls: seq<Listing>, directories: seq<Path>)
    requires FromDirectories(ls, directories)
    ensures forall i :: 0 <= i < |ls| ==> ls[i].directory in directories
    ensures |ls| <= |directories|
    ensures (forall i, j :: 0 <= i < j < |directories| ==> directories[i] != directories[j]) ==> DistinctDirectories(ls)
  {
    if directories != [] {
      var n := |directories| - 1;
      if FromDirectories(ls, directories[..n]) {
        FromDirectoriesMembers(ls, directories[..n]);
      } else {
        FromDirectoriesMembers(ls[..|ls| - 1], directories[..n]);
      }
    }
  }

  lemma NothingListed(directories: seq<Path>)
    ensures FromDirectories([], directories[..0]) && EntryCount([]) == 0
  {
  }

  lemma SkipStep(ls: seq<Listing>, directories: seq<Path>, n: nat)
    requires n < |directories| && FromDirectories(ls, directories[..n])
    ensures FromDirectories(ls, directories[..n + 1])
  {
    assert directories[..n + 1][..n] == directories[..n];
  }

  lemma ListStep(ls: seq<Listing>, l: Listing, directories: seq<Path>, n: nat)
    requires n < |directories| && FromDirectories(ls, directories[..n]) && l.directory == directories[n]
    ensures FromDirectories(ls + [l], directories[..n + 1])
    ensures EntryCount(ls + [l]) == EntryCount(ls) + |l.entries|
  {
    assert directories[..n + 1][..n] == directories[..n];
    assert (ls + [l])[..|ls|] == ls;
  }

  /** The scanning half of a page: bounded loads until cancelled, out of budget or done. */
  method ScanDirectories(directories: seq<Path>, remainingEntries: nat, remainingExamined: nat,
                         load: Loader, cancelled: nat -> bool)
    returns (ls: seq<Listing>, examined: nat, skipped: nat, truncated: bool, wasCancelled: bool, seen: nat)
    requires Faithful(load)
    ensures ValidListings(ls) && EntryCount(ls) <= remainingEntries
    ensures seen <= |directories| && FromDirectories(ls, directories[..seen])
    ensures |ls| + skipped <= |directories|
    ensures !wasCancelled && !truncated ==> |ls| + skipped == |directories|
    ensures wasCancelled ==> exists k: nat :: cancelled(k)
  {
    ls := [];
    hide EntryCount, FromDirectories, ValidListing;
    var scanned, polls := 0, 0;
    NothingListed(directories);
    examined, skipped, truncated, wasCancelled, seen := 0, 0, false, false, 0;
    while seen < |directories| && !truncated
      invariant seen <= |directories| && |ls| + skipped == seen
      invariant ValidListings(ls) && FromDirectories(ls, directories[..seen])
      invariant scanned == EntryCount(ls) <= remainingEntries
      invariant !wasCancelled
      decreases |directories| - seen
    {
      if cancelled(polls) {
        wasCancelled := true;
        return;
      }
      polls := polls + 1;
      var entryBudget := remainingEntries - scanned;
      var examinedBudget := if examined <= remainingExamined then remainingExamined - examined else 0;
      if entryBudget == 0 || examinedBudget == 0 {
        truncated := true;
        return;
      }
      SkipStep(ls, directories, seen);
      match load(directories[seen], entryBudget, examinedBudget) {
        case LoadFailed =>
          skipped := skipped + 1;
        case DirectoryLoaded(listing, looked, cut) =>
          if cancelled(polls) {
            wasCancelled := true;
            return;
          }
          polls := polls + 1;
          scanned := scanned + |listing.entries|;
          examined := examined + looked;
          ListStep(ls, listing, directories, seen);
          ls := ls + [listing];
          truncated := cut;
      }
      seen := seen + 1;
    }
    assert directories[..seen] == directories || truncated;
  }

  /** Folds the listings into what the page reports and adds to the searchable map. */
  method CollectPage(ls: seq<Listing>, fold: Fold) returns (discovered: seq<Path>, entries: Searchable, scanned: nat)
    ensures discovered == Discovered(ls) && entries == PageEntries(ls, fold) && scanned == EntryCount(ls)
  {
    discovered, entries, scanned := [], map[], 0;
    for i := 0 to |ls|
      invariant discovered == Discovered(ls[..i]) && entries == PageEntries(ls[..i], fold)
      invariant scanned == EntryCount(ls[..i])
    {
      assert ls[..i + 1][..i] == ls[..i];
      discovered := discovered + DirectoriesIn(ls[i]);
      entries := entries + EntriesOf(ls[i], fold);
      scanned := scanned + |ls[i].entries|;
    }
    assert ls[..|ls|] == ls;
  }

  method PreparePage(index: Files, searchable: Searchable, directories: seq<Path>,
                     remainingEntries: nat, remainingExamined: nat,
                     load: Loader, cancelled: nat -> bool, fold: Fold)
    returns (page: Page, ghost ls: seq<Listing>, ghost seen: nat)
    requires index.Valid() && Faithful(load)
    modifies index
    ensures index.Valid() && ValidListings(ls)
    ensures seen <= |directories| && FromDirectories(ls, directories[..seen])
    ensures page.cancelled ==> index.State() == old(index.State()) && page.searchable == searchable
    ensures !page.cancelled ==> index.State() == LoadAll(old(index.State()), ls)
    ensures !page.cancelled ==> page.searchable == Refreshed(searchable, ls, index.nodes, fold)
    ensures page.discovered == Discovered(ls)
    ensures page.scanned == EntryCount(ls) <= remainingEntries
    ensures |ls| + page.skipped <= |directories|
    ensures !page.cancelled && !page.truncated ==> |ls| + page.skipped == |directories|
    ensures page.cancelled ==> exists k: nat :: cancelled(k)
  {
    hide FromDirectories, EntryCount, Discovered, PageEntries, LoadAll, Coherent, ValidListing;
    var listings, examined, skipped, truncated, wasCancelled, n :=
      ScanDirectories(directories, remainingEntries, remainingExamined, load, cancelled);
    ls, seen := listings, n;
    var discovered, entries, scanned := CollectPage(listings, fold);
    var kept := searchable;
    if !wasCancelled {
      kept := Sweep(searchable, listings);
      kept := kept + entries;
      ApplySnapshots(index, listings);
      kept := map p | p in kept && p in index.nodes :: kept[p];
    }
    page := Page(kept, discovered, scanned, examined, skipped, truncated, wasCancelled);
  }

  method Sweep(searchable: Searchable, ls: seq<Listing>) returns (r: Searchable)
    ensures r == Swept(searchable, ScannedDirectories(ls))
  {
    r := searchable;
    for i := 0 to |ls|
      invariant r == Swept(searchable, ScannedDirectories(ls[..i]))
    {
      var directory := ls[i].directory;
      r := map p | p in r && (r[p].kind == Virtual || Parent(p) != directory) :: r[p];
      ScannedStep(ls, i);
    }
    assert ls[..|ls|] == ls;
  }

  lemma ScannedStep(ls: seq<Listing>, i: nat)
    requires i < |ls|
    ensures ScannedDirectories(ls[..i + 1]) == ScannedDirectories(ls[..i]) + {ls[i].directory}
  {
    assert forall k :: 0 <= k < i ==> ls[..i + 1][k] == ls[..i][k] == ls[k];
    forall d | d in ScannedDirectories(ls[..i]) ensures d in ScannedDirectories(ls[..i + 1]) {
      var k :| 0 <= k < i && ls[..i][k].directory == d;
      assert ls[..i + 1][k].directory == d;
    }
    assert ls[..i + 1][i].directory == ls[i].directory;
  }

  method ApplySnapshots(index: Files, snapshots: seq<Listing>)
    requires index.Valid() && ValidListings(snapshots)
    modifies index
    ensures index.Valid() && index.State() == LoadAll(old(index.State()), snapshots)
  {
    for i := 0 to |snapshots|
      invariant index.Valid() && index.State() == LoadAll(old(index.State()), snapshots[..i])
    {
      assert snapshots[..i + 1][..i] == snapshots[..i];
      index.ApplyDirectory(snapshots[i]);
    }
    assert snapshots[..|snapshots|] == snapshots;
  }
}
