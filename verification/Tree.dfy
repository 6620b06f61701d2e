/** The cached path tree as values: nodes, directory listings, status merges and display parents. */
module Tree {
  import opened Wrappers
  import opened Paths
  import opened Status

  datatype NodeKind = Directory | File | Symlink | Virtual

  datatype Node = Node(kind: NodeKind, status: Option<StatusKind>, ignored: bool)

  type Nodes = map<Path, Node>

  /** One loaded directory: the loader lists distinct visible direct children. */
  datatype Listed = Listed(kind: NodeKind, ignored: bool)

  datatype Listing = Listing(directory: Path, entries: map<Path, Listed>)

  predicate ValidListing(l: Listing) {
    forall p :: p in l.entries ==> p != ROOT && Parent(p) == l.directory && l.entries[p].kind != Virtual
  }

  datatype StatusEntry = StatusEntry(
    path: Path, source: Option<Path>, kind: StatusKind,
    index: Option<StatusKind>, worktree: Option<StatusKind>)

  datatype ChangedFile = ChangedFile(path: Path, kind: StatusKind, missing: bool)

  /** What looking a path up on disk answers. */
  datatype DiskAnswer = Present | Missing | Unreadable

  /** The disk refuses to look up the empty path. */
  type Disk = f: Path -> DiskAnswer | f(ROOT) == Unreadable witness ((p: Path) => Unreadable)

  /** The environment of one status merge: opened subtree, visibility policy and disk. */
  datatype MergeContext = MergeContext(prefix: Path, visible: Path -> bool, disk: Disk)

  predicate IsDirectory(nodes: Nodes, p: Path) {
    p in nodes && nodes[p].kind == Directory
  }

  predicate IsReal(nodes: Nodes, p: Path) {
    p in nodes && nodes[p].kind != Virtual
  }

  /** Every cached entry sits directly under the root or under a cached directory. */
  predicate ParentClosed(nodes: Nodes) {
    && ROOT !in nodes
    && forall p :: p in nodes && nodes[p].kind != Virtual ==> Parent(p) == ROOT || IsDirectory(nodes, Parent(p))
  }

  function Lookup<T>(m: map<Path, T>, p: Path): Option<T> {
    if p in m then Some(m[p]) else None
  }

  // ---------------------------------------------------------------- directory loads

  predicate Dropped(nodes: Nodes, l: Listing, q: Path) {
    IsReal(nodes, q) && Parent(q) == l.directory && q !in l.entries
  }

  predicate Demoted(nodes: Nodes, l: Listing, q: Path) {
    IsDirectory(nodes, q) && q in l.entries && l.entries[q].kind != Directory
  }

  predicate Survives(nodes: Nodes, l: Listing, p: Path)
    requires p in nodes
  {
    || nodes[p].kind == Virtual
    || (&& (forall i | 0 <= i < |p| :: !Dropped(nodes, l, p[..i]) && !Demoted(nodes, l, p[..i]))
        && (Parent(p) == l.directory ==> p in l.entries))
  }

  function Stamped(l: Listing, statuses: map<Path, StatusKind>): Nodes {
    map p | p in l.entries :: Node(l.entries[p].kind, Lookup(statuses, p), l.entries[p].ignored)
  }

  /** The node map after installing a listing. */
  function Applied(nodes: Nodes, statuses: map<Path, StatusKind>, l: Listing): Nodes {
    (map p | p in nodes && Survives(nodes, l, p) :: nodes[p]) + Stamped(l, statuses)
  }

  /** The path directly under `d` that `p` is, or lies below. */
  function Branch(d: Path, p: Path): Path
    requires d < p
  {
    p[..|d| + 1]
  }

  lemma {:induction false} RealChain(nodes: Nodes, p: Path, a: Path)
    requires ParentClosed(nodes) && IsReal(nodes, p) && a < p && a != ROOT
    ensures IsDirectory(nodes, a)
    decreases |p|
  {
    if a != Parent(p) {
      RealChain(nodes, Parent(p), a);
    }
  }

  lemma ParentIs(d: Path, p: Path)
    requires p != ROOT
    ensures Parent(p) == d <==> d < p && |p| == |d| + 1
  {
  }

  /** A cached entry strictly below the loaded directory's children survives exactly when its
      branch is listed as a directory. */
  lemma SurvivesBelow(nodes: Nodes, l: Listing, p: Path)
    requires ParentClosed(nodes) && ValidListing(l)
    requires IsReal(nodes, p) && l.directory < p && |p| > |l.directory| + 1
    ensures Survives(nodes, l, p) <==>
              Branch(l.directory, p) in l.entries && l.entries[Branch(l.directory, p)].kind == Directory
  {
    var b := Branch(l.directory, p);
    RealChain(nodes, p, b);
    ParentIs(l.directory, b);
    ParentIs(l.directory, p);
    forall i | 0 <= i < |p|
      ensures Dropped(nodes, l, p[..i]) ==> p[..i] == b
      ensures Demoted(nodes, l, p[..i]) ==> p[..i] == b
    {
      assert ROOT !in nodes;
      if p[..i] != ROOT { ParentIs(l.directory, p[..i]); }
    }
    assert p[..|b|] == b;
  }

  lemma SurvivesOutside(nodes: Nodes, l: Listing, p: Path)
    requires ROOT !in nodes && ValidListing(l)
    requires p in nodes && !(l.directory < p)
    ensures Survives(nodes, l, p) && p !in l.entries
  {
    forall i | 0 <= i < |p|
      ensures !Dropped(nodes, l, p[..i]) && !Demoted(nodes, l, p[..i])
    {
      if p[..i] != ROOT { ParentIs(l.directory, p[..i]); }
    }
    ParentIs(l.directory, p);
  }

  lemma AppliedAt(nodes: Nodes, statuses: map<Path, StatusKind>, l: Listing, p: Path)
    ensures Lookup(Applied(nodes, statuses, l), p)
            == if p in l.entries then Some(Node(l.entries[p].kind, Lookup(statuses, p), l.entries[p].ignored))
               else if p in nodes && Survives(nodes, l, p) then Some(nodes[p]) else None
  {
  }

  /** What a load leaves at one path: listed entries as listed; below the listing what lies under a
      listed directory; missing-file rows unless a listed entry takes their path; all else as it was. */
  function Expected(nodes: Nodes, statuses: map<Path, StatusKind>, l: Listing, p: Path): Option<Node> {
    if p in l.entries then
      Some(Node(l.entries[p].kind, Lookup(statuses, p), l.entries[p].ignored))
    else if p !in nodes || nodes[p].kind == Virtual || !(l.directory < p) then
      Lookup(nodes, p)
    else if |p| > |l.directory| + 1 && IsListedDirectory(l, Branch(l.directory, p)) then
      Some(nodes[p])
    else
      None
  }

  predicate IsListedDirectory(l: Listing, p: Path) {
    p in l.entries && l.entries[p].kind == Directory
  }

  lemma ApplyAt(nodes: Nodes, statuses: map<Path, StatusKind>, l: Listing, p: Path)
    requires ParentClosed(nodes) && ValidListing(l)
    ensures Lookup(Applied(nodes, statuses, l), p) == Expected(nodes, statuses, l, p)
  {
    AppliedAt(nodes, statuses, l, p);
    if p in nodes && p !in l.entries && nodes[p].kind != Virtual {
      if !(l.directory < p) {
        SurvivesOutside(nodes, l, p);
      } else {
        ParentIs(l.directory, p);
        if |p| > |l.directory| + 1 {
          SurvivesBelow(nodes, l, p);
        }
      }
    }
  }

  /** Loading the root or a cached directory: its cached children become exactly the listing, every
      other path holds what is expected of it, and the tree stays parent-closed. */
  lemma ApplyDirectoryMeaning(nodes: Nodes, statuses: map<Path, StatusKind>, l: Listing)
    requires ParentClosed(nodes) && ValidListing(l)
    requires l.directory == ROOT || IsDirectory(nodes, l.directory)
    ensures forall p :: p != ROOT && Parent(p) == l.directory ==>
              (IsReal(Applied(nodes, statuses, l), p) <==> p in l.entries)
    ensures forall p :: Lookup(Applied(nodes, statuses, l), p) == Expected(nodes, statuses, l, p)
    ensures ParentClosed(Applied(nodes, statuses, l))
  {
    var after := Applied(nodes, statuses, l);
    forall p ensures Lookup(after, p) == Expected(nodes, statuses, l, p) {
      ApplyAt(nodes, statuses, l, p);
    }
    hide Applied;
    forall p | p != ROOT && Parent(p) == l.directory ensures IsReal(after, p) <==> p in l.entries {
      ParentIs(l.directory, p);
      assert Lookup(after, p) == Expected(nodes, statuses, l, p);
    }
    forall p | p in after && after[p].kind != Virtual
      ensures p != ROOT && (Parent(p) == ROOT || IsDirectory(after, Parent(p)))
    {
      StaysClosed(nodes, statuses, l, p);
    }
    assert Lookup(after, ROOT) == Expected(nodes, statuses, l, ROOT);
  }

  lemma StaysClosed(nodes: Nodes, statuses: map<Path, StatusKind>, l: Listing, p: Path)
    requires ParentClosed(nodes) && ValidListing(l)
    requires l.directory == ROOT || IsDirectory(nodes, l.directory)
    requires IsReal(Applied(nodes, statuses, l), p)
    ensures p != ROOT && (Parent(p) == ROOT || IsDirectory(Applied(nodes, statuses, l), Parent(p)))
  {
    var q := Parent(p);
    ApplyAt(nodes, statuses, l, p);
    ApplyAt(nodes, statuses, l, q);
    hide Applied;
    if q != ROOT {
      if p in l.entries {
        ParentIs(l.directory, p);
      } else if l.directory < q {
        assert Branch(l.directory, q) == Branch(l.directory, p);
        if |q| == |l.directory| + 1 { assert q == Branch(l.directory, p); }
      }
    }
  }

  // ---------------------------------------------------------------- status merges

  /** Where a workspace path lands in the opened subtree, if it is inside and visible. */
  function Rebased(c: MergeContext, p: Path): Option<Path> {
    if c.prefix <= p && c.visible(p[|c.prefix|..]) then Some(p[|c.prefix|..]) else None
  }

  predicate ReportsDeletion(e: StatusEntry) {
    e.kind == Deleted || e.index == Some(Deleted) || e.worktree == Some(Deleted)
  }

  function DirectOf(c: MergeContext, e: StatusEntry): set<Report> {
    match Rebased(c, e.path)
    case Some(p) => {Report(p, e.kind)}
    case None => {}
  }

  function CandidatesOf(c: MergeContext, e: StatusEntry): set<Report> {
    (if ReportsDeletion(e) then DirectOf(c, e) else {})
    + (match e.source
       case Some(source) => (match Rebased(c, source) case Some(p) => {Report(p, e.kind)} case None => {})
       case None => {})
  }

  function Direct(c: MergeContext, es: set<StatusEntry>): set<Report> {
    set e, r | e in es && r in DirectOf(c, e) :: r
  }

  function Candidates(c: MergeContext, es: set<StatusEntry>): set<Report> {
    set e, r | e in es && r in CandidatesOf(c, e) :: r
  }

  /** The candidate paths that are gone from disk, with their preferred candidate status. */
  function Gone(c: MergeContext, es: set<StatusEntry>): map<Path, StatusKind> {
    map p | p in Summary(Candidates(c, es)) && c.disk(p) == Missing :: Summary(Candidates(c, es))[p]
  }

  function AsReports(m: map<Path, StatusKind>): set<Report> {
    set p | p in m :: Report(p, m[p])
  }

  /** Everything a snapshot says about paths of the opened subtree. */
  function Facts(c: MergeContext, es: set<StatusEntry>): set<Report> {
    Direct(c, es) + AsReports(Gone(c, es))
  }

  function MergedStatuses(c: MergeContext, es: set<StatusEntry>): map<Path, StatusKind> {
    Summary(SpreadAll(Facts(c, es)))
  }

  function MergedChanges(c: MergeContext, es: set<StatusEntry>): seq<ChangedFile> {
    var kinds := Summary(Facts(c, es));
    var order := InOrder(kinds.Keys);
    seq(|order|, i requires 0 <= i < |order| => ChangedFile(order[i], kinds[order[i]], order[i] in Gone(c, es)))
  }

  function VirtualNodes(gone: map<Path, StatusKind>): Nodes {
    map p | p in gone :: Node(Virtual, Some(gone[p]), false)
  }

  /** Cached entries restamped with new statuses, under a new overlay of missing-file rows. */
  function Overlaid(nodes: Nodes, statuses: map<Path, StatusKind>, overlay: Nodes): Nodes {
    (map p | p in nodes && nodes[p].kind != Virtual :: nodes[p].(status := Lookup(statuses, p))) + overlay
  }

  function MergedNodes(nodes: Nodes, c: MergeContext, es: set<StatusEntry>): Nodes {
    Overlaid(nodes, MergedStatuses(c, es), VirtualNodes(Gone(c, es)))
  }

  /** A cached entry always shows the status map's value for its path. */
  predicate StatusesAgree(nodes: Nodes, statuses: map<Path, StatusKind>) {
    forall p :: p in nodes && nodes[p].kind != Virtual ==> nodes[p].status == Lookup(statuses, p)
  }

  lemma LoadKeepsAgreement(nodes: Nodes, statuses: map<Path, StatusKind>, l: Listing)
    requires StatusesAgree(nodes, statuses)
    ensures StatusesAgree(Applied(nodes, statuses, l), statuses)
  {
  }

  lemma MergeMakesAgreement(nodes: Nodes, c: MergeContext, es: set<StatusEntry>)
    ensures StatusesAgree(MergedNodes(nodes, c, es), MergedStatuses(c, es))
  {
  }

  lemma OverlayKeepsClosed(nodes: Nodes, statuses: map<Path, StatusKind>, overlay: Nodes)
    requires ParentClosed(nodes) && ROOT !in overlay
    requires forall p :: p in overlay ==> overlay[p].kind == Virtual && !IsDirectory(nodes, p)
    ensures ParentClosed(Overlaid(nodes, statuses, overlay))
  {
    var after := Overlaid(nodes, statuses, overlay);
    forall p | p in after && after[p].kind != Virtual
      ensures Parent(p) == ROOT || IsDirectory(after, Parent(p))
    {
      assert IsReal(nodes, p);
    }
  }

  // ---------------------------------------------------------------- loads against merges

  /** No missing path is listed, and no missing cached directory directly under the loaded one
      holds a cached entry that is not missing too. */
  predicate Independent(nodes: Nodes, l: Listing, gone: map<Path, StatusKind>) {
    && (forall p :: p in gone ==> !Clashes(nodes, l, gone, p))
    && (forall p :: p in nodes ==> !Clashes(nodes, l, gone, p))
  }

  predicate Clashes(nodes: Nodes, l: Listing, gone: map<Path, StatusKind>, p: Path) {
    || (p in gone && p in l.entries)
    || (p !in gone && IsReal(nodes, p) && l.directory < p && |p| > |l.directory| + 1
        && Branch(l.directory, p) in gone
        && !(Branch(l.directory, p) in l.entries && l.entries[Branch(l.directory, p)].kind == Directory))
  }

  function LoadThenOverlay(nodes: Nodes, prior: map<Path, StatusKind>, l: Listing,
                           statuses: map<Path, StatusKind>, gone: map<Path, StatusKind>): Nodes {
    Overlaid(Applied(nodes, prior, l), statuses, VirtualNodes(gone))
  }

  function OverlayThenLoad(nodes: Nodes, l: Listing,
                           statuses: map<Path, StatusKind>, gone: map<Path, StatusKind>): Nodes {
    Applied(Overlaid(nodes, statuses, VirtualNodes(gone)), statuses, l)
  }

  lemma OverlaidKinds(nodes: Nodes, statuses: map<Path, StatusKind>, gone: map<Path, StatusKind>, q: Path)
    ensures IsReal(Overlaid(nodes, statuses, VirtualNodes(gone)), q) <==> IsReal(nodes, q) && q !in gone
    ensures IsDirectory(Overlaid(nodes, statuses, VirtualNodes(gone)), q) <==> IsDirectory(nodes, q) && q !in gone
  {
  }

  lemma SurvivesAfterOverlay(nodes: Nodes, l: Listing, statuses: map<Path, StatusKind>,
                             gone: map<Path, StatusKind>, p: Path)
    requires ParentClosed(nodes) && ValidListing(l) && ROOT !in gone
    requires IsReal(nodes, p) && p !in gone
    requires l.directory < p && |p| > |l.directory| + 1
    ensures Survives(Overlaid(nodes, statuses, VirtualNodes(gone)), l, p) <==>
              Branch(l.directory, p) in gone || Survives(nodes, l, p)
  {
    var b := Branch(l.directory, p);
    var merged := Overlaid(nodes, statuses, VirtualNodes(gone));
    RealChain(nodes, p, b);
    SurvivesBelow(nodes, l, p);
    ParentIs(l.directory, p);
    ParentIs(l.directory, b);
    forall i | 0 <= i < |p|
      ensures Dropped(merged, l, p[..i]) <==> p[..i] == b && b !in l.entries && b !in gone
      ensures Demoted(merged, l, p[..i])
              <==> p[..i] == b && b in l.entries && l.entries[b].kind != Directory && b !in gone
    {
      OverlaidKinds(nodes, statuses, gone, p[..i]);
      if p[..i] != ROOT {
        ParentIs(l.directory, p[..i]);
        RealChain(nodes, p, p[..i]);
      }
    }
    assert p[..|b|] == b;
    OverlaidKinds(nodes, statuses, gone, p);
  }

  lemma OverlaidAt(nodes: Nodes, statuses: map<Path, StatusKind>, gone: map<Path, StatusKind>, p: Path)
    ensures Lookup(Overlaid(nodes, statuses, VirtualNodes(gone)), p)
            == if p in gone then Some(Node(Virtual, Some(gone[p]), false))
               else if IsReal(nodes, p) then Some(nodes[p].(status := Lookup(statuses, p))) else None
  {
  }

  /** Survival of a load is the same before and after the overlay, save below missing branches. */
  lemma SurvivesEither(nodes: Nodes, l: Listing, statuses: map<Path, StatusKind>,
                       gone: map<Path, StatusKind>, p: Path)
    requires ParentClosed(nodes) && ValidListing(l) && ROOT !in gone
    requires IsReal(nodes, p) && p !in l.entries && p !in gone
    ensures p in Overlaid(nodes, statuses, VirtualNodes(gone))
    ensures (Survives(nodes, l, p) <==> Survives(Overlaid(nodes, statuses, VirtualNodes(gone)), l, p))
            <==> !Clashes(nodes, l, gone, p)
  {
    var merged := Overlaid(nodes, statuses, VirtualNodes(gone));
    OverlaidKinds(nodes, statuses, gone, p);
    if !(l.directory < p) {
      SurvivesOutside(nodes, l, p);
      SurvivesOutside(merged, l, p);
    } else {
      ParentIs(l.directory, p);
      if |p| > |l.directory| + 1 {
        SurvivesBelow(nodes, l, p);
        SurvivesAfterOverlay(nodes, l, statuses, gone, p);
      }
    }
  }

  /** Both orders agree at a path exactly when it does not clash. */
  lemma CommuteAt(nodes: Nodes, prior: map<Path, StatusKind>, l: Listing,
                  statuses: map<Path, StatusKind>, gone: map<Path, StatusKind>, p: Path)
    requires ParentClosed(nodes) && ValidListing(l) && ROOT !in gone
    ensures Lookup(LoadThenOverlay(nodes, prior, l, statuses, gone), p)
            == Lookup(OverlayThenLoad(nodes, l, statuses, gone), p)
            <==> !Clashes(nodes, l, gone, p)
  {
    var loaded := Applied(nodes, prior, l);
    var merged := Overlaid(nodes, statuses, VirtualNodes(gone));
    AppliedAt(nodes, prior, l, p);
    OverlaidAt(loaded, statuses, gone, p);
    OverlaidAt(nodes, statuses, gone, p);
    AppliedAt(merged, statuses, l, p);
    if p !in l.entries && p !in gone && IsReal(nodes, p) {
      SurvivesEither(nodes, l, statuses, gone, p);
    }
  }

  lemma SameMaps(a: Nodes, b: Nodes)
    requires forall p :: Lookup(a, p) == Lookup(b, p)
    ensures a == b
  {
    forall p ensures p in a <==> p in b {
      assert Lookup(a, p) == Lookup(b, p);
    }
    forall p | p in a ensures a[p] == b[p] {
      assert Lookup(a, p) == Lookup(b, p);
    }
    assert a.Keys == b.Keys;
  }

  lemma OverlayCommutes(nodes: Nodes, prior: map<Path, StatusKind>, l: Listing,
                        statuses: map<Path, StatusKind>, gone: map<Path, StatusKind>)
    requires ParentClosed(nodes) && ValidListing(l) && ROOT !in gone
    ensures LoadThenOverlay(nodes, prior, l, statuses, gone) == OverlayThenLoad(nodes, l, statuses, gone)
            <==> Independent(nodes, l, gone)
  {
    var one := LoadThenOverlay(nodes, prior, l, statuses, gone);
    var two := OverlayThenLoad(nodes, l, statuses, gone);
    forall p ensures Lookup(one, p) == Lookup(two, p) <==> !Clashes(nodes, l, gone, p) {
      CommuteAt(nodes, prior, l, statuses, gone, p);
    }
    if Independent(nodes, l, gone) {
      forall p ensures !Clashes(nodes, l, gone, p) {}
      SameMaps(one, two);
    } else {
      var p :| (p in nodes || p in gone) && Clashes(nodes, l, gone, p);
      assert Lookup(one, p) != Lookup(two, p);
    }
  }

  /** Loading a directory and merging a status snapshot commute exactly when they are independent. */
  lemma LoadAndMergeCommute(nodes: Nodes, prior: map<Path, StatusKind>, l: Listing, c: MergeContext,
      es: set<StatusEntry>)
    requires ParentClosed(nodes) && ValidListing(l)
    ensures MergedNodes(Applied(nodes, prior, l), c, es)
            == Applied(MergedNodes(nodes, c, es), MergedStatuses(c, es), l)
            <==> Independent(nodes, l, Gone(c, es))
  {
    hide Summary;
    OverlayCommutes(nodes, prior, l, MergedStatuses(c, es), Gone(c, es));
  }

  /** A directory `src`, cached with a file in it. */
  const SOURCES: Nodes :=
    map[["src"] := Node(Directory, None, false), ["src", "a"] := Node(File, None, false)]

  /** A snapshot that reports `src` deleted, on a disk without it. */
  const DELETED := StatusEntry(["src"], None, Deleted, None, None)

  const WITHOUT_SOURCES :=
    MergeContext([], (p: Path) => true, (p: Path) => if p == ["src"] then Missing else Unreadable)

  lemma SourcesClosed()
    ensures ParentClosed(SOURCES) && ValidListing(Listing(ROOT, map[]))
  {
    var p: Path := ["src", "a"];
    assert Parent(p) == ["src"] && Parent(["src"]) == ROOT;
  }

  lemma SourcesGone()
    ensures Gone(WITHOUT_SOURCES, {DELETED}).Keys == {["src"]}
  {
    var c := WITHOUT_SOURCES;
    assert DELETED.path[|c.prefix|..] == ["src"];
    assert Rebased(c, DELETED.path) == Some(["src"]) && Candidates(c, {DELETED}) == CandidatesOf(c, DELETED);
    assert Report(["src"], Deleted) in Candidates(c, {DELETED});
    SummaryMeaning(Candidates(c, {DELETED}));
    hide Summary, Candidates;
  }

  lemma LeftBehind(statuses: map<Path, StatusKind>, gone: map<Path, StatusKind>)
    requires gone.Keys == {["src"]}
    ensures ["src", "a"] !in LoadThenOverlay(SOURCES, map[], Listing(ROOT, map[]), statuses, gone)
    ensures ["src", "a"] in OverlayThenLoad(SOURCES, Listing(ROOT, map[]), statuses, gone)
  {
    var l := Listing(ROOT, map[]);
    var p: Path := ["src", "a"];
    var merged := Overlaid(SOURCES, statuses, VirtualNodes(gone));
    assert p[..1] == ["src"] && p[..0] == ROOT;
    assert Dropped(SOURCES, l, p[..1]);
    assert p in merged && !Dropped(merged, l, p[..1]) && !Dropped(merged, l, p[..0]);
    assert Survives(merged, l, p);
  }

  /** With `src` gone, loading the empty root and then merging leaves no trace of its file; merging first
      hides the directory behind a missing-file row, and the load then leaves the file behind. */
  lemma LeftBehindExample()
    ensures ParentClosed(SOURCES) && ValidListing(Listing(ROOT, map[]))
    ensures ["src", "a"] !in MergedNodes(Applied(SOURCES, map[], Listing(ROOT, map[])), WITHOUT_SOURCES, {DELETED})
    ensures ["src", "a"] in Applied(MergedNodes(SOURCES, WITHOUT_SOURCES, {DELETED}),
                                    MergedStatuses(WITHOUT_SOURCES, {DELETED}), Listing(ROOT, map[]))
  {
    SourcesClosed();
    hide Gone, MergedStatuses, Applied, Overlaid, ParentClosed, Rebased;
    SourcesGone();
    LeftBehind(MergedStatuses(WITHOUT_SOURCES, {DELETED}), Gone(WITHOUT_SOURCES, {DELETED}));
  }
}
