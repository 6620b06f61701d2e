/** The mutable cached tree: directory loads, status merges, overlay copies and selection. */
module FilesTree {
  import opened Wrappers
  import opened Paths
  import opened Status
  import opened Tree
  import opened Rows

  datatype TreeState = TreeState(
    nodes: Nodes,
    statuses: map<Path, StatusKind>,
    changed: seq<ChangedFile>,
    children: map<Path, seq<Path>>,
    selection: Option<Path>)

  const EMPTY := TreeState(map[], map[], [], map[], None)

  /** The derived parts of a tree agree with its nodes. */
  predicate Coherent(t: TreeState) {
    && ROOT !in t.nodes
    && t.children == ChildIndex(t.nodes)
    && StatusesAgree(t.nodes, t.statuses)
  }

  function FirstRow(children: map<Path, seq<Path>>): Option<Path> {
    if ROOT in children && children[ROOT] != [] then Some(children[ROOT][0]) else None
  }

  function NearestCached(nodes: Nodes, p: Path): Option<Path> {
    if p == ROOT then None
    else if Parent(p) in nodes then Some(Parent(p))
    else NearestCached(nodes, Parent(p))
  }

  /** A selection that survives stays; a lost one moves up to a cached ancestor, else to the first row. */
  function Restored(nodes: Nodes, children: map<Path, seq<Path>>, selection: Option<Path>): Option<Path> {
    match selection
    case None => FirstRow(children)
    case Some(p) =>
      if p in nodes then Some(p)
      else if NearestCached(nodes, p).Some? then NearestCached(nodes, p)
      else FirstRow(children)
  }

  lemma {:induction false} NearestIsCached(nodes: Nodes, p: Path)
    ensures NearestCached(nodes, p).Some? ==>
              NearestCached(nodes, p).value in nodes && NearestCached(nodes, p).value < p
    decreases |p|
  {
    if p != ROOT { NearestIsCached(nodes, Parent(p)); }
  }

  /** A restored selection is cached, and restoring again changes nothing. */
  lemma RestoredStable(nodes: Nodes, selection: Option<Path>)
    ensures var r := Restored(nodes, ChildIndex(nodes), selection);
            && (r.Some? ==> r.value in nodes)
            && Restored(nodes, ChildIndex(nodes), r) == r
  {
    if selection.Some? { NearestIsCached(nodes, selection.value); }
    IndexedChildren(nodes, ROOT);
    if FirstRow(ChildIndex(nodes)).Some? {
      assert ChildIndex(nodes)[ROOT][0] in ChildIndex(nodes)[ROOT];
      assert FirstRow(ChildIndex(nodes)).value in ChildSet(nodes, ROOT);
    }
  }

  /** Some cached entry lies above a path. */
  predicate HasCachedAncestor(nodes: Nodes, p: Path) {
    exists i :: 0 <= i < |p| && p[..i] in nodes
  }

  lemma {:induction false} NearestCachedMeaning(nodes: Nodes, p: Path)
    ensures NearestCached(nodes, p).Some? <==> HasCachedAncestor(nodes, p)
    ensures NearestCached(nodes, p).Some? ==>
              var a := NearestCached(nodes, p).value;
              a in nodes && a < p && forall i :: |a| < i < |p| ==> p[..i] !in nodes
    decreases |p|
  {
    if p != ROOT {
      var q := Parent(p);
      NearestCachedMeaning(nodes, q);
      assert forall i :: 0 <= i < |q| ==> q[..i] == p[..i];
      assert p[..|p| - 1] == q;
      if i :| 0 <= i < |p| && p[..i] in nodes {
        if i < |q| { assert q[..i] in nodes; }
      }
      if i :| 0 <= i < |q| && q[..i] in nodes { assert p[..i] in nodes; }
    }
  }

  /** The first row under the root: no other comes before it. */
  ghost predicate IsFirstRow(nodes: Nodes, r: Option<Path>) {
    match r
    case None => ChildSet(nodes, ROOT) == {}
    case Some(p) =>
      p in ChildSet(nodes, ROOT) && forall q :: q in ChildSet(nodes, ROOT) ==> q == p || ChildLess(nodes, p, q)
  }

  lemma FirstRowMeaning(nodes: Nodes)
    ensures IsFirstRow(nodes, FirstRow(ChildIndex(nodes)))
  {
    IndexedChildren(nodes, ROOT);
    var rows := SortedChildren(nodes, ROOT);
    assert FirstRow(ChildIndex(nodes)) == if rows == [] then None else Some(rows[0]);
    hide ChildIndex, SortedChildren, ChildSet, ChildLess;
    if rows == [] {
      assert forall q :: q !in rows;
    } else {
      forall q | q in ChildSet(nodes, ROOT) ensures q == rows[0] || ChildLess(nodes, rows[0], q) {
        var i :| 0 <= i < |rows| && rows[i] == q;
      }
      assert rows[0] in rows;
    }
  }

  /** A restored selection is the old one if that is cached, else its nearest cached ancestor, else the
      first row. */
  lemma RestoredMeaning(nodes: Nodes, selection: Option<Path>)
    ensures var r := Restored(nodes, ChildIndex(nodes), selection);
            if selection.Some? && selection.value in nodes then r == selection
            else if selection.Some? && HasCachedAncestor(nodes, selection.value) then
              && r.Some? && r.value in nodes && r.value < selection.value
              && forall i :: |r.value| < i < |selection.value| ==> selection.value[..i] !in nodes
            else IsFirstRow(nodes, r)
  {
    if selection.Some? { NearestCachedMeaning(nodes, selection.value); }
    FirstRowMeaning(nodes);
    hide ChildIndex, NearestCached, HasCachedAncestor, IsFirstRow;
  }

  function WithNodes(t: TreeState, nodes: Nodes): TreeState {
    t.(nodes := nodes, children := ChildIndex(nodes),
       selection := Restored(nodes, ChildIndex(nodes), t.selection))
  }

  function Loaded(t: TreeState, l: Listing): TreeState {
    WithNodes(t, Applied(t.nodes, t.statuses, l))
  }

  /** New statuses and missing-file rows over the cached entries. */
  function Overlay(t: TreeState, statuses: map<Path, StatusKind>, changed: seq<ChangedFile>, rows: Nodes): TreeState {
    WithNodes(t.(statuses := statuses, changed := changed), Overlaid(t.nodes, statuses, rows))
  }

  function Merged(t: TreeState, c: MergeContext, es: set<StatusEntry>): TreeState {
    Overlay(t, MergedStatuses(c, es), MergedChanges(c, es), VirtualNodes(Gone(c, es)))
  }

  function VirtualOverlay(nodes: Nodes): Nodes {
    map p | p in nodes && nodes[p].kind == Virtual :: nodes[p]
  }

  function Synced(t: TreeState, source: TreeState): TreeState {
    Overlay(t, source.statuses, source.changed, VirtualOverlay(source.nodes))
  }

  /** The seed of a search index: the first missing-file rows in path order, nothing cached. */
  function SearchSeed(t: TreeState, limit: nat): TreeState {
    var virtuals := InOrder(VirtualOverlay(t.nodes).Keys);
    var kept := if |virtuals| <= limit then virtuals else virtuals[..limit];
    WithNodes(t, map p | p in t.nodes && p in kept :: t.nodes[p])
  }

  lemma FirstMembers(s: seq<Path>, n: nat)
    requires SortedPaths(s) && n <= |s|
    ensures |(set i | 0 <= i < n :: s[i])| == n
    ensures forall p :: p in s[..n] <==> p in (set i | 0 <= i < n :: s[i])
    ensures forall p, q :: p in s[..n] && q in s && q !in s[..n] ==> PathLess(p, q)
  {
    SortedDistinct(s);
    PrefixSize(s, n);
    forall p, q | p in s[..n] && q in s && q !in s[..n] ensures PathLess(p, q) {
      var i :| 0 <= i < n && s[..n][i] == p;
      assert forall j :: 0 <= j < n ==> s[..n][j] == s[j];
      var j :| 0 <= j < |s| && s[j] == q;
    }
  }

  lemma {:induction false} PrefixSize(s: seq<Path>, n: nat)
    requires n <= |s| && forall i, j :: 0 <= i < j < |s| ==> s[i] != s[j]
    ensures |(set i | 0 <= i < n :: s[i])| == n
  {
    if n > 0 {
      PrefixSize(s, n - 1);
      assert (set i | 0 <= i < n :: s[i]) == (set i | 0 <= i < n - 1 :: s[i]) + {s[n - 1]};
    }
  }

  function VirtualPaths(nodes: Nodes): set<Path> {
    set p | p in nodes && nodes[p].kind == Virtual
  }

  lemma SeedNodesAre(t: TreeState, limit: nat)
    ensures var virtuals := InOrder(VirtualPaths(t.nodes));
            var n := if |virtuals| <= limit then |virtuals| else limit;
            SearchSeed(t, limit) == WithNodes(t, map p | p in t.nodes && p in virtuals[..n] :: t.nodes[p])
  {
    assert VirtualOverlay(t.nodes).Keys == VirtualPaths(t.nodes);
    var virtuals := InOrder(VirtualPaths(t.nodes));
    assert virtuals[..|virtuals|] == virtuals;
    hide WithNodes;
  }

  /** A search index starts from missing-file rows alone: as many as the limit allows, as they are in the tree,
      and none that comes after one left out. */
  lemma SearchSeedMeaning(t: TreeState, limit: nat)
    ensures var (seed, rows) := (SearchSeed(t, limit).nodes, set p | p in t.nodes && t.nodes[p].kind == Virtual);
            && |seed| == (if |rows| <= limit then |rows| else limit)
            && (forall p :: p in seed ==> p in rows && seed[p] == t.nodes[p])
            && (forall p, q :: p in seed && q in rows && q !in seed ==> PathLess(p, q))
    ensures var seed := SearchSeed(t, limit);
            seed.statuses == t.statuses && seed.changed == t.changed && seed.children == ChildIndex(seed.nodes)
            && seed.selection == Restored(seed.nodes, seed.children, t.selection)
  {
    var virtuals := InOrder(VirtualPaths(t.nodes));
    var n := if |virtuals| <= limit then |virtuals| else limit;
    SeedNodesAre(t, limit);
    hide ChildIndex, Restored, PathLess, SearchSeed, InOrder;
    MemberCount(virtuals, VirtualPaths(t.nodes));
    KeptNodes(t.nodes, virtuals, n);
  }

  lemma MemberCount(s: seq<Path>, all: set<Path>)
    requires SortedPaths(s) && forall p :: p in s <==> p in all
    ensures |s| == |all|
  {
    SortedDistinct(s);
    PrefixSize(s, |s|);
    assert (set i | 0 <= i < |s| :: s[i]) == all;
  }

  lemma KeptNodes(nodes: Nodes, virtuals: seq<Path>, n: nat)
    requires SortedPaths(virtuals) && n <= |virtuals| && forall p :: p in virtuals <==> p in VirtualPaths(nodes)
    ensures var kept := map p | p in nodes && p in virtuals[..n] :: nodes[p];
            && |kept| == n && (forall p :: p in kept ==> p in VirtualPaths(nodes))
            && forall p, q :: p in kept && q in VirtualPaths(nodes) && q !in kept ==> PathLess(p, q)
  {
    FirstMembers(virtuals, n);
    hide PathLess, SortedPaths;
    var kept := map p | p in nodes && p in virtuals[..n] :: nodes[p];
    assert forall p :: p in virtuals[..n] ==> p in virtuals && p in VirtualPaths(nodes);
    var first := set i | 0 <= i < n :: virtuals[i];
    forall p ensures p in kept.Keys <==> p in first {
      assert p in first <==> p in virtuals[..n];
      assert p in virtuals[..n] ==> p in nodes;
    }
    assert kept.Keys == first;
    assert |kept| == |kept.Keys|;
  }

  lemma OverlayTwice(t: TreeState, statuses: map<Path, StatusKind>, changed: seq<ChangedFile>, rows: Nodes)
    requires forall p :: p in rows ==> rows[p].kind == Virtual
    ensures Overlay(Overlay(t, statuses, changed, rows), statuses, changed, rows) == Overlay(t, statuses, changed, rows)
  {
    var once := Overlaid(t.nodes, statuses, rows);
    assert Overlaid(once, statuses, rows) == once;
    RestoredStable(once, t.selection);
  }

  /** Merging the same snapshot again changes nothing. */
  lemma MergeTwice(t: TreeState, c: MergeContext, es: set<StatusEntry>)
    ensures Merged(Merged(t, c, es), c, es) == Merged(t, c, es)
  {
    OverlayTwice(t, MergedStatuses(c, es), MergedChanges(c, es), VirtualNodes(Gone(c, es)));
  }

  /** Only what is reported matters, not in which order or how often. */
  lemma MergeIgnoresOrder(t: TreeState, c: MergeContext, a: seq<StatusEntry>, b: seq<StatusEntry>)
    requires multiset(a) == multiset(b)
    ensures Merged(t, c, set e | e in a) == Merged(t, c, set e | e in b)
  {
    forall e ensures e in a <==> e in b {
      assert e in a <==> e in multiset(a);
      assert e in b <==> e in multiset(b);
    }
    assert (set e | e in a) == (set e | e in b);
  }

  /** Loading and merging commute in nodes, statuses, changed files and children index
      exactly when they are independent. */
  lemma LoadMergeOrder(t: TreeState, l: Listing, c: MergeContext, es: set<StatusEntry>)
    requires ParentClosed(t.nodes) && ValidListing(l)
    ensures Merged(Loaded(t, l), c, es).(selection := None) == Loaded(Merged(t, c, es), l).(selection := None)
            <==> Independent(t.nodes, l, Gone(c, es))
  {
    LoadAndMergeCommute(t.nodes, t.statuses, l, c, es);
  }

  lemma LoadKeepsCoherent(t: TreeState, l: Listing)
    requires Coherent(t) && ValidListing(l)
    ensures Coherent(Loaded(t, l))
  {
    LoadKeepsAgreement(t.nodes, t.statuses, l);
  }

  lemma MergeKeepsCoherent(t: TreeState, c: MergeContext, es: set<StatusEntry>)
    requires ROOT !in t.nodes
    ensures Coherent(Merged(t, c, es))
  {
    MergeMakesAgreement(t.nodes, c, es);
  }

  lemma SyncKeepsCoherent(t: TreeState, source: TreeState)
    requires Coherent(t) && Coherent(source)
    ensures Coherent(Synced(t, source))
  {
  }

  // ---------------------------------------------------------------- sibling sort

  function InsertSibling(nodes: Nodes, p: Path, s: seq<Path>): (r: seq<Path>)
    requires ChildSorted(nodes, s) && p !in s
    ensures ChildSorted(nodes, r)
    ensures forall q :: q in r <==> q == p || q in s
  {
    if s == [] then [p]
    else
      ChildTotal(nodes, p, s[0]);
      if ChildLess(nodes, p, s[0]) then
        ChildLessFirst(nodes, p, s);
        [p] + s
      else
        ChildSortedTail(nodes, s);
        var rest := InsertSibling(nodes, p, s[1..]);
        assert forall i :: 0 <= i < |rest| ==> rest[i] in rest;
        assert forall i :: 1 <= i < |s| ==> ChildLess(nodes, s[0], s[i]);
        assert forall q :: q in s[1..] ==> q in s;
        SiblingHead(nodes, s);
        [s[0]] + rest
  }

  lemma SiblingHead(nodes: Nodes, s: seq<Path>)
    requires ChildSorted(nodes, s) && s != []
    ensures forall q :: q in s[1..] ==> ChildLess(nodes, s[0], q)
  {
    forall q | q in s[1..] ensures ChildLess(nodes, s[0], q) {
      var i :| 0 <= i < |s[1..]| && s[1..][i] == q;
      assert s[i + 1] == q;
    }
  }

  lemma ChildLessFirst(nodes: Nodes, p: Path, s: seq<Path>)
    requires ChildSorted(nodes, s) && s != [] && ChildLess(nodes, p, s[0])
    ensures ChildSorted(nodes, [p] + s)
  {
    forall i, j | 0 <= i < j < |[p] + s| ensures ChildLess(nodes, ([p] + s)[i], ([p] + s)[j]) {
      if i == 0 && j > 1 {
        ChildTransitive(nodes, p, s[0], s[j - 1]);
      }
    }
  }

  lemma ChildTransitive(nodes: Nodes, a: Path, b: Path, c: Path)
    requires ChildLess(nodes, a, b) && ChildLess(nodes, b, c)
    ensures ChildLess(nodes, a, c)
  {
    if IsDirectory(nodes, a) == IsDirectory(nodes, b) == IsDirectory(nodes, c) { PathTransitive(a, b, c); }
  }

  function SortSiblings(nodes: Nodes, s: seq<Path>): (r: seq<Path>)
    requires SortedPaths(s)
    ensures ChildSorted(nodes, r)
    ensures forall q :: q in r <==> q in s
  {
    if s == [] then [] else
      SortedTail(s);
      InsertSibling(nodes, s[0], SortSiblings(nodes, s[1..]))
  }

  // ---------------------------------------------------------------- the tree object

  method InsertStatusWithAncestors(statuses: map<Path, StatusKind>, path: Path, status: StatusKind,
                                   ghost reports: set<Report>)
    returns (r: map<Path, StatusKind>)
    requires statuses == Summary(reports)
    ensures r == Summary(reports + Spread(Report(path, status)))
  {
    hide Summary;
    r := statuses;
    if path == ROOT {
      assert reports + {} == reports;
      return;
    }
    r := InsertPreferred(r, path, status);
    InsertExtendsSummary(reports, path, status);
    var lifted := Lift(status);
    ghost var report := Report(path, status);
    var n := |path|;
    assert SpreadFrom(report, n) == {report};
    while n > 1
      invariant 1 <= n <= |path|
      invariant r == Summary(reports + SpreadFrom(report, n))
    {
      n := n - 1;
      r := InsertPreferred(r, path[..n], lifted);
      InsertExtendsSummary(reports + SpreadFrom(report, n + 1), path[..n], lifted);
      assert reports + SpreadFrom(report, n + 1) + {Report(path[..n], lifted)} == reports + SpreadFrom(report, n);
    }
    assert SpreadFrom(report, 1) == Spread(report);
  }

  /** A report with its lifted copies at ancestors of length `n` and more. */
  function SpreadFrom(r: Report, n: nat): set<Report> {
    {r} + (set i | n <= i < |r.path| :: Report(r.path[..i], Lift(r.kind)))
  }

  /** The children lists after pushing some of the nodes in path order. */
  ghost predicate Pushed(nodes: Nodes, done: set<Path>, index: map<Path, seq<Path>>)
    requires done <= nodes.Keys
  {
    && (forall d :: d in index ==> SortedPaths(index[d]) && index[d] != [])
    && (forall d, p :: p in ChildrenAt(index, d) <==> p in done && DisplayParent(nodes, p) == d)
  }

  lemma PushedStep(nodes: Nodes, done: set<Path>, p: Path, index: map<Path, seq<Path>>)
    requires done <= nodes.Keys && forall q :: q in done ==> PathLess(q, p)
    requires p in nodes && Pushed(nodes, done, index)
    ensures Pushed(nodes, done + {p}, index[DisplayParent(nodes, p) := ChildrenAt(index, DisplayParent(nodes, p))
        + [p]])
  {
    hide DisplayParent, PathLess;
    var d := DisplayParent(nodes, p);
    var prior := ChildrenAt(index, d);
    var after := index[d := prior + [p]];
    forall k | 0 <= k < |prior| ensures PathLess(prior[k], p) {
      assert prior[k] in prior;
    }
    forall e, q ensures q in ChildrenAt(after, e) <==> q in done + {p} && DisplayParent(nodes, q) == e {
      assert q in ChildrenAt(index, e) <==> q in done && DisplayParent(nodes, q) == e;
      if e == d {
        assert ChildrenAt(after, e) == prior + [p];
      } else {
        assert ChildrenAt(after, e) == ChildrenAt(index, e);
      }
    }
  }

  lemma PushedSorted(nodes: Nodes, index: map<Path, seq<Path>>, d: Path)
    requires Pushed(nodes, nodes.Keys, index) && d in index
    ensures SortedPaths(index[d]) && SortSiblings(nodes, index[d]) == SortedChildren(nodes, d)
  {
    hide DisplayParent, SortSiblings, SortedChildren;
    forall p ensures p in SortSiblings(nodes, index[d]) <==> p in SortedChildren(nodes, d) {
      assert p in ChildrenAt(index, d) <==> p in index[d];
      assert p in ChildSet(nodes, d) <==> p in nodes && DisplayParent(nodes, p) == d;
    }
    ChildSortedUnique(nodes, SortSiblings(nodes, index[d]), SortedChildren(nodes, d));
  }

  lemma PushedKeys(nodes: Nodes, index: map<Path, seq<Path>>)
    requires Pushed(nodes, nodes.Keys, index)
    ensures index.Keys == ChildIndex(nodes).Keys
  {
    hide DisplayParent, SortedChildren, SortedPaths;
    forall d ensures d in index <==> d in ChildIndex(nodes) {
      if d in index {
        var p := index[d][0];
        assert p in index[d];
        assert p in ChildrenAt(index, d);
        assert p in nodes && DisplayParent(nodes, p) == d;
      }
      if d in ChildIndex(nodes) {
        var p :| p in nodes && DisplayParent(nodes, p) == d;
        assert p in ChildrenAt(index, d);
      }
    }
  }

  method PushChildren(nodes: Nodes) returns (index: map<Path, seq<Path>>)
    ensures Pushed(nodes, nodes.Keys, index)
  {
    index := map[];
    var order := InOrder(nodes.Keys);
    WalkEnds(order, nodes.Keys);
    hide DisplayParent, PathLess, Members;
    for i := 0 to |order|
      invariant Members(order[..i]) <= nodes.Keys && Pushed(nodes, Members(order[..i]), index)
    {
      var p := order[i];
      var d := DisplayParent(nodes, p);
      WalkStep(order, i);
      PushedStep(nodes, Members(order[..i]), p, index);
      index := index[d := ChildrenAt(index, d) + [p]];
    }
  }

  method SortIndex(nodes: Nodes, pushed: map<Path, seq<Path>>) returns (index: map<Path, seq<Path>>)
    requires Pushed(nodes, nodes.Keys, pushed)
    ensures index == ChildIndex(nodes)
  {
    index := pushed;
    var keys := InOrder(index.Keys);
    WalkEnds(keys, index.Keys);
    assert PartlySorted(nodes, pushed, {}) == pushed;
    hide *;
    for i := 0 to |keys|
      invariant index == PartlySorted(nodes, pushed, Members(keys[..i]))
    {
      WalkStep(keys, i);
      SortOne(nodes, pushed, Members(keys[..i]), keys[i]);
      index := index[keys[i] := SortSiblings(nodes, index[keys[i]])];
    }
    FullySorted(nodes, pushed);
  }

  function PartlySorted(nodes: Nodes, pushed: map<Path, seq<Path>>, done: set<Path>): map<Path, seq<Path>> {
    map d | d in pushed :: if d in done then SortedChildren(nodes, d) else pushed[d]
  }

  lemma SortOne(nodes: Nodes, pushed: map<Path, seq<Path>>, done: set<Path>, d: Path)
    requires Pushed(nodes, nodes.Keys, pushed) && d in pushed && d !in done
    ensures var index := PartlySorted(nodes, pushed, done);
            && d in index && SortedPaths(index[d])
            && index[d := SortSiblings(nodes, index[d])] == PartlySorted(nodes, pushed, done + {d})
  {
    PushedSorted(nodes, pushed, d);
    hide SortedChildren, SortSiblings, Pushed;
  }

  lemma FullySorted(nodes: Nodes, pushed: map<Path, seq<Path>>)
    requires Pushed(nodes, nodes.Keys, pushed)
    ensures PartlySorted(nodes, pushed, pushed.Keys) == ChildIndex(nodes)
  {
    PushedKeys(nodes, pushed);
    hide Pushed, SortedChildren, DisplayParent;
  }

  /** The in-place filter of a load: rows under removed or replaced entries go. */
  function Retained(nodes: Nodes, l: Listing, removed: set<Path>, replaced: set<Path>): Nodes {
    map p | p in nodes
            && (nodes[p].kind == Virtual
                || ((forall i | 0 <= i < |p| :: p[..i] !in removed && p[..i] !in replaced)
                    && (Parent(p) != l.directory || p in l.entries))) :: nodes[p]
  }

  lemma RetainIsSurvival(nodes: Nodes, l: Listing, removed: set<Path>, replaced: set<Path>)
    requires removed == set p | p in nodes && Dropped(nodes, l, p)
    requires replaced == set p | p in l.entries && Demoted(nodes, l, p)
    ensures Retained(nodes, l, removed, replaced) == map p | p in nodes && Survives(nodes, l, p) :: nodes[p]
  {
  }

  class Files {
    var nodes: Nodes
    var statuses: map<Path, StatusKind>
    var changedFiles: seq<ChangedFile>
    var children: map<Path, seq<Path>>
    var selection: Option<Path>

    function State(): TreeState
      reads this
    {
      TreeState(nodes, statuses, changedFiles, children, selection)
    }

    predicate Valid()
      reads this
    {
      Coherent(State())
    }

    constructor ()
      ensures Valid() && State() == EMPTY
    {
      nodes, statuses, changedFiles, children, selection := map[], map[], [], map[], None;
    }

    constructor Clone(t: TreeState)
      ensures State() == t
    {
      nodes, statuses, changedFiles, children, selection := t.nodes, t.statuses, t.changed, t.children, t.selection;
    }

    method RebuildChildren()
      requires ROOT !in nodes
      modifies this`children
      ensures children == ChildIndex(nodes)
    {
      var pushed := PushChildren(nodes);
      children := SortIndex(nodes, pushed);
    }

    method RestoreSelection()
      modifies this`selection
      ensures selection == Restored(nodes, children, old(selection))
    {
      match selection
      case None => selection := FirstRow(children);
      case Some(selected) =>
        if selected in nodes { return; }
        var ancestor := NearestCached(nodes, selected);
        selection := if ancestor.Some? then ancestor else FirstRow(children);
    }

    method RestoreSelectionFrom(selected: Option<Path>)
      modifies this`selection
      ensures selection == Restored(nodes, children, selected)
    {
      selection := selected;
      RestoreSelection();
    }

    method Select(path: Path) returns (selected: bool)
      modifies this`selection
      ensures selected == (path in nodes)
      ensures selection == if path in nodes then Some(path) else old(selection)
    {
      selected := path in nodes;
      if selected { selection := Some(path); }
    }

    method ApplyDirectory(l: Listing)
      requires Valid() && ValidListing(l)
      modifies this
      ensures Valid() && State() == Loaded(old(State()), l)
    {
      LoadKeepsCoherent(State(), l);
      hide Coherent, Demoted, Dropped, Survives, ChildIndex;
      var removed := set p | p in nodes && Dropped(nodes, l, p);
      var replaced := set p | p in l.entries && Demoted(nodes, l, p);
      RetainIsSurvival(nodes, l, removed, replaced);
      nodes := Retained(nodes, l, removed, replaced) + Stamped(l, statuses);
      RebuildChildren();
      RestoreSelection();
    }

    /** Both overlay operations end alike: restamp, replace the missing-file rows, rebuild. */
    method InstallOverlay(merged: map<Path, StatusKind>, changed: seq<ChangedFile>, rows: Nodes)
      requires ROOT !in nodes && ROOT !in rows
      modifies this
      ensures State() == Overlay(old(State()), merged, changed, rows)
    {
      nodes := Overlaid(nodes, merged, rows);
      statuses, changedFiles := merged, changed;
      RebuildChildren();
      RestoreSelection();
    }

    method MergeWorkspaceStatus(entries: seq<StatusEntry>, c: MergeContext)
      requires Valid()
      modifies this
      ensures Valid() && State() == Merged(old(State()), c, set e | e in entries)
    {
      ghost var es := set e | e in entries;
      ghost var before := State();
      MergeKeepsCoherent(before, c, es);
      assert ROOT !in VirtualNodes(Gone(c, es));
      assert Merged(before, c, es) == Overlay(before, MergedStatuses(c, es), MergedChanges(c, es),
          VirtualNodes(Gone(c, es)));
      hide Coherent, Merged, Overlay, MergedStatuses, MergedChanges, Gone, VirtualNodes, Facts, Tallies, ChangedList;
      var direct, candidates, tallied := CollectEntries(entries, c);
      var merged, changed, gone := CollectGone(direct, candidates, tallied, es, c);
      ListIsMergedChanges(changed, c, es);
      InstallOverlay(merged, ChangedList(changed), VirtualNodes(gone));
    }

    method SyncStatusOverlayFrom(source: Files)
      requires Valid() && source.Valid()
      modifies this
      ensures Valid() && State() == Synced(old(State()), old(source.State()))
    {
      SyncKeepsCoherent(State(), source.State());
      InstallOverlay(source.statuses, source.changedFiles, VirtualOverlay(source.nodes));
    }

    /** A fresh index holding at most `limit` missing-file rows. */
    method SearchIndex(limit: nat) returns (index: Files)
      requires Valid()
      ensures fresh(index) && index.Valid() && index.State() == SearchSeed(State(), limit)
    {
      var virtuals := InOrder(VirtualOverlay(nodes).Keys);
      var kept := if |virtuals| <= limit then virtuals else virtuals[..limit];
      assert forall p :: p in kept ==> p in virtuals;
      index := new Files.Clone(TreeState(map p | p in nodes
          && p in kept :: nodes[p], statuses, changedFiles, map[], selection));
      index.RebuildChildren();
      index.RestoreSelection();
    }

    /** How many display ancestors below the root a row hangs under. */
    method DisplayDepth(path: Path) returns (depth: nat)
      requires Valid()
      ensures depth == |Chain(nodes, path)| - 1
    {
      depth := 0;
      var current := path;
      while current in nodes && DisplayParent(nodes, current) != ROOT
        invariant depth + |Chain(nodes, current)| == |Chain(nodes, path)|
        decreases |current|
      {
        depth := depth + 1;
        current := DisplayParent(nodes, current);
      }
    }
  }

  predicate Tallies(changed: map<Path, (StatusKind, bool)>, reports: set<Report>, gone: map<Path, StatusKind>) {
    && changed.Keys == Summary(reports).Keys
    && (forall p :: p in gone ==> p in changed)
    && (forall p :: p in changed ==> changed[p] == (Summary(reports)[p], p in gone))
  }

  function ChangedList(changed: map<Path, (StatusKind, bool)>): seq<ChangedFile> {
    var order := InOrder(changed.Keys);
    seq(|order|, i requires 0 <= i < |order| => ChangedFile(order[i], changed[order[i]].0, changed[order[i]].1))
  }

  lemma ListIsMergedChanges(changed: map<Path, (StatusKind, bool)>, c: MergeContext, es: set<StatusEntry>)
    requires Tallies(changed, Facts(c, es), Gone(c, es))
    ensures ChangedList(changed) == MergedChanges(c, es)
  {
    hide Summary, Facts, Gone;
  }

  method UpsertChangedFile(changed: map<Path, (StatusKind, bool)>, path: Path, status: StatusKind, missing: bool,
                           ghost reports: set<Report>, ghost gone: map<Path, StatusKind>)
    returns (r: map<Path, (StatusKind, bool)>)
    requires Tallies(changed, reports, gone)
    ensures Tallies(r, reports + {Report(path, status)}, if missing then gone[path := status] else gone)
  {
    hide Summary;
    InsertExtendsSummary(reports, path, status);
    if path in changed {
      var (kind, was) := changed[path];
      r := changed[path := (if StatusOrder(status) < StatusOrder(kind) then status else kind, was || missing)];
    } else {
      r := changed[path := (status, missing)];
    }
  }

  /** The first pass: direct statuses, changed files and missing-file candidates. */
  method CollectEntries(entries: seq<StatusEntry>, c: MergeContext)
    returns (statuses: map<Path, StatusKind>, candidates: map<Path, StatusKind>,
             changed: map<Path, (StatusKind, bool)>)
    ensures statuses == Summary(SpreadAll(Direct(c, set e | e in entries)))
    ensures candidates == Summary(Candidates(c, set e | e in entries))
    ensures Tallies(changed, Direct(c, set e | e in entries), map[])
  {
    statuses, candidates, changed := map[], map[], map[];
    ghost var seen: set<StatusEntry> := {};
    for i := 0 to |entries|
      invariant seen == set e | e in entries[..i]
      invariant statuses == Summary(SpreadAll(Direct(c, seen)))
      invariant candidates == Summary(Candidates(c, seen))
      invariant Tallies(changed, Direct(c, seen), map[])
    {
      assert entries[..i + 1] == entries[..i] + [entries[i]];
      OneMoreEntry(c, seen, entries[i]);
      statuses, candidates, changed :=
        CollectEntry(entries[i], c, statuses, candidates, changed, Direct(c, seen), Candidates(c, seen));
      seen := seen + {entries[i]};
    }
    assert entries[..|entries|] == entries;
  }

  method CollectEntry(entry: StatusEntry, c: MergeContext, statuses0: map<Path, StatusKind>,
                      candidates0: map<Path, StatusKind>, changed0: map<Path, (StatusKind, bool)>,
                      ghost direct: set<Report>, ghost pending: set<Report>)
    returns (statuses: map<Path, StatusKind>, candidates: map<Path, StatusKind>,
             changed: map<Path, (StatusKind, bool)>)
    requires statuses0 == Summary(SpreadAll(direct))
    requires candidates0 == Summary(pending)
    requires Tallies(changed0, direct, map[])
    ensures statuses == Summary(SpreadAll(direct + DirectOf(c, entry)))
    ensures candidates == Summary(pending + CandidatesOf(c, entry))
    ensures Tallies(changed, direct + DirectOf(c, entry), map[])
  {
    hide Summary, SpreadAll, Tallies;
    statuses, candidates, changed := statuses0, candidates0, changed0;
    ghost var deleted: set<Report> := {};
    var path := Rebased(c, entry.path);
    if path.Some? {
      SpreadUnion(direct, {Report(path.value, entry.kind)});
      SpreadOne(Report(path.value, entry.kind));
      statuses := InsertStatusWithAncestors(statuses, path.value, entry.kind, SpreadAll(direct));
      changed := UpsertChangedFile(changed, path.value, entry.kind, false, direct, map[]);
      if ReportsDeletion(entry) {
        InsertExtendsSummary(pending, path.value, entry.kind);
        candidates := InsertPreferred(candidates, path.value, entry.kind);
        deleted := {Report(path.value, entry.kind)};
      }
    } else {
      assert direct + {} == direct;
    }
    assert deleted == if ReportsDeletion(entry) then DirectOf(c, entry) else {};
    assert candidates == Summary(pending + deleted) by { assert pending + {} == pending; }
    if entry.source.Some? {
      var source := Rebased(c, entry.source.value);
      if source.Some? {
        InsertExtendsSummary(pending + deleted, source.value, entry.kind);
        candidates := InsertPreferred(candidates, source.value, entry.kind);
        assert pending + CandidatesOf(c, entry) == pending + deleted + {Report(source.value, entry.kind)};
        return;
      }
    }
    assert CandidatesOf(c, entry) == deleted;
  }

  lemma OneMoreEntry(c: MergeContext, seen: set<StatusEntry>, entry: StatusEntry)
    ensures Direct(c, seen + {entry}) == Direct(c, seen) + DirectOf(c, entry)
    ensures Candidates(c, seen + {entry}) == Candidates(c, seen) + CandidatesOf(c, entry)
  {
    assert entry in seen + {entry};
  }

  /** The second pass: candidates missing on disk become rows and count as changes. */
  method CollectGone(direct: map<Path, StatusKind>, candidates: map<Path, StatusKind>,
                     tallied: map<Path, (StatusKind, bool)>, ghost es: set<StatusEntry>, c: MergeContext)
    returns (statuses: map<Path, StatusKind>, changed: map<Path, (StatusKind, bool)>, gone: map<Path, StatusKind>)
    requires direct == Summary(SpreadAll(Direct(c, es)))
    requires candidates == Summary(Candidates(c, es))
    requires Tallies(tallied, Direct(c, es), map[])
    ensures statuses == MergedStatuses(c, es)
    ensures gone == Gone(c, es)
    ensures Tallies(changed, Facts(c, es), gone)
  {
    statuses, changed, gone := direct, tallied, map[];
    NothingGone(c, es);
    hide *;
    var order := InOrder(candidates.Keys);
    SortedDistinct(order);
    for i := 0 to |order|
      invariant gone == map p | p in order[..i] && c.disk(p) == Missing :: candidates[p]
      invariant statuses == Summary(SpreadAll(Direct(c, es) + AsReports(gone)))
      invariant Tallies(changed, Direct(c, es) + AsReports(gone), gone)
    {
      var path := order[i];
      assert order[..i + 1] == order[..i] + [path];
      match c.disk(path)
      case Present =>
      case Unreadable =>
      case Missing =>
        var status := candidates[path];
        ghost var facts := Direct(c, es) + AsReports(gone);
        assert path !in order[..i];
        OneMoreGone(Direct(c, es), gone, path, status);
        statuses := InsertStatusWithAncestors(statuses, path, status, SpreadAll(facts));
        changed := UpsertChangedFile(changed, path, status, true, facts, gone);
        gone := gone[path := status];
    }
    assert order[..|order|] == order;
    AllGone(c, es, candidates, order, gone);
  }

  lemma NothingGone(c: MergeContext, es: set<StatusEntry>)
    ensures Direct(c, es) + AsReports(map[]) == Direct(c, es)
  {
    assert AsReports(map[]) == {};
  }

  lemma AllGone(c: MergeContext, es: set<StatusEntry>, candidates: map<Path, StatusKind>, order: seq<Path>,
                gone: map<Path, StatusKind>)
    requires candidates == Summary(Candidates(c, es))
    requires forall p :: p in order <==> p in candidates
    requires gone == map p | p in order && c.disk(p) == Missing :: candidates[p]
    ensures gone == Gone(c, es)
    ensures Direct(c, es) + AsReports(gone) == Facts(c, es)
    ensures MergedStatuses(c, es) == Summary(SpreadAll(Direct(c, es) + AsReports(gone)))
  {
    hide Summary, Candidates, Direct, SpreadAll;
  }

  lemma OneMoreGone(direct: set<Report>, gone: map<Path, StatusKind>, path: Path, status: StatusKind)
    requires path !in gone
    ensures direct + AsReports(gone[path := status]) == direct + AsReports(gone) + {Report(path, status)}
    ensures SpreadAll(direct + AsReports(gone[path := status]))
            == SpreadAll(direct + AsReports(gone)) + Spread(Report(path, status))
  {
    var more := gone[path := status];
    forall r ensures r in AsReports(more) <==> r in AsReports(gone) + {Report(path, status)} {
      assert r in AsReports(more) <==> r.path in more && r.kind == more[r.path];
      assert r in AsReports(gone) <==> r.path in gone && r.kind == gone[r.path];
    }
    assert direct + AsReports(more) == direct + AsReports(gone) + {Report(path, status)};
    SpreadUnion(direct + AsReports(gone), {Report(path, status)});
    SpreadOne(Report(path, status));
  }
}
