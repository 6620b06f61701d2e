/** Projecting search matches onto rows. */
module Projection {
  import opened Wrappers
  import opened Paths
  import opened Tree
  import opened Rows
  import opened FilesTree
  import opened Search
  import opened Texts

  datatype Projected = Projected(matches: set<Path>, expandedContext: set<Path>, rows: seq<Path>)

  function Matches(searchable: Searchable, query: string): set<Path> {
    set p | p in searchable && ContainsText(searchable[p].normalized, query)
  }

  /** The display ancestors of a row, the root excepted. */
  function DisplayAncestors(nodes: Nodes, p: Path): set<Path>
    requires ROOT !in nodes
    decreases |p|
  {
    if p !in nodes || DisplayParent(nodes, p) == ROOT then {}
    else {DisplayParent(nodes, p)} + DisplayAncestors(nodes, DisplayParent(nodes, p))
  }

  lemma {:induction false} AncestorsMeaning(nodes: Nodes, p: Path, a: Path)
    requires ROOT !in nodes
    ensures a in DisplayAncestors(nodes, p) <==> a != ROOT && HangsUnder(nodes, p, a)
    decreases |p|
  {
    if p in nodes {
      var q := DisplayParent(nodes, p);
      assert Above(nodes, p, 1) == Above(nodes, q, 0) == Some(q);
      AboveMore(nodes, p);
      AncestorsMeaning(nodes, q, a);
      if q == ROOT {
        assert forall n: nat :: n > 0 ==> Above(nodes, q, n).None?;
      }
      hide DisplayParent, Above;
      if HangsUnder(nodes, q, a) {
        var n: nat :| n > 0 && Above(nodes, q, n) == Some(a);
        assert Above(nodes, p, n + 1) == Some(a);
      }
      if HangsUnder(nodes, p, a) {
        var n: nat :| n > 0 && Above(nodes, p, n) == Some(a);
        assert Above(nodes, q, n - 1) == Some(a);
      }
    }
  }

  /** The matches with everything they hang under. */
  function Included(nodes: Nodes, matches: set<Path>): set<Path>
    requires ROOT !in nodes
  {
    matches + (set p, a | p in matches && a in DisplayAncestors(nodes, p) :: a)
  }

  function DirectoriesAmong(nodes: Nodes, paths: set<Path>): set<Path> {
    set p | p in paths && IsDirectory(nodes, p)
  }

  function ProjectionOf(nodes: Nodes, searchable: Searchable, query: string): Projected
    requires ROOT !in nodes
  {
    var matches := Matches(searchable, query);
    var included := Included(nodes, matches);
    Projected(matches, DirectoriesAmong(nodes, included), RowsUnder(nodes, included, included, ROOT))
  }

  lemma {:induction false} ParentClosedChain(nodes: Nodes, p: Path)
    requires ParentClosed(nodes) && p in nodes && DisplayParent(nodes, p) != ROOT
    ensures IsDirectory(nodes, DisplayParent(nodes, p))
  {
    if nodes[p].kind == Virtual { NearestMeaning(nodes, p); }
  }

  /** On a parent-closed index every included row reaches the root through included directories. */
  lemma {:induction false} IncludedReach(nodes: Nodes, matches: set<Path>, p: Path)
    requires ParentClosed(nodes) && matches <= nodes.Keys && p in Included(nodes, matches)
    ensures p in nodes && Reaches(nodes, Included(nodes, matches), Included(nodes, matches), p)
    decreases |p|
  {
    IncludedIsCached(nodes, matches, p);
    var q := DisplayParent(nodes, p);
    if q != ROOT {
      ParentClosedChain(nodes, p);
      IncludedUpward(nodes, matches, p);
      IncludedReach(nodes, matches, q);
    }
  }

  lemma {:induction false} AncestorIsDirectory(nodes: Nodes, p: Path, a: Path)
    requires ParentClosed(nodes) && a in DisplayAncestors(nodes, p)
    ensures IsDirectory(nodes, a)
    decreases |p|
  {
    ParentClosedChain(nodes, p);
    if a != DisplayParent(nodes, p) { AncestorIsDirectory(nodes, DisplayParent(nodes, p), a); }
  }

  lemma IncludedIsCached(nodes: Nodes, matches: set<Path>, p: Path)
    requires ParentClosed(nodes) && matches <= nodes.Keys && p in Included(nodes, matches)
    ensures p in nodes
    ensures p !in matches ==> IsDirectory(nodes, p)
  {
    if p !in matches {
      var m :| m in matches && p in DisplayAncestors(nodes, m);
      AncestorIsDirectory(nodes, m, p);
    }
  }

  lemma {:induction false} AncestorsClosed(nodes: Nodes, p: Path, a: Path)
    requires ROOT !in nodes && a in DisplayAncestors(nodes, p)
    ensures DisplayAncestors(nodes, a) <= DisplayAncestors(nodes, p)
    decreases |p|
  {
    if a != DisplayParent(nodes, p) { AncestorsClosed(nodes, DisplayParent(nodes, p), a); }
  }

  lemma IncludedUpward(nodes: Nodes, matches: set<Path>, p: Path)
    requires ROOT !in nodes && p in nodes && p in Included(nodes, matches) && DisplayParent(nodes, p) != ROOT
    ensures DisplayParent(nodes, p) in Included(nodes, matches)
  {
    assert DisplayParent(nodes, p) in DisplayAncestors(nodes, p);
    if p !in matches {
      var m :| m in matches && p in DisplayAncestors(nodes, m);
      AncestorsClosed(nodes, m, p);
    }
  }

  /** A finished projection on a parent-closed index: its rows are the matches and all they hang
      under, each once, in pre-order, and the expanded context is exactly the directory rows. */
  lemma ProjectionMeaning(nodes: Nodes, searchable: Searchable, query: string)
    requires ParentClosed(nodes) && searchable.Keys <= nodes.Keys
    ensures var r := ProjectionOf(nodes, searchable, query);
            && (forall p :: p in r.rows <==> p in Included(nodes, r.matches))
            && Preorder(nodes, r.rows)
            && (forall i, j :: 0 <= i < j < |r.rows| ==> r.rows[i] != r.rows[j])
            && (forall p :: p in r.expandedContext <==> p in r.rows && IsDirectory(nodes, p))
  {
    var matches := Matches(searchable, query);
    var included := Included(nodes, matches);
    ListingTheorem(nodes, included, included);
    forall p ensures Reaches(nodes, included, included, p) <==> p in included {
      if p in included { IncludedReach(nodes, matches, p); }
    }
    hide Included, Reaches, Preorder;
  }

  // ---------------------------------------------------------------- the worker

  method Project(index: TreeState, searchable: Searchable, query: string, cancelled: nat -> bool)
    returns (r: Option<Projected>)
    requires Coherent(index)
    ensures r.Some? ==> r.value == ProjectionOf(index.nodes, searchable, query)
    ensures r.None? ==> exists k: nat :: cancelled(k)
  {
    var stopped, matches, polls := MatchPaths(searchable, query, cancelled);
    if stopped { return None; }
    var included;
    included, stopped, polls := CollectAncestors(index.nodes, matches, cancelled, polls);
    if stopped { return None; }
    var expanded;
    expanded, stopped, polls := CollectDirectories(index.nodes, included, cancelled, polls);
    if stopped { return None; }
    var ok, rows;
    ok, rows, polls := AppendChildren(index.nodes, index.children, ROOT, included, [], cancelled, polls);
    if !ok { return None; }
    r := Some(Projected(matches, expanded, rows));
  }

  method MatchPaths(searchable: Searchable, query: string, cancelled: nat -> bool)
    returns (stopped: bool, matches: set<Path>, polls: nat)
    ensures !stopped ==> matches == Matches(searchable, query)
    ensures stopped ==> exists k: nat :: cancelled(k)
  {
    stopped, matches, polls := false, {}, 0;
    var keys := InOrder(searchable.Keys);
    WalkEnds(keys, searchable.Keys);
    hide ContainsText, Members, PathLess;
    for i := 0 to |keys|
      invariant matches == Matches(searchable, query) * Members(keys[..i])
    {
      if cancelled(polls) { stopped := true; return; }
      polls := polls + 1;
      WalkStep(keys, i);
      if ContainsText(searchable[keys[i]].normalized, query) {
        matches := matches + {keys[i]};
      }
    }
  }

  method CollectDirectories(nodes: Nodes, included: set<Path>, cancelled: nat -> bool, from: nat)
    returns (expanded: set<Path>, stopped: bool, polls: nat)
    ensures !stopped ==> expanded == DirectoriesAmong(nodes, included)
    ensures stopped ==> exists k: nat :: cancelled(k)
  {
    expanded, stopped, polls := {}, false, from;
    var order := InOrder(included);
    WalkEnds(order, included);
    hide Members, PathLess;
    for i := 0 to |order|
      invariant expanded == DirectoriesAmong(nodes, Members(order[..i]))
    {
      if cancelled(polls) { stopped := true; return; }
      polls := polls + 1;
      WalkStep(order, i);
      if IsDirectory(nodes, order[i]) {
        expanded := expanded + {order[i]};
      }
    }
  }

  /** The ancestors collected once some of the matches are walked. */
  function CollectedFrom(nodes: Nodes, matches: set<Path>, done: set<Path>): set<Path>
    requires ROOT !in nodes
  {
    matches + (set p, a | p in done && a in DisplayAncestors(nodes, p) :: a)
  }

  method CollectAncestors(nodes: Nodes, matches: set<Path>, cancelled: nat -> bool, from: nat)
    returns (included: set<Path>, stopped: bool, polls: nat)
    requires ROOT !in nodes
    ensures !stopped ==> included == Included(nodes, matches)
    ensures stopped ==> exists k: nat :: cancelled(k)
  {
    polls, stopped, included := from, false, matches;
    var order := InOrder(matches);
    WalkEnds(order, matches);
    assert CollectedFrom(nodes, matches, {}) == matches;
    assert CollectedFrom(nodes, matches, matches) == Included(nodes, matches);
    hide CollectedFrom, Members, PathLess, Included;
    for i := 0 to |order|
      invariant included == CollectedFrom(nodes, matches, Members(order[..i]))
    {
      if cancelled(polls) { stopped := true; return; }
      polls := polls + 1;
      WalkStep(order, i);
      included := AddAncestors(nodes, order[i], included);
    }
  }

  method AddAncestors(nodes: Nodes, p: Path, before: set<Path>) returns (included: set<Path>)
    requires ROOT !in nodes
    ensures included == before + DisplayAncestors(nodes, p)
  {
    included := before;
    var current := p;
    while current in nodes && DisplayParent(nodes, current) != ROOT
      invariant included + DisplayAncestors(nodes, current) == before + DisplayAncestors(nodes, p)
      decreases |current|
    {
      current := DisplayParent(nodes, current);
      included := included + {current};
    }
  }

  method AppendChildren(nodes: Nodes, index: map<Path, seq<Path>>, directory: Path, included: set<Path>,
                        before: seq<Path>, cancelled: nat -> bool, from: nat)
    returns (ok: bool, rows: seq<Path>, polls: nat)
    requires ROOT !in nodes && index == ChildIndex(nodes)
    ensures ok ==> rows == before + RowsUnder(nodes, included, included, directory)
    ensures !ok ==> exists k: nat :: cancelled(k)
    decreases Below(nodes, directory), 1
  {
    ok, rows, polls := true, before, from;
    IndexedChildren(nodes, directory);
    var children := ChildrenAt(index, directory);
    RowsStart(nodes, included, included, directory);
    hide *;
    ghost var total := RowsUnder(nodes, included, included, directory);
    ghost var rest := total;
    for i := 0 to |children|
      invariant rows + rest == before + total
      invariant rest == RowsAmong(nodes, included, included, directory, children[i..])
    {
      if cancelled(polls) { ok := false; return; }
      polls := polls + 1;
      RowsStep(nodes, included, included, directory, children, i);
      ghost var listed, block := rows, Block(nodes, included, included, directory, children[i]);
      ok, rows, polls := AppendRow(nodes, index, directory, children[i], included, rows, cancelled, polls);
      if !ok { return; }
      rest := RowsAmong(nodes, included, included, directory, children[i + 1..]);
      Regroup(listed, block, rest);
    }
    assert rows + [] == rows;
  }

  /** One child with its subtree, if it is included. */
  method AppendRow(nodes: Nodes, index: map<Path, seq<Path>>, directory: Path, path: Path, included: set<Path>,
                   before: seq<Path>, cancelled: nat -> bool, from: nat)
    returns (ok: bool, rows: seq<Path>, polls: nat)
    requires ROOT !in nodes && index == ChildIndex(nodes)
    requires path in nodes && DisplayParent(nodes, path) == directory
    ensures ok ==> rows == before + Block(nodes, included, included, directory, path)
    ensures !ok ==> exists k: nat :: cancelled(k)
    decreases Below(nodes, directory), 0
  {
    ok, rows, polls := true, before, from;
    hide ChildIndex, Below, DisplayParent, RowsUnder;
    if path !in included { return; }
    rows := rows + [path];
    if nodes[path].kind == Directory {
      BelowShrinks(nodes, directory, path);
      ok, rows, polls := AppendChildren(nodes, index, path, included, rows, cancelled, polls);
    }
  }
}
