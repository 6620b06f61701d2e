/** Display parents, the children index and pre-order row listings. */
module Rows {
  import opened Wrappers
  import opened Paths
  import opened Tree

  /** The nearest proper ancestor that is the root or a cached directory. */
  function NearestDirectory(nodes: Nodes, p: Path): (q: Path)
    ensures p != ROOT ==> q < p
  {
    var q := Parent(p);
    if q == ROOT || IsDirectory(nodes, q) then q else NearestDirectory(nodes, q)
  }

  lemma {:induction false} NearestMeaning(nodes: Nodes, p: Path)
    ensures var q := NearestDirectory(nodes, p);
            && (q == ROOT || IsDirectory(nodes, q))
            && forall i :: |q| < i < |p| ==> !IsDirectory(nodes, p[..i])
  {
    var q := Parent(p);
    assert forall i :: 0 <= i <= |q| ==> q[..i] == p[..i];
    if q != ROOT && !IsDirectory(nodes, q) {
      NearestMeaning(nodes, q);
    }
  }

  /** Where a row hangs: missing-file rows under the nearest directory, others under their parent. */
  function DisplayParent(nodes: Nodes, p: Path): (q: Path)
    requires p in nodes
    ensures p != ROOT ==> q < p
  {
    if nodes[p].kind == Virtual then NearestDirectory(nodes, p) else Parent(p)
  }

  /** A row of something on disk hangs under its parent; a missing-file row under the nearest ancestor that is
      the root or a cached directory. */
  lemma DisplayParentMeaning(nodes: Nodes, p: Path)
    requires p in nodes && p != ROOT
    ensures var q := DisplayParent(nodes, p);
            if nodes[p].kind == File || nodes[p].kind == Directory || nodes[p].kind == Symlink then q == p[..|p| - 1]
            else q < p && (q == ROOT || IsDirectory(nodes, q))
                 && forall i :: |q| < i < |p| ==> !IsDirectory(nodes, p[..i])
  {
    NearestMeaning(nodes, p);
  }

  /** The row some levels above a row, as long as the rows between are cached. */
  function Above(nodes: Nodes, p: Path, levels: nat): Option<Path>
    decreases levels
  {
    if levels == 0 then Some(p)
    else if p in nodes then Above(nodes, DisplayParent(nodes, p), levels - 1)
    else None
  }

  lemma AboveMore(nodes: Nodes, p: Path)
    requires p in nodes
    ensures forall n: nat :: n > 0 ==> Above(nodes, p, n) == Above(nodes, DisplayParent(nodes, p), n - 1)
  {
  }

  /** A row hangs somewhere under another. */
  ghost predicate HangsUnder(nodes: Nodes, p: Path, a: Path) {
    exists n: nat :: n > 0 && Above(nodes, p, n) == Some(a)
  }

  predicate ChildLess(nodes: Nodes, a: Path, b: Path) {
    if IsDirectory(nodes, a) == IsDirectory(nodes, b) then PathLess(a, b) else IsDirectory(nodes, a)
  }

  predicate ChildSorted(nodes: Nodes, s: seq<Path>) {
    forall i, j :: 0 <= i < j < |s| ==> ChildLess(nodes, s[i], s[j])
  }

  function ChildSet(nodes: Nodes, d: Path): set<Path> {
    set p | p in nodes && DisplayParent(nodes, p) == d
  }

  /** The rows hanging directly under `d`: directories first, each group in path order. */
  function SortedChildren(nodes: Nodes, d: Path): (s: seq<Path>)
    ensures forall p :: p in s <==> p in ChildSet(nodes, d)
    ensures ChildSorted(nodes, s)
  {
    var directories := InOrder(set p | p in ChildSet(nodes, d) && IsDirectory(nodes, p));
    var others := InOrder(set p | p in ChildSet(nodes, d) && !IsDirectory(nodes, p));
    GroupsSorted(nodes, directories, others);
    directories + others
  }

  lemma GroupsSorted(nodes: Nodes, directories: seq<Path>, others: seq<Path>)
    requires SortedPaths(directories) && forall p :: p in directories ==> IsDirectory(nodes, p)
    requires SortedPaths(others) && forall p :: p in others ==> !IsDirectory(nodes, p)
    ensures ChildSorted(nodes, directories + others)
  {
    var s := directories + others;
    forall i, j | 0 <= i < j < |s| ensures ChildLess(nodes, s[i], s[j]) {
      assert s[i] in directories || s[i] in others;
      assert s[j] in directories || s[j] in others;
    }
  }

  /** The index from display parents to their sorted children. */
  function ChildIndex(nodes: Nodes): map<Path, seq<Path>> {
    map d | d in (set p | p in nodes :: DisplayParent(nodes, p)) :: SortedChildren(nodes, d)
  }

  function ChildrenAt(index: map<Path, seq<Path>>, d: Path): seq<Path> {
    if d in index then index[d] else []
  }

  lemma IndexedChildren(nodes: Nodes, d: Path)
    ensures ChildrenAt(ChildIndex(nodes), d) == SortedChildren(nodes, d)
  {
    HeadMember(SortedChildren(nodes, d));
    forall p | p in SortedChildren(nodes, d) ensures d in ChildIndex(nodes) {
      assert p in ChildSet(nodes, d);
    }
  }

  lemma ChildTotal(nodes: Nodes, a: Path, b: Path)
    ensures a != b ==> (ChildLess(nodes, a, b) <==> !ChildLess(nodes, b, a))
    ensures a == b ==> !ChildLess(nodes, a, b)
  {
    PathTotal(a, b);
  }

  lemma ChildSortedDistinct(nodes: Nodes, s: seq<Path>)
    requires ChildSorted(nodes, s)
    ensures forall i, j :: 0 <= i < j < |s| ==> s[i] != s[j]
  {
    forall i, j | 0 <= i < j < |s| ensures s[i] != s[j] { ChildTotal(nodes, s[i], s[j]); }
  }

  /** The index partitions the nodes: each is listed once, under its display parent. */
  lemma ChildrenPartition(nodes: Nodes, p: Path, d: Path)
    requires p in nodes
    ensures p in ChildrenAt(ChildIndex(nodes), d) <==> d == DisplayParent(nodes, p)
    ensures forall i, j :: 0 <= i < j < |ChildrenAt(ChildIndex(nodes), d)| ==>
              ChildrenAt(ChildIndex(nodes), d)[i] != ChildrenAt(ChildIndex(nodes), d)[j]
  {
    IndexedChildren(nodes, d);
    ChildSortedDistinct(nodes, SortedChildren(nodes, d));
  }

  lemma ChildSortedTail(nodes: Nodes, s: seq<Path>)
    requires ChildSorted(nodes, s) && s != []
    ensures forall p :: p in s[1..] <==> p in s && p != s[0]
  {
    ChildSortedDistinct(nodes, s);
    forall p | p in s[1..] ensures p in s && p != s[0] {
      var i :| 0 <= i < |s[1..]| && s[1..][i] == p;
      assert s[i + 1] == p;
    }
    forall p | p in s && p != s[0] ensures p in s[1..] {
      var i :| 0 <= i < |s| && s[i] == p;
      assert s[1..][i - 1] == p;
    }
  }

  /** Sibling order leaves no choice: equal members, equal list. */
  lemma {:induction false} ChildSortedUnique(nodes: Nodes, a: seq<Path>, b: seq<Path>)
    requires ChildSorted(nodes, a) && ChildSorted(nodes, b)
    requires forall p :: p in a <==> p in b
    ensures a == b
  {
    HeadMember(a);
    HeadMember(b);
    if a != [] {
      assert b[0] in b && b[0] in a;
      var i :| 0 <= i < |b| && b[i] == a[0];
      var j :| 0 <= j < |a| && a[j] == b[0];
      ChildTotal(nodes, a[0], b[0]);
      assert a[0] == b[0];
      ChildSortedTail(nodes, a);
      ChildSortedTail(nodes, b);
      ChildSortedUnique(nodes, a[1..], b[1..]);
      assert a == [a[0]] + a[1..] && b == [b[0]] + b[1..];
    }
  }

  // ---------------------------------------------------------------- pre-order listings

  function Below(nodes: Nodes, d: Path): set<Path> {
    set p | p in nodes && d < p
  }

  lemma BelowShrinks(nodes: Nodes, d: Path, c: Path)
    requires c in nodes && d < c
    ensures Below(nodes, c) < Below(nodes, d)
  {
    assert c in Below(nodes, d) && c !in Below(nodes, c);
  }

  /** The listing both row builders produce: children of `d` in sibling order, only shown ones,
      each followed by its own listing when it is an open directory. */
  function RowsUnder(nodes: Nodes, show: set<Path>, open: set<Path>, d: Path): seq<Path>
    requires ROOT !in nodes
    decreases Below(nodes, d), 1, 0
  {
    RowsAmong(nodes, show, open, d, SortedChildren(nodes, d))
  }

  predicate Descends(nodes: Nodes, show: set<Path>, open: set<Path>, c: Path) {
    c in show && IsDirectory(nodes, c) && c in open
  }

  function RowsAmong(nodes: Nodes, show: set<Path>, open: set<Path>, d: Path, cs: seq<Path>): seq<Path>
    requires ROOT !in nodes
    requires forall c :: c in cs ==> c in nodes && DisplayParent(nodes, c) == d
    decreases Below(nodes, d), 0, |cs|
  {
    if cs == [] then [] else
      Block(nodes, show, open, d, cs[0]) + RowsAmong(nodes, show, open, d, cs[1..])
  }

  function Block(nodes: Nodes, show: set<Path>, open: set<Path>, d: Path, c: Path): seq<Path>
    requires ROOT !in nodes && c in nodes && DisplayParent(nodes, c) == d
    decreases Below(nodes, d), 0, 0
  {
    if c !in show then []
    else if Descends(nodes, show, open, c) then
      BelowShrinks(nodes, d, c);
      [c] + RowsUnder(nodes, show, open, c)
    else [c]
  }

  /** A row is due exactly when it is shown and its display parents up to the root are open. */
  predicate Reaches(nodes: Nodes, show: set<Path>, open: set<Path>, p: Path)
    requires ROOT !in nodes
    decreases |p|
  {
    && p in nodes && p in show
    && var q := DisplayParent(nodes, p);
       q == ROOT || (Descends(nodes, show, open, q) && Reaches(nodes, show, open, q))
  }

  /** `p` hangs, at any distance, under `d` through open directories. */
  predicate ReachesFrom(nodes: Nodes, show: set<Path>, open: set<Path>, d: Path, p: Path)
    requires ROOT !in nodes
    decreases |p|
  {
    && p in nodes && p in show
    && var q := DisplayParent(nodes, p);
       q == d || (Descends(nodes, show, open, q) && ReachesFrom(nodes, show, open, d, q))
  }

  /** The display ancestors of a row from the top down, ending in the row. */
  function Chain(nodes: Nodes, p: Path): (c: seq<Path>)
    requires ROOT !in nodes
    ensures c != [] && c[|c| - 1] == p
    decreases |p|
  {
    if p !in nodes || DisplayParent(nodes, p) == ROOT then [p]
    else Chain(nodes, DisplayParent(nodes, p)) + [p]
  }

  predicate ChainLess(nodes: Nodes, s: seq<Path>, t: seq<Path>) {
    && t != []
    && (s == [] || (if s[0] == t[0] then ChainLess(nodes, s[1..], t[1..]) else ChildLess(nodes, s[0], t[0])))
  }

  /** Pre-order: parents before children, siblings in sibling order, subtrees contiguous. */
  predicate PreorderLess(nodes: Nodes, a: Path, b: Path)
    requires ROOT !in nodes
  {
    ChainLess(nodes, Chain(nodes, a), Chain(nodes, b))
  }

  predicate Preorder(nodes: Nodes, rows: seq<Path>)
    requires ROOT !in nodes
  {
    forall i, j :: 0 <= i < j < |rows| ==> PreorderLess(nodes, rows[i], rows[j])
  }

  function ChainOf(nodes: Nodes, d: Path): seq<Path>
    requires ROOT !in nodes
  {
    if d == ROOT then [] else Chain(nodes, d)
  }

  /** Everything listed under `d` has the chain of `d` as a prefix, continued by a child of `d`. */
  ghost predicate Under(nodes: Nodes, d: Path, c: Path, p: Path)
    requires ROOT !in nodes
  {
    ChainOf(nodes, d) + [c] <= Chain(nodes, p)
  }

  lemma {:induction false} ReachUnder(nodes: Nodes, show: set<Path>, open: set<Path>, d: Path, c: Path, p: Path)
    requires ROOT !in nodes && c in nodes && DisplayParent(nodes, c) == d
    requires p == c || ReachesFrom(nodes, show, open, c, p)
    ensures Under(nodes, d, c, p)
    decreases |p|
  {
    if p != c {
      ReachUnder(nodes, show, open, d, c, DisplayParent(nodes, p));
    }
  }

  lemma {:induction false} ChainLessSkip(nodes: Nodes, front: seq<Path>, s: seq<Path>, t: seq<Path>)
    ensures ChainLess(nodes, front + s, front + t) == ChainLess(nodes, s, t)
  {
    if front == [] {
      assert front + s == s && front + t == t;
    } else {
      assert (front + s)[1..] == front[1..] + s && (front + t)[1..] == front[1..] + t;
      ChainLessSkip(nodes, front[1..], s, t);
    }
  }

  lemma ForkLess(nodes: Nodes, front: seq<Path>, c: Path, e: Path, s: seq<Path>, t: seq<Path>)
    requires front + [c] <= s && front + [e] <= t && ChildLess(nodes, c, e)
    ensures ChainLess(nodes, s, t)
  {
    var u, v := s[|front|..], t[|front|..];
    assert s == front + u && t == front + v;
    assert u[0] == s[|front|] == (front + [c])[|front|];
    assert v[0] == t[|front|] == (front + [e])[|front|];
    ChildTotal(nodes, c, e);
    ChainLessSkip(nodes, front, u, v);
  }

  lemma SiblingsBefore(nodes: Nodes, d: Path, c: Path, e: Path, a: Path, b: Path)
    requires ROOT !in nodes
    requires Under(nodes, d, c, a) && Under(nodes, d, e, b) && ChildLess(nodes, c, e)
    ensures PreorderLess(nodes, a, b)
  {
    ForkLess(nodes, ChainOf(nodes, d), c, e, Chain(nodes, a), Chain(nodes, b));
  }

  lemma PrefixLess(nodes: Nodes, s: seq<Path>, t: seq<Path>)
    requires s < t
    ensures ChainLess(nodes, s, t)
  {
    var v := t[|s|..];
    assert t == s + v && s == s + [];
    ChainLessSkip(nodes, s, [], v);
  }

  lemma SelfBefore(nodes: Nodes, d: Path, c: Path, b: Path)
    requires ROOT !in nodes && c in nodes && DisplayParent(nodes, c) == d
    requires b in nodes && b != c && Under(nodes, d, c, b)
    ensures PreorderLess(nodes, c, b)
  {
    var s, t := Chain(nodes, c), Chain(nodes, b);
    assert s <= t && s[|s| - 1] == c && t[|t| - 1] == b;
    PrefixLess(nodes, s, t);
  }

  /** What a listing under `d` contains and how it is ordered. */
  ghost predicate ListsExactly(nodes: Nodes, show: set<Path>, open: set<Path>, d: Path, rows: seq<Path>)
    requires ROOT !in nodes
  {
    && (forall p :: p in rows <==> ReachesFrom(nodes, show, open, d, p))
    && Preorder(nodes, rows)
  }

  lemma {:induction false} RowsExactly(nodes: Nodes, show: set<Path>, open: set<Path>, d: Path)
    requires ROOT !in nodes
    ensures ListsExactly(nodes, show, open, d, RowsUnder(nodes, show, open, d))
    decreases Below(nodes, d), 1, 0
  {
    var cs := SortedChildren(nodes, d);
    var rows := RowsUnder(nodes, show, open, d);
    RowsAmongExactly(nodes, show, open, d, cs);
    forall p ensures p in rows <==> ReachesFrom(nodes, show, open, d, p) {
      ReachSplit(nodes, show, open, d, p);
    }
  }

  /** Reaching a row under `d` goes through exactly one child of `d`. */
  lemma {:induction false} ReachSplit(nodes: Nodes, show: set<Path>, open: set<Path>, d: Path, p: Path)
    requires ROOT !in nodes
    ensures ReachesFrom(nodes, show, open, d, p) <==>
              exists c :: c in ChildSet(nodes, d) && InBlock(nodes, show, open, c, p)
    decreases |p|
  {
    if p in nodes && p in show {
      var q := DisplayParent(nodes, p);
      if q == d {
        assert p in ChildSet(nodes, d) && InBlock(nodes, show, open, p, p);
      } else {
        ReachSplit(nodes, show, open, d, q);
        if Descends(nodes, show, open, q) && ReachesFrom(nodes, show, open, d, q) {
          var c :| c in ChildSet(nodes, d) && InBlock(nodes, show, open, c, q);
          assert InBlock(nodes, show, open, c, p);
        }
        if c :| c in ChildSet(nodes, d) && InBlock(nodes, show, open, c, p) {
          assert InBlock(nodes, show, open, c, q);
        }
      }
    }
  }

  predicate InBlock(nodes: Nodes, show: set<Path>, open: set<Path>, c: Path, p: Path)
    requires ROOT !in nodes
  {
    || (p == c && c in show)
    || (Descends(nodes, show, open, c) && ReachesFrom(nodes, show, open, c, p))
  }

  lemma {:induction false} RowsAmongExactly(nodes: Nodes, show: set<Path>, open: set<Path>, d: Path, cs: seq<Path>)
    requires ROOT !in nodes
    requires forall c :: c in cs ==> c in nodes && DisplayParent(nodes, c) == d
    requires ChildSorted(nodes, cs)
    ensures forall p :: p in RowsAmong(nodes, show, open, d, cs) <==>
              exists c :: c in cs && InBlock(nodes, show, open, c, p)
    ensures Preorder(nodes, RowsAmong(nodes, show, open, d, cs))
    decreases Below(nodes, d), 0, |cs|
  {
    if cs != [] {
      var c := cs[0];
      var block := Block(nodes, show, open, d, c);
      var rest := RowsAmong(nodes, show, open, d, cs[1..]);
      var rows := RowsAmong(nodes, show, open, d, cs);
      BlockIsExact(nodes, show, open, d, c);
      RowsAmongExactly(nodes, show, open, d, cs[1..]);
      ChildSortedTail(nodes, cs);
      forall p ensures p in rows <==> exists e :: e in cs && InBlock(nodes, show, open, e, p) {
        assert p in rows <==> p in block || p in rest;
        assert p in block <==> InBlock(nodes, show, open, c, p);
      }
      forall i, j | 0 <= i < j < |rows| ensures PreorderLess(nodes, rows[i], rows[j]) {
        if j < |block| {
          assert rows[i] == block[i] && rows[j] == block[j];
        } else if |block| <= i {
          assert rows[i] == rest[i - |block|] && rows[j] == rest[j - |block|];
        } else {
          assert rows[i] == block[i] && rows[j] == rest[j - |block|];
          assert rows[j] in rest;
          BlocksInOrder(nodes, show, open, d, cs, rows[i], rows[j]);
        }
      }
    }
  }

  lemma BlocksInOrder(nodes: Nodes, show: set<Path>, open: set<Path>, d: Path, cs: seq<Path>, a: Path, b: Path)
    requires ROOT !in nodes && cs != []
    requires forall c :: c in cs ==> c in nodes && DisplayParent(nodes, c) == d
    requires ChildSorted(nodes, cs)
    requires InBlock(nodes, show, open, cs[0], a)
    requires exists e :: e in cs[1..] && InBlock(nodes, show, open, e, b)
    ensures PreorderLess(nodes, a, b)
  {
    var e :| e in cs[1..] && InBlock(nodes, show, open, e, b);
    var k :| 0 <= k < |cs[1..]| && cs[1..][k] == e;
    assert cs[k + 1] == e;
    ReachUnder(nodes, show, open, d, cs[0], a);
    ReachUnder(nodes, show, open, d, e, b);
    SiblingsBefore(nodes, d, cs[0], e, a, b);
  }

  lemma {:induction false} BlockIsExact(nodes: Nodes, show: set<Path>, open: set<Path>, d: Path, c: Path)
    requires ROOT !in nodes && c in nodes && DisplayParent(nodes, c) == d
    ensures forall p :: p in Block(nodes, show, open, d, c) <==> InBlock(nodes, show, open, c, p)
    ensures Preorder(nodes, Block(nodes, show, open, d, c))
    decreases Below(nodes, d), 0, 0
  {
    if Descends(nodes, show, open, c) {
      BelowShrinks(nodes, d, c);
      RowsExactly(nodes, show, open, c);
      var rows := RowsUnder(nodes, show, open, c);
      var block := Block(nodes, show, open, d, c);
      assert block == [c] + rows;
      forall i, j | 0 <= i < j < |block| ensures PreorderLess(nodes, block[i], block[j]) {
        if i == 0 {
          assert block[j] == rows[j - 1];
          ReachLonger(nodes, show, open, c, block[j]);
          ReachUnder(nodes, show, open, d, c, block[j]);
          SelfBefore(nodes, d, c, block[j]);
        } else {
          assert block[i] == rows[i - 1] && block[j] == rows[j - 1];
        }
      }
    }
  }

  lemma {:induction false} ReachLonger(nodes: Nodes, show: set<Path>, open: set<Path>, d: Path, p: Path)
    requires ROOT !in nodes && ReachesFrom(nodes, show, open, d, p)
    ensures d < p
    decreases |p|
  {
    if DisplayParent(nodes, p) != d {
      ReachLonger(nodes, show, open, d, DisplayParent(nodes, p));
    }
  }

  lemma {:induction false} ReachesRoot(nodes: Nodes, show: set<Path>, open: set<Path>, p: Path)
    requires ROOT !in nodes
    ensures Reaches(nodes, show, open, p) <==> ReachesFrom(nodes, show, open, ROOT, p)
    decreases |p|
  {
    if p in nodes && DisplayParent(nodes, p) != ROOT {
      ReachesRoot(nodes, show, open, DisplayParent(nodes, p));
    }
  }

  lemma {:induction false} ChainLessIrreflexive(nodes: Nodes, s: seq<Path>)
    ensures !ChainLess(nodes, s, s)
  {
    if s != [] { ChainLessIrreflexive(nodes, s[1..]); }
  }

  /** The listing from the root holds every due row exactly once, in pre-order. */
  lemma ListingTheorem(nodes: Nodes, show: set<Path>, open: set<Path>)
    requires ROOT !in nodes
    ensures forall p :: p in RowsUnder(nodes, show, open, ROOT) <==> Reaches(nodes, show, open, p)
    ensures Preorder(nodes, RowsUnder(nodes, show, open, ROOT))
    ensures forall i, j :: 0 <= i < j < |RowsUnder(nodes, show, open, ROOT)| ==>
              RowsUnder(nodes, show, open, ROOT)[i] != RowsUnder(nodes, show, open, ROOT)[j]
  {
    var rows := RowsUnder(nodes, show, open, ROOT);
    RowsExactly(nodes, show, open, ROOT);
    forall p ensures p in rows <==> Reaches(nodes, show, open, p) {
      ReachesRoot(nodes, show, open, p);
    }
    forall i, j | 0 <= i < j < |rows| ensures rows[i] != rows[j] {
      ChainLessIrreflexive(nodes, Chain(nodes, rows[i]));
    }
  }

  // ---------------------------------------------------------------- walking children in a loop

  lemma RowsStep(nodes: Nodes, show: set<Path>, open: set<Path>, d: Path, cs: seq<Path>, i: nat)
    requires ROOT !in nodes && i < |cs|
    requires forall c :: c in cs ==> c in nodes && DisplayParent(nodes, c) == d
    ensures cs[i] in cs
    ensures RowsAmong(nodes, show, open, d, cs[i..])
            == Block(nodes, show, open, d, cs[i]) + RowsAmong(nodes, show, open, d, cs[i + 1..])
  {
    assert cs[i..][0] == cs[i] && cs[i..][1..] == cs[i + 1..];
  }

  lemma Regroup(a: seq<Path>, b: seq<Path>, c: seq<Path>)
    ensures (a + b) + c == a + (b + c)
  {
  }

  lemma RowsStart(nodes: Nodes, show: set<Path>, open: set<Path>, d: Path)
    requires ROOT !in nodes
    ensures forall c :: c in SortedChildren(nodes, d) ==> c in nodes && DisplayParent(nodes, c) == d
    ensures SortedChildren(nodes, d)[0..] == SortedChildren(nodes, d)
    ensures RowsUnder(nodes, show, open, d) == RowsAmong(nodes, show, open, d, SortedChildren(nodes, d)[0..])
    ensures RowsAmong(nodes, show, open, d, SortedChildren(nodes, d)[|SortedChildren(nodes, d)|..]) == []
  {
    assert SortedChildren(nodes, d)[0..] == SortedChildren(nodes, d);
  }
}
