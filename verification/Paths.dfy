/** Root-relative paths as component sequences, in the order ordered collections use.
    The empty sequence is the tree root, `a < p` says `a` is a proper ancestor of `p`. */
module Paths {
  import opened Sorting

  type Name = string
  type Path = seq<Name>

  const ROOT: Path := []

  function Parent(p: Path): Path {
    if p == ROOT then ROOT else p[..|p| - 1]
  }

  /** Component names compare byte by byte, a proper prefix first. */
  predicate NameLess(a: Name, b: Name) {
    && b != ""
    && (a == "" || (if a[0] == b[0] then NameLess(a[1..], b[1..]) else a[0] < b[0]))
  }

  /** Paths compare component by component, an ancestor before its descendants. */
  predicate PathLess(a: Path, b: Path) {
    && b != []
    && (a == [] || (if a[0] == b[0] then PathLess(a[1..], b[1..]) else NameLess(a[0], b[0])))
  }

  lemma {:induction false} NameTotal(a: Name, b: Name)
    ensures a != b ==> (NameLess(a, b) <==> !NameLess(b, a))
    ensures a == b ==> !NameLess(a, b)
  {
    if a != "" && b != "" && a[0] == b[0] {
      NameTotal(a[1..], b[1..]);
      assert a == [a[0]] + a[1..] && b == [b[0]] + b[1..];
    }
  }

  lemma {:induction false} NameTransitive(a: Name, b: Name, c: Name)
    requires NameLess(a, b) && NameLess(b, c)
    ensures NameLess(a, c)
  {
    if a != "" && a[0] == b[0] == c[0] {
      NameTransitive(a[1..], b[1..], c[1..]);
    }
  }

  /** Names compare as a total order; the lexicographic comparisons of rows build on it. */
  lemma NameChain(a: Name, b: Name, c: Name)
    ensures NameLess(a, b) ==> !NameLess(b, a) && a != b
    ensures a == b || NameLess(a, b) || NameLess(b, a)
    ensures NameLess(a, b) && NameLess(b, c) ==> NameLess(a, c)
  {
    NameTotal(a, b);
    if NameLess(a, b) && NameLess(b, c) { NameTransitive(a, b, c); }
  }

  lemma NamesRank()
    ensures Ranks(NameLess)
  {
    forall a: Name, b: Name, c: Name
      ensures NameLess(a, b) ==> !NameLess(b, a)
      ensures NameLess(a, b) && !NameLess(c, b) ==> NameLess(a, c)
    {
      NameChain(a, b, c);
      NameChain(b, c, a);
    }
  }

  lemma {:induction false} PathTotal(a: Path, b: Path)
    ensures a != b ==> (PathLess(a, b) <==> !PathLess(b, a))
    ensures a == b ==> !PathLess(a, b)
  {
    if a != [] && b != [] {
      if a[0] == b[0] {
        PathTotal(a[1..], b[1..]);
        assert a == [a[0]] + a[1..] && b == [b[0]] + b[1..];
      } else {
        NameTotal(a[0], b[0]);
      }
    }
  }

  lemma {:induction false} PathTransitive(a: Path, b: Path, c: Path)
    requires PathLess(a, b) && PathLess(b, c)
    ensures PathLess(a, c)
  {
    if a != [] {
      if a[0] == b[0] == c[0] {
        PathTransitive(a[1..], b[1..], c[1..]);
      } else if a[0] != b[0] && b[0] != c[0] {
        NameTransitive(a[0], b[0], c[0]);
        NameTotal(a[0], b[0]);
      }
    }
  }

  predicate SortedPaths(s: seq<Path>) {
    forall i, j :: 0 <= i < j < |s| ==> PathLess(s[i], s[j])
  }

  predicate IsFirst(p: Path, s: set<Path>) {
    p in s && forall q :: q in s ==> q == p || PathLess(p, q)
  }

  lemma {:induction false} FirstExists(s: set<Path>)
    requires s != {}
    ensures exists p :: IsFirst(p, s)
  {
    var p :| p in s;
    var rest := s - {p};
    if rest == {} {
      assert s == {p};
      assert IsFirst(p, s);
    } else {
      FirstExists(rest);
      var q :| IsFirst(q, rest);
      PathTotal(p, q);
      if PathLess(p, q) {
        forall r | r in s ensures r == p || PathLess(p, r) {
          if r != p && r != q { PathTransitive(p, q, r); }
        }
        assert IsFirst(p, s);
      } else {
        assert IsFirst(q, s);
      }
    }
  }

  lemma FirstUnique(s: set<Path>)
    ensures forall p, q :: IsFirst(p, s) && IsFirst(q, s) ==> p == q
  {
    forall p, q | IsFirst(p, s) && IsFirst(q, s) ensures p == q {
      PathTotal(p, q);
    }
  }

  /** The keys of an ordered set or map, in iteration order. */
  function InOrder(s: set<Path>): (r: seq<Path>)
    ensures forall p :: p in r <==> p in s
    ensures SortedPaths(r)
  {
    if s == {} then [] else
      FirstExists(s); FirstUnique(s);
      var p :| IsFirst(p, s);
      var rest := InOrder(s - {p});
      assert forall i :: 0 <= i < |rest| ==> rest[i] in rest;
      [p] + rest
  }

  lemma SortedDistinct(s: seq<Path>)
    requires SortedPaths(s)
    ensures forall i, j :: 0 <= i < j < |s| ==> s[i] != s[j]
  {
    forall i, j | 0 <= i < j < |s| ensures s[i] != s[j] { PathTotal(s[i], s[j]); }
  }

  lemma SortedTail(s: seq<Path>)
    requires SortedPaths(s) && s != []
    ensures forall p :: p in s[1..] <==> p in s && p != s[0]
  {
    SortedDistinct(s);
    forall p | p in s[1..] ensures p in s && p != s[0] {
      var i :| 0 <= i < |s[1..]| && s[1..][i] == p;
      assert s[i + 1] == p;
    }
    forall p | p in s && p != s[0] ensures p in s[1..] {
      var i :| 0 <= i < |s| && s[i] == p;
      assert s[1..][i - 1] == p;
    }
  }

  lemma HeadMember(s: seq<Path>)
    ensures s != [] ==> s[0] in s
  {
  }

  /** A set has only one sorted enumeration. */
  lemma {:induction false} SortedUnique(a: seq<Path>, b: seq<Path>)
    requires SortedPaths(a) && SortedPaths(b)
    requires forall p :: p in a <==> p in b
    ensures a == b
  {
    HeadMember(a);
    HeadMember(b);
    if a != [] {
      var i :| 0 <= i < |b| && b[i] == a[0];
      var j :| 0 <= j < |a| && a[j] == b[0];
      PathTotal(a[0], b[0]);
      assert a[0] == b[0];
      SortedTail(a);
      SortedTail(b);
      SortedUnique(a[1..], b[1..]);
      assert a == [a[0]] + a[1..] && b == [b[0]] + b[1..];
    }
  }

  function Members(s: seq<Path>): set<Path> {
    set p | p in s
  }

  /** One more step of an in-order walk: the next key follows, and differs from, the earlier ones. */
  lemma WalkStep(s: seq<Path>, i: nat)
    requires SortedPaths(s) && i < |s|
    ensures Members(s[..i + 1]) == Members(s[..i]) + {s[i]}
    ensures s[i] !in Members(s[..i])
    ensures forall q :: q in Members(s[..i]) ==> PathLess(q, s[i])
  {
    assert s[..i + 1] == s[..i] + [s[i]];
    forall q | q in s[..i] ensures PathLess(q, s[i]) {
      var k :| 0 <= k < i && s[..i][k] == q;
      assert s[k] == q;
    }
    PathTotal(s[i], s[i]);
  }

  lemma WalkEnds(s: seq<Path>, all: set<Path>)
    requires forall p :: p in s <==> p in all
    ensures Members(s[..0]) == {} && Members(s[..|s|]) == all
  {
    assert s[..|s|] == s;
  }
}
