/** Sorting by a comparison. */
module Sorting {
  /** A strict order whose incomparable elements tie. */
  ghost predicate Ranks<T(!new)>(less: (T, T) -> bool) {
    && (forall a, b :: less(a, b) ==> !less(b, a))
    && (forall a, b, c :: less(a, b) && !less(c, b) ==> less(a, c))
  }

  /** No element ranks strictly before an earlier one. */
  ghost predicate Sorted<T(!new)>(less: (T, T) -> bool, s: seq<T>) {
    forall i, j :: 0 <= i < j < |s| ==> !less(s[j], s[i])
  }

  function InsertBy<T>(less: (T, T) -> bool, x: T, s: seq<T>): seq<T> {
    if s == [] then [x] else if less(s[0], x) then [s[0]] + InsertBy(less, x, s[1..]) else [x] + s
  }

  function SortBy<T>(less: (T, T) -> bool, s: seq<T>): seq<T> {
    if s == [] then [] else InsertBy(less, s[0], SortBy(less, s[1..]))
  }

  lemma {:induction false} InsertedMembers<T>(less: (T, T) -> bool, x: T, s: seq<T>)
    ensures multiset(InsertBy(less, x, s)) == multiset(s) + multiset{x}
    ensures |InsertBy(less, x, s)| == |s| + 1
  {
    if s != [] {
      InsertedMembers(less, x, s[1..]);
      assert s == [s[0]] + s[1..];
    }
  }

  lemma TailSorted<T(!new)>(less: (T, T) -> bool, s: seq<T>)
    requires Sorted(less, s) && s != []
    ensures Sorted(less, s[1..]) && forall y :: y in s[1..] ==> !less(y, s[0])
  {
    forall y | y in s[1..] ensures !less(y, s[0]) {
      var k :| 0 <= k < |s[1..]| && s[1..][k] == y;
      assert s[k + 1] == y;
    }
  }

  lemma {:induction false} InsertedSorted<T(!new)>(less: (T, T) -> bool, x: T, s: seq<T>)
    requires Ranks(less) && Sorted(less, s)
    ensures Sorted(less, InsertBy(less, x, s))
  {
    if s != [] {
      TailSorted(less, s);
      if less(s[0], x) {
        var rest := InsertBy(less, x, s[1..]);
        InsertedSorted(less, x, s[1..]);
        InsertedMembers(less, x, s[1..]);
        forall y | y in rest ensures !less(y, s[0]) {
          assert y in multiset(rest);
          assert y in s[1..] || y == x;
        }
      } else {
        assert s == [s[0]] + s[1..];
      }
    }
  }

  lemma {:induction false} SortedPermutation<T(!new)>(less: (T, T) -> bool, s: seq<T>)
    requires Ranks(less)
    ensures Sorted(less, SortBy(less, s)) && multiset(SortBy(less, s)) == multiset(s)
  {
    if s != [] {
      SortedPermutation(less, s[1..]);
      InsertedSorted(less, s[0], SortBy(less, s[1..]));
      InsertedMembers(less, s[0], SortBy(less, s[1..]));
      assert s == [s[0]] + s[1..];
    }
  }

  predicate Distinct<T(==)>(s: seq<T>) {
    forall i, j :: 0 <= i < j < |s| ==> s[i] != s[j]
  }

  /** The members of a set in some order. */
  method Enumerate<T(==)>(s: set<T>) returns (r: seq<T>)
    ensures Distinct(r) && forall x :: x in r <==> x in s
    ensures |r| == |s|
  {
    r := [];
    var rest := s;
    while rest != {}
      invariant Distinct(r) && |r| + |rest| == |s|
      invariant forall x :: x in s <==> x in r || x in rest
      invariant forall x :: x in r ==> x !in rest
      decreases |rest|
    {
      var x :| x in rest;
      r, rest := r + [x], rest - {x};
    }
  }

  lemma MembersOfPermutation<T>(a: seq<T>, b: seq<T>)
    requires multiset(a) == multiset(b)
    ensures forall x :: x in a <==> x in b
    ensures |a| == |b|
  {
    forall x ensures x in a <==> x in b {
      assert x in a <==> x in multiset(a);
      assert x in b <==> x in multiset(b);
    }
    assert |a| == |multiset(a)| && |b| == |multiset(b)|;
  }

  lemma {:induction false} DistinctCounts<T>(s: seq<T>)
    ensures Distinct(s) <==> forall x :: multiset(s)[x] <= 1
  {
    if s != [] {
      var n := |s| - 1;
      var front, x := s[..n], s[n];
      DistinctCounts(front);
      assert s == front + [x];
      assert multiset(s) == multiset(front) + multiset{x};
      if Distinct(s) {
        assert Distinct(front) && x !in front;
        assert x !in multiset(front);
      } else if forall y :: multiset(s)[y] <= 1 {
        assert multiset(s)[x] == multiset(front)[x] + 1;
        assert x !in front by { assert x in front ==> x in multiset(front); }
        forall y ensures multiset(front)[y] <= 1 { assert multiset(front)[y] <= multiset(s)[y]; }
      }
    }
  }

  /** Sorting keeps the elements, and distinct ones distinct. */
  lemma SortedMembers<T(!new)>(less: (T, T) -> bool, s: seq<T>)
    requires Ranks(less)
    ensures forall x :: x in SortBy(less, s) <==> x in s
    ensures |SortBy(less, s)| == |s|
    ensures Distinct(s) <==> Distinct(SortBy(less, s))
  {
    SortedPermutation(less, s);
    MembersOfPermutation(SortBy(less, s), s);
    DistinctCounts(s);
    DistinctCounts(SortBy(less, s));
  }

  lemma TailMembers<T(!new)>(s: seq<T>)
    requires Distinct(s) && s != []
    ensures Distinct(s[1..]) && s[0] in s
    ensures forall x :: x in s[1..] <==> x in s && x != s[0]
  {
    assert s == [s[0]] + s[1..];
    forall x | x in s[1..] ensures x != s[0] {
      var k :| 0 <= k < |s[1..]| && s[1..][k] == x;
      assert s[k + 1] == x;
    }
  }

  /** Without ties a set has only one sorted enumeration. */
  lemma {:induction false} SortedSame<T(!new)>(less: (T, T) -> bool, a: seq<T>, b: seq<T>)
    requires Sorted(less, a) && Sorted(less, b) && Distinct(a) && Distinct(b)
    requires forall x :: x in a <==> x in b
    requires forall x, y :: x in a && y in a && x != y ==> less(x, y) || less(y, x)
    ensures a == b
  {
    assert b != [] ==> b[0] in b;
    if a != [] {
      assert a[0] in a && a[0] in b;
      assert b[0] in b && b[0] in a;
      TailSorted(less, a);
      TailSorted(less, b);
      TailMembers(a);
      TailMembers(b);
      SortedSame(less, a[1..], b[1..]);
      assert a == [a[0]] + a[1..] && b == [b[0]] + b[1..];
    }
  }
}
