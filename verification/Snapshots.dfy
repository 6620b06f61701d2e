/** What a status snapshot says of the opened subtree, told from its entries alone, and what merging it
    makes of the tree. */
module Snapshots {
  import opened Wrappers
  import opened Paths
  import opened Status
  import opened Tree
  import opened FilesTree

  /** An entry tells that something left a workspace path: it was deleted there, or moved away. */
  predicate Leaves(e: StatusEntry, w: Path) {
    || (e.path == w && (e.kind == Deleted || e.index == Some(Deleted) || e.worktree == Some(Deleted)))
    || e.source == Some(w)
  }

  function ReportedKinds(es: set<StatusEntry>, w: Path): set<StatusKind> {
    set e | e in es && e.path == w :: e.kind
  }

  function LeavingKinds(es: set<StatusEntry>, w: Path): set<StatusKind> {
    set e | e in es && Leaves(e, w) :: e.kind
  }

  /** Something left a visible path, and the disk has nothing there. */
  predicate IsMissing(c: MergeContext, es: set<StatusEntry>, p: Path) {
    c.visible(p) && c.disk(p) == Missing && exists e :: e in es && Leaves(e, c.prefix + p)
  }

  /** The kinds a snapshot gives a visible path: those reported there and, if the path is missing, those
      of the entries that left it. */
  function SaidAt(c: MergeContext, es: set<StatusEntry>, p: Path): set<StatusKind> {
    if !c.visible(p) then {}
    else
      ReportedKinds(es, c.prefix + p) + (if c.disk(p) == Missing then LeavingKinds(es, c.prefix + p) else {})
  }

  ghost predicate SaidUnder(c: MergeContext, es: set<StatusEntry>, q: Path, k: StatusKind) {
    exists p, j :: q < p && j in SaidAt(c, es, p) && k == Lift(j)
  }

  /** The lifted kinds a snapshot gives paths below. */
  ghost function SaidBelow(c: MergeContext, es: set<StatusEntry>, q: Path): set<StatusKind> {
    set k: StatusKind | SaidUnder(c, es, q, k)
  }

  // ---------------------------------------------------------------- the reports behind a merge

  lemma RebasedIs(c: MergeContext, w: Path, p: Path)
    ensures Rebased(c, w) == Some(p) <==> w == c.prefix + p && c.visible(p)
  {
    if c.prefix <= w { assert w == c.prefix + w[|c.prefix|..]; }
    assert (c.prefix + p)[|c.prefix|..] == p;
  }

  lemma EntryReports(c: MergeContext, e: StatusEntry, r: Report)
    ensures r in DirectOf(c, e) <==> e.path == c.prefix + r.path && c.visible(r.path) && r.kind == e.kind
    ensures r in CandidatesOf(c, e) <==> Leaves(e, c.prefix + r.path) && c.visible(r.path) && r.kind == e.kind
  {
    RebasedIs(c, e.path, r.path);
    if e.source.Some? { RebasedIs(c, e.source.value, r.path); }
    hide Rebased;
  }

  lemma DirectKinds(c: MergeContext, es: set<StatusEntry>, p: Path)
    ensures KindsAt(Direct(c, es), p) == if c.visible(p) then ReportedKinds(es, c.prefix + p) else {}
  {
    hide DirectOf;
    forall e, k ensures Report(p, k) in DirectOf(c, e) <==> e.path == c.prefix + p && c.visible(p) && k == e.kind {
      EntryReports(c, e, Report(p, k));
    }
    forall k ensures k in KindsAt(Direct(c, es), p) <==> c.visible(p) && k in ReportedKinds(es, c.prefix + p) {
      assert k in KindsAt(Direct(c, es), p) <==> Report(p, k) in Direct(c, es);
    }
  }

  lemma CandidateKinds(c: MergeContext, es: set<StatusEntry>, p: Path)
    ensures KindsAt(Candidates(c, es), p) == if c.visible(p) then LeavingKinds(es, c.prefix + p) else {}
  {
    hide CandidatesOf, Leaves;
    forall e, k
      ensures Report(p, k) in CandidatesOf(c, e) <==> Leaves(e, c.prefix + p) && c.visible(p) && k == e.kind
    {
      EntryReports(c, e, Report(p, k));
    }
    forall k ensures k in KindsAt(Candidates(c, es), p) <==> c.visible(p) && k in LeavingKinds(es, c.prefix + p) {
      assert k in KindsAt(Candidates(c, es), p) <==> Report(p, k) in Candidates(c, es);
    }
  }

  lemma ReportedByKinds(reports: set<Report>, p: Path)
    ensures Reported(reports, p) <==> KindsAt(reports, p) != {}
  {
    if r :| r in reports && r.path == p { assert r.kind in KindsAt(reports, p); }
  }

  lemma LeavingSome(es: set<StatusEntry>, w: Path)
    ensures LeavingKinds(es, w) != {} <==> exists e :: e in es && Leaves(e, w)
  {
    hide Leaves;
    if e :| e in es && Leaves(e, w) { assert e.kind in LeavingKinds(es, w); }
  }

  lemma GoneIs(c: MergeContext, es: set<StatusEntry>, p: Path)
    ensures p in Gone(c, es) <==> IsMissing(c, es, p)
    ensures p in Gone(c, es) ==> IsPreferred(Gone(c, es)[p], LeavingKinds(es, c.prefix + p))
  {
    CandidateKinds(c, es, p);
    SummaryMeaning(Candidates(c, es));
    ReportedByKinds(Candidates(c, es), p);
    LeavingSome(es, c.prefix + p);
    hide Candidates, Summary, KindsAt, LeavingKinds, Reported, IsPreferred;
  }

  lemma FactKinds(c: MergeContext, es: set<StatusEntry>, p: Path)
    ensures KindsAt(Facts(c, es), p)
            == KindsAt(Direct(c, es), p) + (if p in Gone(c, es) then {Gone(c, es)[p]} else {})
  {
    hide Direct, Gone;
    forall k ensures k in KindsAt(Facts(c, es), p) <==>
                       k in KindsAt(Direct(c, es), p) || (p in Gone(c, es) && k == Gone(c, es)[p])
    {
      assert k in KindsAt(Facts(c, es), p) <==> Report(p, k) in Facts(c, es);
      assert k in KindsAt(Direct(c, es), p) <==> Report(p, k) in Direct(c, es);
    }
  }

  /** A kind found among the kinds, with none of lower order left out. */
  ghost predicate Covers(part: set<StatusKind>, all: set<StatusKind>) {
    part <= all && forall k :: k in all ==> Led(part, k)
  }

  ghost predicate Led(part: set<StatusKind>, k: StatusKind) {
    exists j :: j in part && StatusOrder(j) <= StatusOrder(k)
  }

  lemma LedMore(part: set<StatusKind>, more: set<StatusKind>, k: StatusKind)
    requires Led(part, k) && part <= more
    ensures Led(more, k)
  {
  }

  lemma CoversPreferred(part: set<StatusKind>, all: set<StatusKind>, k: StatusKind)
    requires Covers(part, all) && IsPreferred(k, part)
    ensures IsPreferred(k, all)
  {
    hide StatusOrder;
    forall other | other in all ensures StatusOrder(k) <= StatusOrder(other) { assert Led(part, other); }
  }

  /** What the merge keeps of the said kinds is enough to find the preferred one. */
  lemma FactsCover(c: MergeContext, es: set<StatusEntry>, p: Path)
    ensures Covers(KindsAt(Facts(c, es), p), SaidAt(c, es, p))
  {
    FactKinds(c, es, p);
    DirectKinds(c, es, p);
    GoneIs(c, es, p);
    LeavingSome(es, c.prefix + p);
    hide Facts, Direct, Gone, KindsAt, LeavingKinds, ReportedKinds, StatusOrder;
    forall k | k in SaidAt(c, es, p) ensures Led(KindsAt(Facts(c, es), p), k) {
      if k !in KindsAt(Facts(c, es), p) {
        assert p in Gone(c, es) && StatusOrder(Gone(c, es)[p]) <= StatusOrder(k);
      }
    }
  }

  lemma LiftKeepsOrder(j: StatusKind, k: StatusKind)
    ensures StatusOrder(j) <= StatusOrder(k) ==> StatusOrder(Lift(j)) <= StatusOrder(Lift(k))
  {
  }

  lemma LiftedCover(c: MergeContext, es: set<StatusEntry>, q: Path)
    ensures Covers(LiftedBelow(Facts(c, es), q), SaidBelow(c, es, q))
  {
    hide Facts, SaidAt, Lift, StatusOrder;
    var facts := Facts(c, es);
    forall k | k in LiftedBelow(facts, q) ensures k in SaidBelow(c, es, q) {
      var r :| r in facts && q < r.path && k == Lift(r.kind);
      FactsCover(c, es, r.path);
      assert r.kind in KindsAt(facts, r.path) && r.kind in SaidAt(c, es, r.path);
      assert SaidUnder(c, es, q, k);
    }
    forall k | k in SaidBelow(c, es, q) ensures Led(LiftedBelow(facts, q), k) {
      assert SaidUnder(c, es, q, k);
      var p, j :| q < p && j in SaidAt(c, es, p) && k == Lift(j);
      FactsCover(c, es, p);
      assert Led(KindsAt(facts, p), j);
      var i :| i in KindsAt(facts, p) && StatusOrder(i) <= StatusOrder(j);
      LiftKeepsOrder(i, j);
      var r :| r in facts && r.path == p && r.kind == i;
      assert Lift(r.kind) in LiftedBelow(facts, q);
    }
  }

  lemma CoversBoth(a: set<StatusKind>, all: set<StatusKind>, b: set<StatusKind>, more: set<StatusKind>)
    requires Covers(a, all) && Covers(b, more)
    ensures Covers(a + b, all + more)
  {
    hide Led;
    forall k | k in all + more ensures Led(a + b, k) {
      if k in all { LedMore(a, a + b, k); } else { LedMore(b, a + b, k); }
    }
  }

  lemma CoversSome(part: set<StatusKind>, all: set<StatusKind>)
    requires Covers(part, all)
    ensures part == {} <==> all == {}
  {
    if k :| k in all { assert Led(part, k); }
  }

  // ---------------------------------------------------------------- what a merge makes of a snapshot

  /** A path is a missing-file row after a merge exactly if something left it, it is visible and the disk
      has nothing there; the row shows the preferred kind of the entries that left it. */
  lemma MissingRows(t: TreeState, c: MergeContext, es: set<StatusEntry>, p: Path)
    ensures var nodes := Merged(t, c, es).nodes;
            && ((p in nodes && nodes[p].kind == Virtual) <==> IsMissing(c, es, p))
            && (IsMissing(c, es, p) ==>
                  && nodes[p].status.Some? && !nodes[p].ignored
                  && IsPreferred(nodes[p].status.value, LeavingKinds(es, c.prefix + p)))
  {
    GoneIs(c, es, p);
    assert Merged(t, c, es).nodes == MergedNodes(t.nodes, c, es);
    hide Merged, Gone, IsMissing, LeavingKinds, MergedStatuses, IsPreferred;
  }

  /** Every other row of a merge was cached before and keeps its kind; it shows the status map. */
  lemma OtherRows(t: TreeState, c: MergeContext, es: set<StatusEntry>, p: Path)
    requires !IsMissing(c, es, p)
    ensures var m := Merged(t, c, es);
            && (p in m.nodes <==> IsReal(t.nodes, p))
            && (p in m.nodes ==> m.nodes[p] == t.nodes[p].(status := Lookup(m.statuses, p)))
  {
    GoneIs(c, es, p);
    assert Merged(t, c, es).nodes == MergedNodes(t.nodes, c, es);
    assert Merged(t, c, es).statuses == MergedStatuses(c, es);
    hide Merged, Gone, IsMissing, MergedStatuses;
  }

  /** The merged status map holds, at each path below the root that the snapshot says anything of or below,
      the preferred one of the kinds said there and the lifted kinds said below. */
  lemma StatusesMeaning(t: TreeState, c: MergeContext, es: set<StatusEntry>, q: Path)
    requires q != ROOT
    ensures var m := Merged(t, c, es).statuses;
            && (q in m <==> SaidAt(c, es, q) + SaidBelow(c, es, q) != {})
            && (q in m ==> IsPreferred(m[q], SaidAt(c, es, q) + SaidBelow(c, es, q)))
  {
    var facts := Facts(c, es);
    assert Merged(t, c, es).statuses == Summary(SpreadAll(facts));
    AggregateMeaning(facts, q);
    ShownSomewhere(facts, q);
    FactsCover(c, es, q);
    LiftedCover(c, es, q);
    hide Merged, Facts, Summary, SpreadAll, KindsAt, LiftedBelow, SaidAt, SaidBelow, IsPreferred, Covers;
    CoversBoth(KindsAt(facts, q), SaidAt(c, es, q), LiftedBelow(facts, q), SaidBelow(c, es, q));
    CoversSome(KindsAt(facts, q) + LiftedBelow(facts, q), SaidAt(c, es, q) + SaidBelow(c, es, q));
    if q in Summary(SpreadAll(facts)) {
      CoversPreferred(KindsAt(facts, q) + LiftedBelow(facts, q), SaidAt(c, es, q) + SaidBelow(c, es, q),
          Summary(SpreadAll(facts))[q]);
    }
  }

  /** The root carries no status. */
  lemma RootHasNone(t: TreeState, c: MergeContext, es: set<StatusEntry>)
    ensures ROOT !in Merged(t, c, es).statuses
  {
    NoneForRoot(Facts(c, es));
    assert Merged(t, c, es).statuses == Summary(SpreadAll(Facts(c, es)));
    hide Merged, Facts, Summary, SpreadAll;
  }

  lemma NoneForRoot(reports: set<Report>)
    ensures ROOT !in Summary(SpreadAll(reports))
  {
    assert forall s :: s in SpreadAll(reports) ==> s.path != ROOT;
  }

  lemma ChangedList(c: MergeContext, es: set<StatusEntry>) returns (order: seq<Path>)
    ensures SortedPaths(order) && forall p :: p in order <==> p in Summary(Facts(c, es))
    ensures |MergedChanges(c, es)| == |order|
    ensures forall i :: 0 <= i < |order| ==>
              MergedChanges(c, es)[i]
              == ChangedFile(order[i], Summary(Facts(c, es))[order[i]], order[i] in Gone(c, es))
  {
    order := InOrder(Summary(Facts(c, es)).Keys);
    hide Facts, Summary, Gone, PathLess;
  }

  lemma ChangedAt(c: MergeContext, es: set<StatusEntry>, f: ChangedFile)
    requires f.path in Summary(Facts(c, es))
    requires f == ChangedFile(f.path, Summary(Facts(c, es))[f.path], f.path in Gone(c, es))
    ensures IsPreferred(f.kind, SaidAt(c, es, f.path)) && (f.missing <==> IsMissing(c, es, f.path))
  {
    KindSaid(c, es, f.path);
    GoneIs(c, es, f.path);
    hide Facts, Summary, Gone, SaidAt, IsMissing, IsPreferred, LeavingKinds;
  }

  /** The changed files are exactly the paths the snapshot says anything of, in path order, each once, with
      the preferred kind said there and marked missing exactly if the path is. */
  lemma ChangedMeaning(t: TreeState, c: MergeContext, es: set<StatusEntry>)
    ensures var changed := Merged(t, c, es).changed;
            && (forall i, j :: 0 <= i < j < |changed| ==> PathLess(changed[i].path, changed[j].path))
            && (forall i :: 0 <= i < |changed| ==>
                  && IsPreferred(changed[i].kind, SaidAt(c, es, changed[i].path))
                  && (changed[i].missing <==> IsMissing(c, es, changed[i].path)))
            && (forall p :: SaidAt(c, es, p) != {} <==> exists i :: 0 <= i < |changed| && changed[i].path == p)
  {
    assert Merged(t, c, es).changed == MergedChanges(c, es);
    var order := ChangedList(c, es);
    hide Merged, MergedChanges, Facts, Summary, SaidAt, IsMissing, Gone, PathLess, IsPreferred;
    var changed := MergedChanges(c, es);
    forall i | 0 <= i < |changed|
      ensures IsPreferred(changed[i].kind, SaidAt(c, es, changed[i].path))
      ensures changed[i].missing <==> IsMissing(c, es, changed[i].path)
    {
      assert order[i] in order;
      ChangedAt(c, es, changed[i]);
    }
    forall p ensures SaidAt(c, es, p) != {} <==> exists i :: 0 <= i < |changed| && changed[i].path == p {
      KindSaid(c, es, p);
      if p in order {
        var i :| 0 <= i < |order| && order[i] == p;
        assert changed[i].path == p;
      }
    }
  }

  lemma KindSaid(c: MergeContext, es: set<StatusEntry>, p: Path)
    ensures p in Summary(Facts(c, es)) <==> SaidAt(c, es, p) != {}
    ensures p in Summary(Facts(c, es)) ==> IsPreferred(Summary(Facts(c, es))[p], SaidAt(c, es, p))
  {
    var facts := Facts(c, es);
    SummaryMeaning(facts);
    FactsCover(c, es, p);
    ReportedByKinds(facts, p);
    hide Facts, Summary, SaidAt, KindsAt, Reported, IsPreferred, Covers;
    CoversSome(KindsAt(facts, p), SaidAt(c, es, p));
    if p in Summary(facts) { CoversPreferred(KindsAt(facts, p), SaidAt(c, es, p), Summary(facts)[p]); }
  }
}
