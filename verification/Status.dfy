/** VCS status vocabulary, the preference order, and status summaries. */
module Status {
  import opened Wrappers
  import opened Paths

  datatype StatusKind =
    Added | Modified | Deleted | Renamed | Copied | Untracked | Conflicted | TypeChanged

  function StatusOrder(k: StatusKind): nat {
    match k
    case Conflicted => 0
    case Renamed => 1
    case Copied => 2
    case TypeChanged => 3
    case Deleted => 4
    case Added => 5
    case Modified => 6
    case Untracked => 7
  }

  /** What a status becomes on the directories above the path it was reported at. */
  function Lift(k: StatusKind): StatusKind {
    if k == Conflicted then Conflicted else Modified
  }

  datatype Report = Report(path: Path, kind: StatusKind)

  predicate IsPreferred(k: StatusKind, ks: set<StatusKind>) {
    k in ks && forall other :: other in ks ==> StatusOrder(k) <= StatusOrder(other)
  }

  function KindsAt(reports: set<Report>, p: Path): set<StatusKind> {
    set r | r in reports && r.path == p :: r.kind
  }

  predicate Reported(reports: set<Report>, p: Path) {
    exists r :: r in reports && r.path == p
  }

  lemma {:induction false} PreferredExists(ks: set<StatusKind>)
    requires ks != {}
    ensures exists k :: IsPreferred(k, ks)
  {
    var k :| k in ks;
    var rest := ks - {k};
    if rest == {} {
      assert ks == {k};
      assert IsPreferred(k, ks);
    } else {
      PreferredExists(rest);
      var l :| IsPreferred(l, rest);
      assert IsPreferred(if StatusOrder(k) <= StatusOrder(l) then k else l, ks);
    }
  }

  function Preferred(ks: set<StatusKind>): (k: StatusKind)
    requires ks != {}
    ensures IsPreferred(k, ks)
  {
    PreferredExists(ks);
    var k :| IsPreferred(k, ks);
    k
  }

  /** The declarative status map: at every reported path, the preferred kind reported there. */
  function Summary(reports: set<Report>): map<Path, StatusKind> {
    var paths := set r | r in reports :: r.path;
    assert forall r :: r in reports ==> r.kind in KindsAt(reports, r.path);
    map p | p in paths :: Preferred(KindsAt(reports, p))
  }

  ghost predicate Summarises(m: map<Path, StatusKind>, reports: set<Report>) {
    && (forall p :: p in m <==> Reported(reports, p))
    && (forall p :: p in m ==> IsPreferred(m[p], KindsAt(reports, p)))
  }

  lemma SummaryMeaning(reports: set<Report>)
    ensures Summarises(Summary(reports), reports)
  {
  }

  /** One step of the imperative summary. */
  function InsertPreferred(m: map<Path, StatusKind>, p: Path, k: StatusKind): map<Path, StatusKind> {
    if p in m && StatusOrder(m[p]) <= StatusOrder(k) then m else m[p := k]
  }

  lemma SummariesAgree(a: map<Path, StatusKind>, b: map<Path, StatusKind>, reports: set<Report>)
    requires Summarises(a, reports) && Summarises(b, reports)
    ensures a == b
  {
    assert a.Keys == b.Keys;
    forall p | p in a ensures a[p] == b[p] {
      assert StatusOrder(a[p]) == StatusOrder(b[p]);
    }
  }

  lemma InsertExtendsSummary(reports: set<Report>, p: Path, k: StatusKind)
    ensures InsertPreferred(Summary(reports), p, k) == Summary(reports + {Report(p, k)})
  {
    hide *;
    var wider := reports + {Report(p, k)};
    SummaryMeaning(reports);
    InsertSummarises(Summary(reports), reports, p, k);
    SummaryMeaning(wider);
    SummariesAgree(InsertPreferred(Summary(reports), p, k), Summary(wider), wider);
  }

  lemma InsertSummarises(m: map<Path, StatusKind>, reports: set<Report>, p: Path, k: StatusKind)
    requires Summarises(m, reports)
    ensures Summarises(InsertPreferred(m, p, k), reports + {Report(p, k)})
  {
    var n := InsertPreferred(m, p, k);
    var wider := reports + {Report(p, k)};
    forall q ensures KindsAt(wider, q) == KindsAt(reports, q) + (if q == p then {k} else {}) {
      KindsAtInsert(reports, p, k, q);
    }
    forall q ensures q in n <==> Reported(wider, q) {
      ReportedInsert(reports, p, k, q);
    }
  }

  lemma KindsAtInsert(reports: set<Report>, p: Path, k: StatusKind, q: Path)
    ensures KindsAt(reports + {Report(p, k)}, q) == KindsAt(reports, q) + (if q == p then {k} else {})
  {
    assert Report(p, k) in reports + {Report(p, k)};
  }

  lemma ReportedInsert(reports: set<Report>, p: Path, k: StatusKind, q: Path)
    ensures Reported(reports + {Report(p, k)}, q) <==> Reported(reports, q) || q == p
  {
    assert Report(p, k) in reports + {Report(p, k)};
    if r :| r in reports && r.path == q {
      assert r in reports + {Report(p, k)};
    }
  }

  /** Everything one reported status says about its path and the directories above it;
      the root carries no status. */
  function Spread(r: Report): set<Report> {
    if r.path == ROOT then {} else
      {r} + (set i | 0 < i < |r.path| :: Report(r.path[..i], Lift(r.kind)))
  }

  function SpreadAll(reports: set<Report>): set<Report> {
    set r, s | r in reports && s in Spread(r) :: s
  }

  lemma SpreadUnion(a: set<Report>, b: set<Report>)
    ensures SpreadAll(a + b) == SpreadAll(a) + SpreadAll(b)
  {
  }

  lemma SpreadOne(r: Report)
    ensures SpreadAll({r}) == Spread(r)
  {
    assert r in {r};
  }

  /** How a report shows at its own path or at a directory above it. */
  function Seen(r: Report, q: Path): Report {
    Report(q, if q == r.path then r.kind else Lift(r.kind))
  }

  lemma SeenSpread(reports: set<Report>, r: Report, q: Path)
    requires r in reports && q != ROOT && q <= r.path
    ensures Seen(r, q) in SpreadAll(reports)
  {
    if q != r.path { assert Seen(r, q) == Report(r.path[..|q|], Lift(r.kind)); }
    assert Seen(r, q) in Spread(r);
  }

  lemma SpreadOrigin(reports: set<Report>, s: Report) returns (r: Report)
    requires s in SpreadAll(reports)
    ensures r in reports && s.path <= r.path && s == Seen(r, s.path)
  {
    r :| r in reports && s in Spread(r);
  }

  /** The kinds reported below a path, lifted. */
  function LiftedBelow(reports: set<Report>, q: Path): set<StatusKind> {
    set r | r in reports && q < r.path :: Lift(r.kind)
  }

  lemma ShownKinds(reports: set<Report>, q: Path)
    requires q != ROOT
    ensures KindsAt(SpreadAll(reports), q) == KindsAt(reports, q) + LiftedBelow(reports, q)
  {
    hide SpreadAll, Lift;
    forall k | k in KindsAt(SpreadAll(reports), q) ensures k in KindsAt(reports, q) + LiftedBelow(reports, q) {
      var r := SpreadOrigin(reports, Report(q, k));
    }
    forall r | r in reports && q <= r.path ensures Seen(r, q).kind in KindsAt(SpreadAll(reports), q) {
      SeenSpread(reports, r, q);
    }
  }

  lemma ShownSomewhere(reports: set<Report>, q: Path)
    ensures KindsAt(reports, q) + LiftedBelow(reports, q) != {} <==> exists r :: r in reports && q <= r.path
    ensures KindsAt(reports, q) != {} <==> Reported(reports, q)
  {
    hide Lift;
    if r :| r in reports && q <= r.path {
      assert r.kind in KindsAt(reports, q) || Lift(r.kind) in LiftedBelow(reports, q);
    }
    if r :| r in reports && r.path == q { assert r.kind in KindsAt(reports, q); }
  }

  /** What the aggregated map tells about a path: it carries a status exactly when something was reported
      at or below it, and then the preferred one of its own kinds and the lifted kinds below it. */
  lemma AggregateMeaning(reports: set<Report>, q: Path)
    requires q != ROOT
    ensures var all := Summary(SpreadAll(reports));
            && (q in all <==> exists r :: r in reports && q <= r.path)
            && (q in all ==> IsPreferred(all[q], KindsAt(reports, q) + LiftedBelow(reports, q)))
  {
    SummaryMeaning(SpreadAll(reports));
    ShownKinds(reports, q);
    ShownSomewhere(reports, q);
    ShownSomewhere(SpreadAll(reports), q);
    hide Summary, SpreadAll, LiftedBelow, KindsAt, IsPreferred, Reported;
  }

  /** So a conflict shows all the way up, and a path with reports only below it is Conflicted or Modified. */
  lemma ConflictsShow(reports: set<Report>, q: Path)
    requires q in Summary(SpreadAll(reports)) && q != ROOT
    ensures Summary(SpreadAll(reports))[q] == Conflicted
            <==> exists r :: r in reports && q <= r.path && r.kind == Conflicted
    ensures !Reported(reports, q) ==> Summary(SpreadAll(reports))[q] in {Conflicted, Modified}
  {
    AggregateMeaning(reports, q);
    hide Summary, SpreadAll;
    var k := Summary(SpreadAll(reports))[q];
    if r :| r in reports && q <= r.path && r.kind == Conflicted {
      assert Conflicted in KindsAt(reports, q) + LiftedBelow(reports, q);
      assert StatusOrder(k) <= StatusOrder(Conflicted);
    }
  }
}
