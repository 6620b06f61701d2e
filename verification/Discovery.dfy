/** One bounded discovery run over all registered conversation sources. */
module Discovery {
  import opened Wrappers
  import opened Conversations
  import opened Paths
  import opened Sorting

  type SourceId = string

  datatype Candidate = Candidate(reference: string)

  datatype Removal = Removal(source: SourceId, session: Session)

  /** What a source found past a watermark. */
  datatype Batch = Batch(candidates: seq<Candidate>, next: Option<string>, removals: seq<Removal>, more: bool)

  datatype Probe = Available | Unavailable | ProbeFailed

  datatype DiscoverError = InvalidData | OtherError

  /** A source as it answers during one run: its probe, the batch past a watermark, and for a candidate
      its metadata, if it can be extracted, and whether it shows evidence of this project. */
  datatype Source = Source(
    id: SourceId,
    probe: Probe,
    discover: Option<string> -> Result<Batch, DiscoverError>,
    extract: Candidate -> Option<Conversation>,
    evidence: Candidate -> Option<bool>)

  datatype Registry = Registry(sources: seq<Source>, desired: set<SourceId>)

  type Watermarks = map<SourceId, string>

  /** Registered sources have distinct identifiers, all of them desired; batches and metadata name
      their own source. */
  ghost predicate ValidRegistry(r: Registry) {
    && (forall i, j :: 0 <= i < j < |r.sources| ==> r.sources[i].id != r.sources[j].id)
    && (forall i :: 0 <= i < |r.sources| ==> r.sources[i].id in r.desired && ValidSource(r.sources[i]))
  }

  ghost predicate ValidSource(s: Source) {
    && (forall w :: s.discover(w).Ok? ==> forall i :: 0 <= i < |s.discover(w).value.removals| ==>
          s.discover(w).value.removals[i].source == s.id)
    && (forall c :: s.extract(c).Some? && |s.extract(c).value.provenance| == 1 ==>
          s.extract(c).value.provenance[0].source == s.id)
  }

  function LookupMark(w: Watermarks, id: SourceId): Option<string> {
    if id in w then Some(w[id]) else None
  }

  // ---------------------------------------------------------------- visits

  /** A candidate yields its conversation if its metadata extracts and it belongs to this project. */
  function Yield(s: Source, c: Candidate): Option<Conversation> {
    if s.extract(c).Some? && s.evidence(c) == Some(true) then s.extract(c) else None
  }

  function Yields(s: Source, cs: seq<Candidate>): seq<Conversation> {
    if cs == [] then []
    else Yields(s, cs[..|cs| - 1]) + (match Yield(s, cs[|cs| - 1]) case Some(v) => [v] case None => [])
  }

  predicate AllYield(s: Source, cs: seq<Candidate>) {
    forall i :: 0 <= i < |cs| ==> Yield(s, cs[i]).Some?
  }

  /** What visiting a source came to: nothing, its continuation was refused, or a page whose candidates
      were all read or not. */
  datatype Visit = Nothing | Refused | Page(found: seq<Conversation>, whole: bool, batch: Batch)

  function VisitOf(s: Source, w: Option<string>): Visit {
    if s.probe != Available then Nothing
    else
      match s.discover(w)
      case Err(e) => if e == InvalidData && w.Some? then Refused else Nothing
      case Ok(batch) => Page(Yields(s, batch.candidates), AllYield(s, batch.candidates), batch)
  }

  /** A visit as it went, possibly cut short between candidates by a cancellation. */
  predicate Went(s: Source, w: Option<string>, v: Visit) {
    || v == VisitOf(s, w)
    || (v.Page? && !v.whole && VisitOf(s, w).Page? && v.batch == VisitOf(s, w).batch
        && exists k :: 0 <= k < |v.batch.candidates| && v.found == Yields(s, v.batch.candidates[..k]))
  }

  datatype Found = Found(
    conversations: seq<Conversation>, watermarks: Watermarks, removals: seq<Removal>,
    purged: set<SourceId>, more: bool)

  /** Sources nobody wants any more lose their watermarks before anything else. */
  function Begun(r: Registry, w: Watermarks): Found {
    Found([], map id | id in w && id in r.desired :: w[id], [], w.Keys - r.desired, false)
  }

  /** A page counts in full only if every candidate was read: otherwise its conversations are kept, but
      its removals and its continuation are not. */
  function Visited(f: Found, id: SourceId, v: Visit): Found {
    match v
    case Nothing => f
    case Refused => f.(watermarks := f.watermarks - {id}, purged := f.purged + {id}, more := true)
    case Page(found, whole, batch) =>
      if whole then
        Found(f.conversations + found,
              if batch.next.Some? then f.watermarks[id := batch.next.value] else f.watermarks - {id},
              f.removals + batch.removals, f.purged, f.more || batch.more)
      else f.(conversations := f.conversations + found)
  }

  function Gathered(r: Registry, w: Watermarks, vs: seq<Visit>): Found
    requires |vs| <= |r.sources|
  {
    if vs == [] then Begun(r, w)
    else Visited(Gathered(r, w, vs[..|vs| - 1]), r.sources[|vs| - 1].id, vs[|vs| - 1])
  }

  ghost predicate AllWent(r: Registry, w: Watermarks, vs: seq<Visit>) {
    && |vs| <= |r.sources|
    && forall i :: 0 <= i < |vs| ==> Went(r.sources[i], LookupMark(w, r.sources[i].id), vs[i])
  }

  /** The continuation of each source depends on its own visit alone: a refused one is dropped, a whole page
      leaves its own, anything else what was there. Undesired sources lose theirs, unvisited ones keep it. */
  lemma {:induction false} MarksAfter(r: Registry, w: Watermarks, vs: seq<Visit>, id: SourceId)
    requires ValidRegistry(r) && |vs| <= |r.sources|
    ensures var after := LookupMark(Gathered(r, w, vs).watermarks, id);
            && (id !in r.desired ==> after == None)
            && (forall i :: 0 <= i < |vs| && r.sources[i].id == id ==>
                  after == if vs[i].Refused? then None
                           else if vs[i].Page? && vs[i].whole then vs[i].batch.next
                           else LookupMark(w, id))
            && (id in r.desired && (forall i :: 0 <= i < |vs| ==> r.sources[i].id != id) ==> after == LookupMark(w, id))
  {
    if vs != [] {
      MarksAfter(r, w, vs[..|vs| - 1], id);
    }
  }

  /** The watermark of a source moves only past batches all of whose candidates were read and belong
      to the project. */
  lemma MarkNeverPassesFailure(r: Registry, w: Watermarks, vs: seq<Visit>, i: nat)
    requires ValidRegistry(r) && AllWent(r, w, vs) && i < |vs|
    requires var s := r.sources[i];
             LookupMark(Gathered(r, w, vs).watermarks, s.id) != LookupMark(w, s.id)
    requires r.sources[i].id in Gathered(r, w, vs).watermarks
    ensures var s := r.sources[i];
            && vs[i].Page? && vs[i] == VisitOf(s, LookupMark(w, s.id))
            && AllYield(s, vs[i].batch.candidates)
            && Some(Gathered(r, w, vs).watermarks[s.id]) == vs[i].batch.next
  {
    MarksAfter(r, w, vs, r.sources[i].id);
    assert Went(r.sources[i], LookupMark(w, r.sources[i].id), vs[i]);
  }

  /** A source whose watermark survives was not purged in the same run. */
  lemma {:induction false} PurgedLoseMarks(r: Registry, w: Watermarks, vs: seq<Visit>)
    requires ValidRegistry(r) && |vs| <= |r.sources|
    ensures forall id :: id in Gathered(r, w, vs).purged ==> id !in Gathered(r, w, vs).watermarks
    ensures forall id :: id in Gathered(r, w, vs).watermarks ==> id in r.desired
    ensures forall id :: id in Gathered(r, w, vs).purged ==>
              id !in r.desired || exists i :: 0 <= i < |vs| && r.sources[i].id == id && vs[i].Refused?
  {
    if vs != [] {
      PurgedLoseMarks(r, w, vs[..|vs| - 1]);
    }
  }

  /** All the conversations of the visits, in registry order. */
  function AllFound(vs: seq<Visit>): seq<Conversation> {
    if vs == [] then []
    else AllFound(vs[..|vs| - 1]) + (if vs[|vs| - 1].Page? then vs[|vs| - 1].found else [])
  }

  lemma {:induction false} GatheredConversations(r: Registry, w: Watermarks, vs: seq<Visit>)
    requires |vs| <= |r.sources|
    ensures Gathered(r, w, vs).conversations == AllFound(vs)
  {
    if vs != [] { GatheredConversations(r, w, vs[..|vs| - 1]); }
  }

  /** Every candidate of the page was read. */
  predicate Whole(v: Visit) {
    v.Page? && v.whole
  }

  /** What visits add up to: the conversations of all pages, the removals of whole ones, the purged sources, and
      whether there is more to discover. */
  lemma {:induction false} GatheredMeaning(r: Registry, w: Watermarks, vs: seq<Visit>)
    requires |vs| <= |r.sources|
    ensures var f := Gathered(r, w, vs);
            && (forall v :: v in f.conversations <==> exists i :: 0 <= i < |vs| && vs[i].Page? && v in vs[i].found)
            && (forall x :: x in f.removals <==> exists i :: 0 <= i < |vs| && Whole(vs[i]) && x in vs[i].batch.removals)
            && (forall id :: id in f.purged <==>
                  (id in w && id !in r.desired) || exists i :: 0 <= i < |vs| && vs[i].Refused? && r.sources[i].id == id)
            && (f.more <==> exists i :: 0 <= i < |vs| && (vs[i].Refused? || (Whole(vs[i]) && vs[i].batch.more)))
  {
    if vs != [] {
      var n := |vs| - 1;
      GatheredMeaning(r, w, vs[..n]);
      hide Gathered, Begun;
      assert forall i :: 0 <= i < n ==> vs[..n][i] == vs[i];
    }
  }

  // ---------------------------------------------------------------- a run that nothing interrupts

  /** A candidate is a conversation of this project. */
  predicate OfProject(s: Source, c: Candidate, v: Conversation) {
    s.extract(c) == Some(v) && s.evidence(c) == Some(true)
  }

  /** A source answers with a batch. */
  predicate Answers(s: Source, w: Option<string>) {
    s.probe == Available && s.discover(w).Ok?
  }

  /** A source answers with a batch of which every candidate is a conversation of this project. */
  predicate AllBelong(s: Source, w: Option<string>) {
    && Answers(s, w)
    && forall i :: 0 <= i < |s.discover(w).value.candidates| ==>
         && s.extract(s.discover(w).value.candidates[i]).Some?
         && s.evidence(s.discover(w).value.candidates[i]) == Some(true)
  }

  /** A source calls the continuation it was given invalid. */
  predicate Refuses(s: Source, w: Option<string>) {
    s.probe == Available && s.discover(w).Err? && s.discover(w).error == InvalidData && w.Some?
  }

  lemma {:induction false} YieldsMeaning(s: Source, cs: seq<Candidate>, v: Conversation)
    ensures v in Yields(s, cs) <==> exists i :: 0 <= i < |cs| && OfProject(s, cs[i], v)
  {
    if cs != [] {
      var n := |cs| - 1;
      YieldsMeaning(s, cs[..n], v);
      assert forall i :: 0 <= i < n ==> cs[..n][i] == cs[i];
      if v in Yields(s, cs) && v !in Yields(s, cs[..n]) { assert OfProject(s, cs[n], v); }
      if i :| 0 <= i < |cs| && OfProject(s, cs[i], v) {
        if i < n { assert OfProject(s, cs[..n][i], v); }
      }
    }
  }

  /** A source asks to be read again: it refuses its continuation, or its batch was read and is not the last. */
  predicate SaysMore(s: Source, w: Option<string>) {
    Refuses(s, w) || (AllBelong(s, w) && s.discover(w).value.more)
  }

  /** A candidate of a source that answers is a conversation of this project. */
  predicate Yielded(r: Registry, w: Watermarks, i: int, j: int, v: Conversation) {
    && 0 <= i < |r.sources| && Answers(r.sources[i], LookupMark(w, r.sources[i].id))
    && var cs := r.sources[i].discover(LookupMark(w, r.sources[i].id)).value.candidates;
       0 <= j < |cs| && OfProject(r.sources[i], cs[j], v)
  }

  /** A visit went as the answers of its source tell. */
  ghost predicate Told(s: Source, w: Option<string>, v: Visit) {
    && (v.Refused? <==> Refuses(s, w)) && (v.Page? <==> Answers(s, w)) && (Whole(v) <==> AllBelong(s, w))
    && (v.Page? ==>
          && v.batch == s.discover(w).value
          && forall c :: c in v.found <==>
               exists j :: 0 <= j < |v.batch.candidates| && OfProject(s, v.batch.candidates[j], c))
  }

  lemma VisitMeaning(s: Source, w: Option<string>)
    ensures Told(s, w, VisitOf(s, w))
  {
    if Answers(s, w) {
      var cs := s.discover(w).value.candidates;
      forall c ensures c in Yields(s, cs) <==> exists j :: 0 <= j < |cs| && OfProject(s, cs[j], c) {
        YieldsMeaning(s, cs, c);
      }
      hide Yields, OfProject;
    }
  }

  /** Every source was visited to the end. */
  ghost predicate Uninterrupted(r: Registry, w: Watermarks, vs: seq<Visit>) {
    && |vs| == |r.sources|
    && forall i :: 0 <= i < |vs| ==> vs[i] == VisitOf(r.sources[i], LookupMark(w, r.sources[i].id))
  }

  lemma UninterruptedTold(r: Registry, w: Watermarks, vs: seq<Visit>)
    requires Uninterrupted(r, w, vs)
    ensures forall i :: 0 <= i < |vs| ==> Told(r.sources[i], LookupMark(w, r.sources[i].id), vs[i])
  {
    hide Told, VisitOf;
    forall i | 0 <= i < |vs| ensures Told(r.sources[i], LookupMark(w, r.sources[i].id), vs[i]) {
      VisitMeaning(r.sources[i], LookupMark(w, r.sources[i].id));
    }
  }

  /** A run that nothing interrupts finds the conversations of this project among all candidates. */
  lemma DiscoveredConversations(r: Registry, w: Watermarks, vs: seq<Visit>, v: Conversation)
    requires Uninterrupted(r, w, vs)
    ensures v in Gathered(r, w, vs).conversations <==> exists i, j :: Yielded(r, w, i, j, v)
  {
    UninterruptedTold(r, w, vs);
    GatheredMeaning(r, w, vs);
    hide Gathered, Refuses, AllBelong, OfProject;
    if v in Gathered(r, w, vs).conversations {
      var i :| 0 <= i < |vs| && vs[i].Page? && v in vs[i].found;
      assert Told(r.sources[i], LookupMark(w, r.sources[i].id), vs[i]);
      var j :| 0 <= j < |vs[i].batch.candidates| && OfProject(r.sources[i], vs[i].batch.candidates[j], v);
      assert Yielded(r, w, i, j, v);
    }
    if i, j :| Yielded(r, w, i, j, v) {
      assert Told(r.sources[i], LookupMark(w, r.sources[i].id), vs[i]);
      assert vs[i].Page? && v in vs[i].found;
    }
  }

  /** A run that nothing interrupts, told by the answers of the sources: removals and continuations of those whose
      candidates all belong here; sources that refuse their continuation, or that nobody wants, purged; more to
      come if a source refused or says so. */
  lemma DiscoveredMeaning(r: Registry, w: Watermarks, vs: seq<Visit>)
    requires ValidRegistry(r) && Uninterrupted(r, w, vs)
    ensures var (f, ss) := (Gathered(r, w, vs), r.sources);
            && (forall x :: x in f.removals <==>
                  exists i :: 0 <= i < |ss| && AllBelong(ss[i], LookupMark(w, ss[i].id))
                              && x in ss[i].discover(LookupMark(w, ss[i].id)).value.removals)
            && (forall id :: id in f.purged <==>
                  || (id in w && id !in r.desired)
                  || exists i :: 0 <= i < |ss| && Refuses(ss[i], LookupMark(w, ss[i].id)) && ss[i].id == id)
            && (f.more <==> exists i :: 0 <= i < |ss| && SaysMore(ss[i], LookupMark(w, ss[i].id)))
            && (forall i :: 0 <= i < |ss| ==>
                  var mark := LookupMark(w, ss[i].id);
                  LookupMark(f.watermarks, ss[i].id)
                  == if Refuses(ss[i], mark) then None
                     else if AllBelong(ss[i], mark) then ss[i].discover(mark).value.next
                     else mark)
  {
    var ss := r.sources;
    UninterruptedTold(r, w, vs);
    GatheredMeaning(r, w, vs);
    forall i | 0 <= i < |ss|
      ensures var (v, mark) := (vs[i], LookupMark(w, ss[i].id));
              && (v.Refused? <==> Refuses(ss[i], mark)) && (Whole(v) <==> AllBelong(ss[i], mark))
              && (Whole(v) ==> v.batch == ss[i].discover(mark).value)
              && LookupMark(Gathered(r, w, vs).watermarks, ss[i].id)
                 == if Refuses(ss[i], mark) then None
                    else if AllBelong(ss[i], mark) then ss[i].discover(mark).value.next
                    else mark
    {
      assert Told(ss[i], LookupMark(w, ss[i].id), vs[i]);
      MarksAfter(r, w, vs, ss[i].id);
      hide Refuses, AllBelong, Gathered, ValidRegistry;
    }
    hide Refuses, AllBelong, Gathered, ValidRegistry, Told, Uninterrupted, LookupMark;
  }

  // ---------------------------------------------------------------- newest first

  /** Newest first, ties by session. */
  predicate Before(a: Conversation, b: Conversation) {
    || a.updated > b.updated
    || (a.updated == b.updated
        && (NameLess(a.session.namespace, b.session.namespace)
            || (a.session.namespace == b.session.namespace && NameLess(a.session.id, b.session.id))))
  }

  /** Only conversations of one session and one time are not ordered; newer ones come first. */
  lemma BeforeMeaning(a: Conversation, b: Conversation)
    ensures a.updated > b.updated ==> Before(a, b)
    ensures !Before(a, b) && !Before(b, a) <==> a.updated == b.updated && a.session == b.session
  {
    NameTotal(a.session.namespace, b.session.namespace);
    NameTotal(a.session.id, b.session.id);
  }

  lemma BeforeRanks()
    ensures Ranks(Before)
  {
    forall a, b, c
      ensures Before(a, b) ==> !Before(b, a)
      ensures Before(a, b) && !Before(c, b) ==> Before(a, c)
    {
      BeforeTransitive(a, b, c);
    }
  }

  lemma BeforeTransitive(a: Conversation, b: Conversation, c: Conversation)
    ensures Before(a, b) && !Before(c, b) ==> Before(a, c)
    ensures Before(a, b) ==> !Before(b, a)
  {
    NameTotal(a.session.namespace, b.session.namespace);
    NameTotal(b.session.namespace, c.session.namespace);
    NameTotal(a.session.namespace, c.session.namespace);
    NameTotal(a.session.id, b.session.id);
    NameTotal(b.session.id, c.session.id);
    if NameLess(a.session.namespace, b.session.namespace) && NameLess(b.session.namespace, c.session.namespace) {
      NameTransitive(a.session.namespace, b.session.namespace, c.session.namespace);
    }
    if NameLess(a.session.id, b.session.id) && NameLess(b.session.id, c.session.id) {
      NameTransitive(a.session.id, b.session.id, c.session.id);
    }
  }

  // ---------------------------------------------------------------- the run

  /** Reads the candidates of a batch until done or cancelled. */
  method ReadCandidates(s: Source, batch: Batch, cancelled: nat -> bool, from: nat)
    returns (found: seq<Conversation>, failed: bool, polls: nat)
    ensures !failed ==> AllYield(s, batch.candidates) && found == Yields(s, batch.candidates)
    ensures failed ==> || (!AllYield(s, batch.candidates) && found == Yields(s, batch.candidates))
                       || (exists k :: 0 <= k < |batch.candidates| && found == Yields(s, batch.candidates[..k]))
    ensures (forall k :: !cancelled(k)) ==>
              found == Yields(s, batch.candidates) && failed == !AllYield(s, batch.candidates)
  {
    found, failed, polls := [], false, from;
    for i := 0 to |batch.candidates|
      invariant found == Yields(s, batch.candidates[..i])
      invariant failed == !AllYield(s, batch.candidates[..i])
    {
      assert batch.candidates[..i + 1][..i] == batch.candidates[..i];
      if cancelled(polls) {
        failed := true;
        return;
      }
      polls := polls + 1;
      var candidate := batch.candidates[i];
      var conversation := s.extract(candidate);
      if conversation.None? {
        failed := true;
        continue;
      }
      match s.evidence(candidate)
      case Some(true) => found := found + [conversation.value];
      case _ => failed := true;
    }
    assert batch.candidates[..|batch.candidates|] == batch.candidates;
  }

  /** Probes, queries and reads one source. */
  method VisitSource(source: Source, w: Watermarks, before: Found, cancelled: nat -> bool, from: nat)
    returns (f: Found, polls: nat, ghost visit: Visit)
    ensures Went(source, LookupMark(w, source.id), visit) && f == Visited(before, source.id, visit)
    ensures (forall k :: !cancelled(k)) ==> visit == VisitOf(source, LookupMark(w, source.id))
  {
    f, polls, visit := before, from, Nothing;
    if source.probe != Available {
      return;
    }
    match source.discover(LookupMark(w, source.id)) {
      case Err(error) =>
        if error == InvalidData && source.id in w {
          f := f.(watermarks := f.watermarks - {source.id}, purged := f.purged + {source.id}, more := true);
          visit := Refused;
        }
      case Ok(batch) =>
        var found, failed;
        found, failed, polls := ReadCandidates(source, batch, cancelled, polls);
        f := f.(conversations := f.conversations + found);
        if !failed {
          f := f.(removals := f.removals + batch.removals, more := f.more || batch.more);
          if batch.next.Some? {
            f := f.(watermarks := f.watermarks[source.id := batch.next.value]);
          } else {
            f := f.(watermarks := f.watermarks - {source.id});
          }
        }
        visit := Page(found, !failed, batch);
    }
  }

  lemma NoneWent(r: Registry, w: Watermarks)
    ensures AllWent(r, w, [])
  {
  }

  lemma OneMoreWent(r: Registry, w: Watermarks, vs: seq<Visit>, v: Visit)
    requires AllWent(r, w, vs) && |vs| < |r.sources|
    requires Went(r.sources[|vs|], LookupMark(w, r.sources[|vs|].id), v)
    ensures AllWent(r, w, vs + [v])
    ensures Gathered(r, w, vs + [v]) == Visited(Gathered(r, w, vs), r.sources[|vs|].id, v)
  {
    assert (vs + [v])[..|vs|] == vs;
    hide Went, Visited;
  }

  /** One discovery run. `vs` records how each visited source went; a run nothing interrupted visits
      every source to the end. */
  method Discover(r: Registry, w: Watermarks, cancelled: nat -> bool) returns (f: Found, ghost vs: seq<Visit>)
    requires ValidRegistry(r)
    ensures AllWent(r, w, vs)
    ensures f == Gathered(r, w, vs).(conversations := f.conversations)
    ensures Sorted(Before, f.conversations) && multiset(f.conversations) == multiset(AllFound(vs))
    ensures (forall k :: !cancelled(k)) ==> Uninterrupted(r, w, vs)
  {
    var unregistered := w.Keys - r.desired;
    f := Found([], map id | id in w && id !in unregistered :: w[id], [], unregistered, false);
    vs := [];
    var polls := 0;
    assert f == Begun(r, w) && Gathered(r, w, []) == Begun(r, w);
    hide Went, VisitOf, ValidRegistry, Visited, Begun, Gathered, AllWent, Before;
    NoneWent(r, w);
    for i := 0 to |r.sources|
      invariant |vs| == i && AllWent(r, w, vs) && f == Gathered(r, w, vs)
      invariant (forall k :: !cancelled(k)) ==>
                  forall i :: 0 <= i < |vs| ==> vs[i] == VisitOf(r.sources[i], LookupMark(w, r.sources[i].id))
    {
      if cancelled(polls) {
        break;
      }
      polls := polls + 1;
      ghost var visit;
      f, polls, visit := VisitSource(r.sources[i], w, f, cancelled, polls);
      OneMoreWent(r, w, vs, visit);
      vs := vs + [visit];
    }
    GatheredConversations(r, w, vs);
    BeforeRanks();
    SortedPermutation(Before, f.conversations);
    f := f.(conversations := SortBy(Before, f.conversations));
  }
}
