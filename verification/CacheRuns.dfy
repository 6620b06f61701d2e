/** Crash safety over whole runs of refreshes, failures, stops and reopenings by one writer. */
module CacheRuns {
  import opened Wrappers
  import opened Sorting
  import opened Conversations
  import opened Discovery
  import opened Index
  import opened CacheNames
  import opened CacheFiles
  import IndexRuns
  import Pages

  // ---------------------------------------------------------------- what a refresh publishes comes back

  /** At most 32 approved sources are desired; continuations are not empty and metadata is well formed,
      as their constructors see to; paths hold no NUL byte. */
  ghost predicate Trusted(r: Registry) {
    && |r.desired| <= MAX_SOURCE_WATERMARKS
    && (forall id :: id in r.desired ==> CheckSource(id, None).None?)
    && (forall i :: 0 <= i < |r.sources| ==> TrustedSource(r.sources[i]))
  }

  ghost predicate TrustedSource(s: Source) {
    && (forall w :: s.discover(w).Ok? ==> s.discover(w).value.next != Some(""))
    && (forall c :: s.extract(c).Some? ==> WellFormed(s.extract(c).value) && PathsLoadable(s.extract(c).value))
  }

  /** A refresh staged one index from another. */
  ghost predicate Staged(s: IndexState, t: IndexState, r: Registry, vs: seq<Visit>, f: Found, order: seq<SourceId>) {
    && ValidRegistry(r) && AllWent(r, s.watermarks, vs)
    && f == Gathered(r, s.watermarks, vs).(conversations := f.conversations)
    && multiset(f.conversations) == multiset(AllFound(vs))
    && InIdOrder(order, f.watermarks)
    && ValidEntries(s.entries) && NextState(s, r.desired, f, order) == Some(t)
  }

  /** A staged index is within its limit, and its continuations within theirs. */
  lemma StagedBounds(s: IndexState, desired: set<SourceId>, f: Found, order: seq<SourceId>)
    requires ValidEntries(s.entries) && InIdOrder(order, f.watermarks)
    requires NextState(s, desired, f, order).Some?
    ensures var t := NextState(s, desired, f, order).value;
            && |t.entries| <= t.maxEntries == s.maxEntries && t.generation == s.generation + 1
            && forall id :: id in t.watermarks ==> |t.watermarks[id]| <= MAX_WATERMARK_BYTES
  {
    IndexRuns.RefreshWithinLimit(s, desired, f, order);
    IndexRuns.BudgetKeeps(f.watermarks, order);
    hide ValidEntries, InIdOrder, StagedEntries, BoundMarks, IndexRuns.Filled;
  }

  /** A staged index is storable exactly if its continuations are few, approved and not empty, and its
      entries readable: entry count and continuation lengths are seen to. */
  lemma StagedStorable(s: IndexState, desired: set<SourceId>, f: Found, order: seq<SourceId>, root: string)
    requires ValidEntries(s.entries) && InIdOrder(order, f.watermarks)
    requires NextState(s, desired, f, order).Some?
    requires '\0' !in root && 1 <= s.maxEntries <= MAX_INDEX_ENTRIES
    ensures var t := NextState(s, desired, f, order).value;
            Storable(t, root)
            <==> (&& |t.watermarks| <= MAX_SOURCE_WATERMARKS
                  && (forall id :: id in t.watermarks ==> CheckSource(id, None).None? && t.watermarks[id] != "")
                  && Pages.Readable(t.entries))
  {
    StagedBounds(s, desired, f, order);
    hide ValidEntries, InIdOrder, NextState, Validate, CheckSource;
  }

  lemma {:induction false} FoundSomewhere(vs: seq<Visit>, v: Conversation)
    requires v in AllFound(vs)
    ensures exists i :: 0 <= i < |vs| && vs[i].Page? && v in vs[i].found
  {
    var n := |vs| - 1;
    if v in AllFound(vs[..n]) {
      FoundSomewhere(vs[..n], v);
      var i :| 0 <= i < |vs[..n]| && vs[..n][i].Page? && v in vs[..n][i].found;
      assert vs[i] == vs[..n][i];
    }
  }

  /** What a visit of a trusted source found can be stored. */
  lemma FoundStorable(s: Source, w: Option<string>, v: Visit, c: Conversation)
    requires TrustedSource(s) && Went(s, w, v) && v.Page? && c in v.found
    ensures WellFormed(c) && PathsLoadable(c)
  {
    var cs :| c in Yields(s, cs);
    IndexRuns.YieldsCome(s, cs, c);
    hide WellFormed, PathsLoadable;
  }

  lemma ConversationsStorable(s: IndexState, t: IndexState, r: Registry, vs: seq<Visit>, f: Found,
      order: seq<SourceId>)
    requires Trusted(r) && Staged(s, t, r, vs, f, order)
    ensures forall v :: v in f.conversations ==> WellFormed(v) && PathsLoadable(v)
  {
    MembersOfPermutation(f.conversations, AllFound(vs));
    hide WellFormed, PathsLoadable, TrustedSource, NextState, Went;
    forall v | v in f.conversations ensures WellFormed(v) && PathsLoadable(v) {
      FoundSomewhere(vs, v);
      var i :| 0 <= i < |vs| && vs[i].Page? && v in vs[i].found;
      FoundStorable(r.sources[i], LookupMark(s.watermarks, r.sources[i].id), vs[i], v);
    }
  }

  /** A continuation after a visit of a trusted source is not empty. */
  lemma MarkStorable(r: Registry, w: Watermarks, vs: seq<Visit>, id: SourceId)
    requires Trusted(r) && ValidRegistry(r) && AllWent(r, w, vs)
    requires id in Gathered(r, w, vs).watermarks && (id in w ==> w[id] != "")
    ensures id in r.desired && Gathered(r, w, vs).watermarks[id] != ""
  {
    IndexRuns.StoredMark(r, w, vs, id);
    MarksAfter(r, w, vs, id);
    hide Gathered, ValidRegistry, CheckSource;
    if i :| 0 <= i < |vs| && r.sources[i].id == id {
      assert TrustedSource(r.sources[i]) && Went(r.sources[i], LookupMark(w, id), vs[i]);
    }
  }

  /** Refreshing from trusted sources keeps an index storable. */
  lemma RefreshStorable(s: IndexState, t: IndexState, r: Registry, vs: seq<Visit>, f: Found, order: seq<SourceId>,
      root: string)
    requires Storable(s, root) && Trusted(r) && Staged(s, t, r, vs, f, order)
    ensures Storable(t, root) && ValidEntries(t.entries)
  {
    ConversationsStorable(s, t, r, vs, f, order);
    Pages.RefreshKeepsReadable(s, r.desired, f, order);
    IndexRuns.NextStateSteps(s, r.desired, f, order);
    StagedStorable(s, r.desired, f, order, root);
    hide WellFormed, PathsLoadable, NextState, Gathered, InIdOrder, ValidEntries, Validate, CheckSource;
    forall id | id in t.watermarks ensures id in r.desired && t.watermarks[id] != "" {
      MarkStorable(r, s.watermarks, vs, id);
    }
    SubsetSize(t.watermarks.Keys, r.desired);
  }

  // ---------------------------------------------------------------- the run

  /** What stays the same over a run. */
  datatype Setting = Setting(root: string, codec: Codec)

  /** An index as it was published, with its document and the numbers in its file name. */
  datatype Publication = Publication(index: IndexState, document: DiskIndex, process: nat, nonce: nat)

  /** The files, the index in memory, the writer's process and next nonce, and the last publication whose
      pointer was put in place. */
  datatype Store = Store(files: Files, live: IndexState, process: nat, nonce: nat, shown: Option<Publication>)

  function NameOf(p: Publication): string {
    CacheName(p.index.generation, p.process, p.nonce)
  }

  /** A publication whose document fits and whose numbers have not run out. */
  ghost predicate Fits(p: Publication, c: Setting) {
    && IsDiskOf(p.document, p.index, c.root) && p.index.generation < U64 && p.nonce < U64
    && |c.codec.encode(p.document)| <= MAX_CACHE_BYTES
  }

  /** What opening under a limit must give: the last publication put in place, or an empty index. */
  function Expected(shown: Option<Publication>, limit: nat): IndexState {
    match shown
    case None => EmptyIndex(0, RebuiltMissing, limit)
    case Some(p) => Reloaded(p.index, limit)
  }

  /** A refresh is published, or its publishing fails or stops anywhere; or the cache is opened again,
      possibly by another process and with another limit. */
  datatype Event =
    | Publish(publication: Publication, registry: Registry, visits: seq<Visit>, found: Found, order: seq<SourceId>,
              files: Files, moved: bool, installed: bool)
    | Reopen(process: nat, nonce: nat, limit: nat)

  /** A publication is a refresh of the index in memory under the writer's next name; it leaves the files
      as publishing can: with the current pointer on the complete new file, or with nothing else changed. */
  ghost predicate Enabled(s: Store, e: Event, c: Setting) {
    match e
    case Reopen(_, _, limit) => 1 <= limit <= MAX_INDEX_ENTRIES
    case Publish(p, r, vs, f, order, files, moved, installed) =>
      && Trusted(r) && Staged(s.live, p.index, r, vs, f, order)
      && Fits(p, c) && p.process == s.process && p.nonce == s.nonce
      && PublishedAs(s.files, files, NameOf(p), c.codec.encode(p.document), moved) && (installed ==> moved)
  }

  /** The current pointer is on the complete file of a publication. */
  predicate Points(files: Files, p: Publication, c: Setting) {
    At(files, CURRENT) == Some(NameOf(p)) && At(files, NameOf(p)) == Some(c.codec.encode(p.document))
  }

  function Next(s: Store, e: Event, c: Setting): Store {
    match e
    case Publish(p, _, _, _, _, files, moved, installed) =>
      Store(files, if installed then p.index else s.live, s.process, s.nonce + 1, if moved then Some(p) else s.shown)
    case Reopen(process, nonce, limit) =>
      Store(s.files, OpenIndex(s.files, c.root, limit, c.codec), process, nonce, s.shown)
  }

  /** The files show the last publication put in place. */
  ghost predicate Shows(files: Files, shown: Option<Publication>, c: Setting) {
    match shown
    case None => CURRENT !in files
    case Some(p) => Fits(p, c) && Storable(p.index, c.root) && Points(files, p, c)
  }

  /** The writer's next name is not the name of the last publication put in place. */
  predicate NextIsNew(s: Store) {
    s.shown.None?
    || s.shown.value.index.generation <= s.live.generation
    || (&& s.shown.value.index.generation == s.live.generation + 1
        && s.shown.value.process == s.process && s.shown.value.nonce < s.nonce)
  }

  ghost predicate StoreOk(s: Store, c: Setting) {
    && Shows(s.files, s.shown, c) && NextIsNew(s)
    && Storable(s.live, c.root) && ValidEntries(s.live.entries)
  }

  lemma ShownOpens(files: Files, shown: Option<Publication>, limit: nat, c: Setting)
    requires Shows(files, shown, c) && Faithful(c.codec)
    ensures OpenIndex(files, c.root, limit, c.codec) == Expected(shown, limit)
  {
    if shown.Some? {
      var p := shown.value;
      hide OpenIndex, IsDiskOf, Storable, CacheName, Reloaded;
      MovedOpens(files, p.document, p.index, p.process, p.nonce, c.root, limit, c.codec);
    } else {
      hide FromDisk;
    }
  }

  lemma ExpectedStorable(shown: Option<Publication>, limit: nat, root: string)
    requires '\0' !in root && 1 <= limit <= MAX_INDEX_ENTRIES
    requires shown.Some? ==> Storable(shown.value.index, root)
    ensures Storable(Expected(shown, limit), root)
  {
    hide CheckSource, Validate;
  }

  lemma ReopenKeepsStore(s: Store, process: nat, nonce: nat, limit: nat, c: Setting)
    requires StoreOk(s, c) && Faithful(c.codec) && 1 <= limit <= MAX_INDEX_ENTRIES
    ensures StoreOk(Next(s, Reopen(process, nonce, limit), c), c)
  {
    ShownOpens(s.files, s.shown, limit, c);
    ExpectedStorable(s.shown, limit, c.root) by { hide Validate, CheckSource; }
    OpenedUsable(s.files, c.root, limit, c.codec);
    hide OpenIndex, Fits, CacheName, Storable, ValidEntries, Validate;
  }

  /** A publication that did not move the pointer leaves the last one in place. */
  lemma UnmovedShows(s: Store, files: Files, p: Publication, c: Setting)
    requires StoreOk(s, c) && SameView(s.files, files, NameOf(p)) && Fits(p, c)
    requires p.index.generation == s.live.generation + 1 && p.process == s.process && p.nonce == s.nonce
    ensures Shows(files, s.shown, c)
  {
    if s.shown.Some? {
      var q := s.shown.value;
      GenerationOf(q.index.generation, q.process, q.nonce);
      if NameOf(q) == NameOf(p) {
        NamesDiffer(q.index.generation, q.process, q.nonce, p.index.generation, p.process, p.nonce);
      }
      hide IsDiskOf, Storable, CacheName, Generation, ValidEntries;
      assert At(s.files, NameOf(q)) == At(files, NameOf(q));
    }
    hide IsDiskOf, Storable, CacheName, Generation, ValidEntries;
    assert At(s.files, CURRENT).Some? <==> CURRENT in s.files;
    assert At(files, CURRENT).Some? <==> CURRENT in files;
  }

  lemma StagedOk(s: IndexState, t: IndexState, r: Registry, vs: seq<Visit>, f: Found, order: seq<SourceId>,
      root: string)
    requires Storable(s, root) && Trusted(r) && Staged(s, t, r, vs, f, order)
    ensures Storable(t, root) && ValidEntries(t.entries) && t.generation == s.generation + 1
  {
    RefreshStorable(s, t, r, vs, f, order, root);
    StagedBounds(s, r.desired, f, order);
    hide Trusted, ValidEntries, Storable, NextState, Gathered, InIdOrder, AllWent, ValidRegistry;
  }

  lemma PublishKeepsStore(s: Store, e: Event, c: Setting)
    requires StoreOk(s, c) && Faithful(c.codec) && Enabled(s, e, c) && e.Publish?
    ensures StoreOk(Next(s, e, c), c)
  {
    hide Trusted, Staged, ValidEntries, Storable, Fits, NameOf, SameView, Faithful;
    var p := e.publication;
    StagedOk(s.live, p.index, e.registry, e.visits, e.found, e.order, c.root);
    if !e.moved { UnmovedShows(s, e.files, p, c); }
  }

  lemma NextKeepsStore(s: Store, e: Event, c: Setting)
    requires StoreOk(s, c) && Faithful(c.codec) && Enabled(s, e, c)
    ensures StoreOk(Next(s, e, c), c)
  {
    hide StoreOk, Next, Fits, Trusted, Staged;
    match e
    case Reopen(process, nonce, limit) => ReopenKeepsStore(s, process, nonce, limit, c);
    case Publish(_, _, _, _, _, _, _, _) => PublishKeepsStore(s, e, c);
  }

  ghost predicate Legal(s: Store, es: seq<Event>, c: Setting)
    decreases |es|
  {
    es == [] || (Enabled(s, es[0], c) && Legal(Next(s, es[0], c), es[1..], c))
  }

  function After(s: Store, es: seq<Event>, c: Setting): Store
    decreases |es|
  {
    if es == [] then s else After(Next(s, es[0], c), es[1..], c)
  }

  /** One more event is one more step. */
  lemma {:induction false} AfterLast(s: Store, es: seq<Event>, e: Event, c: Setting)
    ensures After(s, es + [e], c) == Next(After(s, es, c), e, c)
    ensures Legal(s, es + [e], c) <==> Legal(s, es, c) && Enabled(After(s, es, c), e, c)
    decreases |es|
  {
    hide Next, Enabled;
    if es == [] {
      assert (es + [e])[1..] == [];
    } else {
      AfterLast(Next(s, es[0], c), es[1..], e, c);
      assert (es + [e])[1..] == es[1..] + [e];
    }
  }

  /** A writer over an empty cache directory. */
  function Fresh(process: nat, limit: nat): Store {
    Store(map[], EmptyIndex(0, RebuiltMissing, limit), process, 0, None)
  }

  lemma FreshOk(process: nat, limit: nat, c: Setting)
    requires '\0' !in c.root && 1 <= limit <= MAX_INDEX_ENTRIES
    ensures StoreOk(Fresh(process, limit), c)
  {
    ExpectedStorable(None, limit, c.root);
    hide Storable;
  }

  lemma {:induction false} RunKeepsStore(s: Store, es: seq<Event>, c: Setting)
    requires StoreOk(s, c) && Faithful(c.codec) && Legal(s, es, c)
    ensures StoreOk(After(s, es, c), c)
    decreases |es|
  {
    if es != [] {
      hide StoreOk, Enabled, Next;
      NextKeepsStore(s, es[0], c);
      RunKeepsStore(Next(s, es[0], c), es[1..], c);
    }
  }

  /** Whatever failed and wherever the writer stopped, and under whatever limit: opening gives exactly the
      last index whose pointer was put in place, in full, or an empty one if there was none. */
  lemma CrashTheorem(c: Setting, process: nat, limit: nat, es: seq<Event>, next: nat)
    requires Faithful(c.codec) && '\0' !in c.root && 1 <= limit <= MAX_INDEX_ENTRIES
    requires Legal(Fresh(process, limit), es, c)
    ensures var s := After(Fresh(process, limit), es, c);
            OpenIndex(s.files, c.root, next, c.codec) == Expected(s.shown, next)
  {
    FreshOk(process, limit, c);
    RunKeepsStore(Fresh(process, limit), es, c);
    hide Legal, After, Shows, Storable, ValidEntries;
    var s := After(Fresh(process, limit), es, c);
    ShownOpens(s.files, s.shown, next, c);
  }

  /** One interrupted publication: under whatever limit, the next opening gives what it would have given
      before, or exactly the new index. */
  lemma OldOrNew(s: Store, e: Event, c: Setting, next: nat)
    requires StoreOk(s, c) && Faithful(c.codec) && Enabled(s, e, c) && e.Publish?
    ensures OpenIndex(e.files, c.root, next, c.codec)
            == if e.moved then Reloaded(e.publication.index, next) else OpenIndex(s.files, c.root, next, c.codec)
  {
    PublishKeepsStore(s, e, c);
    ShownOpens(s.files, s.shown, next, c);
    ShownOpens(e.files, Next(s, e, c).shown, next, c);
    hide OpenIndex, Shows, Storable, ValidEntries, Enabled;
  }

  // ---------------------------------------------------------------- memory and disk

  /** The same generation, entries and continuations. */
  predicate SameContents(a: IndexState, b: IndexState) {
    a.generation == b.generation && a.entries == b.entries && a.watermarks == b.watermarks
  }

  /** Every publication that puts its pointer in place is also installed in memory. */
  predicate AllInstalled(es: seq<Event>) {
    forall i :: 0 <= i < |es| && es[i].Publish? ==> es[i].installed == es[i].moved
  }

  ghost predicate Agrees(s: Store) {
    SameContents(s.live, Expected(s.shown, s.live.maxEntries))
  }

  lemma AgreesNext(s: Store, e: Event, c: Setting)
    requires StoreOk(s, c) && Faithful(c.codec) && Enabled(s, e, c) && Agrees(s)
    requires e.Publish? ==> e.installed == e.moved
    ensures Agrees(Next(s, e, c))
  {
    match e
    case Reopen(process, nonce, limit) =>
      ShownOpens(s.files, s.shown, limit, c);
      hide OpenIndex, Shows, NextIsNew, Storable, ValidEntries;
    case Publish(_, _, _, _, _, _, _, _) =>
      hide Trusted, Staged, Fits, Shows, Storable, ValidEntries, PublishedAs;
  }

  lemma {:induction false} RunAgrees(s: Store, es: seq<Event>, c: Setting)
    requires StoreOk(s, c) && Faithful(c.codec) && Legal(s, es, c) && AllInstalled(es) && Agrees(s)
    ensures Agrees(After(s, es, c))
    decreases |es|
  {
    if es != [] {
      AgreesNext(s, es[0], c);
      NextKeepsStore(s, es[0], c);
      hide StoreOk, Enabled, Next, Agrees;
      RunAgrees(Next(s, es[0], c), es[1..], c);
    }
  }

  /** Over every run whose publications are installed in memory exactly if their pointer was put in place, the
      index in memory holds what opening the cache again under its limit would give. */
  lemma MemoryTheorem(c: Setting, process: nat, limit: nat, es: seq<Event>)
    requires Faithful(c.codec) && '\0' !in c.root && 1 <= limit <= MAX_INDEX_ENTRIES
    requires Legal(Fresh(process, limit), es, c) && AllInstalled(es)
    ensures var s := After(Fresh(process, limit), es, c);
            SameContents(s.live, OpenIndex(s.files, c.root, s.live.maxEntries, c.codec))
  {
    FreshOk(process, limit, c);
    RunAgrees(Fresh(process, limit), es, c);
    CrashTheorem(c, process, limit, es, After(Fresh(process, limit), es, c).live.maxEntries);
    hide Legal, After, OpenIndex, AllInstalled;
  }

  // ---------------------------------------------------------------- the runs of watermarks and histories

  /** The same index, but for its status and whether its scan is through. */
  predicate SameIndex(a: IndexState, b: IndexState) {
    a.(status := b.status, scanHasMore := b.scanHasMore) == b
  }

  /** The world of `IndexRuns` has the same index in memory, and on disk the last publication put in place. */
  ghost predicate Mirrors(w: IndexRuns.World, s: Store) {
    && SameIndex(w.live, s.live)
    && match s.shown
       case None => SameContents(w.disk, EmptyIndex(0, RebuiltMissing, w.disk.maxEntries))
       case Some(p) => SameIndex(w.disk, p.index)
  }

  /** What an event is in `IndexRuns`. */
  function Mirrored(s: Store, e: Event): IndexRuns.Event {
    match e
    case Publish(_, r, vs, f, order, _, moved, installed) =>
      IndexRuns.Refresh(r, vs, f, order, if installed then IndexRuns.Complete else IndexRuns.Broken(moved))
    case Reopen(_, _, limit) =>
      IndexRuns.Reopen(if s.shown.Some? && limit > s.shown.value.index.maxEntries then IndexRuns.Raised(limit)
                       else IndexRuns.Kept(limit))
  }

  lemma ReopenMirrored(w: IndexRuns.World, s: Store, e: Event, c: Setting)
    requires Mirrors(w, s) && Shows(s.files, s.shown, c) && Faithful(c.codec) && e.Reopen?
    ensures Mirrors(IndexRuns.Next(w, Mirrored(s, e)), Next(s, e, c))
  {
    ShownOpens(s.files, s.shown, e.limit, c);
    hide OpenIndex, Shows;
  }

  lemma PublishMirrored(w: IndexRuns.World, s: Store, e: Event, c: Setting)
    requires Mirrors(w, s) && e.Publish? && (e.installed ==> e.moved)
    requires Staged(s.live, e.publication.index, e.registry, e.visits, e.found, e.order)
    requires Sorted(Before, e.found.conversations)
    ensures IndexRuns.Enabled(w, Mirrored(s, e))
    ensures Mirrors(IndexRuns.Next(w, Mirrored(s, e)), Next(s, e, c))
  {
    hide ValidEntries, NextState, Gathered, AllWent, ValidRegistry, InIdOrder, AllFound, Sorted, IndexRuns.Recorded;
    SameNext(w.live, s.live, e.registry.desired, e.found, e.order);
  }

  /** The runs that `IndexRuns.WatermarkTheorem` speaks of take the steps these runs take, with conversations
      sorted as discovery leaves them. */
  lemma RunsMirrored(w: IndexRuns.World, s: Store, e: Event, c: Setting)
    requires Mirrors(w, s) && StoreOk(s, c) && Faithful(c.codec) && Enabled(s, e, c)
    requires e.Publish? ==> Sorted(Before, e.found.conversations)
    ensures IndexRuns.Enabled(w, Mirrored(s, e))
    ensures Mirrors(IndexRuns.Next(w, Mirrored(s, e)), Next(s, e, c))
  {
    if e.Reopen? { ReopenMirrored(w, s, e, c); } else { PublishMirrored(w, s, e, c); }
    hide Mirrors, Next, IndexRuns.Next, Shows, Staged, Fits, PublishedAs, Trusted, NextIsNew, Storable, Sorted;
  }

  lemma SameNext(a: IndexState, b: IndexState, desired: set<SourceId>, f: Found, order: seq<SourceId>)
    requires SameIndex(a, b) && ValidEntries(b.entries) && InIdOrder(order, f.watermarks)
    ensures NextState(a, desired, f, order) == NextState(b, desired, f, order)
  {
    hide ValidEntries, BoundMarks, InsertAll, RemoveAll, Trimmed, Retained;
  }
}
