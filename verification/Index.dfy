/** The bounded conversation index: one refresh, trimming and reading pages. */
module Index {
  import opened Wrappers
  import opened Paths
  import opened Sorting
  import opened Conversations
  import opened Discovery

  const MAX_INDEX_ENTRIES: nat := 4096
  const MAX_WATERMARK_BYTES: nat := 4 * 1024 * 1024
  const MAX_TOTAL_WATERMARK_BYTES: nat := 8 * 1024 * 1024

  datatype IndexStatus = Loaded | RebuiltMissing | RebuiltCorrupt | RebuiltIncompatible

  type Entries = map<string, Cached>

  datatype IndexState = IndexState(
    generation: nat, watermarks: Watermarks, entries: Entries, status: IndexStatus, scanHasMore: bool, maxEntries: nat)

  /** Entries sit under their own key and would load again. */
  predicate ValidEntries(es: Entries) {
    forall k :: k in es ==> Key(es[k]) == k && TimeOf(es[k].updated).Ok? && Named(es[k])
  }

  /** The approved names a key is made of. */
  predicate Named(c: Cached) {
    CheckSource(c.source, Some(c.tool)).None? && c.namespace == c.tool && ValidIdentifier(c.sessionId)
  }

  // ---------------------------------------------------------------- one refresh, step by step

  function Retained(es: Entries, desired: set<SourceId>, purged: set<SourceId>): Entries {
    map k | k in es && es[k].source in desired && es[k].source !in purged :: es[k]
  }

  function RemoveOne(es: Entries, r: Removal): Entries {
    var key := KeyFor(r.source, r.session.namespace, r.session.id);
    if key in es && es[key].source == r.source then es - {key} else es
  }

  function RemoveAll(es: Entries, rs: seq<Removal>): Entries {
    if rs == [] then es else RemoveOne(RemoveAll(es, rs[..|rs| - 1]), rs[|rs| - 1])
  }

  /** Conversations enter one after the other; one the cache cannot take fails the refresh. */
  function InsertAll(es: Entries, vs: seq<Conversation>): Option<Entries> {
    if vs == [] then Some(es)
    else
      var n := |vs| - 1;
      match InsertAll(es, vs[..n])
      case None => None
      case Some(before) =>
        match FromConversation(vs[n])
        case None => None
        case Some(c) => Some(before[Key(c) := c])
  }

  function UpdatedOf(c: Cached): Time
    requires TimeOf(c.updated).Ok?
  {
    TimeOf(c.updated).value
  }

  /** Newest first, ties by key. */
  predicate Newer(es: Entries, a: string, b: string)
    requires ValidEntries(es) && a in es && b in es
  {
    || UpdatedOf(es[a]) > UpdatedOf(es[b])
    || (UpdatedOf(es[a]) == UpdatedOf(es[b]) && NameLess(a, b))
  }

  function Ahead(es: Entries, k: string): set<string>
    requires ValidEntries(es) && k in es
  {
    set j | j in es && Newer(es, j, k)
  }

  /** The entries with fewer than `limit` ahead of them. */
  function Trimmed(es: Entries, limit: nat): Entries
    requires ValidEntries(es)
  {
    map k | k in es && |Ahead(es, k)| < limit :: es[k]
  }

  /** Watermarks in source order, each kept if it fits what is left of the budget. */
  function Fits(token: string, used: nat): bool {
    |token| <= MAX_WATERMARK_BYTES && used + |token| <= MAX_TOTAL_WATERMARK_BYTES
  }

  datatype Budget = Budget(kept: Watermarks, used: nat, dropped: bool)

  function BoundMarks(w: Watermarks, order: seq<SourceId>): Budget
    requires forall id :: id in order ==> id in w
  {
    if order == [] then Budget(map[], 0, false)
    else
      var n := |order| - 1;
      var b := BoundMarks(w, order[..n]);
      var id := order[n];
      if Fits(w[id], b.used) then Budget(b.kept[id := w[id]], b.used + |w[id]|, b.dropped) else b.(dropped := true)
  }

  lemma RetainedValid(es: Entries, desired: set<SourceId>, purged: set<SourceId>)
    requires ValidEntries(es)
    ensures ValidEntries(Retained(es, desired, purged))
  {
  }

  lemma {:induction false} RemovedFewer(es: Entries, rs: seq<Removal>)
    ensures RemoveAll(es, rs).Keys <= es.Keys
    ensures forall k :: k in RemoveAll(es, rs) ==> RemoveAll(es, rs)[k] == es[k]
    ensures ValidEntries(es) ==> ValidEntries(RemoveAll(es, rs))
  {
    if rs != [] { RemovedFewer(es, rs[..|rs| - 1]); }
  }

  lemma FromConversationNamed(v: Conversation)
    requires FromConversation(v).Some?
    ensures Named(FromConversation(v).value) && TimeOf(FromConversation(v).value.updated).Ok?
  {
    FromConversationParts(v);
  }

  lemma {:induction false} InsertedValid(es: Entries, vs: seq<Conversation>)
    requires ValidEntries(es) && InsertAll(es, vs).Some?
    ensures ValidEntries(InsertAll(es, vs).value)
  {
    if vs != [] {
      InsertedValid(es, vs[..|vs| - 1]);
      FromConversationNamed(vs[|vs| - 1]);
      hide Named, TimeOf, FromConversation, Key;
    }
  }

  lemma TrimmedValid(es: Entries, limit: nat)
    requires ValidEntries(es)
    ensures ValidEntries(Trimmed(es, limit))
  {
    hide Named, TimeOf, Key, Ahead;
  }

  function TrimIfOver(es: Entries, limit: nat): Entries
    requires ValidEntries(es)
  {
    if |es| > limit then Trimmed(es, limit) else es
  }

  /** The entries a successful refresh stages, or none if a conversation cannot be cached. */
  function StagedEntries(s: IndexState, desired: set<SourceId>, f: Found): Option<Entries>
    requires ValidEntries(s.entries)
  {
    RetainedValid(s.entries, desired, f.purged);
    RemovedFewer(Retained(s.entries, desired, f.purged), f.removals);
    var removed := RemoveAll(Retained(s.entries, desired, f.purged), f.removals);
    match InsertAll(removed, f.conversations)
    case None => None
    case Some(inserted) =>
      InsertedValid(removed, f.conversations);
      Some(TrimIfOver(inserted, s.maxEntries))
  }

  /** The watermarks' sources, each once, in byte order. */
  ghost predicate InIdOrder(order: seq<SourceId>, w: Watermarks) {
    && (forall id :: id in order <==> id in w)
    && Distinct(order) && Sorted(NameLess, order)
  }

  /** What a published refresh makes of the index. */
  function NextState(s: IndexState, desired: set<SourceId>, f: Found, order: seq<SourceId>): Option<IndexState>
    requires ValidEntries(s.entries) && forall id :: id in order ==> id in f.watermarks
  {
    match StagedEntries(s, desired, f)
    case None => None
    case Some(es) =>
      var b := BoundMarks(f.watermarks, order);
      Some(IndexState(s.generation + 1, b.kept, es, Loaded, f.more && !b.dropped, s.maxEntries))
  }

  // ---------------------------------------------------------------- trimming

  datatype Stamp = Stamp(updated: Time, key: string)

  predicate StampBefore(a: Stamp, b: Stamp) {
    a.updated > b.updated || (a.updated == b.updated && NameLess(a.key, b.key))
  }

  lemma StampsRank()
    ensures Ranks(StampBefore)
  {
    forall a, b, c
      ensures StampBefore(a, b) ==> !StampBefore(b, a)
      ensures StampBefore(a, b) && !StampBefore(c, b) ==> StampBefore(a, c)
    {
      NameTotal(a.key, b.key);
      NameTotal(b.key, c.key);
      if NameLess(a.key, b.key) && NameLess(b.key, c.key) { NameTransitive(a.key, b.key, c.key); }
    }
  }

  lemma NewerTotal(es: Entries, a: string, b: string)
    requires ValidEntries(es) && a in es && b in es
    ensures a != b ==> (Newer(es, a, b) <==> !Newer(es, b, a))
    ensures a == b ==> !Newer(es, a, b)
  {
    NameTotal(a, b);
  }

  lemma NewerTransitive(es: Entries, a: string, b: string, c: string)
    requires ValidEntries(es) && a in es && b in es && c in es
    requires Newer(es, a, b) && Newer(es, b, c)
    ensures Newer(es, a, c)
  {
    if NameLess(a, b) && NameLess(b, c) { NameTransitive(a, b, c); }
  }

  lemma SubsetSize<T>(a: set<T>, b: set<T>)
    requires a <= b
    ensures |a| <= |b|
  {
    assert b == a + (b - a);
  }

  /** No entry cut is newer than one kept. */
  lemma CutIsOlder(es: Entries, limit: nat, kept: string, cut: string)
    requires ValidEntries(es) && kept in Trimmed(es, limit) && cut in es && cut !in Trimmed(es, limit)
    ensures Newer(es, kept, cut) && UpdatedOf(es[kept]) >= UpdatedOf(es[cut])
  {
    NewerTotal(es, kept, cut);
    if Newer(es, cut, kept) {
      forall j | j in Ahead(es, cut) ensures j in Ahead(es, kept) { NewerTransitive(es, j, cut, kept); }
      SubsetSize(Ahead(es, cut), Ahead(es, kept));
    }
  }

  function KeySet(s: seq<Stamp>): set<string> {
    set i | 0 <= i < |s| :: s[i].key
  }

  function StampOf(es: Entries, k: string): Stamp
    requires ValidEntries(es) && k in es
  {
    Stamp(UpdatedOf(es[k]), k)
  }

  predicate IsStamp(es: Entries, x: Stamp)
    requires ValidEntries(es)
  {
    x.key in es && x == StampOf(es, x.key)
  }

  /** Each entry's stamp, once. */
  predicate StampsOf(es: Entries, s: seq<Stamp>)
    requires ValidEntries(es)
  {
    && Distinct(s)
    && (forall x :: x in s ==> IsStamp(es, x))
    && (forall k :: k in es ==> StampOf(es, k) in s)
  }

  /** The stamps of the entries, newest first. */
  ghost predicate StampOrder(es: Entries, s: seq<Stamp>)
    requires ValidEntries(es)
  {
    StampsOf(es, s) && Sorted(StampBefore, s)
  }

  lemma {:induction false} KeySetSize(s: seq<Stamp>)
    requires forall i, j :: 0 <= i < j < |s| ==> s[i].key != s[j].key
    ensures |KeySet(s)| == |s|
  {
    if s != [] {
      var n := |s| - 1;
      KeySetSize(s[..n]);
      assert forall i :: 0 <= i < n ==> s[..n][i] == s[i];
      assert KeySet(s) == KeySet(s[..n]) + {s[n].key};
    }
  }

  lemma AheadIsEarlier(es: Entries, s: seq<Stamp>, i: nat, k: string)
    requires ValidEntries(es) && StampOrder(es, s) && i < |s| && s[i].key in es && k in Ahead(es, s[i].key)
    ensures k in KeySet(s[..i])
  {
    var j :| 0 <= j < |s| && s[j] == StampOf(es, k);
    assert IsStamp(es, s[i]);
    assert StampBefore(s[j], s[i]) && s[j].key == k;
    hide ValidEntries, Ahead, StampsOf, UpdatedOf, NameLess;
    if j == i { NameTotal(k, k); }
    hide StampBefore;
    assert j < i && s[..i][j] == s[j];
  }

  lemma EarlierIsAhead(es: Entries, s: seq<Stamp>, i: nat, j: nat)
    requires ValidEntries(es) && StampOrder(es, s) && j < i < |s| && s[i].key in es
    ensures s[j].key in Ahead(es, s[i].key)
  {
    assert IsStamp(es, s[i]) && IsStamp(es, s[j]);
    NameTotal(s[j].key, s[i].key);
    assert s[j] != s[i] && !StampBefore(s[i], s[j]);
  }

  lemma RankAt(es: Entries, s: seq<Stamp>, i: nat, k: string)
    requires ValidEntries(es) && StampOrder(es, s) && i < |s| && s[i].key in es
    ensures k in Ahead(es, s[i].key) <==> k in KeySet(s[..i])
  {
    if k in KeySet(s[..i]) {
      var j :| 0 <= j < |s[..i]| && s[..i][j].key == k;
      hide Ahead;
      EarlierIsAhead(es, s, i, j);
    } else if k in Ahead(es, s[i].key) {
      hide KeySet;
      AheadIsEarlier(es, s, i, k);
    }
  }

  /** Exactly the stamps before it are ahead of an entry. */
  lemma RankIs(es: Entries, s: seq<Stamp>, i: nat)
    requires ValidEntries(es) && StampOrder(es, s) && i < |s|
    ensures s[i].key in es && |Ahead(es, s[i].key)| == i
  {
    StampKeys(es, s);
    PrefixKeys(s, i);
    assert IsStamp(es, s[i]);
    hide KeySet, StampBefore, UpdatedOf, Ahead, StampOrder, StampsOf, ValidEntries;
    forall k ensures k in Ahead(es, s[i].key) <==> k in KeySet(s[..i]) {
      RankAt(es, s, i, k);
    }
    assert Ahead(es, s[i].key) == KeySet(s[..i]);
  }

  lemma StampKeys(es: Entries, s: seq<Stamp>)
    requires ValidEntries(es) && StampOrder(es, s)
    ensures forall i, j :: 0 <= i < j < |s| ==> s[i].key != s[j].key
    ensures KeySet(s) == es.Keys && |s| == |es|
  {
    hide ValidEntries, UpdatedOf, StampBefore;
    forall j, k | 0 <= j < k < |s| ensures s[j].key != s[k].key {
      assert IsStamp(es, s[j]) && IsStamp(es, s[k]);
    }
    KeySetSize(s);
    forall k | k in es ensures k in KeySet(s) {
      var i :| 0 <= i < |s| && s[i] == StampOf(es, k);
    }
    forall k | k in KeySet(s) ensures k in es {
      var i :| 0 <= i < |s| && s[i].key == k;
      assert IsStamp(es, s[i]);
    }
    assert |es.Keys| == |es|;
  }

  lemma KeyPrefix(s: seq<Stamp>, m: nat, i: nat)
    requires m <= |s| && i < |s| && forall i, j :: 0 <= i < j < |s| ==> s[i].key != s[j].key
    ensures s[i].key in KeySet(s[..m]) <==> i < m
  {
    if i < m { assert s[..m][i].key == s[i].key; }
    if s[i].key in KeySet(s[..m]) {
      var j :| 0 <= j < m && s[..m][j].key == s[i].key;
      assert s[j].key == s[i].key;
    }
  }

  /** An entry is kept exactly if its stamp is among the first ones. */
  lemma KeptIs(es: Entries, s: seq<Stamp>, limit: nat, m: nat, k: string)
    requires ValidEntries(es) && StampOrder(es, s) && k in es
    requires m == if |s| <= limit then |s| else limit
    ensures k in Trimmed(es, limit) <==> k in KeySet(s[..m])
  {
    StampKeys(es, s);
    var i :| 0 <= i < |s| && s[i].key == k;
    RankIs(es, s, i);
    KeyPrefix(s, m, i);
    hide Ahead, StampOrder, ValidEntries, KeySet;
  }

  lemma PrefixKeys(s: seq<Stamp>, m: nat)
    requires m <= |s| && forall i, j :: 0 <= i < j < |s| ==> s[i].key != s[j].key
    ensures |KeySet(s[..m])| == m && KeySet(s[..m]) <= KeySet(s)
  {
    KeySetSize(s[..m]);
    assert forall i :: 0 <= i < m ==> s[..m][i] == s[i];
  }

  lemma TrimmedFewer(es: Entries, limit: nat)
    requires ValidEntries(es)
    ensures Trimmed(es, limit).Keys <= es.Keys
    ensures forall k :: k in Trimmed(es, limit) ==> Trimmed(es, limit)[k] == es[k]
  {
  }

  lemma FirstStamps(es: Entries, s: seq<Stamp>, limit: nat, m: nat)
    requires ValidEntries(es) && StampOrder(es, s)
    requires m == if |s| <= limit then |s| else limit
    ensures Trimmed(es, limit).Keys == KeySet(s[..m]) && |Trimmed(es, limit)| == m
  {
    hide *;
    StampKeys(es, s);
    PrefixKeys(s, m);
    TrimmedFewer(es, limit);
    forall k | k in es ensures k in Trimmed(es, limit) <==> k in KeySet(s[..m]) {
      KeptIs(es, s, limit, m, k);
    }
    assert Trimmed(es, limit).Keys == KeySet(s[..m]);
    assert |Trimmed(es, limit).Keys| == |Trimmed(es, limit)|;
  }

  lemma {:induction false} Listing<T>(s: set<T>) returns (r: seq<T>)
    ensures Distinct(r) && forall x :: x in r <==> x in s
  {
    r := [];
    if s != {} {
      var x :| x in s;
      var rest := Listing(s - {x});
      r := [x] + rest;
    }
  }

  lemma SortedStamps(es: Entries, r: seq<Stamp>)
    requires ValidEntries(es) && StampsOf(es, r)
    ensures StampOrder(es, SortBy(StampBefore, r))
  {
    StampsRank();
    SortedMembers(StampBefore, r);
    SortedPermutation(StampBefore, r);
    hide SortBy, StampBefore, IsStamp, StampOf, ValidEntries;
  }

  lemma OrderExists(es: Entries) returns (s: seq<Stamp>)
    requires ValidEntries(es)
    ensures StampOrder(es, s)
  {
    hide UpdatedOf;
    var r := Listing(set k | k in es :: StampOf(es, k));
    SortedStamps(es, r);
    s := SortBy(StampBefore, r);
  }

  /** Trimming keeps as many entries as the limit allows, unchanged, and cuts none that is newer than
      one it keeps. */
  lemma TrimMeaning(es: Entries, limit: nat)
    requires ValidEntries(es)
    ensures var kept := Trimmed(es, limit);
            && |kept| == (if |es| <= limit then |es| else limit)
            && (forall k :: k in kept ==> k in es && kept[k] == es[k])
            && (forall k, c :: k in kept && c in es && c !in kept ==> UpdatedOf(es[k]) >= UpdatedOf(es[c]))
  {
    var s := OrderExists(es);
    StampKeys(es, s);
    FirstStamps(es, s, limit, if |s| <= limit then |s| else limit);
    forall k, c | k in Trimmed(es, limit) && c in es && c !in Trimmed(es, limit)
      ensures UpdatedOf(es[k]) >= UpdatedOf(es[c])
    {
      CutIsOlder(es, limit, k, c);
    }
  }

  method StampEntries(es: Entries) returns (ordered: seq<Stamp>)
    requires ValidEntries(es)
    ensures StampOrder(es, ordered)
  {
    var keys := Enumerate(es.Keys);
    ordered := [];
    hide Named, TimeOf, UpdatedOf;
    for i := 0 to |keys|
      invariant |ordered| == i
      invariant forall j :: 0 <= j < i ==> ordered[j] == StampOf(es, keys[j])
    {
      assert keys[i] in es;
      ordered := ordered + [StampOf(es, keys[i])];
    }
    forall k | k in es ensures StampOf(es, k) in ordered {
      var j :| 0 <= j < |keys| && keys[j] == k;
      assert ordered[j] == StampOf(es, k);
    }
    SortedStamps(es, ordered);
    ordered := SortBy(StampBefore, ordered);
  }

  lemma KeepFirst(es: Entries, s: seq<Stamp>, limit: nat, m: nat)
    requires ValidEntries(es) && StampOrder(es, s)
    requires m == if |s| <= limit then |s| else limit
    ensures (map k | k in es && k in KeySet(s[..m]) :: es[k]) == Trimmed(es, limit)
  {
    hide *;
    FirstStamps(es, s, limit, m);
    TrimmedFewer(es, limit);
    var r := map k | k in es && k in KeySet(s[..m]) :: es[k];
    assert r.Keys == Trimmed(es, limit).Keys;
  }

  method TrimOldest(es: Entries, limit: nat) returns (r: Entries)
    requires ValidEntries(es)
    ensures r == Trimmed(es, limit)
  {
    hide *;
    var ordered := StampEntries(es);
    var m := if |ordered| <= limit then |ordered| else limit;
    KeepFirst(es, ordered, limit, m);
    var keep := KeySet(ordered[..m]);
    r := map k | k in es && k in keep :: es[k];
  }

  // ---------------------------------------------------------------- the index object

  datatype PublishAnswer = Published | NotPublished | PublishFailed

  datatype RefreshResult = Refreshed(added: nat, more: bool) | WasCancelled | RefreshFailed

  method DropPurged(es: Entries, desired: set<SourceId>, purged: set<SourceId>, interrupted: nat -> bool, from: nat)
    returns (r: Entries, polls: nat, stopped: bool)
    ensures !stopped ==> r == Retained(es, desired, purged)
    ensures stopped ==> exists k: nat :: interrupted(k)
  {
    r, polls, stopped := map k | k in es && es[k].source in desired :: es[k], from, false;
    var ids := Enumerate(purged);
    for i := 0 to |ids|
      invariant r == map k | k in es && es[k].source in desired && es[k].source !in ids[..i] :: es[k]
    {
      if interrupted(polls) { stopped := true; return; }
      polls := polls + 1;
      assert ids[..i + 1] == ids[..i] + [ids[i]];
      r := map k | k in r && r[k].source != ids[i] :: r[k];
    }
    assert ids[..|ids|] == ids;
  }

  method ApplyRemovals(es: Entries, rs: seq<Removal>, interrupted: nat -> bool, from: nat)
    returns (r: Entries, polls: nat, stopped: bool)
    ensures !stopped ==> r == RemoveAll(es, rs)
    ensures stopped ==> exists k: nat :: interrupted(k)
  {
    r, polls, stopped := es, from, false;
    for i := 0 to |rs|
      invariant r == RemoveAll(es, rs[..i])
    {
      if interrupted(polls) { stopped := true; return; }
      polls := polls + 1;
      assert rs[..i + 1][..i] == rs[..i];
      var key := KeyFor(rs[i].source, rs[i].session.namespace, rs[i].session.id);
      if key in r && r[key].source == rs[i].source {
        r := r - {key};
      }
    }
    assert rs[..|rs|] == rs;
  }

  lemma {:induction false} InsertFailsOn(es: Entries, vs: seq<Conversation>, i: nat)
    requires i < |vs| && InsertAll(es, vs[..i + 1]).None?
    ensures InsertAll(es, vs).None?
    decreases |vs|
  {
    if i + 1 == |vs| {
      assert vs[..i + 1] == vs;
    } else {
      assert vs[..|vs| - 1][..i + 1] == vs[..i + 1];
      InsertFailsOn(es, vs[..|vs| - 1], i);
    }
  }

  lemma InsertStep(es: Entries, key: string, c: Cached)
    ensures es[key := c] == es <==> key in es && es[key] == c
  {
  }

  /** How many insertions changed something. */
  function Added(es: Entries, vs: seq<Conversation>): nat {
    if vs == [] then 0
    else
      Added(es, vs[..|vs| - 1]) + (if InsertAll(es, vs) != InsertAll(es, vs[..|vs| - 1]) then 1 else 0)
  }

  method InsertConversations(es: Entries, vs: seq<Conversation>, interrupted: nat -> bool, from: nat)
    returns (r: Option<Entries>, added: nat, polls: nat, stopped: bool)
    ensures !stopped ==> r == InsertAll(es, vs)
    ensures stopped ==> exists k: nat :: interrupted(k)
    ensures !stopped && r.Some? ==> added == Added(es, vs)
  {
    hide FromConversation, Key;
    var inserted := es;
    added, polls, stopped := 0, from, false;
    for i := 0 to |vs|
      invariant Some(inserted) == InsertAll(es, vs[..i])
      invariant added == Added(es, vs[..i])
    {
      if interrupted(polls) { r, stopped := None, true; return; }
      polls := polls + 1;
      assert vs[..i + 1][..i] == vs[..i];
      var cached := FromConversation(vs[i]);
      if cached.None? {
        InsertFailsOn(es, vs, i);
        r := None;
        return;
      }
      var key := Key(cached.value);
      InsertStep(inserted, key, cached.value);
      if key !in inserted || inserted[key] != cached.value {
        inserted, added := inserted[key := cached.value], added + 1;
      }
    }
    assert vs[..|vs|] == vs;
    r := Some(inserted);
  }

  method OrderIds(w: Watermarks) returns (order: seq<SourceId>)
    ensures InIdOrder(order, w) && forall id :: id in order ==> id in w
  {
    var ids := Enumerate(w.Keys);
    NamesRank();
    SortedMembers(NameLess, ids);
    SortedPermutation(NameLess, ids);
    order := SortBy(NameLess, ids);
  }

  method BoundWatermarks(w: Watermarks, order: seq<SourceId>) returns (kept: Watermarks, dropped: bool)
    requires forall id :: id in order ==> id in w
    ensures (kept, dropped) == (BoundMarks(w, order).kept, BoundMarks(w, order).dropped)
  {
    var used: nat := 0;
    kept, dropped := map[], false;
    for i := 0 to |order|
      invariant Budget(kept, used, dropped) == BoundMarks(w, order[..i])
    {
      assert order[..i + 1][..i] == order[..i];
      var token := w[order[i]];
      var next := used + |token|;
      if |token| > MAX_WATERMARK_BYTES || next > MAX_TOTAL_WATERMARK_BYTES {
        dropped := true;
        continue;
      }
      used, kept := next, kept[order[i] := token];
    }
    assert order[..|order|] == order;
  }

  class ConversationIndex {
    var generation: nat
    var watermarks: Watermarks
    var entries: Entries
    var status: IndexStatus
    var scanHasMore: bool
    var maxEntries: nat

    function State(): IndexState
      reads this
    {
      IndexState(generation, watermarks, entries, status, scanHasMore, maxEntries)
    }

    constructor (s: IndexState)
      ensures State() == s
    {
      generation, watermarks, entries := s.generation, s.watermarks, s.entries;
      status, scanHasMore, maxEntries := s.status, s.scanHasMore, s.maxEntries;
    }

    /** Stages the next entries, unless cancelled or a conversation cannot be cached. */
    method StageEntries(desired: set<SourceId>, f: Found, interrupted: nat -> bool)
      returns (r: Option<Entries>, added: nat, stopped: bool, polls: nat)
      requires ValidEntries(entries)
      ensures !stopped ==> r == StagedEntries(State(), desired, f)
      ensures stopped ==> exists k: nat :: interrupted(k)
      ensures !stopped && r.Some? ==>
                added == Added(RemoveAll(Retained(entries, desired, f.purged), f.removals), f.conversations)
    {
      added := 0;
      var staged: Entries;
      staged, polls, stopped := DropPurged(entries, desired, f.purged, interrupted, 0);
      if stopped { r := None; return; }
      RetainedValid(entries, desired, f.purged);
      RemovedFewer(staged, f.removals);
      staged, polls, stopped := ApplyRemovals(staged, f.removals, interrupted, polls);
      if stopped { r := None; return; }
      ghost var removed := staged;
      r, added, polls, stopped := InsertConversations(staged, f.conversations, interrupted, polls);
      if stopped || r.None? { return; }
      InsertedValid(removed, f.conversations);
      if |r.value| > maxEntries {
        var kept := TrimOldest(r.value, maxEntries);
        r := Some(kept);
      }
    }

    /** One refresh: everything is staged aside and installed only once it is published. */
    method RefreshPage(registry: Registry, cancelled: nat -> bool, interrupted: nat -> bool, publish: PublishAnswer)
      returns (result: RefreshResult, ghost f: Found, ghost vs: seq<Visit>, ghost order: seq<SourceId>)
      requires ValidRegistry(registry) && ValidEntries(entries)
      modifies this
      ensures AllWent(registry, old(watermarks), vs) && InIdOrder(order, f.watermarks)
      ensures f == Gathered(registry, old(watermarks), vs).(conversations := f.conversations)
      ensures multiset(f.conversations) == multiset(AllFound(vs)) && Sorted(Before, f.conversations)
      ensures result.Refreshed? ==>
                && publish == Published
                && Some(State()) == NextState(old(State()), registry.desired, f, order)
                && result.more == scanHasMore
                && result.added == Added(RemoveAll(Retained(old(entries), registry.desired, f.purged), f.removals),
                                         f.conversations)
      ensures !result.Refreshed? ==> State() == old(State())
      ensures (forall k :: !cancelled(k) && !interrupted(k)) ==>
                (result.Refreshed?
                 <==> publish == Published && NextState(old(State()), registry.desired, f, order).Some?)
    {
      hide AllWent, Gathered, ValidRegistry, ValidEntries, InIdOrder, BoundMarks, StagedEntries, Sorted, AllFound;
      var found;
      found, vs := Discover(registry, watermarks, cancelled);
      f := found;
      var ids := OrderIds(found.watermarks);
      order := ids;
      if interrupted(0) {
        return WasCancelled, f, vs, order;
      }
      var staged, added, stopped, polls := StageEntries(registry.desired, found, interrupted);
      if stopped {
        return WasCancelled, f, vs, order;
      }
      if staged.None? {
        return RefreshFailed, f, vs, order;
      }
      var kept, dropped := BoundWatermarks(found.watermarks, ids);
      if interrupted(polls) {
        return WasCancelled, f, vs, order;
      }
      match publish
      case NotPublished => result := WasCancelled;
      case PublishFailed => result := RefreshFailed;
      case Published =>
        generation, watermarks, entries := generation + 1, kept, staged.value;
        status, scanHasMore := Loaded, found.more && !dropped;
        result := Refreshed(added, scanHasMore);
    }
  }
}
