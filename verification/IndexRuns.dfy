/** What every run of refreshes, failures, cancellations and reopenings keeps in the index. */
module IndexRuns {
  import opened Wrappers
  import opened Paths
  import opened Sorting
  import opened Conversations
  import opened Discovery
  import opened Index

  /** A record as it was emitted, and in which refresh. */
  datatype Emission = Emission(record: Cached, round: nat)

  /** The past of an index: the refreshes so far; what each source with a watermark emitted behind it;
      the last insertion under each key; the keys removed by their source or trimmed since their last
      insertion; and everything refreshes found. */
  datatype History = History(
    round: nat, behind: map<SourceId, set<Emission>>, last: map<string, Emission>, excused: set<string>,
    found: set<Emission>)

  // ---------------------------------------------------------------- insertion

  function KeysOf(vs: seq<Conversation>): set<string> {
    set v | v in vs && FromConversation(v).Some? :: Key(FromConversation(v).value)
  }

  lemma {:induction false} InsertedMeaning(es: Entries, vs: seq<Conversation>)
    requires InsertAll(es, vs).Some?
    ensures var r := InsertAll(es, vs).value;
            && r.Keys == es.Keys + KeysOf(vs)
            && (forall k :: k in es && k !in KeysOf(vs) ==> r[k] == es[k])
    ensures forall v :: v in vs ==> FromConversation(v).Some?
  {
    hide FromConversation, Key;
    if vs != [] {
      var n := |vs| - 1;
      InsertedMeaning(es, vs[..n]);
      assert vs == vs[..n] + [vs[n]];
      assert KeysOf(vs) == KeysOf(vs[..n]) + {Key(FromConversation(vs[n]).value)};
    }
  }

  predicate HasKey(v: Conversation, k: string) {
    FromConversation(v).Some? && Key(FromConversation(v).value) == k
  }

  /** Conversations come newest first and later ones overwrite: of several with one key, the oldest stays. */
  lemma OldestStays(es: Entries, vs: seq<Conversation>, k: string, v: Conversation)
    requires InsertAll(es, vs).Some? && Sorted(Before, vs) && v in vs && HasKey(v, k)
    ensures k in InsertAll(es, vs).value
    ensures exists w :: w in vs && HasKey(w, k) && w.updated <= v.updated
                        && InsertAll(es, vs).value[k] == FromConversation(w).value
  {
    InsertedMeaning(es, vs);
    InsertedIs(es, vs, k, InsertAll(es, vs).value[k]);
    hide FromConversation, Key, InsertAll, Before, Sorted, KeysOf;
    assert k in KeysOf(vs) by { KeyIn(vs, v, k); }
    var i :| && 0 <= i < |vs| && HasKey(vs[i], k) && InsertAll(es, vs).value[k] == FromConversation(vs[i]).value
             && forall j :: i < j < |vs| ==> !HasKey(vs[j], k);
    var j :| 0 <= j < |vs| && vs[j] == v;
    LaterIsOlder(vs, j, i);
  }

  lemma KeyIn(vs: seq<Conversation>, v: Conversation, k: string)
    requires (forall w :: w in vs ==> FromConversation(w).Some?) && v in vs && HasKey(v, k)
    ensures k in KeysOf(vs)
  {
    hide FromConversation, Key;
  }

  lemma LaterIsOlder(vs: seq<Conversation>, j: nat, i: nat)
    requires Sorted(Before, vs) && j <= i < |vs|
    ensures vs[i].updated <= vs[j].updated
  {
    assert j < i ==> !Before(vs[i], vs[j]);
  }

  /** A refresh caches the newest copy it found under a key exactly when all copies it found there are
      equally new. */
  lemma NewestStaysIff(es: Entries, vs: seq<Conversation>, k: string)
    requires InsertAll(es, vs).Some? && Sorted(Before, vs) && exists v :: v in vs && HasKey(v, k)
    ensures k in InsertAll(es, vs).value && TimeOf(InsertAll(es, vs).value[k].updated).Ok?
    ensures (forall v :: v in vs && HasKey(v, k) ==> v.updated <= UpdatedOf(InsertAll(es, vs).value[k]))
            <==> (forall v, w :: v in vs && w in vs && HasKey(v, k) && HasKey(w, k) ==> v.updated == w.updated)
  {
    var first :| first in vs && HasKey(first, k);
    OldestStays(es, vs, k, first);
    var kept :| kept in vs && HasKey(kept, k) && InsertAll(es, vs).value[k] == FromConversation(kept).value;
    FromConversationParts(kept);
    hide FromConversation, Key, InsertAll, TimeOf;
    forall v | v in vs && HasKey(v, k) ensures kept.updated <= v.updated {
      OldestStays(es, vs, k, v);
      var w :| w in vs && HasKey(w, k) && w.updated <= v.updated
          && InsertAll(es, vs).value[k] == FromConversation(w).value;
      FromConversationParts(w);
    }
  }

  /** Found twice in one refresh, a session is cached by its older copy. */
  lemma OlderCopyExample(v: Conversation)
    requires FromConversation(v).Some? && v.updated > -TIME_LIMIT
    ensures var older := v.(updated := v.updated - 1);
            && Sorted(Before, [v, older])
            && FromConversation(older).Some?
            && InsertAll(map[], [v, older])
                == Some(map[Key(FromConversation(older).value) := FromConversation(older).value])
            && UpdatedOf(InsertAll(map[], [v, older]).value[Key(FromConversation(older).value)]) < v.updated
  {
    var older := v.(updated := v.updated - 1);
    FromConversationParts(v);
    FromConversationParts(older);
    var vs := [v, older];
    assert vs[..|vs| - 1] == [v] && vs[|vs| - 1] == older && [v][..0] == [];
    assert InsertAll(map[], []) == Some(map[]);
    assert InsertAll(map[], [v]) == Some(map[Key(FromConversation(v).value) := FromConversation(v).value]);
    BeforeTransitive(v, older, v);
    assert Key(FromConversation(v).value) == Key(FromConversation(older).value);
    var k := Key(FromConversation(v).value);
    hide FromConversation, Key;
    var newer, late := FromConversation(v).value, FromConversation(older).value;
    assert InsertAll(map[], vs) == Some(map[k := newer][k := late]);
    assert map[k := newer][k := late] == map[k := late];
  }

  // ---------------------------------------------------------------- one refresh

  /** How the visit of a source went, if it was visited. */
  function VisitFor(r: Registry, vs: seq<Visit>, id: SourceId): Visit
  {
    if vs == [] then Nothing
    else if |vs| <= |r.sources| && r.sources[|vs| - 1].id == id then vs[|vs| - 1]
    else VisitFor(r, vs[..|vs| - 1], id)
  }

  function Records(found: seq<Conversation>): set<Cached> {
    set v | v in found && FromConversation(v).Some? :: FromConversation(v).value
  }

  function Emitted(found: seq<Conversation>, round: nat): set<Emission> {
    set c | c in Records(found) :: Emission(c, round)
  }

  function BehindOf(h: History, id: SourceId): set<Emission> {
    if id in h.behind then h.behind[id] else {}
  }

  /** What lies behind a source's watermark after a refresh: a whole page adds what it found, and
      starts afresh where there was no watermark. */
  function Behind(h: History, w: Watermarks, id: SourceId, v: Visit): set<Emission> {
    if v.Page? && v.whole then
      (if id in w then BehindOf(h, id) else {}) + Emitted(v.found, h.round + 1)
    else BehindOf(h, id)
  }

  function RemovedKeys(f: Found): set<string> {
    set r | r in f.removals :: KeyFor(r.source, r.session.namespace, r.session.id)
  }

  function Cleared(s: IndexState, desired: set<SourceId>, f: Found): Entries {
    RemoveAll(Retained(s.entries, desired, f.purged), f.removals)
  }

  function Filled(s: IndexState, desired: set<SourceId>, f: Found): Option<Entries> {
    InsertAll(Cleared(s, desired, f), f.conversations)
  }

  /** The last insertions after a refresh: its own over the earlier ones. */
  function LastAfter(h: History, filled: Entries, keys: set<string>): map<string, Emission> {
    h.last + map k | k in keys && k in filled :: Emission(filled[k], h.round + 1)
  }

  /** The history after a published refresh. */
  function Recorded(h: History, s: IndexState, t: IndexState, r: Registry, vs: seq<Visit>, f: Found): History
  {
    var filled := match Filled(s, r.desired, f) case Some(es) => es case None => map[];
    History(h.round + 1,
            map id | id in t.watermarks :: Behind(h, s.watermarks, id, VisitFor(r, vs, id)),
            LastAfter(h, filled, KeysOf(f.conversations)),
            (h.excused + RemovedKeys(f) + filled.Keys) - t.entries.Keys,
            h.found + Emitted(f.conversations, h.round + 1))
  }

  /** What the index and its history say about one key. */
  datatype Slot = Slot(cached: Option<Cached>, last: Option<Emission>, excused: bool)

  function SlotOf(s: IndexState, h: History, k: string): Slot {
    Slot(if k in s.entries then Some(s.entries[k]) else None, if k in h.last then Some(h.last[k])
        else None, k in h.excused)
  }

  /** A cached record is the last insertion; an excused key is not cached. */
  predicate SlotOk(a: Slot, round: nat) {
    && (a.cached.Some? ==> a.last.Some? && a.last.value.record == a.cached.value && a.last.value.round <= round)
    && (a.excused ==> a.cached.None?)
  }

  predicate NotNewer(a: Cached, b: Cached) {
    TimeOf(a.updated).Ok? && TimeOf(b.updated).Ok? && UpdatedOf(a) <= UpdatedOf(b)
  }

  /** The key of an emission was removed or trimmed since its last insertion, or the cache holds what a
      later refresh inserted under it, or what the same refresh found there, not newer than the emission. */
  predicate Accounted(a: Slot, e: Emission) {
    || a.excused
    || (&& a.cached.Some? && a.last.Some? && a.last.value.round >= e.round
        && (a.last.value.round == e.round ==> NotNewer(a.last.value.record, e.record)))
  }

  /** The last insertion under a key was found, under that key. */
  predicate Traced(h: History, k: string) {
    k in h.last ==> h.last[k] in h.found && Key(h.last[k].record) == k
  }

  /** Cached entries are their last insertions, excused keys are not cached, and everything behind a
      stored watermark is accounted for. */
  ghost predicate HistoryOk(s: IndexState, h: History) {
    && ValidEntries(s.entries)
    && (forall k :: SlotOk(SlotOf(s, h, k), h.round) && Traced(h, k))
    && (forall id, e :: id in s.watermarks && e in BehindOf(h, id) ==>
          && e.record.source == id && Named(e.record) && e.round <= h.round
          && Accounted(SlotOf(s, h, Key(e.record)), e))
  }

  // ---------------------------------------------------------------- a refresh keeps the history straight

  lemma {:induction false} BudgetKeeps(w: Watermarks, order: seq<SourceId>)
    requires forall id :: id in order ==> id in w
    ensures var b := BoundMarks(w, order);
            && (forall id :: id in b.kept ==> id in w && b.kept[id] == w[id] && |w[id]| <= MAX_WATERMARK_BYTES)
            && b.used <= MAX_TOTAL_WATERMARK_BYTES
            && (!b.dropped ==> forall id :: id in order ==> id in b.kept)
  {
    if order != [] { BudgetKeeps(w, order[..|order| - 1]); }
  }

  /** The bytes of the kept watermarks among some sources. */
  ghost function Spent(w: Watermarks, kept: set<SourceId>, order: seq<SourceId>): nat
    requires forall id :: id in order ==> id in w
  {
    if order == [] then 0
    else
      var n := |order| - 1;
      Spent(w, kept, order[..n]) + (if order[n] in kept then |w[order[n]]| else 0)
  }

  lemma {:induction false} SpentSame(w: Watermarks, a: set<SourceId>, b: set<SourceId>, order: seq<SourceId>)
    requires forall id :: id in order ==> id in w && (id in a <==> id in b)
    ensures Spent(w, a, order) == Spent(w, b, order)
  {
    if order != [] { SpentSame(w, a, b, order[..|order| - 1]); }
  }

  /** A watermark fits: it is short enough, alone and with the kept ones before it. */
  ghost predicate FitsAt(w: Watermarks, kept: set<SourceId>, order: seq<SourceId>, i: nat)
    requires i < |order| && forall id :: id in order ==> id in w
  {
    && |w[order[i]]| <= 4 * 1024 * 1024
    && Spent(w, kept, order[..i]) + |w[order[i]]| <= 8 * 1024 * 1024
  }

  lemma {:induction false} BudgetOf(w: Watermarks, order: seq<SourceId>)
    requires forall id :: id in order ==> id in w
    ensures var b := BoundMarks(w, order);
            && (forall id :: id in b.kept ==> id in order && b.kept[id] == w[id])
            && (Distinct(order) ==> (b.dropped <==> exists id :: id in order && id !in b.kept))
  {
    if order != [] {
      var n := |order| - 1;
      BudgetOf(w, order[..n]);
      assert order == order[..n] + [order[n]];
    }
  }

  lemma {:induction false} BudgetSpent(w: Watermarks, order: seq<SourceId>)
    requires Distinct(order) && forall id :: id in order ==> id in w
    ensures BoundMarks(w, order).used == Spent(w, BoundMarks(w, order).kept.Keys, order)
  {
    if order != [] {
      var n := |order| - 1;
      BudgetSpent(w, order[..n]);
      BudgetOf(w, order[..n]);
      assert order[n] !in order[..n];
      SpentSame(w, BoundMarks(w, order[..n]).kept.Keys, BoundMarks(w, order).kept.Keys, order[..n]);
    }
  }

  /** What was kept of the first sources stays, and decides alone what fits among them. */
  lemma FitsSame(w: Watermarks, order: seq<SourceId>, i: nat)
    requires Distinct(order) && i + 1 < |order| && forall id :: id in order ==> id in w
    ensures var n := |order| - 1;
            var (before, after) := (BoundMarks(w, order[..n]).kept.Keys, BoundMarks(w, order).kept.Keys);
            && (order[i] in after <==> order[i] in before)
            && (FitsAt(w, after, order, i) <==> FitsAt(w, before, order[..n], i))
  {
    var n := |order| - 1;
    KeptLast(w, order);
    var before, after := BoundMarks(w, order[..n]).kept.Keys, BoundMarks(w, order).kept.Keys;
    assert order[..n][..i] == order[..i] && order[..n][i] == order[i];
    hide BoundMarks, Spent;
    forall id | id in order[..i] ensures id in w && (id in before <==> id in after) {
      var j :| 0 <= j < i && order[j] == id;
    }
    SpentSame(w, before, after, order[..i]);
  }

  lemma KeptLast(w: Watermarks, order: seq<SourceId>)
    requires order != [] && forall id :: id in order ==> id in w
    ensures var n := |order| - 1;
            var (before, after) := (BoundMarks(w, order[..n]).kept.Keys, BoundMarks(w, order).kept.Keys);
            after == before || after == before + {order[n]}
  {
  }

  /** Exactly the watermarks that fit behind the kept ones before them are kept, and one is missing exactly if
      one did not fit. */
  lemma {:induction false} BudgetMeaning(w: Watermarks, order: seq<SourceId>)
    requires Distinct(order) && forall id :: id in order ==> id in w
    ensures var b := BoundMarks(w, order);
            && (forall id :: id in b.kept ==> id in order && b.kept[id] == w[id])
            && (forall i :: 0 <= i < |order| ==> (order[i] in b.kept <==> FitsAt(w, b.kept.Keys, order, i)))
            && (b.dropped <==> exists id :: id in order && id !in b.kept)
  {
    BudgetOf(w, order);
    if order != [] {
      var n := |order| - 1;
      BudgetMeaning(w, order[..n]);
      forall i | 0 <= i < n ensures order[i] in BoundMarks(w, order).kept
          <==> FitsAt(w, BoundMarks(w, order).kept.Keys, order, i) {
        FitsSame(w, order, i);
        hide BoundMarks, FitsAt;
        assert order[..n][i] == order[i];
      }
      BudgetLast(w, order);
      hide BoundMarks, FitsAt;
    }
  }

  lemma BudgetLast(w: Watermarks, order: seq<SourceId>)
    requires Distinct(order) && order != [] && forall id :: id in order ==> id in w
    ensures var (kept, n) := (BoundMarks(w, order).kept, |order| - 1);
            order[n] in kept <==> FitsAt(w, kept.Keys, order, n)
  {
    var n := |order| - 1;
    BudgetSpent(w, order[..n]);
    BudgetOf(w, order[..n]);
    assert order[n] !in order[..n];
    SpentSame(w, BoundMarks(w, order[..n]).kept.Keys, BoundMarks(w, order).kept.Keys, order[..n]);
  }

  /** Besides its entries, a refresh leaves the next generation, the watermarks that fit in order of their
      sources, and more to come if discovery says so and every watermark fitted. */
  lemma RefreshedMarks(s: IndexState, desired: set<SourceId>, f: Found, order: seq<SourceId>)
    requires ValidEntries(s.entries) && InIdOrder(order, f.watermarks)
    requires NextState(s, desired, f, order).Some?
    ensures var t := NextState(s, desired, f, order).value;
            && t.generation == s.generation + 1 && t.status == Loaded && t.maxEntries == s.maxEntries
            && (forall id :: id in t.watermarks ==> id in f.watermarks && t.watermarks[id] == f.watermarks[id])
            && (forall i :: 0 <= i < |order| ==>
                  (order[i] in t.watermarks <==> FitsAt(f.watermarks, t.watermarks.Keys, order, i)))
            && (t.scanHasMore <==> f.more && forall id :: id in f.watermarks ==> id in t.watermarks)
  {
    BudgetMeaning(f.watermarks, order);
    hide BoundMarks, StagedEntries, ValidEntries, FitsAt;
  }

  lemma {:induction false} RemovedOnly(es: Entries, rs: seq<Removal>, k: string)
    requires k in es && k !in RemoveAll(es, rs)
    ensures exists r :: r in rs && KeyFor(r.source, r.session.namespace, r.session.id) == k
  {
    if rs != [] && k !in RemoveAll(es, rs[..|rs| - 1]) {
      RemovedOnly(es, rs[..|rs| - 1], k);
    }
  }

  lemma ClearedMeaning(s: IndexState, desired: set<SourceId>, f: Found)
    ensures var c := Cleared(s, desired, f);
            && (forall k :: k in c ==> k in s.entries && c[k] == s.entries[k])
            && (forall k :: k in s.entries && k !in c ==>
                  s.entries[k].source !in desired || s.entries[k].source in f.purged || k in RemovedKeys(f))
  {
    var kept := Retained(s.entries, desired, f.purged);
    RemovedFewer(kept, f.removals);
    forall k | k in s.entries && k !in Cleared(s, desired, f) && k in kept ensures k in RemovedKeys(f) {
      RemovedOnly(kept, f.removals, k);
    }
  }

  /** What a published refresh did, in one place. */
  ghost predicate Stepped(s: IndexState, t: IndexState, desired: set<SourceId>, f: Found) {
    && Filled(s, desired, f).Some?
    && (forall k :: k in t.entries ==>
          k in Filled(s, desired, f).value && t.entries[k] == Filled(s, desired, f).value[k])
    && (forall id :: id in t.watermarks ==> id in f.watermarks && t.watermarks[id] == f.watermarks[id])
    && ValidEntries(t.entries)
    && t.generation == s.generation + 1
  }

  lemma TrimmedSteps(filled: Entries, limit: nat)
    requires ValidEntries(filled)
    ensures var r := TrimIfOver(filled, limit);
            ValidEntries(r) && forall k :: k in r ==> k in filled && r[k] == filled[k]
  {
    TrimmedFewer(filled, limit);
    TrimmedValid(filled, limit);
    hide ValidEntries, Trimmed;
  }

  lemma StagedSteps(s: IndexState, desired: set<SourceId>, f: Found)
    requires ValidEntries(s.entries) && StagedEntries(s, desired, f).Some?
    ensures Filled(s, desired, f).Some? && ValidEntries(Filled(s, desired, f).value)
    ensures StagedEntries(s, desired, f).value == TrimIfOver(Filled(s, desired, f).value, s.maxEntries)
  {
    hide ValidEntries, TrimIfOver, Retained, RemoveAll, InsertAll;
    RetainedValid(s.entries, desired, f.purged);
    RemovedFewer(Retained(s.entries, desired, f.purged), f.removals);
    InsertedValid(Cleared(s, desired, f), f.conversations);
  }

  lemma NextStateSteps(s: IndexState, desired: set<SourceId>, f: Found, order: seq<SourceId>)
    requires ValidEntries(s.entries) && InIdOrder(order, f.watermarks)
    requires NextState(s, desired, f, order).Some?
    ensures Stepped(s, NextState(s, desired, f, order).value, desired, f)
  {
    BudgetKeeps(f.watermarks, order);
    hide ValidEntries, TrimIfOver, StagedEntries, Filled, BoundMarks, InIdOrder;
    StagedSteps(s, desired, f);
    TrimmedSteps(Filled(s, desired, f).value, s.maxEntries);
  }

  /** A published refresh is within the limit, and no entry it cut is newer than one it kept. */
  lemma RefreshWithinLimit(s: IndexState, desired: set<SourceId>, f: Found, order: seq<SourceId>)
    requires ValidEntries(s.entries) && InIdOrder(order, f.watermarks) && NextState(s, desired, f, order).Some?
    ensures var t := NextState(s, desired, f, order).value;
            && |t.entries| <= s.maxEntries && t.maxEntries == s.maxEntries
            && Filled(s, desired, f).Some? && ValidEntries(Filled(s, desired, f).value)
            && (forall k, c :: k in t.entries && c in Filled(s, desired, f).value && c !in t.entries ==>
                  k in Filled(s, desired, f).value
                  && UpdatedOf(Filled(s, desired, f).value[k]) >= UpdatedOf(Filled(s, desired, f).value[c]))
  {
    StagedSteps(s, desired, f);
    var filled := Filled(s, desired, f).value;
    TrimMeaning(filled, s.maxEntries);
    hide Filled, BoundMarks, InIdOrder, ValidEntries, Trimmed, StagedEntries;
  }

  // ---------------------------------------------------------------- what a refresh leaves, entry by entry

  /** The conversations end up supplying a record under a key: the last of them that has the key. */
  predicate Supplies(vs: seq<Conversation>, k: string, c: Cached) {
    exists i :: && 0 <= i < |vs| && FromConversation(vs[i]) == Some(c) && Key(c) == k
                && forall j :: i < j < |vs| ==> !HasKey(vs[j], k)
  }

  /** A source takes the entry under a key back. */
  predicate TakesBack(r: Removal, k: string, c: Cached) {
    r.source == c.source && KeyFor(r.source, r.session.namespace, r.session.id) == k
  }

  /** An entry goes: its source is not desired, was purged, or takes it back. */
  predicate Goes(s: IndexState, desired: set<SourceId>, f: Found, k: string)
    requires k in s.entries
  {
    || s.entries[k].source !in desired
    || s.entries[k].source in f.purged
    || exists r :: r in f.removals && TakesBack(r, k, s.entries[k])
  }

  /** What a key is due to hold after a refresh, before trimming. */
  predicate Due(s: IndexState, desired: set<SourceId>, f: Found, k: string, c: Cached) {
    || Supplies(f.conversations, k, c)
    || (k !in KeysOf(f.conversations) && k in s.entries && c == s.entries[k] && !Goes(s, desired, f, k))
  }

  lemma {:induction false} RemovedExactly(es: Entries, rs: seq<Removal>, k: string)
    ensures k in RemoveAll(es, rs) <==> k in es && !exists r :: r in rs && TakesBack(r, k, es[k])
    ensures k in RemoveAll(es, rs) ==> RemoveAll(es, rs)[k] == es[k]
  {
    if rs != [] {
      var n := |rs| - 1;
      RemovedExactly(es, rs[..n], k);
      assert rs == rs[..n] + [rs[n]];
      if k in es { assert TakesBack(rs[n], k, es[k]) ==> rs[n] in rs; }
    }
  }

  lemma {:induction false} SuppliesMore(vs: seq<Conversation>, k: string, c: Cached)
    requires vs != []
    ensures Supplies(vs, k, c) <==>
              if HasKey(vs[|vs| - 1], k) then FromConversation(vs[|vs| - 1]) == Some(c)
              else Supplies(vs[..|vs| - 1], k, c)
  {
    hide FromConversation, Key;
    var n := |vs| - 1;
    if Supplies(vs[..n], k, c) && !HasKey(vs[n], k) {
      var i :| && 0 <= i < n && FromConversation(vs[..n][i]) == Some(c) && Key(c) == k
               && forall j :: i < j < n ==> !HasKey(vs[..n][j], k);
      assert forall j :: i < j < n ==> vs[..n][j] == vs[j];
      assert FromConversation(vs[i]) == Some(c);
    }
    if i :| && 0 <= i < |vs| && FromConversation(vs[i]) == Some(c) && Key(c) == k
            && forall j :: i < j < |vs| ==> !HasKey(vs[j], k) {
      if i < n {
        assert FromConversation(vs[..n][i]) == Some(c);
        assert forall j :: i < j < n ==> vs[..n][j] == vs[j];
      }
    }
  }

  lemma InsertedLast(es: Entries, vs: seq<Conversation>)
    requires vs != [] && InsertAll(es, vs).Some?
    ensures var n := |vs| - 1;
            && FromConversation(vs[n]).Some? && InsertAll(es, vs[..n]).Some?
            && var added := FromConversation(vs[n]).value;
               InsertAll(es, vs).value == InsertAll(es, vs[..n]).value[Key(added) := added]
  {
    hide FromConversation, Key;
  }

  lemma KeysLast(vs: seq<Conversation>)
    requires vs != [] && forall v :: v in vs ==> FromConversation(v).Some?
    ensures KeysOf(vs) == KeysOf(vs[..|vs| - 1]) + {Key(FromConversation(vs[|vs| - 1]).value)}
  {
    hide FromConversation, Key;
    var n := |vs| - 1;
    assert vs == vs[..n] + [vs[n]];
  }

  lemma {:induction false} InsertedIs(es: Entries, vs: seq<Conversation>, k: string, c: Cached)
    requires InsertAll(es, vs).Some?
    ensures (k in InsertAll(es, vs).value && InsertAll(es, vs).value[k] == c)
            <==> Supplies(vs, k, c) || (k !in KeysOf(vs) && k in es && es[k] == c)
  {
    if vs != [] {
      InsertedMeaning(es, vs);
      InsertedLast(es, vs);
      KeysLast(vs);
      SuppliesMore(vs, k, c);
      hide FromConversation, Key, Supplies, InsertAll, KeysOf;
      InsertedIs(es, vs[..|vs| - 1], k, c);
    }
  }

  lemma FilledIs(s: IndexState, desired: set<SourceId>, f: Found, k: string, c: Cached)
    requires Filled(s, desired, f).Some?
    ensures (k in Filled(s, desired, f).value && Filled(s, desired, f).value[k] == c) <==> Due(s, desired, f, k, c)
  {
    var kept := Retained(s.entries, desired, f.purged);
    RemovedExactly(kept, f.removals, k);
    InsertedIs(Cleared(s, desired, f), f.conversations, k, c);
    hide InsertAll, RemoveAll, Supplies, KeysOf, TakesBack;
  }

  /** Newer, or as new and before it by key. */
  predicate Outranks(j: string, a: Cached, k: string, b: Cached) {
    && TimeOf(a.updated).Ok? && TimeOf(b.updated).Ok?
    && (UpdatedOf(a) > UpdatedOf(b) || (UpdatedOf(a) == UpdatedOf(b) && NameLess(j, k)))
  }

  lemma CutOutranked(es: Entries, limit: nat, j: string, k: string)
    requires ValidEntries(es) && j in TrimIfOver(es, limit) && k in es && k !in TrimIfOver(es, limit)
    ensures j in es && Outranks(j, es[j], k, es[k]) && |TrimIfOver(es, limit)| == limit
  {
    TrimMeaning(es, limit);
    CutIsOlder(es, limit, j, k);
    hide Trimmed;
  }

  lemma KeptOrCut(filled: Entries, limit: nat, k: string)
    requires ValidEntries(filled) && k in filled
    ensures var kept := TrimIfOver(filled, limit);
            k !in kept ==>
              && |kept| == limit
              && forall j :: j in kept ==> j in filled && Outranks(j, kept[j], k, filled[k])
  {
    hide *;
    var kept := TrimIfOver(filled, limit);
    TrimmedSteps(filled, limit);
    if k !in kept {
      FullWhenCut(filled, limit, k);
      forall j | j in kept ensures j in filled && Outranks(j, kept[j], k, filled[k]) {
        CutOutranked(filled, limit, j, k);
      }
    }
  }

  lemma FullWhenCut(filled: Entries, limit: nat, k: string)
    requires ValidEntries(filled) && k in filled && k !in TrimIfOver(filled, limit)
    ensures |TrimIfOver(filled, limit)| == limit
  {
    TrimMeaning(filled, limit);
    hide Trimmed;
  }

  /** After a published refresh every entry is due: the record its key was supplied last, or an earlier one
      whose source is desired, was not purged and did not take it back. Whatever is due and not there was
      cut from a full index, every entry of which outranks it. */
  lemma RefreshedEntries(s: IndexState, desired: set<SourceId>, f: Found, order: seq<SourceId>)
    requires ValidEntries(s.entries) && InIdOrder(order, f.watermarks) && NextState(s, desired, f, order).Some?
    ensures var t := NextState(s, desired, f, order).value;
            && (forall k :: k in t.entries ==> Due(s, desired, f, k, t.entries[k]))
            && (forall k, c :: Due(s, desired, f, k, c) ==>
                  if k in t.entries then t.entries[k] == c
                  else |t.entries| == s.maxEntries && forall j :: j in t.entries ==> Outranks(j, t.entries[j], k, c))
  {
    StagedSteps(s, desired, f);
    var filled := Filled(s, desired, f).value;
    var t := NextState(s, desired, f, order).value;
    TrimmedSteps(filled, s.maxEntries);
    assert t.entries == TrimIfOver(filled, s.maxEntries);
    hide Filled, BoundMarks, InIdOrder, ValidEntries, TrimIfOver, StagedEntries, NextState, Due, Outranks;
    forall k | k in t.entries ensures Due(s, desired, f, k, t.entries[k]) {
      FilledIs(s, desired, f, k, t.entries[k]);
    }
    forall k, c | Due(s, desired, f, k, c)
      ensures if k in t.entries then t.entries[k] == c
              else |t.entries| == s.maxEntries && forall j :: j in t.entries ==> Outranks(j, t.entries[j], k, c)
    {
      FilledIs(s, desired, f, k, c);
      KeptOrCut(filled, s.maxEntries, k);
    }
  }

  lemma {:induction false} InsertFailsIff(es: Entries, vs: seq<Conversation>)
    ensures InsertAll(es, vs).None? <==> exists v :: v in vs && FromConversation(v).None?
  {
    hide FromConversation;
    if vs != [] {
      var n := |vs| - 1;
      InsertFailsIff(es, vs[..n]);
      assert vs == vs[..n] + [vs[n]];
      assert vs[n] in vs;
    }
  }

  /** A refresh fails exactly on a conversation the cache cannot take. */
  lemma RefreshFailsIff(s: IndexState, desired: set<SourceId>, f: Found, order: seq<SourceId>)
    requires ValidEntries(s.entries) && InIdOrder(order, f.watermarks)
    ensures NextState(s, desired, f, order).None? <==> exists v :: v in f.conversations && FromConversation(v).None?
  {
    InsertFailsIff(Cleared(s, desired, f), f.conversations);
    hide FromConversation, InIdOrder, BoundMarks, ValidEntries, InsertAll;
  }

  /** How one key moves through a refresh. */
  predicate Moves(a: Slot, b: Slot, inserted: bool, dropped: bool, round: nat) {
    && (inserted ==> b.last.Some? && b.last.value.round == round && (b.cached.None? ==> b.excused))
    && (!inserted ==> b.last == a.last && (b.cached.Some? ==> b.cached == a.cached)
                      && (a.cached.Some? && b.cached.None? && !dropped ==> b.excused))
    && (b.cached.Some? && inserted ==> b.cached.value == b.last.value.record)
    && (b.cached.None? && a.excused ==> b.excused)
    && (b.excused ==> b.cached.None?)
  }

  lemma MovesKeep(a: Slot, b: Slot, inserted: bool, dropped: bool, round: nat)
    requires SlotOk(a, round) && Moves(a, b, inserted, dropped, round + 1)
    ensures SlotOk(b, round + 1)
  {
  }

  lemma MovesAccount(a: Slot, b: Slot, inserted: bool, round: nat, e: Emission)
    requires SlotOk(a, round) && Moves(a, b, inserted, false, round + 1)
    requires Accounted(a, e) && e.round <= round
    ensures Accounted(b, e)
  {
  }

  predicate DroppedWith(s: IndexState, desired: set<SourceId>, f: Found, k: string) {
    k in s.entries && (s.entries[k].source !in desired || s.entries[k].source in f.purged)
  }

  lemma FilledAt(s: IndexState, desired: set<SourceId>, f: Found, k: string)
    requires Filled(s, desired, f).Some?
    ensures var filled := Filled(s, desired, f).value;
            && (k in KeysOf(f.conversations) ==> k in filled)
            && (k in filled && k !in KeysOf(f.conversations) ==> k in s.entries && filled[k] == s.entries[k])
            && (k in s.entries && k !in filled && !DroppedWith(s, desired, f, k) ==> k in RemovedKeys(f))
  {
    ClearedMeaning(s, desired, f);
    InsertedMeaning(Cleared(s, desired, f), f.conversations);
    hide Cleared, KeysOf, InsertAll, RemovedKeys;
  }

  lemma RecordedAt(s: IndexState, h: History, t: IndexState, r: Registry, vs: seq<Visit>, f: Found, k: string)
    requires Filled(s, r.desired, f).Some?
    ensures var g := Recorded(h, s, t, r, vs, f);
            var filled := Filled(s, r.desired, f).value;
            && (k in g.excused <==> (k in h.excused || k in RemovedKeys(f) || k in filled) && k !in t.entries)
            && SlotOf(t, g, k).last == if k in KeysOf(f.conversations)
                && k in filled then Some(Emission(filled[k], h.round + 1))
                                       else SlotOf(s, h, k).last
  {
    hide Filled, KeysOf, RemovedKeys, Behind, VisitFor, Emitted;
  }

  lemma KeyMoves(s: IndexState, h: History, t: IndexState, r: Registry, vs: seq<Visit>, f: Found, k: string)
    requires Stepped(s, t, r.desired, f) && SlotOk(SlotOf(s, h, k), h.round)
    ensures Moves(SlotOf(s, h, k), SlotOf(t, Recorded(h, s, t, r, vs, f), k), k in KeysOf(f.conversations),
                  DroppedWith(s, r.desired, f, k), h.round + 1)
  {
    FilledAt(s, r.desired, f, k);
    RecordedAt(s, h, t, r, vs, f, k);
    assert k in t.entries ==> k in Filled(s, r.desired, f).value && t.entries[k] == Filled(s, r.desired, f).value[k];
    hide Filled, KeysOf, RemovedKeys, Recorded, Stepped, DroppedWith;
  }

  // ---------------------------------------------------------------- what a refresh puts behind its watermarks

  lemma {:induction false} VisitForIs(r: Registry, w: Watermarks, vs: seq<Visit>, id: SourceId)
    requires ValidRegistry(r) && AllWent(r, w, vs)
    ensures var v := VisitFor(r, vs, id);
            || (v == Nothing && forall i :: 0 <= i < |vs| ==> r.sources[i].id != id)
            || (exists i ::
                  && 0 <= i < |vs| && r.sources[i].id == id && v == vs[i]
                  && Went(r.sources[i], LookupMark(w, id), v))
  {
    if vs != [] && r.sources[|vs| - 1].id != id {
      VisitForIs(r, w, vs[..|vs| - 1], id);
    }
  }

  /** A stored watermark was carried over, or a whole page put it there. */
  lemma StoredMark(r: Registry, w: Watermarks, vs: seq<Visit>, id: SourceId)
    requires ValidRegistry(r) && AllWent(r, w, vs) && id in Gathered(r, w, vs).watermarks
    ensures id in r.desired && id !in Gathered(r, w, vs).purged
    ensures id in w || (VisitFor(r, vs, id).Page? && VisitFor(r, vs, id).whole)
  {
    PurgedLoseMarks(r, w, vs);
    MarksAfter(r, w, vs, id);
    VisitForIs(r, w, vs, id);
    hide Went, ValidRegistry, Gathered;
  }

  lemma {:induction false} YieldsCome(s: Source, cs: seq<Candidate>, v: Conversation)
    requires v in Yields(s, cs)
    ensures exists c :: s.extract(c) == Some(v)
  {
    var n := |cs| - 1;
    if v in Yields(s, cs[..n]) {
      YieldsCome(s, cs[..n], v);
    } else {
      assert s.extract(cs[n]) == Some(v);
    }
  }

  /** What a source emits carries its own identifier. */
  lemma FoundIsOwn(s: Source, w: Option<string>, v: Visit, c: Conversation)
    requires ValidSource(s) && Went(s, w, v) && v.Page? && c in v.found && FromConversation(c).Some?
    ensures FromConversation(c).value.source == s.id && Named(FromConversation(c).value)
  {
    var cs :| c in Yields(s, cs);
    YieldsCome(s, cs, c);
    FromConversationParts(c);
    FromConversationNamed(c);
    hide FromConversation, Named;
  }

  lemma {:induction false} FoundIsGathered(vs: seq<Visit>, i: nat, c: Conversation)
    requires i < |vs| && vs[i].Page? && c in vs[i].found
    ensures c in AllFound(vs)
  {
    if i < |vs| - 1 {
      assert vs[..|vs| - 1][i] == vs[i];
      FoundIsGathered(vs[..|vs| - 1], i, c);
    }
  }

  /** Equal keys of well-named records mean equal sources. */
  lemma KeySource(a: Cached, b: Cached)
    requires Named(a) && Named(b) && Key(a) == Key(b)
    ensures a.source == b.source
  {
    ApprovedNames(a.source, a.tool);
    ApprovedNames(b.source, b.tool);
    KeyUnique(a.source, a.namespace, a.sessionId, b.source, b.namespace, b.sessionId);
  }

  /** All that one refresh is known to have done. */
  ghost predicate Refreshing(s: IndexState, t: IndexState, r: Registry, vs: seq<Visit>, f: Found) {
    && ValidRegistry(r) && AllWent(r, s.watermarks, vs)
    && f == Gathered(r, s.watermarks, vs).(conversations := f.conversations)
    && multiset(f.conversations) == multiset(AllFound(vs)) && Sorted(Before, f.conversations)
    && Stepped(s, t, r.desired, f)
  }

  lemma OldEmission(s: IndexState, h: History, t: IndexState, r: Registry, vs: seq<Visit>, f: Found, id: SourceId,
      e: Emission)
    requires HistoryOk(s, h) && Refreshing(s, t, r, vs, f)
    requires id in s.watermarks && id in t.watermarks && e in BehindOf(h, id)
    ensures Accounted(SlotOf(t, Recorded(h, s, t, r, vs, f), Key(e.record)), e)
  {
    var k := Key(e.record);
    StoredMark(r, s.watermarks, vs, id);
    KeyMoves(s, h, t, r, vs, f, k);
    if k in s.entries { KeySource(s.entries[k], e.record); }
    MovesAccount(SlotOf(s, h, k), SlotOf(t, Recorded(h, s, t, r, vs, f), k), k in KeysOf(f.conversations), h.round, e);
  }

  lemma InsertedAccounted(b: Slot, a: Slot, dropped: bool, e: Emission)
    requires Moves(a, b, true, dropped, e.round)
    requires b.last.Some? ==> NotNewer(b.last.value.record, e.record)
    ensures Accounted(b, e)
  {
  }

  /** What a refresh keeps of the copies under a key was found there, and is not newer than any of them. */
  lemma FilledFrom(s: IndexState, desired: set<SourceId>, f: Found, k: string, v: Conversation)
    requires Filled(s, desired, f).Some? && Sorted(Before, f.conversations)
    requires v in f.conversations && HasKey(v, k)
    ensures k in Filled(s, desired, f).value
    ensures Filled(s, desired, f).value[k] in Records(f.conversations) && Key(Filled(s, desired, f).value[k]) == k
    ensures NotNewer(Filled(s, desired, f).value[k], FromConversation(v).value)
  {
    OldestStays(Cleared(s, desired, f), f.conversations, k, v);
    var w :| w in f.conversations && HasKey(w, k) && w.updated <= v.updated
        && Filled(s, desired, f).value[k] == FromConversation(w).value;
    FromConversationParts(v);
    FromConversationParts(w);
    hide FromConversation, Key, TimeOf, InsertAll, Cleared, Sorted;
  }

  lemma NewEmission(s: IndexState, h: History, t: IndexState, r: Registry, vs: seq<Visit>, f: Found, i: nat,
      v: Conversation)
    requires HistoryOk(s, h) && Refreshing(s, t, r, vs, f)
    requires i < |vs| && vs[i].Page? && v in vs[i].found && FromConversation(v).Some?
    ensures var e := Emission(FromConversation(v).value, h.round + 1);
            && e.record.source == r.sources[i].id && Named(e.record)
            && Accounted(SlotOf(t, Recorded(h, s, t, r, vs, f), Key(e.record)), e)
  {
    var e := Emission(FromConversation(v).value, h.round + 1);
    var k := Key(e.record);
    FoundIsOwn(r.sources[i], LookupMark(s.watermarks, r.sources[i].id), vs[i], v);
    FoundIsGathered(vs, i, v);
    MembersOfPermutation(f.conversations, AllFound(vs));
    assert k in KeysOf(f.conversations);
    KeyMoves(s, h, t, r, vs, f, k);
    FilledFrom(s, r.desired, f, k, v);
    RecordedAt(s, h, t, r, vs, f, k);
    hide FromConversation, HistoryOk, Refreshing, Recorded, KeysOf, Filled, Key, Named, NotNewer;
    InsertedAccounted(SlotOf(t, Recorded(h, s, t, r, vs, f), k), SlotOf(s, h, k), DroppedWith(s, r.desired, f, k), e);
  }

  lemma RecordedLast(s: IndexState, h: History, t: IndexState, r: Registry, vs: seq<Visit>, f: Found, k: string)
    requires Filled(s, r.desired, f).Some?
    ensures var g := Recorded(h, s, t, r, vs, f);
            var filled := Filled(s, r.desired, f).value;
            && g.found == h.found + Emitted(f.conversations, h.round + 1)
            && if k in KeysOf(f.conversations) && k in filled then
                 k in g.last && g.last[k] == Emission(filled[k], h.round + 1)
               else (k in g.last <==> k in h.last) && (k in g.last ==> g.last[k] == h.last[k])
  {
    hide Filled, KeysOf, RemovedKeys, Behind, VisitFor, Emitted;
  }

  lemma StaysTraced(s: IndexState, h: History, t: IndexState, r: Registry, vs: seq<Visit>, f: Found, k: string)
    requires Traced(h, k) && Filled(s, r.desired, f).Some? && Sorted(Before, f.conversations)
    ensures Traced(Recorded(h, s, t, r, vs, f), k)
  {
    RecordedLast(s, h, t, r, vs, f, k);
    hide Recorded, Filled, Sorted, Key, NotNewer, Records;
    if k in KeysOf(f.conversations) {
      var v :| v in f.conversations && HasKey(v, k);
      hide FromConversation, HasKey, KeysOf;
      FilledFrom(s, r.desired, f, k, v);
    }
  }

  lemma BehindParts(h: History, w: Watermarks, id: SourceId, v: Visit, e: Emission)
    requires e in Behind(h, w, id, v)
    ensures || e in BehindOf(h, id)
            || (v.Page? && v.whole
                && exists c :: c in v.found && FromConversation(c).Some?
                    && e == Emission(FromConversation(c).value, h.round + 1))
  {
    hide FromConversation;
  }

  lemma BehindAccounted(s: IndexState, h: History, t: IndexState, r: Registry, vs: seq<Visit>, f: Found, id: SourceId,
      e: Emission)
    requires HistoryOk(s, h) && Refreshing(s, t, r, vs, f)
    requires id in t.watermarks && e in Behind(h, s.watermarks, id, VisitFor(r, vs, id))
    ensures e.record.source == id && Named(e.record) && e.round <= h.round + 1
    ensures Accounted(SlotOf(t, Recorded(h, s, t, r, vs, f), Key(e.record)), e)
  {
    var v := VisitFor(r, vs, id);
    StoredMark(r, s.watermarks, vs, id);
    BehindParts(h, s.watermarks, id, v, e);
    if id in s.watermarks && e in BehindOf(h, id) {
      OldEmission(s, h, t, r, vs, f, id, e);
    } else {
      VisitForIs(r, s.watermarks, vs, id);
      var i :| 0 <= i < |vs| && r.sources[i].id == id && v == vs[i];
      var c :| c in v.found && FromConversation(c).Some? && e == Emission(FromConversation(c).value, h.round + 1);
      hide *;
      NewEmission(s, h, t, r, vs, f, i, c);
    }
  }

  lemma KeyStaysOk(s: IndexState, h: History, t: IndexState, r: Registry, vs: seq<Visit>, f: Found, k: string)
    requires HistoryOk(s, h) && Refreshing(s, t, r, vs, f)
    ensures var g := Recorded(h, s, t, r, vs, f);
            SlotOk(SlotOf(t, g, k), g.round) && Traced(g, k)
  {
    assert SlotOk(SlotOf(s, h, k), h.round) && Traced(h, k);
    assert Recorded(h, s, t, r, vs, f).round == h.round + 1;
    hide HistoryOk, Recorded, SlotOk, Traced, Moves, Filled, KeysOf, DroppedWith, SlotOf;
    StaysTraced(s, h, t, r, vs, f, k);
    KeyMoves(s, h, t, r, vs, f, k);
    MovesKeep(SlotOf(s, h, k), SlotOf(t, Recorded(h, s, t, r, vs, f), k), k in KeysOf(f.conversations),
        DroppedWith(s, r.desired, f, k), h.round);
  }

  lemma BehindRecorded(s: IndexState, h: History, t: IndexState, r: Registry, vs: seq<Visit>, f: Found, id: SourceId)
    requires id in t.watermarks
    ensures BehindOf(Recorded(h, s, t, r, vs, f), id) == Behind(h, s.watermarks, id, VisitFor(r, vs, id))
  {
    hide Behind, VisitFor, Filled, KeysOf, LastAfter, Emitted, RemovedKeys;
  }

  /** A published refresh keeps the history straight. */
  lemma RefreshKeepsHistory(s: IndexState, h: History, t: IndexState, r: Registry, vs: seq<Visit>, f: Found)
    requires HistoryOk(s, h) && Refreshing(s, t, r, vs, f)
    ensures HistoryOk(t, Recorded(h, s, t, r, vs, f))
  {
    var g := Recorded(h, s, t, r, vs, f);
    assert ValidEntries(t.entries) && g.round == h.round + 1;
    forall id | id in t.watermarks ensures BehindOf(g, id) == Behind(h, s.watermarks, id, VisitFor(r, vs, id)) {
      BehindRecorded(s, h, t, r, vs, f, id);
    }
    hide Recorded, SlotOk, Accounted, Refreshing, Traced, SlotOf, Named, ValidEntries, Behind, BehindOf;
    forall k ensures SlotOk(SlotOf(t, g, k), g.round) && Traced(g, k) {
      KeyStaysOk(s, h, t, r, vs, f, k);
    }
    forall id, e | id in t.watermarks && e in BehindOf(g, id)
      ensures e.record.source == id && Named(e.record) && e.round <= g.round
          && Accounted(SlotOf(t, g, Key(e.record)), e)
    {
      BehindAccounted(s, h, t, r, vs, f, id, e);
    }
  }

  // ---------------------------------------------------------------- whole runs

  /** The index in memory and the one on disk, each with its past. */
  datatype World = World(live: IndexState, past: History, disk: IndexState, diskPast: History)

  /** How publishing went: in full, not at all, or failing with or without the current pointer moved. */
  datatype Publishing = Complete | Abandoned | Broken(moved: bool)

  /** How the index on disk is opened: with its limit kept or lowered, with a raised limit, which gives
      up all continuations, or not at all because the cache cannot be used. */
  datatype Opening = Kept(limit: nat) | Raised(limit: nat) | Unusable(status: IndexStatus, limit: nat)

  datatype Event =
    | Refresh(registry: Registry, visits: seq<Visit>, found: Found, order: seq<SourceId>, publishing: Publishing)
    | Reopen(opening: Opening)

  function Opened(disk: IndexState, o: Opening): IndexState {
    match o
    case Kept(limit) => disk.(status := Loaded, scanHasMore := false, maxEntries := limit)
    case Raised(limit) => disk.(status := Loaded, scanHasMore := false, maxEntries := limit, watermarks := map[])
    case Unusable(status, limit) => IndexState(disk.generation, map[], map[], status, false, limit)
  }

  ghost predicate Enabled(w: World, e: Event) {
    match e
    case Refresh(r, vs, f, order, _) =>
      && ValidRegistry(r) && AllWent(r, w.live.watermarks, vs)
      && f == Gathered(r, w.live.watermarks, vs).(conversations := f.conversations)
      && multiset(f.conversations) == multiset(AllFound(vs)) && Sorted(Before, f.conversations)
      && InIdOrder(order, f.watermarks)
    case Reopen(_) => true
  }

  /** What publishing a staged index comes to. */
  function Published(w: World, t: IndexState, g: History, publishing: Publishing): World {
    match publishing
    case Complete => World(t, g, t, g)
    case Abandoned => w
    case Broken(moved) => if moved then w.(disk := t, diskPast := g) else w
  }

  /** What an event comes to; one that cannot happen changes nothing. */
  ghost function Next(w: World, e: Event): World {
    match e
    case Reopen(o) => w.(live := Opened(w.disk, o), past := w.diskPast)
    case Refresh(r, vs, f, order, publishing) =>
      if !ValidEntries(w.live.entries) || !Enabled(w, e) then w
      else
        var next := NextState(w.live, r.desired, f, order);
        if next.None? then w
        else Published(w, next.value, Recorded(w.past, w.live, next.value, r, vs, f), publishing)
  }

  ghost predicate WorldOk(w: World) {
    HistoryOk(w.live, w.past) && HistoryOk(w.disk, w.diskPast)
  }

  lemma OpenedKeeps(disk: IndexState, h: History, o: Opening)
    requires HistoryOk(disk, h)
    ensures HistoryOk(Opened(disk, o), h)
  {
    forall k ensures SlotOk(SlotOf(Opened(disk, o), h, k), h.round) {
      assert SlotOk(SlotOf(disk, h, k), h.round);
    }
    forall id, e | id in Opened(disk, o).watermarks && e in BehindOf(h, id)
      ensures e.record.source == id && Named(e.record) && e.round <= h.round
      ensures Accounted(SlotOf(Opened(disk, o), h, Key(e.record)), e)
    {
      assert Accounted(SlotOf(disk, h, Key(e.record)), e);
    }
  }

  lemma EntriesOk(s: IndexState, h: History)
    requires HistoryOk(s, h)
    ensures ValidEntries(s.entries)
  {
  }

  /** Refreshes keep the index in memory and the one on disk straight. */
  lemma RefreshKeeps(w: World, e: Event)
    requires WorldOk(w) && Enabled(w, e) && e.Refresh?
    requires NextState(w.live, e.registry.desired, e.found, e.order).Some?
    ensures var t := NextState(w.live, e.registry.desired, e.found, e.order).value;
            Stepped(w.live, t, e.registry.desired, e.found)
            && HistoryOk(t, Recorded(w.past, w.live, t, e.registry, e.visits, e.found))
  {
    EntriesOk(w.live, w.past);
    hide HistoryOk, NextState, Stepped, Recorded;
    NextStateSteps(w.live, e.registry.desired, e.found, e.order);
    RefreshKeepsHistory(w.live, w.past, NextState(w.live, e.registry.desired, e.found, e.order).value, e.registry,
        e.visits, e.found);
  }

  lemma PublishedOk(w: World, t: IndexState, g: History, publishing: Publishing)
    requires WorldOk(w) && HistoryOk(t, g)
    ensures WorldOk(Published(w, t, g, publishing))
  {
    hide HistoryOk;
  }

  lemma ReopenOk(w: World, o: Opening)
    requires WorldOk(w)
    ensures WorldOk(w.(live := Opened(w.disk, o), past := w.diskPast))
  {
    OpenedKeeps(w.disk, w.diskPast, o);
    hide HistoryOk, Opened;
  }

  lemma NextKeeps(w: World, e: Event)
    requires WorldOk(w) && Enabled(w, e)
    ensures WorldOk(Next(w, e))
  {
    EntriesOk(w.live, w.past);
    hide WorldOk, NextState, Stepped, Recorded, Published, Opened;
    match e
    case Reopen(o) => ReopenOk(w, o);
    case Refresh(r, vs, f, order, publishing) =>
      var next := NextState(w.live, r.desired, f, order);
      if next.Some? {
        RefreshKeeps(w, e);
        PublishedOk(w, next.value, Recorded(w.past, w.live, next.value, r, vs, f), publishing);
      }
  }

  ghost predicate Legal(w: World, es: seq<Event>)
    decreases |es|
  {
    es == [] || (Enabled(w, es[0]) && Legal(Next(w, es[0]), es[1..]))
  }

  /** Where a run of refreshes and reopenings ends. */
  ghost function After(w: World, es: seq<Event>): World
    decreases |es|
  {
    if es == [] then w else After(Next(w, es[0]), es[1..])
  }

  /** One more event is one more step. */
  lemma {:induction false} AfterLast(w: World, es: seq<Event>, e: Event)
    ensures After(w, es + [e]) == Next(After(w, es), e)
    ensures Legal(w, es + [e]) <==> Legal(w, es) && Enabled(After(w, es), e)
    decreases |es|
  {
    hide Next, Enabled;
    if es == [] {
      assert (es + [e])[1..] == [];
    } else {
      AfterLast(Next(w, es[0]), es[1..], e);
      assert (es + [e])[1..] == es[1..] + [e];
    }
  }

  lemma {:induction false} RunKeeps(w: World, es: seq<Event>)
    requires WorldOk(w) && Legal(w, es)
    ensures WorldOk(After(w, es))
    decreases |es|
  {
    hide WorldOk, Enabled, Next;
    if es != [] {
      NextKeeps(w, es[0]);
      RunKeeps(Next(w, es[0]), es[1..]);
    }
  }

  const NO_HISTORY := History(0, map[], map[], {}, {})

  /** A fresh cache directory. */
  function Fresh(limit: nat): World {
    var empty := IndexState(0, map[], map[], RebuiltMissing, false, limit);
    World(empty, NO_HISTORY, empty, NO_HISTORY)
  }

  lemma FreshOk(limit: nat)
    ensures WorldOk(Fresh(limit))
  {
  }

  /** The only record its refresh found under its key. */
  ghost predicate Alone(h: History, e: Emission) {
    forall x :: x in h.found && x.round == e.round && Key(x.record) == Key(e.record) ==> x == e
  }

  /** Over every run: of a conversation emitted behind a stored watermark, the cache holds under its key
      what a later refresh found there, or what its own refresh found there, which is not newer and is the
      conversation itself if found alone; unless its source removed it or trimming cut it since. */
  lemma WatermarkTheorem(limit: nat, es: seq<Event>, id: SourceId, e: Emission)
    requires Legal(Fresh(limit), es)
    requires var w := After(Fresh(limit), es);
             id in w.live.watermarks && e in BehindOf(w.past, id)
    ensures var w := After(Fresh(limit), es);
            var k := Key(e.record);
            || (k in w.past.excused && k !in w.live.entries)
            || (&& k in w.live.entries && k in w.past.last
                && var x := w.past.last[k];
                && w.live.entries[k] == x.record && Key(x.record) == k
                && x in w.past.found && x.round >= e.round
                && (x.round == e.round ==> NotNewer(x.record, e.record))
                && (x.round == e.round && Alone(w.past, e) ==> x == e))
  {
    FreshOk(limit);
    RunKeeps(Fresh(limit), es);
    var w := After(Fresh(limit), es);
    assert SlotOk(SlotOf(w.live, w.past, Key(e.record)), w.past.round) && Traced(w.past, Key(e.record));
    assert Accounted(SlotOf(w.live, w.past, Key(e.record)), e);
    hide WorldOk, HistoryOk, Legal, After, Fresh, Key, NotNewer;
  }
}
