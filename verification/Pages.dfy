/** Reading the index: one newest-first list with each session once, cut into pages. */
module Pages {
  import opened Wrappers
  import opened Paths
  import opened Sorting
  import opened Conversations
  import opened Discovery
  import opened Index

  /** Entries that rebuild, as every loaded or cached entry does. */
  predicate Readable(es: Entries) {
    forall k :: k in es ==> Validate(es[k]).None?
  }

  function Rebuilt(c: Cached): (v: Conversation)
    requires Validate(c).None?
    ensures v.provenance != []
  {
    ValidatedRebuilds(c);
    ToConversation(c).value
  }

  /** What a row is ordered by. */
  datatype Rank = Rank(updated: Time, session: Session, source: string)

  function RankOf(v: Conversation): Rank
    requires v.provenance != []
  {
    Rank(v.updated, v.session, v.provenance[0].source)
  }

  predicate RankBefore(a: Rank, b: Rank) {
    || a.updated > b.updated
    || (a.updated == b.updated
        && (|| NameLess(a.session.namespace, b.session.namespace)
            || (a.session.namespace == b.session.namespace
                && (NameLess(a.session.id, b.session.id)
                    || (a.session.id == b.session.id && NameLess(a.source, b.source))))))
  }

  lemma RankTotal(a: Rank, b: Rank)
    ensures a == b || RankBefore(a, b) || RankBefore(b, a)
    ensures RankBefore(a, b) ==> !RankBefore(b, a)
  {
    NameTotal(a.session.namespace, b.session.namespace);
    NameTotal(a.session.id, b.session.id);
    NameTotal(a.source, b.source);
  }

  lemma RankTransitive(a: Rank, b: Rank, c: Rank)
    requires RankBefore(a, b) && RankBefore(b, c)
    ensures RankBefore(a, c)
  {
    NameChain(a.session.namespace, b.session.namespace, c.session.namespace);
    NameChain(a.session.id, b.session.id, c.session.id);
    NameChain(a.source, b.source, c.source);
    hide NameLess;
  }

  predicate RowBefore(a: Conversation, b: Conversation) {
    if a.provenance == [] || b.provenance == [] then a.provenance == [] && b.provenance != []
    else RankBefore(RankOf(a), RankOf(b))
  }

  lemma RowsRank()
    ensures Ranks(RowBefore)
  {
    forall a, b, c
      ensures RowBefore(a, b) ==> !RowBefore(b, a)
      ensures RowBefore(a, b) && !RowBefore(c, b) ==> RowBefore(a, c)
    {
      RowRanks(a, b, c);
    }
  }

  lemma RowRanks(a: Conversation, b: Conversation, c: Conversation)
    ensures RowBefore(a, b) ==> !RowBefore(b, a)
    ensures RowBefore(a, b) && !RowBefore(c, b) ==> RowBefore(a, c)
  {
    if a.provenance != [] && b.provenance != [] {
      RankTotal(RankOf(a), RankOf(b));
      if c.provenance != [] {
        RankTotal(RankOf(c), RankOf(b));
        if RowBefore(a, b) && RowBefore(b, c) { RankTransitive(RankOf(a), RankOf(b), RankOf(c)); }
      }
    }
    hide RankBefore;
  }

  // ---------------------------------------------------------------- what a reading is

  /** `v` is a cached copy of its session, and no copy of the session ranks before it. */
  ghost predicate NewestCopy(es: Entries, v: Conversation)
    requires Readable(es)
  {
    && (exists k :: k in es && Rebuilt(es[k]) == v)
    && (forall k :: k in es && Rebuilt(es[k]).session == v.session ==>
          !RowBefore(Rebuilt(es[k]), v) && Rebuilt(es[k]).updated <= v.updated)
  }

  predicate Shows(rows: seq<Conversation>, s: Session) {
    exists v :: v in rows && v.session == s
  }

  /** Newest first, every cached session exactly once, each by its newest copy. */
  ghost predicate IsReading(es: Entries, rows: seq<Conversation>)
    requires Readable(es)
  {
    && Sorted(RowBefore, rows)
    && (forall i, j :: 0 <= i < j < |rows| ==> rows[i].session != rows[j].session)
    && (forall v :: v in rows ==> NewestCopy(es, v))
    && (forall k :: k in es ==> Shows(rows, Rebuilt(es[k]).session))
  }

  /** Keeps the first row of every session not seen before. */
  function Dedup(rows: seq<Conversation>, seen: set<Session>): seq<Conversation> {
    if rows == [] then []
    else if rows[0].session in seen then Dedup(rows[1..], seen)
    else [rows[0]] + Dedup(rows[1..], seen + {rows[0].session})
  }

  /** No row of the same session ranks before `v`. */
  ghost predicate Leads(rows: seq<Conversation>, v: Conversation) {
    forall w :: w in rows && w.session == v.session ==> !RowBefore(w, v)
  }

  lemma {:induction false} DedupKeeps(rows: seq<Conversation>, seen: set<Session>, v: Conversation)
    requires v in Dedup(rows, seen)
    ensures v in rows && v.session !in seen
  {
    if rows[0].session in seen {
      DedupKeeps(rows[1..], seen, v);
    } else if v != rows[0] {
      DedupKeeps(rows[1..], seen + {rows[0].session}, v);
    }
  }

  lemma {:induction false} DedupLeads(rows: seq<Conversation>, seen: set<Session>, v: Conversation)
    requires Ranks(RowBefore) && Sorted(RowBefore, rows) && v in Dedup(rows, seen)
    ensures Leads(rows, v)
  {
    DedupKeeps(rows, seen, v);
    TailSorted(RowBefore, rows);
    hide RowBefore;
    assert rows == [rows[0]] + rows[1..];
    if rows[0].session in seen {
      DedupLeads(rows[1..], seen, v);
    } else if v in Dedup(rows[1..], seen + {rows[0].session}) {
      DedupKeeps(rows[1..], seen + {rows[0].session}, v);
      DedupLeads(rows[1..], seen + {rows[0].session}, v);
    } else {
      assert v == rows[0];
      assert !RowBefore(v, v);
    }
  }

  lemma {:induction false} DedupCovers(rows: seq<Conversation>, seen: set<Session>, w: Conversation)
    requires w in rows
    ensures w.session in seen || Shows(Dedup(rows, seen), w.session)
  {
    if rows[0].session in seen {
      if w != rows[0] { DedupCovers(rows[1..], seen, w); }
    } else if w.session == rows[0].session {
      assert rows[0] in Dedup(rows, seen);
    } else {
      DedupCovers(rows[1..], seen + {rows[0].session}, w);
    }
  }

  lemma {:induction false} DedupOnce(rows: seq<Conversation>, seen: set<Session>)
    requires Ranks(RowBefore) && Sorted(RowBefore, rows)
    ensures var r := Dedup(rows, seen);
            (forall i, j :: 0 <= i < j < |r| ==> r[i].session != r[j].session) && Sorted(RowBefore, r)
  {
    if rows != [] {
      TailSorted(RowBefore, rows);
      hide RowBefore;
      if rows[0].session in seen {
        DedupOnce(rows[1..], seen);
      } else {
        var rest := Dedup(rows[1..], seen + {rows[0].session});
        DedupOnce(rows[1..], seen + {rows[0].session});
        forall v | v in rest ensures v in rows[1..] && v.session != rows[0].session {
          DedupKeeps(rows[1..], seen + {rows[0].session}, v);
        }
        assert forall i :: 0 <= i < |rest| ==> rest[i] in rest;
      }
    }
  }

  /** Every entry's conversation, in some order. */
  ghost predicate Collected(es: Entries, rows: seq<Conversation>)
    requires Readable(es)
  {
    && (forall v :: v in rows ==> exists k :: k in es && Rebuilt(es[k]) == v)
    && (forall k :: k in es ==> Rebuilt(es[k]) in rows)
  }

  lemma NotOlder(a: Conversation, b: Conversation)
    requires a.provenance != [] && b.provenance != [] && !RowBefore(a, b)
    ensures a.updated <= b.updated
  {
  }

  lemma LeadIsNewest(es: Entries, rows: seq<Conversation>, v: Conversation)
    requires Readable(es) && Collected(es, rows) && v in rows && Leads(rows, v)
    ensures NewestCopy(es, v)
  {
    hide Rebuilt, RowBefore;
    forall k | k in es && Rebuilt(es[k]).session == v.session
      ensures !RowBefore(Rebuilt(es[k]), v) && Rebuilt(es[k]).updated <= v.updated
    {
      NotOlder(Rebuilt(es[k]), v);
    }
  }

  /** Sorting and keeping each session's first row gives the reading of the index. */
  lemma DedupIsReading(es: Entries, rows: seq<Conversation>)
    requires Readable(es) && Collected(es, rows) && Sorted(RowBefore, rows)
    ensures IsReading(es, Dedup(rows, {}))
  {
    RowsRank();
    DedupOnce(rows, {});
    forall v | v in Dedup(rows, {}) ensures NewestCopy(es, v) {
      hide *;
      DedupKeeps(rows, {}, v);
      DedupLeads(rows, {}, v);
      LeadIsNewest(es, rows, v);
    }
    hide Rebuilt, RowBefore, Dedup, NewestCopy, Validate, Shows, Ranks;
    forall k | k in es ensures Shows(Dedup(rows, {}), Rebuilt(es[k]).session) {
      DedupCovers(rows, {}, Rebuilt(es[k]));
    }
  }

  // ---------------------------------------------------------------- an index has one reading

  lemma RebuiltKey(es: Entries, j: string, k: string)
    requires ValidEntries(es) && Readable(es) && j in es && k in es
    requires RankOf(Rebuilt(es[j])) == RankOf(Rebuilt(es[k]))
    ensures j == k
  {
    ValidatedRebuilds(es[j]);
    ValidatedRebuilds(es[k]);
    hide Validate, ToConversation;
  }

  lemma SameCopy(es: Entries, v: Conversation, w: Conversation)
    requires ValidEntries(es) && Readable(es) && NewestCopy(es, v) && NewestCopy(es, w) && v.session == w.session
    ensures v == w
  {
    var j :| j in es && Rebuilt(es[j]) == v;
    var k :| k in es && Rebuilt(es[k]) == w;
    assert !RowBefore(v, w) && !RowBefore(w, v);
    RankTotal(RankOf(v), RankOf(w));
    RebuiltKey(es, j, k);
  }

  lemma ReadingsShare(es: Entries, a: seq<Conversation>, b: seq<Conversation>, v: Conversation)
    requires ValidEntries(es) && Readable(es) && IsReading(es, a) && IsReading(es, b) && v in a
    ensures v in b
  {
    hide ValidEntries, Rebuilt;
    assert NewestCopy(es, v);
    var k :| k in es && Rebuilt(es[k]) == v;
    var w :| w in b && w.session == Rebuilt(es[k]).session;
    SameCopy(es, v, w);
  }

  /** An index has exactly one reading. */
  lemma ReadingUnique(es: Entries, a: seq<Conversation>, b: seq<Conversation>)
    requires ValidEntries(es) && Readable(es) && IsReading(es, a) && IsReading(es, b)
    ensures a == b
  {
    forall v ensures v in a <==> v in b {
      if v in a { ReadingsShare(es, a, b, v); }
      if v in b { ReadingsShare(es, b, a, v); }
    }
    assert Distinct(a) && Distinct(b);
    forall x, y | x in a && y in a && x != y ensures RowBefore(x, y) || RowBefore(y, x) {
      var i :| 0 <= i < |a| && a[i] == x;
      var j :| 0 <= j < |a| && a[j] == y;
      assert NewestCopy(es, x) && NewestCopy(es, y);
      RankTotal(RankOf(x), RankOf(y));
    }
    hide RowBefore, NewestCopy, ValidEntries, Readable;
    SortedSame(RowBefore, a, b);
  }

  // ---------------------------------------------------------------- what stays readable

  lemma {:induction false} InsertedReadable(es: Entries, vs: seq<Conversation>)
    requires Readable(es) && InsertAll(es, vs).Some?
    requires forall v :: v in vs ==> WellFormed(v) && PathsLoadable(v)
    ensures Readable(InsertAll(es, vs).value)
  {
    hide Validate, FromConversation, WellFormed, PathsLoadable, Key;
    if vs != [] {
      var n := |vs| - 1;
      assert forall v :: v in vs[..n] ==> v in vs;
      InsertedReadable(es, vs[..n]);
      ConversationRoundTrip(vs[n]);
    }
  }

  /** A refresh keeps the index readable while no emitted path holds a NUL byte. */
  lemma RefreshKeepsReadable(s: IndexState, desired: set<SourceId>, f: Found, order: seq<SourceId>)
    requires ValidEntries(s.entries) && Readable(s.entries) && InIdOrder(order, f.watermarks)
    requires NextState(s, desired, f, order).Some?
    requires forall v :: v in f.conversations ==> WellFormed(v) && PathsLoadable(v)
    ensures Readable(NextState(s, desired, f, order).value.entries)
  {
    var kept := Retained(s.entries, desired, f.purged);
    RetainedValid(s.entries, desired, f.purged);
    RemovedFewer(kept, f.removals);
    var cleared := RemoveAll(kept, f.removals);
    hide Validate, WellFormed, PathsLoadable, ValidEntries, InIdOrder, BoundMarks, Trimmed, RemoveAll, Retained,
        InsertAll;
    assert Readable(kept) by { KeptReadable(s.entries, kept); }
    KeptReadable(kept, cleared);
    InsertedReadable(cleared, f.conversations);
    var filled := InsertAll(cleared, f.conversations).value;
    InsertedValid(cleared, f.conversations);
    TrimmedFewer(filled, s.maxEntries);
    KeptReadable(filled, TrimIfOver(filled, s.maxEntries));
  }

  lemma KeptReadable(es: Entries, kept: Entries)
    requires Readable(es) && forall k :: k in kept ==> k in es && kept[k] == es[k]
    ensures Readable(kept)
  {
  }

  // ---------------------------------------------------------------- pages

  /** The rows at an offset, at most `limit` of them. */
  function PageOf(rows: seq<Conversation>, offset: nat, limit: nat): seq<Conversation> {
    if offset >= |rows| then [] else if offset + limit >= |rows| then rows[offset..] else rows[offset..offset + limit]
  }

  function PagesFrom(rows: seq<Conversation>, offset: nat, limit: nat): seq<Conversation>
    requires limit > 0
    decreases |rows| - offset
  {
    if offset >= |rows| then [] else PageOf(rows, offset, limit) + PagesFrom(rows, offset + limit, limit)
  }

  /** Page after page, nothing is missed and nothing repeats. */
  lemma {:induction false} PagesJoin(rows: seq<Conversation>, offset: nat, limit: nat)
    requires limit > 0 && offset <= |rows|
    ensures PagesFrom(rows, offset, limit) == rows[offset..]
    decreases |rows| - offset
  {
    if offset + limit < |rows| {
      PagesJoin(rows, offset + limit, limit);
      assert rows[offset..] == rows[offset..offset + limit] + rows[offset + limit..];
    }
  }

  method CollectRows(es: Entries) returns (rows: seq<Conversation>)
    requires Readable(es)
    ensures Collected(es, rows)
  {
    hide Rebuilt, Validate;
    var keys := Enumerate(es.Keys);
    rows := [];
    for i := 0 to |keys|
      invariant |rows| == i
      invariant forall j :: 0 <= j < i ==> rows[j] == Rebuilt(es[keys[j]])
    {
      assert keys[i] in es;
      rows := rows + [Rebuilt(es[keys[i]])];
    }
    forall k | k in es ensures Rebuilt(es[k]) in rows {
      var j :| 0 <= j < |keys| && keys[j] == k;
      assert rows[j] == Rebuilt(es[k]);
    }
  }

  method RetainFirst(rows: seq<Conversation>) returns (r: seq<Conversation>)
    ensures r == Dedup(rows, {})
  {
    var seen: set<Session> := {};
    r := [];
    for i := 0 to |rows|
      invariant Dedup(rows, {}) == r + Dedup(rows[i..], seen)
    {
      var session := rows[i].session;
      assert rows[i..][0] == rows[i] && rows[i..][1..] == rows[i + 1..];
      if session !in seen {
        r, seen := r + [rows[i]], seen + {session};
      }
    }
    assert rows[|rows|..] == [];
  }

  /** One page of the reading, and whether more follows. */
  method ReadPage(index: ConversationIndex, offset: nat, limit: nat)
    returns (page: seq<Conversation>, more: bool, ghost reading: seq<Conversation>)
    requires Readable(index.entries)
    ensures IsReading(index.entries, reading) && page == PageOf(reading, offset, limit)
    ensures limit > 0 ==> (more <==> index.scanHasMore || offset + |page| < |reading|)
    ensures limit == 0 ==> (more <==> index.scanHasMore || offset < |index.entries|)
  {
    hide Dedup, IsReading, Readable;
    var rows := CollectRows(index.entries);
    RowsRank();
    SortedPermutation(RowBefore, rows);
    SortedMembers(RowBefore, rows);
    var sorted := SortBy(RowBefore, rows);
    assert Collected(index.entries, sorted) by { hide Rebuilt; }
    DedupIsReading(index.entries, sorted);
    var deduplicated := RetainFirst(sorted);
    reading := deduplicated;
    if limit == 0 {
      return [], index.scanHasMore || offset < |index.entries|, reading;
    }
    page := PageOf(deduplicated, offset, limit);
    more := index.scanHasMore || offset + |page| < |deduplicated|;
  }

  // ---------------------------------------------------------------- asking without reading

  function SessionOf(c: Cached): Session {
    Session(c.namespace, c.sessionId)
  }

  function SessionsOf(es: Entries, keys: set<string>): set<Session>
    requires keys <= es.Keys
  {
    set k | k in keys :: SessionOf(es[k])
  }

  /** No two entries share a session. */
  predicate SessionsApart(es: Entries, keys: set<string>)
    requires keys <= es.Keys
  {
    forall k, l :: k in keys && l in keys && k != l ==> SessionOf(es[k]) != SessionOf(es[l])
  }

  lemma {:induction false} SessionsSize(es: Entries, keys: set<string>)
    requires keys <= es.Keys
    ensures |SessionsOf(es, keys)| <= |keys|
    ensures |SessionsOf(es, keys)| == |keys| <==> SessionsApart(es, keys)
  {
    if keys != {} {
      var k :| k in keys;
      var rest := keys - {k};
      SessionsSize(es, rest);
      assert keys == rest + {k};
      assert SessionsOf(es, keys) == SessionsOf(es, rest) + {SessionOf(es[k])};
      if SessionOf(es[k]) in SessionsOf(es, rest) {
        assert SessionsOf(es, keys) == SessionsOf(es, rest);
        var l :| l in rest && SessionOf(es[l]) == SessionOf(es[k]);
      }
    }
  }

  function Sessions(rows: seq<Conversation>): set<Session> {
    set v | v in rows :: v.session
  }

  lemma {:induction false} DistinctSize(rows: seq<Conversation>)
    requires DistinctSessions(rows)
    ensures |Sessions(rows)| == |rows|
  {
    if rows != [] {
      var n := |rows| - 1;
      DistinctSize(rows[..n]);
      assert rows == rows[..n] + [rows[n]];
      assert Sessions(rows) == Sessions(rows[..n]) + {rows[n].session};
      assert forall v :: v in rows[..n] ==> v.session != rows[n].session;
    }
  }

  lemma ReadingSessions(es: Entries, rows: seq<Conversation>)
    requires Readable(es) && IsReading(es, rows)
    ensures Sessions(rows) == SessionsOf(es, es.Keys)
  {
    forall k | k in es ensures Rebuilt(es[k]).session == SessionOf(es[k]) { ValidatedRebuilds(es[k]); }
    hide Rebuilt, RowBefore;
    forall v | v in rows ensures v.session in SessionsOf(es, es.Keys) {
      assert NewestCopy(es, v);
    }
    forall k | k in es ensures SessionOf(es[k]) in Sessions(rows) {
      assert Shows(rows, Rebuilt(es[k]).session);
    }
  }

  /** Something of a list follows an offset. */
  predicate Follows(count: nat, offset: nat) {
    offset < count
  }

  /** Counting entries for rows, as a page of limit 0 does, says at every offset whether rows follow
      exactly if no two entries share a session. */
  lemma EntriesCountRows(es: Entries, rows: seq<Conversation>)
    requires Readable(es) && IsReading(es, rows)
    ensures |rows| <= |es|
    ensures (forall offset: nat :: Follows(|es|, offset) <==> Follows(|rows|, offset)) <==> SessionsApart(es, es.Keys)
  {
    ReadingSessions(es, rows);
    assert DistinctSessions(rows);
    hide IsReading, Readable, SessionsApart, SessionsOf, Sessions, DistinctSessions;
    DistinctSize(rows);
    SessionsSize(es, es.Keys);
    assert |es| == |es.Keys|;
    assert |rows| < |es| ==> Follows(|es|, |rows|) && !Follows(|rows|, |rows|);
  }

  /** One session as two stores of one tool give it. */
  function Twin(source: string): Cached {
    Cached(source, "pi", "pi", "s", None, None, None, TimeParts(true, 0, 0), "live", "project-local", None, None)
  }

  const STORE := "pi"

  const EXTRA_STORE := "pi:extra:0123456789abcdef"

  const TWINS: Entries := map[Key(Twin(STORE)) := Twin(STORE), Key(Twin(EXTRA_STORE)) := Twin(EXTRA_STORE)]

  lemma TwinValid(source: string)
    requires CheckSource(source, Some("pi")).None?
    ensures Validate(Twin(source)).None?
  {
    hide CheckSource;
    assert ValidIdentifier("s") by { TrimmedEnds("s"); }
  }

  lemma StoresApproved()
    ensures CheckSource(STORE, Some("pi")).None? && CheckSource(EXTRA_STORE, Some("pi")).None?
  {
    OtherTool("pi", "claude-code");
    OtherTool("pi", "codex-cli");
    OtherTool("pi", "opencode");
    OtherTool("pi", "omp");
    OtherTool(EXTRA_STORE, "claude-code");
    OtherTool(EXTRA_STORE, "codex-cli");
    OtherTool(EXTRA_STORE, "opencode");
    OtherTool(EXTRA_STORE, "omp");
    assert "pi" + EXTRA == EXTRA_STORE[..9];
    assert Belongs(EXTRA_STORE, "pi");
    hide Belongs;
    assert TOOLS[1..] == ["codex-cli", "opencode", "omp", "pi"];
    assert TOOLS[1..][1..] == ["opencode", "omp", "pi"];
    assert TOOLS[1..][1..][1..] == ["omp", "pi"];
    assert TOOLS[1..][1..][1..][1..] == ["pi"];
  }

  lemma OtherTool(source: string, tool: string)
    requires source != "" && tool != "" && source[0] != tool[0]
    ensures !Belongs(source, tool)
  {
    assert (tool + EXTRA)[0] == tool[0];
  }

  lemma TwinsReadable()
    ensures Readable(TWINS) && |TWINS| == 2
  {
    StoresApproved();
    TwinValid(STORE);
    TwinValid(EXTRA_STORE);
    ApprovedNames(STORE, "pi");
    ApprovedNames(EXTRA_STORE, "pi");
    hide Validate, CheckSource;
    if Key(Twin(STORE)) == Key(Twin(EXTRA_STORE)) {
      KeyUnique(STORE, "pi", "s", EXTRA_STORE, "pi", "s");
    }
    hide Key;
  }

  lemma TwinsSessions()
    ensures SessionsOf(TWINS, TWINS.Keys) == {Session("pi", "s")}
  {
    hide Key;
    assert Key(Twin(STORE)) in TWINS && forall k :: k in TWINS ==> SessionOf(TWINS[k]) == Session("pi", "s");
  }

  /** Two entries of one session make one row: after it a page of limit 0 says more is to come. */
  lemma TwinsExample()
    ensures Readable(TWINS) && |TWINS| == 2 && forall rows :: IsReading(TWINS, rows) ==> |rows| == 1
  {
    TwinsReadable();
    TwinsSessions();
    hide Readable, SessionsOf, Sessions;
    forall rows | IsReading(TWINS, rows) ensures |rows| == 1 {
      ReadingSessions(TWINS, rows);
      DistinctSize(rows);
    }
  }
}
