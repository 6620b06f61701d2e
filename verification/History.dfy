/** The History list: rows per provider and session, their lookup, selection and scrolling. */
module History {
  import opened Wrappers
  import opened Paths
  import opened Sorting
  import opened Texts
  import opened Conversations

  type Lower = string -> string

  datatype Row = ProviderRow(provider: string) | SessionRow(provider: string, session: Session)

  /** What the rows depend on. */
  datatype Listing = Listing(items: seq<Conversation>, providers: seq<string>, collapsed: set<string>, filter: string)

  predicate ProviderMatches(l: Listing, provider: string, lower: Lower) {
    lower(l.filter) == "" || ContainsText(lower(provider), lower(l.filter))
  }

  predicate ItemMatches(l: Listing, v: Conversation, providerMatches: bool, lower: Lower) {
    providerMatches || (v.title.Some? && ContainsText(lower(v.title.value), lower(l.filter)))
  }

  predicate IsShown(l: Listing, v: Conversation, provider: string, lower: Lower) {
    v.tool == provider && ItemMatches(l, v, ProviderMatches(l, provider, lower), lower)
  }

  predicate ProviderVisible(l: Listing, provider: string, lower: Lower) {
    ProviderMatches(l, provider, lower)
    || exists i :: 0 <= i < |l.items| && l.items[i].tool == provider && ItemMatches(l, l.items[i], false, lower)
  }

  /** The session rows of a provider among some items. */
  function SessionRows(l: Listing, items: seq<Conversation>, provider: string, lower: Lower): seq<Row> {
    if items == [] then []
    else
      var n := |items| - 1;
      SessionRows(l, items[..n], provider, lower)
      + (if IsShown(l, items[n], provider, lower) then [SessionRow(provider, items[n].session)] else [])
  }

  /** A visible provider with its sessions, unless collapsed. */
  function ProviderRows(l: Listing, provider: string, lower: Lower): seq<Row> {
    if !ProviderVisible(l, provider, lower) then []
    else [ProviderRow(provider)] + (if provider in l.collapsed then [] else SessionRows(l, l.items, provider, lower))
  }

  function RowsUpTo(l: Listing, providers: seq<string>, lower: Lower): seq<Row> {
    if providers == [] then []
    else RowsUpTo(l, providers[..|providers| - 1], lower) + ProviderRows(l, providers[|providers| - 1], lower)
  }

  /** All rows, in order. */
  function Rows(l: Listing, lower: Lower): seq<Row> {
    RowsUpTo(l, l.providers, lower)
  }

  /** Where a row first occurs. */
  function FirstIndex(rows: seq<Row>, r: Row): Option<nat> {
    if rows == [] then None
    else
      var before := FirstIndex(rows[..|rows| - 1], r);
      if before.Some? then before else if rows[|rows| - 1] == r then Some(|rows| - 1) else None
  }

  lemma {:induction false} FirstIndexIs(rows: seq<Row>, r: Row)
    ensures FirstIndex(rows, r).Some? <==> r in rows
    ensures FirstIndex(rows, r).Some? ==>
              var i := FirstIndex(rows, r).value;
              i < |rows| && rows[i] == r && forall j :: 0 <= j < i ==> rows[j] != r
  {
    if rows != [] {
      var n := |rows| - 1;
      FirstIndexIs(rows[..n], r);
      assert rows == rows[..n] + [rows[n]];
    }
  }

  lemma FirstIndexAppend(a: seq<Row>, b: seq<Row>, r: Row)
    ensures FirstIndex(a + b, r) == if FirstIndex(a, r).Some? then FirstIndex(a, r)
                                    else if FirstIndex(b, r).Some? then Some(|a| + FirstIndex(b, r).value) else None
  {
    FirstIndexIs(a, r);
    FirstIndexIs(b, r);
    FirstIndexIs(a + b, r);
    hide FirstIndex;
    if FirstIndex(a, r).Some? {
      var i := FirstIndex(a, r).value;
      assert (a + b)[i] == r;
      assert forall j :: 0 <= j < i ==> (a + b)[j] == a[j];
    } else if FirstIndex(b, r).Some? {
      var i := FirstIndex(b, r).value;
      assert (a + b)[|a| + i] == r;
    }
  }

  // ---------------------------------------------------------------- distinct rows

  lemma {:induction false} SessionRowIs(l: Listing, items: seq<Conversation>, provider: string, lower: Lower, r: Row)
    ensures r in SessionRows(l, items, provider, lower)
            <==> exists i :: && 0 <= i < |items| && IsShown(l, items[i], provider, lower)
                             && r == SessionRow(provider, items[i].session)
  {
    if items != [] {
      var n := |items| - 1;
      SessionRowIs(l, items[..n], provider, lower, r);
      hide IsShown;
      if r in SessionRows(l, items[..n], provider, lower) {
        var i :| && 0 <= i < n && IsShown(l, items[..n][i], provider, lower)
                 && r == SessionRow(provider, items[..n][i].session);
        assert items[i] == items[..n][i];
      }
      if i :| && 0 <= i < |items| && IsShown(l, items[i], provider, lower)
              && r == SessionRow(provider, items[i].session) {
        if i < n { assert items[..n][i] == items[i]; }
      }
    }
  }

  lemma {:induction false} SessionRowsAre(l: Listing, items: seq<Conversation>, provider: string, lower: Lower)
    ensures forall r :: r in SessionRows(l, items, provider, lower) <==>
              exists i :: 0 <= i < |items| && IsShown(l, items[i], provider, lower)
                  && r == SessionRow(provider, items[i].session)
    ensures DistinctSessions(items) ==> Distinct(SessionRows(l, items, provider, lower))
  {
    forall r ensures r in SessionRows(l, items, provider, lower) <==>
              exists i :: 0 <= i < |items| && IsShown(l, items[i], provider, lower)
                  && r == SessionRow(provider, items[i].session)
    {
      SessionRowIs(l, items, provider, lower, r);
    }
    if items != [] && DistinctSessions(items) {
      var n := |items| - 1;
      SessionRowsAre(l, items[..n], provider, lower);
      SessionRowIs(l, items[..n], provider, lower, SessionRow(provider, items[n].session));
      hide IsShown;
      assert SessionRow(provider, items[n].session) !in SessionRows(l, items[..n], provider, lower);
    }
  }

  lemma ProviderRowsAre(l: Listing, provider: string, lower: Lower)
    ensures forall r :: r in ProviderRows(l, provider, lower) ==> r.provider == provider
    ensures DistinctSessions(l.items) ==> Distinct(ProviderRows(l, provider, lower))
  {
    SessionRowsAre(l, l.items, provider, lower);
    hide ProviderVisible, IsShown;
    var rows := SessionRows(l, l.items, provider, lower);
    forall r | r in rows ensures r.SessionRow? && r.provider == provider {
      var i :| 0 <= i < |l.items| && r == SessionRow(provider, l.items[i].session);
    }
  }

  lemma {:induction false} RowsDistinct(l: Listing, providers: seq<string>, lower: Lower)
    requires DistinctSessions(l.items) && Distinct(providers)
    ensures Distinct(RowsUpTo(l, providers, lower))
    ensures forall r :: r in RowsUpTo(l, providers, lower) ==> r.provider in providers
  {
    if providers != [] {
      var n := |providers| - 1;
      RowsDistinct(l, providers[..n], lower);
      ProviderRowsAre(l, providers[n], lower);
      hide ProviderRows;
      var front, back := RowsUpTo(l, providers[..n], lower), ProviderRows(l, providers[n], lower);
      assert providers[n] !in providers[..n];
      assert providers == providers[..n] + [providers[n]];
      forall i, j | 0 <= i < j < |front + back| ensures (front + back)[i] != (front + back)[j] {
        if i < |front| <= j {
          assert front[i] in front && back[j - |front|] in back;
        }
      }
    }
  }

  // ---------------------------------------------------------------- which rows there are, and where

  /** A text passes the filter: an empty filter, or one that occurs in it, whatever the case. */
  predicate Passes(l: Listing, text: string, lower: Lower) {
    lower(l.filter) == "" || ContainsText(lower(text), lower(l.filter))
  }

  /** A session has a row: its provider or its title passes. */
  predicate HasRow(l: Listing, v: Conversation, lower: Lower) {
    Passes(l, v.tool, lower) || (v.title.Some? && ContainsText(lower(v.title.value), lower(l.filter)))
  }

  /** A provider has a row if it passes or one of its sessions does by its title; a session has one under its
      provider unless that is collapsed. */
  predicate Deserved(l: Listing, r: Row, lower: Lower) {
    match r
    case ProviderRow(p) =>
      Passes(l, p, lower) || exists i :: 0 <= i < |l.items| && l.items[i].tool == p && HasRow(l, l.items[i], lower)
    case SessionRow(p, s) =>
      && p !in l.collapsed
      && exists i :: && 0 <= i < |l.items| && l.items[i].tool == p && l.items[i].session == s
                     && HasRow(l, l.items[i], lower)
  }

  lemma ShownIs(l: Listing, v: Conversation, p: string, lower: Lower)
    ensures IsShown(l, v, p, lower) <==> v.tool == p && HasRow(l, v, lower)
    ensures HasRow(l, v, lower) <==> Passes(l, v.tool, lower) || ItemMatches(l, v, false, lower)
  {
    hide ContainsText;
  }

  lemma ProviderVisibleIs(l: Listing, p: string, lower: Lower)
    ensures ProviderVisible(l, p, lower) <==> Deserved(l, ProviderRow(p), lower)
  {
    forall i | 0 <= i < |l.items|
      ensures HasRow(l, l.items[i], lower)
              <==> Passes(l, l.items[i].tool, lower) || ItemMatches(l, l.items[i], false, lower)
    {
      ShownIs(l, l.items[i], p, lower);
    }
    assert Passes(l, p, lower) == ProviderMatches(l, p, lower);
    hide HasRow, ItemMatches, Passes, ProviderMatches;
  }

  lemma ProviderRowIs(l: Listing, p: string, lower: Lower, r: Row)
    ensures r in ProviderRows(l, p, lower) <==> r.provider == p && Deserved(l, r, lower)
  {
    SessionRowIs(l, l.items, p, lower, r);
    ProviderVisibleIs(l, p, lower);
    forall i | 0 <= i < |l.items|
      ensures IsShown(l, l.items[i], p, lower) <==> l.items[i].tool == p && HasRow(l, l.items[i], lower)
      ensures HasRow(l, l.items[i], lower) && l.items[i].tool == p ==> Deserved(l, ProviderRow(p), lower)
    {
      ShownIs(l, l.items[i], p, lower);
    }
    hide SessionRows, IsShown, HasRow, ProviderVisible, Passes;
  }

  lemma {:induction false} RowIs(l: Listing, providers: seq<string>, lower: Lower, r: Row)
    ensures r in RowsUpTo(l, providers, lower) <==> r.provider in providers && Deserved(l, r, lower)
  {
    hide Deserved;
    if providers != [] {
      var n := |providers| - 1;
      RowIs(l, providers[..n], lower, r);
      ProviderRowIs(l, providers[n], lower, r);
      hide ProviderRows;
      JoinedMembers(RowsUpTo(l, providers[..n], lower), ProviderRows(l, providers[n], lower), r);
      JoinedMembers(providers[..n], [providers[n]], r.provider);
      assert providers == providers[..n] + [providers[n]];
    }
  }

  lemma JoinedMembers<T>(a: seq<T>, b: seq<T>, x: T)
    ensures x in a + b <==> x in a || x in b
  {
  }

  /** Exactly the rows that listed providers and their sessions deserve are there. */
  lemma RowsMeaning(l: Listing, lower: Lower)
    ensures forall r :: r in Rows(l, lower) <==> r.provider in l.providers && Deserved(l, r, lower)
  {
    RowsAre(l, lower);
    hide Rows, Deserved, RowsUpTo;
    forall r ensures r in Rows(l, lower) <==> r.provider in l.providers && Deserved(l, r, lower) {
      RowIs(l, l.providers, lower, r);
    }
  }

  lemma RowsAre(l: Listing, lower: Lower)
    ensures Rows(l, lower) == RowsUpTo(l, l.providers, lower)
  {
  }

  /** One row comes before another: of an earlier provider, or the provider's own, or of an earlier item. */
  predicate Precedes(items: seq<Conversation>, providers: seq<string>, a: Row, b: Row) {
    || (exists x, y :: 0 <= x < y < |providers| && providers[x] == a.provider && providers[y] == b.provider)
    || (a == ProviderRow(b.provider) && b.SessionRow?)
    || ItemsInOrder(items, a.provider, a, b)
  }

  /** Rows of two items, the one of the earlier item first. */
  predicate ItemsInOrder(items: seq<Conversation>, p: string, a: Row, b: Row) {
    exists x, y :: 0 <= x < y < |items| && a == SessionRow(p, items[x].session) && b == SessionRow(p, items[y].session)
  }

  predicate AllInOrder(items: seq<Conversation>, p: string, rows: seq<Row>) {
    forall i, j :: 0 <= i < j < |rows| ==> ItemsInOrder(items, p, rows[i], rows[j])
  }

  lemma {:induction false} SessionsInOrder(l: Listing, items: seq<Conversation>, p: string, lower: Lower)
    ensures AllInOrder(items, p, SessionRows(l, items, p, lower))
  {
    hide IsShown;
    if items != [] {
      var n := |items| - 1;
      SessionsInOrder(l, items[..n], p, lower);
      var front, rows := SessionRows(l, items[..n], p, lower), SessionRows(l, items, p, lower);
      assert forall x :: 0 <= x < n ==> items[..n][x] == items[x];
      forall i, j | 0 <= i < j < |rows| ensures ItemsInOrder(items, p, rows[i], rows[j]) {
        if j < |front| {
          assert rows[i] == front[i] && rows[j] == front[j];
          assert ItemsInOrder(items[..n], p, front[i], front[j]);
        } else {
          SessionRowIs(l, items[..n], p, lower, front[i]);
          assert front[i] in front;
        }
      }
    }
  }

  lemma ProviderInOrder(l: Listing, providers: seq<string>, p: string, lower: Lower)
    ensures var rows := ProviderRows(l, p, lower);
            forall i, j :: 0 <= i < j < |rows| ==> Precedes(l.items, providers, rows[i], rows[j])
  {
    SessionsInOrder(l, l.items, p, lower);
    var sessions := SessionRows(l, l.items, p, lower);
    forall r | r in sessions ensures r.SessionRow? && r.provider == p { SessionRowIs(l, l.items, p, lower, r); }
    hide ProviderVisible, SessionRows, IsShown;
    forall i, j | 0 <= i < j < |sessions| ensures Precedes(l.items, providers, sessions[i], sessions[j]) {
      assert sessions[i] in sessions && ItemsInOrder(l.items, p, sessions[i], sessions[j]);
    }
  }

  /** Rows come provider by provider in their order, the provider's own row before those of its sessions, and
      these in the order of the items. */
  lemma {:induction false} RowsInOrder(l: Listing, providers: seq<string>, lower: Lower)
    ensures var rows := RowsUpTo(l, providers, lower);
            forall i, j :: 0 <= i < j < |rows| ==> Precedes(l.items, providers, rows[i], rows[j])
  {
    if providers != [] {
      var n := |providers| - 1;
      RowsInOrder(l, providers[..n], lower);
      ProviderInOrder(l, providers, providers[n], lower);
      hide ProviderRows;
      BlocksInOrder(l, providers, lower, RowsUpTo(l, providers[..n], lower), ProviderRows(l, providers[n], lower));
    }
  }

  lemma BlocksInOrder(l: Listing, providers: seq<string>, lower: Lower, front: seq<Row>, back: seq<Row>)
    requires providers != [] && front == RowsUpTo(l, providers[..|providers| - 1], lower)
    requires back == ProviderRows(l, providers[|providers| - 1], lower)
    requires forall i, j :: 0 <= i < j < |front| ==> Precedes(l.items, providers[..|providers| - 1], front[i], front[j])
    requires forall i, j :: 0 <= i < j < |back| ==> Precedes(l.items, providers, back[i], back[j])
    ensures forall i, j :: 0 <= i < j < |front + back| ==>
              Precedes(l.items, providers, (front + back)[i], (front + back)[j])
  {
    var n := |providers| - 1;
    hide RowsUpTo, ProviderRows;
    forall i, j | 0 <= i < j < |front + back|
      ensures Precedes(l.items, providers, (front + back)[i], (front + back)[j])
    {
      if j < |front| {
        PrecedesMore(l.items, providers, front[i], front[j]);
      } else if i < |front| {
        RowIs(l, providers[..n], lower, front[i]);
        ProviderRowIs(l, providers[n], lower, back[j - |front|]);
        assert front[i] in front && back[j - |front|] in back;
        var x :| 0 <= x < n && providers[..n][x] == front[i].provider;
        assert providers[x] == front[i].provider && providers[n] == back[j - |front|].provider;
      }
      hide Precedes, Deserved;
    }
  }

  lemma PrecedesMore(items: seq<Conversation>, providers: seq<string>, a: Row, b: Row)
    requires providers != [] && Precedes(items, providers[..|providers| - 1], a, b)
    ensures Precedes(items, providers, a, b)
  {
    var n := |providers| - 1;
    if x, y :| 0 <= x < y < n && providers[..n][x] == a.provider && providers[..n][y] == b.provider {
      assert providers[x] == a.provider && providers[y] == b.provider;
    }
  }

  // ---------------------------------------------------------------- selection and scrolling

  /** The row a selection stands for. */
  function SelectedTarget(provider: Option<string>, selection: Option<Session>): Option<Row> {
    match provider
    case None => None
    case Some(p) => match selection case None => Some(ProviderRow(p)) case Some(s) => Some(SessionRow(p, s))
  }

  function SelectedIndex(rows: seq<Row>, provider: Option<string>, selection: Option<Session>): Option<nat> {
    var target := SelectedTarget(provider, selection);
    if target.None? then None else FirstIndex(rows, target.value)
  }

  /** The scroll position after bringing a row into view: to the top if nothing is selected. */
  function ScrolledTo(scroll: nat, selected: Option<nat>, count: nat, height: nat): nat {
    if selected.None? then 0
    else
      var row := selected.value;
      var moved := if row < scroll then row
                   else if height != 0 && row >= scroll + height then row + 1 - height else scroll;
      if count < height then 0 else if moved <= count - height then moved else count - height
  }

  /** In a non-empty viewport the selected row is in view and no blank space is shown that rows could fill. */
  lemma ScrollShows(scroll: nat, row: nat, count: nat, height: nat)
    requires row < count && height > 0
    ensures var s := ScrolledTo(scroll, Some(row), count, height);
            s <= row < s + height && (s == 0 || s + height <= count)
  {
  }

  /** How far apart two positions are. */
  function Apart(a: nat, b: nat): nat {
    if a < b then b - a else a - b
  }

  /** No other position that shows the row without blank space is nearer; without a selection the list goes back
      to the top. */
  lemma ScrollsLeast(scroll: nat, row: nat, count: nat, height: nat, other: nat)
    requires row < count && height > 0
    requires other <= row < other + height && (other == 0 || other + height <= count)
    ensures Apart(scroll, ScrolledTo(scroll, Some(row), count, height)) <= Apart(scroll, other)
    ensures ScrolledTo(scroll, None, count, height) == 0
  {
  }

  /** The selected row is where the selection first occurs. */
  lemma SelectedMeaning(rows: seq<Row>, provider: Option<string>, selection: Option<Session>, i: nat)
    ensures SelectedIndex(rows, provider, selection) == Some(i) <==>
            && provider.Some? && i < |rows|
            && rows[i] == (if selection.Some? then SessionRow(provider.value, selection.value)
                           else ProviderRow(provider.value))
            && forall j :: 0 <= j < i ==> rows[j] != rows[i]
  {
    if provider.Some? { FirstIndexIs(rows, SelectedTarget(provider, selection).value); }
    hide FirstIndex;
  }

  /** A session listed twice: selecting its second row selects the first. */
  lemma RepeatedRowExample(v: Conversation, lower: Lower)
    requires lower("") == ""
    ensures var rows := Rows(Listing([v, v], [v.tool], {}, ""), lower);
            var row := SessionRow(v.tool, v.session);
            rows == [ProviderRow(v.tool), row, row] && FirstIndex(rows, rows[2]) == Some(1)
  {
    var l := Listing([v, v], [v.tool], {}, "");
    var row := SessionRow(v.tool, v.session);
    assert [v, v][..1] == [v] && [v][..0] == [] && SessionRows(l, [], v.tool, lower) == [];
    assert SessionRows(l, [v], v.tool, lower) == [row];
    assert SessionRows(l, l.items, v.tool, lower) == [row] + [row];
    assert [v.tool][..0] == [] && RowsUpTo(l, [], lower) == [];
    assert Rows(l, lower) == [ProviderRow(v.tool), row, row];
    FirstIndexIs(Rows(l, lower), row);
  }

  /** Selecting a row selects the first row like it; without duplicate sessions, the row itself. */
  lemma SelectThenSelected(l: Listing, lower: Lower, row: nat)
    requires row < |Rows(l, lower)|
    ensures FirstIndex(Rows(l, lower), Rows(l, lower)[row]).Some?
    ensures FirstIndex(Rows(l, lower), Rows(l, lower)[row]).value <= row
    ensures FirstIndex(Rows(l, lower), Rows(l, lower)[row]).value == row
            <==> forall j :: 0 <= j < row ==> Rows(l, lower)[j] != Rows(l, lower)[row]
    ensures Distinct(l.providers) && DistinctSessions(l.items)
        ==> FirstIndex(Rows(l, lower), Rows(l, lower)[row]).value == row
  {
    var rows := Rows(l, lower);
    FirstIndexIs(rows, rows[row]);
    if Distinct(l.providers) && DistinctSessions(l.items) { RowsDistinct(l, l.providers, lower); }
    hide RowsUpTo, FirstIndex;
  }

  /** Without duplicate sessions, selecting a row in a non-empty viewport selects it and shows it. */
  lemma SelectShows(l: Listing, lower: Lower, row: nat, scroll: nat, height: nat)
    requires row < |Rows(l, lower)| && height > 0 && Distinct(l.providers) && DistinctSessions(l.items)
    ensures var rows := Rows(l, lower);
            var s := ScrolledTo(scroll, FirstIndex(rows, rows[row]), |rows|, height);
            FirstIndex(rows, rows[row]) == Some(row) && s <= row < s + height
  {
    SelectThenSelected(l, lower, row);
    ScrollShows(scroll, row, |Rows(l, lower)|, height);
    hide Rows, FirstIndex, ScrolledTo;
  }

  // ---------------------------------------------------------------- replacing the items

  function ToolsOf(items: seq<Conversation>): set<string> {
    set i | 0 <= i < |items| :: items[i].tool
  }

  predicate HasSession(items: seq<Conversation>, s: Session) {
    exists i :: 0 <= i < |items| && items[i].session == s
  }

  /** The first item of a session. */
  function ItemOf(items: seq<Conversation>, s: Session): Option<Conversation> {
    if items == [] then None else if items[0].session == s then Some(items[0]) else ItemOf(items[1..], s)
  }

  lemma {:induction false} ItemOfIs(items: seq<Conversation>, s: Session)
    ensures ItemOf(items, s).Some? <==> HasSession(items, s)
    ensures ItemOf(items, s).Some? ==> ItemOf(items, s).value in items && ItemOf(items, s).value.session == s
  {
    if items != [] {
      ItemOfIs(items[1..], s);
      if items[0].session != s {
        if i :| 0 <= i < |items| && items[i].session == s { assert items[1..][i - 1].session == s; }
        if i :| 0 <= i < |items[1..]| && items[1..][i].session == s { assert items[i + 1].session == s; }
      }
    }
  }

  /** Two conversations come from the same file. */
  predicate SharesFile(a: Conversation, b: Conversation) {
    exists p :: p in a.provenance && p.path.Some? && p in b.provenance
  }

  function Sharing(items: seq<Conversation>, v: Conversation): seq<Conversation> {
    if items == [] then []
    else Sharing(items[..|items| - 1], v) + (if SharesFile(v, items[|items| - 1]) then [items[|items| - 1]] else [])
  }

  lemma {:induction false} SharingIs(items: seq<Conversation>, v: Conversation)
    ensures forall w :: w in Sharing(items, v) <==> w in items && SharesFile(v, w)
  {
    hide SharesFile;
    if items != [] {
      var n := |items| - 1;
      SharingIs(items[..n], v);
      assert items == items[..n] + [items[n]];
    }
  }

  /** A selection whose session is gone moves to the one item from the same file, if there is exactly one. */
  function Migrated(before: seq<Conversation>, after: seq<Conversation>, selection: Option<Session>): Option<Session> {
    if selection.None? then None
    else if HasSession(after, selection.value) then selection
    else
      var gone := ItemOf(before, selection.value);
      if gone.None? then None
      else
        var sharing := Sharing(after, gone.value);
        if |sharing| == 1 then Some(sharing[0].session) else None
  }

  /** The first item of a session. */
  predicate FirstOf(items: seq<Conversation>, s: Session, v: Conversation) {
    exists k :: 0 <= k < |items| && items[k] == v && v.session == s && forall j :: 0 <= j < k ==> items[j].session != s
  }

  lemma {:induction false} ItemOfFirst(items: seq<Conversation>, s: Session)
    ensures ItemOf(items, s).Some? ==> FirstOf(items, s, ItemOf(items, s).value)
    ensures ItemOf(items, s).None? ==> forall v :: !FirstOf(items, s, v)
  {
    ItemOfIs(items, s);
    if items != [] {
      ItemOfFirst(items[1..], s);
      if items[0].session != s && ItemOf(items, s).Some? {
        var v := ItemOf(items, s).value;
        var k :| && 0 <= k < |items| - 1 && items[1..][k] == v
                 && forall j :: 0 <= j < k ==> items[1..][j].session != s;
        assert items[k + 1] == v;
        assert forall j :: 0 < j < k + 1 ==> items[j] == items[1..][j - 1];
      }
    }
  }

  lemma FirstUnique(items: seq<Conversation>, s: Session, v: Conversation, w: Conversation)
    requires FirstOf(items, s, v) && FirstOf(items, s, w)
    ensures v == w
  {
  }

  /** Of some items only one has a path in common with a conversation, by the same source. */
  ghost predicate OnlySharing(items: seq<Conversation>, v: Conversation, i: nat) {
    && i < |items|
    && (exists p :: p in v.provenance && p in items[i].provenance && p.path.Some?)
    && forall j, p :: 0 <= j < |items| && p in v.provenance && p in items[j].provenance && p.path.Some? ==> j == i
  }

  lemma {:induction false} SharingOnly(items: seq<Conversation>, v: Conversation)
    ensures |Sharing(items, v)| == 1 ==>
              exists i: nat :: OnlySharing(items, v, i) && items[i] == Sharing(items, v)[0]
    ensures forall i: nat :: OnlySharing(items, v, i) ==> Sharing(items, v) == [items[i]]
    ensures Sharing(items, v) == [] ==> forall i :: 0 <= i < |items| ==> !SharesFile(v, items[i])
  {
    if items != [] {
      var n := |items| - 1;
      SharingOnly(items[..n], v);
      SharingIs(items[..n], v);
      assert forall i :: 0 <= i < n ==> items[..n][i] == items[i];
      if |Sharing(items, v)| == 1 {
        if SharesFile(v, items[n]) {
          assert OnlySharing(items, v, n);
        } else {
          var i: nat :| OnlySharing(items[..n], v, i) && items[..n][i] == Sharing(items[..n], v)[0];
          assert OnlySharing(items, v, i);
        }
      }
      forall i: nat | OnlySharing(items, v, i) ensures Sharing(items, v) == [items[i]] {
        if i < n {
          assert OnlySharing(items[..n], v, i);
        } else {
          NoneSharing(items[..n], v);
        }
      }
    }
  }

  lemma {:induction false} NoneSharing(items: seq<Conversation>, v: Conversation)
    requires forall i :: 0 <= i < |items| ==> !SharesFile(v, items[i])
    ensures Sharing(items, v) == []
  {
    if items != [] { NoneSharing(items[..|items| - 1], v); }
  }

  /** A selection among the new items stays; one whose session is gone moves to the only new item that shares a
      file with the session's first item, if there is just one. */
  lemma MigratedMeaning(before: seq<Conversation>, after: seq<Conversation>, selection: Option<Session>, s: Session)
    ensures Migrated(before, after, selection) == Some(s) <==>
            && selection.Some?
            && if HasSession(after, selection.value) then s == selection.value
               else exists v, i: nat ::
                 FirstOf(before, selection.value, v) && OnlySharing(after, v, i) && after[i].session == s
    ensures Migrated(before, after, selection) == Some(s) ==> HasSession(after, s)
  {
    if selection.Some? && !HasSession(after, selection.value) {
      ItemOfFirst(before, selection.value);
      var gone := ItemOf(before, selection.value);
      if gone.Some? {
        SharingOnly(after, gone.value);
        forall v | FirstOf(before, selection.value, v) ensures v == gone.value {
          FirstUnique(before, selection.value, v, gone.value);
        }
      }
      hide FirstOf, OnlySharing, Sharing, ItemOf;
      if gone.Some? && |Sharing(after, gone.value)| == 1 {
        var i: nat :| OnlySharing(after, gone.value, i) && after[i] == Sharing(after, gone.value)[0];
        assert i < |after| by { OnlyInRange(after, gone.value, i); }
      }
    }
  }

  lemma OnlyInRange(items: seq<Conversation>, v: Conversation, i: nat)
    requires OnlySharing(items, v, i)
    ensures i < |items|
  {
  }

  /** Where a move by some rows ends; with nothing selected it starts from the end it comes from. */
  function MovedTo(current: Option<nat>, delta: int, count: nat): nat
    requires count > 0
  {
    match current
    case None => if delta < 0 then count - 1 else 0
    case Some(row) =>
      if delta < 0 then (if row + delta < 0 then 0 else row + delta)
      else if row + delta < count - 1 then row + delta else count - 1
  }

  /** A move goes as far as it should, or to the end it would pass. */
  lemma MovedMeaning(row: nat, delta: int, count: nat)
    requires row < count
    ensures MovedTo(Some(row), delta, count)
            == if row + delta < 0 then 0 else if row + delta >= count then count - 1 else row + delta
    ensures MovedTo(None, delta, count) == if delta < 0 then count - 1 else 0
  {
  }

  lemma OneRow(a: Row, r: Row)
    ensures FirstIndex([a], r) == if a == r then Some(0) else None
  {
    assert FirstIndex([a][..0], r) == None;
  }

  lemma FirstIndexPrefix(a: seq<Row>, b: seq<Row>, r: Row)
    requires a <= b && FirstIndex(a, r).Some?
    ensures FirstIndex(b, r) == FirstIndex(a, r)
  {
    assert b == a + b[|a|..];
    FirstIndexAppend(a, b[|a|..], r);
  }

  // ---------------------------------------------------------------- the view

  /** The rows of the first providers. */
  function RowsBefore(l: Listing, i: nat, lower: Lower): seq<Row>
    requires i <= |l.providers|
  {
    RowsUpTo(l, l.providers[..i], lower)
  }

  lemma RowsPrefix(l: Listing, i: nat, lower: Lower)
    requires i < |l.providers|
    ensures RowsBefore(l, i + 1, lower) == RowsBefore(l, i, lower) + ProviderRows(l, l.providers[i], lower)
  {
    assert l.providers[..i + 1][..i] == l.providers[..i];
  }

  /** Rows before a place in the list are rows of the list. */
  lemma {:induction false} RowsExtend(l: Listing, i: nat, lower: Lower)
    requires i <= |l.providers|
    ensures RowsBefore(l, i, lower) <= Rows(l, lower)
    decreases |l.providers| - i
  {
    if i < |l.providers| {
      RowsPrefix(l, i, lower);
      RowsExtend(l, i + 1, lower);
      hide RowsUpTo, ProviderRows;
    } else {
      assert l.providers[..i] == l.providers;
    }
  }

  method IsProviderVisible(l: Listing, provider: string, lower: Lower) returns (visible: bool)
    ensures visible == ProviderVisible(l, provider, lower)
  {
    visible := ProviderMatches(l, provider, lower);
    if visible { return; }
    for i := 0 to |l.items|
      invariant forall j :: 0 <= j < i ==> !(l.items[j].tool == provider && ItemMatches(l, l.items[j], false, lower))
    {
      if l.items[i].tool == provider && ItemMatches(l, l.items[i], false, lower) { return true; }
    }
  }

  method CountSessions(l: Listing, provider: string, lower: Lower) returns (count: nat)
    ensures count == |SessionRows(l, l.items, provider, lower)|
  {
    count := 0;
    NoSessions(l, provider, lower);
    hide IsShown, SessionRows;
    for i := 0 to |l.items|
      invariant count == |SessionRows(l, l.items[..i], provider, lower)|
    {
      SessionStep(l, i, provider, lower);
      if IsShown(l, l.items[i], provider, lower) { count := count + 1; }
    }
    assert l.items[..|l.items|] == l.items;
  }

  method CountRows(l: Listing, lower: Lower) returns (count: nat)
    ensures count == |Rows(l, lower)|
  {
    hide *;
    count := 0;
    NoRows(l, lower);
    PlaceEnds(l, lower);
    for i := 0 to |l.providers|
      invariant count == |RowsBefore(l, i, lower)|
    {
      BlockPrefix(l, i, lower);
      BlockIs(l, l.providers[i], lower);
      var visible := IsProviderVisible(l, l.providers[i], lower);
      if visible {
        var sessions := CountSessions(l, l.providers[i], lower);
        count := count + 1 + (if l.providers[i] in l.collapsed then 0 else sessions);
      }
    }
  }

  /** Looks for the row at a place among a provider's sessions, counting on from `from`. */
  method SessionAt(l: Listing, provider: string, from: nat, target: nat, lower: Lower) returns (found: Option<Row>,
      row: nat)
    requires from <= target
    ensures var rows := SessionRows(l, l.items, provider, lower);
            && (target < from + |rows| ==> found == Some(rows[target - from]))
            && (target >= from + |rows| ==> found.None? && row == from + |rows|)
  {
    row := from;
    NoSessions(l, provider, lower);
    hide IsShown, SessionRows;
    for i := 0 to |l.items|
      invariant row == from + |SessionRows(l, l.items[..i], provider, lower)| <= target
    {
      SessionStep(l, i, provider, lower);
      if IsShown(l, l.items[i], provider, lower) {
        if row == target {
          SessionRowsExtend(l, l.items, i + 1, provider, lower);
          return Some(SessionRow(provider, l.items[i].session)), row;
        }
        row := row + 1;
      }
    }
    assert l.items[..|l.items|] == l.items;
    found := None;
  }

  method RowAt(l: Listing, target: nat, lower: Lower) returns (found: Option<Row>)
    ensures found == if target < |Rows(l, lower)| then Some(Rows(l, lower)[target]) else None
  {
    hide *;
    var row: nat := 0;
    NoRows(l, lower);
    PlaceEnds(l, lower);
    for i := 0 to |l.providers|
      invariant row == |RowsBefore(l, i, lower)| <= target
    {
      BlockPrefix(l, i, lower);
      BlockIs(l, l.providers[i], lower);
      var visible := IsProviderVisible(l, l.providers[i], lower);
      if !visible { continue; }
      if row == target { return Some(ProviderRow(l.providers[i])); }
      row := row + 1;
      if l.providers[i] in l.collapsed { continue; }
      found, row := SessionAt(l, l.providers[i], row, target, lower);
      if found.Some? { return; }
    }
    found := None;
  }

  /** Looks for a session row among a provider's sessions. */
  method FindSession(l: Listing, provider: string, target: Row, lower: Lower) returns (place: Option<nat>, count: nat)
    ensures var rows := SessionRows(l, l.items, provider, lower);
            && (place.None? ==> count == |rows|)
            && place == FirstIndex(rows, target)
  {
    count := 0;
    NoSessions(l, provider, lower);
    assert FirstIndex([], target).None?;
    hide *;
    for i := 0 to |l.items|
      invariant count == |SessionRows(l, l.items[..i], provider, lower)|
      invariant FirstIndex(SessionRows(l, l.items[..i], provider, lower), target).None?
    {
      SessionStep(l, i, provider, lower);
      if IsShown(l, l.items[i], provider, lower) {
        SessionFound(l, i, provider, target, lower);
        if SessionRow(provider, l.items[i].session) == target {
          return Some(count), count;
        }
        count := count + 1;
      }
    }
    assert l.items[..|l.items|] == l.items;
    place := None;
  }

  /** Looks for a row among the rows of one provider. */
  method FindInProvider(l: Listing, provider: string, target: Row, lower: Lower) returns (place: Option<nat>,
      count: nat)
    ensures var rows := ProviderRows(l, provider, lower);
            && (place.None? ==> count == |rows|)
            && place == FirstIndex(rows, target)
  {
    assert FirstIndex([], target).None?;
    hide *;
    BlockIs(l, provider, lower);
    var visible := IsProviderVisible(l, provider, lower);
    if !visible { return None, 0; }
    OneRow(ProviderRow(provider), target);
    FirstIndexAppend([ProviderRow(provider)], if provider in l.collapsed then []
        else SessionRows(l, l.items, provider, lower), target);
    if ProviderRow(provider) == target { return Some(0), 0; }
    if provider in l.collapsed { return None, 1; }
    var found, sessions := FindSession(l, provider, target, lower);
    place := if found.Some? then Some(1 + found.value) else None;
    count := 1 + sessions;
  }

  /** The first place of a row. */
  method FindRow(l: Listing, target: Row, lower: Lower) returns (place: Option<nat>)
    ensures place == FirstIndex(Rows(l, lower), target)
  {
    assert FirstIndex([], target).None?;
    hide *;
    var row: nat := 0;
    NoRows(l, lower);
    PlaceEnds(l, lower);
    for i := 0 to |l.providers|
      invariant row == |RowsBefore(l, i, lower)|
      invariant FirstIndex(RowsBefore(l, i, lower), target).None?
    {
      var found, count := FindInProvider(l, l.providers[i], target, lower);
      FoundStep(l, i, target, lower);
      if found.Some? {
        var at: nat := row + found.value;
        assert FirstIndex(Rows(l, lower), target).value == at;
        return Some(at);
      }
      row := row + count;
    }
    place := None;
  }

  class HistoryView {
    var items: seq<Conversation>
    var providers: seq<string>
    var collapsed: set<string>
    var filter: string
    var selectedProvider: Option<string>
    var selection: Option<Session>
    var scroll: nat

    function Shown(): Listing
      reads this
    {
      Listing(items, providers, collapsed, filter)
    }

    /** The providers are the tools of the items, in order. */
    ghost predicate Valid()
      reads this
    {
      && Distinct(providers) && Sorted(NameLess, providers) && forall p :: p in providers <==> p in ToolsOf(items)
    }

    constructor ()
      ensures Valid() && items == [] && selection == None && scroll == 0
    {
      items, providers, collapsed, filter := [], [], {}, "";
      selectedProvider, selection, scroll := None, None, 0;
    }

    method VisibleRowCount(lower: Lower) returns (count: nat)
      ensures count == |Rows(Shown(), lower)|
    {
      count := CountRows(Shown(), lower);
    }

    /** The row at a place, if there are that many. */
    method TargetAtRow(target: nat, lower: Lower) returns (found: Option<Row>)
      ensures found == if target < |Rows(Shown(), lower)| then Some(Rows(Shown(), lower)[target]) else None
    {
      found := RowAt(Shown(), target, lower);
    }

    /** The place of the selected row. */
    method SelectedRow(lower: Lower) returns (place: Option<nat>)
      ensures place == SelectedIndex(Rows(Shown(), lower), selectedProvider, selection)
    {
      var target := SelectedTarget(selectedProvider, selection);
      if target.None? { return None; }
      place := FindRow(Shown(), target.value, lower);
    }

    method EnsureSelectedRowVisible(height: nat, lower: Lower)
      modifies this`scroll
      ensures scroll == ScrolledTo(old(scroll), SelectedIndex(Rows(Shown(), lower), selectedProvider, selection),
          |Rows(Shown(), lower)|, height)
    {
      hide Rows, SelectedIndex;
      var row := SelectedRow(lower);
      if row.None? {
        scroll := 0;
        return;
      }
      if row.value < scroll {
        scroll := row.value;
      } else if height != 0 && row.value >= scroll + height {
        scroll := row.value + 1 - height;
      }
      var count := VisibleRowCount(lower);
      var last := if count < height then 0 else count - height;
      scroll := if scroll <= last then scroll else last;
    }

    /** Selects the row at a place and brings it into view. */
    method SelectRow(row: nat, height: nat, lower: Lower) returns (changed: bool)
      modifies this`selectedProvider, this`selection, this`scroll
      ensures var rows := Rows(Shown(), lower);
              if row < |rows| then
                && SelectedTarget(selectedProvider, selection) == Some(rows[row])
                && changed == ((selectedProvider, selection) != (old(selectedProvider), old(selection)))
                && scroll == ScrolledTo(old(scroll), FirstIndex(rows, rows[row]), |rows|, height)
              else
                && !changed && selectedProvider == old(selectedProvider)
                && selection == old(selection) && scroll == old(scroll)
    {
      hide Rows, FirstIndex, ScrolledTo;
      var target := TargetAtRow(row, lower);
      if target.None? { return false; }
      var provider := target.value.provider;
      var chosen := match target.value case ProviderRow(_) => None case SessionRow(_, session) => Some(session);
      changed := selectedProvider != Some(provider) || selection != chosen;
      selectedProvider, selection := Some(provider), chosen;
      EnsureSelectedRowVisible(height, lower);
    }

    /** Moves the selection by some rows, stopping at either end. */
    method MoveRowSelection(delta: int, height: nat, lower: Lower) returns (changed: bool)
      modifies this`selectedProvider, this`selection, this`scroll
      ensures var rows := Rows(Shown(), lower);
              if rows == [] then
                !changed && selectedProvider == old(selectedProvider) && selection == old(selection)
                    && scroll == old(scroll)
              else
                var next := MovedTo(SelectedIndex(rows, old(selectedProvider), old(selection)), delta, |rows|);
                && next < |rows| && SelectedTarget(selectedProvider, selection) == Some(rows[next])
                && changed == ((selectedProvider, selection) != (old(selectedProvider), old(selection)))
                && scroll == ScrolledTo(old(scroll), FirstIndex(rows, rows[next]), |rows|, height)
    {
      hide Rows, FirstIndex, ScrolledTo;
      var count := VisibleRowCount(lower);
      if count == 0 { return false; }
      var current := SelectedRow(lower);
      FirstIndexIs(Rows(Shown(), lower), if SelectedTarget(selectedProvider, selection).Some?
          then SelectedTarget(selectedProvider, selection).value else ProviderRow(""));
      changed := SelectRow(MovedTo(current, delta, count), height, lower);
    }

    /** Collapses or expands the selected provider; collapsing from a session goes up to its provider. */
    method SetSelectedProviderCollapsed(collapse: bool, height: nat, lower: Lower) returns (changed: bool)
      modifies this`collapsed, this`selection, this`scroll
      ensures selectedProvider.None? ==> !changed && collapsed == old(collapsed) && selection == old(selection)
      ensures selectedProvider.Some? && old(selection).Some? ==>
                changed == collapse && collapsed == old(collapsed)
                    && selection == if collapse then None else old(selection)
      ensures selectedProvider.Some? && old(selection).None? ==>
                && selection.None?
                && collapsed == (if collapse then old(collapsed) + {selectedProvider.value}
                    else old(collapsed) - {selectedProvider.value})
                && changed == (collapsed != old(collapsed))
      ensures scroll == if selectedProvider.None? || (old(selection).Some? && !collapse) then old(scroll)
                        else ScrolledTo(old(scroll), SelectedIndex(Rows(Shown(), lower), selectedProvider, selection),
                                        |Rows(Shown(), lower)|, height)
    {
      hide Rows, FirstIndex, ScrolledTo, SelectedIndex;
      if selectedProvider.None? { return false; }
      var provider := selectedProvider.value;
      if selection.Some? {
        if !collapse { return false; }
        selection := None;
        EnsureSelectedRowVisible(height, lower);
        return true;
      }
      changed := (provider in collapsed) != collapse;
      collapsed := if collapse then collapsed + {provider} else collapsed - {provider};
      EnsureSelectedRowVisible(height, lower);
    }

    method FindItem(within: seq<Conversation>, s: Session) returns (r: Option<Conversation>)
      ensures r == ItemOf(within, s)
    {
      var i := 0;
      while i < |within|
        invariant 0 <= i <= |within| && ItemOf(within, s) == ItemOf(within[i..], s)
      {
        if within[i].session == s { return Some(within[i]); }
        i := i + 1;
      }
      r := None;
    }

    method FindSharing(within: seq<Conversation>, v: Conversation) returns (r: seq<Conversation>)
      ensures r == Sharing(within, v)
    {
      r := [];
      for i := 0 to |within|
        invariant r == Sharing(within[..i], v)
      {
        assert within[..i + 1][..i] == within[..i];
        if exists p :: p in v.provenance && p.path.Some? && p in within[i].provenance {
          r := r + [within[i]];
        }
      }
      assert within[..|within|] == within;
    }

    method OrderTools(next: seq<Conversation>) returns (tools: seq<string>)
      ensures Distinct(tools) && Sorted(NameLess, tools) && forall p :: p in tools <==> p in ToolsOf(next)
    {
      var unordered := Enumerate(ToolsOf(next));
      NamesRank();
      SortedMembers(NameLess, unordered);
      SortedPermutation(NameLess, unordered);
      tools := SortBy(NameLess, unordered);
    }

    /** Installs new items: providers are rebuilt, and the selection stays, migrates or goes. */
    method ReplaceVisibleItems(next: seq<Conversation>)
      modifies this`items, this`providers, this`selection, this`selectedProvider
      ensures Valid() && items == next
      ensures selection == Migrated(old(items), next, old(selection))
      ensures selection.Some? ==>
                && ItemOf(next, selection.value).Some?
                && selectedProvider == Some(ItemOf(next, selection.value).value.tool)
      ensures selection.None? ==>
                selectedProvider == if old(selectedProvider).Some?
                    && old(selectedProvider).value in ToolsOf(next) then old(selectedProvider)
                                    else if providers == [] then None else Some(providers[0])
    {
      hide ItemOf, Sharing;
      var present := None;
      var migrated := None;
      if selection.Some? {
        present := FindItem(next, selection.value);
        ItemOfIs(next, selection.value);
        if present.None? {
          var selected := FindItem(items, selection.value);
          if selected.Some? {
            var sharing := FindSharing(next, selected.value);
            migrated := if |sharing| == 1 then Some(sharing[0].session) else None;
          }
        }
      }
      if selection.Some? && Migrated(items, next, selection).Some? {
        MigratedMeaning(items, next, selection, Migrated(items, next, selection).value);
      }
      if present.None? { selection := migrated; }
      var tools := OrderTools(next);
      items, providers := next, tools;
      var chosen := None;
      if selection.Some? {
        chosen := FindItem(next, selection.value);
        ItemOfIs(next, selection.value);
      }
      if chosen.Some? {
        selectedProvider := Some(chosen.value.tool);
      } else if selectedProvider.None? || selectedProvider.value !in providers {
        selectedProvider := if providers == [] then None else Some(providers[0]);
      }
    }
  }

  lemma SessionStep(l: Listing, i: nat, provider: string, lower: Lower)
    requires i < |l.items|
    ensures SessionRows(l, l.items[..i + 1], provider, lower)
            == if IsShown(l, l.items[i], provider, lower)
               then SessionRows(l, l.items[..i], provider, lower) + [SessionRow(provider, l.items[i].session)]
               else SessionRows(l, l.items[..i], provider, lower)
  {
    assert l.items[..i + 1][..i] == l.items[..i];
    assert SessionRows(l, l.items[..i], provider, lower) + [] == SessionRows(l, l.items[..i], provider, lower);
    hide IsShown;
  }

  /** A session row not found so far is found here, or not yet. */
  lemma SessionFound(l: Listing, i: nat, provider: string, target: Row, lower: Lower)
    requires i < |l.items| && IsShown(l, l.items[i], provider, lower)
    requires FirstIndex(SessionRows(l, l.items[..i], provider, lower), target).None?
    ensures if SessionRow(provider, l.items[i].session) == target then
              FirstIndex(SessionRows(l, l.items, provider, lower), target)
                  == Some(|SessionRows(l, l.items[..i], provider, lower)|)
            else FirstIndex(SessionRows(l, l.items[..i + 1], provider, lower), target).None?
  {
    SessionStep(l, i, provider, lower);
    hide *;
    var row := SessionRow(provider, l.items[i].session);
    OneRow(row, target);
    SessionRowsExtend(l, l.items, i + 1, provider, lower);
    FoundIn(SessionRows(l, l.items[..i], provider, lower), [row], SessionRows(l, l.items, provider, lower), target);
  }

  lemma NoSessions(l: Listing, provider: string, lower: Lower)
    ensures SessionRows(l, l.items[..0], provider, lower) == []
  {
  }

  lemma BlockPrefix(l: Listing, i: nat, lower: Lower)
    requires i < |l.providers|
    ensures RowsBefore(l, i + 1, lower) == RowsBefore(l, i, lower) + ProviderRows(l, l.providers[i], lower)
    ensures RowsBefore(l, i + 1, lower) <= Rows(l, lower)
  {
    RowsPrefix(l, i, lower);
    RowsExtend(l, i + 1, lower);
  }

  lemma BlockIs(l: Listing, provider: string, lower: Lower)
    ensures ProviderRows(l, provider, lower)
            == if !ProviderVisible(l, provider, lower) then []
               else [ProviderRow(provider)] + (if provider in l.collapsed then []
                   else SessionRows(l, l.items, provider, lower))
  {
  }

  /** A row not found so far is first found in the next block, or not yet. */
  lemma FoundIn(before: seq<Row>, block: seq<Row>, whole: seq<Row>, target: Row)
    requires before + block <= whole && FirstIndex(before, target).None?
    ensures FirstIndex(block, target).None? ==> FirstIndex(before + block, target).None?
    ensures FirstIndex(block, target).Some? ==>
              FirstIndex(whole, target) == Some(|before| + FirstIndex(block, target).value)
  {
    hide *;
    FirstIndexAppend(before, block, target);
    if FirstIndex(block, target).Some? { FirstIndexPrefix(before + block, whole, target); }
  }

  lemma FoundStep(l: Listing, i: nat, target: Row, lower: Lower)
    requires i < |l.providers| && FirstIndex(RowsBefore(l, i, lower), target).None?
    ensures var found := FirstIndex(ProviderRows(l, l.providers[i], lower), target);
            && |RowsBefore(l, i + 1, lower)| == |RowsBefore(l, i, lower)| + |ProviderRows(l, l.providers[i], lower)|
            && (found.None? ==> FirstIndex(RowsBefore(l, i + 1, lower), target).None?)
            && (found.Some? ==> FirstIndex(Rows(l, lower), target).Some?
                                && FirstIndex(Rows(l, lower), target).value == |RowsBefore(l, i, lower)| + found.value)
  {
    hide *;
    BlockPrefix(l, i, lower);
    FoundIn(RowsBefore(l, i, lower), ProviderRows(l, l.providers[i], lower), Rows(l, lower), target);
  }

  lemma PlaceEnds(l: Listing, lower: Lower)
    ensures RowsBefore(l, |l.providers|, lower) == Rows(l, lower)
  {
    assert l.providers[..|l.providers|] == l.providers;
  }

  lemma NoRows(l: Listing, lower: Lower)
    ensures RowsBefore(l, 0, lower) == []
  {
  }

  lemma {:induction false} SessionRowsExtend(l: Listing, items: seq<Conversation>, i: nat, provider: string,
      lower: Lower)
    requires i <= |items|
    ensures SessionRows(l, items[..i], provider, lower) <= SessionRows(l, items, provider, lower)
    decreases |items| - i
  {
    hide IsShown;
    if i < |items| {
      assert items[..i + 1][..i] == items[..i];
      SessionRowsExtend(l, items, i + 1, provider, lower);
    } else {
      assert items[..i] == items;
    }
  }
}
