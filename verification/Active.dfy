/** Merging live sessions into filesystem conversations, by identities registered exactly once. */
module Active {
  import opened Wrappers
  import opened Paths
  import opened Sorting
  import opened Conversations

  /** What tells a transcript file apart: its canonical path and file metadata, as one value. */
  type Transcript = string

  /** Finds the identity of a transcript path on disk, if the file is there. */
  type Identify = string -> Option<Transcript>

  datatype LiveSession = LiveSession(
    tool: string, stable: Session, native: Option<Session>, transcript: Option<Transcript>,
    documented: Option<Session>, provenance: Provenance, title: Option<string>)

  // ---------------------------------------------------------------- identities registered once

  type Registered<K> = map<K, Option<nat>>

  /** A key registered twice belongs to nobody. */
  function InsertUnique<K>(m: Registered<K>, key: K, index: nat): Registered<K> {
    if key in m then m[key := None] else m[key := Some(index)]
  }

  function UniqueIndex<K>(m: Registered<K>, key: K): Option<nat> {
    if key in m then m[key] else None
  }

  datatype Registration<K> = Registration(key: K, index: nat)

  function RegisterAll<K>(rs: seq<Registration<K>>): Registered<K> {
    if rs == [] then map[] else InsertUnique(RegisterAll(rs[..|rs| - 1]), rs[|rs| - 1].key, rs[|rs| - 1].index)
  }

  /** `i` is the only registration of the key. */
  predicate OnlyAt<K(==)>(rs: seq<Registration<K>>, key: K, i: nat) {
    i < |rs| && rs[i].key == key && forall j :: 0 <= j < |rs| && rs[j].key == key ==> j == i
  }

  /** A key finds an index exactly if it was registered once, for that index. */
  lemma {:induction false} UniqueMeaning<K>(rs: seq<Registration<K>>, key: K, index: nat)
    ensures key in RegisterAll(rs) <==> exists i :: 0 <= i < |rs| && rs[i].key == key
    ensures UniqueIndex(RegisterAll(rs), key) == Some(index)
        <==> exists i: nat :: OnlyAt(rs, key, i) && rs[i].index == index
  {
    if rs != [] {
      var n := |rs| - 1;
      UniqueMeaning(rs[..n], key, index);
      if rs[n].key == key {
        if key in RegisterAll(rs[..n]) {
          var j :| 0 <= j < n && rs[..n][j].key == key;
          assert rs[j].key == key;
        } else {
          forall j | 0 <= j < n ensures rs[j].key != key { assert rs[..n][j].key != key; }
          assert OnlyAt(rs, key, n);
        }
      } else {
        forall i: nat ensures OnlyAt(rs, key, i) <==> OnlyAt(rs[..n], key, i) {
          assert forall j :: 0 <= j < n ==> rs[..n][j] == rs[j];
        }
        assert forall j :: 0 <= j < n ==> rs[..n][j] == rs[j];
      }
    }
  }

  // ---------------------------------------------------------------- the filesystem side

  datatype Snapshot = Snapshot(
    conversations: seq<Conversation>, native: Registered<Session>, transcript: Registered<Transcript>,
    documented: Registered<Session>)

  /** Every row registers its session. */
  function SessionsOf(vs: seq<Conversation>): seq<Registration<Session>> {
    seq(|vs|, i requires 0 <= i < |vs| => Registration(vs[i].session, i))
  }

  /** Every provenance of a row registers its transcript, if one is found. */
  function TranscriptsIn(ps: seq<Provenance>, index: nat, identify: Identify): seq<Registration<Transcript>> {
    if ps == [] then []
    else
      var n := |ps| - 1;
      TranscriptsIn(ps[..n], index, identify)
      + (if ps[n].path.Some? && identify(ps[n].path.value).Some?
         then [Registration(identify(ps[n].path.value).value, index)] else [])
  }

  function TranscriptsOf(vs: seq<Conversation>, identify: Identify): seq<Registration<Transcript>> {
    if vs == [] then []
    else TranscriptsOf(vs[..|vs| - 1], identify) + TranscriptsIn(vs[|vs| - 1].provenance, |vs| - 1, identify)
  }

  function Prepared(vs: seq<Conversation>, identify: Identify): Snapshot {
    Snapshot(vs, RegisterAll(SessionsOf(vs)), RegisterAll(TranscriptsOf(vs, identify)), RegisterAll(SessionsOf(vs)))
  }

  lemma RegisterMore<K>(rs: seq<Registration<K>>, r: Registration<K>)
    ensures RegisterAll(rs + [r]) == InsertUnique(RegisterAll(rs), r.key, r.index)
  {
    assert (rs + [r])[..|rs|] == rs;
  }

  method RegisterTranscripts(m: Registered<Transcript>, ps: seq<Provenance>, index: nat, identify: Identify,
                             ghost before: seq<Registration<Transcript>>)
    returns (r: Registered<Transcript>)
    requires m == RegisterAll(before)
    ensures r == RegisterAll(before + TranscriptsIn(ps, index, identify))
  {
    r := m;
    assert before + [] == before;
    for i := 0 to |ps|
      invariant r == RegisterAll(before + TranscriptsIn(ps[..i], index, identify))
    {
      assert ps[..i + 1][..i] == ps[..i];
      if ps[i].path.Some? {
        var identity := identify(ps[i].path.value);
        if identity.Some? {
          var one := Registration(identity.value, index);
          RegisterMore(before + TranscriptsIn(ps[..i], index, identify), one);
          assert before + TranscriptsIn(ps[..i], index, identify) + [one]
              == before + (TranscriptsIn(ps[..i], index, identify) + [one]);
          r := InsertUnique(r, identity.value, index);
        }
      }
      assert TranscriptsIn(ps[..i], index, identify) + [] == TranscriptsIn(ps[..i], index, identify);
    }
    assert ps[..|ps|] == ps;
  }

  /** Registers the identities of all filesystem conversations. */
  method PrepareFilesystem(vs: seq<Conversation>, identify: Identify) returns (r: Snapshot)
    ensures r == Prepared(vs, identify)
  {
    var native: Registered<Session>, documented: Registered<Session>, transcript: Registered<Transcript> := map[],
        map[], map[];
    hide RegisterAll;
    NothingRegistered(vs);
    for i := 0 to |vs|
      invariant native == documented == RegisterAll(SessionsOf(vs[..i]))
      invariant transcript == RegisterAll(TranscriptsOf(vs[..i], identify))
    {
      assert vs[..i + 1][..i] == vs[..i];
      RegisterMore(SessionsOf(vs[..i]), Registration(vs[i].session, i));
      assert SessionsOf(vs[..i + 1]) == SessionsOf(vs[..i]) + [Registration(vs[i].session, i)];
      native := InsertUnique(native, vs[i].session, i);
      documented := InsertUnique(documented, vs[i].session, i);
      transcript := RegisterTranscripts(transcript, vs[i].provenance, i, identify, TranscriptsOf(vs[..i], identify));
    }
    assert vs[..|vs|] == vs;
    r := Snapshot(vs, native, transcript, documented);
  }

  lemma NothingRegistered(vs: seq<Conversation>)
    ensures RegisterAll(SessionsOf(vs[..0])) == map[] && RegisterAll<Transcript>([]) == map[]
  {
    assert SessionsOf(vs[..0]) == [];
  }

  // ---------------------------------------------------------------- matching and enriching

  function Among<K>(m: Registered<K>, key: Option<K>): Option<nat> {
    if key.Some? then UniqueIndex(m, key.value) else None
  }

  /** The row of a live session: by native identity, else by transcript, else by documented path. */
  function Matched(fs: Snapshot, s: LiveSession): Option<nat> {
    if Among(fs.native, s.native).Some? then Among(fs.native, s.native)
    else if Among(fs.transcript, s.transcript).Some? then Among(fs.transcript, s.transcript)
    else Among(fs.documented, s.documented)
  }

  /** The only row with a session. */
  predicate OnlySession(vs: seq<Conversation>, key: Session, i: nat) {
    i < |vs| && vs[i].session == key && forall j :: 0 <= j < |vs| && vs[j].session == key ==> j == i
  }

  /** A provenance of a row identifies as a transcript. */
  predicate TranscriptAt(vs: seq<Conversation>, identify: Identify, key: Transcript, i: nat, q: nat) {
    && i < |vs| && q < |vs[i].provenance| && vs[i].provenance[q].path.Some?
    && identify(vs[i].provenance[q].path.value) == Some(key)
  }

  /** Of all provenances of all rows only one identifies as the transcript, and it is the row's. */
  predicate OnlyTranscript(vs: seq<Conversation>, identify: Identify, key: Transcript, i: nat) {
    && i < |vs|
    && exists q | 0 <= q < |vs[i].provenance| ::
         && TranscriptAt(vs, identify, key, i, q)
         && forall j, p | 0 <= j < |vs| && 0 <= p < |vs[j].provenance| ::
              TranscriptAt(vs, identify, key, j, p) ==> j == i && p == q
  }

  /** Where registrations come from: the row and the place of the provenance. */
  datatype Place = Place(row: nat, place: nat)

  function PlacesIn(ps: seq<Provenance>, index: nat, identify: Identify): seq<Place> {
    if ps == [] then []
    else
      var n := |ps| - 1;
      PlacesIn(ps[..n], index, identify)
      + (if ps[n].path.Some? && identify(ps[n].path.value).Some? then [Place(index, n)] else [])
  }

  function PlacesOf(vs: seq<Conversation>, identify: Identify): seq<Place> {
    if vs == [] then [] else PlacesOf(vs[..|vs| - 1], identify) + PlacesIn(vs[|vs| - 1].provenance, |vs| - 1, identify)
  }

  /** A list of registrations with their places tells for each place what it registers. */
  ghost predicate Located(vs: seq<Conversation>, identify: Identify, rs: seq<Registration<Transcript>>,
                         places: seq<Place>) {
    && |rs| == |places| && Distinct(places)
    && (forall k :: 0 <= k < |rs| ==>
          rs[k].index == places[k].row && TranscriptAt(vs, identify, rs[k].key, places[k].row, places[k].place))
    && forall key, i: nat, q: nat :: TranscriptAt(vs, identify, key, i, q) ==> Place(i, q) in places
  }

  /** The registrations of one row are those of its identified provenances, each once. */
  lemma {:induction false} PlacesInAre(ps: seq<Provenance>, index: nat, identify: Identify)
    ensures var (rs, places) := (TranscriptsIn(ps, index, identify), PlacesIn(ps, index, identify));
            && |rs| == |places| && Distinct(places)
            && (forall k :: 0 <= k < |rs| ==>
                  && rs[k].index == index == places[k].row && places[k].place < |ps|
                  && ps[places[k].place].path.Some?
                  && identify(ps[places[k].place].path.value) == Some(rs[k].key))
            && (forall q :: 0 <= q < |ps| && ps[q].path.Some? && identify(ps[q].path.value).Some? ==>
                  Place(index, q) in places)
  {
    if ps != [] {
      var n := |ps| - 1;
      PlacesInAre(ps[..n], index, identify);
      var front := PlacesIn(ps[..n], index, identify);
      assert forall q :: 0 <= q < n ==> ps[..n][q] == ps[q];
      forall q | 0 <= q < n && ps[q].path.Some? && identify(ps[q].path.value).Some?
        ensures Place(index, q) in PlacesIn(ps, index, identify)
      {
        assert ps[..n][q].path.Some?;
        assert Place(index, q) in front;
      }
    }
  }

  lemma LocatedMore(vs: seq<Conversation>, identify: Identify, rs: seq<Registration<Transcript>>, places: seq<Place>)
    requires vs != [] && Located(vs[..|vs| - 1], identify, rs, places)
    ensures var n := |vs| - 1;
            Located(vs, identify, rs + TranscriptsIn(vs[n].provenance, n, identify),
                   places + PlacesIn(vs[n].provenance, n, identify))
  {
    var n := |vs| - 1;
    PlacesInAre(vs[n].provenance, n, identify);
    var more, after := TranscriptsIn(vs[n].provenance, n, identify), PlacesIn(vs[n].provenance, n, identify);
    hide TranscriptsIn, PlacesIn;
    assert forall i :: 0 <= i < n ==> vs[..n][i] == vs[i];
    forall k | 0 <= k < |rs + more|
      ensures (rs + more)[k].index == (places + after)[k].row
      ensures TranscriptAt(vs, identify, (rs + more)[k].key, (places + after)[k].row, (places + after)[k].place)
    {
      if k < |rs| {
        assert TranscriptAt(vs[..n], identify, rs[k].key, places[k].row, places[k].place);
      }
    }
    forall key, i: nat, q: nat | TranscriptAt(vs, identify, key, i, q) ensures Place(i, q) in places + after {
      if i < n { assert TranscriptAt(vs[..n], identify, key, i, q); }
    }
    forall j, k | 0 <= j < k < |places + after| ensures (places + after)[j] != (places + after)[k] {
      if j < |places| <= k {
        assert TranscriptAt(vs[..n], identify, rs[j].key, places[j].row, places[j].place);
      }
    }
  }

  lemma {:induction false} TranscriptsPlaced(vs: seq<Conversation>, identify: Identify)
    ensures Located(vs, identify, TranscriptsOf(vs, identify), PlacesOf(vs, identify))
  {
    if vs != [] {
      TranscriptsPlaced(vs[..|vs| - 1], identify);
      LocatedMore(vs, identify, TranscriptsOf(vs[..|vs| - 1], identify), PlacesOf(vs[..|vs| - 1], identify));
      hide Located;
    }
  }

  lemma OnlyPlace(vs: seq<Conversation>, identify: Identify, key: Transcript, i: nat,
                  rs: seq<Registration<Transcript>>, places: seq<Place>)
    requires Located(vs, identify, rs, places)
    ensures (exists k: nat :: OnlyAt(rs, key, k) && rs[k].index == i) <==> OnlyTranscript(vs, identify, key, i)
  {
    if k: nat :| OnlyAt(rs, key, k) && rs[k].index == i {
      var q := places[k].place;
      assert TranscriptAt(vs, identify, key, i, q);
      forall j, p | 0 <= j < |vs| && 0 <= p < |vs[j].provenance| && TranscriptAt(vs, identify, key, j, p)
        ensures j == i && p == q
      {
        var l :| 0 <= l < |places| && places[l] == Place(j, p);
        assert TranscriptAt(vs, identify, rs[l].key, j, p);
      }
    }
    if OnlyTranscript(vs, identify, key, i) {
      var q :| && 0 <= q < |vs[i].provenance| && TranscriptAt(vs, identify, key, i, q)
               && forall j, p | 0 <= j < |vs| && 0 <= p < |vs[j].provenance| ::
                    TranscriptAt(vs, identify, key, j, p) ==> j == i && p == q;
      var k :| 0 <= k < |places| && places[k] == Place(i, q);
      assert TranscriptAt(vs, identify, rs[k].key, i, q);
      forall l | 0 <= l < |rs| && rs[l].key == key ensures l == k {
        assert TranscriptAt(vs, identify, key, places[l].row, places[l].place);
      }
      assert OnlyAt(rs, key, k);
    }
  }

  lemma TranscriptUnique(vs: seq<Conversation>, identify: Identify, key: Transcript, i: nat)
    ensures UniqueIndex(RegisterAll(TranscriptsOf(vs, identify)), key) == Some(i)
            <==> OnlyTranscript(vs, identify, key, i)
  {
    UniqueMeaning(TranscriptsOf(vs, identify), key, i);
    TranscriptsPlaced(vs, identify);
    hide Located, TranscriptsOf, PlacesOf, RegisterAll, OnlyTranscript;
    OnlyPlace(vs, identify, key, i, TranscriptsOf(vs, identify), PlacesOf(vs, identify));
  }

  lemma SessionUnique(vs: seq<Conversation>, key: Session, i: nat)
    ensures UniqueIndex(RegisterAll(SessionsOf(vs)), key) == Some(i) <==> OnlySession(vs, key, i)
  {
    var rs := SessionsOf(vs);
    UniqueMeaning(rs, key, i);
    if OnlySession(vs, key, i) { assert OnlyAt(rs, key, i); }
    if k: nat :| OnlyAt(rs, key, k) && rs[k].index == i {
      forall j | 0 <= j < |vs| && vs[j].session == key ensures j == i { assert rs[j].key == key; }
    }
  }

  predicate ByNative(vs: seq<Conversation>, s: LiveSession, i: nat) {
    s.native.Some? && OnlySession(vs, s.native.value, i)
  }

  predicate ByTranscript(vs: seq<Conversation>, identify: Identify, s: LiveSession, i: nat) {
    s.transcript.Some? && OnlyTranscript(vs, identify, s.transcript.value, i)
  }

  predicate ByDocumented(vs: seq<Conversation>, s: LiveSession, i: nat) {
    s.documented.Some? && OnlySession(vs, s.documented.value, i)
  }

  /** A live session belongs to a row: by its native session if some row is alone with that, else by its
      transcript if some row is alone with that, else by its documented session. */
  ghost predicate Matches(vs: seq<Conversation>, identify: Identify, s: LiveSession, i: nat) {
    || ByNative(vs, s, i)
    || ((forall j: nat :: !ByNative(vs, s, j))
        && (|| ByTranscript(vs, identify, s, i)
            || ((forall j: nat :: !ByTranscript(vs, identify, s, j)) && ByDocumented(vs, s, i))))
  }

  lemma AmongIs(vs: seq<Conversation>, identify: Identify, s: LiveSession, i: nat)
    ensures Among(Prepared(vs, identify).native, s.native) == Some(i) <==> ByNative(vs, s, i)
    ensures Among(Prepared(vs, identify).transcript, s.transcript) == Some(i) <==> ByTranscript(vs, identify, s, i)
    ensures Among(Prepared(vs, identify).documented, s.documented) == Some(i) <==> ByDocumented(vs, s, i)
  {
    if s.native.Some? { SessionUnique(vs, s.native.value, i); }
    if s.transcript.Some? { TranscriptUnique(vs, identify, s.transcript.value, i); }
    if s.documented.Some? { SessionUnique(vs, s.documented.value, i); }
    hide RegisterAll, SessionsOf, TranscriptsOf, OnlySession, OnlyTranscript, UniqueIndex;
  }

  /** The program finds the row of a live session exactly if the session belongs to it. */
  lemma MatchedMeaning(vs: seq<Conversation>, identify: Identify, s: LiveSession, i: nat)
    ensures Matched(Prepared(vs, identify), s) == Some(i) <==> Matches(vs, identify, s, i)
    ensures Matches(vs, identify, s, i) ==> i < |vs|
  {
    hide Among, OnlyTranscript;
    forall j: nat
      ensures Among(Prepared(vs, identify).native, s.native) == Some(j) <==> ByNative(vs, s, j)
      ensures Among(Prepared(vs, identify).transcript, s.transcript) == Some(j) <==> ByTranscript(vs, identify, s, j)
      ensures Among(Prepared(vs, identify).documented, s.documented) == Some(j) <==> ByDocumented(vs, s, j)
    {
      AmongIs(vs, identify, s, j);
    }
    InRows(vs, identify, s, i);
    hide ByNative, ByTranscript, ByDocumented, Prepared;
  }

  lemma InRows(vs: seq<Conversation>, identify: Identify, s: LiveSession, i: nat)
    ensures ByNative(vs, s, i) || ByTranscript(vs, identify, s, i) || ByDocumented(vs, s, i) ==> i < |vs|
  {
  }

  function Later(a: Time, b: Time): Time {
    if a >= b then a else b
  }

  /** A row enriched by a live session. */
  function Enrich(v: Conversation, s: LiveSession, observed: Time): Conversation {
    var provenance := if s.provenance in v.provenance then v.provenance else v.provenance + [s.provenance];
    NewConversation(v.tool, v.session, if v.title.Some? then v.title else s.title, v.created, v.archived,
                    Later(v.updated, observed), Live, provenance, v.resume).value
  }

  function EnrichAll(v: Conversation, ss: seq<LiveSession>, observed: Time): Conversation {
    if ss == [] then v else Enrich(EnrichAll(v, ss[..|ss| - 1], observed), ss[|ss| - 1], observed)
  }

  function LiveRow(s: LiveSession, observed: Time): Conversation {
    NewConversation(s.tool, s.stable, s.title, None, None, observed, Live, [s.provenance], None).value
  }

  predicate TitleNormal(v: Conversation) {
    v.title.Some? ==> IsNormal(v.title.value)
  }

  lemma {:induction false} TrimAgain(s: string)
    ensures Trim(Trim(s)) == Trim(s)
  {
    TrimmedEnds(Trim(s));
    TrimLeftEnds(s);
    TrimRightEnds(TrimLeft(s));
  }

  lemma {:induction false} TrimLeftEnds(s: string)
    ensures TrimLeft(s) != "" ==> !IsSpace(TrimLeft(s)[0])
  {
    if s != "" && IsSpace(s[0]) { TrimLeftEnds(s[1..]); }
  }

  lemma {:induction false} TrimRightEnds(s: string)
    ensures TrimRight(s) != "" ==> !IsSpace(TrimRight(s)[|TrimRight(s)| - 1]) && TrimRight(s)[0] == s[0]
  {
    if s != "" && IsSpace(s[|s| - 1]) { TrimRightEnds(s[..|s| - 1]); }
  }

  lemma EnrichOnce(v: Conversation, s: LiveSession, observed: Time)
    requires TitleNormal(v)
    ensures var r := Enrich(v, s, observed);
            && r.tool == v.tool && r.session == v.session && r.created == v.created && r.archived == v.archived
            && r.resume == v.resume && TitleNormal(r)
            && r.title == (if v.title.Some? then v.title else Titled(s.title))
            && r.provenance == (if s.provenance in v.provenance then v.provenance else v.provenance + [s.provenance])
            && r.updated == (if v.updated >= observed then v.updated else observed) && r.state == Live
  {
    if v.title.None? && s.title.Some? { TrimAgain(s.title.value); }
    hide Trim;
  }

  /** A title as the constructor keeps it. */
  function Titled(t: Option<string>): Option<string> {
    if t.Some? then Normalize(t.value) else None
  }

  /** The first title some session brings. */
  function FirstTitle(ss: seq<LiveSession>): Option<string> {
    if ss == [] then None
    else if FirstTitle(ss[..|ss| - 1]).Some? then FirstTitle(ss[..|ss| - 1])
    else Titled(ss[|ss| - 1].title)
  }

  lemma {:induction false} FirstTitleMeaning(ss: seq<LiveSession>)
    ensures match FirstTitle(ss)
            case None => forall i :: 0 <= i < |ss| ==> Titled(ss[i].title).None?
            case Some(t) =>
              exists i :: && 0 <= i < |ss| && Titled(ss[i].title) == Some(t)
                          && forall j :: 0 <= j < i ==> Titled(ss[j].title).None?
  {
    hide Titled;
    if ss != [] {
      var n := |ss| - 1;
      FirstTitleMeaning(ss[..n]);
      assert forall i :: 0 <= i < n ==> ss[..n][i] == ss[i];
      if FirstTitle(ss[..n]).Some? {
        var i :| && 0 <= i < n && Titled(ss[..n][i].title) == FirstTitle(ss[..n])
                 && forall j :: 0 <= j < i ==> Titled(ss[..n][j].title).None?;
        assert Titled(ss[i].title) == FirstTitle(ss);
      }
    }
  }

  /** What live sessions leave of a row's fields: the first title is added where there is none, the time they
      were seen if later, and that the row is live. */
  lemma {:induction false} EnrichedFields(v: Conversation, ss: seq<LiveSession>, observed: Time)
    requires TitleNormal(v)
    ensures var r := EnrichAll(v, ss, observed);
            && r.tool == v.tool && r.session == v.session && r.created == v.created && r.archived == v.archived
            && r.resume == v.resume && TitleNormal(r)
            && r.title == (if v.title.Some? then v.title else FirstTitle(ss))
            && r.updated == (if ss == [] || v.updated >= observed then v.updated else observed)
            && r.state == (if ss == [] then v.state else Live)
  {
    if ss != [] {
      var n := |ss| - 1;
      EnrichedFields(v, ss[..n], observed);
      EnrichOnce(EnrichAll(v, ss[..n], observed), ss[n], observed);
      hide Enrich, TitleNormal, Titled;
    }
  }

  /** Provenance that grew by that of sessions, each once, behind what was there. */
  ghost predicate Grown(was: seq<Provenance>, ss: seq<LiveSession>, now: seq<Provenance>) {
    && was <= now
    && (forall i :: 0 <= i < |ss| ==> ss[i].provenance in now)
    && (forall p :: p in now ==> p in was || exists i :: 0 <= i < |ss| && ss[i].provenance == p)
    && (Distinct(was) ==> Distinct(now))
  }

  lemma GrownMore(was: seq<Provenance>, ss: seq<LiveSession>, s: LiveSession, now: seq<Provenance>)
    requires Grown(was, ss, now)
    ensures Grown(was, ss + [s], if s.provenance in now then now else now + [s.provenance])
  {
    var more := ss + [s];
    assert forall i :: 0 <= i < |ss| ==> more[i] == ss[i];
    assert more[|ss|] == s;
    forall p | p in now && p !in was ensures exists i :: 0 <= i < |more| && more[i].provenance == p {
      var i :| 0 <= i < |ss| && ss[i].provenance == p;
      assert more[i].provenance == p;
    }
  }

  /** The provenance of a row grows by that of its sessions. */
  lemma {:induction false} EnrichedProvenance(v: Conversation, ss: seq<LiveSession>, observed: Time)
    requires TitleNormal(v)
    ensures Grown(v.provenance, ss, EnrichAll(v, ss, observed).provenance)
  {
    if ss != [] {
      var n := |ss| - 1;
      EnrichedProvenance(v, ss[..n], observed);
      EnrichedFields(v, ss[..n], observed);
      EnrichOnce(EnrichAll(v, ss[..n], observed), ss[n], observed);
      GrownMore(v.provenance, ss[..n], ss[n], EnrichAll(v, ss[..n], observed).provenance);
      hide Enrich, Grown, TitleNormal;
      assert ss == ss[..n] + [ss[n]];
    }
  }

  /** What live sessions leave of a row, and what they add: its first title, its provenance in their order,
      the time it was seen if later, and that it is live. */
  lemma EnrichedMeaning(v: Conversation, ss: seq<LiveSession>, observed: Time)
    requires TitleNormal(v)
    ensures var r := EnrichAll(v, ss, observed);
            && r.tool == v.tool && r.session == v.session && r.created == v.created && r.archived == v.archived
            && r.resume == v.resume && TitleNormal(r)
            && r.title == (if v.title.Some? then v.title else FirstTitle(ss))
            && v.provenance <= r.provenance
            && (forall i :: 0 <= i < |ss| ==> ss[i].provenance in r.provenance)
            && (forall p :: p in r.provenance ==>
                  || p in v.provenance
                  || exists i :: 0 <= i < |ss| && ss[i].provenance == p)
            && (Distinct(v.provenance) ==> Distinct(r.provenance))
            && r.updated == (if ss == [] || v.updated >= observed then v.updated else observed)
            && r.state == (if ss == [] then v.state else Live)
  {
    EnrichedFields(v, ss, observed);
    EnrichedProvenance(v, ss, observed);
    hide EnrichAll, FirstTitle, TitleNormal;
  }

  // ---------------------------------------------------------------- the merge

  /** Unmatched live sessions share a row per tool and stable identifier. */
  datatype LiveKey = LiveKey(tool: string, id: string)

  function KeyOfLive(s: LiveSession): LiveKey {
    LiveKey(s.tool, s.stable.id)
  }

  /** The live sessions of one filesystem row. */
  function MatchingRow(fs: Snapshot, live: seq<LiveSession>, i: nat): seq<LiveSession> {
    if live == [] then []
    else
      var n := |live| - 1;
      MatchingRow(fs, live[..n], i) + (if Matched(fs, live[n]) == Some(i) then [live[n]] else [])
  }

  /** The unmatched live sessions of one key. */
  function Loose(fs: Snapshot, live: seq<LiveSession>, key: LiveKey): seq<LiveSession> {
    if live == [] then []
    else
      var n := |live| - 1;
      Loose(fs, live[..n], key) + (if Matched(fs, live[n]).None? && KeyOfLive(live[n]) == key then [live[n]] else [])
  }

  function LooseKeys(fs: Snapshot, live: seq<LiveSession>): set<LiveKey> {
    set s | s in live && Matched(fs, s).None? :: KeyOfLive(s)
  }

  type LiveRows = map<LiveKey, Conversation>

  /** Every filesystem row enriched by its own sessions, in place. */
  ghost predicate RowsMerged(fs: Snapshot, live: seq<LiveSession>, observed: Time, rows: seq<Conversation>) {
    && |rows| == |fs.conversations|
    && forall i :: 0 <= i < |rows| ==> rows[i] == EnrichAll(fs.conversations[i], MatchingRow(fs, live, i), observed)
  }

  /** The row of live sessions that share a key: the first makes it, the others enrich it. */
  function LooseRow(ss: seq<LiveSession>, observed: Time): Conversation
    requires ss != []
  {
    EnrichAll(LiveRow(ss[0], observed), ss[1..], observed)
  }

  /** One row per key of unmatched sessions: the first makes it, the others enrich it. */
  ghost predicate LooseMerged(fs: Snapshot, live: seq<LiveSession>, observed: Time, only: LiveRows) {
    && only.Keys == LooseKeys(fs, live)
    && forall k :: k in only ==>
         Loose(fs, live, k) != [] && only[k] == LooseRow(Loose(fs, live, k), observed)
  }

  ghost predicate InRange(fs: Snapshot) {
    forall s: LiveSession :: Matched(fs, s).Some? ==> Matched(fs, s).value < |fs.conversations|
  }

  /** Whatever was prepared can be merged into. */
  lemma PreparedInRange(vs: seq<Conversation>, identify: Identify)
    ensures InRange(Prepared(vs, identify))
  {
    hide Matched, Matches;
    forall s: LiveSession | Matched(Prepared(vs, identify), s).Some?
      ensures Matched(Prepared(vs, identify), s).value < |vs|
    {
      MatchedMeaning(vs, identify, s, Matched(Prepared(vs, identify), s).value);
    }
  }

  lemma RowsStep(fs: Snapshot, live: seq<LiveSession>, n: nat, observed: Time, rows: seq<Conversation>)
    requires n < |live| && RowsMerged(fs, live[..n], observed, rows) && InRange(fs)
    ensures Matched(fs, live[n]).None? ==> RowsMerged(fs, live[..n + 1], observed, rows)
    ensures Matched(fs, live[n]).Some? ==>
              var i := Matched(fs, live[n]).value;
              i < |rows| && RowsMerged(fs, live[..n + 1], observed, rows[i := Enrich(rows[i], live[n], observed)])
  {
    assert live[..n + 1][..n] == live[..n];
    hide Matched, Enrich;
    var m := Matched(fs, live[n]);
    forall j | 0 <= j < |rows| ensures MatchingRow(fs, live[..n + 1], j) ==
      if m == Some(j) then MatchingRow(fs, live[..n], j) + [live[n]] else MatchingRow(fs, live[..n], j)
    {}
    if m.Some? {
      var ss := MatchingRow(fs, live[..n], m.value);
      assert (ss + [live[n]])[..|ss|] == ss;
    }
  }

  lemma LooseRowMore(ss: seq<LiveSession>, s: LiveSession, observed: Time)
    ensures LooseRow(ss + [s], observed) == if ss == [] then LiveRow(s, observed)
        else Enrich(LooseRow(ss, observed), s, observed)
  {
    hide Enrich, LiveRow;
    if ss != [] {
      assert (ss + [s])[1..] == ss[1..] + [s];
      assert (ss[1..] + [s])[..|ss| - 1] == ss[1..];
    }
  }

  lemma LooseMore(fs: Snapshot, live: seq<LiveSession>, n: nat)
    requires n < |live|
    ensures var taken := Matched(fs, live[n]).None?;
            && (forall j :: Loose(fs, live[..n + 1], j) ==
                  if taken && KeyOfLive(live[n]) == j then Loose(fs, live[..n], j) + [live[n]]
                      else Loose(fs, live[..n], j))
            && LooseKeys(fs, live[..n + 1]) == LooseKeys(fs, live[..n]) + (if taken then {KeyOfLive(live[n])} else {})
  {
    assert live[..n + 1][..n] == live[..n];
    assert live[..n + 1] == live[..n] + [live[n]];
    hide Matched;
  }

  lemma LooseStep(fs: Snapshot, live: seq<LiveSession>, n: nat, observed: Time, only: LiveRows)
    requires n < |live| && LooseMerged(fs, live[..n], observed, only)
    ensures Matched(fs, live[n]).Some? ==> LooseMerged(fs, live[..n + 1], observed, only)
    ensures Matched(fs, live[n]).None? ==>
              var k := KeyOfLive(live[n]);
              LooseMerged(fs, live[..n + 1], observed,
                          only[k := if k in only then Enrich(only[k], live[n], observed)
                              else LiveRow(live[n], observed)])
  {
    hide Matched, Enrich, LiveRow, Loose, LooseKeys, LooseRow;
    var k := KeyOfLive(live[n]);
    LooseMore(fs, live, n);
    LooseEmpty(fs, live[..n], k);
    LooseRowMore(Loose(fs, live[..n], k), live[n], observed);
  }

  lemma {:induction false} LooseEmpty(fs: Snapshot, live: seq<LiveSession>, k: LiveKey)
    ensures Loose(fs, live, k) == [] <==> k !in LooseKeys(fs, live)
  {
    if live != [] {
      var n := |live| - 1;
      LooseEmpty(fs, live[..n], k);
      assert live == live[..n] + [live[n]];
    }
  }

  predicate RecentBefore(a: Conversation, b: Conversation) {
    || a.updated > b.updated
    || (a.updated == b.updated
        && (|| NameLess(a.tool, b.tool)
            || (a.tool == b.tool
                && (|| NameLess(a.session.namespace, b.session.namespace)
                    || (a.session.namespace == b.session.namespace && NameLess(a.session.id, b.session.id))))))
  }

  lemma RecentRanks()
    ensures Ranks(RecentBefore)
  {
    forall a, b, c
      ensures RecentBefore(a, b) ==> !RecentBefore(b, a)
      ensures RecentBefore(a, b) && !RecentBefore(c, b) ==> RecentBefore(a, c)
    {
      NameChain(a.tool, b.tool, c.tool);
      NameChain(b.tool, c.tool, a.tool);
      NameChain(a.session.namespace, b.session.namespace, c.session.namespace);
      NameChain(b.session.namespace, c.session.namespace, a.session.namespace);
      NameChain(a.session.id, b.session.id, c.session.id);
      NameChain(b.session.id, c.session.id, a.session.id);
      hide NameLess;
    }
  }

  /** Rows are ordered newest first, then by tool, namespace and session; only rows that agree in all of these
      are not ordered. */
  lemma RecentMeaning(a: Conversation, b: Conversation)
    ensures a.updated > b.updated ==> RecentBefore(a, b)
    ensures a.updated == b.updated && NameLess(a.tool, b.tool) ==> RecentBefore(a, b)
    ensures a.updated == b.updated && a.tool == b.tool && NameLess(a.session.namespace, b.session.namespace) ==>
              RecentBefore(a, b)
    ensures !RecentBefore(a, b) && !RecentBefore(b, a) <==>
            a.updated == b.updated && a.tool == b.tool && a.session == b.session
  {
    NameTotal(a.tool, b.tool);
    NameTotal(a.session.namespace, b.session.namespace);
    NameTotal(a.session.id, b.session.id);
  }

  function RowsFor(only: LiveRows, keys: seq<LiveKey>): seq<Conversation>
    requires forall k :: k in keys ==> k in only
  {
    seq(|keys|, i requires 0 <= i < |keys| => only[keys[i]])
  }

  // ---------------------------------------------------------------- the merge, told by who belongs where

  /** The live sessions that belong to a row, in order. */
  ghost function Partners(vs: seq<Conversation>, identify: Identify, live: seq<LiveSession>, i: nat): seq<LiveSession> {
    if live == [] then []
    else
      var n := |live| - 1;
      Partners(vs, identify, live[..n], i) + (if Matches(vs, identify, live[n], i) then [live[n]] else [])
  }

  ghost predicate BelongsNowhere(vs: seq<Conversation>, identify: Identify, s: LiveSession) {
    forall i: nat :: !Matches(vs, identify, s, i)
  }

  /** The live sessions of a key that belong to no row, in order. */
  ghost function Strays(vs: seq<Conversation>, identify: Identify, live: seq<LiveSession>, key: LiveKey)
    : seq<LiveSession>
  {
    if live == [] then []
    else
      var n := |live| - 1;
      Strays(vs, identify, live[..n], key)
      + (if BelongsNowhere(vs, identify, live[n]) && KeyOfLive(live[n]) == key then [live[n]] else [])
  }

  ghost function StrayKeys(vs: seq<Conversation>, identify: Identify, live: seq<LiveSession>): set<LiveKey> {
    set s | s in live && BelongsNowhere(vs, identify, s) :: KeyOfLive(s)
  }

  /** Every filesystem row enriched by the sessions that belong to it, in place. */
  ghost predicate RowsEnriched(vs: seq<Conversation>, identify: Identify, live: seq<LiveSession>, observed: Time,
                               rows: seq<Conversation>) {
    && |rows| == |vs|
    && forall i :: 0 <= i < |vs| ==> rows[i] == EnrichAll(vs[i], Partners(vs, identify, live, i), observed)
  }

  /** One row per key of sessions that belong to no row: the first makes it, the others enrich it. */
  ghost predicate StraysShown(vs: seq<Conversation>, identify: Identify, live: seq<LiveSession>, observed: Time,
                              only: LiveRows) {
    && only.Keys == StrayKeys(vs, identify, live)
    && forall k :: k in only ==>
         && Strays(vs, identify, live, k) != []
         && only[k] == LooseRow(Strays(vs, identify, live, k), observed)
  }

  lemma BelongsIff(vs: seq<Conversation>, identify: Identify, s: LiveSession)
    ensures BelongsNowhere(vs, identify, s) <==> Matched(Prepared(vs, identify), s).None?
  {
    hide Matched, Matches;
    forall i: nat ensures Matched(Prepared(vs, identify), s) == Some(i) <==> Matches(vs, identify, s, i) {
      MatchedMeaning(vs, identify, s, i);
    }
    var m := Matched(Prepared(vs, identify), s);
    if m.Some? { assert Matches(vs, identify, s, m.value); }
  }

  lemma {:induction false} PartnersAre(vs: seq<Conversation>, identify: Identify, live: seq<LiveSession>, i: nat)
    ensures MatchingRow(Prepared(vs, identify), live, i) == Partners(vs, identify, live, i)
  {
    hide Matched, Matches;
    if live != [] {
      var n := |live| - 1;
      PartnersAre(vs, identify, live[..n], i);
      MatchedMeaning(vs, identify, live[n], i);
    }
  }

  lemma {:induction false} StraysAre(vs: seq<Conversation>, identify: Identify, live: seq<LiveSession>, key: LiveKey)
    ensures Loose(Prepared(vs, identify), live, key) == Strays(vs, identify, live, key)
  {
    hide Matched, BelongsNowhere;
    if live != [] {
      var n := |live| - 1;
      StraysAre(vs, identify, live[..n], key);
      BelongsIff(vs, identify, live[n]);
    }
  }

  lemma StrayKeysAre(vs: seq<Conversation>, identify: Identify, live: seq<LiveSession>)
    ensures LooseKeys(Prepared(vs, identify), live) == StrayKeys(vs, identify, live)
  {
    hide Matched, BelongsNowhere;
    forall s ensures BelongsNowhere(vs, identify, s) <==> Matched(Prepared(vs, identify), s).None? {
      BelongsIff(vs, identify, s);
    }
  }

  lemma MergedAsTold(vs: seq<Conversation>, identify: Identify, live: seq<LiveSession>, observed: Time,
                     rows: seq<Conversation>, only: LiveRows)
    requires RowsMerged(Prepared(vs, identify), live, observed, rows)
    requires LooseMerged(Prepared(vs, identify), live, observed, only)
    ensures RowsEnriched(vs, identify, live, observed, rows) && StraysShown(vs, identify, live, observed, only)
  {
    hide MatchingRow, Partners, Loose, Strays, LooseKeys, StrayKeys, EnrichAll, LooseRow;
    StrayKeysAre(vs, identify, live);
    forall i | 0 <= i < |vs| ensures MatchingRow(Prepared(vs, identify), live, i) == Partners(vs, identify, live, i) {
      PartnersAre(vs, identify, live, i);
    }
    forall k | k in only ensures Loose(Prepared(vs, identify), live, k) == Strays(vs, identify, live, k) {
      StraysAre(vs, identify, live, k);
    }
  }

  /** The row of strays that share a key: the first one's tool and session, live since it was observed, with
      the first title and every provenance of the strays. */
  lemma LiveRowMeaning(ss: seq<LiveSession>, observed: Time)
    requires ss != []
    ensures var r := LooseRow(ss, observed);
            && r.tool == ss[0].tool && r.session == ss[0].stable && r.created == r.archived == None
            && r.resume == None && r.updated == observed && r.state == Live
            && r.title == (if Titled(ss[0].title).Some? then Titled(ss[0].title) else FirstTitle(ss[1..]))
            && r.provenance != [] && r.provenance[0] == ss[0].provenance && Distinct(r.provenance)
            && (forall i :: 0 <= i < |ss| ==> ss[i].provenance in r.provenance)
            && (forall p :: p in r.provenance ==> exists i :: 0 <= i < |ss| && ss[i].provenance == p)
  {
    var v := LiveRow(ss[0], observed);
    LiveRowIs(ss[0], observed);
    EnrichedMeaning(v, ss[1..], observed);
    var r := LooseRow(ss, observed);
    hide LiveRow, EnrichAll, FirstTitle, Titled, TitleNormal;
    assert r.provenance[0] == v.provenance[0];
    forall i | 0 <= i < |ss| ensures ss[i].provenance in r.provenance {
      if i > 0 { assert ss[1..][i - 1] == ss[i]; }
    }
    forall p | p in r.provenance ensures exists i :: 0 <= i < |ss| && ss[i].provenance == p {
      if p !in v.provenance {
        var i :| 0 <= i < |ss[1..]| && ss[1..][i].provenance == p;
        assert ss[i + 1].provenance == p;
      }
    }
  }

  lemma LiveRowIs(s: LiveSession, observed: Time)
    ensures var v := LiveRow(s, observed);
            && v.tool == s.tool && v.session == s.stable && v.created == v.archived == None && v.resume == None
            && v.updated == observed && v.state == Live && v.provenance == [s.provenance]
            && v.title == Titled(s.title) && TitleNormal(v)
  {
    if s.title.Some? { TrimAgain(s.title.value); }
    hide Trim;
  }

  /** Merges prepared live sessions: one row per filesystem conversation and one per key of sessions that
      belong to none, newest first. */
  method MergeLive(fs: Snapshot, live: seq<LiveSession>, observed: Time, ghost identify: Identify)
    returns (rows: seq<Conversation>, ghost merged: seq<Conversation>, ghost only: LiveRows, ghost keys: seq<LiveKey>)
    requires fs == Prepared(fs.conversations, identify)
    ensures RowsEnriched(fs.conversations, identify, live, observed, merged)
    ensures StraysShown(fs.conversations, identify, live, observed, only)
    ensures Distinct(keys) && (forall k :: k in keys <==> k in only)
    ensures Sorted(RecentBefore, rows) && multiset(rows) == multiset(merged + RowsFor(only, keys))
    ensures |rows| == |fs.conversations| + |StrayKeys(fs.conversations, identify, live)|
  {
    PreparedInRange(fs.conversations, identify);
    hide Matched, Enrich, LiveRow, InRange, Prepared, RowsEnriched, StraysShown, StrayKeys;
    var enriched, loose: LiveRows := fs.conversations, map[];
    for i := 0 to |live|
      invariant RowsMerged(fs, live[..i], observed, enriched) && LooseMerged(fs, live[..i], observed, loose)
    {
      RowsStep(fs, live, i, observed, enriched);
      LooseStep(fs, live, i, observed, loose);
      hide RowsMerged, LooseMerged;
      var matched := Matched(fs, live[i]);
      if matched.Some? {
        enriched := enriched[matched.value := Enrich(enriched[matched.value], live[i], observed)];
        continue;
      }
      var key := KeyOfLive(live[i]);
      loose := loose[key := if key in loose then Enrich(loose[key], live[i], observed) else LiveRow(live[i], observed)];
    }
    assert live[..|live|] == live;
    MergedAsTold(fs.conversations, identify, live, observed, enriched, loose);
    StrayKeysAre(fs.conversations, identify, live);
    var order := Enumerate(loose.Keys);
    var all := enriched + RowsFor(loose, order);
    RecentRanks();
    SortedPermutation(RecentBefore, all);
    SortedMembers(RecentBefore, all);
    rows := SortBy(RecentBefore, all);
    merged, only, keys := enriched, loose, order;
  }

  lemma {:induction false} PartnersBelong(vs: seq<Conversation>, identify: Identify, live: seq<LiveSession>, i: nat)
    ensures forall s :: s in Partners(vs, identify, live, i) <==> s in live && Matches(vs, identify, s, i)
  {
    hide Matches;
    if live != [] {
      var n := |live| - 1;
      PartnersBelong(vs, identify, live[..n], i);
      assert live == live[..n] + [live[n]];
    }
  }

  /** Filesystem rows keep what they are: only provenance, state, a missing title and a newer time are
      added, exactly to the rows some session belongs to. */
  lemma MergeConserves(vs: seq<Conversation>, identify: Identify, live: seq<LiveSession>, observed: Time,
                       merged: seq<Conversation>, i: nat)
    requires RowsEnriched(vs, identify, live, observed, merged) && i < |vs| && TitleNormal(vs[i])
    ensures i < |merged|
    ensures var (before, after) := (vs[i], merged[i]);
            && after.tool == before.tool && after.session == before.session && after.resume == before.resume
            && after.created == before.created && after.archived == before.archived
            && before.provenance <= after.provenance && before.updated <= after.updated
            && (before.title.Some? ==> after.title == before.title)
            && (forall s :: s in live && Matches(vs, identify, s, i) ==>
                  && s.provenance in after.provenance && after.state == Live && after.updated >= observed)
    ensures (forall s :: s in live ==> !Matches(vs, identify, s, i)) ==> merged[i] == vs[i]
  {
    var ss := Partners(vs, identify, live, i);
    EnrichedMeaning(vs[i], ss, observed);
    PartnersBelong(vs, identify, live, i);
    hide Partners, Matches, EnrichAll, TitleNormal, FirstTitle;
    forall s | s in live && Matches(vs, identify, s, i)
      ensures s.provenance in merged[i].provenance && merged[i].state == Live && merged[i].updated >= observed
    {
      assert s in ss;
    }
    if forall s :: s in live ==> !Matches(vs, identify, s, i) {
      NoMembers(ss);
      NoneEnrich(vs[i], observed);
    }
  }

  lemma NoMembers<T>(s: seq<T>)
    ensures (forall x :: x !in s) ==> s == []
  {
    if s != [] { assert s[0] in s; }
  }

  lemma NoneEnrich(v: Conversation, observed: Time)
    ensures EnrichAll(v, [], observed) == v
  {
  }

  // ---------------------------------------------------------------- successive filesystem snapshots

  /** Where a session was last seen. */
  function LastAt(vs: seq<Conversation>, s: Session): (at: Option<nat>)
    ensures at.Some? ==> at.value < |vs| && vs[at.value].session == s
    ensures at.Some? ==> forall j :: at.value < j < |vs| ==> vs[j].session != s
    ensures at.None? ==> forall j :: 0 <= j < |vs| ==> vs[j].session != s
  {
    if vs == [] then None else if vs[|vs| - 1].session == s then Some(|vs| - 1) else LastAt(vs[..|vs| - 1], s)
  }

  /** The last copy of a session in a list. */
  function LastCopy(vs: seq<Conversation>, s: Session): Option<Conversation> {
    match LastAt(vs, s) case Some(i) => Some(vs[i]) case None => None
  }

  /** The index of last copies. */
  function IndexOf(vs: seq<Conversation>): map<Session, nat> {
    if vs == [] then map[] else IndexOf(vs[..|vs| - 1])[vs[|vs| - 1].session := |vs| - 1]
  }

  function LookupIndex(indexes: map<Session, nat>, s: Session): Option<nat> {
    if s in indexes then Some(indexes[s]) else None
  }

  lemma {:induction false} IndexMeaning(vs: seq<Conversation>, s: Session)
    ensures LookupIndex(IndexOf(vs), s) == LastAt(vs, s)
  {
    if vs != [] { IndexMeaning(vs[..|vs| - 1], s); }
  }

  /** A row takes the place of the last row of its session, or comes last. */
  function Placed(rows: seq<Conversation>, v: Conversation): seq<Conversation> {
    match LastAt(rows, v.session) case Some(i) => rows[i := v] case None => rows + [v]
  }

  function Replaced(previous: seq<Conversation>, newer: seq<Conversation>): seq<Conversation> {
    if newer == [] then previous else Placed(Replaced(previous, newer[..|newer| - 1]), newer[|newer| - 1])
  }

  lemma PlacedAt(rows: seq<Conversation>, v: Conversation, s: Session)
    ensures LastAt(Placed(rows, v), s)
            == if s != v.session || LastAt(rows, s).Some? then LastAt(rows, s) else Some(|rows|)
    ensures LastCopy(Placed(rows, v), s) == if s == v.session then Some(v) else LastCopy(rows, s)
  {
    var placed := Placed(rows, v);
    var at := LastAt(placed, s);
    var was := LastAt(rows, s);
    SameSessions(rows, v);
    hide Placed;
    if was.Some? { assert placed[was.value].session == s; }
    if at.Some? && at.value < |rows| { assert rows[at.value].session == s; }
  }

  /** Placing a row changes no session of the earlier rows, and only the row it takes the place of. */
  lemma SameSessions(rows: seq<Conversation>, v: Conversation)
    ensures var placed := Placed(rows, v);
            var at := LastAt(rows, v.session);
            && |placed| == (if at.Some? then |rows| else |rows| + 1)
            && (forall i :: 0 <= i < |rows| ==> placed[i].session == rows[i].session)
            && (forall i :: 0 <= i < |rows| && at != Some(i) ==> placed[i] == rows[i])
            && placed[if at.Some? then at.value else |rows|] == v
  {
  }

  /** What merging leaves for a session: its last newer copy, else what was there. */
  function Freshest(previous: seq<Conversation>, newer: seq<Conversation>, s: Session): Option<Conversation> {
    if LastCopy(newer, s).Some? then LastCopy(newer, s) else LastCopy(previous, s)
  }

  lemma LastCopyMore(vs: seq<Conversation>, s: Session)
    requires vs != []
    ensures LastCopy(vs, s)
            == if s == vs[|vs| - 1].session then Some(vs[|vs| - 1]) else LastCopy(vs[..|vs| - 1], s)
  {
  }

  lemma {:induction false} ReplacedCopy(previous: seq<Conversation>, newer: seq<Conversation>, s: Session)
    ensures LastCopy(Replaced(previous, newer), s) == Freshest(previous, newer, s)
  {
    if newer != [] {
      var n := |newer| - 1;
      ReplacedCopy(previous, newer[..n], s);
      LastCopyMore(newer, s);
      var before := Replaced(previous, newer[..n]);
      assert Replaced(previous, newer) == Placed(before, newer[n]);
      hide Placed, Replaced, LastAt, LastCopy;
      PlacedAt(before, newer[n], s);
    }
  }

  /** Rows that extend earlier ones by other sessions show an earlier session last where it was. */
  lemma SameLast(previous: seq<Conversation>, rows: seq<Conversation>, s: Session)
    requires |rows| >= |previous| && forall i :: 0 <= i < |previous| ==> rows[i].session == previous[i].session
    requires forall i, j :: |previous| <= i < |rows| && 0 <= j < i ==> rows[i].session != rows[j].session
    ensures var at := LastAt(rows, s);
            at.Some? && at.value < |previous| ==> LastAt(previous, s) == at
  {
    var at, was := LastAt(rows, s), LastAt(previous, s);
    if at.Some? && at.value < |previous| {
      assert previous[at.value].session == s;
      assert was.Some? && rows[was.value].session == s;
    }
  }

  /** Replacing keeps every earlier row that is not the last of its session where it is; behind the
      earlier rows come the sessions they lack, each once. */
  lemma {:induction false} ReplacedRows(previous: seq<Conversation>, newer: seq<Conversation>)
    ensures var rows := Replaced(previous, newer);
            && |rows| >= |previous|
            && (forall i :: 0 <= i < |previous| ==> rows[i].session == previous[i].session)
            && (forall i :: 0 <= i < |previous| && LastAt(previous, previous[i].session) != Some(i) ==>
                  rows[i] == previous[i])
            && (forall i, j :: |previous| <= i < |rows| && 0 <= j < i ==> rows[i].session != rows[j].session)
  {
    if newer != [] {
      var n := |newer| - 1;
      ReplacedRows(previous, newer[..n]);
      var before := Replaced(previous, newer[..n]);
      assert Replaced(previous, newer) == Placed(before, newer[n]);
      hide Placed, Replaced;
      SameSessions(before, newer[n]);
      SameLast(previous, before, newer[n].session);
      hide LastAt;
    }
  }

  /** Each session of either list exactly once, by its freshest copy. */
  ghost predicate IsRefreshed(previous: seq<Conversation>, newer: seq<Conversation>, rows: seq<Conversation>) {
    && DistinctSessions(rows)
    && forall s :: LastCopy(rows, s) == Freshest(previous, newer, s)
  }

  lemma SameCopies(a: seq<Conversation>, b: seq<Conversation>, s: Session)
    requires multiset(a) == multiset(b) && DistinctSessions(a) && DistinctSessions(b)
    ensures LastCopy(a, s) == LastCopy(b, s)
  {
    MembersOfPermutation(a, b);
    if LastCopy(a, s).Some? {
      assert LastCopy(a, s).value in b;
      var i :| 0 <= i < |b| && b[i] == LastCopy(a, s).value;
    }
    if LastCopy(b, s).Some? {
      assert LastCopy(b, s).value in a;
      var i :| 0 <= i < |a| && a[i] == LastCopy(b, s).value;
    }
  }

  lemma SortKeepsSessions(rows: seq<Conversation>)
    requires DistinctSessions(rows) && Ranks(RecentBefore)
    ensures DistinctSessions(SortBy(RecentBefore, rows))
  {
    SortedPermutation(RecentBefore, rows);
    SortedMembers(RecentBefore, rows);
    var sorted := SortBy(RecentBefore, rows);
    hide RecentBefore, SortBy;
    assert Distinct(rows);
    forall i, j | 0 <= i < j < |sorted| ensures sorted[i].session != sorted[j].session {
      assert sorted[i] in rows && sorted[j] in rows && sorted[i] != sorted[j];
    }
  }

  /** From rows that repeat no session, the sorted merge repeats none and shows each by its freshest copy. */
  lemma RefreshedOnce(previous: seq<Conversation>, newer: seq<Conversation>)
    requires DistinctSessions(previous) && Ranks(RecentBefore)
    ensures IsRefreshed(previous, newer, SortBy(RecentBefore, Replaced(previous, newer)))
  {
    var rows := Replaced(previous, newer);
    ReplacedRows(previous, newer);
    assert DistinctSessions(rows);
    SortKeepsSessions(rows);
    SortedPermutation(RecentBefore, rows);
    hide RecentBefore, SortBy, Replaced, Freshest, LastCopy;
    forall s ensures LastCopy(SortBy(RecentBefore, rows), s) == Freshest(previous, newer, s) {
      ReplacedCopy(previous, newer, s);
      SameCopies(rows, SortBy(RecentBefore, rows), s);
    }
  }

  /** Fresh rows replace the last earlier row of their session or join the rows, which are then sorted. */
  method MergeSnapshots(previous: seq<Conversation>, newer: seq<Conversation>, identify: Identify) returns (r: Snapshot)
    ensures r == Prepared(r.conversations, identify)
    ensures Sorted(RecentBefore, r.conversations)
    ensures multiset(r.conversations) == multiset(Replaced(previous, newer))
    ensures DistinctSessions(previous) ==> IsRefreshed(previous, newer, r.conversations)
  {
    var merged := previous;
    var indexes: map<Session, nat> := IndexOf(previous);
    forall s ensures LookupIndex(indexes, s) == LastAt(merged, s) { IndexMeaning(previous, s); }
    hide RecentBefore, IndexOf, LastAt;
    for i := 0 to |newer|
      invariant merged == Replaced(previous, newer[..i])
      invariant forall s :: LookupIndex(indexes, s) == LastAt(merged, s)
    {
      assert newer[..i + 1][..i] == newer[..i];
      var v := newer[i];
      ghost var before := merged;
      assert LookupIndex(indexes, v.session) == LastAt(before, v.session);
      forall s ensures LastAt(Placed(before, v), s)
          == if s != v.session || LastAt(before, s).Some? then LastAt(before, s) else Some(|before|)
      {
        PlacedAt(before, v, s);
      }
      if v.session in indexes {
        merged := merged[indexes[v.session] := v];
      } else {
        indexes := indexes[v.session := |merged|];
        merged := merged + [v];
      }
      assert merged == Placed(before, v);
    }
    assert newer[..|newer|] == newer;
    RecentRanks();
    SortedPermutation(RecentBefore, merged);
    if DistinctSessions(previous) { RefreshedOnce(previous, newer); }
    var sorted := SortBy(RecentBefore, merged);
    r := PrepareFilesystem(sorted, identify);
  }
}
