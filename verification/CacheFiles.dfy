/** The cache on disk: its document, the files around it, and how they survive a crash. */
module CacheFiles {
  import opened Wrappers
  import opened Sorting
  import opened Conversations
  import opened Discovery
  import opened Index
  import opened CacheNames

  const SCHEMA_VERSION: nat := 3
  const MAX_CACHE_BYTES: nat := 16 * 1024 * 1024
  const MAX_SOURCE_WATERMARKS: nat := 32
  const MAX_CACHE_DIRECTORY_ENTRIES: nat := 64

  datatype DiskWatermark = DiskWatermark(source: string, token: string)

  datatype DiskIndex = DiskIndex(
    schema: nat, root: StoredPath, generation: nat, maxEntries: nat,
    watermarks: seq<DiskWatermark>, entries: seq<Cached>)

  // ---------------------------------------------------------------- the document

  /** The watermarks of a document, or why it cannot be used. */
  function LoadMarks(ms: seq<DiskWatermark>): Result<Watermarks, LoadFailure> {
    if ms == [] then Ok(map[])
    else
      var n := |ms| - 1;
      match LoadMarks(ms[..n])
      case Err(e) => Err(e)
      case Ok(w) => LoadMark(w, ms[n])
  }

  function LoadMark(w: Watermarks, m: DiskWatermark): Result<Watermarks, LoadFailure> {
    if CheckSource(m.source, None).Some? then Err(CheckSource(m.source, None).value)
    else if m.token == "" || |m.token| > MAX_WATERMARK_BYTES || Normalize(m.source).None? then Err(Corrupt)
    else if Normalize(m.source).value in w then Err(Corrupt)
    else Ok(w[Normalize(m.source).value := m.token])
  }

  function LoadEntries(cs: seq<Cached>): Result<Entries, LoadFailure> {
    if cs == [] then Ok(map[])
    else
      var n := |cs| - 1;
      match LoadEntries(cs[..n])
      case Err(e) => Err(e)
      case Ok(es) =>
        if Validate(cs[n]).Some? then Err(Validate(cs[n]).value)
        else if Key(cs[n]) in es then Err(Corrupt)
        else Ok(es[Key(cs[n]) := cs[n]])
  }

  function FromDisk(d: DiskIndex, root: string, maxEntries: nat): Result<IndexState, LoadFailure> {
    if !(1 <= d.maxEntries <= MAX_INDEX_ENTRIES) then Err(Corrupt)
    else
      match LoadPath(d.root)
      case Err(e) => Err(e)
      case Ok(diskRoot) =>
        if d.schema != SCHEMA_VERSION || diskRoot != root then Err(Incompatible)
        else if |d.entries| > MAX_INDEX_ENTRIES || |d.watermarks| > MAX_SOURCE_WATERMARKS then Err(Corrupt)
        else
          match LoadMarks(d.watermarks)
          case Err(e) => Err(e)
          case Ok(w) =>
            match LoadEntries(d.entries)
            case Err(e) => Err(e)
            case Ok(es) =>
              Ok(IndexState(d.generation, if maxEntries > d.maxEntries then map[]
                  else w, es, Loaded, false, maxEntries))
  }

  /** The document of an index, its watermarks and entries listed in some order. */
  ghost predicate IsDiskOf(d: DiskIndex, s: IndexState, root: string) {
    && d.schema == SCHEMA_VERSION && d.generation == s.generation && d.maxEntries == s.maxEntries
    && StorePath(root) == Some(d.root)
    && Distinct(d.watermarks) && Lists(s.watermarks, d.watermarks) && |d.watermarks| == |s.watermarks|
    && Distinct(d.entries) && Holds(s.entries, d.entries) && |d.entries| == |s.entries|
  }

  /** What an index must be like to come back from its document. */
  predicate Storable(s: IndexState, root: string) {
    && '\0' !in root
    && 1 <= s.maxEntries <= MAX_INDEX_ENTRIES
    && |s.entries| <= MAX_INDEX_ENTRIES && |s.watermarks| <= MAX_SOURCE_WATERMARKS
    && (forall id :: id in s.watermarks ==>
          CheckSource(id, None).None? && s.watermarks[id] != "" && |s.watermarks[id]| <= MAX_WATERMARK_BYTES)
    && (forall k :: k in s.entries ==> Validate(s.entries[k]).None?)
  }

  predicate GoodMark(m: DiskWatermark) {
    CheckSource(m.source, None).None? && m.token != "" && |m.token| <= MAX_WATERMARK_BYTES
  }

  lemma ApprovedNormal(source: string)
    requires CheckSource(source, None).None?
    ensures Normalize(source) == Some(source)
  {
    ApprovedNames(source, ExpectedTool(source).value);
  }

  predicate DistinctSources(ms: seq<DiskWatermark>) {
    forall i, j :: 0 <= i < j < |ms| ==> ms[i].source != ms[j].source
  }

  predicate AllGood(ms: seq<DiskWatermark>) {
    forall i :: 0 <= i < |ms| ==> GoodMark(ms[i])
  }

  /** The map lists exactly the marks. */
  predicate Lists(w: Watermarks, ms: seq<DiskWatermark>) {
    && (forall i :: 0 <= i < |ms| ==> ms[i].source in w && w[ms[i].source] == ms[i].token)
    && (forall id :: id in w ==> DiskWatermark(id, w[id]) in ms)
  }

  lemma MarkStep(w: Watermarks, m: DiskWatermark)
    ensures LoadMark(w, m).Ok? <==> GoodMark(m) && m.source !in w
    ensures LoadMark(w, m).Ok? ==> LoadMark(w, m) == Ok(w[m.source := m.token])
  {
    if CheckSource(m.source, None).None? { ApprovedNormal(m.source); }
    hide CheckSource, Normalize;
  }

  lemma ListsMore(w: Watermarks, ms: seq<DiskWatermark>)
    requires ms != [] && DistinctSources(ms) && Lists(w, ms[..|ms| - 1])
    ensures ms[|ms| - 1].source !in w
    ensures Lists(w[ms[|ms| - 1].source := ms[|ms| - 1].token], ms)
  {
    var n := |ms| - 1;
    forall i | 0 <= i < n ensures ms[i].source in w && w[ms[i].source] == ms[i].token {
      assert ms[..n][i] == ms[i];
    }
    forall id | id in w ensures exists i :: 0 <= i < n && ms[i] == DiskWatermark(id, w[id]) {
      var i :| 0 <= i < n && ms[..n][i] == DiskWatermark(id, w[id]);
    }
  }

  /** Marks of distinct sources load exactly if each is good. */
  lemma {:induction false} MarksLoad(ms: seq<DiskWatermark>)
    requires DistinctSources(ms)
    ensures LoadMarks(ms).Ok? <==> AllGood(ms)
    ensures LoadMarks(ms).Ok? ==> Lists(LoadMarks(ms).value, ms)
  {
    if ms != [] {
      var n := |ms| - 1;
      MarksLoad(ms[..n]);
      if LoadMarks(ms[..n]).Ok? {
        MarkStep(LoadMarks(ms[..n]).value, ms[n]);
        ListsMore(LoadMarks(ms[..n]).value, ms);
      }
      assert AllGood(ms) <==> AllGood(ms[..n]) && GoodMark(ms[n]) by { hide GoodMark, LoadMarks, Lists; }
      hide GoodMark, AllGood, LoadMark, Lists;
    }
  }

  lemma SameMarks(a: Watermarks, b: Watermarks, ms: seq<DiskWatermark>)
    requires Lists(a, ms) && Lists(b, ms)
    ensures a == b
  {
    forall id | id in a ensures id in b && b[id] == a[id] {
      var i :| 0 <= i < |ms| && ms[i] == DiskWatermark(id, a[id]);
    }
    forall id | id in b ensures id in a {
      var i :| 0 <= i < |ms| && ms[i] == DiskWatermark(id, b[id]);
    }
  }

  lemma MarksBack(ms: seq<DiskWatermark>, w: Watermarks)
    requires Distinct(ms) && Lists(w, ms)
    ensures LoadMarks(ms).Ok? <==> forall id :: id in w ==> GoodMark(DiskWatermark(id, w[id]))
    ensures LoadMarks(ms).Ok? ==> LoadMarks(ms) == Ok(w)
  {
    forall i, j | 0 <= i < j < |ms| ensures ms[i].source != ms[j].source {
      assert ms[i] != ms[j];
    }
    MarksLoad(ms);
    if LoadMarks(ms).Ok? { SameMarks(LoadMarks(ms).value, w, ms); }
    hide GoodMark, LoadMarks;
    if AllGood(ms) {
      forall id | id in w ensures GoodMark(DiskWatermark(id, w[id])) {
        var i :| 0 <= i < |ms| && ms[i] == DiskWatermark(id, w[id]);
      }
    }
    if forall id :: id in w ==> GoodMark(DiskWatermark(id, w[id])) {
      forall i | 0 <= i < |ms| ensures GoodMark(ms[i]) {
        assert ms[i] == DiskWatermark(ms[i].source, w[ms[i].source]);
      }
    }
  }

  predicate AllValid(cs: seq<Cached>) {
    forall i :: 0 <= i < |cs| ==> Validate(cs[i]).None?
  }

  /** The map holds exactly the records, under their keys. */
  predicate Holds(es: Entries, cs: seq<Cached>) {
    && (forall i :: 0 <= i < |cs| ==> Key(cs[i]) in es && es[Key(cs[i])] == cs[i])
    && (forall k :: k in es ==> es[k] in cs && Key(es[k]) == k)
  }

  predicate DistinctEntryKeys(cs: seq<Cached>) {
    forall i, j :: 0 <= i < j < |cs| ==> Key(cs[i]) != Key(cs[j])
  }

  lemma HoldsMore(es: Entries, cs: seq<Cached>)
    requires cs != [] && DistinctEntryKeys(cs) && Holds(es, cs[..|cs| - 1])
    ensures Key(cs[|cs| - 1]) !in es
    ensures Holds(es[Key(cs[|cs| - 1]) := cs[|cs| - 1]], cs)
  {
    hide Key;
    var n := |cs| - 1;
    forall i | 0 <= i < n ensures Key(cs[i]) in es && es[Key(cs[i])] == cs[i] {
      assert cs[..n][i] == cs[i];
    }
    forall k | k in es ensures exists i :: 0 <= i < n && cs[i] == es[k] {
      var i :| 0 <= i < n && cs[..n][i] == es[k];
    }
  }

  /** Records of distinct keys load exactly if each is valid. */
  lemma {:induction false} EntriesLoad(cs: seq<Cached>)
    requires DistinctEntryKeys(cs)
    ensures LoadEntries(cs).Ok? <==> AllValid(cs)
    ensures LoadEntries(cs).Ok? ==> Holds(LoadEntries(cs).value, cs)
  {
    hide Validate, Key;
    if cs != [] {
      var n := |cs| - 1;
      EntriesLoad(cs[..n]);
      if LoadEntries(cs[..n]).Ok? { HoldsMore(LoadEntries(cs[..n]).value, cs); }
      assert AllValid(cs) <==> AllValid(cs[..n]) && Validate(cs[n]).None? by { hide LoadEntries, Holds; }
      hide AllValid, Holds;
    }
  }

  lemma SameEntries(a: Entries, b: Entries, cs: seq<Cached>)
    requires Holds(a, cs) && Holds(b, cs)
    ensures a == b
  {
    hide Key;
    forall k | k in a ensures k in b && b[k] == a[k] {
      var i :| 0 <= i < |cs| && cs[i] == a[k];
    }
    forall k | k in b ensures k in a {
      var i :| 0 <= i < |cs| && cs[i] == b[k];
    }
  }

  lemma EntriesBack(cs: seq<Cached>, es: Entries)
    requires Distinct(cs) && Holds(es, cs)
    ensures LoadEntries(cs).Ok? <==> forall k :: k in es ==> Validate(es[k]).None?
    ensures LoadEntries(cs).Ok? ==> LoadEntries(cs) == Ok(es)
  {
    hide Validate, Key;
    forall i, j | 0 <= i < j < |cs| ensures Key(cs[i]) != Key(cs[j]) {
      assert cs[i] != cs[j];
    }
    EntriesLoad(cs);
    if LoadEntries(cs).Ok? { SameEntries(LoadEntries(cs).value, es, cs); }
    hide LoadEntries;
    if AllValid(cs) {
      forall k | k in es ensures Validate(es[k]).None? {
        var i :| 0 <= i < |cs| && cs[i] == es[k];
      }
    }
    if forall k :: k in es ==> Validate(es[k]).None? {
      forall i | 0 <= i < |cs| ensures Validate(cs[i]).None? {
        assert es[Key(cs[i])] == cs[i];
      }
    }
  }

  // ---------------------------------------------------------------- which documents are accepted

  lemma {:induction false} MarksApart(ms: seq<DiskWatermark>)
    requires LoadMarks(ms).Ok?
    ensures DistinctSources(ms)
    ensures forall id :: id in LoadMarks(ms).value <==> exists i :: 0 <= i < |ms| && ms[i].source == id
  {
    if ms != [] {
      var n := |ms| - 1;
      MarksApart(ms[..n]);
      MarkStep(LoadMarks(ms[..n]).value, ms[n]);
      hide GoodMark, LoadMark;
      assert forall i :: 0 <= i < n ==> ms[..n][i] == ms[i];
    }
  }

  lemma {:induction false} EntriesApart(cs: seq<Cached>)
    requires LoadEntries(cs).Ok?
    ensures DistinctEntryKeys(cs)
    ensures forall k :: k in LoadEntries(cs).value <==> exists i :: 0 <= i < |cs| && Key(cs[i]) == k
  {
    hide Validate, Key;
    if cs != [] {
      var n := |cs| - 1;
      EntriesApart(cs[..n]);
      assert forall i :: 0 <= i < n ==> cs[..n][i] == cs[i];
    }
  }

  /** A document of this version and this project, within its bounds, of good marks of distinct sources and
      valid records of distinct keys. */
  predicate Acceptable(d: DiskIndex, root: string) {
    && d.schema == 3 && d.root == StoredPath("unix-bytes", root)
    && root != "" && |root| <= 4096 && '\0' !in root
    && 1 <= d.maxEntries <= MAX_INDEX_ENTRIES && |d.entries| <= MAX_INDEX_ENTRIES && |d.watermarks| <= 32
    && AllGood(d.watermarks) && DistinctSources(d.watermarks)
    && AllValid(d.entries) && DistinctEntryKeys(d.entries)
  }

  /** Exactly the acceptable documents load; the index has their generation, entries and, unless the limit was
      raised, continuations. */
  lemma DocumentMeaning(d: DiskIndex, root: string, maxEntries: nat)
    ensures FromDisk(d, root, maxEntries).Ok? <==> Acceptable(d, root)
    ensures FromDisk(d, root, maxEntries).Ok? ==>
              var s := FromDisk(d, root, maxEntries).value;
              && s.generation == d.generation && s.maxEntries == maxEntries && s.status == Loaded && !s.scanHasMore
              && Holds(s.entries, d.entries)
              && (if maxEntries > d.maxEntries then s.watermarks == map[] else Lists(s.watermarks, d.watermarks))
    ensures && 1 <= d.maxEntries <= MAX_INDEX_ENTRIES && LoadPath(d.root).Ok?
            && (d.schema != 3 || d.root.bytes != root) ==>
              FromDisk(d, root, maxEntries) == Err(Incompatible)
  {
    if DistinctSources(d.watermarks) { MarksLoad(d.watermarks); }
    if DistinctEntryKeys(d.entries) { EntriesLoad(d.entries); }
    if LoadMarks(d.watermarks).Ok? { MarksApart(d.watermarks); }
    if LoadEntries(d.entries).Ok? { EntriesApart(d.entries); }
    hide LoadMarks, LoadEntries, DistinctSources, DistinctEntryKeys, AllGood, AllValid, Lists, Holds;
  }

  /** An index as it comes back under an entry limit: a raised limit gives up its continuations. */
  function Reloaded(s: IndexState, limit: nat): IndexState {
    s.(status := Loaded, scanHasMore := false, maxEntries := limit,
       watermarks := if limit > s.maxEntries then map[] else s.watermarks)
  }

  /** An index comes back from its document as it was exactly if it is storable; under a raised limit
      it comes back without its continuations. */
  lemma DiskRoundTrip(d: DiskIndex, s: IndexState, root: string, maxEntries: nat)
    requires IsDiskOf(d, s, root)
    ensures FromDisk(d, root, maxEntries).Ok? <==> Storable(s, root)
    ensures Storable(s, root) ==> FromDisk(d, root, maxEntries) == Ok(Reloaded(s, maxEntries))
  {
    PathRoundTrip(root);
    MarksBack(d.watermarks, s.watermarks);
    EntriesBack(d.entries, s.entries);
    GoodMarks(s.watermarks);
    hide LoadMarks, LoadEntries, Validate, Lists, Holds, CheckSource, GoodMark, LoadPath;
  }

  lemma GoodMarks(w: Watermarks)
    ensures (forall id :: id in w ==> GoodMark(DiskWatermark(id, w[id])))
            <==> (forall id :: id in w ==>
                    CheckSource(id, None).None? && w[id] != "" && |w[id]| <= MAX_WATERMARK_BYTES)
  {
    hide CheckSource;
  }

  /** One watermark of a source nobody approved, and the document publishing makes of it. */
  const UNSTORABLE := IndexState(1, map["x" := "t"], map[], IndexStatus.Loaded, false, 1)

  const UNSTORABLE_DOCUMENT :=
    DiskIndex(SCHEMA_VERSION, StoredPath(UNIX_BYTES, "/p"), 1, 1, [DiskWatermark("x", "t")], [])

  /** It is written without complaint and refused when it is opened. */
  lemma UnstorableExample()
    ensures IsDiskOf(UNSTORABLE_DOCUMENT, UNSTORABLE, "/p")
    ensures FromDisk(UNSTORABLE_DOCUMENT, "/p", 1) == Err(Incompatible)
  {
    var m := DiskWatermark("x", "t");
    assert UNSTORABLE.watermarks.Keys == {"x"} && m in UNSTORABLE_DOCUMENT.watermarks;
    FindToolMeaning("x", TOOLS);
    assert [m][..0] == [] && LoadMarks([]) == Ok(map[]) && LoadMarks([m]) == LoadMark(map[], m);
  }

  lemma {:induction false} LoadedUsable(cs: seq<Cached>)
    requires LoadEntries(cs).Ok?
    ensures ValidEntries(LoadEntries(cs).value)
    ensures forall k :: k in LoadEntries(cs).value ==> Validate(LoadEntries(cs).value[k]).None?
  {
    if cs != [] {
      LoadedUsable(cs[..|cs| - 1]);
      hide Validate, Named, TimeOf, Key;
    }
  }

  // ---------------------------------------------------------------- files

  type Files = map<string, string>

  /** How documents are written down; reading back is faithful. */
  datatype Codec = Codec(encode: DiskIndex -> string, decode: string -> Option<DiskIndex>)

  ghost predicate Faithful(codec: Codec) {
    forall d :: codec.decode(codec.encode(d)) == Some(d)
  }

  /** A file too large reads as empty. */
  function Contents(bytes: string): string {
    if |bytes| > MAX_CACHE_BYTES then "" else bytes
  }

  /** The file the current file names, with the generation in its name. */
  function Target(files: Files): Option<(string, nat)> {
    if CURRENT !in files then None
    else
      var name := Contents(files[CURRENT]);
      if Generation(name).None? || name !in files then None else Some((name, Generation(name).value))
  }

  function EmptyIndex(generation: nat, status: IndexStatus, maxEntries: nat): IndexState {
    IndexState(generation, map[], map[], status, false, maxEntries)
  }

  function RebuiltAs(e: LoadFailure): IndexStatus {
    match e case Corrupt => RebuiltCorrupt case Incompatible => RebuiltIncompatible
  }

  /** What opening the cache gives. */
  function OpenIndex(files: Files, root: string, maxEntries: nat, codec: Codec): IndexState {
    match Target(files)
    case None => EmptyIndex(0, RebuiltMissing, maxEntries)
    case Some((name, generation)) =>
      match codec.decode(Contents(files[name]))
      case None => EmptyIndex(generation, RebuiltCorrupt, maxEntries)
      case Some(d) =>
        if d.generation != generation then EmptyIndex(generation, RebuiltCorrupt, maxEntries)
        else
          match FromDisk(d, root, maxEntries)
          case Ok(s) => s
          case Err(e) => EmptyIndex(generation, RebuiltAs(e), maxEntries)
  }

  /** Whatever is on disk, an opened index is sorted under its keys and all of it can be read. */
  lemma OpenedUsable(files: Files, root: string, maxEntries: nat, codec: Codec)
    ensures var s := OpenIndex(files, root, maxEntries, codec);
            ValidEntries(s.entries) && forall k :: k in s.entries ==> Validate(s.entries[k]).None?
  {
    assert Target(files).Some? ==> Target(files).value.0 in files;
    hide Validate, ValidEntries, Target, LoadMarks, LoadEntries;
    assert ValidEntries(map[]);
    match Target(files)
    case None =>
    case Some((name, _)) =>
      var d := codec.decode(Contents(files[name]));
      if d.Some? && FromDisk(d.value, root, maxEntries).Ok? { LoadedUsable(d.value.entries); }
  }

  /** The current pointer names a published file that is there. */
  predicate Pointed(files: Files, name: string, generation: nat) {
    && CURRENT in files && |files[CURRENT]| <= 16 * 1024 * 1024 && name == files[CURRENT]
    && Generation(name) == Some(generation) && name in files
  }

  /** The document of a published file, of the generation it is named for. */
  predicate Documented(files: Files, codec: Codec, name: string, generation: nat, d: DiskIndex)
    requires name in files
  {
    && codec.decode(if |files[name]| <= 16 * 1024 * 1024 then files[name] else "") == Some(d)
    && d.generation == generation
  }

  lemma TargetMeaning(files: Files, name: string, generation: nat)
    ensures Target(files) == Some((name, generation)) <==> Pointed(files, name, generation)
  {
    assert Generation("").None?;
    hide Generation;
  }

  /** Opening loads the index exactly if the current pointer names a published file with an acceptable document
      of its generation; else it is empty, missing exactly if no such file is named. */
  lemma OpenMeaning(files: Files, root: string, maxEntries: nat, codec: Codec)
    ensures var s := OpenIndex(files, root, maxEntries, codec);
            && s.maxEntries == maxEntries && !s.scanHasMore
            && (s.status != Loaded ==> s.entries == map[] && s.watermarks == map[])
            && (s.status == RebuiltMissing <==> forall name, g: nat :: !Pointed(files, name, g))
            && (s.status == RebuiltMissing ==> s.generation == 0)
    ensures forall name, g: nat :: Pointed(files, name, g) ==>
              var s := OpenIndex(files, root, maxEntries, codec);
              && s.generation == g
              && (s.status == Loaded <==> exists d :: Documented(files, codec, name, g, d) && Acceptable(d, root))
    ensures forall name, g: nat, d ::
              Pointed(files, name, g) && Documented(files, codec, name, g, d) && Acceptable(d, root) ==>
              Ok(OpenIndex(files, root, maxEntries, codec)) == FromDisk(d, root, maxEntries)
  {
    forall name, g: nat ensures Target(files) == Some((name, g)) <==> Pointed(files, name, g) {
      TargetMeaning(files, name, g);
    }
    forall d ensures FromDisk(d, root, maxEntries).Ok? <==> Acceptable(d, root)
      ensures FromDisk(d, root, maxEntries).Ok? ==>
                var s := FromDisk(d, root, maxEntries).value;
                s.generation == d.generation && s.maxEntries == maxEntries && s.status == Loaded && !s.scanHasMore
    {
      DocumentMeaning(d, root, maxEntries);
    }
    if Target(files).Some? {
      var (name, g) := Target(files).value;
      assert Pointed(files, name, g);
      hide Pointed, Target, FromDisk, Acceptable;
      if codec.decode(Contents(files[name])).Some? && codec.decode(Contents(files[name])).value.generation == g {
        assert Documented(files, codec, name, g, codec.decode(Contents(files[name])).value);
      }
    }
    hide Pointed, Target, FromDisk, Acceptable;
  }

  function At(files: Files, name: string): Option<string> {
    if name in files then Some(files[name]) else None
  }

  /** The same pointer and the same published files, `name` aside. */
  ghost predicate SameView(a: Files, b: Files, name: string) {
    && At(a, CURRENT) == At(b, CURRENT)
    && forall x :: Generation(x).Some? && x != name ==> At(a, x) == At(b, x)
  }

  /** What publishing a document comes to: the current pointer on the complete new file, or nothing else
      changed. */
  ghost predicate PublishedAs(before: Files, after: Files, name: string, bytes: string, moved: bool) {
    if moved then At(after, CURRENT) == Some(name) && At(after, name) == Some(bytes) && |bytes| <= MAX_CACHE_BYTES
    else SameView(before, after, name)
  }

  /** Files the current pointer does not lead to do not matter. */
  lemma SameViewOpens(a: Files, b: Files, name: string, root: string, maxEntries: nat, codec: Codec)
    requires SameView(a, b, name) && (CURRENT in a ==> Contents(a[CURRENT]) != name)
    ensures OpenIndex(b, root, maxEntries, codec) == OpenIndex(a, root, maxEntries, codec)
    ensures Target(b) == Target(a)
  {
    hide Generation;
    if CURRENT in a {
      assert At(a, CURRENT) == At(b, CURRENT);
      var target := Contents(a[CURRENT]);
      if Generation(target).Some? { assert At(a, target) == At(b, target); }
    }
    hide FromDisk;
  }

  /** Once the current file names the new file, opening gives exactly the new index. */
  lemma MovedOpens(files: Files, d: DiskIndex, s: IndexState, process: nat, nonce: nat,
                   root: string, maxEntries: nat, codec: Codec)
    requires Faithful(codec) && IsDiskOf(d, s, root) && Storable(s, root)
    requires s.generation < U64 && |codec.encode(d)| <= MAX_CACHE_BYTES
    requires At(files, CURRENT) == Some(CacheName(s.generation, process, nonce))
    requires At(files, CacheName(s.generation, process, nonce)) == Some(codec.encode(d))
    ensures OpenIndex(files, root, maxEntries, codec) == Reloaded(s, maxEntries)
    ensures Target(files) == Some((CacheName(s.generation, process, nonce), s.generation))
  {
    var name := CacheName(s.generation, process, nonce);
    GenerationOf(s.generation, process, nonce);
    CacheNameParts(s.generation, process, nonce);
    DiskRoundTrip(d, s, root, maxEntries);
    assert codec.decode(codec.encode(d)) == Some(d);
    hide Generation, CacheName, FromDisk, Storable, IsDiskOf, Faithful;
    assert Contents(name) == name;
  }

  // ---------------------------------------------------------------- a directory that can fail or stop

  /** How one file operation goes: it works, it reports an error, or the process stops in it; `reached`
      tells how much of it took effect before. */
  datatype Fault = Works | Breaks(reached: nat) | Halts(reached: nat)

  class Directory {
    var files: Files
    var halted: bool

    constructor (initial: Files)
      ensures files == initial && !halted
    {
      files, halted := initial, false;
    }

    /** Creates and fills a file that must not exist. */
    method Create(name: string, bytes: string, fault: Fault) returns (ok: bool)
      modifies this
      ensures ok ==> files == old(files)[name := bytes] && name !in old(files)
      ensures files == old(files) || (name !in old(files) && name in files && files == old(files)[name := files[name]])
      ensures halted ==> !ok || old(halted)
      ensures fault.Works? && name !in old(files) ==> ok && halted == old(halted)
    {
      match fault
      case Works =>
        ok := name !in files;
        if ok { files := files[name := bytes]; }
      case Breaks(reached) =>
        ok := false;
        if name !in files && reached > 0 {
          files := files[name := if reached > |bytes| then bytes else bytes[..reached - 1]];
        }
      case Halts(reached) =>
        ok, halted := false, true;
        if name !in files && reached > 0 {
          files := files[name := if reached > |bytes| then bytes else bytes[..reached - 1]];
        }
    }

    /** Renames over whatever holds the new name. */
    method Rename(source: string, target: string, fault: Fault) returns (ok: bool)
      requires source in files && source != target
      modifies this
      ensures ok ==> files == (old(files) - {source})[target := old(files)[source]]
      ensures files == old(files) || files == (old(files) - {source})[target := old(files)[source]]
      ensures !ok && !halted ==> files == old(files)
      ensures halted ==> !ok || old(halted)
      ensures fault.Works? ==> ok && halted == old(halted)
    {
      match fault
      case Works => ok, files := true, (files - {source})[target := files[source]];
      case Breaks(_) => ok := false;
      case Halts(reached) =>
        ok, halted := false, true;
        if reached > 0 { files := (files - {source})[target := files[source]]; }
    }

    method Remove(name: string, fault: Fault) returns (ok: bool)
      modifies this
      ensures ok ==> files == old(files) - {name}
      ensures files == old(files) || files == old(files) - {name}
      ensures halted ==> !ok || old(halted)
      ensures fault.Works? && name in old(files) ==> ok && halted == old(halted)
    {
      match fault
      case Works =>
        ok := name in files;
        files := files - {name};
      case Breaks(_) => ok := false;
      case Halts(reached) =>
        ok, halted := false, true;
        if reached > 0 { files := files - {name}; }
    }

    /** Makes renames durable; nothing in the directory changes. */
    method Sync(fault: Fault) returns (ok: bool)
      modifies this
      ensures files == old(files)
      ensures halted ==> !ok || old(halted)
      ensures fault.Works? ==> ok && halted == old(halted)
    {
      ok, halted := fault.Works?, halted || fault.Halts?;
    }
  }
}
