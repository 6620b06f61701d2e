/** Conversations and their cached form: times, stored paths, validation and conversion both ways.
    Texts are sequences of UTF-8 bytes, one per character. */
module Conversations {
  import opened Wrappers

  const NANOS: int := 1_000_000_000
  const TIME_LIMIT: int := 0x8000_0000_0000_0000 * NANOS

  /** Nanoseconds since the epoch, within what the system clock can represent. */
  type Time = t: int | -TIME_LIMIT <= t < TIME_LIMIT witness 0

  datatype Session = Session(namespace: string, id: string)

  datatype State = Live | Archived | Unknown

  datatype ProvenanceKind = ProjectLocal | ExternalLocal | HostRuntime

  datatype Provenance = Provenance(source: string, kind: ProvenanceKind, path: Option<string>)

  datatype Conversation = Conversation(
    tool: string, session: Session, title: Option<string>,
    created: Option<Time>, archived: Option<Time>, updated: Time,
    state: State, provenance: seq<Provenance>, resume: Option<string>)

  predicate IsSpace(c: char) {
    c == ' ' || '\t' <= c <= '\r'
  }

  predicate IsControl(c: char) {
    c < ' ' || c as int == 127
  }

  function TrimLeft(s: string): string {
    if s != "" && IsSpace(s[0]) then TrimLeft(s[1..]) else s
  }

  function TrimRight(s: string): string {
    if s != "" && IsSpace(s[|s| - 1]) then TrimRight(s[..|s| - 1]) else s
  }

  function Trim(s: string): string {
    TrimRight(TrimLeft(s))
  }

  /** A trimmed text, or none when nothing is left. */
  function Normalize(s: string): Option<string> {
    if Trim(s) == "" then None else Some(Trim(s))
  }

  predicate IsNormal(s: string) {
    Normalize(s) == Some(s)
  }

  lemma TrimmedEnds(s: string)
    ensures Trim(s) == s <==> s == "" || (!IsSpace(s[0]) && !IsSpace(s[|s| - 1]))
  {
    TrimLeftShorter(s);
    TrimRightShorter(TrimLeft(s));
    TrimRightShorter(s);
  }

  lemma {:induction false} TrimLeftShorter(s: string)
    ensures |TrimLeft(s)| <= |s|
    ensures |TrimLeft(s)| == |s| ==> TrimLeft(s) == s && (s == "" || !IsSpace(s[0]))
  {
    if s != "" && IsSpace(s[0]) { TrimLeftShorter(s[1..]); }
  }

  lemma {:induction false} TrimRightShorter(s: string)
    ensures |TrimRight(s)| <= |s|
    ensures |TrimRight(s)| == |s| ==> TrimRight(s) == s && (s == "" || !IsSpace(s[|s| - 1]))
  {
    if s != "" && IsSpace(s[|s| - 1]) { TrimRightShorter(s[..|s| - 1]); }
  }

  /** What the constructors of the domain types guarantee. */
  predicate WellFormed(v: Conversation) {
    && IsNormal(v.tool) && IsNormal(v.session.namespace) && IsNormal(v.session.id)
    && (v.title.Some? ==> IsNormal(v.title.value))
    && (v.resume.Some? ==> IsNormal(v.resume.value))
    && v.provenance != []
    && forall i :: 0 <= i < |v.provenance| ==> IsNormal(v.provenance[i].source)
  }

  /** The constructor: provenance is required and the title is normalised. */
  function NewConversation(tool: string, session: Session, title: Option<string>, created: Option<Time>,
                           archived: Option<Time>, updated: Time, state: State,
                           provenance: seq<Provenance>, resume: Option<string>): Option<Conversation> {
    if provenance == [] then None
    else Some(Conversation(tool, session, if title.Some? then Normalize(title.value) else None,
                           created, archived, updated, state, provenance, resume))
  }

  /** No session occurs twice. */
  predicate DistinctSessions(vs: seq<Conversation>) {
    forall i, j :: 0 <= i < j < |vs| ==> vs[i].session != vs[j].session
  }

  // ---------------------------------------------------------------- stored times

  datatype TimeParts = TimeParts(afterEpoch: bool, seconds: nat, nanoseconds: nat)

  datatype LoadFailure = Corrupt | Incompatible

  function PartsOf(t: Time): TimeParts {
    var d: int := if t >= 0 then t else 0 - t;
    TimeParts(t >= 0, d / NANOS, d % NANOS)
  }

  function TimeOf(p: TimeParts): Result<Time, LoadFailure> {
    if p.nanoseconds >= NANOS then Err(Corrupt)
    else
      var d := p.seconds * NANOS + p.nanoseconds;
      var t := if p.afterEpoch then d else -d;
      if -TIME_LIMIT <= t < TIME_LIMIT then Ok(t) else Err(Corrupt)
  }

  /** Storing a time loses nothing. */
  lemma TimeRoundTrip(t: Time)
    ensures TimeOf(PartsOf(t)) == Ok(t)
    ensures PartsOf(t).nanoseconds < NANOS && PartsOf(t).seconds < 0x1_0000_0000_0000_0000
  {
    var d: int := if t >= 0 then t else 0 - t;
    assert d == d / NANOS * NANOS + d % NANOS;
  }

  /** Every loadable form but the negative zero is the stored form of its time. */
  lemma PartsRoundTrip(p: TimeParts)
    requires TimeOf(p).Ok?
    ensures PartsOf(TimeOf(p).value) == p <==> p.afterEpoch || p.seconds > 0 || p.nanoseconds > 0
  {
    var d := p.seconds * NANOS + p.nanoseconds;
    assert d / NANOS == p.seconds && d % NANOS == p.nanoseconds;
  }

  // ---------------------------------------------------------------- stored paths

  const UNIX_BYTES := "unix-bytes"
  const MAX_PATH_BYTES: nat := 4096

  datatype StoredPath = StoredPath(encoding: string, bytes: string)

  predicate ValidPath(path: string) {
    path != "" && path[0] == '/' && |path| <= MAX_PATH_BYTES
  }

  function StorePath(path: string): Option<StoredPath> {
    if ValidPath(path) then Some(StoredPath(UNIX_BYTES, path)) else None
  }

  function LoadPath(s: StoredPath): Result<string, LoadFailure> {
    if s.encoding != UNIX_BYTES || s.bytes == "" || |s.bytes| > MAX_PATH_BYTES || '\0' in s.bytes then Err(Corrupt)
    else Ok(s.bytes)
  }

  /** A stored path loads again exactly when it holds no NUL byte. */
  lemma PathRoundTrip(path: string)
    requires StorePath(path).Some?
    ensures LoadPath(StorePath(path).value) == Ok(path) <==> '\0' !in path
    ensures LoadPath(StorePath(path).value).Ok? ==> LoadPath(StorePath(path).value).value == path
  {
  }

  // ---------------------------------------------------------------- approved sources and identifiers

  const MAX_SESSION_ID_BYTES: nat := 256
  const MAX_TITLE_BYTES: nat := 256
  const TOOLS: seq<string> := ["claude-code", "codex-cli", "opencode", "omp", "pi"]
  const GENERIC_SOURCE := "project-local-generic-jsonl"
  const GENERIC_TOOL := "generic-jsonl"
  const EXTRA := ":extra:"

  predicate IsLowerHex(c: char) {
    '0' <= c <= '9' || 'a' <= c <= 'f'
  }

  /** The tool itself, or the tool with an extra-store fingerprint. */
  predicate Belongs(source: string, tool: string) {
    || source == tool
    || (&& tool + EXTRA <= source
        && |source| == |tool| + |EXTRA| + 16
        && forall i :: |tool| + |EXTRA| <= i < |source| ==> IsLowerHex(source[i]))
  }

  function FindTool(source: string, tools: seq<string>): Option<string> {
    if tools == [] then None else if Belongs(source, tools[0]) then Some(tools[0]) else FindTool(source, tools[1..])
  }

  function ExpectedTool(source: string): Option<string> {
    if source == GENERIC_SOURCE then Some(GENERIC_TOOL) else FindTool(source, TOOLS)
  }

  function CheckSource(source: string, tool: Option<string>): Option<LoadFailure> {
    var expected := ExpectedTool(source);
    if expected.None? then Some(Incompatible)
    else if tool.Some? && tool != expected then Some(Corrupt)
    else None
  }

  lemma {:induction false} FindToolMeaning(source: string, tools: seq<string>)
    ensures match FindTool(source, tools)
            case Some(t) => t in tools && Belongs(source, t)
            case None => forall t :: t in tools ==> !Belongs(source, t)
  {
    if tools != [] && !Belongs(source, tools[0]) {
      FindToolMeaning(source, tools[1..]);
      hide Belongs;
    }
  }

  lemma PlainTools(t: string)
    requires t in TOOLS
    ensures ':' !in t && t != ""
  {
  }

  lemma ToolEnds(source: string, t: string)
    requires t in TOOLS && Belongs(source, t)
    ensures |t| <= |source| && source[..|t|] == t && (|t| < |source| ==> source[|t|] == ':')
    ensures forall i :: 0 <= i < |t| ==> source[i] != ':'
  {
    PlainTools(t);
    assert EXTRA[0] == ':';
  }

  /** A source is a store of one tool at most. */
  lemma OneTool(source: string, t: string, u: string)
    requires t in TOOLS && u in TOOLS && Belongs(source, t) && Belongs(source, u)
    ensures t == u
  {
    ToolEnds(source, t);
    ToolEnds(source, u);
  }

  /** The tool whose store a source is. */
  predicate StoreOf(source: string, tool: string) {
    if source == GENERIC_SOURCE then tool == GENERIC_TOOL else tool in TOOLS && Belongs(source, tool)
  }

  /** A source passes exactly if it is a store of a known tool, the one that is expected if any is; one of
      no known tool was written by another version. */
  lemma CheckSourceMeaning(source: string, tool: Option<string>)
    ensures CheckSource(source, tool).None? <==> exists t :: StoreOf(source, t) && (tool.None? || tool == Some(t))
    ensures CheckSource(source, tool) == Some(Incompatible) <==> forall t :: !StoreOf(source, t)
  {
    FindToolMeaning(source, TOOLS);
    if source == GENERIC_SOURCE {
      assert StoreOf(source, GENERIC_TOOL);
    } else if FindTool(source, TOOLS).Some? {
      var u := FindTool(source, TOOLS).value;
      assert StoreOf(source, u);
      forall t | StoreOf(source, t) ensures t == u { OneTool(source, t, u); }
    }
    hide Belongs, FindTool;
  }

  predicate ValidIdentifier(s: string) {
    s != "" && |s| <= MAX_SESSION_ID_BYTES && Trim(s) == s && forall c :: c in s ==> !IsControl(c)
  }

  // ---------------------------------------------------------------- cached conversations

  datatype Cached = Cached(
    source: string, tool: string, namespace: string, sessionId: string, title: Option<string>,
    created: Option<TimeParts>, archived: Option<TimeParts>, updated: TimeParts,
    state: string, provenanceKind: string, sourcePath: Option<StoredPath>, resume: Option<string>)

  function StateName(s: State): string {
    match s case Live => "live" case Archived => "archived" case Unknown => "unknown"
  }

  function StateOf(name: string): Option<State> {
    if name == "live" then Some(Live) else if name == "archived" then Some(Archived)
    else if name == "unknown" then Some(Unknown) else None
  }

  function KindName(k: ProvenanceKind): string {
    match k
    case ProjectLocal => "project-local"
    case ExternalLocal => "external-local"
    case HostRuntime => "host-runtime"
  }

  function KindOf(name: string): Option<ProvenanceKind> {
    if name == "project-local" then Some(ProjectLocal) else if name == "external-local" then Some(ExternalLocal)
    else if name == "host-runtime" then Some(HostRuntime) else None
  }

  function StoreTime(t: Option<Time>): Option<TimeParts> {
    match t case Some(v) => Some(PartsOf(v)) case None => None
  }

  function LoadTime(t: Option<TimeParts>): Result<Option<Time>, LoadFailure> {
    match t
    case None => Ok(None)
    case Some(p) => match TimeOf(p) case Ok(v) => Ok(Some(v)) case Err(e) => Err(e)
  }

  /** What the cache accepts: one approved provenance and bounded identifiers, title and path. */
  predicate Cacheable(v: Conversation) {
    && |v.provenance| == 1
    && CheckSource(v.provenance[0].source, Some(v.tool)).None?
    && v.session.namespace == v.tool
    && ValidIdentifier(v.session.id)
    && (v.title.Some? ==> |v.title.value| <= MAX_TITLE_BYTES)
    && (v.provenance[0].path.Some? ==> ValidPath(v.provenance[0].path.value))
    && (v.resume.Some? ==> ValidIdentifier(v.resume.value))
  }

  function FromConversation(v: Conversation): Option<Cached> {
    if Cacheable(v) then
      var p := v.provenance[0];
      Some(Cached(p.source, v.tool, v.session.namespace, v.session.id, v.title,
                  StoreTime(v.created), StoreTime(v.archived), PartsOf(v.updated),
                  StateName(v.state), KindName(p.kind),
                  if p.path.Some? then StorePath(p.path.value) else None, v.resume))
    else None
  }

  /** The load-time check, failures in the order they are looked for. */
  function Validate(c: Cached): Option<LoadFailure> {
    if CheckSource(c.source, Some(c.tool)).Some? then CheckSource(c.source, Some(c.tool))
    else if c.namespace != c.tool || !ValidIdentifier(c.sessionId) then Some(Corrupt)
    else if c.title.Some? && (c.title.value == "" || |c.title.value| > MAX_TITLE_BYTES) then Some(Corrupt)
    else if c.sourcePath.Some? && (LoadPath(c.sourcePath.value).Err?
        || !ValidPath(LoadPath(c.sourcePath.value).value)) then Some(Corrupt)
    else if TimeOf(c.updated).Err? || LoadTime(c.created).Err? || LoadTime(c.archived).Err? then Some(Corrupt)
    else if StateOf(c.state).None? || KindOf(c.provenanceKind).None? then Some(Corrupt)
    else if c.resume.Some? && !ValidIdentifier(c.resume.value) then Some(Corrupt)
    else None
  }

  /** Rebuilding the domain value; every identifier goes through its own constructor again. */
  function ToConversation(c: Cached): Option<Conversation> {
    var source, tool := Normalize(c.source), Normalize(c.tool);
    var namespace, id := Normalize(c.namespace), Normalize(c.sessionId);
    var kind, state := KindOf(c.provenanceKind), StateOf(c.state);
    var created, archived, updated := LoadTime(c.created), LoadTime(c.archived), TimeOf(c.updated);
    if source.None? || tool.None? || namespace.None? || id.None? || kind.None? || state.None? then None
    else if c.resume.Some? && Normalize(c.resume.value).None? then None
    else if c.sourcePath.Some? && LoadPath(c.sourcePath.value).Err? then None
    else if created.Err? || archived.Err? || updated.Err? then None
    else
      var path := if c.sourcePath.Some? then Some(LoadPath(c.sourcePath.value).value) else None;
      var resume := if c.resume.Some? then Normalize(c.resume.value) else None;
      NewConversation(tool.value, Session(namespace.value, id.value), c.title, created.value, archived.value,
                      updated.value, state.value, [Provenance(source.value, kind.value, path)], resume)
  }

  /** Approved source and tool names are normal and free of control characters. */
  lemma ApprovedNames(source: string, tool: string)
    requires CheckSource(source, Some(tool)).None?
    ensures IsNormal(source) && IsNormal(tool)
    ensures '\0' !in source && '\0' !in tool
  {
    if source != GENERIC_SOURCE {
      FindToolMeaning(source, TOOLS);
      assert tool in TOOLS && Belongs(source, tool);
      PlainTool(tool);
    } else {
      TrimmedEnds(source);
      TrimmedEnds(tool);
    }
  }

  lemma PlainTool(tool: string)
    requires tool in TOOLS
    ensures tool != "" && !IsSpace(tool[0]) && !IsSpace(tool[|tool| - 1]) && '\0' !in tool
  {
  }

  /** Whatever passes the load check can be rebuilt, so reading a page never fails. */
  lemma ValidatedRebuilds(c: Cached)
    requires Validate(c).None?
    ensures ToConversation(c).Some?
    ensures var v := ToConversation(c).value;
            && v.tool == c.tool && v.session == Session(c.namespace, c.sessionId)
            && Ok(v.updated) == TimeOf(c.updated)
            && |v.provenance| == 1 && v.provenance[0].source == c.source
  {
    ApprovedNames(c.source, c.tool);
    hide Normalize, CheckSource, ValidIdentifier, TimeOf;
  }

  lemma StoredTimesLoad(t: Option<Time>)
    ensures LoadTime(StoreTime(t)) == Ok(t)
  {
    if t.Some? { TimeRoundTrip(t.value); }
  }

  predicate PathsLoadable(v: Conversation) {
    forall i :: 0 <= i < |v.provenance| && v.provenance[i].path.Some? ==> '\0' !in v.provenance[i].path.value
  }

  /** A cached conversation comes back as it was exactly when its path holds no NUL byte; otherwise
      the cache writes what it will refuse to load. */
  lemma ConversationRoundTrip(v: Conversation)
    requires WellFormed(v) && FromConversation(v).Some?
    ensures Validate(FromConversation(v).value).None? <==> PathsLoadable(v)
    ensures ToConversation(FromConversation(v).value) == Some(v) <==> PathsLoadable(v)
  {
    StoredTimesLoad(v.created);
    StoredTimesLoad(v.archived);
    TimeRoundTrip(v.updated);
    ApprovedNames(v.provenance[0].source, v.tool);
    var p := v.provenance[0];
    if p.path.Some? { PathRoundTrip(p.path.value); }
    assert v.provenance == [p];
    NamesRoundTrip(v.state, p.kind);
    assert v.title.Some? ==> v.title.value != "";
    hide CheckSource, ValidIdentifier, TimeOf, PartsOf, StateName, StateOf, KindName, KindOf, Trim, StoreTime, LoadTime;
  }

  lemma NamesRoundTrip(s: State, k: ProvenanceKind)
    ensures StateOf(StateName(s)) == Some(s) && KindOf(KindName(k)) == Some(k)
  {
  }

  // ---------------------------------------------------------------- cache keys

  const NUL: string := "\0"

  function KeyFor(source: string, namespace: string, id: string): string {
    source + NUL + namespace + NUL + id
  }

  function Key(c: Cached): string {
    KeyFor(c.source, c.namespace, c.sessionId)
  }

  function FirstPart(s: string): string {
    if s == "" || s[0] == '\0' then "" else [s[0]] + FirstPart(s[1..])
  }

  lemma {:induction false} FirstPartOf(a: string, b: string)
    requires '\0' !in a
    ensures FirstPart(a + NUL + b) == a
  {
    if a != "" {
      FirstPartOf(a[1..], b);
      assert (a + NUL + b)[1..] == a[1..] + NUL + b;
    }
  }

  lemma SplitUnique(a: string, b: string, x: string, y: string)
    requires '\0' !in a && '\0' !in x && a + NUL + b == x + NUL + y
    ensures a == x && b == y
  {
    FirstPartOf(a, b);
    FirstPartOf(x, y);
    assert b == (a + NUL + b)[|a| + 1..] && y == (x + NUL + y)[|x| + 1..];
  }

  /** Keys tell records apart: equal keys mean equal source, namespace and session. */
  lemma KeyUnique(source: string, namespace: string, id: string, otherSource: string, otherNamespace: string,
      otherId: string)
    requires '\0' !in source && '\0' !in namespace && '\0' !in otherSource && '\0' !in otherNamespace
    requires KeyFor(source, namespace, id) == KeyFor(otherSource, otherNamespace, otherId)
    ensures source == otherSource && namespace == otherNamespace && id == otherId
  {
    assert KeyFor(source, namespace, id) == source + NUL + (namespace + NUL + id);
    assert KeyFor(otherSource, otherNamespace, otherId) == otherSource + NUL + (otherNamespace + NUL + otherId);
    SplitUnique(source, namespace + NUL + id, otherSource, otherNamespace + NUL + otherId);
    SplitUnique(namespace, id, otherNamespace, otherId);
  }

  lemma FromConversationParts(v: Conversation)
    requires FromConversation(v).Some?
    ensures var c := FromConversation(v).value;
            && c.source == v.provenance[0].source && c.tool == v.tool && c.namespace == v.tool == v.session.namespace
            && c.sessionId == v.session.id && TimeOf(c.updated) == Ok(v.updated)
            && CheckSource(c.source, Some(c.tool)).None? && ValidIdentifier(c.sessionId)
  {
    TimeRoundTrip(v.updated);
  }
}
