/** The templated Jujutsu diff: seven NUL-terminated fields a record, printed and parsed. Text is bytes. */
module JjDiff {
  import opened Wrappers
  import opened Paths
  import opened Status
  import opened Tree

  const MAX_STATUS_ENTRIES: nat := 100_000
  const FIELDS: nat := 7
  const NUL: char := '\0'

  // ---------------------------------------------------------------- fields

  /** Cuts a text at every separator; there is always at least one piece. */
  function Split(s: string, c: char): (r: seq<string>)
    ensures r != []
  {
    if s == "" then [""]
    else
      var rest := Split(s[1..], c);
      if s[0] == c then [""] + rest else [[s[0]] + rest[0]] + rest[1..]
  }

  /** Each field followed by a separator. */
  function Terminated(fields: seq<string>): string {
    if fields == [] then "" else fields[0] + [NUL] + Terminated(fields[1..])
  }

  predicate Clean(f: string) {
    NUL !in f
  }

  predicate AllClean(fields: seq<string>) {
    forall i :: 0 <= i < |fields| ==> Clean(fields[i])
  }

  lemma {:induction false} SplitFirst(f: string, rest: string)
    requires Clean(f)
    ensures Split(f + [NUL] + rest, NUL) == [f] + Split(rest, NUL)
  {
    var s := f + [NUL] + rest;
    if f == "" {
      assert s[1..] == rest;
    } else {
      assert s[1..] == f[1..] + [NUL] + rest;
      SplitFirst(f[1..], rest);
      assert f == [f[0]] + f[1..];
    }
  }

  lemma {:induction false} SplitClean(f: string)
    requires Clean(f)
    ensures Split(f, NUL) == [f]
  {
    if f != "" {
      SplitClean(f[1..]);
      assert f == [f[0]] + f[1..];
    }
  }

  lemma {:induction false} TerminatedEnds(fields: seq<string>)
    requires fields != []
    ensures Terminated(fields) != "" && Terminated(fields)[|Terminated(fields)| - 1] == NUL
  {
    if |fields| > 1 { TerminatedEnds(fields[1..]); }
  }

  /** Fields come back from their terminated text. */
  lemma {:induction false} SplitTerminated(fields: seq<string>)
    requires AllClean(fields) && fields != []
    ensures var s := Terminated(fields); Split(s[..|s| - 1], NUL) == fields
  {
    var s := Terminated(fields);
    TerminatedEnds(fields);
    if |fields| == 1 {
      assert Terminated(fields[1..]) == "";
      assert s[..|s| - 1] == fields[0];
      SplitClean(fields[0]);
    } else {
      var rest := Terminated(fields[1..]);
      TerminatedEnds(fields[1..]);
      SplitTerminated(fields[1..]);
      assert s[..|s| - 1] == fields[0] + [NUL] + rest[..|rest| - 1];
      SplitFirst(fields[0], rest[..|rest| - 1]);
      assert fields == [fields[0]] + fields[1..];
    }
  }

  lemma TerminatedJoin(c: char, rest: seq<string>)
    requires rest != []
    ensures Terminated([[c] + rest[0]] + rest[1..]) == [c] + Terminated(rest)
  {
    var first := [c] + rest[0];
    assert ([first] + rest[1..])[1..] == rest[1..];
    assert first + [NUL] + Terminated(rest[1..]) == [c] + (rest[0] + [NUL] + Terminated(rest[1..]));
  }

  lemma TerminatedNone(rest: seq<string>)
    ensures Terminated([""] + rest) == [NUL] + Terminated(rest)
  {
    assert ([""] + rest)[1..] == rest;
    assert "" + [NUL] == [NUL];
  }

  /** Every text that ends in a separator is the terminated form of its clean fields. */
  lemma {:induction false} TerminatedSplit(s: string)
    ensures AllClean(Split(s, NUL)) && Terminated(Split(s, NUL)) == s + [NUL]
  {
    if s == "" {
      TerminatedNone([]);
    } else {
      TerminatedSplit(s[1..]);
      var rest := Split(s[1..], NUL);
      hide Terminated;
      assert s + [NUL] == [s[0]] + (s[1..] + [NUL]);
      if s[0] == NUL { TerminatedNone(rest); } else { TerminatedJoin(s[0], rest); }
    }
  }

  // ---------------------------------------------------------------- records

  datatype FileType = NoFile | RegularFile | SymbolicLink | TreeObject | GitSubmodule | ConflictObject

  /** One diff entry as the template prints it: raw paths, flags and file types. */
  datatype Record = Record(
    status: StatusKind, source: string, target: string, sourceConflict: bool, targetConflict: bool,
    sourceType: FileType, targetType: FileType)

  datatype Error =
    | NotTerminated | TooMany | Truncated | BadFlag | BadType | BadStatus | BadPath

  function PrintStatus(k: StatusKind): string {
    match k
    case Modified => "M" case Added => "A" case Deleted => "D" case Copied => "C" case Renamed => "R"
    case _ => ""
  }

  function ParseStatus(s: string): Option<StatusKind> {
    if s == "M" then Some(Modified) else if s == "A" then Some(Added) else if s == "D" then Some(Deleted)
    else if s == "C" then Some(Copied) else if s == "R" then Some(Renamed) else None
  }

  function PrintFlag(b: bool): string {
    if b then "true" else "false"
  }

  function ParseFlag(s: string): Option<bool> {
    if s == "true" then Some(true) else if s == "false" then Some(false) else None
  }

  function PrintType(t: FileType): string {
    match t
    case NoFile => "" case RegularFile => "file" case SymbolicLink => "symlink" case TreeObject => "tree"
    case GitSubmodule => "git-submodule" case ConflictObject => "conflict"
  }

  function ParseType(s: string): Option<FileType> {
    if s == "" then Some(NoFile) else if s == "file" then Some(RegularFile) else if s == "symlink"
        then Some(SymbolicLink)
    else if s == "tree" then Some(TreeObject) else if s == "git-submodule" then Some(GitSubmodule)
    else if s == "conflict" then Some(ConflictObject) else None
  }

  lemma WordsRoundTrip(s: string)
    ensures ParseStatus(s).Some? ==> PrintStatus(ParseStatus(s).value) == s
    ensures ParseFlag(s).Some? ==> PrintFlag(ParseFlag(s).value) == s
    ensures ParseType(s).Some? ==> PrintType(ParseType(s).value) == s
  {
  }

  /** The named components of a path; an absolute, empty or dotted one has none. */
  function Names(pieces: seq<string>): Option<Path> {
    if pieces == [] then Some([])
    else
      var rest := Names(pieces[1..]);
      if pieces[0] == ".." || rest.None? then None
      else if pieces[0] == "" || pieces[0] == "." then rest
      else Some([pieces[0]] + rest.value)
  }

  function ParsePath(b: string): Option<Path> {
    if b == "" || b[0] == '/' || Split(b, '/')[0] == "." then None else Names(Split(b, '/'))
  }

  predicate Renames(k: StatusKind) {
    k == Renamed || k == Copied
  }

  /** What the template prints: a status it knows and usable paths where they are used. */
  predicate WellFormed(r: Record) {
    && ParseStatus(PrintStatus(r.status)) == Some(r.status)
    && Clean(r.source) && Clean(r.target)
    && ParsePath(r.target).Some? && (Renames(r.status) ==> ParsePath(r.source).Some?)
  }

  function FieldsOf(r: Record): (fs: seq<string>)
    ensures |fs| == FIELDS
  {
    [PrintStatus(r.status), r.source, r.target, PrintFlag(r.sourceConflict), PrintFlag(r.targetConflict),
     PrintType(r.sourceType), PrintType(r.targetType)]
  }

  function AllFields(rs: seq<Record>): seq<string> {
    if rs == [] then [] else FieldsOf(rs[0]) + AllFields(rs[1..])
  }

  function Print(rs: seq<Record>): string {
    Terminated(AllFields(rs))
  }

  /** A record that is no file on either side. */
  predicate Structural(r: Record) {
    (r.sourceType == NoFile || r.sourceType == TreeObject) && (r.targetType == NoFile || r.targetType == TreeObject)
  }

  function Classify(r: Record): StatusKind {
    if r.sourceConflict || r.targetConflict || r.sourceType == ConflictObject
        || r.targetType == ConflictObject then Conflicted
    else if r.status == Modified && r.sourceType != NoFile && r.targetType != NoFile
        && r.sourceType != r.targetType then TypeChanged
    else r.status
  }

  function EntryOf(r: Record): StatusEntry
    requires WellFormed(r)
  {
    StatusEntry(ParsePath(r.target).value, if Renames(r.status) then ParsePath(r.source) else None, Classify(r),
                if r.sourceConflict then Some(Conflicted) else None, if r.targetConflict then Some(Conflicted)
                    else None)
  }

  /** One entry for every record that is not structural, in order. */
  function EntriesOf(rs: seq<Record>): seq<StatusEntry>
    requires forall r :: r in rs ==> WellFormed(r)
  {
    if rs == [] then []
    else
      var n := |rs| - 1;
      EntriesOf(rs[..n]) + (if Structural(rs[n]) then [] else [EntryOf(rs[n])])
  }

  // ---------------------------------------------------------------- parsing

  /** Reads a record off the fields, failing at the first field that is missing or wrong. */
  function ReadRecord(fs: seq<string>): Result<Record, Error>
    requires fs != []
  {
    if |fs| < 4 then Err(Truncated)
    else if ParseFlag(fs[3]).None? then Err(BadFlag)
    else if |fs| < 5 then Err(Truncated)
    else if ParseFlag(fs[4]).None? then Err(BadFlag)
    else if |fs| < 6 then Err(Truncated)
    else if ParseType(fs[5]).None? then Err(BadType)
    else if |fs| < 7 then Err(Truncated)
    else if ParseType(fs[6]).None? then Err(BadType)
    else if ParseStatus(fs[0]).None? then Err(BadStatus)
    else if Renames(ParseStatus(fs[0]).value) && ParsePath(fs[1]).None? then Err(BadPath)
    else if ParsePath(fs[2]).None? then Err(BadPath)
    else Ok(Record(ParseStatus(fs[0]).value, fs[1], fs[2], ParseFlag(fs[3]).value, ParseFlag(fs[4]).value,
                   ParseType(fs[5]).value, ParseType(fs[6]).value))
  }

  /** Reads all records, at most `room` of them. */
  function ReadRecords(fs: seq<string>, room: nat): Result<seq<Record>, Error>
    decreases |fs|
  {
    if fs == [] then Ok([])
    else if room == 0 then Err(TooMany)
    else
      match ReadRecord(fs)
      case Err(e) => Err(e)
      case Ok(r) =>
        match ReadRecords(fs[FIELDS..], room - 1)
        case Err(e) => Err(e)
        case Ok(rs) => Ok([r] + rs)
  }

  function ReadDiff(output: string): Result<seq<Record>, Error> {
    if output == "" then Ok([])
    else if output[|output| - 1] != NUL then Err(NotTerminated)
    else ReadRecords(Split(output[..|output| - 1], NUL), MAX_STATUS_ENTRIES)
  }

  lemma ReadBack(r: Record, rest: seq<string>)
    requires WellFormed(r)
    ensures ReadRecord(FieldsOf(r) + rest) == Ok(r)
    ensures (FieldsOf(r) + rest)[FIELDS..] == rest
    ensures AllClean(FieldsOf(r))
  {
    var fs := FieldsOf(r) + rest;
    assert fs[..FIELDS] == FieldsOf(r) && fs[FIELDS..] == rest;
    WordsBack(r);
    hide ParsePath, ParseStatus, ParseFlag, ParseType, PrintStatus, PrintFlag, PrintType, Clean;
  }

  lemma WordsBack(r: Record)
    ensures ParseFlag(PrintFlag(r.sourceConflict)) == Some(r.sourceConflict)
    ensures ParseFlag(PrintFlag(r.targetConflict)) == Some(r.targetConflict)
    ensures ParseType(PrintType(r.sourceType)) == Some(r.sourceType)
    ensures ParseType(PrintType(r.targetType)) == Some(r.targetType)
    ensures Clean(PrintStatus(r.status)) && Clean(PrintFlag(r.sourceConflict)) && Clean(PrintFlag(r.targetConflict))
    ensures Clean(PrintType(r.sourceType)) && Clean(PrintType(r.targetType))
  {
  }

  lemma ReadMore(r: Record, rest: seq<string>, room: nat)
    requires WellFormed(r) && room > 0 && ReadRecords(rest, room - 1).Ok? && AllClean(rest)
    ensures ReadRecords(FieldsOf(r) + rest, room).Ok?
    ensures ReadRecords(FieldsOf(r) + rest, room).value == [r] + ReadRecords(rest, room - 1).value
    ensures AllClean(FieldsOf(r) + rest)
  {
    ReadBack(r, rest);
    hide WellFormed, FieldsOf, ReadRecord;
    assert FieldsOf(r) + rest != [] by { assert |FieldsOf(r)| == FIELDS; }
  }

  lemma AllFieldsSplit(rs: seq<Record>)
    requires rs != []
    ensures AllFields(rs) == FieldsOf(rs[0]) + AllFields(rs[1..]) && AllFields(rs) != []
  {
    assert |FieldsOf(rs[0])| == FIELDS;
    hide FieldsOf;
  }

  lemma {:induction false} ReadAllBack(rs: seq<Record>, room: nat)
    requires (forall r :: r in rs ==> WellFormed(r)) && |rs| <= room
    ensures ReadRecords(AllFields(rs), room).Ok? && ReadRecords(AllFields(rs), room).value == rs
    ensures AllClean(AllFields(rs))
    ensures rs != [] ==> AllFields(rs) != []
  {
    if rs == [] {
      assert AllFields(rs) == [];
    } else {
      assert forall r :: r in rs[1..] ==> r in rs;
      hide *;
      ReadAllBack(rs[1..], room - 1);
      ReadOneBack(rs, room);
    }
  }

  lemma ReadOneBack(rs: seq<Record>, room: nat)
    requires rs != [] && room > 0 && WellFormed(rs[0]) && AllClean(AllFields(rs[1..]))
    requires ReadRecords(AllFields(rs[1..]), room - 1).Ok? && ReadRecords(AllFields(rs[1..]), room - 1).value == rs[1..]
    ensures ReadRecords(AllFields(rs), room).Ok? && ReadRecords(AllFields(rs), room).value == rs
    ensures AllClean(AllFields(rs)) && AllFields(rs) != []
  {
    AllFieldsSplit(rs);
    ReadMore(rs[0], AllFields(rs[1..]), room);
    hide *;
    assert rs == [rs[0]] + rs[1..];
  }

  /** Parsing undoes the template for every list of well-formed records within the limit. */
  lemma DiffRoundTrip(rs: seq<Record>)
    requires (forall r :: r in rs ==> WellFormed(r)) && |rs| <= MAX_STATUS_ENTRIES
    ensures ReadDiff(Print(rs)) == Ok(rs)
  {
    ReadAllBack(rs, MAX_STATUS_ENTRIES);
    if rs != [] {
      TerminatedEnds(AllFields(rs));
      SplitTerminated(AllFields(rs));
    }
  }

  lemma RecordIs(fs: seq<string>)
    requires fs != [] && AllClean(fs) && ReadRecord(fs).Ok?
    ensures |fs| >= FIELDS && WellFormed(ReadRecord(fs).value) && FieldsOf(ReadRecord(fs).value) == fs[..FIELDS]
  {
    WordsRoundTrip(fs[0]);
    WordsRoundTrip(fs[3]);
    WordsRoundTrip(fs[4]);
    WordsRoundTrip(fs[5]);
    WordsRoundTrip(fs[6]);
    hide ParseStatus, ParseFlag, ParseType, PrintStatus, PrintFlag, PrintType, ParsePath;
  }

  lemma {:induction false} RecordsAre(fs: seq<string>, room: nat)
    requires AllClean(fs) && ReadRecords(fs, room).Ok?
    ensures var rs := ReadRecords(fs, room).value;
            && |rs| <= room && |fs| == FIELDS * |rs| && AllFields(rs) == fs && forall r :: r in rs ==> WellFormed(r)
    decreases |fs|
  {
    if fs != [] {
      RecordIs(fs);
      hide ReadRecord, WellFormed, FieldsOf;
      RecordsAre(fs[FIELDS..], room - 1);
      var rest := ReadRecords(fs[FIELDS..], room - 1).value;
      var rs := ReadRecords(fs, room).value;
      assert rs[1..] == rest;
      assert fs == fs[..FIELDS] + fs[FIELDS..];
    }
  }

  function CountNuls(s: string): nat {
    if s == "" then 0 else (if s[0] == NUL then 1 else 0) + CountNuls(s[1..])
  }

  lemma {:induction false} NulsAre(fields: seq<string>)
    requires AllClean(fields)
    ensures CountNuls(Terminated(fields)) == |fields|
  {
    if fields != [] {
      NulsAre(fields[1..]);
      NulsAfter(fields[0], Terminated(fields[1..]));
    }
  }

  lemma {:induction false} NulsAfter(f: string, rest: string)
    requires Clean(f)
    ensures CountNuls(f + [NUL] + rest) == 1 + CountNuls(rest)
  {
    if f == "" {
      assert (f + [NUL] + rest)[1..] == rest;
    } else {
      NulsAfter(f[1..], rest);
      assert (f + [NUL] + rest)[1..] == f[1..] + [NUL] + rest;
    }
  }

  /** Only prints of well-formed records within the limit are accepted; in particular any other number
      of fields than seven a record is rejected. */
  lemma AcceptedIsPrinted(output: string)
    requires ReadDiff(output).Ok?
    ensures var rs := ReadDiff(output).value;
            && output == Print(rs) && |rs| <= MAX_STATUS_ENTRIES && (forall r :: r in rs ==> WellFormed(r))
            && CountNuls(output) == FIELDS * |rs|
  {
    if output == "" {
      assert AllFields([]) == [] && Terminated([]) == "";
    } else {
      var body := output[..|output| - 1];
      TerminatedSplit(body);
      RecordsAre(Split(body, NUL), MAX_STATUS_ENTRIES);
      assert output == body + [NUL];
      NulsAre(Split(body, NUL));
      hide Split, ReadRecords, WellFormed, Terminated, CountNuls, AllFields;
    }
  }

  /** Takes the next field, if there is one. */
  method NextField(fields: seq<string>, at: nat) returns (r: Result<string, Error>, next: nat)
    requires at <= |fields|
    ensures next == if at < |fields| then at + 1 else at
    ensures r == if at < |fields| then Ok(fields[at]) else Err(Truncated)
  {
    if at < |fields| { return Ok(fields[at]), at + 1; }
    return Err(Truncated), at;
  }

  /** Takes the six fields after the status and checks them in order. */
  method TakeRecord(fields: seq<string>, at: nat) returns (r: Result<Record, Error>)
    requires at < |fields|
    ensures r == ReadRecord(fields[at..])
  {
    var fs := fields[at..];
    hide ParsePath, ParseStatus, ParseFlag, ParseType;
    var source, target, flag, kind, next;
    source, next := NextField(fields, at + 1);
    if source.Err? { return Err(source.error); }
    target, next := NextField(fields, next);
    if target.Err? { return Err(target.error); }
    flag, next := NextField(fields, next);
    if flag.Err? { return Err(flag.error); }
    var sourceConflict := ParseFlag(flag.value);
    if sourceConflict.None? { return Err(BadFlag); }
    flag, next := NextField(fields, next);
    if flag.Err? { return Err(flag.error); }
    var targetConflict := ParseFlag(flag.value);
    if targetConflict.None? { return Err(BadFlag); }
    kind, next := NextField(fields, next);
    if kind.Err? { return Err(kind.error); }
    var sourceType := ParseType(kind.value);
    if sourceType.None? { return Err(BadType); }
    kind, next := NextField(fields, next);
    if kind.Err? { return Err(kind.error); }
    var targetType := ParseType(kind.value);
    if targetType.None? { return Err(BadType); }
    var status := ParseStatus(fields[at]);
    if status.None? { return Err(BadStatus); }
    if Renames(status.value) && ParsePath(source.value).None? { return Err(BadPath); }
    if ParsePath(target.value).None? { return Err(BadPath); }
    r := Ok(Record(status.value, source.value, target.value, sourceConflict.value, targetConflict.value,
                   sourceType.value, targetType.value));
  }

  function Prefixed(done: seq<Record>, rest: Result<seq<Record>, Error>): Result<seq<Record>, Error> {
    match rest case Ok(rs) => Ok(done + rs) case Err(e) => Err(e)
  }

  /** What is left to read once some records were read. */
  ghost predicate Reading(fields: seq<string>, at: nat, done: seq<Record>, entries: seq<StatusEntry>) {
    && at <= |fields| && AllClean(fields)
    && |done| <= MAX_STATUS_ENTRIES
    && (forall r :: r in done ==> WellFormed(r)) && entries == EntriesOf(done)
    && ReadRecords(fields, MAX_STATUS_ENTRIES) == Prefixed(done, ReadRecords(fields[at..], MAX_STATUS_ENTRIES - |done|))
  }

  lemma ReadingStarts(fields: seq<string>)
    requires AllClean(fields)
    ensures Reading(fields, 0, [], [])
  {
    assert fields[0..] == fields;
    match ReadRecords(fields, MAX_STATUS_ENTRIES)
    case Ok(rest) => assert [] + rest == rest;
    case Err(_) =>
  }

  lemma PrefixedMore(done: seq<Record>, r: Record, rest: Result<seq<Record>, Error>)
    ensures Prefixed(done, Prefixed([r], rest)) == Prefixed(done + [r], rest)
  {
    if rest.Ok? { assert done + ([r] + rest.value) == done + [r] + rest.value; }
  }

  lemma ReadStep(fs: seq<string>, room: nat)
    requires fs != [] && room > 0
    ensures ReadRecord(fs).Err? ==> ReadRecords(fs, room) == Err(ReadRecord(fs).error)
    ensures ReadRecord(fs).Ok? ==>
              && |fs| >= FIELDS
              && ReadRecords(fs, room) == Prefixed([ReadRecord(fs).value], ReadRecords(fs[FIELDS..], room - 1))
  {
    assert ReadRecord(fs).Ok? ==> |fs| >= FIELDS;
    hide ReadRecord;
  }

  lemma ReadingMore(fields: seq<string>, at: nat, done: seq<Record>, entries: seq<StatusEntry>)
    requires Reading(fields, at, done, entries) && at < |fields|
    ensures |done| == MAX_STATUS_ENTRIES ==> ReadRecords(fields, MAX_STATUS_ENTRIES) == Err(TooMany)
    ensures |done| < MAX_STATUS_ENTRIES && ReadRecord(fields[at..]).Err? ==>
              ReadRecords(fields, MAX_STATUS_ENTRIES) == Err(ReadRecord(fields[at..]).error)
    ensures |done| < MAX_STATUS_ENTRIES && ReadRecord(fields[at..]).Ok? ==>
              var r := ReadRecord(fields[at..]).value;
              WellFormed(r) && Reading(fields, at + FIELDS, done + [r], if Structural(r) then entries
                  else entries + [EntryOf(r)])
  {
    var fs := fields[at..];
    hide ReadRecord, WellFormed, Structural, EntryOf;
    if |done| < MAX_STATUS_ENTRIES {
      var room := MAX_STATUS_ENTRIES - |done|;
      ReadStep(fs, room);
      if ReadRecord(fs).Ok? {
        RecordIs(fs);
        assert fs[FIELDS..] == fields[at + FIELDS..];
        ReadingNext(fields, at, done, entries, ReadRecord(fs).value);
      }
    }
    hide Reading;
  }

  lemma ReadingNext(fields: seq<string>, at: nat, done: seq<Record>, entries: seq<StatusEntry>, r: Record)
    requires Reading(fields, at, done, entries) && at + FIELDS <= |fields| && |done| < MAX_STATUS_ENTRIES
        && WellFormed(r)
    requires ReadRecords(fields[at..], MAX_STATUS_ENTRIES - |done|)
             == Prefixed([r], ReadRecords(fields[at + FIELDS..], MAX_STATUS_ENTRIES - |done| - 1))
    ensures Reading(fields, at + FIELDS, done + [r], if Structural(r) then entries else entries + [EntryOf(r)])
  {
    hide ReadRecords, Prefixed, WellFormed, Structural, EntryOf;
    PrefixedMore(done, r, ReadRecords(fields[at + FIELDS..], MAX_STATUS_ENTRIES - |done| - 1));
    EntriesMore(done, r);
  }

  lemma EntriesMore(done: seq<Record>, r: Record)
    requires (forall x :: x in done ==> WellFormed(x)) && WellFormed(r)
    ensures forall x :: x in done + [r] ==> WellFormed(x)
    ensures EntriesOf(done + [r]) == if Structural(r) then EntriesOf(done) else EntriesOf(done) + [EntryOf(r)]
  {
    assert (done + [r])[..|done|] == done;
    hide WellFormed, EntryOf, Structural;
  }

  /** Parses a templated diff: the classified entries of its records, or the first error. */
  method ParseTemplatedDiff(output: string) returns (r: Result<seq<StatusEntry>, Error>)
    ensures match ReadDiff(output)
            case Err(e) => r == Err(e)
            case Ok(rs) => (forall x :: x in rs ==> WellFormed(x)) && r == Ok(EntriesOf(rs))
  {
    if output == "" {
      return Ok([]);
    }
    if output[|output| - 1] != NUL {
      return Err(NotTerminated);
    }
    var fields := Split(output[..|output| - 1], NUL);
    TerminatedSplit(output[..|output| - 1]);
    var entries: seq<StatusEntry>, records, at := [], 0, 0;
    ghost var done: seq<Record> := [];
    assert ReadDiff(output) == ReadRecords(fields, MAX_STATUS_ENTRIES);
    ReadingStarts(fields);
    hide ReadRecord, WellFormed, Structural, EntryOf, Reading, ReadDiff, ReadRecords, Split;
    while at < |fields|
      invariant Reading(fields, at, done, entries) && at <= |fields| && records == |done| <= MAX_STATUS_ENTRIES
      decreases |fields| - at
    {
      ReadingMore(fields, at, done, entries);
      if records == MAX_STATUS_ENTRIES {
        return Err(TooMany);
      }
      records := records + 1;
      var record := TakeRecord(fields, at);
      if record.Err? {
        return Err(record.error);
      }
      ReadingBounds(fields, at + FIELDS, done + [record.value], if Structural(record.value) then entries
          else entries + [EntryOf(record.value)]);
      at, done := at + FIELDS, done + [record.value];
      if Structural(record.value) {
        continue;
      }
      entries := entries + [EntryOf(record.value)];
    }
    ReadingEnds(fields, at, done, entries);
    r := Ok(entries);
  }

  lemma ReadingBounds(fields: seq<string>, at: nat, done: seq<Record>, entries: seq<StatusEntry>)
    requires Reading(fields, at, done, entries)
    ensures at <= |fields| && |done| <= MAX_STATUS_ENTRIES
  {
  }

  lemma ReadingEnds(fields: seq<string>, at: nat, done: seq<Record>, entries: seq<StatusEntry>)
    requires Reading(fields, at, done, entries) && at == |fields|
    ensures ReadRecords(fields, MAX_STATUS_ENTRIES) == Ok(done)
    ensures (forall x :: x in done ==> WellFormed(x)) && entries == EntriesOf(done)
  {
    assert fields[at..] == [] && done + [] == done;
    hide WellFormed, EntryOf;
  }

  /** Every record that is a file on some side has its entry, at the place its predecessors leave it. */
  lemma {:induction false} EntryAt(rs: seq<Record>, i: nat)
    requires (forall r :: r in rs ==> WellFormed(r)) && i < |rs| && !Structural(rs[i])
    ensures forall r :: r in rs[..i] ==> WellFormed(r)
    ensures |EntriesOf(rs[..i])| < |EntriesOf(rs)| && EntriesOf(rs)[|EntriesOf(rs[..i])|] == EntryOf(rs[i])
    decreases |rs|
  {
    hide WellFormed, EntryOf, Structural;
    assert forall r :: r in rs[..i] ==> r in rs;
    var n := |rs| - 1;
    if i < n {
      assert rs[..n][..i] == rs[..i];
      assert forall r :: r in rs[..n] ==> r in rs;
      EntryAt(rs[..n], i);
    }
  }

  // ---------------------------------------------------------------- what the fields of a record say

  /** A usable path: not empty, not absolute, no leading dot and nowhere a step up. */
  predicate Usable(b: string) {
    b != "" && b[0] != '/' && Split(b, '/')[0] != "." && ".." !in Split(b, '/')
  }

  /** The pieces of a path that name something. */
  function Naming(pieces: seq<string>): Path {
    if pieces == [] then []
    else
      var n := |pieces| - 1;
      Naming(pieces[..n]) + (if pieces[n] in {"", "."} then [] else [pieces[n]])
  }

  lemma {:induction false} NamingFirst(pieces: seq<string>)
    requires pieces != []
    ensures Naming(pieces) == (if pieces[0] in {"", "."} then [] else [pieces[0]]) + Naming(pieces[1..])
  {
    var n := |pieces| - 1;
    if n == 0 {
      assert pieces[..n] == [] == pieces[1..];
    } else {
      NamingFirst(pieces[..n]);
      assert pieces[1..][..n - 1] == pieces[..n][1..];
    }
  }

  lemma {:induction false} NamesMeaning(pieces: seq<string>)
    ensures Names(pieces) == if ".." in pieces then None else Some(Naming(pieces))
  {
    if pieces != [] {
      NamesMeaning(pieces[1..]);
      NamingFirst(pieces);
      assert ".." in pieces <==> pieces[0] == ".." || ".." in pieces[1..];
      assert [] + Naming(pieces[1..]) == Naming(pieces[1..]);
    }
  }

  lemma ParsePathMeaning(b: string)
    ensures ParsePath(b) == if Usable(b) then Some(Naming(Split(b, '/'))) else None
  {
    NamesMeaning(Split(b, '/'));
    hide Split, Names, Naming;
  }

  /** The fields of a record: a known letter, flags and file types, and usable paths where they are used. */
  predicate Readable(fs: seq<string>) {
    && |fs| >= FIELDS
    && fs[0] in {"M", "A", "D", "C", "R"} && fs[3] in {"true", "false"} && fs[4] in {"true", "false"}
    && fs[5] in {"", "file", "symlink", "tree", "git-submodule", "conflict"}
    && fs[6] in {"", "file", "symlink", "tree", "git-submodule", "conflict"}
    && (fs[0] in {"C", "R"} ==> Usable(fs[1])) && Usable(fs[2])
  }

  /** The kind a record reports: a conflict wherever one is flagged or present, a type change where a modified
      file has another type on the other side, else what its letter says. */
  function KindRead(fs: seq<string>): StatusKind
    requires |fs| >= FIELDS
  {
    if fs[3] == "true" || fs[4] == "true" || fs[5] == "conflict" || fs[6] == "conflict" then Conflicted
    else if fs[0] == "M" && fs[5] != "" && fs[6] != "" && fs[5] != fs[6] then TypeChanged
    else if fs[0] == "M" then Modified
    else if fs[0] == "A" then Added
    else if fs[0] == "D" then Deleted
    else if fs[0] == "C" then Copied
    else Renamed
  }

  lemma ReadableIff(fs: seq<string>)
    requires fs != []
    ensures ReadRecord(fs).Ok? <==> Readable(fs)
  {
    if |fs| > 1 { ParsePathMeaning(fs[1]); }
    if |fs| > 2 { ParsePathMeaning(fs[2]); }
    hide Usable, ParsePath, Split;
  }

  lemma WordsRead(fs: seq<string>)
    requires Readable(fs)
    ensures ParseFlag(fs[3]) == Some(fs[3] == "true") && ParseFlag(fs[4]) == Some(fs[4] == "true")
    ensures ParseType(fs[5]).Some? && (ParseType(fs[5]).value in {NoFile, TreeObject} <==> fs[5] in {"", "tree"})
    ensures ParseType(fs[6]).Some? && (ParseType(fs[6]).value in {NoFile, TreeObject} <==> fs[6] in {"", "tree"})
    ensures ParseStatus(fs[0]).Some? && (Renames(ParseStatus(fs[0]).value) <==> fs[0] in {"C", "R"})
  {
    hide Usable;
  }

  lemma FieldsRead(fs: seq<string>)
    requires Readable(fs)
    ensures var r := ReadRecord(fs);
            && r.Ok? && r.value.source == fs[1] && r.value.target == fs[2]
            && (r.value.sourceConflict <==> fs[3] == "true") && (r.value.targetConflict <==> fs[4] == "true")
            && (Structural(r.value) <==> fs[5] in {"", "tree"} && fs[6] in {"", "tree"})
            && r.value.sourceType == ParseType(fs[5]).value && r.value.targetType == ParseType(fs[6]).value
            && ParseStatus(fs[0]) == Some(r.value.status)
  {
    ReadableIff(fs);
    WordsRead(fs);
    hide Readable, ParsePath, ParseType, ParseFlag, ParseStatus, Renames;
  }

  lemma TypesRead(fs: seq<string>)
    requires Readable(fs)
    ensures ParseType(fs[5]).Some? && ParseType(fs[6]).Some? && ParseStatus(fs[0]).Some?
    ensures forall i :: 5 <= i < FIELDS ==>
              var t := ParseType(fs[i]).value;
              (t == NoFile <==> fs[i] == "") && (t == ConflictObject <==> fs[i] == "conflict")
    ensures fs[5] == fs[6] <==> ParseType(fs[5]) == ParseType(fs[6])
    ensures Renames(ParseStatus(fs[0]).value) <==> fs[0] in {"C", "R"}
  {
  }

  lemma KindIs(fs: seq<string>, r: Record)
    requires Readable(fs) && ReadRecord(fs) == Ok(r)
    ensures Classify(r) == KindRead(fs)
  {
    FieldsRead(fs);
    TypesRead(fs);
    hide ReadRecord, Readable, ParseType;
  }

  /** What a record of readable fields becomes: nothing if neither side is a file, else one entry. */
  lemma RecordMeaning(fs: seq<string>)
    requires Readable(fs) && AllClean(fs)
    ensures var r := ReadRecord(fs);
            && r.Ok? && (Structural(r.value) <==> fs[5] in {"", "tree"} && fs[6] in {"", "tree"})
            && WellFormed(r.value)
            && var e := EntryOf(r.value);
               && e.path == Naming(Split(fs[2], '/'))
               && e.source == (if fs[0] in {"C", "R"} then Some(Naming(Split(fs[1], '/'))) else None)
               && e.kind == KindRead(fs)
               && e.index == (if fs[3] == "true" then Some(Conflicted) else None)
               && e.worktree == (if fs[4] == "true" then Some(Conflicted) else None)
  {
    FieldsRead(fs);
    TypesRead(fs);
    KindIs(fs, ReadRecord(fs).value);
    RecordIs(fs);
    ParsePathMeaning(fs[1]);
    ParsePathMeaning(fs[2]);
    hide Usable, ParsePath, Split, Naming, ReadRecord, Classify, KindRead, Renames, Structural;
  }
}
