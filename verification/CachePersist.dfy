/** Publishing an index: a new file, then the current pointer to it, then the clean-up; and opening it again. */
module CachePersist {
  import opened Wrappers
  import opened Sorting
  import opened Conversations
  import opened Discovery
  import opened Index
  import opened CacheNames
  import opened CacheFiles

  type Faults = nat -> Fault

  /** The order in which a directory lists its entries. */
  type Lister = set<string> -> seq<string>

  ghost predicate Enumerates(list: Lister) {
    forall s :: Distinct(list(s)) && forall x :: x in list(s) <==> x in s
  }

  datatype Answer = Done(completed: bool) | Failed | Stopped

  /** Only the named files changed. */
  ghost predicate OnlyChanged(a: Files, b: Files, x: string, y: string) {
    forall name :: name != x && name != y ==> At(a, name) == At(b, name)
  }

  /** Writes the document aside and renames it into place, unless cancelled in between. */
  method PublishDocument(dir: Directory, bytes: string, temporary: string, published: string, cancelled: bool,
      faults: Faults)
    returns (answer: Answer)
    requires !dir.halted && temporary != published
    modifies dir
    ensures OnlyChanged(old(dir.files), dir.files, temporary, published)
    ensures answer == Done(true) ==> At(dir.files, published) == Some(bytes) && !dir.halted
    ensures answer == Done(false) ==> dir.files == old(dir.files) && cancelled && !dir.halted
    ensures answer == Failed ==> !dir.halted
    ensures (forall k :: faults(k).Works?) && temporary !in old(dir.files) ==> answer == Done(!cancelled)
  {
    var created := dir.Create(temporary, bytes, faults(0));
    if dir.halted { return Stopped; }
    var ok := created;
    if created {
      if cancelled {
        var removed := dir.Remove(temporary, faults(1));
        if dir.halted { return Stopped; }
        if removed {
          assert old(dir.files)[temporary := bytes] - {temporary} == old(dir.files);
          return Done(false);
        }
        ok := false;
      } else {
        ok := dir.Rename(temporary, published, faults(1));
        if dir.halted { return Stopped; }
      }
    }
    if !ok {
      var _ := dir.Remove(temporary, faults(2));
      return if dir.halted then Stopped else Failed;
    }
    answer := Done(true);
  }

  /** Writes the new pointer aside and renames it over the current one. */
  method PublishPointer(dir: Directory, name: string, temporary: string, faults: Faults)
    returns (answer: Answer, ghost moved: bool)
    requires !dir.halted && temporary != CURRENT
    modifies dir
    ensures OnlyChanged(old(dir.files), dir.files, temporary, CURRENT)
    ensures moved ==> At(dir.files, CURRENT) == Some(name)
    ensures !moved ==> At(dir.files, CURRENT) == At(old(dir.files), CURRENT)
    ensures answer.Done? ==> answer.completed && moved && !dir.halted
    ensures answer == Failed ==> !dir.halted
    ensures (forall k :: faults(k).Works?) && temporary !in old(dir.files) ==> answer == Done(true)
  {
    moved := false;
    var ok := dir.Create(temporary, name, faults(0));
    if dir.halted { return Stopped, moved; }
    if ok {
      label renaming:
      ok := dir.Rename(temporary, CURRENT, faults(1));
      moved := dir.files != old@renaming(dir.files);
      if dir.halted { return Stopped, moved; }
    }
    if !ok {
      var _ := dir.Remove(temporary, faults(2));
      return if dir.halted then Stopped else Failed, moved;
    }
    var synced := dir.Sync(faults(3));
    answer := if dir.halted then Stopped else if synced then Done(true) else Failed;
  }

  /** A published file of an earlier generation. */
  predicate IsOlder(name: string, generation: nat, published: string) {
    name != published && Generation(name).Some? && Generation(name).value < generation
  }

  /** Only files of earlier generations are gone. */
  ghost predicate OnlyOlderGone(a: Files, b: Files, generation: nat, published: string) {
    forall x :: At(a, x) == At(b, x) || (IsOlder(x, generation, published) && x !in b)
  }

  function FirstListed(s: seq<string>): seq<string> {
    if |s| <= MAX_CACHE_DIRECTORY_ENTRIES then s else s[..MAX_CACHE_DIRECTORY_ENTRIES]
  }

  /** Removes earlier generations among the first entries listed. */
  method RemoveOlder(dir: Directory, generation: nat, published: string, list: Lister, faults: Faults)
    returns (answer: Answer)
    requires !dir.halted && Enumerates(list)
    modifies dir
    ensures forall x :: At(dir.files, x) != At(old(dir.files), x) ==>
              && x !in dir.files && x != published
              && Generation(x).Some? && Generation(x).value < generation
    ensures OnlyOlderGone(old(dir.files), dir.files, generation, published)
    ensures answer.Done? ==>
              && answer.completed
              && forall i :: 0 <= i < |list(old(dir.files.Keys))| && i < 64 ==>
                   var x := list(old(dir.files.Keys))[i];
                   x != published && Generation(x).Some? && Generation(x).value < generation ==> x !in dir.files
    ensures (forall k :: faults(k).Works?) ==> answer == Done(true)
  {
    hide Generation;
    var names := FirstListed(list(dir.files.Keys));
    assert forall x :: x in names ==> x in list(dir.files.Keys);
    assert Distinct(list(dir.files.Keys));
    for i := 0 to |names|
      invariant !dir.halted && OnlyOlderGone(old(dir.files), dir.files, generation, published)
      invariant forall j :: 0 <= j < i && IsOlder(names[j], generation, published) ==> names[j] !in dir.files
      invariant forall j :: i <= j < |names| ==> names[j] in dir.files
    {
      if names[i] == published || Generation(names[i]).None? {
        continue;
      }
      if Generation(names[i]).value < generation {
        var ok := dir.Remove(names[i], faults(i));
        if !ok { return if dir.halted then Stopped else Failed; }
      }
    }
    answer := Done(true);
  }

  lemma OlderKeepsView(a: Files, b: Files, generation: nat, published: string)
    requires OnlyOlderGone(a, b, generation, published)
    ensures At(b, published) == At(a, published) && At(b, CURRENT) == At(a, CURRENT)
  {
    TemporaryApart(CURRENT);
    hide Generation;
  }

  /** The faults of one publication, stage by stage. */
  datatype Stages = Stages(document: Faults, sync: Fault, pointer: Faults, removal: Faults)

  ghost predicate Faultless(s: Stages) {
    s.sync.Works? && forall k :: s.document(k).Works? && s.pointer(k).Works? && s.removal(k).Works?
  }

  /** Publishes a document. Whatever goes wrong, and wherever the process stops, either the current pointer has
      not moved and no other published file changed, or it names the complete new file. */
  method Persist(dir: Directory, bytes: string, generation: nat, process: nat, nonce: nat,
                 cancelledFirst: bool, cancelledThen: bool, list: Lister, faults: Stages)
    returns (answer: Answer, ghost moved: bool)
    requires !dir.halted && Enumerates(list)
    modifies dir
    ensures var name := CacheName(generation, process, nonce);
            && PublishedAs(old(dir.files), dir.files, name, bytes, moved)
            && (answer == Done(true) ==> moved)
            && (answer == Done(false) ==> dir.files == old(dir.files))
    ensures Faultless(faults) && !cancelledFirst && !cancelledThen && |bytes| <= MAX_CACHE_BYTES
            && TemporaryName(generation, process, nonce) !in old(dir.files)
                && PointerName(process, nonce) !in old(dir.files)
            ==> answer == Done(true)
  {
    moved := false;
    if |bytes| > MAX_CACHE_BYTES {
      return Failed, moved;
    }
    if cancelledFirst {
      return Done(false), moved;
    }
    var temporary := TemporaryName(generation, process, nonce);
    var published := CacheName(generation, process, nonce);
    var pointer := PointerName(process, nonce);
    NamesApart(generation, process, nonce);
    hide TemporaryName, CacheName, PointerName, Generation;
    answer := PublishDocument(dir, bytes, temporary, published, cancelledThen, faults.document);
    if answer != Done(true) { return; }
    assert SameView(old(dir.files), dir.files, published);
    var synced := dir.Sync(faults.sync);
    if !synced { return if dir.halted then Stopped else Failed, moved; }
    assert At(dir.files, pointer) == At(old(dir.files), pointer);
    answer, moved := PublishPointer(dir, published, pointer, faults.pointer);
    assert At(dir.files, published) == Some(bytes);
    assert !moved ==> SameView(old(dir.files), dir.files, published);
    if answer != Done(true) { return; }
    ghost var before := dir.files;
    answer := RemoveOlder(dir, generation, published, list, faults.removal);
    OlderKeepsView(before, dir.files, generation, published);
  }

  lemma NamesApart(generation: nat, process: nat, nonce: nat)
    ensures var (t, c, p) := (TemporaryName(generation, process, nonce), CacheName(generation, process, nonce),
        PointerName(process, nonce));
            && t != c && t != CURRENT && t != p && p != c && p != CURRENT && c != CURRENT
            && Generation(t).None? && Generation(p).None?
  {
    TemporaryNames(generation, process, nonce);
    CacheNameParts(generation, process, nonce);
    var t, c, p := TemporaryName(generation, process, nonce), CacheName(generation, process, nonce),
        PointerName(process, nonce);
    assert c[0] == 'c' && t[0] == '.' && p[0] == '.';
    assert |t| == 57 && |p| == 38;
  }

  /** Removes temporary files among the first entries listed. */
  method CleanUp(dir: Directory, list: Lister, faults: Faults) returns (ok: bool)
    requires !dir.halted && Enumerates(list)
    modifies dir
    ensures forall x :: At(dir.files, x) == At(old(dir.files), x) || (IsTemporary(x) && x !in dir.files)
    ensures ok ==> forall x :: x in FirstListed(list(old(dir.files.Keys))) && IsTemporary(x) ==> x !in dir.files
    ensures (forall k :: faults(k).Works?) ==> ok
  {
    hide IsTemporary;
    var names := FirstListed(list(dir.files.Keys));
    assert forall x :: x in names ==> x in list(dir.files.Keys);
    assert Distinct(list(dir.files.Keys));
    for i := 0 to |names|
      invariant !dir.halted
      invariant forall x :: At(dir.files, x) == At(old(dir.files), x) || (IsTemporary(x) && x !in dir.files)
      invariant forall j :: 0 <= j < i && IsTemporary(names[j]) ==> names[j] !in dir.files
      invariant forall j :: i <= j < |names| ==> names[j] in dir.files
    {
      if IsTemporary(names[i]) {
        var removed := dir.Remove(names[i], faults(i));
        if !removed { return false; }
      }
    }
    ok := true;
  }

  lemma CleanedView(a: Files, b: Files)
    requires forall x :: At(b, x) == At(a, x) || (IsTemporary(x) && x !in b)
    ensures SameView(a, b, CURRENT)
  {
    forall x | Generation(x).Some? || x == CURRENT ensures At(a, x) == At(b, x) {
      TemporaryApart(x);
      TemporaryApart(CURRENT);
    }
    hide Generation, IsTemporary;
  }

  /** Opening cleans up first and then follows the current pointer; clean-up does not change what it finds. */
  method OpenCache(dir: Directory, root: string, limit: nat, codec: Codec, list: Lister, faults: Faults)
    returns (index: Option<ConversationIndex>)
    requires !dir.halted && Enumerates(list) && limit > 0
    modifies dir
    ensures SameView(old(dir.files), dir.files, CURRENT)
    ensures index.Some? ==>
              index.value.State() == OpenIndex(old(dir.files), root, if limit < MAX_INDEX_ENTRIES then limit
                  else MAX_INDEX_ENTRIES, codec)
    ensures (forall k :: faults(k).Works?) ==> index.Some?
  {
    ghost var before := dir.files;
    var maxEntries := if limit < MAX_INDEX_ENTRIES then limit else MAX_INDEX_ENTRIES;
    var cleaned := CleanUp(dir, list, faults);
    CleanedView(before, dir.files);
    TemporaryApart(CURRENT);
    assert CURRENT in before && Contents(before[CURRENT]) == CURRENT ==> Target(before).None?;
    if !cleaned { return None; }
    CurrentOpens(before, dir.files, root, maxEntries, codec);
    var loaded := new ConversationIndex(OpenIndex(dir.files, root, maxEntries, codec));
    index := Some(loaded);
  }

  lemma CurrentOpens(a: Files, b: Files, root: string, maxEntries: nat, codec: Codec)
    requires SameView(a, b, CURRENT)
    ensures OpenIndex(b, root, maxEntries, codec) == OpenIndex(a, root, maxEntries, codec)
  {
    TemporaryApart(CURRENT);
    if CURRENT in a && Contents(a[CURRENT]) == CURRENT {
      assert At(a, CURRENT) == At(b, CURRENT);
    } else {
      SameViewOpens(a, b, CURRENT, root, maxEntries, codec);
    }
    hide Generation, FromDisk;
  }
}
