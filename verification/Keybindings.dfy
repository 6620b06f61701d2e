/** Configured key bindings and the loop that reverts conflicting ones to their defaults. */
module Keybindings {
  import opened Wrappers

  datatype Action =
    | Quit | NextView | PreviousView | FilesView | ConversationsView | SelectPrevious | SelectNext | SelectFirst
    | SelectLast | Expand | Collapse | Toggle | Refresh | ToggleFilesFocus | Search | ToggleIgnoredFiles

  /** All actions, in binding order. */
  const ALL: seq<Action> :=
    [Quit, NextView, PreviousView, FilesView, ConversationsView, SelectPrevious, SelectNext, SelectFirst,
     SelectLast, Expand, Collapse, Toggle, Refresh, ToggleFilesFocus, Search, ToggleIgnoredFiles]

  datatype Code = Esc | Tab | BackTab | Up | Down | Left | Right | Home | End | Enter | Char(c: char)

  datatype Modifiers = Modifiers(control: bool, alt: bool, shift: bool)

  const PLAIN := Modifiers(false, false, false)

  /** A key press; two chords are the same whatever their labels say. */
  datatype Chord = Chord(code: Code, modifiers: Modifiers)

  datatype KeyChord = KeyChord(chord: Chord, shown: string)

  type Bindings = map<Action, seq<KeyChord>>

  function Key(code: Code, shown: string): KeyChord {
    KeyChord(Chord(code, PLAIN), shown)
  }

  function DefaultsOf(a: Action): (r: seq<KeyChord>)
    ensures r != []
  {
    match a
    case Quit => [Key(Char('q'), "q"), Key(Esc, "esc"), KeyChord(Chord(Char('c'), PLAIN.(control := true)), "ctrl+c")]
    case NextView => [Key(Tab, "tab")]
    case PreviousView => [KeyChord(Chord(BackTab, PLAIN.(shift := true)), "backtab")]
    case FilesView => [Key(Char('1'), "1")]
    case ConversationsView => [Key(Char('2'), "2")]
    case SelectPrevious => [Key(Up, "up"), Key(Char('k'), "k")]
    case SelectNext => [Key(Down, "down"), Key(Char('j'), "j")]
    case SelectFirst => [Key(Home, "home")]
    case SelectLast => [Key(End, "end")]
    case Expand => [Key(Right, "right"), Key(Char('l'), "l")]
    case Collapse => [Key(Left, "left"), Key(Char('h'), "h")]
    case Toggle => [Key(Enter, "enter"), Key(Char(' '), "space")]
    case Refresh => [Key(Char('r'), "r")]
    case ToggleFilesFocus => [Key(Char('w'), "w")]
    case Search => [Key(Char('/'), "/")]
    case ToggleIgnoredFiles => [Key(Char('i'), "i")]
  }

  predicate HasChord(ks: seq<KeyChord>, c: Chord) {
    exists k :: k in ks && k.chord == c
  }

  predicate DistinctChords(ks: seq<KeyChord>) {
    forall i, j :: 0 <= i < j < |ks| ==> ks[i].chord != ks[j].chord
  }

  /** The action a default chord belongs to. */
  function DefaultOwner(c: Chord): Action {
    match c.code
    case Esc => Quit
    case Tab => NextView
    case BackTab => PreviousView
    case Up => SelectPrevious
    case Down => SelectNext
    case Left => Collapse
    case Right => Expand
    case Home => SelectFirst
    case End => SelectLast
    case Enter => Toggle
    case Char(x) =>
      if x == '1' then FilesView else if x == '2' then ConversationsView else if x == 'k' then SelectPrevious
      else if x == 'j' then SelectNext else if x == 'l' then Expand else if x == 'h' then Collapse
      else if x == ' ' then Toggle else if x == 'r' then Refresh else if x == 'w' then ToggleFilesFocus
      else if x == '/' then Search else if x == 'i' then ToggleIgnoredFiles else Quit
  }

  lemma DefaultAt(a: Action, i: nat)
    requires i < |DefaultsOf(a)|
    ensures DefaultOwner(DefaultsOf(a)[i].chord) == a
  {
  }

  lemma DefaultsDistinct(a: Action)
    ensures DistinctChords(DefaultsOf(a))
  {
  }

  /** No two actions share a default chord. */
  lemma DefaultsApart(a: Action, c: Chord)
    requires HasChord(DefaultsOf(a), c)
    ensures DefaultOwner(c) == a
  {
    var k :| k in DefaultsOf(a) && k.chord == c;
    var i :| 0 <= i < |DefaultsOf(a)| && DefaultsOf(a)[i] == k;
    DefaultAt(a, i);
    hide DefaultsOf, DefaultOwner;
  }

  // ---------------------------------------------------------------- reading a table

  const MAX_KEY_CHORDS_PER_ACTION: nat := 16

  /** A configured value: an array whose items are chords or not, or anything else. */
  datatype Value = NotAnArray | Items(items: seq<Option<KeyChord>>)

  type Table = map<Action, Value>

  /** The distinct chords of items that all parse. */
  function Chords(items: seq<Option<KeyChord>>): Option<seq<KeyChord>> {
    if items == [] then Some([])
    else
      var n := |items| - 1;
      var before := Chords(items[..n]);
      if before.None? || items[n].None? then None
      else if HasChord(before.value, items[n].value.chord) then before
      else Some(before.value + [items[n].value])
  }

  function ReadValue(v: Value): Option<seq<KeyChord>> {
    if v.Items? && 1 <= |v.items| <= MAX_KEY_CHORDS_PER_ACTION then Chords(v.items) else None
  }

  lemma {:induction false} ChordsMeaning(items: seq<Option<KeyChord>>)
    ensures Chords(items).Some? <==> forall i :: 0 <= i < |items| ==> items[i].Some?
    ensures Chords(items).Some? ==> DistinctChords(Chords(items).value)
    ensures Chords(items).Some? ==>
              forall c :: HasChord(Chords(items).value, c)
                          <==> exists i :: 0 <= i < |items| && items[i].value.chord == c
  {
    if items != [] {
      var n := |items| - 1;
      ChordsMeaning(items[..n]);
      if Chords(items).Some? {
        var before := Chords(items[..n]).value;
        forall c ensures HasChord(Chords(items).value, c)
            <==> exists i :: 0 <= i < |items| && items[i].value.chord == c {
          if HasChord(before, c) {
            var i :| 0 <= i < n && items[..n][i].value.chord == c;
            assert items[i].value.chord == c;
          }
          if i :| 0 <= i < |items| && items[i].value.chord == c {
            if i < n { assert items[..n][i].value.chord == c; }
          }
          assert HasChord(Chords(items).value, c) <==> HasChord(before, c) || items[n].value.chord == c by {
            assert items[n].value in before + [items[n].value];
          }
        }
      }
    }
  }

  /** The valid configured chords of an action. */
  function Chosen(table: Table, a: Action): Option<seq<KeyChord>> {
    if a in table then ReadValue(table[a]) else None
  }

  /** An action is configured exactly by an array of one to sixteen chords, and then it has those. */
  lemma ChosenMeaning(table: Table, a: Action)
    ensures Chosen(table, a).Some? <==>
            && a in table && table[a].Items? && 1 <= |table[a].items| <= 16
            && forall i :: 0 <= i < |table[a].items| ==> table[a].items[i].Some?
    ensures Chosen(table, a).Some? ==>
              && DistinctChords(Chosen(table, a).value)
              && forall c :: HasChord(Chosen(table, a).value, c)
                             <==> exists i :: 0 <= i < |table[a].items| && table[a].items[i].value.chord == c
  {
    if a in table && table[a].Items? { ChordsMeaning(table[a].items); }
    hide Chords, HasChord, DistinctChords;
  }

  /** Every action with its configured chords where they are valid, else with its defaults. */
  function Start(table: Table): Bindings {
    map a: Action | true :: if Chosen(table, a).Some? then Chosen(table, a).value else DefaultsOf(a)
  }

  function Configured(table: Table): set<Action> {
    set a | a in table && Chosen(table, a).Some?
  }

  // ---------------------------------------------------------------- conflicts

  /** Some other action has a chord of this one. */
  predicate Clashes(b: Bindings, a: Action) {
    a in b && exists other, k :: other in b && other != a && k in b[a] && HasChord(b[other], k.chord)
  }

  function Conflicts(b: Bindings, configured: set<Action>): set<Action> {
    set a | a in configured && Clashes(b, a)
  }

  /** One round: all conflicting configured actions go back to their defaults. */
  function Reverted(b: Bindings, actions: set<Action>): Bindings {
    map a | a in b :: if a in actions then DefaultsOf(a) else b[a]
  }

  /** Rounds until no configured action conflicts. */
  function Settled(b: Bindings, configured: set<Action>): (Bindings, set<Action>)
    decreases |configured|
  {
    var conflicts := Conflicts(b, configured);
    if conflicts == {} then (b, configured)
    else
      Settled(Reverted(b, conflicts), configured - conflicts)
  }

  /** The action is bound to distinct chords, its configured ones or its defaults. */
  predicate ActionOk(b: Bindings, configured: set<Action>, table: Table, a: Action) {
    && a in b && b[a] != [] && DistinctChords(b[a])
    && (a !in configured ==> b[a] == DefaultsOf(a))
    && (a in configured ==> Chosen(table, a) == Some(b[a]))
  }

  ghost predicate BindingsOk(b: Bindings, configured: set<Action>, table: Table) {
    forall a: Action :: ActionOk(b, configured, table, a)
  }

  lemma RevertKeepsOk(b: Bindings, configured: set<Action>, table: Table)
    requires BindingsOk(b, configured, table)
    ensures BindingsOk(Reverted(b, Conflicts(b, configured)), configured - Conflicts(b, configured), table)
  {
    var conflicts := Conflicts(b, configured);
    hide Conflicts, ActionOk;
    forall a: Action ensures ActionOk(Reverted(b, conflicts), configured - conflicts, table, a) {
      assert ActionOk(b, configured, table, a);
      RevertOne(b, configured, conflicts, table, a);
    }
  }

  lemma RevertOne(b: Bindings, configured: set<Action>, conflicts: set<Action>, table: Table, a: Action)
    requires ActionOk(b, configured, table, a)
    ensures ActionOk(Reverted(b, conflicts), configured - conflicts, table, a)
  {
    DefaultsDistinct(a);
    hide DefaultsOf, Chosen, DistinctChords;
  }

  lemma StartOk(table: Table)
    ensures BindingsOk(Start(table), Configured(table), table)
  {
    forall a: Action ensures ActionOk(Start(table), Configured(table), table, a) {
      DefaultsDistinct(a);
      if Chosen(table, a).Some? { ReadMeaning(table[a]); }
      hide DefaultsOf, ReadValue, DistinctChords;
    }
  }

  lemma ReadMeaning(v: Value)
    requires ReadValue(v).Some?
    ensures ReadValue(v).value != [] && DistinctChords(ReadValue(v).value)
  {
    ChordsMeaning(v.items);
    assert HasChord(ReadValue(v).value, v.items[0].value.chord);
  }

  /** No chord belongs to two actions. */
  ghost predicate NoShared(b: Bindings) {
    forall a, other, c :: a in b && other in b && HasChord(b[a], c) && HasChord(b[other], c) ==> a == other
  }

  lemma NoConflictNoShare(b: Bindings, configured: set<Action>, table: Table)
    requires BindingsOk(b, configured, table) && Conflicts(b, configured) == {}
    ensures NoShared(b)
  {
    forall a, other, c | a in b && other in b && HasChord(b[a], c) && HasChord(b[other], c) ensures a == other {
      if a != other {
        assert ActionOk(b, configured, table, a) && ActionOk(b, configured, table, other);
        NotBoth(b, configured, a, other, c);
        NotBoth(b, configured, other, a, c);
        DefaultsApart(a, c);
        DefaultsApart(other, c);
      }
    }
  }

  lemma NotBoth(b: Bindings, configured: set<Action>, a: Action, other: Action, c: Chord)
    requires Conflicts(b, configured) == {} && a in b && other in b && a != other
    requires HasChord(b[a], c) && HasChord(b[other], c)
    ensures a !in configured
  {
    var k :| k in b[a] && k.chord == c;
    assert Clashes(b, a);
    assert a in configured ==> a in Conflicts(b, configured);
  }

  /** The conflict loop ends with no shared chord, every action on its configured chords or its defaults. */
  lemma {:induction false} SettledMeaning(b: Bindings, configured: set<Action>, table: Table)
    requires BindingsOk(b, configured, table)
    ensures var (r, left) := Settled(b, configured);
            NoShared(r) && left <= configured && BindingsOk(r, left, table)
    decreases |configured|
  {
    var conflicts := Conflicts(b, configured);
    if conflicts == {} {
      NoConflictNoShare(b, configured, table);
    } else {
      RevertKeepsOk(b, configured, table);
      SettledMeaning(Reverted(b, conflicts), configured - conflicts, table);
    }
  }

  /** The bindings after some rounds. */
  function Rounds(b: Bindings, configured: set<Action>, n: nat): (Bindings, set<Action>) {
    if n == 0 then (b, configured)
    else
      var conflicts := Conflicts(b, configured);
      Rounds(Reverted(b, conflicts), configured - conflicts, n - 1)
  }

  /** Still configured after some rounds, the action shares a chord there. */
  predicate LostIn(b: Bindings, configured: set<Action>, a: Action, n: nat) {
    a in Rounds(b, configured, n).1 && Clashes(Rounds(b, configured, n).0, a)
  }

  lemma LostNext(b: Bindings, configured: set<Action>, a: Action, n: nat)
    ensures var conflicts := Conflicts(b, configured);
            LostIn(b, configured, a, n + 1) <==> LostIn(Reverted(b, conflicts), configured - conflicts, a, n)
  {
    hide Clashes, Conflicts, Reverted;
  }

  lemma LostNow(b: Bindings, configured: set<Action>, a: Action)
    ensures LostIn(b, configured, a, 0) <==> a in Conflicts(b, configured)
  {
    hide Clashes;
  }

  /** An action loses its configured chords exactly if in some round one of them was shared. */
  lemma {:induction false} RevertedIff(b: Bindings, configured: set<Action>, a: Action)
    requires a in configured
    ensures a !in Settled(b, configured).1 <==> exists n: nat :: LostIn(b, configured, a, n)
    decreases |configured|
  {
    var conflicts := Conflicts(b, configured);
    LostNow(b, configured, a);
    if conflicts == {} {
      QuietRounds(b, configured);
      hide Rounds, Conflicts, Clashes;
    } else {
      var next, left := Reverted(b, conflicts), configured - conflicts;
      SettledFewer(next, left);
      if a in left {
        RevertedIff(next, left, a);
        hide LostIn, Reverted, Conflicts;
        if n: nat :| LostIn(next, left, a, n) { LostNext(b, configured, a, n); }
        if n: nat :| LostIn(b, configured, a, n) {
          assert n > 0;
          LostNext(b, configured, a, n - 1);
        }
      }
    }
  }

  lemma {:induction false} SettledFewer(b: Bindings, configured: set<Action>)
    ensures Settled(b, configured).1 <= configured
    decreases |configured|
  {
    var conflicts := Conflicts(b, configured);
    if conflicts != {} {
      SettledFewer(Reverted(b, conflicts), configured - conflicts);
    }
  }

  lemma QuietRounds(b: Bindings, configured: set<Action>)
    requires Conflicts(b, configured) == {}
    ensures forall n: nat, a :: a in Rounds(b, configured, n).1 ==> !Clashes(Rounds(b, configured, n).0, a)
  {
    forall n: nat, a | a in Rounds(b, configured, n).1 ensures !Clashes(Rounds(b, configured, n).0, a) {
      QuietRound(b, configured, n);
      assert Clashes(b, a) ==> a in Conflicts(b, configured);
    }
  }

  lemma {:induction false} QuietRound(b: Bindings, configured: set<Action>, n: nat)
    requires Conflicts(b, configured) == {}
    ensures Rounds(b, configured, n) == (b, configured)
  {
    if n > 0 {
      assert Reverted(b, {}) == b && configured - {} == configured;
      QuietRound(b, configured, n - 1);
    }
  }

  // ---------------------------------------------------------------- the loops

  /** Which actions own each chord, in binding order. */
  type Owners = map<Chord, seq<Action>>

  function OwnersAt(owners: Owners, c: Chord): seq<Action> {
    if c in owners then owners[c] else []
  }

  /** The actions among `done` that have a chord. */
  function OwnerList(b: Bindings, done: seq<Action>, c: Chord): seq<Action>
    requires forall a :: a in done ==> a in b
  {
    if done == [] then []
    else OwnerList(b, done[..|done| - 1], c) + (if HasChord(b[done[|done| - 1]], c) then [done[|done| - 1]] else [])
  }

  lemma {:induction false} OwnerIs(b: Bindings, done: seq<Action>, c: Chord, a: Action)
    requires forall a :: a in done ==> a in b
    ensures a in OwnerList(b, done, c) <==> a in done && HasChord(b[a], c)
  {
    hide HasChord;
    if done != [] {
      OwnerIs(b, done[..|done| - 1], c, a);
      assert done == done[..|done| - 1] + [done[|done| - 1]];
    }
  }

  lemma {:induction false} OwnersDiffer(b: Bindings, done: seq<Action>, c: Chord)
    requires (forall a :: a in done ==> a in b) && forall i, j :: 0 <= i < j < |done| ==> done[i] != done[j]
    ensures var s := OwnerList(b, done, c); forall i, j :: 0 <= i < j < |s| ==> s[i] != s[j]
  {
    hide HasChord;
    if done != [] {
      var n := |done| - 1;
      OwnersDiffer(b, done[..n], c);
      OwnerIs(b, done[..n], c, done[n]);
      assert done[n] !in done[..n];
    }
  }

  function Position(a: Action): nat {
    match a
    case Quit => 0 case NextView => 1 case PreviousView => 2 case FilesView => 3 case ConversationsView => 4
    case SelectPrevious => 5 case SelectNext => 6 case SelectFirst => 7 case SelectLast => 8 case Expand => 9
    case Collapse => 10 case Toggle => 11 case Refresh => 12 case ToggleFilesFocus => 13 case Search => 14
    case ToggleIgnoredFiles => 15
  }

  lemma ActionListed(a: Action)
    ensures Position(a) < |ALL| && ALL[Position(a)] == a && a in ALL
  {
  }

  lemma ActionsDiffer()
    ensures forall i, j :: 0 <= i < j < |ALL| ==> ALL[i] != ALL[j]
  {
  }

  /** What the owners of all chords say about conflicts. */
  lemma OwnersShow(b: Bindings, c: Chord, a: Action)
    requires forall a: Action :: a in b
    ensures |OwnerList(b, ALL, c)| > 1 && a in OwnerList(b, ALL, c) <==>
              HasChord(b[a], c) && exists other :: other in b && other != a && HasChord(b[other], c)
  {
    var s := OwnerList(b, ALL, c);
    OwnerIs(b, ALL, c, a);
    ActionListed(a);
    ActionsDiffer();
    OwnersDiffer(b, ALL, c);
    hide HasChord, OwnerList;
    if |s| > 1 && a in s {
      var other := if s[0] == a then s[1] else s[0];
      assert other in s;
      OwnerIs(b, ALL, c, other);
    }
    if other :| HasChord(b[a], c) && other in b && other != a && HasChord(b[other], c) {
      OwnerIs(b, ALL, c, other);
      ActionListed(other);
    }
  }

  lemma ConflictsFrom(b: Bindings, configured: set<Action>, owners: Owners)
    requires (forall a: Action :: a in b) && forall c :: OwnersAt(owners, c) == OwnerList(b, ALL, c)
    ensures (set c, a | c in owners && |owners[c]| > 1 && a in owners[c] && a in configured :: a)
        == Conflicts(b, configured)
  {
    var shown := set c, a | c in owners && |owners[c]| > 1 && a in owners[c] && a in configured :: a;
    hide HasChord, OwnerList;
    forall a | a in shown ensures a in Conflicts(b, configured) {
      var c :| c in owners && |owners[c]| > 1 && a in owners[c];
      assert OwnersAt(owners, c) == OwnerList(b, ALL, c);
      OwnersShow(b, c, a);
    }
    forall a | a in Conflicts(b, configured) ensures a in shown {
      var other, k :| other in b && other != a && k in b[a] && HasChord(b[other], k.chord);
      OwnersShow(b, k.chord, a);
      assert OwnersAt(owners, k.chord) == OwnerList(b, ALL, k.chord);
    }
  }

  /** Adds one action to the owners of its chords. */
  method OwnChords(b: Bindings, ghost done: seq<Action>, action: Action, before: Owners) returns (owners: Owners)
    requires (forall a: Action :: a in b) && DistinctChords(b[action])
    requires forall c :: OwnersAt(before, c) == OwnerList(b, done, c)
    ensures forall c :: OwnersAt(owners, c) == OwnerList(b, done + [action], c)
  {
    owners := before;
    var chords := b[action];
    assert forall c :: !HasChord(chords[..0], c);
    hide OwnerList, HasChord, DistinctChords;
    for j := 0 to |chords|
      invariant forall c ::
                  OwnersAt(owners, c)
                  == OwnerList(b, done, c) + (if HasChord(chords[..j], c) then [action] else [])
    {
      var chord := chords[j].chord;
      forall c ensures HasChord(chords[..j + 1], c)
          <==> HasChord(chords[..j], c) || c == chord { }
      owners := owners[chord := (if chord in owners then owners[chord] else []) + [action]];
    }
    assert chords[..|chords|] == chords;
  }

  method FindConflicts(b: Bindings, configured: set<Action>) returns (conflicts: set<Action>)
    requires forall a: Action :: a in b && DistinctChords(b[a])
    ensures conflicts == Conflicts(b, configured)
  {
    var owners: Owners := map[];
    assert forall c :: OwnerList(b, ALL[..0], c) == [];
    hide OwnerList, DistinctChords, Conflicts;
    for i := 0 to |ALL|
      invariant forall c :: OwnersAt(owners, c) == OwnerList(b, ALL[..i], c)
    {
      assert ALL[..i + 1] == ALL[..i] + [ALL[i]];
      owners := OwnChords(b, ALL[..i], ALL[i], owners);
    }
    assert ALL[..|ALL|] == ALL;
    ConflictsFrom(b, configured, owners);
    conflicts := set c, a | c in owners && |owners[c]| > 1 && a in owners[c] && a in configured :: a;
  }

  /** The bindings once some actions were looked up in the table. */
  function StartUpTo(table: Table, done: seq<Action>): Bindings {
    map a: Action | true :: if a in done && Chosen(table, a).Some? then Chosen(table, a).value else DefaultsOf(a)
  }

  lemma StartStep(table: Table, done: seq<Action>, a: Action)
    ensures StartUpTo(table, done + [a])
            == if Chosen(table, a).Some? then StartUpTo(table, done)[a := Chosen(table, a).value]
                else StartUpTo(table, done)
  {
    hide DefaultsOf, Chosen;
  }

  lemma StartEnds(table: Table)
    ensures StartUpTo(table, []) == map a: Action | true :: DefaultsOf(a)
    ensures StartUpTo(table, ALL) == Start(table)
    ensures forall a: Action :: a in ALL
  {
    hide DefaultsOf, Chosen;
    forall a: Action ensures a in ALL { ActionListed(a); }
  }

  /** The actions of the table with, or without, valid chords. */
  function Sorted(table: Table, done: seq<Action>, valid: bool): set<Action> {
    set a | a in done && a in table && Chosen(table, a).Some? == valid
  }

  lemma SortedStep(table: Table, done: seq<Action>, a: Action, valid: bool)
    ensures Sorted(table, done + [a], valid)
            == Sorted(table, done, valid) + (if a in table && Chosen(table, a).Some? == valid then {a} else {})
  {
    hide Chosen;
  }

  method ReadAction(table: Table, ghost done: seq<Action>, action: Action, b0: Bindings, configured0: set<Action>,
      invalid0: set<Action>)
    returns (b: Bindings, configured: set<Action>, invalid: set<Action>)
    requires b0 == StartUpTo(table, done) && configured0 == Sorted(table, done, true)
        && invalid0 == Sorted(table, done, false)
    ensures b == StartUpTo(table, done + [action])
    ensures configured == Sorted(table, done + [action], true) && invalid == Sorted(table, done + [action], false)
  {
    StartStep(table, done, action);
    SortedStep(table, done, action, true);
    SortedStep(table, done, action, false);
    hide ReadValue, StartUpTo, Sorted;
    b, configured, invalid := b0, configured0, invalid0;
    if action !in table {
      return;
    }
    var parsed := ReadValue(table[action]);
    if parsed.Some? {
      b, configured := b[action := parsed.value], configured + {action};
    } else {
      invalid := invalid + {action};
    }
  }

  method ReadTable(table: Table) returns (b: Bindings, configured: set<Action>, invalid: set<Action>)
    ensures b == Start(table) && configured == Configured(table)
    ensures invalid == table.Keys - configured
  {
    b, configured, invalid := map a: Action | true :: DefaultsOf(a), {}, {};
    StartEnds(table);
    var order := ALL;
    assert forall a: Action :: a in order;
    assert order[..0] == [] && Sorted(table, [], true) == Sorted(table, [], false) == {};
    hide *;
    for i := 0 to |order|
      invariant b == StartUpTo(table, order[..i])
      invariant configured == Sorted(table, order[..i], true) && invalid == Sorted(table, order[..i], false)
    {
      assert order[..i + 1] == order[..i] + [order[i]];
      b, configured, invalid := ReadAction(table, order[..i], order[i], b, configured, invalid);
    }
    assert order[..|order|] == order;
    AllSorted(table, order);
  }

  lemma AllSorted(table: Table, order: seq<Action>)
    requires forall a: Action :: a in order
    ensures Sorted(table, order, true) == Configured(table)
    ensures Sorted(table, order, false) == table.Keys - Configured(table)
  {
    hide Chosen;
  }

  lemma SettledStep(b: Bindings, configured: set<Action>, table: Table)
    requires BindingsOk(b, configured, table)
    ensures var conflicts := Conflicts(b, configured);
            && conflicts <= configured
            && (conflicts == {} ==> Settled(b, configured) == (b, configured))
            && (conflicts != {} ==>
                  && |configured - conflicts| < |configured|
                  && Settled(b, configured) == Settled(Reverted(b, conflicts), configured - conflicts)
                  && BindingsOk(Reverted(b, conflicts), configured - conflicts, table))
  {
    var conflicts := Conflicts(b, configured);
    if conflicts != {} { }
    RevertKeepsOk(b, configured, table);
    hide BindingsOk, Reverted;
  }

  /** The conflict loop. */
  method Settle(first: Bindings, firstConfigured: set<Action>, firstReported: set<Action>, ghost table: Table)
    returns (b: Bindings, reported: set<Action>)
    requires BindingsOk(first, firstConfigured, table)
    requires firstReported == table.Keys - firstConfigured && firstConfigured <= table.Keys
    ensures b == Settled(first, firstConfigured).0
    ensures reported == table.Keys - Settled(first, firstConfigured).1
  {
    hide *;
    var configured;
    b, configured, reported := first, firstConfigured, firstReported;
    while true
      invariant BindingsOk(b, configured, table) && configured <= table.Keys
      invariant Settled(b, configured) == Settled(first, firstConfigured)
      invariant reported == table.Keys - configured
      decreases |configured|
    {
      SettledStep(b, configured, table);
      BindingsShape(b, configured, table);
      var conflicts := FindConflicts(b, configured);
      if conflicts == {} {
        break;
      }
      b, configured, reported := Reverted(b, conflicts), configured - conflicts, reported + conflicts;
    }
  }

  /** The configured bindings with conflicts reverted; every action that did not get its configured
      chords is reported. */
  method ParseKeybindings(table: Table) returns (b: Bindings, reported: set<Action>)
    ensures b == Settled(Start(table), Configured(table)).0
    ensures reported == table.Keys - Settled(Start(table), Configured(table)).1
    ensures NoShared(b) && forall a: Action :: a in b && b[a] != []
  {
    assert Configured(table) <= table.Keys;
    hide *;
    var configured;
    b, configured, reported := ReadTable(table);
    StartOk(table);
    SettledMeaning(b, configured, table);
    b, reported := Settle(b, configured, reported, table);
    BindingsShape(b, Settled(Start(table), Configured(table)).1, table);
  }

  lemma BindingsShape(b: Bindings, configured: set<Action>, table: Table)
    requires BindingsOk(b, configured, table)
    ensures forall a: Action :: a in b && b[a] != [] && DistinctChords(b[a])
  {
    forall a: Action ensures a in b && b[a] != [] && DistinctChords(b[a]) {
      assert ActionOk(b, configured, table, a);
    }
  }

  // ---------------------------------------------------------------- using the bindings

  function FirstWith(b: Bindings, actions: seq<Action>, c: Chord): Option<Action>
    requires forall a :: a in actions ==> a in b
  {
    if actions == [] then None else if HasChord(b[actions[0]], c) then Some(actions[0])
        else FirstWith(b, actions[1..], c)
  }

  function MapKey(b: Bindings, c: Chord): Option<Action>
    requires forall a: Action :: a in b
  {
    FirstWith(b, ALL, c)
  }

  lemma {:induction false} FirstMeaning(b: Bindings, actions: seq<Action>, c: Chord)
    requires forall a :: a in actions ==> a in b
    ensures FirstWith(b, actions, c).Some? ==>
              FirstWith(b, actions, c).value in actions && HasChord(b[FirstWith(b, actions, c).value], c)
    ensures FirstWith(b, actions, c).None? ==> forall a :: a in actions ==> !HasChord(b[a], c)
  {
    hide HasChord;
    if actions != [] {
      FirstMeaning(b, actions[1..], c);
      assert actions == [actions[0]] + actions[1..];
    }
  }

  /** With no shared chord a key maps to an action exactly if the action has it: binding order is moot. */
  lemma MapKeyMeaning(b: Bindings, c: Chord, a: Action)
    requires (forall a: Action :: a in b) && NoShared(b)
    ensures MapKey(b, c) == Some(a) <==> HasChord(b[a], c)
  {
    FirstMeaning(b, ALL, c);
    ActionListed(a);
    hide HasChord, FirstWith;
  }
}
