/** Looking for a part of a text, and typing a query. */
module Texts {
  predicate OccursAt(text: string, part: string, i: nat) {
    i + |part| <= |text| && text[i..i + |part|] == part
  }

  predicate ContainsText(text: string, part: string) {
    exists i: nat | i <= |text| :: OccursAt(text, part, i)
  }

  // ---------------------------------------------------------------- typed queries

  const MAX_QUERY_BYTES: nat := 256

  /** The characters Unicode calls control characters. */
  predicate IsControl(c: char) {
    c as int < 0x20 || 0x7F <= c as int <= 0x9F
  }

  /** How many bytes UTF-8 takes for a character, and for a text. */
  function CharBytes(c: char): nat {
    if c as int < 0x80 then 1 else if c as int < 0x800 then 2 else if c as int < 0x1_0000 then 3 else 4
  }

  function TextBytes(s: string): nat {
    if s == "" then 0 else TextBytes(s[..|s| - 1]) + CharBytes(s[|s| - 1])
  }

  function Printable(s: string): string {
    if s == "" then "" else (if IsControl(s[0]) then "" else [s[0]]) + Printable(s[1..])
  }

  /** What typing adds to a query: its characters that are no controls, up to the first that does not fit. */
  function Fitting(used: nat, s: string): string
    decreases |s|
  {
    if s == "" || used + CharBytes(s[0]) > MAX_QUERY_BYTES then "" else [s[0]] + Fitting(used + CharBytes(s[0]), s[1..])
  }

  lemma JoinedAlike(a: string, b: string, c: string)
    ensures a + (b + c) == a + b + c
  {
  }

  lemma PrintableFirst(c: char, s: string)
    ensures Printable([c] + s) == (if IsControl(c) then "" else [c]) + Printable(s)
  {
    assert ([c] + s)[1..] == s;
  }

  lemma {:induction false} PrintableJoin(a: string, b: string)
    ensures Printable(a + b) == Printable(a) + Printable(b)
  {
    if a == "" {
      assert a + b == b && Printable(a) == "";
    } else {
      var c, rest := a[0], a[1..];
      hide *;
      assert a == [c] + rest;
      PrintableJoin(rest, b);
      PrintableFirst(c, rest);
      PrintableFirst(c, rest + b);
      JoinedAlike([c], rest, b);
      JoinedAlike(if IsControl(c) then "" else [c], Printable(rest), Printable(b));
    }
  }

  /** What is printable of a text: of a joined text that of its parts, of a single character itself if it is no
      control character. */
  lemma PrintableMeaning(a: string, b: string, c: char)
    ensures Printable(a + b) == Printable(a) + Printable(b)
    ensures Printable([c]) == if IsControl(c) then "" else [c]
  {
    PrintableJoin(a, b);
    assert Printable([c][1..]) == "";
  }

  lemma {:induction false} BytesJoin(a: string, b: string)
    ensures TextBytes(a + b) == TextBytes(a) + TextBytes(b)
  {
    if b == "" {
      assert a + b == a;
    } else {
      assert (a + b)[..|a + b| - 1] == a + b[..|b| - 1];
      BytesJoin(a, b[..|b| - 1]);
    }
  }

  lemma BytesFrom(c: char, rest: string, n: nat)
    requires n <= |rest|
    ensures TextBytes(([c] + rest)[..n + 1]) == CharBytes(c) + TextBytes(rest[..n])
  {
    assert ([c] + rest)[..n + 1] == [c] + rest[..n] && [c][..0] == "";
    BytesJoin([c], rest[..n]);
  }

  /** The first characters fit behind what is used, and no more of them would. */
  predicate JustFit(used: nat, s: string, n: nat) {
    && n <= |s| && used + TextBytes(s[..n]) <= MAX_QUERY_BYTES
    && (n < |s| ==> used + TextBytes(s[..n + 1]) > MAX_QUERY_BYTES)
  }

  lemma JustFitMore(used: nat, c: char, rest: string, n: nat)
    requires JustFit(used + CharBytes(c), rest, n)
    ensures JustFit(used, [c] + rest, n + 1)
  {
    BytesFrom(c, rest, n);
    if n < |rest| { BytesFrom(c, rest, n + 1); }
    hide TextBytes, CharBytes;
  }

  lemma {:induction false} FittingFirst(used: nat, s: string)
    requires used <= MAX_QUERY_BYTES
    ensures Fitting(used, s) <= s && JustFit(used, s, |Fitting(used, s)|)
    decreases |s|
  {
    if s != "" && used + CharBytes(s[0]) <= MAX_QUERY_BYTES {
      FittingFirst(used + CharBytes(s[0]), s[1..]);
      JustFitMore(used, s[0], s[1..], |Fitting(used + CharBytes(s[0]), s[1..])|);
      hide JustFit, CharBytes;
      assert s == [s[0]] + s[1..];
    } else if s != "" {
      assert s[..1][..0] == "";
    }
  }

  /** The longest beginning that fits. */
  lemma FittingMeaning(used: nat, s: string)
    requires used <= MAX_QUERY_BYTES
    ensures var r := Fitting(used, s);
            && r <= s && used + TextBytes(r) <= MAX_QUERY_BYTES
            && (r != s ==> used + TextBytes(s[..|r| + 1]) > MAX_QUERY_BYTES)
  {
    FittingFirst(used, s);
    hide Fitting, TextBytes;
    assert s[..|Fitting(used, s)|] == Fitting(used, s);
  }

  /** A query within its bytes stays within them, whatever is typed. */
  lemma QueryFits(query: string, value: string)
    requires TextBytes(query) <= MAX_QUERY_BYTES
    ensures TextBytes(query + Fitting(TextBytes(query), Printable(value))) <= MAX_QUERY_BYTES
  {
    FittingMeaning(TextBytes(query), Printable(value));
    BytesJoin(query, Fitting(TextBytes(query), Printable(value)));
  }
}
