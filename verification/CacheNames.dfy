/** The names of cache files: fixed-width numbers in fixed places. */
module CacheNames {
  import opened Wrappers

  const U32: nat := 0x1_0000_0000
  const U64: nat := 0x1_0000_0000_0000_0000

  const CURRENT := "current"

  function DigitOf(d: nat): char
    requires d < 16
  {
    if d < 10 then ('0' as int + d) as char else ('a' as int + d - 10) as char
  }

  predicate IsDecimal(c: char) {
    '0' <= c <= '9'
  }

  predicate IsHex(c: char) {
    IsDecimal(c) || 'a' <= c <= 'f' || 'A' <= c <= 'F'
  }

  function DigitValue(c: char): nat
    requires IsHex(c)
  {
    if IsDecimal(c) then c as int - '0' as int
    else if c >= 'a' then c as int - 'a' as int + 10
    else c as int - 'A' as int + 10
  }

  function Power(base: nat, e: nat): nat {
    if e == 0 then 1 else base * Power(base, e - 1)
  }

  /** `n` in `width` digits. */
  function Digits(n: nat, base: nat, width: nat): (s: string)
    requires 2 <= base <= 16
    ensures |s| == width
    ensures forall i :: 0 <= i < width ==> IsHex(s[i]) && (base == 10 ==> IsDecimal(s[i]))
  {
    if width == 0 then "" else Digits(n / base, base, width - 1) + [DigitOf(n % base)]
  }

  function ValueOf(s: string, base: nat): nat
    requires forall i :: 0 <= i < |s| ==> IsHex(s[i])
  {
    if s == "" then 0 else ValueOf(s[..|s| - 1], base) * base + DigitValue(s[|s| - 1])
  }

  lemma {:induction false} DigitsValue(n: nat, base: nat, width: nat)
    requires 2 <= base <= 16 && n < Power(base, width)
    ensures ValueOf(Digits(n, base, width), base) == n
  {
    hide *;
    if width > 0 {
      QuotientFits(n, base, width);
      DigitsValue(n / base, base, width - 1);
      LastDigit(n, base, width);
    } else {
      NoDigits(n, base);
    }
  }

  lemma NoDigits(n: nat, base: nat)
    requires 2 <= base <= 16 && n < Power(base, 0)
    ensures ValueOf(Digits(n, base, 0), base) == n
  {
  }

  lemma QuotientFits(n: nat, base: nat, width: nat)
    requires base > 0 && width > 0 && n < Power(base, width)
    ensures n / base < Power(base, width - 1)
  {
    Quotient(n, base, Power(base, width - 1));
  }

  lemma LastDigit(n: nat, base: nat, width: nat)
    requires 2 <= base <= 16 && width > 0
    requires ValueOf(Digits(n / base, base, width - 1), base) == n / base
    ensures ValueOf(Digits(n, base, width), base) == n
  {
    DigitsStep(n, base, width);
    Division(n, base);
    hide *;
    ValueStep(Digits(n, base, width), base);
  }

  lemma DigitsStep(n: nat, base: nat, width: nat)
    requires 2 <= base <= 16 && width > 0
    ensures var s := Digits(n, base, width);
            s[..width - 1] == Digits(n / base, base, width - 1) && DigitValue(s[width - 1]) == n % base
  {
  }

  lemma ValueStep(s: string, base: nat)
    requires s != "" && forall i :: 0 <= i < |s| ==> IsHex(s[i])
    ensures ValueOf(s, base) == ValueOf(s[..|s| - 1], base) * base + DigitValue(s[|s| - 1])
  {
  }

  lemma Division(n: nat, base: nat)
    requires base > 0
    ensures n / base * base + n % base == n
  {
  }

  lemma Quotient(n: nat, base: nat, p: nat)
    requires base > 0 && n < base * p
    ensures n / base < p
  {
    if n / base >= p { Multiplied(p, n / base, base); }
  }

  lemma Multiplied(a: nat, b: nat, c: nat)
    requires a <= b
    ensures a * c <= b * c
  {
  }

  lemma Widths()
    ensures U64 <= Power(10, 20) && U32 == Power(16, 8) && U64 == Power(16, 16)
  {
    assert Power(10, 5) == 100_000;
    assert Power(10, 10) == 10_000_000_000;
    assert Power(10, 15) == 1_000_000_000_000_000;
    assert Power(10, 20) == 100_000_000_000_000_000_000;
    assert Power(16, 4) == 0x1_0000;
    assert Power(16, 8) == 0x1_0000_0000;
    assert Power(16, 12) == 0x1_0000_0000_0000;
  }

  /** Reading a number the way integers are parsed: an optional plus sign, digits, no overflow. */
  function ParseU64(s: string): Option<nat> {
    var digits := if s != "" && s[0] == '+' then s[1..] else s;
    if digits == "" || exists i :: 0 <= i < |digits| && !IsDecimal(digits[i]) then None
    else if ValueOf(digits, 10) < U64 then Some(ValueOf(digits, 10)) else None
  }

  function CacheName(generation: nat, process: nat, nonce: nat): string {
    "cache-" + Digits(generation, 10, 20) + "-" + Digits(process, 16, 8) + "-" + Digits(nonce, 16, 16) + ".json"
  }

  function TemporaryName(generation: nat, process: nat, nonce: nat): string {
    ".cache-" + Digits(generation, 10, 20) + "-" + Digits(process, 16, 8) + "-" + Digits(nonce, 16, 16) + ".tmp"
  }

  function PointerName(process: nat, nonce: nat): string {
    ".current-" + Digits(process, 16, 8) + "-" + Digits(nonce, 16, 16) + ".tmp"
  }

  predicate HexFrom(s: string, from: nat, to: nat)
    requires from <= to <= |s|
  {
    forall i :: from <= i < to ==> IsHex(s[i])
  }

  /** The generation a published cache file is named for. */
  function Generation(name: string): Option<nat> {
    if |name| != 57 || !("cache-" <= name) || name[52..] != ".json" || name[26] != '-' || name[35] != '-'
       || !HexFrom(name, 27, 35) || !HexFrom(name, 36, 52)
    then None
    else ParseU64(name[6..26])
  }

  predicate IsTemporaryCache(name: string) {
    && |name| == 57 && ".cache-" <= name && name[53..] == ".tmp" && name[27] == '-' && name[36] == '-'
    && (forall i :: 7 <= i < 27 ==> IsDecimal(name[i])) && HexFrom(name, 28, 36) && HexFrom(name, 37, 53)
  }

  predicate IsTemporaryPointer(name: string) {
    && |name| == 38 && ".current-" <= name && name[34..] == ".tmp" && name[17] == '-'
    && HexFrom(name, 9, 17) && HexFrom(name, 18, 34)
  }

  predicate IsTemporary(name: string) {
    IsTemporaryCache(name) || IsTemporaryPointer(name)
  }

  lemma CacheNameParts(generation: nat, process: nat, nonce: nat)
    ensures var s := CacheName(generation, process, nonce);
            && |s| == 57 && "cache-" <= s && s[6..26] == Digits(generation, 10, 20) && s[26] == '-'
            && s[27..35] == Digits(process, 16, 8) && s[35] == '-' && s[36..52] == Digits(nonce, 16, 16)
            && s[52..] == ".json"
  {
  }

  /** A published name gives its generation back. */
  lemma GenerationOf(generation: nat, process: nat, nonce: nat)
    requires generation < U64
    ensures Generation(CacheName(generation, process, nonce)) == Some(generation)
  {
    var s := CacheName(generation, process, nonce);
    var digits := Digits(generation, 10, 20);
    CacheNameParts(generation, process, nonce);
    Widths();
    DigitsValue(generation, 10, 20);
    assert IsDecimal(digits[0]);
    hide Digits, CacheName, Power, HexFrom, ValueOf;
  }

  /** Distinct numbers give distinct names. */
  lemma NamesDiffer(g: nat, p: nat, n: nat, g': nat, p': nat, n': nat)
    requires g < U64 && g' < U64 && n < U64 && n' < U64
    requires CacheName(g, p, n) == CacheName(g', p', n')
    ensures g == g' && n == n'
  {
    CacheNameParts(g, p, n);
    CacheNameParts(g', p', n');
    Widths();
    DigitsValue(g, 10, 20);
    DigitsValue(g', 10, 20);
    DigitsValue(n, 16, 16);
    DigitsValue(n', 16, 16);
    hide Digits, CacheName, Power;
  }

  /** Temporary files are recognised as such, and never mistaken for published ones or the current pointer. */
  lemma TemporaryNames(generation: nat, process: nat, nonce: nat)
    ensures var t := TemporaryName(generation, process, nonce);
            IsTemporary(t) && Generation(t) == None && t != CURRENT
    ensures var p := PointerName(process, nonce);
            IsTemporary(p) && Generation(p) == None && p != CURRENT
  {
    var t := TemporaryName(generation, process, nonce);
    assert t[7..27] == Digits(generation, 10, 20);
    forall i | 7 <= i < 27 ensures IsDecimal(t[i]) { assert t[i] == Digits(generation, 10, 20)[i - 7]; }
    assert t[0] == '.' && "cache-"[0] == 'c';
    var p := PointerName(process, nonce);
    hide Digits;
  }

  predicate HexText(s: string, width: nat) {
    |s| == width && forall i :: 0 <= i < |s| ==> IsHex(s[i])
  }

  /** A name as a published file has it, around the digits of its generation. */
  predicate Published(name: string, digits: string, process: string, nonce: string) {
    && name == "cache-" + digits + "-" + process + "-" + nonce + ".json"
    && |digits| == 20 && HexText(process, 8) && HexText(nonce, 16)
  }

  /** A name as a temporary cache file has it. */
  predicate WrittenAside(name: string, digits: string, process: string, nonce: string) {
    && name == ".cache-" + digits + "-" + process + "-" + nonce + ".tmp"
    && |digits| == 20 && (forall i :: 0 <= i < 20 ==> '0' <= digits[i] <= '9')
    && HexText(process, 8) && HexText(nonce, 16)
  }

  /** A name as a temporary pointer file has it. */
  predicate PointerAside(name: string, process: string, nonce: string) {
    name == ".current-" + process + "-" + nonce + ".tmp" && HexText(process, 8) && HexText(nonce, 16)
  }

  /** Exactly the names of that form have a generation, the number their digits stand for. */
  lemma GenerationMeaning(name: string, generation: nat)
    ensures Generation(name) == Some(generation)
            <==> exists d, p, n :: Published(name, d, p, n) && ParseU64(d) == Some(generation)
  {
    if Generation(name) == Some(generation) {
      assert name[..6] == "cache-";
      assert Published(name, name[6..26], name[27..35], name[36..52]);
    }
    if d, p, n :| Published(name, d, p, n) && ParseU64(d) == Some(generation) {
      assert name[6..26] == d && name[27..35] == p && name[36..52] == n;
      forall i | 27 <= i < 35 ensures IsHex(name[i]) { assert name[i] == p[i - 27]; }
      forall i | 36 <= i < 52 ensures IsHex(name[i]) { assert name[i] == n[i - 36]; }
    }
  }

  /** Exactly the names of those forms are temporary. */
  lemma TemporaryMeaning(name: string)
    ensures IsTemporary(name) <==>
            (exists d, p, n :: WrittenAside(name, d, p, n)) || (exists p, n :: PointerAside(name, p, n))
  {
    AsideIff(name);
    PointerIff(name);
    hide IsTemporaryCache, IsTemporaryPointer, WrittenAside, PointerAside;
  }

  lemma AsideIff(name: string)
    ensures IsTemporaryCache(name) <==> exists d, p, n :: WrittenAside(name, d, p, n)
  {
    if IsTemporaryCache(name) {
      assert name[..7] == ".cache-";
      assert WrittenAside(name, name[7..27], name[28..36], name[37..53]);
    }
    if d, p, n :| WrittenAside(name, d, p, n) {
      forall i | 7 <= i < 27 ensures IsDecimal(name[i]) { assert name[i] == d[i - 7]; }
      forall i | 28 <= i < 36 ensures IsHex(name[i]) { assert name[i] == p[i - 28]; }
      forall i | 37 <= i < 53 ensures IsHex(name[i]) { assert name[i] == n[i - 37]; }
    }
  }

  lemma PointerIff(name: string)
    ensures IsTemporaryPointer(name) <==> exists p, n :: PointerAside(name, p, n)
  {
    if IsTemporaryPointer(name) {
      assert name[..9] == ".current-";
      assert PointerAside(name, name[9..17], name[18..34]);
    }
    if p, n :| PointerAside(name, p, n) {
      forall i | 9 <= i < 17 ensures IsHex(name[i]) { assert name[i] == p[i - 9]; }
      forall i | 18 <= i < 34 ensures IsHex(name[i]) { assert name[i] == n[i - 18]; }
    }
  }

  /** No name is both temporary and published. */
  lemma TemporaryApart(name: string)
    ensures IsTemporary(name) ==> Generation(name) == None && name != CURRENT
    ensures Generation(CURRENT) == None
  {
    if IsTemporaryCache(name) { assert name[0] == ".cache-"[0]; }
    assert "cache-" <= name ==> name[0] == "cache-"[0];
  }
}
