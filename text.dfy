/**
 * Text helpers shared by the rest of the model: ASCII lower-casing,
 * substring search, decimal rendering and parsing of integers, and the
 * lexicographic order Rust's String comparison uses.
 */
module Text {
  import opened Wrappers

  /** Rust's u16, used for local port numbers. */
  type u16 = x: int | 0 <= x < 0x1_0000

  function LowerChar(c: char): char {
    if 'A' <= c <= 'Z' then (c as int + 32) as char else c
  }

  /** str::to_lowercase restricted to ASCII letters. */
  function Lower(s: string): (r: string)
    ensures |r| == |s|
  {
    seq(|s|, i requires 0 <= i < |s| => LowerChar(s[i]))
  }

  /** Does `needle` occur in `hay` at position i? */
  predicate OccursAt(hay: string, needle: string, i: int) {
    0 <= i && i + |needle| <= |hay| && hay[i..i + |needle|] == needle
  }

  /** An occurrence one place further in `hay` is an occurrence in its tail. */
  lemma OccursAtShift(hay: string, needle: string, i: int)
    requires hay != [] && 0 <= i
    ensures OccursAt(hay, needle, i + 1) <==> OccursAt(hay[1..], needle, i)
  {
    if i + |needle| <= |hay[1..]| {
      var a, b := hay[i + 1..i + 1 + |needle|], hay[1..][i..i + |needle|];
      forall k | 0 <= k < |needle| ensures a[k] == b[k] {
        assert a[k] == hay[i + 1 + k] && b[k] == hay[1..][i + k];
      }
      assert a == b;
    }
  }

  /** str::contains, written as a recursive search. */
  function Contains(hay: string, needle: string): (r: bool)
    ensures r <==> exists i :: OccursAt(hay, needle, i)
    decreases |hay|
  {
    if needle <= hay then
      assert OccursAt(hay, needle, 0);
      true
    else if hay == [] then
      assert forall i :: !OccursAt(hay, needle, i);
      false
    else
      var r := Contains(hay[1..], needle);
      assert !OccursAt(hay, needle, 0);
      forall i | 0 <= i ensures OccursAt(hay, needle, i + 1) <==> OccursAt(hay[1..], needle, i) {
        OccursAtShift(hay, needle, i);
      }
      assert forall i :: OccursAt(hay, needle, i) ==> OccursAt(hay[1..], needle, i - 1);
      r
  }

  /**
   * The case-insensitive substring test every table filter uses: the
   * lower-cased value contains the lower-cased search text.
   */
  function MatchStr(value: string, search: string): (r: bool)
    ensures r <==> exists i :: OccursAt(Lower(value), Lower(search), i)
  {
    Contains(Lower(value), Lower(search))
  }

  /** An empty search text matches every value. */
  lemma MatchStrEmpty(value: string)
    ensures MatchStr(value, "")
  {
    assert OccursAt(Lower(value), Lower(""), 0);
  }

  /** Matching ignores the case of ASCII letters in the search text. */
  lemma MatchStrIgnoresCase(value: string, search: string)
    ensures MatchStr(value, search) == MatchStr(value, Lower(search))
  {
    assert Lower(Lower(search)) == Lower(search);
  }

  // ---- decimal numbers -------------------------------------------------

  predicate IsDigit(c: char) { '0' <= c <= '9' }

  function DigitChar(d: nat): (c: char)
    requires d < 10
    ensures IsDigit(c)
  {
    ('0' as int + d) as char
  }

  /** The value of a string of decimal digits. */
  function DigitsValue(s: string): nat
    requires forall i :: 0 <= i < |s| ==> IsDigit(s[i])
  {
    if s == [] then 0
    else
      assert IsDigit(s[|s| - 1]);
      DigitsValue(s[..|s| - 1]) * 10 + (s[|s| - 1] as int - '0' as int)
  }

  /** Display of a non-negative integer: its decimal digits, no leading zeros. */
  function NatToString(n: nat): (s: string)
    ensures |s| > 0 && forall i :: 0 <= i < |s| ==> IsDigit(s[i])
    ensures DigitsValue(s) == n
    decreases n
  {
    if n < 10 then [DigitChar(n)]
    else
      var s := NatToString(n / 10) + [DigitChar(n % 10)];
      assert s[..|s| - 1] == NatToString(n / 10);
      s
  }

  /** Display of a (possibly negative) integer. */
  function IntToString(n: int): (s: string)
    ensures |s| > 0
    ensures n >= 0 ==> s == NatToString(n)
    ensures n < 0 ==> s[0] == '-' && s[1..] == NatToString(-n)
  {
    if n < 0 then "-" + NatToString(-n) else NatToString(n)
  }

  /**
   * `str::parse::<u16>`: an optional leading '+', then at least one decimal
   * digit, and a value that fits in 16 bits; anything else fails.
   */
  function ParseU16(s: string): (r: Option<u16>)
    ensures r.Some? ==> |s| > 0
    ensures |s| > 0 && s[0] != '+' && !IsDigit(s[0]) ==> r.None?
    ensures (exists i :: 0 < i < |s| && !IsDigit(s[i])) ==> r.None?
    ensures |s| > 1 && s[0] == '+' && (forall i :: 1 <= i < |s| ==> IsDigit(s[i])) ==>
      (r.Some? <==> DigitsValue(s[1..]) < 0x1_0000) && (r.Some? ==> r.value == DigitsValue(s[1..]))
    ensures s == "+" ==> r.None?
    ensures |s| > 0 && (forall i :: 0 <= i < |s| ==> IsDigit(s[i])) ==>
      (r.Some? <==> DigitsValue(s) < 0x1_0000) && (r.Some? ==> r.value == DigitsValue(s))
  {
    var digits := if |s| > 0 && s[0] == '+' then s[1..] else s;
    if digits == [] || exists i :: 0 <= i < |digits| && !IsDigit(digits[i]) then None
    else if DigitsValue(digits) < 0x1_0000 then Some(DigitsValue(digits))
    else None
  }

  /** Rendering a port and parsing it back gives the same port. */
  lemma ParseRendersPort(p: u16)
    ensures ParseU16(NatToString(p)) == Some(p)
  {
    var s := NatToString(p);
    assert s[0] != '+' by { assert IsDigit(s[0]); }
  }

  // ---- lexicographic order ---------------------------------------------

  /** `a <= b` in Rust's String order: lexicographic on characters. */
  predicate StrLe(a: string, b: string) {
    if a == [] then true
    else if b == [] then false
    else if a[0] != b[0] then a[0] < b[0]
    else StrLe(a[1..], b[1..])
  }

  lemma {:induction false} StrLeTotal(a: string, b: string)
    ensures StrLe(a, b) || StrLe(b, a)
  {
    if a != [] && b != [] && a[0] == b[0] {
      StrLeTotal(a[1..], b[1..]);
    }
  }

  lemma {:induction false} StrLeReflexive(a: string)
    ensures StrLe(a, a)
  {
    if a != [] { StrLeReflexive(a[1..]); }
  }

  lemma {:induction false} StrLeTransitive(a: string, b: string, c: string)
    requires StrLe(a, b) && StrLe(b, c)
    ensures StrLe(a, c)
  {
    if a != [] && b != [] && c != [] && a[0] == b[0] && b[0] == c[0] {
      StrLeTransitive(a[1..], b[1..], c[1..]);
    }
  }

  /** Two strings that share a prefix and then differ are ordered by the first difference. */
  lemma {:induction false} StrLeFirstDifference(p: string, x: char, y: char, a: string, b: string)
    requires x < y
    ensures StrLe(p + [x] + a, p + [y] + b)
  {
    if p != [] {
      assert (p + [x] + a)[1..] == p[1..] + [x] + a;
      assert (p + [y] + b)[1..] == p[1..] + [y] + b;
      StrLeFirstDifference(p[1..], x, y, a, b);
    }
  }
}
