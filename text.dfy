/**
 * The handful of java.lang.String and number-parsing operations the proxy relies on,
 * written out with the JDK's semantics: `trim`, `indexOf`, `startsWith`, `split(",")`,
 * `Long.parseLong`, `Integer.parseInt`, decimal `toString` and UTF-8 encoding.
 */
module Text {
  import opened Wrappers

  newtype byte = x: int | 0 <= x < 256

  // ---------------------------------------------------------------------------
  // Case-insensitive comparison (ASCII letters only, as Netty compares header names)
  // ---------------------------------------------------------------------------

  function LowerAscii(c: char): char {
    if 'A' <= c <= 'Z' then (c as int + 32) as char else c
  }

  predicate EqualsIgnoreCase(a: string, b: string) {
    |a| == |b| && forall i :: 0 <= i < |a| ==> LowerAscii(a[i]) == LowerAscii(b[i])
  }

  // ---------------------------------------------------------------------------
  // String.trim: drops leading and trailing characters at or below U+0020
  // ---------------------------------------------------------------------------

  function TrimStart(s: string): (r: string)
    ensures |r| <= |s| && r == s[|s| - |r|..]
    ensures r == [] || r[0] > ' '
  {
    if s != [] && s[0] <= ' ' then TrimStart(s[1..]) else s
  }

  function TrimEnd(s: string): (r: string)
    ensures |r| <= |s| && r == s[..|r|]
    ensures r == [] || r[|r| - 1] > ' '
  {
    if s != [] && s[|s| - 1] <= ' ' then TrimEnd(s[..|s| - 1]) else s
  }

  /** Every character of a slice is a character of the sequence. */
  lemma SliceChars(s: string, i: int, j: int)
    requires 0 <= i <= j <= |s|
    ensures forall c :: c in s[i..j] ==> c in s
  {
    forall c | c in s[i..j] ensures c in s {
      var k :| 0 <= k < j - i && s[i..j][k] == c;
      assert s[i + k] == c;
    }
  }

  /** The trimmed string is a piece of the original with no blank at either end. */
  function Trim(s: string): (r: string)
    ensures forall c :: c in r ==> c in s
    ensures r == [] || (r[0] > ' ' && r[|r| - 1] > ' ')
  {
    var t := TrimStart(s);
    SliceChars(s, |s| - |t|, |s|);
    var r := TrimEnd(t);
    SliceChars(t, 0, |r|);
    r
  }

  // ---------------------------------------------------------------------------
  // String.indexOf and String.startsWith
  // ---------------------------------------------------------------------------

  predicate OccursAt(s: string, pat: string, i: int) {
    0 <= i && i + |pat| <= |s| && s[i..i + |pat|] == pat
  }

  /** Index of the first occurrence of `pat` at or after `from`. */
  function IndexOfFrom(s: string, pat: string, from: nat): (r: Option<nat>)
    ensures r.Some? ==> from <= r.value && OccursAt(s, pat, r.value)
    ensures r.Some? ==> forall j :: from <= j < r.value ==> !OccursAt(s, pat, j)
    ensures r.None? ==> forall j :: from <= j ==> !OccursAt(s, pat, j)
    decreases |s| - from
  {
    if from + |pat| > |s| then None
    else if s[from..from + |pat|] == pat then Some(from)
    else IndexOfFrom(s, pat, from + 1)
  }

  /** `s.indexOf(pat)`, with -1 written as None. */
  function IndexOf(s: string, pat: string): (r: Option<nat>)
    ensures r.Some? ==> OccursAt(s, pat, r.value)
    ensures r.Some? ==> forall j :: 0 <= j < r.value ==> !OccursAt(s, pat, j)
    ensures r.None? ==> forall j :: 0 <= j ==> !OccursAt(s, pat, j)
  {
    IndexOfFrom(s, pat, 0)
  }

  predicate StartsWith(s: string, prefix: string) {
    |prefix| <= |s| && s[..|prefix|] == prefix
  }

  lemma OccursAtChar(s: string, c: char, i: int)
    ensures OccursAt(s, [c], i) <==> 0 <= i < |s| && s[i] == c
  {
    if 0 <= i < |s| && s[i] == c {
      assert s[i..i + 1] == [c];
    }
  }

  /** Searching for a one-character string finds the first position holding that character. */
  lemma IndexOfChar(s: string, c: char)
    ensures IndexOf(s, [c]).None? <==> c !in s
    ensures IndexOf(s, [c]).Some? ==>
      var i := IndexOf(s, [c]).value; i < |s| && s[i] == c && c !in s[..i]
  {
    var r := IndexOf(s, [c]);
    forall i | 0 <= i < |s| ensures OccursAt(s, [c], i) <==> s[i] == c {
      OccursAtChar(s, c, i);
    }
    if r.Some? {
      OccursAtChar(s, c, r.value);
      assert c !in s[..r.value] by {
        forall k | 0 <= k < r.value ensures s[..r.value][k] != c {
          OccursAtChar(s, c, k);
        }
      }
    } else {
      assert c !in s by {
        forall k | 0 <= k < |s| ensures s[k] != c {
          OccursAtChar(s, c, k);
        }
      }
    }
  }

  // ---------------------------------------------------------------------------
  // String.split(","): split at every separator, then drop trailing empty pieces;
  // a string without any separator comes back as the single piece [s].
  // ---------------------------------------------------------------------------

  function SplitAll(s: string, sep: char): (r: seq<string>)
    ensures |r| >= 1
    ensures forall k :: 0 <= k < |r| ==> sep !in r[k]
    decreases |s|
  {
    var i := IndexOf(s, [sep]);
    IndexOfChar(s, sep);
    if i.None? then [s] else [s[..i.value]] + SplitAll(s[i.value + 1..], sep)
  }

  function DropTrailingEmpty(ps: seq<string>): (r: seq<string>)
    ensures |r| <= |ps| && r == ps[..|r|]
    ensures r == [] || r[|r| - 1] != ""
  {
    if ps != [] && ps[|ps| - 1] == "" then DropTrailingEmpty(ps[..|ps| - 1]) else ps
  }

  function JavaSplit(s: string, sep: char): (r: seq<string>)
    ensures forall k :: 0 <= k < |r| ==> sep !in r[k]
  {
    if sep !in s then [s] else DropTrailingEmpty(SplitAll(s, sep))
  }

  // ---------------------------------------------------------------------------
  // Long.parseLong / Integer.parseInt (ASCII digits, optional leading sign)
  // ---------------------------------------------------------------------------

  const LONG_MIN: int := -0x8000_0000_0000_0000
  const LONG_MAX: int := 0x7FFF_FFFF_FFFF_FFFF
  const INT_MIN: int := -0x8000_0000
  const INT_MAX: int := 0x7FFF_FFFF

  predicate IsDigit(c: char) {
    '0' <= c <= '9'
  }

  predicate AllDigits(s: string) {
    forall i :: 0 <= i < |s| ==> IsDigit(s[i])
  }

  function DigitsValue(s: string): nat
    requires AllDigits(s)
  {
    if s == [] then 0
    else DigitsValue(s[..|s| - 1]) * 10 + (s[|s| - 1] as int - '0' as int)
  }

  /** A signed decimal numeral whose value lies in [lo, hi], or None (the NumberFormatException). */
  function ParseSigned(s: string, lo: int, hi: int): (r: Option<int>)
    requires lo <= 0
    ensures r.Some? ==> lo <= r.value <= hi
    ensures r.Some? ==> s != [] && (IsDigit(s[0]) || s[0] == '-' || s[0] == '+')
  {
    if s == [] then None
    else if s[0] == '-' || s[0] == '+' then
      var digits := s[1..];
      if digits == [] || !AllDigits(digits) then None
      else
        var n: int := DigitsValue(digits);
        var v := if s[0] == '-' then -n else n;
        if lo <= v <= hi then Some(v) else None
    else if !AllDigits(s) then None
    else if DigitsValue(s) <= hi then Some(DigitsValue(s))
    else None
  }

  function ParseLong(s: string): (r: Option<int>)
    ensures r.Some? ==> LONG_MIN <= r.value <= LONG_MAX
  {
    ParseSigned(s, LONG_MIN, LONG_MAX)
  }

  function ParseInt(s: string): (r: Option<int>)
    ensures r.Some? ==> INT_MIN <= r.value <= INT_MAX
  {
    ParseSigned(s, INT_MIN, INT_MAX)
  }

  // ---------------------------------------------------------------------------
  // Decimal rendering of a non-negative number (String.valueOf on an int)
  // ---------------------------------------------------------------------------

  function NatToString(n: nat): (r: string)
    ensures r != [] && AllDigits(r)
    ensures DigitsValue(r) == n
  {
    var d := [(n % 10 + '0' as int) as char];
    if n < 10 then d
    else
      var r := NatToString(n / 10) + d;
      assert r[..|r| - 1] == NatToString(n / 10);
      r
  }

  // ---------------------------------------------------------------------------
  // UTF-8 (String.getBytes("UTF-8") on a string of Unicode scalar values)
  // ---------------------------------------------------------------------------

  function Utf8Char(c: char): (r: seq<byte>)
    ensures 1 <= |r| <= 4
  {
    var n := c as int;
    if n < 0x80 then [n as byte]
    else if n < 0x800 then [(0xC0 + n / 0x40) as byte, (0x80 + n % 0x40) as byte]
    else if n < 0x1_0000 then
      [(0xE0 + n / 0x1000) as byte, (0x80 + (n / 0x40) % 0x40) as byte, (0x80 + n % 0x40) as byte]
    else
      [(0xF0 + n / 0x4_0000) as byte, (0x80 + (n / 0x1000) % 0x40) as byte,
       (0x80 + (n / 0x40) % 0x40) as byte, (0x80 + n % 0x40) as byte]
  }

  function Utf8(s: string): (r: seq<byte>)
    ensures |s| <= |r| <= 4 * |s|
  {
    if s == [] then [] else Utf8(s[..|s| - 1]) + Utf8Char(s[|s| - 1])
  }

  /** ASCII text encodes to one byte per character. */
  lemma {:induction false} Utf8Ascii(s: string)
    requires forall i :: 0 <= i < |s| ==> s[i] < 0x80 as char
    ensures |Utf8(s)| == |s|
  {
    if s != [] {
      Utf8Ascii(s[..|s| - 1]);
    }
  }
}
