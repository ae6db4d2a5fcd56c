/**
 * The parts of Rust's `str`, `String` and `usize` behaviour that the library
 * relies on: byte length, `repeat`, `trim`, ASCII case folding, `starts_with`,
 * `join`, `saturating_sub` and `parse::<usize>()`.
 *
 * Strings are sequences of Unicode scalar values; `Utf8Len` gives the length
 * of their UTF-8 encoding, which is what Rust's `.len()` returns.
 */
module Strings {
  import opened Optional

  /** `usize::MAX` on a 64-bit target. */
  const USIZE_MAX: nat := 0xFFFF_FFFF_FFFF_FFFF

  function Max(a: int, b: int): int { if a >= b then a else b }

  function Min(a: int, b: int): int { if a <= b then a else b }

  /** `a.saturating_sub(b)` on unsigned integers: never below zero. */
  function SaturatingSub(a: nat, b: nat): (r: nat)
    ensures r + b >= a
    ensures a >= b ==> r + b == a
    ensures a <= b ==> r == 0
  {
    if a >= b then a - b else 0
  }

  // ---------------------------------------------------------------------
  // Byte length

  /** Number of bytes in the UTF-8 encoding of `c`. */
  function Utf8Width(c: char): (n: nat)
    ensures 1 <= n <= 4
    ensures n == 1 <==> c as int < 0x80
  {
    if c as int < 0x80 then 1
    else if c as int < 0x800 then 2
    else if c as int < 0x1_0000 then 3
    else 4
  }

  /** Rust's `str::len()`: the number of bytes of the UTF-8 encoding. */
  function Utf8Len(s: string): nat
  {
    if s == [] then 0 else Utf8Len(s[..|s| - 1]) + Utf8Width(s[|s| - 1])
  }

  predicate IsAscii(s: string)
  {
    forall i :: 0 <= i < |s| ==> s[i] as int < 0x80
  }

  lemma {:induction false} Utf8LenAppend(a: string, b: string)
    ensures Utf8Len(a + b) == Utf8Len(a) + Utf8Len(b)
  {
    if b == [] {
      assert a + b == a;
    } else {
      assert (a + b)[..|a + b| - 1] == a + b[..|b| - 1];
      Utf8LenAppend(a, b[..|b| - 1]);
    }
  }

  /** An ASCII string has one byte per character. */
  lemma {:induction false} Utf8LenAscii(s: string)
    requires IsAscii(s)
    ensures Utf8Len(s) == |s|
  {
    if s != [] {
      Utf8LenAscii(s[..|s| - 1]);
    }
  }

  /** A string has at least as many bytes as characters. */
  lemma {:induction false} Utf8LenAtLeastLength(s: string)
    ensures |s| <= Utf8Len(s) <= 4 * |s|
  {
    if s != [] {
      Utf8LenAtLeastLength(s[..|s| - 1]);
    }
  }

  // ---------------------------------------------------------------------
  // Repetition

  /** `c.to_string().repeat(n)` */
  function Repeat(c: char, n: nat): (r: string)
    ensures |r| == n
    ensures forall i :: 0 <= i < n ==> r[i] == c
  {
    seq(n, _ => c)
  }

  /** `" ".repeat(n)` */
  function Spaces(n: nat): (r: string)
    ensures |r| == n && Utf8Len(r) == n
    ensures forall i :: 0 <= i < n ==> r[i] == ' '
  {
    var r := Repeat(' ', n);
    Utf8LenAscii(r);
    r
  }

  lemma RepeatAsciiLen(c: char, n: nat)
    requires c as int < 0x80
    ensures Utf8Len(Repeat(c, n)) == n
  {
    Utf8LenAscii(Repeat(c, n));
  }

  /** `s` followed by spaces up to `w` bytes; nothing is added when it is already that long. */
  function PadRight(s: string, w: nat): (r: string)
    ensures Utf8Len(r) == Max(w, Utf8Len(s))
    ensures |s| <= |r| && r[..|s|] == s
    ensures forall i :: |s| <= i < |r| ==> r[i] == ' '
  {
    var pad := Spaces(SaturatingSub(w, Utf8Len(s)));
    Utf8LenAppend(s, pad);
    s + pad
  }

  // ---------------------------------------------------------------------
  // Trimming (`str::trim`, which removes Unicode White_Space at both ends)

  /** `char::is_whitespace`: the Unicode White_Space property. */
  predicate IsWhitespace(c: char)
  {
    ('\t' <= c <= '\r') || c == ' ' || c == '\U{85}' || c == '\U{A0}' || c == '\U{1680}'
    || ('\U{2000}' <= c <= '\U{200A}') || c == '\U{2028}' || c == '\U{2029}'
    || c == '\U{202F}' || c == '\U{205F}' || c == '\U{3000}'
  }

  /** The number of whitespace characters `s` starts with. */
  function LeadingWhitespace(s: string): (n: nat)
    ensures n <= |s|
    decreases |s|
  {
    if s != [] && IsWhitespace(s[0]) then 1 + LeadingWhitespace(s[1..]) else 0
  }

  /** The number of whitespace characters `s` ends with. */
  function TrailingWhitespace(s: string): (n: nat)
    ensures n <= |s|
    decreases |s|
  {
    if s != [] && IsWhitespace(s[|s| - 1]) then 1 + TrailingWhitespace(s[..|s| - 1]) else 0
  }

  /** The leading run is whitespace and stops at the first other character. */
  lemma {:induction false} LeadingWhitespaceSpec(s: string)
    ensures forall i :: 0 <= i < LeadingWhitespace(s) ==> IsWhitespace(s[i])
    ensures LeadingWhitespace(s) < |s| ==> !IsWhitespace(s[LeadingWhitespace(s)])
    decreases |s|
  {
    if s != [] && IsWhitespace(s[0]) {
      var n := LeadingWhitespace(s[1..]);
      LeadingWhitespaceSpec(s[1..]);
      assert LeadingWhitespace(s) == n + 1;
      forall i | 1 <= i < n + 1
        ensures IsWhitespace(s[i])
      {
        assert s[i] == s[1..][i - 1];
      }
      if n + 1 < |s| {
        assert s[n + 1] == s[1..][n];
      }
    }
  }

  /** The trailing run is whitespace and stops at the last other character. */
  lemma {:induction false} TrailingWhitespaceSpec(s: string)
    ensures forall i :: |s| - TrailingWhitespace(s) <= i < |s| ==> IsWhitespace(s[i])
    ensures TrailingWhitespace(s) < |s| ==> !IsWhitespace(s[|s| - TrailingWhitespace(s) - 1])
    decreases |s|
  {
    if s != [] && IsWhitespace(s[|s| - 1]) {
      var p := s[..|s| - 1];
      var n := TrailingWhitespace(p);
      TrailingWhitespaceSpec(p);
      assert TrailingWhitespace(s) == n + 1;
      forall i | |s| - (n + 1) <= i < |s| - 1
        ensures IsWhitespace(s[i])
      {
        assert s[i] == p[i];
      }
      if n + 1 < |s| {
        assert s[|s| - (n + 1) - 1] == p[|p| - n - 1];
      }
    }
  }

  /** `str::trim_start`: `s` without its leading whitespace. */
  function TrimStart(s: string): (r: string)
    ensures |r| <= |s| && r == s[|s| - |r|..]
  {
    s[LeadingWhitespace(s)..]
  }

  /** `str::trim_end`: `s` without its trailing whitespace. */
  function TrimEnd(s: string): (r: string)
    ensures |r| <= |s| && r == s[..|r|]
  {
    s[..|s| - TrailingWhitespace(s)]
  }

  /** `trim_start` removes exactly the leading whitespace. */
  lemma TrimStartSpec(s: string)
    ensures forall i :: 0 <= i < |s| - |TrimStart(s)| ==> IsWhitespace(s[i])
    ensures TrimStart(s) == [] || !IsWhitespace(TrimStart(s)[0])
  {
    LeadingWhitespaceSpec(s);
  }

  /** `trim_end` removes exactly the trailing whitespace. */
  lemma TrimEndSpec(s: string)
    ensures forall i :: |TrimEnd(s)| <= i < |s| ==> IsWhitespace(s[i])
    ensures TrimEnd(s) == [] || !IsWhitespace(TrimEnd(s)[|TrimEnd(s)| - 1])
  {
    TrailingWhitespaceSpec(s);
  }

  /** `str::trim` */
  function Trim(s: string): string
  {
    TrimEnd(TrimStart(s))
  }

  /** A string trims to nothing exactly when it consists of whitespace only. */
  lemma TrimEmptyIff(s: string)
    ensures Trim(s) == [] <==> forall i :: 0 <= i < |s| ==> IsWhitespace(s[i])
  {
    var t := TrimStart(s);
    var k := |s| - |t|;
    TrimStartSpec(s);
    TrimEndSpec(t);
    if Trim(s) != [] {
      assert t != [] && t[0] == s[k];
    }
  }

  /** Trimming is idempotent, and trimmed text has no whitespace at either end. */
  lemma TrimIdempotent(s: string)
    ensures Trim(Trim(s)) == Trim(s)
    ensures Trim(s) == [] || (!IsWhitespace(Trim(s)[0]) && !IsWhitespace(Trim(s)[|Trim(s)| - 1]))
  {
    var t := TrimStart(s);
    var r := TrimEnd(t);
    TrimStartSpec(s);
    TrimEndSpec(t);
    if r != [] {
      assert r[0] == t[0];
      assert TrimStart(r) == r;
      assert TrimEnd(r) == r;
    } else {
      assert TrimStart(r) == r;
    }
  }

  /** A string with a non-whitespace character does not trim to nothing. */
  lemma TrimNonEmpty(s: string, j: nat)
    requires j < |s| && !IsWhitespace(s[j])
    ensures Trim(s) != []
  {
    TrimEmptyIff(s);
  }

  /** A prefix `t` of a suffix `u` of `s` is the slice of `s` it covers, and what follows it in `u` follows it in `s`. */
  lemma SliceOfSuffix(s: string, u: string, t: string)
    requires |u| <= |s| && u == s[|s| - |u|..]
    requires |t| <= |u| && t == u[..|t|]
    requires forall i :: |t| <= i < |u| ==> IsWhitespace(u[i])
    ensures var k := |s| - |u|;
      && s[k..k + |t|] == t
      && forall i :: k + |t| <= i < |s| ==> IsWhitespace(s[i])
  {
    var k := |s| - |u|;
    assert s[k..k + |t|] == u[..|t|];
    forall i | k + |t| <= i < |s|
      ensures IsWhitespace(s[i])
    {
      assert s[i] == u[i - k];
    }
  }

  /** The trimmed text is the slice of `s` between its leading and its trailing whitespace. */
  lemma TrimSlice(s: string)
    ensures var k := |s| - |TrimStart(s)|;
      var t := Trim(s);
      && k + |t| <= |s| && s[k..k + |t|] == t
      && (forall i :: 0 <= i < k ==> IsWhitespace(s[i]))
      && (forall i :: k + |t| <= i < |s| ==> IsWhitespace(s[i]))
  {
    var u := TrimStart(s);
    TrimStartSpec(s);
    TrimEndSpec(u);
    SliceOfSuffix(s, u, TrimEnd(u));
  }

  // ---------------------------------------------------------------------
  // ASCII case folding

  /** `char::to_ascii_lowercase` */
  function AsciiLowerChar(c: char): (d: char)
    ensures 'A' <= c <= 'Z' ==> d as int == c as int + 32
    ensures !('A' <= c <= 'Z') ==> d == c
  {
    if 'A' <= c <= 'Z' then (c as int + 32) as char else c
  }

  /** Lower-cases the ASCII letters of `s` and leaves every other character alone. */
  function AsciiLower(s: string): (r: string)
    ensures |r| == |s|
    ensures forall i :: 0 <= i < |s| ==> r[i] == AsciiLowerChar(s[i])
  {
    seq(|s|, i requires 0 <= i < |s| => AsciiLowerChar(s[i]))
  }

  /** A text without upper-case ASCII letters is its own lower case. */
  lemma AsciiLowerOfLower(s: string)
    requires forall i :: 0 <= i < |s| ==> !('A' <= s[i] <= 'Z')
    ensures AsciiLower(s) == s
  {
  }

  /** `str::eq_ignore_ascii_case` */
  predicate EqIgnoreAsciiCase(a: string, b: string)
  {
    AsciiLower(a) == AsciiLower(b)
  }

  /** `str::starts_with` */
  predicate StartsWith(s: string, p: string)
  {
    |p| <= |s| && s[..|p|] == p
  }

  // ---------------------------------------------------------------------
  // `join`

  /** `parts.join(sep)` */
  function Join(parts: seq<string>, sep: string): string
  {
    if |parts| == 0 then ""
    else if |parts| == 1 then parts[0]
    else parts[0] + sep + Join(parts[1..], sep)
  }

  /** Sum of the byte lengths of `parts`. */
  function SumUtf8Len(parts: seq<string>): nat
  {
    if parts == [] then 0 else Utf8Len(parts[0]) + SumUtf8Len(parts[1..])
  }

  /** The byte length of a join: the parts plus one separator between each neighbour pair. */
  lemma {:induction false} JoinUtf8Len(parts: seq<string>, sep: string)
    requires |parts| >= 1
    ensures Utf8Len(Join(parts, sep)) == SumUtf8Len(parts) + (|parts| - 1) * Utf8Len(sep)
  {
    if |parts| == 1 {
      assert parts[1..] == [];
    } else {
      var rest := parts[1..];
      var j := Join(rest, sep);
      assert Join(parts, sep) == parts[0] + sep + j;
      JoinUtf8Len(rest, sep);
      Utf8LenAppend(parts[0], sep);
      Utf8LenAppend(parts[0] + sep, j);
      MulStep(|rest| - 1, Utf8Len(sep));
    }
  }

  lemma MulStep(k: nat, n: nat)
    ensures k * n + n == (k + 1) * n
  {
  }

  // ---------------------------------------------------------------------
  // Decimal numbers and `parse::<usize>()`

  predicate IsDigit(c: char) { '0' <= c <= '9' }

  predicate AllDigits(s: string) { forall i :: 0 <= i < |s| ==> IsDigit(s[i]) }

  function DigitChar(d: nat): (c: char)
    requires d < 10
    ensures IsDigit(c) && c as int - '0' as int == d
  {
    ('0' as int + d) as char
  }

  /** The decimal representation of `n`, without leading zeros (`n.to_string()`). */
  function Decimal(n: nat): (r: string)
    ensures |r| >= 1 && AllDigits(r)
    ensures (|r| == 1) == (n < 10)
  {
    if n < 10 then [DigitChar(n)] else Decimal(n / 10) + [DigitChar(n % 10)]
  }

  /** The value of a string of decimal digits. */
  function DigitsValue(s: string): nat
    requires AllDigits(s)
  {
    if s == [] then 0 else DigitsValue(s[..|s| - 1]) * 10 + (s[|s| - 1] as int - '0' as int)
  }

  lemma {:induction false} DigitsValueOfDecimal(n: nat)
    ensures DigitsValue(Decimal(n)) == n
  {
    if n >= 10 {
      var r := Decimal(n);
      assert r[..|r| - 1] == Decimal(n / 10);
      DigitsValueOfDecimal(n / 10);
    }
  }

  /**
   * `s.parse::<usize>()`: an optional leading '+', then one or more ASCII
   * digits, whose value must not exceed `usize::MAX`.
   */
  function ParseUsize(s: string): (r: Option<nat>)
    ensures r.Some? ==> r.value <= USIZE_MAX
    ensures r.Some? ==> s != [] && (IsDigit(s[0]) || s[0] == '+')
    ensures s == [] || s == "+" ==> r.None?
  {
    var digits := if |s| > 0 && s[0] == '+' then s[1..] else s;
    if digits == [] || !AllDigits(digits) then None
    else if DigitsValue(digits) > USIZE_MAX then None
    else Some(DigitsValue(digits))
  }

  /** Parsing the decimal text of a `usize` gives the number back. */
  lemma ParseDecimal(n: nat)
    requires n <= USIZE_MAX
    ensures ParseUsize(Decimal(n)) == Some(n)
  {
    DigitsValueOfDecimal(n);
  }
}
