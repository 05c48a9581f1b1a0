/** The small part of Kotlin's (JVM) semantics that the app's logic relies on:
    fixed-width integer arithmetic, the truncating remainder, UTF-16 string
    length, `isBlank` and case-insensitive `contains`. */
module Kotlin {

  /** Kotlin's nullable `T?`. */
  datatype Option<T> = None | Some(value: T) {
    /** The elvis operator `this ?: default`. */
    function OrElse(default: T): (r: T)
      ensures Some? ==> r == value
      ensures None? ==> r == default
    {
      match this
      case Some(v) => v
      case None => default
    }
  }

  const INT_MIN: int := -0x8000_0000
  const INT_MAX: int := 0x7FFF_FFFF
  const LONG_MIN: int := -0x8000_0000_0000_0000
  const LONG_MAX: int := 0x7FFF_FFFF_FFFF_FFFF

  /** Kotlin `Int`. */
  type Int32 = x: int | -0x8000_0000 <= x <= 0x7FFF_FFFF

  /** Kotlin `Long`, e.g. a millisecond timestamp. */
  type Int64 = x: int | -0x8000_0000_0000_0000 <= x <= 0x7FFF_FFFF_FFFF_FFFF

  /** Two's-complement truncation of a mathematical integer to 32 bits. */
  function WrapInt(x: int): (r: Int32)
    ensures INT_MIN <= x <= INT_MAX ==> r == x
    ensures (r - x) % 0x1_0000_0000 == 0
  {
    (x - INT_MIN) % 0x1_0000_0000 + INT_MIN
  }

  /** Two's-complement truncation of a mathematical integer to 64 bits. */
  function WrapLong(x: int): (r: Int64)
    ensures LONG_MIN <= x <= LONG_MAX ==> r == x
    ensures (r - x) % 0x1_0000_0000_0000_0000 == 0
  {
    (x - LONG_MIN) % 0x1_0000_0000_0000_0000 + LONG_MIN
  }

  /** Kotlin `a + b` on `Int`: wraps around on overflow. */
  function IntPlus(a: Int32, b: Int32): (r: Int32)
    ensures INT_MIN <= a + b <= INT_MAX ==> r == a + b
    ensures a + b > INT_MAX ==> r == a + b - 0x1_0000_0000
    ensures a + b < INT_MIN ==> r == a + b + 0x1_0000_0000
  {
    WrapInt(a + b)
  }

  /** Kotlin `a + b` on `Long`: wraps around on overflow. */
  function LongPlus(a: Int64, b: Int64): (r: Int64)
    ensures LONG_MIN <= a + b <= LONG_MAX ==> r == a + b
    ensures a + b > LONG_MAX ==> r == a + b - 0x1_0000_0000_0000_0000
    ensures a + b < LONG_MIN ==> r == a + b + 0x1_0000_0000_0000_0000
  {
    WrapLong(a + b)
  }

  /** Kotlin `a % 6` on `Int`: the remainder of division truncated toward
      zero, so it takes the sign of the dividend (unlike Dafny's `%`, which
      is never negative). */
  function RemSix(a: Int32): (r: int)
    ensures a >= 0 ==> r == a % 6
    ensures a < 0 ==> -6 < r <= 0
    ensures (a - r) % 6 == 0
    ensures a < 0 ==> (r == 0 <==> a % 6 == 0)
  {
    if a >= 0 then a % 6 else -((-(a as int)) % 6)
  }

  /** `String.length`: the number of UTF-16 code units. A character outside
      the Basic Multilingual Plane takes a surrogate pair. */
  function Utf16Length(s: string): (n: nat)
    ensures |s| <= n <= 2 * |s|
    ensures (forall i :: 0 <= i < |s| ==> s[i] as int <= 0xFFFF) ==> n == |s|
  {
    if s == [] then 0
    else (if s[0] as int > 0xFFFF then 2 else 1) + Utf16Length(s[1..])
  }

  /** `Char.isWhitespace` on the JVM: `Character.isWhitespace` (the ASCII
      controls TAB..CR and FS..US) or `Character.isSpaceChar` (the space,
      line and paragraph separators). */
  predicate IsWhitespace(c: char)
  {
    var n := c as int;
    || 0x09 <= n <= 0x0D
    || 0x1C <= n <= 0x20
    || n == 0xA0 || n == 0x1680
    || 0x2000 <= n <= 0x200A
    || n == 0x2028 || n == 0x2029 || n == 0x202F || n == 0x205F || n == 0x3000
  }

  /** `CharSequence.isBlank()`: empty, or whitespace only. */
  predicate IsBlank(s: string)
  {
    forall i :: 0 <= i < |s| ==> IsWhitespace(s[i])
  }

  /** ASCII letter case folding; the model's stand-in for Kotlin's
      `Char.uppercaseChar`/`lowercaseChar` comparison. */
  function LowerAscii(c: char): (r: char)
    ensures 'A' <= c <= 'Z' ==> 'a' <= r <= 'z' && r as int == c as int + 32
    ensures !('A' <= c <= 'Z') ==> r == c
  {
    if 'A' <= c <= 'Z' then (c as int + 32) as char else c
  }

  predicate CharEqualsIgnoreCase(a: char, b: char)
  {
    LowerAscii(a) == LowerAscii(b)
  }

  /** `s.regionMatches(at, query, 0, query.length, ignoreCase = true)`. */
  predicate RegionMatchesIgnoreCase(s: string, at: nat, query: string)
  {
    at + |query| <= |s| &&
    forall k :: 0 <= k < |query| ==> CharEqualsIgnoreCase(s[at + k], query[k])
  }

  /** `s.contains(query, ignoreCase = true)`. */
  predicate ContainsIgnoreCase(s: string, query: string)
  {
    exists at: nat :: at <= |s| && RegionMatchesIgnoreCase(s, at, query)
  }

  lemma {:induction false} ContainsItself(s: string)
    ensures ContainsIgnoreCase(s, s)
  {
    assert RegionMatchesIgnoreCase(s, 0, s);
  }
}
