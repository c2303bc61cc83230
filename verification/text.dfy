/** The JavaScript string built-ins the portal's rules rely on: the white-space
    class shared by `String.prototype.trim` and the regular-expression class
    `\s`, `trim`, ASCII `toLowerCase`, `includes`, `length` in UTF-16 code
    units, decimal rendering of a number and the decimal part of `Number()`. */
module Text {
  import opened Base

  /** ECMAScript WhiteSpace and LineTerminator code points: what `trim`
      strips and what `\s` matches. */
  predicate IsSpace(c: char) {
    var n := c as int;
    n == 0x09 || n == 0x0A || n == 0x0B || n == 0x0C || n == 0x0D || n == 0x20 ||
    n == 0xA0 || n == 0x1680 || (0x2000 <= n <= 0x200A) ||
    n == 0x2028 || n == 0x2029 || n == 0x202F || n == 0x205F || n == 0x3000 || n == 0xFEFF
  }

  /** Number of white-space characters at the front of `s`. */
  function LeadingSpace(s: string): (k: nat)
    ensures k <= |s|
    ensures forall i :: 0 <= i < k ==> IsSpace(s[i])
    ensures k < |s| ==> !IsSpace(s[k])
  {
    if s == [] || !IsSpace(s[0]) then 0 else 1 + LeadingSpace(s[1..])
  }

  /** Index at which the white space at the end of `s` begins. */
  function TrailingSpaceStart(s: string): (j: nat)
    ensures j <= |s|
    ensures forall i :: j <= i < |s| ==> IsSpace(s[i])
    ensures 0 < j ==> !IsSpace(s[j - 1])
  {
    if s == [] || !IsSpace(s[|s| - 1]) then |s| else TrailingSpaceStart(s[..|s| - 1])
  }

  /** `r` is `s` with white space removed from both ends. */
  ghost predicate IsTrimOf(r: string, s: string) {
    && (r == [] || (!IsSpace(r[0]) && !IsSpace(r[|r| - 1])))
    && exists i, j :: 0 <= i <= j <= |s| && r == s[i..j] && AllSpace(s[..i]) && AllSpace(s[j..])
  }

  ghost predicate AllSpace(s: string) {
    forall i :: 0 <= i < |s| ==> IsSpace(s[i])
  }

  /** `String.prototype.trim`. */
  function Trim(s: string): (r: string)
    ensures IsTrimOf(r, s)
    ensures |r| <= |s|
  {
    var k := LeadingSpace(s);
    var rest := s[k..];
    var j := TrailingSpaceStart(rest);
    assert AllSpace(s[..k]);
    assert rest[..j] == s[k..k + j] && AllSpace(s[k + j..]) by {
      assert rest[j..] == s[k + j..];
    }
    assert rest[..j] == [] || !IsSpace(rest[0]) by {
      if k < |s| { assert rest[0] == s[k]; }
    }
    rest[..j]
  }

  /** Trimming a trimmed string changes nothing, so a tag stored after `trim`
      equals its own trimmed form. */
  lemma TrimIdempotent(s: string)
    ensures Trim(Trim(s)) == Trim(s)
  {
    var r := Trim(s);
    assert LeadingSpace(r) == 0;
    assert TrailingSpaceStart(r) == |r| by {
      if r != [] { assert !IsSpace(r[|r| - 1]); }
    }
    assert r[0..] == r;
  }

  /** A string of white space only trims to the empty string, and a string
      holding a non-space character does not. */
  lemma {:induction false} TrimEmptyIff(s: string)
    ensures Trim(s) == [] <==> AllSpace(s)
  {
    var r := Trim(s);
    var i, j :| 0 <= i <= j <= |s| && r == s[i..j] && AllSpace(s[..i]) && AllSpace(s[j..]);
    if r == [] {
      forall k | 0 <= k < |s| ensures IsSpace(s[k]) {
        if k < i { assert s[..i][k] == s[k]; } else { assert s[j..][k - j] == s[k]; }
      }
    } else {
      assert s[i] == r[0];
    }
  }

  /** ASCII lower-casing of one character (`toLowerCase` on the ASCII range). */
  function LowerChar(c: char): (d: char)
    ensures 'A' <= c <= 'Z' ==> 'a' <= d <= 'z' && d as int - c as int == 32
    ensures !('A' <= c <= 'Z') ==> d == c
  {
    if 'A' <= c <= 'Z' then (c as int + 32) as char else c
  }

  function ToLower(s: string): (r: string)
    ensures |r| == |s|
    ensures forall i :: 0 <= i < |s| ==> r[i] == LowerChar(s[i])
  {
    seq(|s|, i requires 0 <= i < |s| => LowerChar(s[i]))
  }

  /** `hay.includes(needle)`: `needle` occurs at some position of `hay`. */
  predicate Includes(hay: string, needle: string) {
    exists i | 0 <= i <= |hay| - |needle| :: OccursAt(hay, needle, i)
  }

  predicate OccursAt(hay: string, needle: string, i: int) {
    0 <= i <= |hay| - |needle| && hay[i..i + |needle|] == needle
  }

  /** JavaScript's `length`: UTF-16 code units, two for a character outside
      the Basic Multilingual Plane. */
  function Utf16Length(s: string): (n: nat)
    ensures |s| <= n <= 2 * |s|
    ensures (forall i :: 0 <= i < |s| ==> s[i] as int <= 0xFFFF) ==> n == |s|
  {
    if s == [] then 0 else (if s[0] as int <= 0xFFFF then 1 else 2) + Utf16Length(s[1..])
  }

  predicate IsDigit(c: char) {
    '0' <= c <= '9'
  }

  predicate AllDigits(s: string) {
    forall i :: 0 <= i < |s| ==> IsDigit(s[i])
  }

  function DigitChar(d: nat): (c: char)
    requires d < 10
    ensures IsDigit(c) && c as int - '0' as int == d
  {
    ('0' as int + d) as char
  }

  /** The value of a string of decimal digits. */
  function DigitsValue(s: string): nat
    requires AllDigits(s)
  {
    if s == [] then 0 else 10 * DigitsValue(s[..|s| - 1]) + (s[|s| - 1] as int - '0' as int)
  }

  /** `n.toString()` for a non-negative integer. */
  function NatToString(n: nat): (s: string)
    ensures s != [] && AllDigits(s)
  {
    if n < 10 then [DigitChar(n)] else NatToString(n / 10) + [DigitChar(n % 10)]
  }

  /** Rendering a number and reading it back gives the number again. */
  lemma {:induction false} NatToStringRoundTrip(n: nat)
    ensures DigitsValue(NatToString(n)) == n
  {
    if n >= 10 {
      var s := NatToString(n / 10);
      NatToStringRoundTrip(n / 10);
      assert (s + [DigitChar(n % 10)])[..|s|] == s;
    }
  }

  /** `Number(s)` for the forms this portal receives: surrounding white space
      is ignored, an empty or all-space string is 0, a run of decimal digits is
      its value, and anything else is NaN (None). */
  function JsNumber(s: string): (r: Option<nat>)
    ensures AllSpace(s) ==> r == Some(0)
    ensures AllDigits(s) && s != [] ==> r == Some(DigitsValue(s))
  {
    var t := Trim(s);
    TrimEmptyIff(s);
    DigitsAreTrimmed(s);
    if t == [] then Some(0)
    else if AllDigits(t) then Some(DigitsValue(t))
    else None
  }

  /** A non-empty run of digits has no white space to trim. */
  lemma DigitsAreTrimmed(s: string)
    ensures AllDigits(s) && s != [] ==> Trim(s) == s
  {
    if AllDigits(s) && s != [] {
      assert LeadingSpace(s) == 0 by { assert !IsSpace(s[0]); }
      assert TrailingSpaceStart(s) == |s| by { assert !IsSpace(s[|s| - 1]); }
      assert s[0..] == s;
    }
  }

  /** Reading back a rendered number with `Number()` gives the number. */
  lemma {:induction false} NumberOfRenderedNat(n: nat)
    ensures JsNumber(NatToString(n)) == Some(n)
  {
    NatToStringRoundTrip(n);
  }
}
