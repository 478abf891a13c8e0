/**
 * The two string operations the pages rely on: `toUpperCase`, applied to
 * guest names, and the blank test `!s.trim()`, applied to expense
 * descriptions.
 */
module Text {

  /** Lower-case letters of Basic Latin and Latin-1 Supplement. */
  predicate IsLower(c: char) {
    ('a' <= c <= 'z') || ('\U{E0}' <= c <= '\U{FE}' && c != '\U{F7}')
      || c == '\U{DF}' || c == '\U{FF}' || c == '\U{B5}'
  }

  /**
   * Upper-case mapping of one character, as `toUpperCase` does it for the
   * letters of Basic Latin and Latin-1 Supplement: a-z and à-þ (except ÷)
   * move down by 0x20, ß becomes "SS", ÿ becomes Ÿ (U+0178) and µ becomes
   * Greek capital mu (U+039C). Every other character is kept.
   */
  function UpperChar(c: char): (r: string)
    ensures IsLower(c) <==> r != [c]
    ensures forall i :: 0 <= i < |r| ==> !IsLower(r[i])
    ensures 1 <= |r| <= 2 && (|r| == 2 <==> c == '\U{DF}')
  {
    if 'a' <= c <= 'z' || ('\U{E0}' <= c <= '\U{FE}' && c != '\U{F7}') then
      [(c as int - 0x20) as char]
    else if c == '\U{DF}' then "SS"
    else if c == '\U{FF}' then ['\U{178}']
    else if c == '\U{B5}' then ['\U{39C}']
    else [c]
  }

  /**
   * Lower-case mapping of a capital of Basic Latin and Latin-1 Supplement,
   * as `toLowerCase` does it: A-Z and À-Þ (except ×) move up by 0x20 and
   * Ÿ (U+0178) becomes ÿ. Every other character is kept.
   */
  function LowerChar(c: char): (r: char)
  {
    if 'A' <= c <= 'Z' || ('\U{C0}' <= c <= '\U{DE}' && c != '\U{D7}') then (c as int + 0x20) as char
    else if c == '\U{178}' then '\U{FF}'
    else c
  }

  /**
   * Every lower-case letter except ß and µ becomes a single capital whose
   * lower-case form is the letter itself, so no two of them share a capital.
   */
  lemma UpperCharRoundTrip(c: char)
    requires IsLower(c) && c != '\U{DF}' && c != '\U{B5}'
    ensures |UpperChar(c)| == 1 && UpperChar(c)[0] != c
    ensures LowerChar(UpperChar(c)[0]) == c
  {
  }

  /** `s.toUpperCase()`, character by character. */
  function Upper(s: string): (r: string)
    ensures |r| >= |s|
  {
    if s == [] then [] else UpperChar(s[0]) + Upper(s[1..])
  }

  /** Upper-casing distributes over concatenation. */
  lemma {:induction false} UpperConcat(a: string, b: string)
    ensures Upper(a + b) == Upper(a) + Upper(b)
  {
    if a == [] {
      assert a + b == b;
    } else {
      assert (a + b)[0] == a[0];
      assert (a + b)[1..] == a[1..] + b;
      UpperConcat(a[1..], b);
    }
  }

  /** No lower-case letter survives upper-casing. */
  lemma {:induction false} UpperHasNoLower(s: string)
    ensures forall i :: 0 <= i < |Upper(s)| ==> !IsLower(Upper(s)[i])
  {
    if s != [] {
      UpperHasNoLower(s[1..]);
      var head, tail := UpperChar(s[0]), Upper(s[1..]);
      assert Upper(s) == head + tail;
      forall i | 0 <= i < |Upper(s)| ensures !IsLower(Upper(s)[i]) {
        if i >= |head| {
          assert Upper(s)[i] == tail[i - |head|];
        }
      }
    }
  }

  /** A string without lower-case letters is its own upper-case form. */
  lemma {:induction false} UpperFixesUpperFree(s: string)
    requires forall i :: 0 <= i < |s| ==> !IsLower(s[i])
    ensures Upper(s) == s
  {
    if s != [] {
      UpperFixesUpperFree(s[1..]);
      assert [s[0]] + s[1..] == s;
    }
  }

  /** Upper-casing twice is the same as upper-casing once. */
  lemma UpperIdempotent(s: string)
    ensures Upper(Upper(s)) == Upper(s)
  {
    UpperHasNoLower(s);
    UpperFixesUpperFree(Upper(s));
  }

  /** Whitespace and line terminators as `String.prototype.trim` strips them. */
  predicate IsTrimmed(c: char) {
    c == ' ' || c == '\t' || c == '\n' || c == '\r' || c == '\U{0B}' || c == '\U{0C}'
      || c == '\U{A0}' || c == '\U{1680}' || ('\U{2000}' <= c <= '\U{200A}')
      || c == '\U{2028}' || c == '\U{2029}' || c == '\U{202F}' || c == '\U{205F}'
      || c == '\U{3000}' || c == '\U{FEFF}'
  }

  /** `!s.trim()`: the string is empty once the surrounding whitespace is removed. */
  predicate IsBlank(s: string) {
    forall i :: 0 <= i < |s| ==> IsTrimmed(s[i])
  }
}
