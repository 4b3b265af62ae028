/** Text helpers the page components rely on: JavaScript's `toUpperCase`
    (ASCII letters), `trim`, `split(',')`, `includes`, and the ticker that the
    pattern /\$?([A-Z]+)/ extracts from a trade post. */
module Strings {

  /** Characters JavaScript's `trim` and `parseFloat` treat as white space:
      the WhiteSpace and LineTerminator productions of ECMAScript. */
  predicate IsSpace(c: char) {
    c == '\t' || c == '\n' || c == '\U{000B}' || c == '\U{000C}' || c == '\r' || c == ' '
    || c == '\U{00A0}' || c == '\U{1680}' || ('\U{2000}' <= c <= '\U{200A}')
    || c == '\U{2028}' || c == '\U{2029}' || c == '\U{202F}' || c == '\U{205F}'
    || c == '\U{3000}' || c == '\U{FEFF}'
  }

  predicate IsUpperLetter(c: char) { 'A' <= c <= 'Z' }

  predicate IsLowerLetter(c: char) { 'a' <= c <= 'z' }

  function UpperChar(c: char): (u: char)
    ensures IsLowerLetter(c) ==> IsUpperLetter(u) && u as int == c as int - 32
    ensures !IsLowerLetter(c) ==> u == c
  {
    if IsLowerLetter(c) then (c as int - 32) as char else c
  }

  /** `s.toUpperCase()` restricted to ASCII letters. */
  function Upper(s: string): (u: string)
    ensures |u| == |s|
    ensures forall i :: 0 <= i < |s| ==> u[i] == UpperChar(s[i])
  {
    seq(|s|, i requires 0 <= i < |s| => UpperChar(s[i]))
  }

  /** The number of white-space characters `s` starts with. */
  function LeadingSpaces(s: string): (n: nat)
    ensures n <= |s|
    ensures forall k :: 0 <= k < n ==> IsSpace(s[k])
    ensures n == |s| || !IsSpace(s[n])
  {
    if |s| > 0 && IsSpace(s[0]) then 1 + LeadingSpaces(s[1..]) else 0
  }

  /** The number of white-space characters `s` ends with. */
  function TrailingSpaces(s: string): (n: nat)
    ensures n <= |s|
    ensures forall k :: |s| - n <= k < |s| ==> IsSpace(s[k])
    ensures n == |s| || !IsSpace(s[|s| - n - 1])
  {
    if |s| > 0 && IsSpace(s[|s| - 1]) then 1 + TrailingSpaces(s[..|s| - 1]) else 0
  }

  /** `s.trimStart()`. */
  function TrimStart(s: string): (r: string)
    ensures |r| <= |s| && r == s[|s| - |r|..]
    ensures r == [] || !IsSpace(r[0])
    ensures forall i :: 0 <= i < |s| - |r| ==> IsSpace(s[i])
  {
    s[LeadingSpaces(s)..]
  }

  /** `r` is the infix of `s` starting at `i`, and everything of `s` before and
      after it is white space. */
  predicate TrimmedAt(s: string, r: string, i: int)
  {
    && 0 <= i && i + |r| <= |s|
    && (forall k :: 0 <= k < |r| ==> r[k] == s[i + k])
    && (forall k :: 0 <= k < i ==> IsSpace(s[k]))
    && (forall k :: i + |r| <= k < |s| ==> IsSpace(s[k]))
  }

  /** `s.trim()`: the longest infix that neither starts nor ends with white space. */
  function Trim(s: string): (r: string)
    ensures exists i :: TrimmedAt(s, r, i)
    ensures r == [] || (!IsSpace(r[0]) && !IsSpace(r[|r| - 1]))
    ensures r == [] <==> forall i :: 0 <= i < |s| ==> IsSpace(s[i])
  {
    var i := LeadingSpaces(s);
    var j := TrailingSpaces(s[i..]);
    assert TrimmedAt(s, s[i..|s| - j], i);
    s[i..|s| - j]
  }

  /** Concatenation of `parts` with `sep` between consecutive parts. */
  function Join(parts: seq<string>, sep: char): string
  {
    if |parts| == 0 then "" else if |parts| == 1 then parts[0] else parts[0] + [sep] + Join(parts[1..], sep)
  }

  /** `s.split(sep)` for a one-character separator: never empty, no part
      contains the separator, and joining the parts back gives `s`. */
  function Split(s: string, sep: char): (parts: seq<string>)
    ensures |parts| >= 1
    ensures forall k :: 0 <= k < |parts| ==> sep !in parts[k]
    ensures Join(parts, sep) == s
  {
    if |s| == 0 then [""]
    else if s[0] == sep then
      var rest := Split(s[1..], sep);
      assert [sep] + Join(rest, sep) == s;
      [""] + rest
    else
      var rest := Split(s[1..], sep);
      var parts := [[s[0]] + rest[0]] + rest[1..];
      assert parts[1..] == rest[1..];
      parts
  }

  /** A string without the separator splits into itself alone. */
  lemma {:induction false} SplitWithoutSeparator(s: string, sep: char)
    requires sep !in s
    ensures Split(s, sep) == [s]
  {
    if |s| > 0 {
      SplitWithoutSeparator(s[1..], sep);
      assert [s[0]] + s[1..] == s;
    }
  }

  /** Two separator-free strings joined by one separator split back into the two. */
  lemma {:induction false} SplitAtSeparator(a: string, b: string, sep: char)
    requires sep !in a && sep !in b
    ensures Split(a + [sep] + b, sep) == [a, b]
  {
    if |a| == 0 {
      assert (a + [sep] + b)[1..] == b;
      SplitWithoutSeparator(b, sep);
    } else {
      assert (a + [sep] + b)[1..] == a[1..] + [sep] + b;
      SplitAtSeparator(a[1..], b, sep);
      assert [a[0]] + a[1..] == a;
    }
  }

  /** `text.includes(needle)`. */
  predicate Contains(text: string, needle: string)
  {
    needle <= text || (|text| > 0 && Contains(text[1..], needle))
  }

  /** `needle` occurs in `text` starting at index `i`. */
  predicate OccursAt(text: string, needle: string, i: int)
  {
    0 <= i <= |text| - |needle| && text[i..i + |needle|] == needle
  }

  /** An occurrence past the first character is an occurrence in the tail. */
  lemma OccursShift(text: string, needle: string, i: int)
    requires |text| > 0 && i >= 1
    ensures OccursAt(text, needle, i) <==> OccursAt(text[1..], needle, i - 1)
  {
    if 0 <= i - 1 <= |text[1..]| - |needle| {
      assert text[1..][i - 1..i - 1 + |needle|] == text[i..i + |needle|];
    }
  }

  /** `Contains` agrees with the index-based definition of an occurrence. */
  lemma {:induction false} ContainsIffOccurs(text: string, needle: string)
    ensures Contains(text, needle) <==> exists i :: OccursAt(text, needle, i)
  {
    if needle <= text {
      assert OccursAt(text, needle, 0);
    } else if |text| > 0 {
      ContainsIffOccurs(text[1..], needle);
      if exists i :: OccursAt(text, needle, i) {
        var i :| OccursAt(text, needle, i);
        OccursShift(text, needle, i);
      }
      if Contains(text[1..], needle) {
        var i :| OccursAt(text[1..], needle, i);
        OccursShift(text, needle, i + 1);
      }
    }
  }

  /** The leading run of upper-case ASCII letters of `s`. */
  function UpperRun(s: string): (r: string)
    ensures r <= s
    ensures forall i :: 0 <= i < |r| ==> IsUpperLetter(r[i])
    ensures |r| == |s| || !IsUpperLetter(s[|r|])
  {
    if |s| > 0 && IsUpperLetter(s[0]) then [s[0]] + UpperRun(s[1..]) else ""
  }

  /** Group 1 of the first match of /\$?([A-Z]+)/ in `s`, or "" when there is no
      match (`?.[1] || ''`): the first maximal run of upper-case letters. */
  function TickerIn(s: string): (r: string)
    ensures forall i :: 0 <= i < |r| ==> IsUpperLetter(r[i])
    ensures r == "" <==> forall i :: 0 <= i < |s| ==> !IsUpperLetter(s[i])
  {
    if |s| == 0 then ""
    else if IsUpperLetter(s[0]) then UpperRun(s)
    else TickerIn(s[1..])
  }

  /** `i` is the index of the first upper-case letter of `s`. */
  predicate FirstUpperAt(s: string, i: int)
  {
    0 <= i < |s| && IsUpperLetter(s[i]) && forall k :: 0 <= k < i ==> !IsUpperLetter(s[k])
  }

  /** The ticker is taken from the post's text. */
  lemma {:induction false} TickerOccurs(s: string)
    ensures exists i :: OccursAt(s, TickerIn(s), i)
  {
    var r := TickerIn(s);
    if |s| == 0 {
      assert OccursAt(s, r, 0);
    } else if IsUpperLetter(s[0]) {
      assert OccursAt(s, r, 0);
    } else {
      TickerOccurs(s[1..]);
      var i :| OccursAt(s[1..], r, i);
      OccursShift(s, r, i + 1);
    }
  }

  /** The ticker is the whole run of upper-case letters that starts at the
      first upper-case letter of the text (the first match of the pattern). */
  lemma {:induction false} TickerIsFirstRun(s: string, i: int)
    requires FirstUpperAt(s, i)
    ensures OccursAt(s, TickerIn(s), i)
    ensures i + |TickerIn(s)| == |s| || !IsUpperLetter(s[i + |TickerIn(s)|])
  {
    var r := TickerIn(s);
    if i == 0 {
      assert OccursAt(s, r, 0);
    } else {
      assert !IsUpperLetter(s[0]);
      assert FirstUpperAt(s[1..], i - 1);
      TickerIsFirstRun(s[1..], i - 1);
      OccursShift(s, r, i);
      assert i + |r| == |s| || s[i + |r|] == s[1..][i - 1 + |r|];
    }
  }

  /** The length JavaScript's `.length` reports: UTF-16 code units, two for a
      character outside the Basic Multilingual Plane. */
  function Utf16Length(s: string): (n: nat)
    ensures |s| <= n <= 2 * |s|
  {
    if |s| == 0 then 0
    else Utf16Length(s[..|s| - 1]) + (if s[|s| - 1] as int > 0xFFFF then 2 else 1)
  }

  /** The UTF-16 length equals the number of characters exactly when no
      character lies outside the Basic Multilingual Plane. */
  lemma {:induction false} Utf16LengthIsCount(s: string)
    ensures Utf16Length(s) == |s| <==> forall i :: 0 <= i < |s| ==> s[i] as int <= 0xFFFF
  {
    if |s| > 0 {
      var front := s[..|s| - 1];
      Utf16LengthIsCount(front);
      assert forall i :: 0 <= i < |front| ==> front[i] == s[i];
    }
  }
}
