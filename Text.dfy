/** The JavaScript string operations the board and the form rely on:
    `trim`, `toLowerCase` and `includes`. */
module Text {

  /** ECMAScript WhiteSpace and LineTerminator code points, the set `String.prototype.trim` removes. */
  predicate IsWhitespace(c: char) {
    c == '\t' || c == '\n' || c == '\U{000B}' || c == '\U{000C}' || c == '\r' || c == ' ' ||
    c == '\U{00A0}' || c == '\U{1680}' || ('\U{2000}' <= c <= '\U{200A}') ||
    c == '\U{2028}' || c == '\U{2029}' || c == '\U{202F}' || c == '\U{205F}' ||
    c == '\U{3000}' || c == '\U{FEFF}'
  }

  predicate AllWhitespace(s: string) {
    forall k :: 0 <= k < |s| ==> IsWhitespace(s[k])
  }

  /** The number of whitespace characters `s` starts with. */
  function LeadingWhitespace(s: string): (n: nat)
    ensures n <= |s|
    ensures forall k :: 0 <= k < n ==> IsWhitespace(s[k])
    ensures n < |s| ==> !IsWhitespace(s[n])
  {
    if s != [] && IsWhitespace(s[0]) then
      var n := LeadingWhitespace(s[1..]);
      assert forall k :: 1 <= k <= n ==> s[k] == s[1..][k - 1];
      n + 1
    else 0
  }

  /** The number of whitespace characters `s` ends with. */
  function TrailingWhitespace(s: string): (n: nat)
    ensures n <= |s|
    ensures forall k :: |s| - n <= k < |s| ==> IsWhitespace(s[k])
    ensures n < |s| ==> !IsWhitespace(s[|s| - n - 1])
  {
    if s != [] && IsWhitespace(s[|s| - 1]) then
      var n := TrailingWhitespace(s[..|s| - 1]);
      assert forall k :: 0 <= k < |s| - 1 ==> s[k] == s[..|s| - 1][k];
      n + 1
    else 0
  }

  /** `String.prototype.trim`: the part of `s` between its leading and trailing whitespace. */
  function Trim(s: string): string {
    var t := s[LeadingWhitespace(s)..];
    t[..|t| - TrailingWhitespace(t)]
  }

  /** `trim` cuts a slice `s[i..j]` out of `s`; everything outside it is whitespace and the
      slice neither starts nor ends with whitespace. */
  lemma TrimIsSlice(s: string) returns (i: nat, j: nat)
    ensures i <= j <= |s| && Trim(s) == s[i..j]
    ensures forall k :: 0 <= k < i || j <= k < |s| ==> IsWhitespace(s[k])
    ensures i < j ==> !IsWhitespace(s[i]) && !IsWhitespace(s[j - 1])
  {
    i := LeadingWhitespace(s);
    var t := s[i..];
    var m := TrailingWhitespace(t);
    j := |s| - m;
    assert Trim(s) == t[..|t| - m] == s[i..j];
    forall k | j <= k < |s| ensures IsWhitespace(s[k]) {
      assert t[k - i] == s[k];
    }
    if i < j {
      assert t[|t| - m - 1] == s[j - 1];
    }
  }

  /** A string trims to the empty string exactly when it is entirely whitespace. */
  lemma TrimEmptyIff(s: string)
    ensures Trim(s) == "" <==> AllWhitespace(s)
  {
    var i, j := TrimIsSlice(s);
    if Trim(s) == "" {
      assert i == j;
    } else {
      assert !IsWhitespace(s[i]);
    }
  }

  lemma TrimIdempotent(s: string)
    ensures Trim(Trim(s)) == Trim(s)
  {
    var t := Trim(s);
    var i, j := TrimIsSlice(s);
    if t != [] {
      assert t[0] == s[i] && t[|t| - 1] == s[j - 1];
      assert LeadingWhitespace(t) == 0;
      assert TrailingWhitespace(t[0..]) == 0;
    }
  }

  /** ASCII lower-casing of one character. */
  function LowerChar(c: char): char {
    if 'A' <= c <= 'Z' then (c as int + 32) as char else c
  }

  /** `String.prototype.toLowerCase`, restricted to the ASCII letters. */
  function ToLower(s: string): (r: string)
    ensures |r| == |s|
    ensures forall k :: 0 <= k < |s| ==> !('A' <= r[k] <= 'Z')
    ensures forall k :: 0 <= k < |s| ==>
      if 'A' <= s[k] <= 'Z' then r[k] as int == s[k] as int + 32 else r[k] == s[k]
  {
    seq(|s|, k requires 0 <= k < |s| => LowerChar(s[k]))
  }

  lemma ToLowerIdempotent(s: string)
    ensures ToLower(ToLower(s)) == ToLower(s)
  {
  }

  /** Two characters that are equal, or are the upper- and lower-case forms of one ASCII letter. */
  predicate SameLetterIgnoringCase(c: char, d: char) {
    c == d ||
    ('A' <= c <= 'Z' && d as int == c as int + 32) ||
    ('A' <= d <= 'Z' && c as int == d as int + 32)
  }

  /** Lower-casing identifies two strings exactly when they agree character by character up to
      ASCII letter case. */
  lemma ToLowerEqualIff(a: string, b: string)
    ensures ToLower(a) == ToLower(b) <==>
      |a| == |b| && forall k :: 0 <= k < |a| ==> SameLetterIgnoringCase(a[k], b[k])
  {
    if |a| == |b| && forall k :: 0 <= k < |a| ==> SameLetterIgnoringCase(a[k], b[k]) {
      assert forall k :: 0 <= k < |a| ==> ToLower(a)[k] == ToLower(b)[k];
    }
    if ToLower(a) == ToLower(b) {
      forall k | 0 <= k < |a| ensures SameLetterIgnoringCase(a[k], b[k]) {
        assert ToLower(a)[k] == ToLower(b)[k];
      }
    }
  }

  /** `needle` occurs in `s` at position `i`. */
  predicate OccursAt(s: string, needle: string, i: int) {
    0 <= i && i + |needle| <= |s| && s[i..i + |needle|] == needle
  }

  /** `String.prototype.includes`. */
  predicate Includes(s: string, needle: string)
    decreases |s|
  {
    (|needle| <= |s| && s[..|needle|] == needle) || (s != [] && Includes(s[1..], needle))
  }

  /** `includes` holds exactly when the needle occurs at some position. */
  lemma {:induction false} IncludesIff(s: string, needle: string)
    ensures Includes(s, needle) <==> exists i :: OccursAt(s, needle, i)
    decreases |s|
  {
    if |needle| <= |s| && s[..|needle|] == needle {
      assert OccursAt(s, needle, 0);
    } else if s == [] {
    } else {
      IncludesIff(s[1..], needle);
      if exists i :: OccursAt(s[1..], needle, i) {
        var i :| OccursAt(s[1..], needle, i);
        assert s[1..][i..i + |needle|] == s[i + 1..i + 1 + |needle|];
        assert OccursAt(s, needle, i + 1);
      }
      if exists i :: OccursAt(s, needle, i) {
        var i :| OccursAt(s, needle, i);
        assert i != 0;
        assert s[1..][i - 1..i - 1 + |needle|] == s[i..i + |needle|];
        assert OccursAt(s[1..], needle, i - 1);
      }
    }
  }

  /** Every string includes the empty string. */
  lemma IncludesEmpty(s: string)
    ensures Includes(s, "")
  {
    assert s[..0] == "";
  }
}
