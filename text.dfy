/**
 * `trimmingCharacters(in: .whitespaces)`: removal of leading and trailing
 * characters of `CharacterSet.whitespaces` (the tab and the Unicode space
 * separators, category Zs). Line breaks are not in that set and are kept.
 */
module Text {

  /** Membership in `CharacterSet.whitespaces`: U+0009 and the characters of category Zs. */
  predicate IsWhitespace(c: char) {
    || c == '\t'
    || c == ' '
    || c == '\U{00A0}'
    || c == '\U{1680}'
    || ('\U{2000}' <= c <= '\U{200A}')
    || c == '\U{202F}'
    || c == '\U{205F}'
    || c == '\U{3000}'
  }

  /** Every character of `s` is whitespace. */
  predicate AllWhitespace(s: string) {
    forall k :: 0 <= k < |s| ==> IsWhitespace(s[k])
  }

  /** Neither end of `s` is whitespace; the empty string is trimmed. */
  predicate Trimmed(s: string) {
    s == [] || (!IsWhitespace(s[0]) && !IsWhitespace(s[|s| - 1]))
  }

  /** `s` without its leading whitespace. */
  function TrimStart(s: string): string {
    if s != [] && IsWhitespace(s[0]) then TrimStart(s[1..]) else s
  }

  /** `s` without its trailing whitespace. */
  function TrimEnd(s: string): string {
    if s != [] && IsWhitespace(s[|s| - 1]) then TrimEnd(s[..|s| - 1]) else s
  }

  /** `TrimStart` cuts off a whitespace-only prefix and stops at the first other character. */
  lemma {:induction false} TrimStartIsSuffix(s: string)
    ensures |TrimStart(s)| <= |s|
    ensures TrimStart(s) == s[|s| - |TrimStart(s)|..]
    ensures AllWhitespace(s[..|s| - |TrimStart(s)|])
    ensures TrimStart(s) == [] || !IsWhitespace(TrimStart(s)[0])
  {
    if s != [] && IsWhitespace(s[0]) {
      TrimStartIsSuffix(s[1..]);
      var m := |s| - |TrimStart(s)|;
      assert s[1..][m - 1..] == s[m..];
      forall k | 0 <= k < m ensures IsWhitespace(s[..m][k]) {
        if k > 0 {
          assert s[..m][k] == s[1..][..m - 1][k - 1];
        }
      }
    }
  }

  /** `TrimEnd` cuts off a whitespace-only suffix and stops at the last other character. */
  lemma {:induction false} TrimEndIsPrefix(s: string)
    ensures |TrimEnd(s)| <= |s|
    ensures TrimEnd(s) == s[..|TrimEnd(s)|]
    ensures AllWhitespace(s[|TrimEnd(s)|..])
    ensures TrimEnd(s) == [] || !IsWhitespace(TrimEnd(s)[|TrimEnd(s)| - 1])
  {
    if s != [] && IsWhitespace(s[|s| - 1]) {
      var t := s[..|s| - 1];
      TrimEndIsPrefix(t);
      var m := |TrimEnd(s)|;
      assert t[..m] == s[..m];
      forall k | 0 <= k < |s| - m ensures IsWhitespace(s[m..][k]) {
        if m + k < |s| - 1 {
          assert s[m..][k] == t[m..][k];
        }
      }
    }
  }

  /** `s.trimmingCharacters(in: .whitespaces)`. */
  function Trim(s: string): (r: string)
    ensures Trimmed(r)
  {
    TrimStartIsSuffix(s);
    TrimEndIsPrefix(TrimStart(s));
    TrimEnd(TrimStart(s))
  }

  /**
   * What trimming keeps: the result is what is left of `s` after a
   * whitespace-only prefix and a whitespace-only suffix are cut off.
   */
  lemma TrimIsInfix(s: string)
    ensures exists lo, hi :: 0 <= lo <= hi <= |s| && Trim(s) == s[lo..hi]
                          && AllWhitespace(s[..lo]) && AllWhitespace(s[hi..])
  {
    var t := TrimStart(s);
    TrimStartIsSuffix(s);
    TrimEndIsPrefix(t);
    var lo := |s| - |t|;
    var hi := lo + |Trim(s)|;
    assert Trim(s) == s[lo..hi];
    assert s[hi..] == t[|Trim(s)|..];
  }

  /** Trimming a string that is already trimmed changes nothing; so trimming is idempotent. */
  lemma TrimOfTrimmed(s: string)
    requires Trimmed(s)
    ensures Trim(s) == s
  {
  }

  /** A string trims to the empty string exactly when it is all whitespace. */
  lemma TrimEmptyIff(s: string)
    ensures Trim(s) == [] <==> AllWhitespace(s)
  {
    var t := TrimStart(s);
    TrimStartIsSuffix(s);
    TrimEndIsPrefix(t);
    assert t != [] ==> t[0] == s[|s| - |t|];
    assert t == [] ==> s[..|s| - |t|] == s;
  }

  /** Surrounding spaces are cut off, and a string of spaces trims to the empty string. */
  lemma TrimExamples()
    ensures Trim(" Sugar ") == "Sugar"
    ensures Trim("  ") == ""
  {
    assert TrimStart(" Sugar ") == "Sugar ";
    assert TrimEnd("Sugar ") == "Sugar";
    TrimEmptyIff("  ");
  }
}
