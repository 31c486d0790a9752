/** Case-insensitive text search, the meaning of `new RegExp(search, "i")` for
    a search text without regular-expression metacharacters. Case folding
    covers the ASCII letters only. */
module Text {

  /** ASCII lower-casing of one character; every other character is kept. */
  function LowerChar(c: char): (r: char)
    ensures !('A' <= r <= 'Z')
    ensures 'a' <= c <= 'z' ==> r == c
  {
    if 'A' <= c <= 'Z' then (c as int + 32) as char else c
  }

  /** ASCII lower-casing of a string, character by character. */
  function Lower(s: string): (r: string)
    ensures |r| == |s|
  {
    seq(|s|, i requires 0 <= i < |s| => LowerChar(s[i]))
  }

  /** Lower-casing twice is lower-casing once. */
  lemma LowerIdempotent(s: string)
    ensures Lower(Lower(s)) == Lower(s)
  {
  }

  predicate IsPrefix(p: string, s: string)
  {
    |p| <= |s| && s[..|p|] == p
  }

  /** `p` occurs somewhere in `s`. */
  predicate IsInfix(p: string, s: string)
    decreases |s|
  {
    IsPrefix(p, s) || (|s| > 0 && IsInfix(p, s[1..]))
  }

  /** `IsInfix` holds exactly when `p` starts at some offset of `s`. */
  lemma {:induction false} InfixAtOffset(p: string, s: string)
    ensures IsInfix(p, s) <==> exists k :: 0 <= k <= |s| && IsPrefix(p, s[k..])
    decreases |s|
  {
    assert s[0..] == s;
    if |s| > 0 {
      InfixAtOffset(p, s[1..]);
      if exists k :: 0 <= k <= |s| && IsPrefix(p, s[k..]) {
        var k :| 0 <= k <= |s| && IsPrefix(p, s[k..]);
        if k > 0 {
          assert s[1..][k - 1..] == s[k..];
        }
      }
      if IsInfix(p, s[1..]) {
        var k :| 0 <= k <= |s[1..]| && IsPrefix(p, s[1..][k..]);
        assert s[1..][k..] == s[k + 1..];
        assert IsPrefix(p, s[k + 1..]);
      }
    }
  }

  /** An occurrence is no longer than the text it occurs in. */
  lemma {:induction false} InfixNoLonger(p: string, s: string)
    ensures IsInfix(p, s) ==> |p| <= |s|
    decreases |s|
  {
    if |s| > 0 {
      InfixNoLonger(p, s[1..]);
    }
  }

  /** The search text occurs in `text`, ignoring ASCII case. The empty text
      occurs everywhere, and a match is never longer than the searched text. */
  predicate ContainsIgnoreCase(text: string, pattern: string)
    ensures pattern == "" ==> ContainsIgnoreCase(text, pattern)
    ensures ContainsIgnoreCase(text, pattern) ==> |pattern| <= |text|
  {
    InfixNoLonger(Lower(pattern), Lower(text));
    IsInfix(Lower(pattern), Lower(text))
  }

  /** The case of the search text does not matter. */
  lemma PatternCaseIrrelevant(text: string, pattern: string)
    ensures ContainsIgnoreCase(text, pattern) <==> ContainsIgnoreCase(text, Lower(pattern))
  {
    LowerIdempotent(pattern);
  }

  /** Nor does the case of the searched text. */
  lemma TextCaseIrrelevant(text: string, pattern: string)
    ensures ContainsIgnoreCase(text, pattern) <==> ContainsIgnoreCase(Lower(text), pattern)
  {
    LowerIdempotent(text);
  }
}
