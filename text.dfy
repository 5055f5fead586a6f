/** The three string primitives the idea wall relies on: JavaScript's
    `String.prototype.trim`, `toLowerCase` (ASCII letters only in this model)
    and `includes`. */
module Text {

  /** JavaScript's WhiteSpace and LineTerminator code points: exactly what
      `trim` strips from both ends of a string. */
  predicate IsWhitespace(c: char) {
    c == '\U{9}' || c == '\U{B}' || c == '\U{C}' || c == ' ' ||
    c == '\U{A0}' || c == '\U{FEFF}' || c == '\U{1680}' ||
    ('\U{2000}' <= c <= '\U{200A}') ||
    c == '\U{202F}' || c == '\U{205F}' || c == '\U{3000}' ||
    c == '\U{A}' || c == '\U{D}' || c == '\U{2028}' || c == '\U{2029}'
  }

  /** A string made of whitespace only (the empty string included). */
  predicate IsBlank(s: string) {
    forall i :: 0 <= i < |s| ==> IsWhitespace(s[i])
  }

  /** The index of the first non-whitespace character at or after `from`,
      or `|s|` when there is none. */
  function SkipLeading(s: string, from: nat): (k: nat)
    requires from <= |s|
    ensures from <= k <= |s|
    ensures forall i :: from <= i < k ==> IsWhitespace(s[i])
    ensures k < |s| ==> !IsWhitespace(s[k])
    decreases |s| - from
  {
    if from < |s| && IsWhitespace(s[from]) then SkipLeading(s, from + 1) else from
  }

  /** The end of `s[lo..upto]` once the whitespace at its end is dropped. */
  function SkipTrailing(s: string, lo: nat, upto: nat): (k: nat)
    requires lo <= upto <= |s|
    ensures lo <= k <= upto
    ensures forall i :: k <= i < upto ==> IsWhitespace(s[i])
    ensures k > lo ==> !IsWhitespace(s[k - 1])
    decreases upto
  {
    if lo < upto && IsWhitespace(s[upto - 1]) then SkipTrailing(s, lo, upto - 1) else upto
  }

  /** `s.trim()`: the slice of `s` between its leading and trailing whitespace. */
  function Trim(s: string): (r: string)
    ensures r == [] <==> IsBlank(s)
    ensures r != [] ==> !IsWhitespace(r[0]) && !IsWhitespace(r[|r| - 1])
    ensures exists lo, hi :: 0 <= lo <= hi <= |s| && r == s[lo..hi] && IsBlank(s[..lo]) && IsBlank(s[hi..])
  {
    var lo := SkipLeading(s, 0);
    var hi := SkipTrailing(s, lo, |s|);
    assert lo < hi ==> s[lo..hi][0] == s[lo];
    assert IsBlank(s[..lo]) && IsBlank(s[hi..]);
    s[lo..hi]
  }

  /** Lower-casing of one character; only the ASCII letters A-Z change. */
  function LowerChar(c: char): char {
    if 'A' <= c <= 'Z' then (c as int + 32) as char else c
  }

  /** `s.toLowerCase()` restricted to ASCII letters. */
  function Lower(s: string): (r: string)
    ensures |r| == |s|
    ensures forall i :: 0 <= i < |s| ==> r[i] == LowerChar(s[i])
    ensures forall i :: 0 <= i < |r| ==> !('A' <= r[i] <= 'Z')
  {
    seq(|s|, i requires 0 <= i < |s| => LowerChar(s[i]))
  }

  /** Lower-casing twice is lower-casing once. */
  lemma LowerIdempotent(s: string)
    ensures Lower(Lower(s)) == Lower(s)
  {
    forall i | 0 <= i < |s| ensures Lower(Lower(s))[i] == Lower(s)[i] {
    }
  }

  /** `needle` occurs in `hay` starting at position `i`. */
  predicate OccursAt(hay: string, needle: string, i: int) {
    0 <= i && i + |needle| <= |hay| && hay[i..i + |needle|] == needle
  }

  /** `hay.includes(needle)`; the empty needle is contained in every string. */
  predicate Contains(hay: string, needle: string) {
    exists i :: 0 <= i <= |hay| - |needle| && OccursAt(hay, needle, i)
  }

  /** What `includes` promises at the edges: the empty needle is always
      found, a needle longer than the text never is, and a prefix always is. */
  lemma ContainsBasics(hay: string, needle: string)
    ensures needle == [] ==> Contains(hay, needle)
    ensures Contains(hay, needle) ==> |needle| <= |hay|
    ensures OccursAt(hay, needle, 0) ==> Contains(hay, needle)
  {
    assert needle == [] ==> OccursAt(hay, needle, 0);
  }

  /** Lower-casing never turns whitespace into something else or back. */
  lemma LowerCharKeepsWhitespace(c: char)
    ensures IsWhitespace(LowerChar(c)) <==> IsWhitespace(c)
  {
  }

  /** Two strings that lower-case alike are both blank or both not. */
  lemma {:induction false} SameLowerSameBlank(a: string, b: string)
    requires Lower(a) == Lower(b)
    ensures IsBlank(a) <==> IsBlank(b)
  {
    assert |a| == |b|;
    forall i | 0 <= i < |a|
      ensures IsWhitespace(a[i]) <==> IsWhitespace(b[i])
    {
      assert Lower(a)[i] == Lower(b)[i];
      LowerCharKeepsWhitespace(a[i]);
      LowerCharKeepsWhitespace(b[i]);
    }
  }
}
