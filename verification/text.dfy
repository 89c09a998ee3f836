/**
 The two pieces of Python string behaviour the service relies on, over
 `string` (a sequence of Unicode scalar values):
 - `str.upper`, restricted to ASCII letters (`Upper`);
 - `str.strip()` with no argument, which removes the characters for which
   `str.isspace` holds from both ends (`Strip`).
 Plus the substring vocabulary (`OccursAt`, `StartsWith`, `EndsWith`) in
 which the letter renderer's properties are stated.
 */
module Text {

  /* ---------------------------------------------------------------------- */
  /* Substrings                                                              */
  /* ---------------------------------------------------------------------- */

  /** `sub` occurs in `s` starting at index `i`. */
  predicate OccursAt(s: string, sub: string, i: int) {
    0 <= i && i + |sub| <= |s| && s[i..i + |sub|] == sub
  }

  predicate StartsWith(s: string, prefix: string) {
    |prefix| <= |s| && s[..|prefix|] == prefix
  }

  predicate EndsWith(s: string, suffix: string) {
    |suffix| <= |s| && s[|s| - |suffix|..] == suffix
  }

  /** A string occurs in itself appended to anything, right after that thing. */
  lemma OccursAtEnd(a: string, m: string)
    ensures OccursAt(a + m, m, |a|)
  {
  }

  /** Appending text on the right keeps an occurrence where it was. */
  lemma OccursExtended(s: string, m: string, i: int, t: string)
    requires OccursAt(s, m, i)
    ensures OccursAt(s + t, m, i)
  {
  }

  /** An occurrence inside the middle of a three-part concatenation, shifted by the first part. */
  lemma OccursInside(a: string, x: string, c: string, m: string, i: int)
    requires OccursAt(x, m, i)
    ensures OccursAt(a + x + c, m, |a| + i)
  {
  }

  lemma StartsWithExtended(s: string, prefix: string, t: string)
    requires StartsWith(s, prefix)
    ensures StartsWith(s + t, prefix)
  {
  }

  lemma EndsWithAppended(s: string, t: string)
    ensures EndsWith(s + t, t)
  {
  }

  lemma EndsWithExtended(s: string, t: string, suffix: string)
    requires EndsWith(t, suffix)
    ensures EndsWith(s + t, suffix)
  {
  }

  /* ---------------------------------------------------------------------- */
  /* Whitespace and strip                                                    */
  /* ---------------------------------------------------------------------- */

  /**
   The characters Python's `str.isspace` accepts: the ASCII controls TAB
   through CR and FS through US, SPACE, NEL, NO-BREAK SPACE, OGHAM SPACE
   MARK, EN QUAD through HAIR SPACE, LINE and PARAGRAPH SEPARATOR, NARROW
   NO-BREAK SPACE, MEDIUM MATHEMATICAL SPACE and IDEOGRAPHIC SPACE.
   */
  predicate IsSpace(c: char): (b: bool)
    ensures b <==> c as int in PythonWhitespace
  {
    || ('\t' <= c <= '\r')
    || ('\U{001C}' <= c <= ' ')
    || c == '\U{0085}'
    || c == '\U{00A0}'
    || c == '\U{1680}'
    || ('\U{2000}' <= c <= '\U{200A}')
    || c == '\U{2028}'
    || c == '\U{2029}'
    || c == '\U{202F}'
    || c == '\U{205F}'
    || c == '\U{3000}'
  }

  /** The same 29 code points, listed one by one. */
  const PythonWhitespace: set<int> := {
    0x09, 0x0A, 0x0B, 0x0C, 0x0D, 0x1C, 0x1D, 0x1E, 0x1F, 0x20, 0x85, 0xA0, 0x1680,
    0x2000, 0x2001, 0x2002, 0x2003, 0x2004, 0x2005, 0x2006, 0x2007, 0x2008, 0x2009, 0x200A,
    0x2028, 0x2029, 0x202F, 0x205F, 0x3000
  }

  predicate AllSpace(s: string) {
    forall i :: 0 <= i < |s| ==> IsSpace(s[i])
  }

  /** Every character of `s` in the index range `lo..hi` is whitespace. */
  predicate SpaceBetween(s: string, lo: int, hi: int)
    requires 0 <= lo && hi <= |s|
  {
    forall i :: lo <= i < hi ==> IsSpace(s[i])
  }

  /**
   The left scan of `strip`: starting at `k`, moves right past whitespace and
   stops at the first non-whitespace character or at the end.
   */
  function SkipSpaceForward(s: string, k: nat): (e: nat)
    requires k <= |s|
    ensures k <= e <= |s|
    ensures SpaceBetween(s, k, e)
    ensures e < |s| ==> !IsSpace(s[e])
    decreases |s| - k
  {
    if k < |s| && IsSpace(s[k]) then SkipSpaceForward(s, k + 1) else k
  }

  /**
   The right scan of `strip`: starting at the end index `k`, moves left past
   whitespace but never below `lo`, and stops after the last non-whitespace
   character.
   */
  function SkipSpaceBackward(s: string, lo: nat, k: nat): (e: nat)
    requires lo <= k <= |s|
    ensures lo <= e <= k
    ensures SpaceBetween(s, e, k)
    ensures e > lo ==> !IsSpace(s[e - 1])
    decreases k - lo
  {
    if k > lo && IsSpace(s[k - 1]) then SkipSpaceBackward(s, lo, k - 1) else k
  }

  /**
   Python's `s.strip()`: the result is a contiguous slice of `s`, everything
   cut away on either side is whitespace, and the result neither starts nor
   ends with whitespace; it is empty exactly when `s` is all whitespace.
   */
  function Strip(s: string): (r: string)
    ensures |r| <= |s|
    ensures r != [] ==> !IsSpace(r[0]) && !IsSpace(r[|r| - 1])
    ensures exists i :: OccursAt(s, r, i) && SpaceBetween(s, 0, i) && SpaceBetween(s, i + |r|, |s|)
    ensures r == [] <==> AllSpace(s)
  {
    var lo := SkipSpaceForward(s, 0);
    var hi := SkipSpaceBackward(s, lo, |s|);
    assert OccursAt(s, s[lo..hi], lo);
    assert lo == hi ==> lo == |s|;
    s[lo..hi]
  }

  /** The forward scan started inside leading whitespace stops where that whitespace ends. */
  lemma SkipForwardOverSpaces(s: string, k: nat, n: nat)
    requires k <= n < |s|
    requires SpaceBetween(s, k, n) && !IsSpace(s[n])
    ensures SkipSpaceForward(s, k) == n
  {
  }

  /** The backward scan started inside trailing whitespace stops where that whitespace begins. */
  lemma SkipBackwardOverSpaces(s: string, lo: nat, k: nat, n: nat)
    requires lo < n <= k <= |s|
    requires SpaceBetween(s, n, k) && !IsSpace(s[n - 1])
    ensures SkipSpaceBackward(s, lo, k) == n
  {
  }

  /**
   Strip recovers the middle of `a + m + b` whenever the outer parts are
   whitespace and the middle begins and ends with a non-whitespace
   character, whatever the middle holds inside.
   */
  lemma StripSurrounded(a: string, m: string, b: string)
    requires AllSpace(a) && AllSpace(b)
    requires m != [] && !IsSpace(m[0]) && !IsSpace(m[|m| - 1])
    ensures Strip(a + m + b) == m
  {
    var s := a + m + b;
    var lo, hi := |a|, |a| + |m|;
    assert s[lo] == m[0] && s[hi - 1] == m[|m| - 1];
    assert SpaceBetween(s, 0, lo) by {
      forall i | 0 <= i < lo ensures IsSpace(s[i]) {
        assert s[i] == a[i];
      }
    }
    assert SpaceBetween(s, hi, |s|) by {
      forall i | hi <= i < |s| ensures IsSpace(s[i]) {
        assert s[i] == b[i - hi];
      }
    }
    SkipForwardOverSpaces(s, 0, lo);
    SkipBackwardOverSpaces(s, lo, |s|, hi);
    assert s[lo..hi] == m;
  }

  /** Stripping twice is the same as stripping once. */
  lemma StripIdempotent(s: string)
    ensures Strip(Strip(s)) == Strip(s)
  {
  }

  /* ---------------------------------------------------------------------- */
  /* ASCII upper case                                                        */
  /* ---------------------------------------------------------------------- */

  predicate IsAsciiLower(c: char) {
    'a' <= c <= 'z'
  }

  /** The upper-case form of a character: the same letter up to ASCII case, and never an ASCII lower-case letter. */
  function UpperChar(c: char): (u: char)
    ensures SameIgnoringAsciiCase(c, u) && !IsAsciiLower(u)
  {
    if IsAsciiLower(c) then (c as int - 32) as char else c
  }

  /** `str.upper` on ASCII letters; every other character is kept as it is. */
  function Upper(s: string): (r: string)
    ensures |r| == |s|
    ensures forall i :: 0 <= i < |s| ==> r[i] == UpperChar(s[i])
  {
    if s == [] then [] else [UpperChar(s[0])] + Upper(s[1..])
  }

  /** Two characters are the same letter in different ASCII case, or equal. */
  predicate SameIgnoringAsciiCase(x: char, y: char) {
    || x == y
    || (IsAsciiLower(x) && y as int == x as int - 32)
    || (IsAsciiLower(y) && x as int == y as int - 32)
  }

  predicate EqualIgnoringAsciiCase(a: string, b: string) {
    |a| == |b| && forall i :: 0 <= i < |a| ==> SameIgnoringAsciiCase(a[i], b[i])
  }

  lemma UpperCharAgrees(x: char, y: char)
    ensures SameIgnoringAsciiCase(x, y) <==> UpperChar(x) == UpperChar(y)
  {
  }

  /** Two strings have the same upper-case form exactly when they differ only in ASCII letter case. */
  lemma UpperAgrees(a: string, b: string)
    ensures EqualIgnoringAsciiCase(a, b) <==> Upper(a) == Upper(b)
  {
  }

  /** Upper-casing an upper-cased string changes nothing. */
  lemma UpperIdempotent(s: string)
    ensures Upper(Upper(s)) == Upper(s)
  {
  }
}
