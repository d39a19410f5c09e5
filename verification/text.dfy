/** The two string operations of Python's `str` that the analyzer relies on:
    `strip()` before fingerprinting a line and `lower()` on every domain. */
module Text {

  /** Python's `str.isspace()`: exactly the characters `strip()` removes when
      called without arguments. */
  predicate IsSpace(c: char) {
    || c == ' '
    || '\t' <= c <= '\r'
    || '\U{1c}' <= c <= '\U{1f}'
    || c == '\U{85}'
    || c == '\U{a0}'
    || c == '\U{1680}'
    || '\U{2000}' <= c <= '\U{200a}'
    || c == '\U{2028}'
    || c == '\U{2029}'
    || c == '\U{202f}'
    || c == '\U{205f}'
    || c == '\U{3000}'
  }

  /** Number of whitespace characters at the front of `s`. */
  function Leading(s: string): (n: nat)
    ensures n <= |s|
    ensures forall k :: 0 <= k < n ==> IsSpace(s[k])
    ensures n < |s| ==> !IsSpace(s[n])
  {
    if |s| == 0 || !IsSpace(s[0]) then 0 else 1 + Leading(s[1..])
  }

  /** Number of whitespace characters at the end of `s`. */
  function Trailing(s: string): (n: nat)
    ensures n <= |s|
    ensures forall k :: |s| - n <= k < |s| ==> IsSpace(s[k])
    ensures n < |s| ==> !IsSpace(s[|s| - n - 1])
  {
    if |s| == 0 || !IsSpace(s[|s| - 1]) then 0 else 1 + Trailing(s[..|s| - 1])
  }

  /** Every character of `s` before `i` and from `j` on satisfies `ws`. */
  ghost predicate SpacesOutside(ws: char -> bool, s: string, i: int, j: int)
    requires 0 <= i <= j <= |s|
  {
    && (forall k :: 0 <= k < i ==> ws(s[k]))
    && (forall k :: j <= k < |s| ==> ws(s[k]))
  }

  /** `r` is `s` with the characters satisfying `ws` removed from both ends:
      an infix of `s` that neither starts nor ends with such a character,
      and everything cut away is such a character. */
  ghost predicate TrimmedBy(ws: char -> bool, r: string, s: string) {
    && (|r| > 0 ==> !ws(r[0]) && !ws(r[|r| - 1]))
    && exists i, j :: 0 <= i <= j <= |s| && r == s[i..j] && SpacesOutside(ws, s, i, j)
  }

  /** `r` is `s` with its surrounding whitespace removed. */
  ghost predicate StripOf(r: string, s: string) {
    TrimmedBy(IsSpace, r, s)
  }

  /** Python's `str.strip()` with no arguments. */
  function Strip(s: string): (r: string)
    ensures StripOf(r, s)
  {
    var i := Leading(s);
    var t := s[i..];
    var n := Trailing(t);
    var r := t[..|t| - n];
    assert r == s[i..i + |t| - n];
    assert SpacesOutside(IsSpace, s, i, i + |t| - n);
    r
  }

  /** There is only one way to trim a string. */
  lemma TrimmedUnique(ws: char -> bool, s: string, r1: string, r2: string)
    requires TrimmedBy(ws, r1, s) && TrimmedBy(ws, r2, s)
    ensures r1 == r2
  {
    var i1, j1 :| 0 <= i1 <= j1 <= |s| && r1 == s[i1..j1] && SpacesOutside(ws, s, i1, j1);
    var i2, j2 :| 0 <= i2 <= j2 <= |s| && r2 == s[i2..j2] && SpacesOutside(ws, s, i2, j2);
    assert |r1| > 0 ==> !ws(s[i1]) && !ws(s[j1 - 1]) by {
      if |r1| > 0 {
        SliceEnds(s, i1, j1);
      }
    }
    assert |r2| > 0 ==> !ws(s[i2]) && !ws(s[j2 - 1]) by {
      if |r2| > 0 {
        SliceEnds(s, i2, j2);
      }
    }
    SameSpan(ws, s, i1, j1, i2, j2);
  }

  lemma SliceEnds(s: string, i: int, j: int)
    requires 0 <= i < j <= |s|
    ensures s[i..j][0] == s[i] && s[i..j][j - i - 1] == s[j - 1]
  {
  }

  /** Two spans that each start and end outside `ws` (or are empty), outside
      which every character satisfies `ws`, are both empty or the same. */
  lemma SameSpan(ws: char -> bool, s: string, i1: int, j1: int, i2: int, j2: int)
    requires 0 <= i1 <= j1 <= |s| && SpacesOutside(ws, s, i1, j1)
    requires 0 <= i2 <= j2 <= |s| && SpacesOutside(ws, s, i2, j2)
    requires i1 < j1 ==> !ws(s[i1]) && !ws(s[j1 - 1])
    requires i2 < j2 ==> !ws(s[i2]) && !ws(s[j2 - 1])
    ensures (i1 == j1 && i2 == j2) || (i1 == i2 && j1 == j2)
  {
    if i1 < j1 {
      SpanWithin(ws, s, i1, j1, i2, j2);
    }
    if i2 < j2 {
      SpanWithin(ws, s, i2, j2, i1, j1);
    }
  }

  /** A span [a, b) that starts and ends outside `ws` lies inside any span
      [i, j) outside which every character of `s` satisfies `ws`. */
  lemma SpanWithin(ws: char -> bool, s: string, a: int, b: int, i: int, j: int)
    requires 0 <= a < b <= |s| && !ws(s[a]) && !ws(s[b - 1])
    requires 0 <= i <= j <= |s| && SpacesOutside(ws, s, i, j)
    ensures i <= a && b <= j
  {
  }

  lemma StripOfUnique(s: string, r1: string, r2: string)
    requires StripOf(r1, s) && StripOf(r2, s)
    ensures r1 == r2
  {
    TrimmedUnique(IsSpace, s, r1, r2);
  }

  /** Stripping twice is stripping once. */
  lemma StripIdempotent(s: string)
    ensures Strip(Strip(s)) == Strip(s)
  {
    var r := Strip(s);
    assert r == r[0..|r|] && SpacesOutside(IsSpace, r, 0, |r|);
    StripOfUnique(r, Strip(r), r);
  }

  /** Whitespace around a line never changes what `strip()` yields, so two
      lines that differ only in surrounding whitespace share a fingerprint. */
  lemma StripIgnoresPadding(pre: string, t: string, post: string)
    requires forall k :: 0 <= k < |pre| ==> IsSpace(pre[k])
    requires forall k :: 0 <= k < |post| ==> IsSpace(post[k])
    ensures Strip(pre + t + post) == Strip(t)
  {
    var u := pre + t + post;
    PaddedTrim(IsSpace, pre, t, post, Strip(t));
    StripOfUnique(u, Strip(u), Strip(t));
  }

  /** Trimming ignores extra trimmable characters on either side. */
  lemma PaddedTrim(ws: char -> bool, pre: string, t: string, post: string, r: string)
    requires forall k :: 0 <= k < |pre| ==> ws(pre[k])
    requires forall k :: 0 <= k < |post| ==> ws(post[k])
    requires TrimmedBy(ws, r, t)
    ensures TrimmedBy(ws, r, pre + t + post)
  {
    var u := pre + t + post;
    var i, j :| 0 <= i <= j <= |t| && r == t[i..j] && SpacesOutside(ws, t, i, j);
    MiddleSlice(pre, t, post, i, j);
    PaddedSpacesOutside(ws, pre, t, post, i, j);
  }

  lemma MiddleSlice(pre: string, t: string, post: string, i: int, j: int)
    requires 0 <= i <= j <= |t|
    ensures (pre + t + post)[|pre| + i..|pre| + j] == t[i..j]
  {
    var u := pre + t + post;
    forall k | 0 <= k < j - i
      ensures u[|pre| + i..|pre| + j][k] == t[i..j][k]
    {
      assert u[|pre| + i + k] == t[i + k];
    }
  }

  lemma PaddedSpacesOutside(ws: char -> bool, pre: string, t: string, post: string, i: int, j: int)
    requires forall k :: 0 <= k < |pre| ==> ws(pre[k])
    requires forall k :: 0 <= k < |post| ==> ws(post[k])
    requires 0 <= i <= j <= |t| && SpacesOutside(ws, t, i, j)
    ensures SpacesOutside(ws, pre + t + post, |pre| + i, |pre| + j)
  {
    var u := pre + t + post;
    forall k | 0 <= k < |pre| + i ensures ws(u[k]) {
      if k < |pre| {
        assert u[k] == pre[k];
      } else {
        assert u[k] == t[k - |pre|];
      }
    }
    forall k | |pre| + j <= k < |u| ensures ws(u[k]) {
      if k < |pre| + |t| {
        assert u[k] == t[k - |pre|];
      } else {
        assert u[k] == post[k - |pre| - |t|];
      }
    }
  }

  /** Upper-case ASCII letters. */
  predicate IsUpper(c: char) {
    'A' <= c <= 'Z'
  }

  function LowerChar(c: char): char {
    if IsUpper(c) then (c as int + 32) as char else c
  }

  /** No character of `s` is an upper-case letter. */
  predicate IsLower(s: string) {
    forall k :: 0 <= k < |s| ==> !IsUpper(s[k])
  }

  /** Python's `str.lower()`, restricted to ASCII letters. */
  function Lower(s: string): (r: string)
    ensures |r| == |s|
    ensures IsLower(r)
    ensures forall k :: 0 <= k < |s| && !IsUpper(s[k]) ==> r[k] == s[k]
    ensures forall k :: 0 <= k < |s| && IsUpper(s[k]) ==> r[k] as int == s[k] as int + 32
  {
    if |s| == 0 then [] else [LowerChar(s[0])] + Lower(s[1..])
  }

  /** Lower-casing a lower-case string changes nothing; in particular
      lower-casing twice is lower-casing once. */
  lemma LowerKeepsLower(s: string)
    requires IsLower(s)
    ensures Lower(s) == s
  {
  }

  lemma LowerIdempotent(s: string)
    ensures Lower(Lower(s)) == Lower(s)
  {
    LowerKeepsLower(Lower(s));
  }
}
