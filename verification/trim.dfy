/** Python's `str.strip()` called without arguments: the string with every
    leading and trailing whitespace character removed. */
module Trim {

  /** Python's `str.isspace()` for a single character: the Unicode white-space
      characters, together with the four ASCII information separators
      U+001C..U+001F that Python also treats as white space. */
  predicate IsSpace(c: char) {
    || ('\t' <= c <= '\r')
    || ('\U{001C}' <= c <= '\U{001F}')
    || c == ' '
    || c == '\U{0085}'
    || c == '\U{00A0}'
    || c == '\U{1680}'
    || ('\U{2000}' <= c <= '\U{200A}')
    || c == '\U{2028}'
    || c == '\U{2029}'
    || c == '\U{202F}'
    || c == '\U{205F}'
    || c == '\U{3000}'
  }

  predicate AllSpace(s: string) {
    forall i | 0 <= i < |s| :: IsSpace(s[i])
  }

  /** Every character of `s` at an index in [lo, hi) is white space. */
  predicate AllSpaceIn(s: string, lo: int, hi: int) {
    forall k | lo <= k < hi && 0 <= k < |s| :: IsSpace(s[k])
  }

  /** Neither the first nor the last character is white space. */
  predicate Trimmed(s: string) {
    s == [] || (!IsSpace(s[0]) && !IsSpace(s[|s| - 1]))
  }

  /** `t` occurs in `s` at index `i`, and everything before and after that
      occurrence is white space. */
  predicate CutAt(s: string, t: string, i: int) {
    && 0 <= i && i + |t| <= |s|
    && (forall k | 0 <= k < |t| :: s[i + k] == t[k])
    && AllSpaceIn(s, 0, i)
    && AllSpaceIn(s, i + |t|, |s|)
  }

  /** `t` is obtained from `s` by cutting away a white-space prefix and a
      white-space suffix. */
  ghost predicate CoreOf(s: string, t: string) {
    exists i :: CutAt(s, t, i)
  }

  /** The index of the first non-space character of `s` at or after `i`
      (`|s|` when there is none). */
  function SkipSpace(s: string, i: nat): (j: nat)
    requires i <= |s|
    ensures i <= j <= |s|
    ensures AllSpaceIn(s, i, j)
    ensures j == |s| || !IsSpace(s[j])
    decreases |s| - i
  {
    if i < |s| && IsSpace(s[i]) then SkipSpace(s, i + 1) else i
  }

  /** The index just past the last non-space character of `s` before `j`
      and not before `lo` (`lo` when there is none). */
  function SkipSpaceBack(s: string, lo: nat, j: nat): (k: nat)
    requires lo <= j <= |s|
    ensures lo <= k <= j
    ensures AllSpaceIn(s, k, j)
    ensures k == lo || !IsSpace(s[k - 1])
  {
    if lo < j && IsSpace(s[j - 1]) then SkipSpaceBack(s, lo, j - 1) else j
  }

  /** `str.strip()`. */
  function Strip(s: string): (r: string)
    ensures Trimmed(r)
    ensures CoreOf(s, r)
  {
    var i := SkipSpace(s, 0);
    var j := SkipSpaceBack(s, i, |s|);
    assert CutAt(s, s[i..j], i);
    s[i..j]
  }

  /** There is only one trimmed core of a string: any trimmed `t` left over
      after cutting white space from both ends of `s` is `Strip(s)`. */
  lemma StripUnique(s: string, t: string)
    requires Trimmed(t) && CoreOf(s, t)
    ensures Strip(s) == t
  {
    var r := Strip(s);
    var i :| CutAt(s, t, i);
    var j :| CutAt(s, r, j);
    if t != [] && r != [] {
      assert s[i + 0] == t[0] && s[j + 0] == r[0];
      assert i == j;
      assert s[i + |t| - 1] == t[|t| - 1] && s[j + |r| - 1] == r[|r| - 1];
      assert |t| == |r|;
      assert forall k | 0 <= k < |t| :: t[k] == s[i + k] == r[k];
    }
  }

  /** A string that is already trimmed is left alone. */
  lemma StripTrimmed(s: string)
    requires Trimmed(s)
    ensures Strip(s) == s
  {
    assert CutAt(s, s, 0) by { assert forall k | 0 <= k < |s| :: s[0 + k] == s[k]; }
    StripUnique(s, s);
  }

  /** Stripping twice is stripping once. */
  lemma StripIdempotent(s: string)
    ensures Strip(Strip(s)) == Strip(s)
  {
    StripTrimmed(Strip(s));
  }

  /** White space added before or after a string does not change what strip() returns. */
  lemma StripIgnoresPadding(p: string, s: string, q: string)
    requires AllSpace(p) && AllSpace(q)
    ensures Strip(p + s + q) == Strip(s)
  {
    var r := Strip(s);
    var i :| CutAt(s, r, i);
    var padded := p + s + q;
    assert forall k | 0 <= k < |s| :: padded[|p| + k] == s[k];
    assert forall k | 0 <= k < |r| :: padded[|p| + i + k] == r[k] by {
      forall k | 0 <= k < |r| ensures padded[|p| + i + k] == r[k] {
        assert padded[|p| + (i + k)] == s[i + k];
      }
    }
    assert AllSpaceIn(padded, 0, |p| + i) by {
      forall k | 0 <= k < |p| + i ensures IsSpace(padded[k]) {
        if k >= |p| { assert padded[|p| + (k - |p|)] == s[k - |p|]; }
      }
    }
    assert AllSpaceIn(padded, |p| + i + |r|, |padded|) by {
      forall k | |p| + i + |r| <= k < |padded| ensures IsSpace(padded[k]) {
        if k < |p| + |s| { assert padded[|p| + (k - |p|)] == s[k - |p|]; }
        else { assert padded[k] == q[k - |p| - |s|]; }
      }
    }
    assert CutAt(padded, r, |p| + i);
    StripUnique(padded, r);
  }
}
