/** Python's `s.replace(old, new)` for a non-empty `old`: scanning from the
    left, every non-overlapping occurrence of `old` is replaced by `new`. */
module Substitute {

  /** `pat` occurs in `s` starting at index `i`. */
  predicate At(s: string, pat: string, i: int) {
    0 <= i && i + |pat| <= |s| && s[i..i + |pat|] == pat
  }

  predicate Occurs(s: string, pat: string) {
    exists i | 0 <= i <= |s| - |pat| :: At(s, pat, i)
  }

  /** The first character of `pat` does not recur later in it, so two
      occurrences of `pat` can never overlap. */
  predicate HeadUnique(pat: string) {
    |pat| > 0 && forall j | 0 < j < |pat| :: pat[j] != pat[0]
  }

  /** `s.replace(pat, rep)`. */
  function Replace(s: string, pat: string, rep: string): string
    requires |pat| > 0
  {
    if |pat| <= |s| && s[..|pat|] == pat then rep + Replace(s[|pat|..], pat, rep)
    else if |s| == 0 then ""
    else [s[0]] + Replace(s[1..], pat, rep)
  }

  /** A pattern absent from a string is absent from its tail. */
  lemma AbsentFromTail(s: string, pat: string)
    requires |s| > 0 && !Occurs(s, pat)
    ensures !Occurs(s[1..], pat)
  {
    var t := s[1..];
    forall i | 0 <= i <= |t| - |pat|
      ensures !At(t, pat, i)
    {
      if At(t, pat, i) {
        assert t[i..i + |pat|] == s[i + 1..i + 1 + |pat|];
        assert At(s, pat, i + 1);
        assert false;
      }
    }
  }

  /** Without an occurrence of the pattern nothing is replaced. */
  lemma {:induction false} ReplaceAbsent(s: string, pat: string, rep: string)
    requires |pat| > 0 && !Occurs(s, pat)
    ensures Replace(s, pat, rep) == s
  {
    assert !At(s, pat, 0);
    if |s| > 0 {
      AbsentFromTail(s, pat);
      ReplaceAbsent(s[1..], pat, rep);
    }
  }

  /** A trailing occurrence that is the only one, as in a file name ending in
      its extension, is the one that gets replaced. */
  lemma {:induction false} ReplaceSuffix(stem: string, pat: string, rep: string)
    requires HeadUnique(pat) && !Occurs(stem, pat)
    ensures Replace(stem + pat, pat, rep) == stem + rep
  {
    var s := stem + pat;
    if |stem| == 0 {
      assert s == pat;
      assert s[|pat|..] == [];
    } else {
      // The pattern does not start at the head of s: either it would lie
      // inside the stem, or its first character would recur inside it.
      if |stem| >= |pat| {
        assert s[..|pat|] == stem[0..|pat|];
        assert !At(stem, pat, 0);
      } else {
        assert s[|stem|] == pat[0] != pat[|stem|];
      }
      assert !(|pat| <= |s| && s[..|pat|] == pat);
      assert s[0] == stem[0];
      assert s[1..] == stem[1..] + pat;
      AbsentFromTail(stem, pat);
      ReplaceSuffix(stem[1..], pat, rep);
      assert [stem[0]] + stem[1..] == stem;
    }
  }
}
