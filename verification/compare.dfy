/** The test comparator: actual and expected output agree when they are equal
    once leading and trailing white space is stripped from both. */
module Compare {
  import opened Trim

  /** `compare_output(user_output, expected_output)`. */
  predicate CompareOutput(actual: string, expected: string) {
    Strip(actual) == Strip(expected)
  }

  /** Two outputs agree exactly when they share a trimmed core: cutting white
      space from the ends of each can leave the same white-space-free-ended text. */
  lemma CompareMeansCommonCore(actual: string, expected: string)
    ensures CompareOutput(actual, expected) <==>
            exists t :: Trimmed(t) && CoreOf(actual, t) && CoreOf(expected, t)
  {
    if exists t :: Trimmed(t) && CoreOf(actual, t) && CoreOf(expected, t) {
      var t :| Trimmed(t) && CoreOf(actual, t) && CoreOf(expected, t);
      StripUnique(actual, t);
      StripUnique(expected, t);
    }
  }

  /** Agreement is an equivalence: reflexive, symmetric and transitive. */
  lemma CompareIsEquivalence(a: string, b: string, c: string)
    ensures CompareOutput(a, a)
    ensures CompareOutput(a, b) <==> CompareOutput(b, a)
    ensures CompareOutput(a, b) && CompareOutput(b, c) ==> CompareOutput(a, c)
  {
  }

  /** White space added around either side never changes the answer. */
  lemma CompareIgnoresPadding(actual: string, expected: string, p: string, q: string)
    requires AllSpace(p) && AllSpace(q)
    ensures CompareOutput(p + actual + q, expected) == CompareOutput(actual, expected)
    ensures CompareOutput(actual, p + expected + q) == CompareOutput(actual, expected)
  {
    StripIgnoresPadding(p, actual, q);
    StripIgnoresPadding(p, expected, q);
  }

  /** A program printing "5" and a newline passes against "5". */
  lemma CompareTrailingNewline()
    ensures CompareOutput("5\n", "5")
  {
    assert Trimmed("5");
    StripTrimmed("5");
    assert AllSpace("\n");
    StripIgnoresPadding("", "5", "\n");
    assert "" + "5" + "\n" == "5\n";
  }

  /** Different trimmed texts do not match: "a" against "b" fails. */
  lemma CompareDistinct()
    ensures !CompareOutput("a", "b")
  {
    assert Trimmed("a") && Trimmed("b");
    StripTrimmed("a");
    StripTrimmed("b");
  }
}
