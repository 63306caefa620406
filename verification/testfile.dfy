/** The test-file format: one test case per line; the line is stripped and
    split at single spaces, the last piece is the expected output and the
    other pieces, joined again with single spaces, are the input. */
module TestFile {
  import opened Trim
  import opened Tokens

  datatype TestCase = TestCase(input: string, expected: string)

  /** The test case one line of the file yields.  A line without a space
      after stripping, the empty line included, gives an empty input. */
  function ParseLine(line: string): (tc: TestCase)
    ensures ' ' !in tc.expected
    ensures ' ' in Strip(line) ==> tc.input + " " + tc.expected == Strip(line)
    ensures ' ' !in Strip(line) ==> tc.input == "" && tc.expected == Strip(line)
  {
    var stripped := Strip(line);
    var parts := Split(stripped, ' ');
    var n := |parts|;
    JoinSplit(stripped, ' ');
    SplitCount(stripped, ' ');
    if n >= 2 then
      assert parts == parts[..n - 1] + [parts[n - 1]];
      JoinSnoc(parts[..n - 1], parts[n - 1], " ");
      TestCase(Join(parts[..n - 1], " "), parts[n - 1])
    else
      TestCase(Join(parts[..n - 1], " "), parts[n - 1])
  }

  /** Reads the lines of a test file, one test case per line, in order. */
  method ParseTestFile(lines: seq<string>) returns (tests: seq<TestCase>)
    ensures |tests| == |lines|
    ensures forall k | 0 <= k < |lines| :: tests[k] == ParseLine(lines[k])
  {
    tests := [];
    for k := 0 to |lines|
      invariant |tests| == k
      invariant forall j | 0 <= j < k :: tests[j] == ParseLine(lines[j])
    {
      tests := tests + [ParseLine(lines[k])];
    }
  }

  /** A non-empty text with no white space in it. */
  predicate IsToken(s: string) {
    s != [] && forall i | 0 <= i < |s| :: !IsSpace(s[i])
  }

  /** Two ways of writing one string as text, a space, then a space-free
      last piece, are the same way. */
  lemma LastSpaceUnique(x: string, y: string, x': string, y': string)
    requires ' ' !in y && ' ' !in y'
    requires x + " " + y == x' + " " + y'
    ensures x == x' && y == y'
  {
    var s := x + " " + y;
    assert s[|x|] == ' ' && s[|x'|] == ' ';
    assert forall i | |x| < i < |s| :: s[i] == y[i - |x| - 1];
    assert forall i | |x'| < i < |s| :: s[i] == y'[i - |x'| - 1];
    assert |y| == |y'|;
    assert y == s[|s| - |y|..] == y';
    assert x == s[..|x|] == x';
  }

  /** strip() of a formatted line with empty input leaves the expected output alone. */
  lemma StripFormattedEmptyInput(expected: string, ending: string)
    requires IsToken(expected) && AllSpace(ending)
    ensures Strip(" " + expected + ending) == expected
  {
    assert Trimmed(expected);
    StripTrimmed(expected);
    assert AllSpace(" ");
    StripIgnoresPadding(" ", expected, ending);
  }

  /** strip() of a formatted line with non-empty input leaves the line without its ending. */
  lemma StripFormattedInput(input: string, expected: string, ending: string)
    requires IsToken(expected) && AllSpace(ending)
    requires input != [] && !IsSpace(input[0])
    ensures Strip(input + " " + expected + ending) == input + " " + expected
  {
    var core := input + " " + expected;
    assert core[0] == input[0];
    assert core[|core| - 1] == expected[|expected| - 1];
    StripTrimmed(core);
    assert AllSpace("");
    StripIgnoresPadding("", core, ending);
    assert "" + core + ending == input + " " + expected + ending;
  }

  /** Writing a test case as its input, a space and its expected output, and
      ending the line with any white space, reads back as that test case,
      provided the expected output is a single white-space-free token and the
      input does not begin with white space.  Runs of spaces inside the input
      survive, because the line is split at every single space. */
  lemma ParseFormattedLine(tc: TestCase, ending: string)
    requires IsToken(tc.expected)
    requires tc.input == [] || !IsSpace(tc.input[0])
    requires AllSpace(ending)
    ensures ParseLine(tc.input + " " + tc.expected + ending) == tc
  {
    var line := tc.input + " " + tc.expected + ending;
    var parsed := ParseLine(line);
    assert ' ' !in tc.expected by { assert IsSpace(' '); }
    if tc.input == [] {
      assert line == " " + tc.expected + ending;
      StripFormattedEmptyInput(tc.expected, ending);
      assert Strip(line) == tc.expected;
      assert parsed.input == "" && parsed.expected == tc.expected;
    } else {
      StripFormattedInput(tc.input, tc.expected, ending);
      assert Strip(line) == tc.input + " " + tc.expected;
      assert Strip(line)[|tc.input|] == ' ';
      LastSpaceUnique(parsed.input, parsed.expected, tc.input, tc.expected);
    }
  }
}
