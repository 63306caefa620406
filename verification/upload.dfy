/** Accepting a submission (the judging part of `upload_file`): the task's
    placeholder entry is written, the chosen test file is read into test
    cases, and the tests are judged.  The judge runs them on a background
    thread; here they run to completion in sequence. */
module Upload {
  import opened Optional
  import opened Runner
  import opened Verdict
  import opened Progress
  import opened TestFile
  import opened Judge

  /** Accepts the submission at `path` in `language` under task identifier
      `id`, with `lines` the lines of the chosen test file.  Besides the store
      and the outcome of judging, it returns the test cases read from the
      file, in the order they are judged. */
  method Submit(store: Store, id: string, lines: seq<string>, language: string, path: string, hosts: nat -> Host)
    returns (final: Store, tests: seq<TestCase>, results: seq<TestRecord>, allPassed: bool)
    ensures |tests| == |lines| && |results| == |lines|
    ensures forall k | 0 <= k < |lines| :: tests[k] == ParseLine(lines[k])
    ensures forall k | 0 <= k < |lines| ::
              results[k].test == k + 1 && results[k].expected == ParseLine(lines[k]).expected
    ensures forall k | 0 <= k < |tests| ::
              results[k] == MakeRecord(k, tests[k].expected, RunCode(language, path, tests[k].input, hosts(k)))
    ensures allPassed <==> forall k | 0 <= k < |results| :: results[k].status == Passed
    ensures |lines| == 0 ==> Lookup(final, id) == Some(Initial) && allPassed
    ensures |lines| > 0 ==> Lookup(final, id) == Some(Results(results))
    ensures forall other | other != id :: Lookup(final, other) == Lookup(store, other)
  {
    var registered := Register(store, id);
    tests := ParseTestFile(lines);
    var history;
    results, allPassed, history, final := RunTests(language, path, tests, id, registered, hosts);
    if |lines| > 0 {
      assert results[..|lines|] == results;
    }
  }
}
