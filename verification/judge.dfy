/** The judging loop (`run_tests`): every test case is run in order, its
    record appended, and the whole list so far written to the progress store
    after each test. */
module Judge {
  import opened Optional
  import opened Runner
  import opened Verdict
  import opened Progress
  import opened TestFile
  import opened Compare

  /** Judges `tests` for the submission at `path`.  `hosts(k)` is the machine
      as it behaves while test case `k` runs.  Besides the records and the
      all-passed flag, the method returns the store as it stands after each
      test (`history`) and at the end (`final`). */
  method RunTests(language: string, path: string, tests: seq<TestCase>, id: string, store: Store, hosts: nat -> Host)
    returns (results: seq<TestRecord>, allPassed: bool, history: seq<Store>, final: Store)
    ensures |results| == |tests| && |history| == |tests|
    ensures forall k | 0 <= k < |tests| ::
              results[k] == MakeRecord(k, tests[k].expected, RunCode(language, path, tests[k].input, hosts(k)))
    ensures forall k | 0 <= k < |tests| :: results[k].test == k + 1 && results[k].expected == tests[k].expected
    ensures forall k | 0 <= k < |tests| :: Lookup(history[k], id) == Some(Results(results[..k + 1]))
    ensures forall k, other | 0 <= k < |tests| && other != id :: Lookup(history[k], other) == Lookup(store, other)
    ensures final == if |tests| == 0 then store else history[|tests| - 1]
    ensures allPassed <==> forall k | 0 <= k < |results| :: results[k].status == Passed
  {
    ghost var want := Records(language, path, tests, hosts);
    results := [];
    history := [];
    final := store;
    for k := 0 to |tests|
      invariant results == want[..k] && |history| == k
      invariant forall j | 0 <= j < k :: Lookup(history[j], id) == Some(Results(want[..j + 1]))
      invariant forall j, other | 0 <= j < k && other != id :: Lookup(history[j], other) == Lookup(store, other)
      invariant final == if k == 0 then store else history[k - 1]
    {
      var record := JudgeTest(k, language, path, tests[k], hosts(k));
      results := results + [record];
      assert results == want[..k + 1];
      final := Publish(final, id, results);
      history := history + [final];
    }
    assert want[..|tests|] == want;
    allPassed := AllPassed(results);
  }

  /** The records of all test cases, as the loop builds them one by one. */
  ghost function Records(language: string, path: string, tests: seq<TestCase>, hosts: nat -> Host): seq<TestRecord> {
    seq(|tests|, k requires 0 <= k < |tests| =>
      MakeRecord(k, tests[k].expected, RunCode(language, path, tests[k].input, hosts(k))))
  }

  /** Runs one test case and classifies it: a runtime error exactly when the
      run did not complete, and a pass exactly when it did and its output
      matches the expected output. */
  method JudgeTest(index: nat, language: string, path: string, test: TestCase, host: Host) returns (record: TestRecord)
    ensures record == MakeRecord(index, test.expected, RunCode(language, path, test.input, host))
    ensures record.test == index + 1 && record.expected == test.expected
    ensures record.status == RuntimeError <==> !Completes(language, path, test.input, host)
    ensures record.status == RuntimeError ==> record.output == "" && record.compilationTime == 0.0
    ensures record.status == Passed <==>
              Completes(language, path, test.input, host) && CompareOutput(record.output, test.expected)
  {
    var r := RunCode(language, path, test.input, host);
    record := MakeRecord(index, test.expected, r);
    RecordOfRun(index, test.expected, language, path, test.input, host);
  }

  /** `all(result['status'] == 'Passed' for result in results)`: true for no records. */
  method AllPassed(results: seq<TestRecord>) returns (b: bool)
    ensures b <==> forall k | 0 <= k < |results| :: results[k].status == Passed
  {
    b := true;
    for k := 0 to |results|
      invariant b <==> forall j | 0 <= j < k :: results[j].status == Passed
    {
      if results[k].status != Passed {
        b := false;
      }
    }
  }
}
