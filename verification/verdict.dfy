/** The per-test verdict and the record the judge keeps for every test case. */
module Verdict {
  import opened Optional
  import opened Compare
  import opened Runner

  datatype Status = Passed | Failed | RuntimeError {

    /** The status text a record carries. */
    function Name(): string {
      match this
      case Passed => "Passed"
      case Failed => "Failed"
      case RuntimeError => "Runtime Error"
    }
  }

  /** The verdict rule: a nonzero exit code is a runtime error whatever was
      printed; otherwise the test passes exactly when the output matches. */
  function Classify(r: RunResult, expected: string): (s: Status)
    ensures s == RuntimeError <==> r.exitCode != 0
    ensures s == Passed <==> r.exitCode == 0 && CompareOutput(r.output, expected)
    ensures s == Failed <==> r.exitCode == 0 && !CompareOutput(r.output, expected)
  {
    if r.exitCode != 0 then RuntimeError
    else if CompareOutput(r.output, expected) then Passed
    else Failed
  }

  datatype TestRecord = TestRecord(
    test: int,
    status: Status,
    output: string,
    expected: string,
    time: real,
    compilationTime: real,
    memory: real,
    error: string)

  /** The record kept for the test case at (zero-based) position `index`. */
  function MakeRecord(index: nat, expected: string, r: RunResult): TestRecord {
    TestRecord(index + 1, Classify(r, expected), r.output, expected, r.time,
               r.compilationTime.GetOr(0.0), r.memory, r.error)
  }

  /** What a record made from a run says: it is numbered from 1, carries the
      expected output unchanged, is a runtime error exactly when the run did
      not complete, and a runtime error always comes with empty output and a
      compilation time of 0. */
  lemma RecordOfRun(index: nat, expected: string, language: string, path: string, input: string, host: Host)
    ensures var rec := MakeRecord(index, expected, RunCode(language, path, input, host));
            && rec.test == index + 1
            && rec.expected == expected
            && (rec.status == RuntimeError <==> !Completes(language, path, input, host))
            && (rec.status == RuntimeError ==> rec.output == "" && rec.compilationTime == 0.0)
            && (rec.status == Passed <==>
                  Completes(language, path, input, host) && CompareOutput(rec.output, expected))
  {
  }

  /** A program that exits with a nonzero code is a runtime error even when
      what it printed matches the expected output. */
  lemma NonzeroExitIsRuntimeError(index: nat, language: string, path: string, input: string, host: Host)
    requires Prepare(language, path, host).Ready?
    requires var step := host.launch(Prepare(language, path, host).command, input);
             step.Exited? && step.exitCode != 0
    ensures var step := host.launch(Prepare(language, path, host).command, input);
            var rec := MakeRecord(index, step.stdout, RunCode(language, path, input, host));
            rec.status == RuntimeError && rec.output == ""
            && rec.error == ExitCodeMessage(step.exitCode, step.stderr)
  {
  }

  /** A run that times out is a runtime error with no output, the time limit
      as its time and "Timeout expired" as its error. */
  lemma TimeoutIsRuntimeError(index: nat, expected: string, language: string, path: string, input: string, host: Host)
    requires Prepare(language, path, host).Ready?
    requires host.launch(Prepare(language, path, host).command, input).TimedOut?
    ensures var rec := MakeRecord(index, expected, RunCode(language, path, input, host));
            rec == TestRecord(index + 1, RuntimeError, "", expected, 2.0, 0.0, 256.0, "Timeout expired")
  {
    RunCodeTimeout(language, path, input, host);
  }

  /** A submission in an unsupported language never passes a test: every
      record is a runtime error naming the language. */
  lemma UnsupportedLanguageFails(index: nat, expected: string, language: string, path: string, input: string, host: Host)
    requires ParseLanguage(language).None?
    ensures var rec := MakeRecord(index, expected, RunCode(language, path, input, host));
            rec.status == RuntimeError && rec.error == UnsupportedMessage(language)
  {
    RunCodeFailurePaths(language, path, input, host);
  }

  /** A C++ submission that does not compile gives a runtime error whose
      error text ends with the compiler's diagnostics. */
  lemma CompileErrorIsRuntimeError(index: nat, expected: string, path: string, input: string, host: Host)
    requires var c := host.compile(["g++", path, "-o", CppExecutable(path)]);
             c.CompilerExited? && c.returnCode != 0
    ensures var c := host.compile(["g++", path, "-o", CppExecutable(path)]);
            var rec := MakeRecord(index, expected, RunCode("cpp", path, input, host));
            && rec.status == RuntimeError
            && rec.error == CppCompileMessage(c.stderr)
            && rec.error[|rec.error| - |c.stderr|..] == c.stderr
  {
    RunCodeFailurePaths("cpp", path, input, host);
  }
}
