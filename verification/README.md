# Judge core of Solvent646Contester, modelled in Dafny

Solvent646Contester is a small programming-contest server. A user uploads a
solution in Python, C++ or Java and picks a test file. The server then judges
the solution on every test case, in the background. It records a verdict per
test: "Passed", "Failed" or "Runtime Error". A progress map, keyed by task
identifier, holds the records judged so far, and a polling page reads them.

This project models the judging logic of `main.py`:

- **Comparison** (`Compare`): `compare_output` is equality after Python's
  `str.strip()`. `Trim` models `strip()` with Python's exact white-space set.
- **Running one test** (`Runner`): `run_code` picks the language and builds
  the command. For C++ and Java it compiles first. It launches the program
  and turns every outcome into a result record: compile error, missing
  binary, unsupported language, a compiler or program that cannot be
  started, nonzero exit, timeout, or a failed memory sample.
  The operating system is a `Host` value. Compiler runs, file existence,
  program runs and the memory sample are whatever the host reports. The model
  decides on those reports exactly as the judge does.
- **Verdicts and records** (`Verdict`): the verdict rule of `run_tests`, and
  the record kept per test.
- **The judging loop** (`Judge.RunTests`): one record per test case, numbered
  from 1. After each test the whole list so far is written to the progress
  map. The loop also returns the all-passed flag.
- **Progress map** (`Progress`): the placeholder written on upload, the
  overwrite after each test, and the lookup that answers `{}` for an unknown
  identifier.
- **Test files** (`TestFile`): each line is stripped and split at single
  spaces. The last piece is the expected output. The other pieces, joined with
  single spaces, are the input.
- **Upload** (`Upload.Submit`): register the task, parse the test file, judge.

Python helpers the judge relies on have their own modules: `Tokens`
(`split(' ')` / `' '.join`), `Substitute` (`str.replace`), `Paths`
(`os.path.basename`) and `Decimal` (`str(int)`, used in the exit-code message).

Some behaviours of `main.py` are easy to miss, and the model keeps them:

- An empty or blank line in a test file is not a parse error. It yields the
  test case `("", "")`.
- Runs of spaces inside an input are not lost. `split(' ')` keeps empty
  pieces and `' '.join` puts the spaces back (`TestFile.ParseFormattedLine`).
- An unsupported language does not reject the submission. Every test case
  gets a "Runtime Error" record whose error names the language.
- Neither failure result has a `compilation_time` key, and that includes the
  timeout result. Records then show 0.
- The placeholder entry always says `total: 1`, whatever the test file holds.
- Compiling Java is not timed. Its compilation time is always 0.

## Model

| member | source | states |
|---|---|---|
| `Trim.Strip` | main.py:210 | `strip()` returns a text with no white space at either end, left over after cutting only white space from both ends of the input |
| `Trim.StripUnique` | main.py:210 | any text with no white space at its ends that remains after cutting white space from both ends is exactly what `strip()` returns |
| `Trim.StripIgnoresPadding` | main.py:210 | white space added before or after a string does not change what `strip()` returns |
| `Trim.StripIdempotent` | main.py:210 | stripping twice is the same as stripping once |
| `Compare.CompareMeansCommonCore` | main.py:208-210 | two outputs match exactly when some text with no white space at its ends is what remains of both after cutting white space from their ends |
| `Compare.CompareIgnoresPadding` | main.py:208-210 | leading or trailing white space added to either side never changes whether outputs match |
| `Compare.CompareIsEquivalence` | main.py:208-210 | matching is reflexive, symmetric and transitive |
| `Compare.CompareTrailingNewline` | main.py:208-210 | output "5" plus a newline matches expected "5" |
| `Compare.CompareDistinct` | main.py:208-210 | "a" does not match "b" |
| `Runner.ParseLanguage` | main.py:110-148 | a tag selects a language exactly when it is that language's tag ("python", "cpp", "java"); any other tag selects none |
| `Runner.RunCode` | main.py:104-205 | the exit code is always 0 or -1. It is 0 exactly when the program was prepared, exited with 0 and its memory sample did not fail. Exit -1 always comes with empty output and no compilation time. On exit 0 the output, error and time are the program's own, the compilation time is present, and the memory is the resident set size in bytes divided by 1024 twice, or 0 when the process was already gone |
| `Runner.RunCodeFailurePaths` | main.py:123-205 | unsupported language, failed or unstartable C++ or Java compiler, missing C++ binary, a program that cannot be launched, nonzero exit, and a memory sample failing for a reason other than the process being gone each give empty output, time 0, memory 0, exit -1 and that error's message |
| `Runner.RunCodeTimeout` | main.py:186-195 | a run that times out gives empty output, "Timeout expired", time 2, memory 256, exit -1 and no compilation time |
| `Runner.PythonCommand` | main.py:110-112 | a Python script is launched as the judge's own interpreter followed by the script path, with compilation time 0 |
| `Runner.CppCommand` | main.py:113-132 | a C++ source is launched as `[executable]`, and only when g++ returned 0 and the executable exists |
| `Runner.JavaCommand` | main.py:133-145 | a Java source is launched as `['java', class name]` only when javac returned 0, with compilation time 0 |
| `Runner.CppExecutableOfSource` | main.py:115 | a source named `stem.cpp`, where ".cpp" appears only as the extension, compiles to `stem.exe` |
| `Runner.JavaClassNameOfSource` | main.py:143 | a source `dir/Name.java`, where ".java" appears only as the extension, runs as class `Name` |
| `Verdict.Classify` | main.py:223-228 | the verdict is "Runtime Error" exactly when the exit code is nonzero. It is "Passed" exactly when the exit code is 0 and the outputs match, and "Failed" exactly when the exit code is 0 and they do not |
| `Verdict.RecordOfRun` | main.py:230-239 | a record is numbered index + 1 and keeps the expected output. It is a runtime error exactly when the run did not complete. A runtime error has empty output and compilation time 0. "Passed" means the run completed and the outputs match |
| `Verdict.NonzeroExitIsRuntimeError` | main.py:163-165 | a nonzero exit is a runtime error with empty output and the exit-code message, even when stdout equals the expected output |
| `Verdict.TimeoutIsRuntimeError` | main.py:186-195 | a timed-out test's record is a runtime error with empty output, time 2, compilation time 0, memory 256 and "Timeout expired" |
| `Verdict.UnsupportedLanguageFails` | main.py:146-148 | with an unsupported language every record is a runtime error whose error names the language |
| `Verdict.CompileErrorIsRuntimeError` | main.py:123-125 | a failed C++ compile gives a runtime error whose error text ends with the compiler's diagnostics |
| `Judge.RunTests` | main.py:213-247 | there is one record per test case, in order, and record k is test k + 1 with test k's expected output. After test k the task's entry holds exactly the first k + 1 records, and no other entry changes. With no tests the store is untouched. The flag is true exactly when every record passed |
| `Judge.JudgeTest` | main.py:220-239 | the record for one test case is numbered index + 1 and carries its expected output; it is a runtime error exactly when the run did not complete, and a runtime error has empty output and compilation time 0; it passes exactly when the run completed and its output matches the expected output |
| `Judge.AllPassed` | main.py:245 | true exactly when every record's status is "Passed", so true for no records |
| `Progress.Lookup` | main.py:320 | an identifier that is present gets its entry, and an absent one gets the empty answer |
| `Progress.Register` | main.py:285 | after upload the task's entry is `{current: 0, total: 1, progress: 0}`, and no other entry changes |
| `Progress.Publish` | main.py:242 | after a write the task's entry is the records so far, and no other entry changes |
| `TestFile.ParseLine` | main.py:291-294 | the expected output contains no space. If the stripped line has a space, input + " " + expected is the stripped line. Otherwise the input is empty and the expected output is the whole stripped line |
| `TestFile.ParseTestFile` | main.py:288-294 | each line gives exactly one test case, in order |
| `TestFile.ParseFormattedLine` | main.py:289-294 | a line written as input, a space, a single-token expected output and any line ending reads back as that test case, when the input does not start with white space |
| `Upload.Submit` | main.py:284-298 | each line of the test file is read into one test case, in order, and there is one record per test case, numbered from 1, carrying its expected output; each record is the record of running that test case's input. All-passed is true exactly when every record passed. With no lines the task keeps its placeholder and all-passed is true. Otherwise the task's entry is the full record list. Other entries are unchanged |
| `Tokens.JoinSplit` | main.py:291-292 | splitting at a separator and joining with it gives the string back |
| `Tokens.SplitJoin` | main.py:291-292 | joining separator-free pieces and splitting again gives the pieces back |
| `Tokens.SplitCount` | main.py:291 | splitting gives one more piece than there are separators |
| `Substitute.ReplaceAbsent` | main.py:115 | `replace` changes nothing when the pattern does not occur |
| `Substitute.ReplaceSuffix` | main.py:115 | when the pattern's first character does not recur inside it and the pattern occurs only at the end, `replace` swaps that final occurrence alone |
| `Paths.BasenameOfJoin` | main.py:143 | the base name of `dir/name` is `name`, for a name without `/` |
| `Decimal.IntToStringRoundTrip` | main.py:165 | `str(n)` read back by `int()` gives `n` for every integer, negative ones included; this is the decimal form in which the exit code appears in the error message |

## Left out

- The web layer is not modelled: Flask routes, templates, flash messages, redirects, login, and the `User` and `Submission` database models (main.py:18-79, 251-336, apart from the two lookups modelled in `Progress.Lookup`). It is request handling and persistence, not judging.
- The host's operations are not modelled: `subprocess.run`, `Popen`/`communicate`, `process.kill`, `os.path.exists`, reading the test file and saving the upload. They are operating-system I/O. Their outcomes are the `Host` parameter, and the test file arrives as its sequence of lines.
- Clock readings and psutil memory sampling are host-reported numbers (`real`). Only the constants `TIMEOUT` (2) and `MEMORY_LIMIT_MB` (256) are fixed by the model. `elapsed_time` (main.py:175) is computed but never used, so it is omitted.
- Byte decoding of the program's stdout and stderr is not modelled. The host reports text. A decode failure, which the judge would turn into a generic error result, is not represented.
- The background thread and concurrent reads of the progress map are not modelled (main.py:297-298). Judging runs to completion in sequence, with one writer per task.
- The judge stores the records list itself in the map, so later appends show through it. The model stores a value snapshot after each test. That snapshot equals the list at every point where the judge writes the entry.
- Task identifiers come from the clock (main.py:281) and are a parameter here. Two submissions in the same second would share an entry.
- Logging is not modelled. It has no effect on results.
- `Paths.Basename` follows POSIX `os.path.basename`. On Windows a backslash also separates path components.
- `Substitute.Replace` requires a non-empty pattern. The judge only replaces ".cpp" and ".java".
- `code_submissions/Source.cpp` is an uploaded sample solution, not part of the judge.
