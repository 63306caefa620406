/** Running one submission on one test input: choosing the command for the
    language, compiling when the language needs it, launching the program
    under the time limit, and turning every way this can end into a result
    record (`run_code`).  Nothing is ever raised to the caller.

    The operating system is not modelled.  What the compiler, the file system
    and the launched program do is given by a `Host`, and the model decides
    exactly as the judge does on what the host reports. */
module Runner {
  import opened Optional
  import Decimal
  import Substitute
  import Paths

  /** Seconds one run of the program may take (`TIMEOUT`). */
  const Timeout: real := 2.0

  /** Megabytes reported for a run that timed out (`MEMORY_LIMIT_MB`); no
      limit is actually placed on the program. */
  const MemoryLimitMb: real := 256.0

  const TimeoutMessage: string := "Timeout expired"

  datatype Language = Python | Cpp | Java

  /** The tag a submission names its language by. */
  function Tag(l: Language): string {
    match l
    case Python => "python"
    case Cpp => "cpp"
    case Java => "java"
  }

  /** The language a tag selects, if any. */
  function ParseLanguage(tag: string): (l: Option<Language>)
    ensures forall lang: Language :: l == Some(lang) <==> Tag(lang) == tag
  {
    if tag == "python" then Some(Python)
    else if tag == "cpp" then Some(Cpp)
    else if tag == "java" then Some(Java)
    else None
  }

  /** What running a compiler reported. */
  datatype CompileStep =
    | CompilerExited(returnCode: int, stderr: string, seconds: real)
    | CompilerFault(message: string)   // the compiler could not be started

  /** The resident-memory sample taken once the program has exited. */
  datatype MemoryProbe =
    | Rss(bytes: nat)
    | NoSuchProcess                    // the process is already gone
    | ProbeFault(message: string)      // any other failure of the sample

  /** What one launch of the program did with the input written to it. */
  datatype RunStep =
    | Exited(exitCode: int, stdout: string, stderr: string, seconds: real, probe: MemoryProbe)
    | TimedOut                         // still running after `Timeout` seconds, then killed
    | LaunchFault(message: string)     // it could not be started or talked to

  /** The machine the judge runs on: the path of the Python interpreter the
      judge itself runs under, the compilers, the file system and the programs
      it launches, each seen only through what it reports. */
  datatype Host = Host(
    interpreter: string,
    compile: seq<string> -> CompileStep,
    fileExists: string -> bool,
    launch: (seq<string>, string) -> RunStep)

  /** The record `run_code` returns.  `compilationTime` is `None` where the
      dictionary has no "compilation_time" key. */
  datatype RunResult = RunResult(
    output: string,
    error: string,
    time: real,
    compilationTime: Option<real>,
    memory: real,
    exitCode: int)

  function UnsupportedMessage(tag: string): string {
    "Язык " + tag + " не поддерживается."
  }

  function CppCompileMessage(stderr: string): string {
    "Ошибка компиляции C++: " + stderr
  }

  function MissingExecutableMessage(executable: string): string {
    "Не удается найти скомпилированный файл: " + executable
  }

  function JavaCompileMessage(stderr: string): string {
    "Ошибка компиляции Java: " + stderr
  }

  function ExitCodeMessage(exitCode: int, stderr: string): string {
    "Process finished with exit code " + Decimal.IntToString(exitCode) + ": " + stderr
  }

  /** The binary g++ is asked to produce: the source path with every ".cpp" turned into ".exe". */
  function CppExecutable(path: string): string {
    Substitute.Replace(path, ".cpp", ".exe")
  }

  /** The class the JVM is asked to run: the file's base name with every ".java" removed. */
  function JavaClassName(path: string): string {
    Substitute.Replace(Paths.Basename(path), ".java", "")
  }

  /** The outcome of preparing a run: the command to launch and the seconds
      spent compiling, or the message of the error that ends the attempt. */
  datatype Launch =
    | Ready(command: seq<string>, compilationTime: real)
    | Abort(message: string)

  /** Language dispatch and the compile step. */
  function Prepare(language: string, path: string, host: Host): Launch {
    match ParseLanguage(language)
    case None => Abort(UnsupportedMessage(language))
    case Some(Python) => Ready([host.interpreter, path], 0.0)
    case Some(Cpp) =>
      var executable := CppExecutable(path);
      (match host.compile(["g++", path, "-o", executable])
       case CompilerFault(m) => Abort(m)
       case CompilerExited(rc, err, seconds) =>
         if rc != 0 then Abort(CppCompileMessage(err))
         else if !host.fileExists(executable) then Abort(MissingExecutableMessage(executable))
         else Ready([executable], seconds))
    case Some(Java) =>
      // javac's running time is not measured: compilation time stays 0.
      match host.compile(["javac", path])
      case CompilerFault(m) => Abort(m)
      case CompilerExited(rc, err, _) =>
        if rc != 0 then Abort(JavaCompileMessage(err))
        else Ready(["java", JavaClassName(path)], 0.0)
  }

  /** The result of every path that ends in an exception other than the timeout. */
  function Failure(message: string): RunResult {
    RunResult("", message, 0.0, None, 0.0, -1)
  }

  /** The result of a run that exceeded the time limit. */
  function TimeoutResult(): RunResult {
    RunResult("", TimeoutMessage, Timeout, None, MemoryLimitMb, -1)
  }

  /** The run got all the way to the successful return: the program was
      prepared and launched, exited with code 0, and its memory was sampled
      or found to be gone. */
  predicate Completes(language: string, path: string, input: string, host: Host) {
    && Prepare(language, path, host).Ready?
    && var step := host.launch(Prepare(language, path, host).command, input);
       && step.Exited?
       && step.exitCode == 0
       && !step.probe.ProbeFault?
  }

  /** `run_code(language, file_path, test_input)`. */
  function RunCode(language: string, path: string, input: string, host: Host): (r: RunResult)
    ensures r.exitCode == 0 || r.exitCode == -1
    ensures r.exitCode == 0 <==> Completes(language, path, input, host)
    ensures r.exitCode == -1 ==> r.output == "" && r.compilationTime.None?
    ensures r.exitCode == 0 ==>
              var prepared := Prepare(language, path, host);
              var step := host.launch(prepared.command, input);
              && r.output == step.stdout
              && r.error == step.stderr
              && r.time == step.seconds
              && r.compilationTime == Some(prepared.compilationTime)
              && r.memory == (if step.probe.NoSuchProcess? then 0.0 else step.probe.bytes as real / 1048576.0)
  {
    match Prepare(language, path, host)
    case Abort(m) => Failure(m)
    case Ready(command, compilationTime) =>
      match host.launch(command, input)
      case TimedOut => TimeoutResult()
      case LaunchFault(m) => Failure(m)
      case Exited(code, out, err, seconds, probe) =>
        if code != 0 then Failure(ExitCodeMessage(code, err))
        else
          match probe
          case ProbeFault(m) => Failure(m)
          case NoSuchProcess => RunResult(out, err, seconds, Some(compilationTime), 0.0, 0)
          // resident set size in bytes, divided by 1024 twice
          case Rss(bytes) => RunResult(out, err, seconds, Some(compilationTime), bytes as real / 1048576.0, 0)
  }

  /** Every error path other than the timeout gives the same shape of result:
      no output, no time, no memory, exit code -1, and the error's message.
      That covers an unsupported language, a compiler that fails or cannot be
      started, a missing binary, a program that cannot be launched, a nonzero
      exit, and a memory sample that fails for a reason other than the
      process being gone. */
  lemma RunCodeFailurePaths(language: string, path: string, input: string, host: Host)
    ensures ParseLanguage(language).None? ==>
              RunCode(language, path, input, host) == Failure(UnsupportedMessage(language))
    ensures language == "cpp" ==>
              var executable := CppExecutable(path);
              var c := host.compile(["g++", path, "-o", executable]);
              && (c.CompilerExited? && c.returnCode != 0 ==>
                    RunCode(language, path, input, host) == Failure(CppCompileMessage(c.stderr)))
              && (c.CompilerExited? && c.returnCode == 0 && !host.fileExists(executable) ==>
                    RunCode(language, path, input, host) == Failure(MissingExecutableMessage(executable)))
              && (c.CompilerFault? ==> RunCode(language, path, input, host) == Failure(c.message))
    ensures language == "java" ==>
              var c := host.compile(["javac", path]);
              && (c.CompilerExited? && c.returnCode != 0 ==>
                    RunCode(language, path, input, host) == Failure(JavaCompileMessage(c.stderr)))
              && (c.CompilerFault? ==> RunCode(language, path, input, host) == Failure(c.message))
    ensures Prepare(language, path, host).Ready? ==>
              var step := host.launch(Prepare(language, path, host).command, input);
              && (step.LaunchFault? ==> RunCode(language, path, input, host) == Failure(step.message))
              && (step.Exited? && step.exitCode != 0 ==>
                    RunCode(language, path, input, host) == Failure(ExitCodeMessage(step.exitCode, step.stderr)))
              && (step.Exited? && step.exitCode == 0 && step.probe.ProbeFault? ==>
                    RunCode(language, path, input, host) == Failure(step.probe.message))
  {
  }

  /** A run that exceeds the time limit reports "Timeout expired", the time
      limit as its time, the memory ceiling as its memory, exit code -1, and
      no compilation time. */
  lemma RunCodeTimeout(language: string, path: string, input: string, host: Host)
    requires Prepare(language, path, host).Ready?
    requires host.launch(Prepare(language, path, host).command, input).TimedOut?
    ensures RunCode(language, path, input, host) ==
              RunResult("", "Timeout expired", 2.0, None, 256.0, -1)
  {
  }

  /** A Python script is run by the judge's own interpreter, with nothing compiled. */
  lemma PythonCommand(path: string, host: Host)
    ensures Prepare("python", path, host) == Ready([host.interpreter, path], 0.0)
  {
    assert ParseLanguage("python") == Some(Python) by { assert Tag(Python) == "python"; }
  }

  /** A C++ source is launched as the binary g++ wrote, and only once g++
      returned 0 and that binary exists. */
  lemma CppCommand(path: string, host: Host)
    ensures Prepare("cpp", path, host).Ready? <==>
              var c := host.compile(["g++", path, "-o", CppExecutable(path)]);
              c.CompilerExited? && c.returnCode == 0 && host.fileExists(CppExecutable(path))
    ensures Prepare("cpp", path, host).Ready? ==>
              Prepare("cpp", path, host).command == [CppExecutable(path)]
  {
    assert ParseLanguage("cpp") == Some(Cpp) by { assert Tag(Cpp) == "cpp"; }
  }

  /** A Java source is run by the JVM under its class name, and only once
      javac returned 0; its compilation time is reported as 0. */
  lemma JavaCommand(path: string, host: Host)
    ensures Prepare("java", path, host).Ready? <==>
              var c := host.compile(["javac", path]);
              c.CompilerExited? && c.returnCode == 0
    ensures Prepare("java", path, host).Ready? ==>
              Prepare("java", path, host) == Ready(["java", JavaClassName(path)], 0.0)
  {
    assert ParseLanguage("java") == Some(Java) by { assert Tag(Java) == "java"; }
  }

  /** A source file whose name contains ".cpp" only as its extension is
      compiled to the same name with extension ".exe". */
  lemma CppExecutableOfSource(stem: string)
    requires !Substitute.Occurs(stem, ".cpp")
    ensures CppExecutable(stem + ".cpp") == stem + ".exe"
  {
    Substitute.ReplaceSuffix(stem, ".cpp", ".exe");
  }

  /** A Java source `dir/Name.java`, whose name contains ".java" only as its
      extension, is run as class `Name`. */
  lemma JavaClassNameOfSource(dir: string, stem: string)
    requires '/' !in stem && !Substitute.Occurs(stem, ".java")
    ensures JavaClassName(dir + "/" + stem + ".java") == stem
  {
    assert dir + "/" + stem + ".java" == dir + "/" + (stem + ".java");
    Paths.BasenameOfJoin(dir, stem + ".java");
    Substitute.ReplaceSuffix(stem, ".java", "");
    assert stem + "" == stem;
  }
}
