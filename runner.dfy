/** The code runner: its limits, the command it builds for each language, the
    C compile step with its temporary executable, and the mapping of a process
    outcome to `(stdout, stderr, exit_code)`. Processes are an oracle. */
module Runner {
  import opened Wrappers
  import opened PyStrings
  import opened Process
  import opened Files

  const DefaultTimeout: int := 5
  const DefaultMaxMemory: int := 50 * 1024 * 1024
  const CompileErrorPrefix: string := "Erreur de compilation:\n"

  /** A `CodeRunner`: the wall-clock timeout in seconds and the memory ceiling
      in bytes, fixed when it is built. */
  datatype CodeRunner = CodeRunner(timeout: int, maxMemory: int)

  /** `CodeRunner(timeout=5, max_memory=50 * 1024 * 1024)`. */
  function NewCodeRunner(timeout: int := DefaultTimeout, maxMemory: int := DefaultMaxMemory): (r: CodeRunner)
    ensures r.timeout == timeout && r.maxMemory == maxMemory
  {
    CodeRunner(timeout, maxMemory)
  }

  /** A runner built without arguments allows 5 seconds and 50 MiB. */
  lemma DefaultRunner()
    ensures NewCodeRunner().timeout == 5
    ensures NewCodeRunner().maxMemory == 52428800
  {
  }

  /** The resource limits `limit_resources` sets in the child before exec. */
  datatype Limits = Limits(addressSpace: int, processCount: int, cpuSeconds: int)

  function PreExecLimits(r: CodeRunner): (l: Limits)
    ensures l.addressSpace == r.maxMemory
    ensures l.processCount == 0
    ensures l.cpuSeconds == r.timeout
  {
    Limits(r.maxMemory, 0, r.timeout)
  }

  /** `subprocess.run(cmd, timeout=..., preexec_fn=...)` as an oracle: what
      happens when `cmd` runs under the given limits and wall-clock timeout. */
  type Launcher = (seq<string>, Limits, int) -> Outcome

  /** What `gcc` did: it returned with a diagnostic stream and a code, or
      `subprocess.run` raised. */
  datatype CompileOutcome = Compiled(stderr: string, returnCode: int) | CompileRaised(message: string)

  /** `subprocess.run(compile_cmd)` as an oracle. */
  type Compiler = seq<string> -> CompileOutcome

  /** `_execute_with_constraints`: one launch under the runner's limits; a
      completed run passes through, a timeout and a failed launch become the
      sentinels -1 and -2 with an empty stdout. */
  function ExecuteWithConstraints(r: CodeRunner, cmd: seq<string>, launch: Launcher): (e: Execution)
    ensures var o := launch(cmd, PreExecLimits(r), r.timeout);
      && (o.Completed? ==> e == Execution(o.stdout, o.stderr, o.returnCode))
      && (o.TimedOut? ==> e == Execution("", TimeoutMessage, -1))
      && (o.Raised? ==> e == Execution("", LaunchErrorPrefix + o.message, -2))
  {
    ToExecution(launch(cmd, PreExecLimits(r), r.timeout))
  }

  /** The interpreter command: `python3`, the file, then the arguments
      unchanged and in order. */
  function PythonCommand(filePath: string, arguments: seq<string>): (cmd: seq<string>)
    ensures |cmd| == |arguments| + 2
    ensures cmd[0] == "python3" && cmd[1] == filePath
    ensures cmd[2..] == arguments
  {
    ["python3", filePath] + arguments
  }

  /** The compiler command writing the executable to `executable`. */
  function GccCommand(filePath: string, executable: string): (cmd: seq<string>)
    ensures |cmd| == 6 && cmd[0] == "gcc" && cmd[1] == filePath && cmd[3] == executable
  {
    ["gcc", filePath, "-o", executable, "-std=c99", "-Wall"]
  }

  /** `run_python_code`: the interpreter command under the constraints. */
  function RunPythonCode(r: CodeRunner, filePath: string, arguments: seq<string>, launch: Launcher): (e: Execution)
    ensures e == ExecuteWithConstraints(r, PythonCommand(filePath, arguments), launch)
    ensures e.exitCode >= 0 ==> launch(PythonCommand(filePath, arguments), PreExecLimits(r), r.timeout).Completed?
  {
    ExecuteWithConstraints(r, PythonCommand(filePath, arguments), launch)
  }

  /** `run_c_code`: a fresh temporary file names the executable; a failing
      compile reports its code and its diagnostics behind a fixed prefix and
      runs nothing; otherwise the executable runs with the arguments under the
      same constraints. An exception from the compile step propagates
      (`Failure`). On every path the temporary executable is gone afterwards. */
  method RunCCode(r: CodeRunner, fs: FileSystem, filePath: string, arguments: seq<string>,
                  compile: Compiler, launch: Launcher)
    returns (result: Result<Execution, string>, ghost executable: string)
    modifies fs
    ensures executable !in old(fs.paths) && executable !in fs.paths
    ensures fs.paths == old(fs.paths)
    ensures Within(executable, TempDir)
    ensures match compile(GccCommand(filePath, executable))
      case CompileRaised(msg) => result == Failure(msg)
      case Compiled(err, code) =>
        if code != 0 then result == Success(Execution("", CompileErrorPrefix + err, code))
        else result == Success(ExecuteWithConstraints(r, [executable] + arguments, launch))
  {
    var exe := fs.CreateTemp(TempDir, "tmp");
    executable := exe;
    var compiled := compile(GccCommand(filePath, exe));
    match compiled {
      case CompileRaised(msg) =>
        result := Failure(msg);
      case Compiled(err, code) =>
        if code != 0 {
          result := Success(Execution("", CompileErrorPrefix + err, code));
        } else {
          result := Success(ExecuteWithConstraints(r, [exe] + arguments, launch));
        }
    }
    if fs.Exists(exe) {
      fs.Remove(exe);
    }
  }
}
