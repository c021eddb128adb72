/** How a launched process ended, and the (stdout, stderr, exit code) triple
    that the runner and the sandbox make of it. Timeouts and launch failures
    are reported with the sentinel codes -1 and -2. */
module Process {

  /** What `subprocess.run(..., timeout=...)` did: returned, raised
      `TimeoutExpired`, or raised any other exception. */
  datatype Outcome =
    | Completed(stdout: string, stderr: string, returnCode: int)
    | TimedOut
    | Raised(message: string)

  /** The `(stdout, stderr, exit_code)` tuple. */
  datatype Execution = Execution(stdout: string, stderr: string, exitCode: int)

  const TimeoutMessage: string := "Délai d'exécution dépassé"
  const LaunchErrorPrefix: string := "Erreur lors de l'exécution: "
  const TimeoutCode: int := -1
  const LaunchErrorCode: int := -2

  /** The outcome-to-tuple mapping shared by the runner and the sandbox. */
  function ToExecution(o: Outcome): (e: Execution)
    ensures o.Completed? ==> e == Execution(o.stdout, o.stderr, o.returnCode)
    ensures !o.Completed? ==> e.stdout == "" && e.exitCode < 0
    ensures o.TimedOut? <==> !o.Completed? && e.exitCode == TimeoutCode
    ensures o.Raised? <==> !o.Completed? && e.exitCode == LaunchErrorCode
    ensures o.Raised? ==> e.stderr == LaunchErrorPrefix + o.message
    ensures o.TimedOut? ==> e.stderr == TimeoutMessage
  {
    match o
    case Completed(out, err, code) => Execution(out, err, code)
    case TimedOut => Execution("", TimeoutMessage, TimeoutCode)
    case Raised(msg) => Execution("", LaunchErrorPrefix + msg, LaunchErrorCode)
  }

  /** A non-negative exit code can only come from a process that completed,
      and then stdout, stderr and the code are passed through unchanged. */
  lemma NonNegativeCodeMeansCompleted(o: Outcome)
    requires ToExecution(o).exitCode >= 0
    ensures o.Completed? && ToExecution(o) == Execution(o.stdout, o.stderr, o.returnCode)
  {
  }

  /** The sentinels are not reserved: a process that itself returned -1 (as
      `subprocess` reports a child killed by signal 1) yields the same exit code
      as a timeout, and one that returned -2 the same code as a launch failure. */
  lemma SentinelsCanCollide()
    ensures ToExecution(Completed("", "", -1)).exitCode == ToExecution(TimedOut).exitCode
    ensures ToExecution(Completed("", "", -2)).exitCode == ToExecution(Raised("")).exitCode
  {
  }
}
