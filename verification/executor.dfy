/** The status logic of fork_exec_command in woosh.c. The process calls
    (fork, execvp, waitpid) are replaced by the outcome they report. */
module Executor {
  import opened Config

  /** The exit code a normally exiting child reports (WEXITSTATUS). */
  type ExitCode = n: int | 0 <= n < 256

  /** A raw wait status that is not a normal exit. Such a status always
      carries a non-zero termination field, so it is never 0. */
  type AbnormalStatus = n: int | n != 0 witness 1

  /** How the waited-for child ended. */
  datatype WaitOutcome =
    | Exited(code: ExitCode)         // WIFEXITED
    | Signaled(raw: AbnormalStatus)  // WIFSIGNALED
    | Abnormal(raw: AbnormalStatus)  // neither

  /** Which side of the fork the code runs on. `InChild` is the child's path
      after execvp returned, i.e. after the program image could not be
      replaced; a successful exec never comes back to this code. */
  datatype ForkOutcome =
    | ForkFailed
    | InChild
    | InParent(wait: WaitOutcome)

  /** The status fork_exec_command returns: 0 only for a child that exited
      with 0, a normal exit's code unchanged, an abnormal end's raw wait
      status unchanged, STATUS_FORK_FAIL for a failed fork and
      STATUS_EXEC_FAIL on the child's path after a failed exec. The two
      failure statuses lie outside the exit code range and differ from
      STATUS_EXIT, so neither can be mistaken for a child's code or for a
      request to leave the shell. */
  function ExecutorStatus(f: ForkOutcome): (r: int)
    ensures r == 0 <==> f == InParent(Exited(0))
    ensures f.InParent? && f.wait.Exited? ==> r == f.wait.code
    ensures f.InParent? && !f.wait.Exited? ==> r == f.wait.raw
    ensures f == ForkFailed ==> r == STATUS_FORK_FAIL
    ensures f == InChild ==> r == STATUS_EXEC_FAIL
    ensures !f.InParent? ==> r >= 256 && r != STATUS_EXIT
  {
    match f
    case ForkFailed => STATUS_FORK_FAIL
    case InChild => STATUS_EXEC_FAIL
    case InParent(Exited(code)) => code
    case InParent(Signaled(raw)) => raw
    case InParent(Abnormal(raw)) => raw
  }

  /** A run that is not abnormal is identified by its status: fork failure,
      exec failure and every exit code 0..255 give pairwise different
      statuses, and an exit code comes back unchanged. */
  lemma ExecutorStatusDistinguishes(f: ForkOutcome, g: ForkOutcome)
    requires !(f.InParent? && !f.wait.Exited?)
    requires !(g.InParent? && !g.wait.Exited?)
    ensures ExecutorStatus(f) == ExecutorStatus(g) <==> f == g
    ensures f.InParent? ==> ExecutorStatus(f) == f.wait.code
  {
  }
}
