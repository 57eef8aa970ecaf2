/** process_command_from_argv in woosh.c: the builtin dispatcher. The
    choice of what to do depends only on the argument list (`Dispatch`);
    carrying it out consults the one process or file-system call the
    choice needs (`ProcessCommand`). */
module Dispatcher {
  import opened Wrappers
  import opened Config
  import opened CStrings
  import opened Executor

  /** What the dispatcher does with an argument list. */
  datatype Decision =
    | Exit                           // leave the read loop
    | ChangeDir(path: Option<string>) // chdir to the second argument (NULL when absent)
    | Help                           // print usage and terminate the program
    | Spawn(argv: seq<string>)       // run an external program

  /** The answer of chdir. */
  datatype ChdirOutcome = ChdirOk | ChdirFailed

  /** The answers the operating system gives to one command's calls. */
  datatype OsAnswers = OsAnswers(chdir: ChdirOutcome, fork: ForkOutcome)

  /** How a command ends: with a status returned to the cycle, or with the
      whole program terminating with the given code. */
  datatype Outcome = Returned(status: int) | Terminated(code: int)

  /** The builtins are recognised with strncmp over 4, 2 and 4 characters,
      tried in the order exit, cd, help; an empty list means exit. */
  function Dispatch(argv: seq<string>): (d: Decision)
    ensures (|argv| == 0 || "exit" <= argv[0]) ==> d == Exit
    ensures d.ChangeDir? ==> |argv| > 0 && "cd" <= argv[0]
    ensures d.Spawn? ==> |argv| > 0 && d.argv == argv
  {
    if |argv| == 0 then Exit
    else if StrnEq(argv[0], "exit", 4) then Exit
    else if StrnEq(argv[0], "cd", 2) then ChangeDir(if |argv| > 1 then Some(argv[1]) else None)
    else if StrnEq(argv[0], "help", 4) then Help
    else Spawn(argv)
  }

  /** The dispatch decision in terms of prefixes, both directions: a first
      word that merely begins with a builtin's name selects that builtin,
      earlier builtins win, and only a list matching none is run, whole. */
  lemma DispatchByPrefix(argv: seq<string>)
    ensures Dispatch(argv) == Exit <==> |argv| == 0 || "exit" <= argv[0]
    ensures Dispatch(argv).ChangeDir? <==>
      |argv| > 0 && !("exit" <= argv[0]) && "cd" <= argv[0]
    ensures Dispatch(argv).ChangeDir? ==>
      Dispatch(argv).path == if |argv| > 1 then Some(argv[1]) else None
    ensures Dispatch(argv) == Help <==>
      |argv| > 0 && !("exit" <= argv[0]) && !("cd" <= argv[0]) && "help" <= argv[0]
    ensures Dispatch(argv).Spawn? <==>
      |argv| > 0 && !("exit" <= argv[0]) && !("cd" <= argv[0]) && !("help" <= argv[0])
    ensures Dispatch(argv).Spawn? ==> Dispatch(argv).argv == argv
  {
  }

  /** Prefix matching in action: "exitfoo" exits whatever follows it, and
      "cdrom" is cd without a path. */
  lemma DispatchPrefixExamples(rest: seq<string>)
    ensures Dispatch(["exitfoo"] + rest) == Exit
    ensures Dispatch(["cdrom"]) == ChangeDir(None)
    ensures Dispatch(["helpme", "x"]) == Help
    ensures Dispatch(["ls", "-a"]) == Spawn(["ls", "-a"])
  {
  }

  /** The status of `cd`: 0 when the directory changed, EXIT_FAILURE
      otherwise. chdir(NULL) always fails, so `cd` alone fails. */
  function ChdirStatus(path: Option<string>, answer: ChdirOutcome): (r: int)
    ensures r == 0 <==> path.Some? && answer == ChdirOk
    ensures r != 0 ==> r == EXIT_FAILURE
  {
    if path.Some? && answer == ChdirOk then 0 else EXIT_FAILURE
  }

  /** process_command_from_argv(argv). `help` runs usage, which terminates
      the program with EXIT_FAILURE; every other decision returns a status
      to the cycle. */
  function ProcessCommand(argv: seq<string>, os: OsAnswers): (o: Outcome)
    ensures o.Terminated? <==> Dispatch(argv) == Help
    ensures o.Terminated? ==> o.code == EXIT_FAILURE
  {
    match Dispatch(argv)
    case Exit => Returned(STATUS_EXIT)
    case ChangeDir(path) => Returned(ChdirStatus(path, os.chdir))
    case Help => Terminated(EXIT_FAILURE)
    case Spawn(args) => Returned(ExecutorStatus(os.fork))
  }

  /** Each branch consults only its own system call: exit and help consult
      none (in particular nothing is spawned), cd consults only chdir, and
      only a spawned command's fork outcome matters. */
  lemma ProcessCommandConsultsOnlyItsCall(argv: seq<string>, os1: OsAnswers, os2: OsAnswers)
    ensures Dispatch(argv) == Exit || Dispatch(argv) == Help ==>
      ProcessCommand(argv, os1) == ProcessCommand(argv, os2)
    ensures Dispatch(argv).ChangeDir? && os1.chdir == os2.chdir ==>
      ProcessCommand(argv, os1) == ProcessCommand(argv, os2)
    ensures Dispatch(argv).Spawn? && os1.fork == os2.fork ==>
      ProcessCommand(argv, os1) == ProcessCommand(argv, os2)
  {
  }

  /** What the command returns, by builtin: exit (and the empty line) gives
      STATUS_EXIT whatever follows, help never returns, cd gives 0 exactly
      when a path was given and chdir succeeded and EXIT_FAILURE otherwise,
      and any other command returns the executor's status for its fork
      outcome: the child's exit code, the raw status of an abnormal end,
      STATUS_EXEC_FAIL after a failed exec or STATUS_FORK_FAIL. */
  lemma ProcessCommandOutcome(argv: seq<string>, os: OsAnswers)
    ensures (|argv| == 0 || "exit" <= argv[0]) ==> ProcessCommand(argv, os) == Returned(STATUS_EXIT)
    ensures ProcessCommand(argv, os).Terminated? <==> Dispatch(argv) == Help
    ensures Dispatch(argv).ChangeDir? ==>
      (ProcessCommand(argv, os) == Returned(0) <==> |argv| > 1 && os.chdir == ChdirOk)
    ensures Dispatch(argv).ChangeDir? && ProcessCommand(argv, os) != Returned(0) ==>
      ProcessCommand(argv, os) == Returned(EXIT_FAILURE)
    ensures Dispatch(argv).Spawn? ==>
      (ProcessCommand(argv, os) == Returned(0) <==> os.fork == InParent(Exited(0)))
    ensures Dispatch(argv).Spawn? ==> ProcessCommand(argv, os) == Returned(ExecutorStatus(os.fork))
    ensures Dispatch(argv).Spawn? && os.fork.InParent? && os.fork.wait.Exited? ==>
      ProcessCommand(argv, os) == Returned(os.fork.wait.code)
    ensures Dispatch(argv).Spawn? && os.fork == InChild ==>
      ProcessCommand(argv, os) == Returned(STATUS_EXEC_FAIL)
    ensures Dispatch(argv).Spawn? && os.fork == ForkFailed ==>
      ProcessCommand(argv, os) == Returned(STATUS_FORK_FAIL)
  {
  }
}
