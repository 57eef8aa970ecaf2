/** cycle in woosh.c: one read-trim-tokenize-dispatch round. The prompt,
    the line reader and the stream's end and error flags are replaced by
    the `ReadOutcome` they report. */
module Controller {
  import opened Wrappers
  import opened Config
  import opened CStrings
  import opened Tokenizer
  import opened Trim
  import opened Executor
  import opened Dispatcher

  /** What reading one line reported. `NoLine` is the reader returning NULL
      (nothing read), which leaves the zeroed line buffer untouched.
      `Line` holds the characters stored in the buffer and the end-of-stream
      and error flags observed right after the read. */
  datatype ReadOutcome =
    | NoLine
    | Line(buf: seq<char>, atEof: bool, failed: bool)

  /** The arguments the cycle builds from a line buffer: the buffer's C
      string, after a newline at its end is overwritten with NUL, split
      into arguments. */
  function LineArgs(buf: seq<char>): seq<string>
  {
    SplitArgs(CStr(TrimRight(Some(buf), NEWLINE, NUL).value))
  }

  /** cycle(in_file). End of stream after a successful read ends the
      session before the line is looked at; a read error terminates the
      program; more than MAX_ARGS arguments are refused; anything else is
      dispatched. The program ends inside a cycle only with EXIT_FAILURE,
      and a cycle returns 0 (asking for another) only when a complete line
      was dispatched as `cd` or as an external command. */
  function Cycle(read: ReadOutcome, os: OsAnswers): (o: Outcome)
    ensures o.Terminated? ==> o.code == EXIT_FAILURE
    ensures o == Returned(0) ==>
      && read.Line? && !read.atEof && !read.failed
      && |LineArgs(read.buf)| <= MAX_ARGS
      && (Dispatch(LineArgs(read.buf)).ChangeDir? || Dispatch(LineArgs(read.buf)).Spawn?)
  {
    var buf := if read.Line? then read.buf else [];
    if read.Line? && read.atEof then Returned(STATUS_EXIT)
    else if read.Line? && read.failed then Terminated(EXIT_FAILURE)
    else
      var argv := LineArgs(buf);
      if |argv| > MAX_ARGS then Returned(STATUS_TOO_MANY_ARGS)
      else ProcessCommand(argv, os)
  }

  /** A read that hit end of stream ends the session with STATUS_EXIT,
      whatever it read: a last line without a newline is never run. */
  lemma CycleAtEndOfStream(buf: seq<char>, failed: bool, os: OsAnswers)
    ensures Cycle(Line(buf, true, failed), os) == Returned(STATUS_EXIT)
  {
  }

  /** An error flag after a successful read (and no end of stream)
      terminates the program with EXIT_FAILURE before the line is used. */
  lemma CycleReadError(buf: seq<char>, os: OsAnswers)
    ensures Cycle(Line(buf, false, true), os) == Terminated(EXIT_FAILURE)
  {
  }

  /** A reader that returns nothing leaves an empty line, which dispatches
      as exit. */
  lemma CycleNoLine(os: OsAnswers)
    ensures Cycle(NoLine, os) == Returned(STATUS_EXIT)
  {
  }

  /** Too many arguments: STATUS_TOO_MANY_ARGS, and since no OS answer is
      consulted, nothing is dispatched or spawned. */
  lemma CycleTooManyArgs(line: string, os: OsAnswers)
    requires NulFree(line)
    requires forall i :: 0 <= i < |line| ==> line[i] != NEWLINE
    requires |Tokens(line)| > MAX_ARGS
    ensures Cycle(Line(line + [NEWLINE], false, false), os) == Returned(STATUS_TOO_MANY_ARGS)
    ensures Cycle(Line(line, false, false), os) == Returned(STATUS_TOO_MANY_ARGS)
  {
    CStrOfNulFree(line + [NEWLINE], []);
    CStrOfNulFree(line, []);
    assert NulFree(line + [NEWLINE]);
    TrimNewlineRoundTrip(line);
  }

  /** A complete, newline-terminated line with at most MAX_ARGS tokens is
      dispatched with the arguments of the line itself: the newline never
      reaches the tokenizer. */
  lemma CycleDispatchesLine(line: string, os: OsAnswers)
    requires NulFree(line)
    requires forall i :: 0 <= i < |line| ==> line[i] != NEWLINE
    requires |Tokens(line)| <= MAX_ARGS
    ensures Cycle(Line(line + [NEWLINE], false, false), os) == ProcessCommand(SplitArgs(line), os)
  {
    assert NulFree(line + [NEWLINE]);
    CStrOfNulFree(line + [NEWLINE], []);
    TrimNewlineRoundTrip(line);
  }

  /** A complete line whose first word begins with "exit" (or that has no
      words at all) returns STATUS_EXIT, whatever follows the first word:
      `exit`, `exit now`, `exitfoo` and `  exit` all leave the shell. */
  lemma CycleExitLine(line: string, os: OsAnswers)
    requires NulFree(line)
    requires forall i :: 0 <= i < |line| ==> line[i] != NEWLINE
    requires |Tokens(line)| <= MAX_ARGS
    requires |Tokens(line)| == 0 || "exit" <= Tokens(line)[0]
    ensures Cycle(Line(line + [NEWLINE], false, false), os) == Returned(STATUS_EXIT)
  {
    CycleDispatchesLine(line, os);
    var argv := SplitArgs(line);
    if |argv| > 0 {
      var t := Tokens(line)[0];
      assert argv[0] <= t && |argv[0]| >= 4;
      assert argv[0][..4] == t[..4];
      assert "exit" <= argv[0];
    }
    ProcessCommandOutcome(argv, os);
  }

  /** The most common exit line: `exit` alone. */
  lemma CycleBareExit(os: OsAnswers)
    ensures Cycle(Line("exit" + [NEWLINE], false, false), os) == Returned(STATUS_EXIT)
  {
    var line := "exit";
    assert NulFree(line) by {}
    assert forall i :: 0 <= i < |line| ==> line[i] != NEWLINE by {}
    assert |Tokens(line)| <= MAX_ARGS && "exit" <= Tokens(line)[0] by {
      TokensExitExamples();
    }
    CycleExitLine(line, os);
  }

  /** A complete line dispatched as an external command returns the
      executor's status: exactly the child's exit code N when it exited
      normally, STATUS_EXEC_FAIL on the child's path after the program could
      not be run, and STATUS_FORK_FAIL when no child was created. */
  lemma CycleSpawnStatus(line: string, os: OsAnswers)
    requires NulFree(line)
    requires forall i :: 0 <= i < |line| ==> line[i] != NEWLINE
    requires |Tokens(line)| <= MAX_ARGS
    requires Dispatch(SplitArgs(line)).Spawn?
    ensures Cycle(Line(line + [NEWLINE], false, false), os) == Returned(ExecutorStatus(os.fork))
    ensures os.fork.InParent? && os.fork.wait.Exited? ==>
      Cycle(Line(line + [NEWLINE], false, false), os) == Returned(os.fork.wait.code)
    ensures os.fork == InChild ==>
      Cycle(Line(line + [NEWLINE], false, false), os) == Returned(STATUS_EXEC_FAIL)
    ensures os.fork == ForkFailed ==>
      Cycle(Line(line + [NEWLINE], false, false), os) == Returned(STATUS_FORK_FAIL)
  {
    CycleDispatchesLine(line, os);
    ProcessCommandOutcome(SplitArgs(line), os);
  }

  // ---------------------------------------------------------------------
  // The argument array build_argv fills: MAX_ARGS zeroed slots, one per
  // argument, the first unused one serving as the NULL end marker that
  // the dispatcher, execvp and free_args look for.

  /** The slots of the array after build_argv stored `argv` (only defined
      when the arguments fit; more would be written past its end). */
  function Slots(argv: seq<string>): (slots: seq<Option<string>>)
    requires |argv| <= MAX_ARGS
    ensures |slots| == MAX_ARGS
    ensures forall i :: 0 <= i < |argv| ==> slots[i] == Some(argv[i])
  {
    seq(MAX_ARGS, i requires 0 <= i < MAX_ARGS => if i < |argv| then Some(argv[i]) else None)
  }

  predicate HasEndMarker(slots: seq<Option<string>>) {
    exists i :: 0 <= i < |slots| && slots[i] == None
  }

  /** The array is NULL-terminated exactly when fewer than MAX_ARGS
      arguments were stored. The cycle refuses only more than MAX_ARGS, so
      a line of exactly MAX_ARGS arguments is dispatched without an end
      marker. */
  lemma EndMarkerIff(argv: seq<string>)
    requires |argv| <= MAX_ARGS
    ensures HasEndMarker(Slots(argv)) <==> |argv| < MAX_ARGS
    ensures |argv| < MAX_ARGS ==> Slots(argv)[|argv|] == None
  {
    if |argv| < MAX_ARGS {
      assert Slots(argv)[|argv|] == None;
    }
  }

  /** The path `cd` receives is the second slot of the array: the second
      argument, or the zeroed slot (NULL) when there is none. */
  lemma CdPathIsSecondSlot(argv: seq<string>)
    requires 1 <= |argv| <= MAX_ARGS
    requires Dispatch(argv).ChangeDir?
    ensures Dispatch(argv).path == Slots(argv)[1]
  {
  }
}
