# woosh: a model of the read–tokenize–dispatch core

woosh is a tiny Unix shell. It reads a line from a terminal or a script, splits it on spaces and runs one of three builtins (`exit`, `cd`, `help`). Any other command it forks and executes, and it keeps going while each command's status is 0. This project models that core in Dafny as pure functions over immutable data. Each operating-system call (`fork`, `execvp`, `waitpid`, `chdir`) and each stream query (`fgets`, `feof`, `ferror`) is replaced by a datatype holding the outcome it reports.

Modules, one per file:

- `Config`: the limits and status codes of `woosh.h`. `STATUS_FORK_FAIL` is used but never defined in the source, so the model fixes it at 667. That value differs from every other status and from every child exit code (0..255).
- `CStrings`: what `strlen` and `strncmp` see. `CStr` is the characters before the first NUL. `StrnEq` is `strncmp(...) == 0`.
- `Tokenizer`: `build_argv`.
  - `Tokens` is the reference meaning: the maximal runs of non-space characters, in order.
  - `Layout` and `GapsOf` characterise those runs as the only words a line lays out between runs of spaces.
  - `SplitArgs` adds the `strncat` truncation to `MAX_ARG_LENGTH - 1` = 127 characters.
  - `BuildArgv` adds the `-1` for a NULL string or result handle. `ScanTokens` is its scanning loop, and `ScanRun` finds the end of one run.
- `Trim`: `trim_right`, on the raw buffer; only the buffer's C string is looked at.
- `Executor`: the status logic of `fork_exec_command`. Its inputs are `ForkFailed`, `InChild` (the child after a failed `execvp`) or `InParent(wait)`, where `wait` is `Exited(code)`, `Signaled(raw)` or `Abnormal(raw)`.
- `Dispatcher`: `process_command_from_argv`.
  - `Dispatch` decides Exit, ChangeDir(path), Help or Spawn(argv) from the tokens alone.
  - `ProcessCommand` carries the decision out against the OS answers.
  - Its outcome is a status returned to the cycle, or `Terminated(code)` when the program ends inside the command (`help` runs `usage`, which exits with `EXIT_FAILURE`).
- `Controller`: `cycle`. The read is a `ReadOutcome`: `NoLine` when `fgets` returned NULL, or `Line(buf, atEof, failed)`. `Slots` is the 64-slot argument array `build_argv` fills.
- `Driver`: `main`. `Run` is the loop-while-zero over the outcomes of successive cycles, `ProgramResult` is the final mapping, and `Drive` feeds `Cycle` outcomes to `Run`.

Behaviour kept as the code has it, some of which a reader might not expect from the builtin names:

- Builtins match by prefix (`strncmp` over 4, 2 and 4 characters), checked in the order exit, cd, help. So `exitfoo` exits and `cdrom` is `cd` (`DispatchPrefixExamples`).
- An empty line, or a read that returned nothing, dispatches as `exit`.
- A last line that ends the stream without a newline is dropped: end-of-stream after a successful read returns `STATUS_EXIT` before tokenizing.
- `cd` with no path calls `chdir(NULL)` on the zeroed second slot. That call always fails, so `cd` alone returns `EXIT_FAILURE`. Any non-zero status stops the loop, so a failing `cd` ends a session.
- The `continue` for an empty token (woosh.c:45-46) would loop forever. It is unreachable because every token is non-empty (the `ensures` of `Tokens`), so the model has no such branch.
- `build_argv` never stops at `MAX_ARGS`, and the cycle refuses only more than `MAX_ARGS` tokens. A line of exactly 64 tokens is therefore dispatched with no NULL end marker in the array (`EndMarkerIff`). A line of 65 or more is written past the array's end before being refused. The model keeps the source's check; `EndMarkerIff` states exactly when the end marker exists.
- A signalled or otherwise abnormally ended child yields its raw wait status, not a dedicated status.
- A read error is fatal only when the read returned data and end-of-stream is not set.

## Model

| member | source | states |
|---|---|---|
| CStrings.CStr | woosh.c:166 | the C string in a buffer is its longest NUL-free prefix, ending at the first NUL or at the end of the buffer |
| CStrings.StrnEq | woosh.c:137-149 | `strncmp(a, b, n) == 0` holds exactly when both strings agree on their first n characters if both are that long, and are equal otherwise; prefix reading in StrnEqKeyword |
| CStrings.StrnEqKeyword | woosh.c:137-149 | `strncmp(word, kw, strlen(kw)) == 0` holds exactly when `kw` is a prefix of `word`, so longer words select a builtin too |
| Tokenizer.Tokens | woosh.c:34-50 | every token the tokenizer yields is non-empty and contains no space (tabs are kept inside tokens) |
| Tokenizer.Truncate | woosh.c:47-48 | an argument is the longest prefix of its token that has at most 127 characters, so a token of at most 127 characters is copied unchanged |
| Tokenizer.SplitArgs | woosh.c:43-51 | one argument per token, in order; each is a non-empty, space-free prefix of its token with length min(token length, 127), equal to the token when it fits |
| Tokenizer.SplitArgsNoTruncation | woosh.c:47-48 | when no token exceeds 127 characters the argument list is exactly the token list |
| Tokenizer.BuildArgv | woosh.c:29-57 | a NULL string or result handle gives -1 and no list; otherwise the loop returns the count of arguments it produced, and they are the truncated maximal runs of the C string in order |
| Tokenizer.ScanTokens | woosh.c:43-51 | the scanning loop (skip a delimiter, or take the next run and store it truncated) produces exactly the truncated maximal runs in order |
| Tokenizer.ScanRun | woosh.c:34 | the token found at a non-space position extends to the next space or the end of the string, and contains no space |
| Tokenizer.TokensOfLayout | woosh.c:34-50 | round trip: words separated by any non-empty runs of spaces, with any leading and trailing spaces, tokenize back to exactly those words |
| Tokenizer.LayoutOfTokens | woosh.c:43-51 | every line is its own tokens laid out between runs of spaces, one or more between two tokens; with TokensOfLayout, the tokens are the line's maximal non-space runs and nothing else |
| Tokenizer.ConcatTokens | woosh.c:43-51 | the tokens keep the input's order and lose only spaces: their concatenation is the line with every space removed |
| Tokenizer.TokensEmptyIff | woosh.c:43-56 | a line yields 0 tokens exactly when it is empty or all spaces |
| Tokenizer.TokensExamples | woosh.c:26-28 | "ls -ahlrt" gives ["ls", "-ahlrt"], "ls   -a" gives ["ls", "-a"], and the empty and all-space lines give no tokens |
| Tokenizer.TokensExitExamples | woosh.c:34-50 | the line `exit` gives ["exit"], and `  exitfoo bar` gives ["exitfoo", "bar"] |
| Trim.TrimRight | woosh.c:162-171 | a NULL buffer is left alone; otherwise only the last character of the buffer's C string (before the first NUL) can change, and it changes to the replacement exactly when it is the character to trim; an empty C string is untouched |
| Trim.TrimNewlineRoundTrip | woosh.c:200-201 | trimming with a NUL replacement turns a line plus newline back into the line, and leaves a line without a final newline as it is |
| Trim.TrimRemovesOneNewline | woosh.c:167-170 | at most one trailing newline is removed: a line ending in two newlines keeps the first |
| Trim.TrimStopsAtNul | woosh.c:166-167 | a newline after an embedded NUL lies outside the C string and is left in place |
| Executor.ExecutorStatus | woosh.c:89-125 | status 0 only for a child that exited with 0; a normal exit's code (0..255) and an abnormal end's raw wait status come back unchanged; fork failure gives `STATUS_FORK_FAIL` and the child's path after a failed exec gives `STATUS_EXEC_FAIL`, both outside the exit-code range and different from `STATUS_EXIT` |
| Executor.ExecutorStatusDistinguishes | woosh.c:93-113 | fork failure, exec failure and each exit code give pairwise different statuses, so outside the abnormal cases the status identifies the outcome |
| Dispatcher.Dispatch | woosh.c:133-156 | no tokens or an `exit` prefix means exit; cd is chosen only for a `cd` prefix; a spawn carries the whole non-empty list; full characterisation in DispatchByPrefix |
| Dispatcher.DispatchByPrefix | woosh.c:133-156 | no tokens or an `exit` prefix means exit whatever follows; otherwise a `cd` prefix means cd to the second token (NULL if absent), then a `help` prefix means help, and only a list matching none is spawned, whole; both directions of each case |
| Dispatcher.DispatchPrefixExamples | woosh.c:137-152 | `exitfoo ...` exits, `cdrom` is cd without a path, `helpme x` is help, and `ls -a` is spawned unchanged |
| Dispatcher.ChdirStatus | woosh.c:141-148 | `cd` gives 0 exactly when a path was given and the directory change succeeded, and `EXIT_FAILURE` otherwise |
| Dispatcher.ProcessCommand | woosh.c:131-159 | the command ends the program exactly when it is help, and then with `EXIT_FAILURE`; every other decision returns a status; per-branch statuses in ProcessCommandOutcome |
| Dispatcher.ProcessCommandConsultsOnlyItsCall | woosh.c:136-158 | exit and help consult no OS call (nothing is spawned), cd's outcome depends only on chdir, and a spawned command's outcome depends only on its fork/wait outcome |
| Dispatcher.ProcessCommandOutcome | woosh.c:131-159 | exit or no tokens returns `STATUS_EXIT`; only help ends the program instead of returning; cd returns 0 exactly when a path was given and chdir succeeded, else `EXIT_FAILURE`; a spawned command returns the executor's status: the child's exit code N, `STATUS_EXEC_FAIL` after a failed exec, `STATUS_FORK_FAIL` after a failed fork |
| Controller.Cycle | woosh.c:179-213 | the program ends inside a cycle only with `EXIT_FAILURE`; a cycle returns 0 only when a complete line of at most 64 arguments was dispatched as cd or as an external command |
| Controller.CycleAtEndOfStream | woosh.c:187-192 | a read that hit end of stream returns `STATUS_EXIT` whatever it read, so a final line without a newline is never run |
| Controller.CycleReadError | woosh.c:193-197 | an error flag after a successful read ends the program with `EXIT_FAILURE` |
| Controller.CycleNoLine | woosh.c:186-212 | a read that returns nothing leaves an empty line, which dispatches as exit and returns `STATUS_EXIT` |
| Controller.CycleTooManyArgs | woosh.c:203-210 | a line with more than 64 tokens returns `STATUS_TOO_MANY_ARGS` whatever the OS would answer, so it is never dispatched |
| Controller.CycleDispatchesLine | woosh.c:200-212 | a complete line with at most 64 tokens is dispatched with the arguments of the line without its newline |
| Controller.CycleExitLine | woosh.c:133-139 | a complete line with no words, or whose first word begins with `exit` (`exit`, `exit now`, `exitfoo`, `  exit`), returns `STATUS_EXIT` whatever follows |
| Controller.CycleBareExit | woosh.c:201-212 | the line `exit` returns `STATUS_EXIT` |
| Controller.CycleSpawnStatus | woosh.c:153-155 | a complete line dispatched as an external command returns the executor's status: exactly N when the child exited with N, `STATUS_EXEC_FAIL` when the program could not be run, `STATUS_FORK_FAIL` when no child was created |
| Controller.Slots | woosh.c:35-49 | the argument array has 64 slots, and slot i holds the i-th argument |
| Controller.EndMarkerIff | woosh.c:204 | the array has a NULL end marker exactly when fewer than 64 arguments were stored; with exactly 64 (which the cycle's check lets through) it has none |
| Controller.CdPathIsSecondSlot | woosh.c:143 | the path `cd` passes to chdir is the array's second slot: the second argument, or NULL when there is none (up to and including 64 arguments) |
| Driver.ProgramResult | main.c:12 | a final (non-zero) status gives program result 0 exactly when it is `STATUS_EXIT`; any other status is returned unchanged |
| Driver.FinalResult | main.c:12 | a returned non-zero status gives result 0 exactly when it is `STATUS_EXIT` and is otherwise kept; a program termination inside a cycle gives its own code |
| Driver.Run | main.c:9-10 | a session that ended did so after at least one and at most as many cycles as were available |
| Driver.RunEndsAtFirstStop | main.c:9-12 | the session ends after n cycles with result r exactly when the first n-1 cycles returned 0, the n-th did not, and r is that cycle's final result |
| Driver.RunRunningIff | main.c:9-10 | the loop asks for another cycle exactly as long as every cycle so far returned 0 |
| Driver.Drive | main.c:5-13 | over the inputs of successive cycles: running exactly while every cycle returned 0; an ended session stopped at the first non-zero cycle with that cycle's final result |
| Driver.ScriptRunsCommandsThenExit | main.c:9-12 | k commands that return 0 followed by a cycle returning `STATUS_EXIT` run exactly k+1 cycles and end with result 0 |
| Driver.FailingCdEndsSession | main.c:9-12 | a failing `cd` after k zero-status commands ends the session after k+1 cycles with result `EXIT_FAILURE` |

## Left out

- Process and filesystem calls (`fork`, `execvp`, `waitpid`, `chdir`): the outcome each reports is an input (`ForkOutcome`, `WaitOutcome`, `ChdirOutcome`). The wait-status bit layout behind `WIFEXITED`, `WEXITSTATUS` and `WIFSIGNALED` is not modelled. The model only assumes that a status that is not a normal exit is non-zero.
- A failed `execvp` makes the child process run its own `cycle`/`main` with status 666, which its parent then sees as an exit code modulo 256. This crosses processes and is not modelled; only the status on the child's path is.
- Stream I/O (`fgets`, `feof`, `ferror`, `isatty`, `prompt`): a read is a `ReadOutcome`. The model does not bound the line at `MAX_INPUT_LENGTH - 1` characters, and it does not model a longer line continuing in the next read.
- When `fgets` returns NULL because of an error, the C standard leaves the buffer indeterminate. The model treats every NULL read as leaving the zeroed buffer, as at end of stream.
- Truncate: one model `char` stands for one C byte; multi-byte encodings are not modelled, so the 127-byte cut of `strncat` is a 127-character cut here, and line lengths count characters.
- Memory management (`calloc_char_or_die`, `free_args`, allocation failures, and writes past the 64-slot array for more than 64 tokens): sequences replace the buffers.
- `strtok_r` writing NULs into the line buffer is not modelled; the tokenizer is a pure function of the line.
- `usage`, `print_args`, `get_input_file_or_die`, `DEBUG_PRINT`, and the diagnostics printed with `printf`/`perror` are output only. `help` is modelled as terminating with `EXIT_FAILURE`, which is all `usage` does to control flow.
- The `argv == NULL` test in `process_command_from_argv` is not reachable from `cycle`, whose buffer is never NULL. Its `*argv == NULL` half is the empty list, which is modelled.
- `STATUS_INVALID_CMD` is defined in the header but never used.
- The operating system truncating `main`'s return value to 8 bits is outside the program and not modelled.
