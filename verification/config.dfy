/** The shell's compile-time limits and status codes (woosh.h). */
module Config {

  /** Capacity of the argument array allocated for one command line. */
  const MAX_ARGS: nat := 64
  /** Size of one argument buffer, terminator included. */
  const MAX_ARG_LENGTH: nat := 128
  /** Size of the line buffer handed to the line reader, terminator included. */
  const MAX_INPUT_LENGTH: nat := 256

  /** Longest argument text that fits next to its terminator. */
  const MAX_TOKEN: nat := MAX_ARG_LENGTH - 1

  /** Status meaning "leave the read loop successfully". */
  const STATUS_EXIT: int := 1661
  /** Status of the child branch when replacing the program image failed. */
  const STATUS_EXEC_FAIL: int := 666
  /** Status of a cycle whose line had more than MAX_ARGS arguments. */
  const STATUS_TOO_MANY_ARGS: int := 2
  /** Status of a failed process creation. The header never defines this
      name; the model fixes a value distinct from every other status and
      from every child exit code (0..255). */
  const STATUS_FORK_FAIL: int := 667

  /** The C library's conventional process results. */
  const EXIT_SUCCESS: int := 0
  const EXIT_FAILURE: int := 1
}
