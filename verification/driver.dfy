/** main in main.c: run cycles while they return 0, then turn the last
    status into the program's result. */
module Driver {
  import opened Config
  import opened Dispatcher
  import opened Controller

  /** A session either is still running once the cycles seen so far are
      used up, or ended with a program result after a number of cycles. */
  datatype Session = Running | Ended(result: int, cycles: nat)

  /** main's final mapping of the last status: STATUS_EXIT means success. */
  function ProgramResult(status: int): (r: int)
    ensures status != 0 ==> (r == 0 <==> status == STATUS_EXIT)
    ensures status != STATUS_EXIT ==> r == status
  {
    if status == STATUS_EXIT then EXIT_SUCCESS else status
  }

  /** The program's result after a cycle that stopped the loop; a cycle
      that terminated the program decides the result itself. */
  function FinalResult(o: Outcome): (r: int)
    ensures o.Returned? && o.status != 0 ==> (r == 0 <==> o.status == STATUS_EXIT)
    ensures o.Returned? && o.status != STATUS_EXIT ==> r == o.status
    ensures o.Terminated? ==> r == o.code
  {
    match o
    case Returned(status) => ProgramResult(status)
    case Terminated(code) => code
  }

  /** The loop `while ((retval = cycle(in_file)) == 0) ;` over the outcomes
      of successive cycles. */
  function Run(outs: seq<Outcome>): (s: Session)
    ensures s.Ended? ==> 1 <= s.cycles <= |outs|
    decreases |outs|
  {
    if |outs| == 0 then Running
    else if outs[0] == Returned(0) then
      match Run(outs[1..])
      case Running => Running
      case Ended(r, n) => Ended(r, n + 1)
    else Ended(FinalResult(outs[0]), 1)
  }

  /** The session ends at the first cycle that does not return 0, both
      directions: it ends after n cycles with result r exactly when the
      first n - 1 cycles return 0, the n-th does not, and r is that cycle's
      final result. */
  lemma {:induction false} RunEndsAtFirstStop(outs: seq<Outcome>, n: nat, r: int)
    ensures Run(outs) == Ended(r, n) <==>
      && 1 <= n <= |outs|
      && (forall i :: 0 <= i < n - 1 ==> outs[i] == Returned(0))
      && outs[n - 1] != Returned(0)
      && r == FinalResult(outs[n - 1])
    decreases |outs|
  {
    if |outs| > 0 && outs[0] == Returned(0) && n >= 2 {
      var tail := outs[1..];
      RunEndsAtFirstStop(tail, n - 1, r);
      if n <= |outs| {
        assert tail[n - 2] == outs[n - 1];
        assert (forall i :: 0 <= i < n - 1 ==> outs[i] == Returned(0)) <==>
               (forall i :: 0 <= i < n - 2 ==> tail[i] == Returned(0)) by {
          if forall i :: 0 <= i < n - 2 ==> tail[i] == Returned(0) {
            forall i | 0 <= i < n - 1 ensures outs[i] == Returned(0) {
              if i > 0 { assert outs[i] == tail[i - 1]; }
            }
          }
        }
      }
    }
  }

  /** The session is still running exactly when every cycle returned 0. */
  lemma {:induction false} RunRunningIff(outs: seq<Outcome>)
    ensures Run(outs) == Running <==> forall i :: 0 <= i < |outs| ==> outs[i] == Returned(0)
    decreases |outs|
  {
    if |outs| > 0 {
      RunRunningIff(outs[1..]);
      if outs[0] == Returned(0) {
        assert forall i :: 0 < i < |outs| ==> outs[i] == outs[1..][i - 1];
      }
    }
  }

  /** The inputs of one cycle: what the read reported and what the
      operating system answers to the command's call. */
  datatype CycleInput = CycleInput(read: ReadOutcome, os: OsAnswers)

  function Outcomes(inputs: seq<CycleInput>): (outs: seq<Outcome>)
    ensures |outs| == |inputs|
    ensures forall i :: 0 <= i < |inputs| ==> outs[i] == Cycle(inputs[i].read, inputs[i].os)
  {
    seq(|inputs|, i requires 0 <= i < |inputs| => Cycle(inputs[i].read, inputs[i].os))
  }

  /** main over the inputs its successive cycles see. The session is still
      running exactly when every cycle so far returned 0; when it ended
      after n cycles, the n-th cycle was the first that did not return 0
      and its final result is the program's. */
  function Drive(inputs: seq<CycleInput>): (s: Session)
    ensures s == Running <==>
      forall i :: 0 <= i < |inputs| ==> Cycle(inputs[i].read, inputs[i].os) == Returned(0)
    ensures s.Ended? ==>
      && 1 <= s.cycles <= |inputs|
      && (forall i :: 0 <= i < s.cycles - 1 ==> Cycle(inputs[i].read, inputs[i].os) == Returned(0))
      && Cycle(inputs[s.cycles - 1].read, inputs[s.cycles - 1].os) != Returned(0)
      && s.result == FinalResult(Cycle(inputs[s.cycles - 1].read, inputs[s.cycles - 1].os))
  {
    var outs := Outcomes(inputs);
    RunRunningIff(outs);
    var s := Run(outs);
    if s.Ended? then
      RunEndsAtFirstStop(outs, s.cycles, s.result);
      s
    else s
  }

  /** A script of k commands that each return 0, followed by a cycle that
      returns STATUS_EXIT (an `exit` line, the end of the stream), runs
      exactly k + 1 cycles and ends with result 0, whatever comes after. */
  lemma ScriptRunsCommandsThenExit(ok: seq<CycleInput>, last: CycleInput, after: seq<CycleInput>)
    requires forall i :: 0 <= i < |ok| ==> Cycle(ok[i].read, ok[i].os) == Returned(0)
    requires Cycle(last.read, last.os) == Returned(STATUS_EXIT)
    ensures Drive(ok + [last] + after) == Ended(0, |ok| + 1)
  {
    var inputs := ok + [last] + after;
    assert inputs[|ok|] == last;
    assert forall i :: 0 <= i < |ok| ==> inputs[i] == ok[i];
    RunEndsAtFirstStop(Outcomes(inputs), |ok| + 1, 0);
  }

  /** A failing `cd` returns EXIT_FAILURE, which is not 0: it ends the
      session, and EXIT_FAILURE becomes the program's result. */
  lemma FailingCdEndsSession(ok: seq<CycleInput>, cd: CycleInput, after: seq<CycleInput>)
    requires forall i :: 0 <= i < |ok| ==> Cycle(ok[i].read, ok[i].os) == Returned(0)
    requires cd.read.Line? && !cd.read.atEof && !cd.read.failed
    requires |LineArgs(cd.read.buf)| <= MAX_ARGS
    requires Dispatch(LineArgs(cd.read.buf)).ChangeDir?
    requires cd.os.chdir == ChdirFailed
    ensures Drive(ok + [cd] + after) == Ended(EXIT_FAILURE, |ok| + 1)
  {
    var inputs := ok + [cd] + after;
    assert inputs[|ok|] == cd;
    assert forall i :: 0 <= i < |ok| ==> inputs[i] == ok[i];
    RunEndsAtFirstStop(Outcomes(inputs), |ok| + 1, EXIT_FAILURE);
  }
}
