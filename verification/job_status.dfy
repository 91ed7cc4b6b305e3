/** Job states and reasons as the status listings report them. */
module JobStatuses {
  import opened Wrappers
  import opened Text

  datatype JobState =
    | Pending | Configuring | Requeued | RequeueFed | RequeueHold | ResvDelHold | Suspended | Stopped
    | Running | Completing | Resizing | Signaling | StageOut
    | Completed
    | BootFail | Cancelled | Deadline | Failed | NodeFail | OutOfMemory | Preempted | Revoked | SpecialExit | Timeout
    | Unknown
  {
    /** The job will never run again. */
    predicate IsTerminal() {
      || Completed? || BootFail? || Cancelled? || Deadline? || Failed? || NodeFail?
      || OutOfMemory? || Preempted? || Revoked? || SpecialExit? || Timeout?
    }
  }

  /** All other states, an unrecognised one among them, can still change. */
  lemma LiveStates(state: JobState)
    ensures !state.IsTerminal() <==>
            || state.Pending? || state.Configuring? || state.Requeued? || state.RequeueFed? || state.RequeueHold?
            || state.ResvDelHold? || state.Suspended? || state.Stopped? || state.Running? || state.Completing?
            || state.Resizing? || state.Signaling? || state.StageOut? || state.Unknown?
  {
  }

  datatype JobReason = NoReason | Named(token: string)

  datatype JobStatus = JobStatus(state: JobState, reason: JobReason)

  const UNKNOWN_STATUS := JobStatus(Unknown, NoReason)

  /** A status and, where accounting reports one, an exit code. */
  datatype JobOutcome = JobOutcome(status: JobStatus, exitCode: Option<int>)

  const NO_OUTCOME := JobOutcome(UNKNOWN_STATUS, None)

  /** The vocabulary of state tokens. Nothing below depends on which token names
      which state. */
  type StateTable = string -> JobState

  function ParseReason(raw: string): JobReason {
    var token := Trim(raw);
    if token == "" || token == "None" then NoReason else Named(token)
  }

  /** Addition in `i32` as a release build does it. */
  function WrapI32(n: int): int {
    (n - I32_MIN) % 0x1_0000_0000 + I32_MIN
  }

  /** The `exit:signal` column; a job killed by a signal reports 128 + signal. */
  function ParseExitCode(field: string): Option<int> {
    match SplitOnce(field, ':')
    case None => None
    case Some(p) =>
      match (ParseI32(p.0), ParseI32(p.1))
      case (Some(exit), Some(signal)) => Some(ExitCodeOf(exit, signal))
      case _ => None
  }

  function ExitCodeOf(exit: int, signal: int): int {
    if signal != 0 then WrapI32(128 + signal) else exit
  }

  lemma WrapsOnce(n: int)
    requires I32_MIN <= n <= I32_MAX + 128
    ensures WrapI32(n) == if n <= I32_MAX then n else n - 0x1_0000_0000
  {
    var offset := n - I32_MIN;
    if offset >= 0x1_0000_0000 {
      assert (offset - 0x1_0000_0000) % 0x1_0000_0000 == offset % 0x1_0000_0000;
    }
  }

  lemma NumberHoldsNoColon(s: string)
    requires ParseI32(s).Some?
    ensures ':' !in s
  {
    var digits := if s != "" && (s[0] == '+' || s[0] == '-') then s[1..] else s;
    forall i | 0 <= i < |s|
      ensures s[i] != ':'
    {
      if |digits| == |s| {
        assert IsDigit(digits[i]);
      } else if i > 0 {
        assert IsDigit(digits[i - 1]);
      }
    }
  }

  /** The column means the exit code without a signal, and 128 + signal with one exactly
      as long as that fits in `i32`; beyond it, it turns negative. */
  lemma ExitCodeMeans(exit: string, signal: string)
    requires ParseI32(exit).Some? && ParseI32(signal).Some?
    ensures var n := ParseI32(signal).value;
            var code := ParseExitCode(exit + [':'] + signal);
            && code.Some?
            && (n == 0 ==> code == ParseI32(exit))
            && (n != 0 ==> (code.value == 128 + n <==> n <= I32_MAX - 128))
            && (n > I32_MAX - 128 ==> code.value < 0)
  {
    ColumnIsRead(exit, signal);
    CodeFits(ParseI32(exit).value, ParseI32(signal).value);
  }

  lemma CodeFits(exit: int, n: int)
    requires I32_MIN <= n <= I32_MAX
    ensures n == 0 ==> ExitCodeOf(exit, n) == exit
    ensures n != 0 ==> (ExitCodeOf(exit, n) == 128 + n <==> n <= I32_MAX - 128)
    ensures n > I32_MAX - 128 ==> ExitCodeOf(exit, n) < 0
  {
    if n != 0 {
      WrapsOnce(128 + n);
    }
  }

  lemma ColumnIsRead(exit: string, signal: string)
    requires ParseI32(exit).Some? && ParseI32(signal).Some?
    ensures ParseExitCode(exit + [':'] + signal) == Some(ExitCodeOf(ParseI32(exit).value, ParseI32(signal).value))
  {
    NumberHoldsNoColon(exit);
    SplitOnceAt(exit, signal, ':');
  }
}
