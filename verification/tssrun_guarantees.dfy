/** What holds of a `tssrun` handle in every interleaving of its tasks. */
module TssrunGuarantees {
  import opened Wrappers
  import opened Text
  import opened Sallocs
  import opened TssrunHandle

  // ---------------------------------------------------------------- write once

  /** Whatever `x` knows, `y` knows too, and it is the same child. */
  predicate Extends(x: Snapshot, y: Snapshot) {
    && y.uuid == x.uuid && y.pid == x.pid
    && (x.jobid.Some? ==> y.jobid == x.jobid)
    && (x.node.Some? ==> y.node == x.node)
    && (x.finished.Some? ==> y.finished == x.finished)
  }

  /** Job id, node and finish are written once each: every value of the watch extends
      all the earlier ones. */
  lemma {:induction false} FieldsAreWrittenOnce(job: Job, s: State, i: nat, j: nat)
    requires Reachable(job, s) && i <= j < |s.held|
    ensures Extends(s.held[i], s.held[j])
    decreases j
  {
    ReachableSatisfiesInv(job, s);
    if i < j {
      FieldsAreWrittenOnce(job, s, i, j - 1);
      assert FillsOne(s.held[j - 1], s.held[j]);
    }
  }

  function Known(x: Snapshot): nat {
    (if x.jobid.Some? then 1 else 0) + (if x.node.Some? then 1 else 0) + (if x.finished.Some? then 1 else 0)
  }

  lemma {:induction false} EveryChangeAddsOne(held: seq<Snapshot>, i: nat)
    requires i < |held| && Known(held[0]) == 0
    requires forall k :: 0 < k < |held| ==> FillsOne(held[k - 1], held[k])
    ensures Known(held[i]) == i
  {
    if i > 0 {
      EveryChangeAddsOne(held, i - 1);
    }
  }

  /** The watch changes at most three times, however many lines are read. */
  lemma AtMostThreeChanges(job: Job, s: State)
    requires Reachable(job, s)
    ensures |s.held| == 1 + Known(s.current) <= 4
  {
    ReachableSatisfiesInv(job, s);
    EveryChangeAddsOne(s.held, |s.held| - 1);
  }

  // ---------------------------------------------------------------- what wait promises

  /** `value` is what the first line that parses says, in the order of the log. */
  ghost predicate IsFirst<T>(log: seq<Line>, parse: string -> Option<T>, value: Option<T>) {
    if value.None? then forall k :: 0 <= k < |log| ==> parse(log[k].text).None?
    else exists k :: IsFirstAt(log, parse, value, k)
  }

  predicate IsFirstAt<T(==)>(log: seq<Line>, parse: string -> Option<T>, value: Option<T>, k: nat) {
    k < |log| && parse(log[k].text) == value && forall i :: 0 <= i < k ==> parse(log[i].text).None?
  }

  lemma {:induction false} FirstIsFirst<T>(log: seq<Line>, parse: string -> Option<T>)
    ensures IsFirst(log, parse, First(log, parse))
    decreases |log|
  {
    if log != [] {
      var n := |log| - 1;
      var init := log[..n];
      FirstIsFirst(init, parse);
      var before := First(init, parse);
      if before.Some? {
        var k :| IsFirstAt(init, parse, before, k);
        assert IsFirstAt(log, parse, before, k);
      } else {
        forall k | 0 <= k < n
          ensures parse(log[k].text).None?
        {
          assert init[k] == log[k];
        }
        if parse(log[n].text).Some? {
          assert IsFirstAt(log, parse, parse(log[n].text), n);
        }
      }
    }
  }

  /** The log is an interleaving of what was read from the two streams. */
  predicate Interleaves(job: Job, s: State, log: seq<Line>) {
    forall stream ::
      && TeeOf(s, stream).read <= |LinesOf(job, stream)|
      && Of(log, stream) == LinesOf(job, stream)[..TeeOf(s, stream).read]
  }

  /** When `wait` returns a code, the finish records that code, both streams have been
      read to the end or to a read error, and job id and node are what the first line
      to parse says, in the order in which the two tasks looked at the lines. */
  lemma WaitReturnsTheWholeStory(job: Job, s: State, code: Option<int>)
    requires Reachable(job, s) && Code(code) in s.results
    ensures s.current.finished.Some? && s.current.finished.value.exitCode == code
    ensures forall stream :: && TeeOf(s, stream).phase.Ended?
                             && (TeeOf(s, stream).phase.clean ==> TeeOf(s, stream).read == |LinesOf(job, stream)|)
    ensures Interleaves(job, s, s.jobidLog) && Interleaves(job, s, s.nodeLog)
    ensures IsFirst(s.jobidLog, ParseJobid, s.current.jobid) && IsFirst(s.nodeLog, ParseNode, s.current.node)
  {
    ReachableSatisfiesInv(job, s);
    assert ResultFollows(s, Code(code));
    forall stream
      ensures && TeeOf(s, stream).phase.Ended?
              && TeeOf(s, stream).read <= |LinesOf(job, stream)|
              && (TeeOf(s, stream).phase.clean ==> TeeOf(s, stream).read == |LinesOf(job, stream)|)
      ensures Of(s.jobidLog, stream) == Of(s.nodeLog, stream) == LinesOf(job, stream)[..TeeOf(s, stream).read]
    {
      assert TeeFollows(job, s, stream);
    }
    FirstIsFirst(s.jobidLog, ParseJobid);
    FirstIsFirst(s.nodeLog, ParseNode);
  }

  lemma {:induction false} OfHoldsTheLines(log: seq<Line>, stream: Stream, text: string)
    ensures text in Of(log, stream) <==> Line(stream, text) in log
    decreases |log|
  {
    if log != [] {
      OfHoldsTheLines(log[..|log| - 1], stream, text);
      assert log == log[..|log| - 1] + [log[|log| - 1]];
    }
  }

  predicate WasRead(job: Job, s: State, stream: Stream, text: string) {
    TeeOf(s, stream).read <= |LinesOf(job, stream)| && text in LinesOf(job, stream)[..TeeOf(s, stream).read]
  }

  /** After `wait`, a job id is known exactly when some line that was read names one. */
  lemma JobidIsKnownExactlyWhenRead(job: Job, s: State, code: Option<int>)
    requires Reachable(job, s) && Code(code) in s.results
    ensures s.current.jobid.Some? <==> exists stream, text :: WasRead(job, s, stream, text) && ParseJobid(text).Some?
  {
    WaitReturnsTheWholeStory(job, s, code);
    KnownExactlyWhenRead(job, s, s.jobidLog, ParseJobid, s.current.jobid);
  }

  /** The same of the node. */
  lemma NodeIsKnownExactlyWhenRead(job: Job, s: State, code: Option<int>)
    requires Reachable(job, s) && Code(code) in s.results
    ensures s.current.node.Some? <==> exists stream, text :: WasRead(job, s, stream, text) && ParseNode(text).Some?
  {
    WaitReturnsTheWholeStory(job, s, code);
    KnownExactlyWhenRead(job, s, s.nodeLog, ParseNode, s.current.node);
  }

  lemma KnownExactlyWhenRead<T>(job: Job, s: State, log: seq<Line>, parse: string -> Option<T>, value: Option<T>)
    requires Interleaves(job, s, log) && IsFirst(log, parse, value)
    ensures value.Some? <==> exists stream, text :: WasRead(job, s, stream, text) && parse(text).Some?
  {
    if value.Some? {
      var k: nat :| IsFirstAt(log, parse, value, k);
      OfHoldsTheLines(log, log[k].stream, log[k].text);
      assert WasRead(job, s, log[k].stream, log[k].text);
    }
    forall stream, text | WasRead(job, s, stream, text) && parse(text).Some?
      ensures value.Some?
    {
      OfHoldsTheLines(log, stream, text);
    }
  }

  // ---------------------------------------------------------------- saving

  /** Nothing is saved that the watch did not hold. */
  lemma SavedValuesWereHeld(job: Job, s: State, x: Snapshot)
    requires Reachable(job, s) && x in s.saved
    ensures x in s.held && Extends(x, s.current)
  {
    ReachableSatisfiesInv(job, s);
    var i :| 0 <= i < |s.held| && s.held[i] == x;
    FieldsAreWrittenOnce(job, s, i, |s.held| - 1);
  }

  predicate TasksHaveEnded(s: State) {
    s.out.phase.Ended? && s.err.phase.Ended? && (s.exit.Exited? || s.exit.WaitFailed?)
  }

  /** Every change is written through: once the tasks have ended and no save has failed,
      the final value has been saved. */
  lemma FinalValueIsSaved(job: Job, s: State)
    requires Reachable(job, s) && TasksHaveEnded(s)
    requires job.hasStore && !s.saveFailed
    ensures s.current in s.saved
  {
    ReachableSatisfiesInv(job, s);
    assert forall stream :: TeeOf(s, stream).phase.Ended?;
  }

  /** Saving last is something else: a clone taken before the exit can be saved after
      the one taken at the exit, and the store is left without the finish. */
  lemma {:induction false} StoreMayEndBehind() returns (job: Job, s: State)
    ensures Reachable(job, s) && TasksHaveEnded(s) && job.hasStore && !s.saveFailed
    ensures s.current.finished.Some? && s.saved != [] && s.saved[|s.saved| - 1].finished.None?
  {
    var banner := GrantedBanner();
    job := Job(0, 0, [banner], [], true);
    var cloned := ReadAndCloneJobid(job, banner);
    s := ExitBeforeSave(job, cloned);
  }

  lemma GrantedBanner() returns (line: string)
    ensures ParseJobid(line).Some? && ParseNode(line).None?
  {
    line := GRANTED + Dec(7);
    JobidOfBanner(7);
    BannersAreDisjoint(line);
  }

  /** The child exits and the exit is saved before the clone of the tee task is. */
  lemma ExitBeforeSave(job: Job, s4: State) returns (s: State)
    requires Reachable(job, s4) && job.hasStore && !s4.saveFailed
    requires s4.out.read == 1 == |job.stdout| && s4.out.phase == Saving(s4.current) && s4.current.finished.None?
    requires s4.exit.ChildRuns? && s4.err == Tee(0, AtRead) && job.stderr == []
    ensures Reachable(job, s) && TasksHaveEnded(s) && !s.saveFailed
    ensures s.current.finished.Some? && s.saved != [] && s.saved[|s.saved| - 1] == s4.current
  {
    var s5 := Apply(job, s4, ChildExits(Some(0), 0));
    ReachableStep(job, s4, ChildExits(Some(0), 0));
    var s6 := Apply(job, s5, CloneExit);
    ReachableStep(job, s5, CloneExit);
    var s7 := Apply(job, s6, SaveExit(true));
    ReachableStep(job, s6, SaveExit(true));
    var s8 := Apply(job, s7, Save(Stdout, true));
    ReachableStep(job, s7, Save(Stdout, true));
    var s9 := Apply(job, s8, EndOfStream(Stdout));
    ReachableStep(job, s8, EndOfStream(Stdout));
    s := Apply(job, s9, EndOfStream(Stderr));
    ReachableStep(job, s9, EndOfStream(Stderr));
  }

  /** One stdout line names a job id, and the tee task has cloned the snapshot for it. */
  lemma {:induction false} ReadAndCloneJobid(job: Job, line: string) returns (s: State)
    requires job.stdout == [line] && job.hasStore
    requires ParseJobid(line).Some? && ParseNode(line).None?
    ensures Reachable(job, s)
    ensures s.out.read == 1 && s.out.phase == Saving(s.current) && s.current.finished.None?
    ensures s.exit.ChildRuns? && s.err == Tee(0, AtRead) && !s.saveFailed
  {
    var s0 := Spawned(job, true);
    SpawnedIsReachable(job, true);
    var s1 := Apply(job, s0, ReadLine(Stdout));
    var s2 := Apply(job, s1, LookForJobid(Stdout));
    var s3 := Apply(job, s2, LookForNode(Stdout));
    s := Apply(job, s3, Clone(Stdout));
    ReachableStep(job, s0, ReadLine(Stdout));
    ReachableStep(job, s1, LookForJobid(Stdout));
    ReachableStep(job, s2, LookForNode(Stdout));
    ReachableStep(job, s3, Clone(Stdout));
  }

  lemma SpawnedIsReachable(job: Job, ok: bool)
    ensures Reachable(job, Spawned(job, ok))
  {
    assert Possible(job, Spawned(job, ok), []) && Run(job, Spawned(job, ok), []) == Spawned(job, ok);
  }

  lemma {:induction false} RunOneMore(job: Job, s: State, actions: seq<Action>, a: Action)
    requires Possible(job, s, actions) && Enabled(job, Run(job, s, actions), a)
    ensures Possible(job, s, actions + [a])
    ensures Run(job, s, actions + [a]) == Apply(job, Run(job, s, actions), a)
    decreases |actions|
  {
    var all := actions + [a];
    if actions == [] {
      assert all[1..] == [];
    } else {
      assert all[1..] == actions[1..] + [a];
      RunOneMore(job, Apply(job, s, actions[0]), actions[1..], a);
    }
  }

  lemma ReachableStep(job: Job, s: State, a: Action)
    requires Reachable(job, s) && Enabled(job, s, a)
    ensures Reachable(job, Apply(job, s, a))
  {
    var ok, actions :| Possible(job, Spawned(job, ok), actions) && Run(job, Spawned(job, ok), actions) == s;
    RunOneMore(job, Spawned(job, ok), actions, a);
  }

  // ---------------------------------------------------------------- ownership and progress

  /** Once `wait` has been called, returned or not, every later call fails at once and
      changes nothing else. */
  lemma LaterWaitsFail(job: Job, s: State, actions: seq<Action>)
    requires Enabled(job, s, CallWait) && Possible(job, Apply(job, s, CallWait), actions)
    ensures var t := Run(job, Apply(job, s, CallWait), actions);
            !t.owned && (Enabled(job, t, CallWait) ==> Apply(job, t, CallWait) == t.(results := t.results + [NotOwner]))
  {
    NeverOwnedAgain(job, Apply(job, s, CallWait), actions);
  }

  lemma {:induction false} NeverOwnedAgain(job: Job, s: State, actions: seq<Action>)
    requires !s.owned && Possible(job, s, actions)
    ensures !Run(job, s, actions).owned
    decreases |actions|
  {
    if actions != [] {
      EndedTasksStay(job, s, actions[0]);
      NeverOwnedAgain(job, Apply(job, s, actions[0]), actions[1..]);
    }
  }

  /** A step of a healthy run: nothing fails to be read or waited for, and the owner of
      the handle neither calls `wait` again nor drops the call. */
  predicate Ordinary(a: Action) {
    !a.ReadError? && !a.ChildWaitFails? && !a.CallWait? && !a.Abandon?
  }

  /** While a task has not ended or a call of `wait` is pending, such a step is possible. */
  lemma TasksAreNeverStuck(job: Job, s: State) returns (a: Action)
    requires Reachable(job, s)
    requires !TasksHaveEnded(s) || !s.waiter.Idle?
    ensures Enabled(job, s, a) && Ordinary(a)
  {
    ReachableSatisfiesInv(job, s);
    assert TeeFollows(job, s, Stdout) && TeeFollows(job, s, Stderr);
    if TasksHaveEnded(s) {
      a := Join;
    } else if !s.exit.Exited? && !s.exit.WaitFailed? {
      a := if s.exit.ChildRuns? then ChildExits(None, 0) else if s.exit.Recorded? then CloneExit else SaveExit(true);
    } else {
      var stream := if s.out.phase.Ended? then Stderr else Stdout;
      var tee := TeeOf(s, stream);
      a := if tee.phase.GotLine? then LookForJobid(stream)
           else if tee.phase.JobidDone? then LookForNode(stream)
           else if tee.phase.Cloning? then Clone(stream)
           else if tee.phase.Saving? then Save(stream, true)
           else if tee.read < |LinesOf(job, stream)| then ReadLine(stream)
           else EndOfStream(stream);
    }
  }

  /** How many steps the current turn of a tee task may still take. */
  function Stage(phase: TeePhase): nat {
    match phase
    case GotLine(_) => 5
    case JobidDone(_, _) => 4
    case Cloning => 3
    case Saving(_) => 2
    case AtRead => 1
    case Ended(_) => 0
  }

  function TeeWork(lines: seq<string>, tee: Tee): int {
    (|lines| - tee.read) * 6 + Stage(tee.phase)
  }

  function ExitWork(exit: ExitPhase): nat {
    match exit
    case ChildRuns => 3
    case Recorded(_) => 2
    case SavingExit(_, _) => 1
    case _ => 0
  }

  function WaiterWork(s: State): nat {
    if s.owned then 4
    else
      match s.waiter
      case JoiningStdout => 3
      case JoiningStderr => 2
      case JoiningExit => 1
      case Idle => 0
  }

  /** An upper bound on the steps still to come. */
  function Work(job: Job, s: State): int {
    TeeWork(job.stdout, s.out) + TeeWork(job.stderr, s.err) + ExitWork(s.exit) + WaiterWork(s)
  }

  predicate IsTeeStep(a: Action) {
    a.ReadLine? || a.EndOfStream? || a.ReadError? || a.LookForJobid? || a.LookForNode? || a.Clone? || a.Save?
  }

  lemma TeeStepsAdvance(job: Job, s: State, a: Action, stream: Stream)
    requires Enabled(job, s, a)
    ensures var before, after := TeeOf(s, stream), TeeOf(Apply(job, s, a), stream);
            if a == ReadLine(stream) then before.phase.AtRead? && after.read == before.read + 1 && after.phase.GotLine?
            else if IsTeeStep(a) && a.stream == stream then after.read == before.read && Stage(after.phase) < Stage(before.phase)
            else after == before
  {
  }

  lemma {:induction false} OtherStepsShorten(job: Job, s: State, a: Action)
    requires Enabled(job, s, a) && WaiterFollows(s)
    ensures var t := Apply(job, s, a);
            if IsTeeStep(a) || (a == CallWait && !s.owned) then t.exit == s.exit && WaiterWork(t) == WaiterWork(s)
            else ExitWork(t.exit) + WaiterWork(t) < ExitWork(s.exit) + WaiterWork(s)
  {
  }

  /** Every step leaves less to do, unless it is a call of `wait` that fails. */
  lemma {:induction false} StepsShortenTheWork(job: Job, s: State, a: Action)
    requires Reachable(job, s) && Enabled(job, s, a)
    ensures Work(job, s) >= 0
    ensures if a == CallWait && !s.owned then Work(job, Apply(job, s, a)) == Work(job, s)
            else Work(job, Apply(job, s, a)) < Work(job, s)
  {
    ReachableSatisfiesInv(job, s);
    assert TeeFollows(job, s, Stdout) && TeeFollows(job, s, Stderr);
    TeeStepsAdvance(job, s, a, Stdout);
    TeeStepsAdvance(job, s, a, Stderr);
    OtherStepsShorten(job, s, a);
  }

  lemma {:induction false} FirstThenRest(job: Job, s: State, a: Action, rest: seq<Action>)
    requires Enabled(job, s, a) && Possible(job, Apply(job, s, a), rest)
    ensures Possible(job, s, [a] + rest) && Run(job, s, [a] + rest) == Run(job, Apply(job, s, a), rest)
  {
    assert ([a] + rest)[1..] == rest;
  }

  /** An ordinary step keeps a pending call pending, or ends it with the exit code. */
  lemma {:induction false} PendingWaitAdvances(job: Job, s: State, a: Action)
    requires Enabled(job, s, a) && Ordinary(a)
    requires !s.waiter.Idle? && !s.exit.WaitFailed?
    ensures var t := Apply(job, s, a);
            && !t.exit.WaitFailed?
            && if t.waiter.Idle? then s.exit.Exited? && t.results == s.results + [Code(s.exit.code)] else t.results == s.results
  {
    if a != Join {
      OtherStepsLetWait(job, s, a);
    }
  }

  lemma OtherStepsLetWait(job: Job, s: State, a: Action)
    requires Enabled(job, s, a) && Ordinary(a) && a != Join
    ensures var t := Apply(job, s, a);
            t.waiter == s.waiter && t.results == s.results && (t.exit.WaitFailed? ==> s.exit.WaitFailed?)
  {
  }

  /** From every reachable state with a pending `wait` whose child has not been lost, a
      run of ordinary steps ends that call with the exit code. */
  lemma {:induction false} PendingWaitCanReturn(job: Job, s: State) returns (actions: seq<Action>, code: Option<int>)
    requires Reachable(job, s) && !s.waiter.Idle? && !s.exit.WaitFailed?
    ensures Possible(job, s, actions) && forall a :: a in actions ==> Ordinary(a)
    ensures Run(job, s, actions).results == s.results + [Code(code)]
    decreases Work(job, s)
  {
    var a := TasksAreNeverStuck(job, s);
    var t := Apply(job, s, a);
    ReachableStep(job, s, a);
    StepsShortenTheWork(job, s, a);
    PendingWaitAdvances(job, s, a);
    var rest := [];
    if t.waiter.Idle? {
      code := s.exit.code;
    } else {
      rest, code := PendingWaitCanReturn(job, t);
    }
    FirstThenRest(job, s, a, rest);
    actions := [a] + rest;
  }

  /** The exit is recorded as it is observed: the code, the moment, and nothing else. */
  lemma ExitIsRecorded(job: Job, s: State, code: Option<int>, now: int)
    requires Reachable(job, s) && Enabled(job, s, ChildExits(code, now))
    ensures var t := Apply(job, s, ChildExits(code, now));
            && t.current.finished == Some(Finished(code, now))
            && t.current.jobid == s.current.jobid && t.current.node == s.current.node
            && s.current.finished == None
  {
    ReachableSatisfiesInv(job, s);
  }
}
