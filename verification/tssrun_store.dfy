/** When the store of a `tssrun` handle can be left behind: exactly when, at the exit of
    the child, a tee task still holds a clone that it took before. */
module TssrunStore {
  import opened Wrappers
  import opened Text
  import opened TssrunHandle
  import opened TssrunGuarantees

  /** A tee task is about to save a clone from before the exit. */
  predicate HoldsOldClone(s: State, stream: Stream) {
    TeeOf(s, stream).phase.Saving? && TeeOf(s, stream).phase.clone.finished.None?
  }

  /** All tasks end, no save fails, and the store is left without the finish. */
  predicate EndsBehind(job: Job, s: State, actions: seq<Action>) {
    && Possible(job, s, actions)
    && var end := Run(job, s, actions);
       TasksHaveEnded(end) && !end.saveFailed && end.saved != [] && end.saved[|end.saved| - 1].finished.None?
  }

  // ---------------------------------------------------------------- no old clone

  /** The finish is known, nobody holds an old clone, and the exit, once saved, was saved
      last or followed by later values. */
  predicate InStep(s: State) {
    && s.current.finished.Some?
    && (forall stream :: !HoldsOldClone(s, stream))
    && match s.exit
       case Recorded(_) => true
       case SavingExit(_, clone) => clone.finished.Some?
       case Exited(_) => s.saveFailed || (s.saved != [] && s.saved[|s.saved| - 1].finished.Some?)
       case _ => false
  }

  lemma TeesTakeNoOldClone(job: Job, s: State, a: Action, stream: Stream)
    requires InStep(s) && Enabled(job, s, a)
    ensures !HoldsOldClone(Apply(job, s, a), stream)
  {
    assert !HoldsOldClone(s, stream);
  }

  lemma StepStaysInStep(job: Job, s: State, a: Action)
    requires job.hasStore && InStep(s) && Enabled(job, s, a)
    ensures InStep(Apply(job, s, a))
  {
    forall stream
      ensures !HoldsOldClone(Apply(job, s, a), stream)
    {
      TeesTakeNoOldClone(job, s, a, stream);
    }
    if a.Save? {
      assert !HoldsOldClone(s, a.stream);
    }
  }

  lemma {:induction false} RunStaysInStep(job: Job, s: State, actions: seq<Action>)
    requires job.hasStore && InStep(s) && Possible(job, s, actions)
    ensures InStep(Run(job, s, actions))
    decreases |actions|
  {
    if actions != [] {
      StepStaysInStep(job, s, actions[0]);
      RunStaysInStep(job, Apply(job, s, actions[0]), actions[1..]);
    }
  }

  // ---------------------------------------------------------------- an old clone saved last

  lemma {:induction false} RunThenRun(job: Job, s: State, first: seq<Action>, second: seq<Action>)
    requires Possible(job, s, first) && Possible(job, Run(job, s, first), second)
    ensures Possible(job, s, first + second)
    ensures Run(job, s, first + second) == Run(job, Run(job, s, first), second)
    decreases |first|
  {
    if first == [] {
      assert first + second == second;
    } else {
      assert (first + second)[1..] == first[1..] + second;
      RunThenRun(job, Apply(job, s, first[0]), first[1..], second);
    }
  }

  function TurnStep(tee: Tee, stream: Stream): Action {
    match tee.phase
    case GotLine(_) => LookForJobid(stream)
    case JobidDone(_, _) => LookForNode(stream)
    case Cloning => Clone(stream)
    case Saving(_) => Save(stream, true)
    case _ => ReadError(stream)
  }

  lemma TurnStepIsLocal(job: Job, s: State, stream: Stream)
    requires !TeeOf(s, stream).phase.Ended?
    ensures var a := TurnStep(TeeOf(s, stream), stream);
            && Enabled(job, s, a)
            && var t := Apply(job, s, a);
               && Stage(TeeOf(t, stream).phase) < Stage(TeeOf(s, stream).phase)
               && t.exit == s.exit && t.saveFailed == s.saveFailed
               && forall other :: other != stream ==> TeeOf(t, other) == TeeOf(s, other)
  {
  }

  /** A tee task finishes its line and leaves its loop. */
  lemma {:induction false} TeeCanEnd(job: Job, s: State, stream: Stream) returns (actions: seq<Action>)
    ensures Possible(job, s, actions)
    ensures var t := Run(job, s, actions);
            && TeeOf(t, stream).phase.Ended?
            && t.exit == s.exit && t.saveFailed == s.saveFailed
            && forall other :: other != stream ==> TeeOf(t, other) == TeeOf(s, other)
    decreases Stage(TeeOf(s, stream).phase)
  {
    if TeeOf(s, stream).phase.Ended? {
      actions := [];
    } else {
      var a := TurnStep(TeeOf(s, stream), stream);
      TurnStepIsLocal(job, s, stream);
      var rest := TeeCanEnd(job, Apply(job, s, a), stream);
      FirstThenRest(job, s, a, rest);
      actions := [a] + rest;
    }
  }

  lemma ExitCanEnd(job: Job, s: State) returns (actions: seq<Action>)
    requires s.exit.Recorded? || s.exit.SavingExit?
    ensures Possible(job, s, actions)
    ensures var t := Run(job, s, actions);
            t.exit.Exited? && t.saveFailed == s.saveFailed && t.out == s.out && t.err == s.err
  {
    actions := [SaveExit(true)] + [];
    if s.exit.Recorded? {
      FirstThenRest(job, Apply(job, s, CloneExit), SaveExit(true), []);
      FirstThenRest(job, s, CloneExit, actions);
      actions := [CloneExit] + actions;
    } else {
      FirstThenRest(job, s, SaveExit(true), []);
    }
  }

  lemma SavedLast(job: Job, s: State, stream: Stream) returns (actions: seq<Action>)
    requires job.hasStore && TeeOf(s, stream).phase.Saving?
    ensures Possible(job, s, actions)
    ensures var t := Run(job, s, actions);
            && TeeOf(t, stream).phase.Ended? && t.exit == s.exit && t.saveFailed == s.saveFailed
            && t.saved == s.saved + [TeeOf(s, stream).phase.clone]
            && forall other :: other != stream ==> TeeOf(t, other) == TeeOf(s, other)
  {
    var saved := Apply(job, s, Save(stream, true));
    FirstThenRest(job, saved, ReadError(stream), []);
    FirstThenRest(job, s, Save(stream, true), [ReadError(stream)] + []);
    actions := [Save(stream, true)] + ([ReadError(stream)] + []);
  }

  /** The exit and the other task save what they have, and the old clone is saved last. */
  lemma OldCloneCanBeSavedLast(job: Job, s: State, stream: Stream) returns (actions: seq<Action>)
    requires job.hasStore && !s.saveFailed && (s.exit.Recorded? || s.exit.SavingExit?)
    requires HoldsOldClone(s, stream)
    ensures EndsBehind(job, s, actions)
  {
    var other := if stream == Stdout then Stderr else Stdout;
    var first := ExitCanEnd(job, s);
    var s1 := Run(job, s, first);
    var second := TeeCanEnd(job, s1, other);
    var s2 := Run(job, s1, second);
    var third := SavedLast(job, s2, stream);
    RunThenRun(job, s, first, second);
    RunThenRun(job, s, first + second, third);
    actions := first + second + third;
  }

  /** Exactly when the store can end without the finish although every save succeeds: a
      tee task is about to save a clone it took before the exit was recorded. Otherwise
      every completion without a failed save leaves the finish in the store. */
  lemma StoreCanEndBehindExactly(job: Job, s: State)
    requires Reachable(job, s) && job.hasStore && !s.saveFailed
    requires s.exit.Recorded? || s.exit.SavingExit?
    ensures (exists actions :: EndsBehind(job, s, actions)) <==> exists stream :: HoldsOldClone(s, stream)
  {
    ReachableSatisfiesInv(job, s);
    if exists stream :: HoldsOldClone(s, stream) {
      var stream :| HoldsOldClone(s, stream);
      var actions := OldCloneCanBeSavedLast(job, s, stream);
      assert EndsBehind(job, s, actions);
    } else {
      forall actions | Possible(job, s, actions)
        ensures !EndsBehind(job, s, actions)
      {
        RunStaysInStep(job, s, actions);
      }
    }
  }
}
