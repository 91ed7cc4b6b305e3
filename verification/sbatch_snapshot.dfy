/** The persisted state of one sbatch job, and the decisions a refresh makes on it. */
module SbatchSnapshots {
  import opened Wrappers
  import opened Text
  import opened JobStatuses

  type Instant = nat
  type Uuid = nat

  /** What was submitted; no operation on a handle reads or changes it. */
  datatype Submission = Submission(
    argv: seq<string>,
    sentEnv: map<string, string>,
    scriptPath: string,
    chdir: Option<string>,
    partition: Option<string>,
    jobName: Option<string>,
    outputTemplate: Option<string>,
    errorTemplate: Option<string>)

  datatype FinishedInfo = FinishedInfo(finalState: JobState, finalReason: JobReason, exitCode: Option<int>, finishedAt: Instant)

  datatype Lifecycle = Lifecycle(
    lastObservedState: Option<JobStatus>,
    lastObservedAt: Option<Instant>,
    leftActiveListing: bool,
    finished: Option<FinishedInfo>)

  const NEW_LIFECYCLE := Lifecycle(None, None, false, None)

  datatype Snapshot = Snapshot(
    uuid: Uuid,
    jobid: U64,
    arrayTaskId: Option<U32>,
    submittedAt: Instant,
    submission: Submission,
    lifecycle: Lifecycle)

  predicate SameJob(a: Snapshot, b: Snapshot) {
    a.(lifecycle := b.lifecycle) == b
  }

  // ---------------------------------------------------------------- the refresh half

  /** What the active listings say about the job. */
  datatype Probe<+E> = Observed(status: JobStatus) | NotListed | Failing(error: E)

  function Observe<E>(snap: Snapshot, probe: Probe<E>, now: Instant): Snapshot
    requires !probe.Failing?
  {
    match probe
    case Observed(status) =>
      snap.(lifecycle := snap.lifecycle.(lastObservedState := Some(status), lastObservedAt := Some(now)))
    case NotListed =>
      snap.(lifecycle := snap.lifecycle.(leftActiveListing := true, lastObservedAt := Some(now)))
  }

  predicate SeenTerminal(l: Lifecycle) {
    l.lastObservedState.Some? && l.lastObservedState.value.state.IsTerminal()
  }

  // ---------------------------------------------------------------- the sacct half

  /** Accounting is consulted once the job looks done and has no finish yet. */
  predicate NeedsSacct(snap: Snapshot) {
    && snap.lifecycle.finished.None?
    && (snap.lifecycle.leftActiveListing || SeenTerminal(snap.lifecycle))
  }

  datatype Settlement = Unresolved | StillAlive(snap: Snapshot) | Stamped(snap: Snapshot)

  /** No usable row leaves everything as it is; a known live state takes the vanish
      observation back; anything else is the end of the job. */
  function Settle(snap: Snapshot, outcome: JobOutcome, now: Instant): Settlement {
    var state := outcome.status.state;
    if state == Unknown && outcome.exitCode.None? then Unresolved
    else if state != Unknown && !state.IsTerminal() then
      StillAlive(snap.(lifecycle := snap.lifecycle.(
        leftActiveListing := false, lastObservedState := Some(outcome.status), lastObservedAt := Some(now))))
    else
      Stamped(snap.(lifecycle := snap.lifecycle.(
        finished := Some(FinishedInfo(state, outcome.status.reason, outcome.exitCode, now)))))
  }

  /** A recorded finish is a terminal state, or an unrecognised one that came with
      an exit code: never a live state. */
  predicate GoodFinish(l: Lifecycle) {
    l.finished.Some? ==>
      var f := l.finished.value;
      f.finalState.IsTerminal() || (f.finalState == Unknown && f.exitCode.Some?)
  }

  // ---------------------------------------------------------------- one call

  /** Everything outside the handle that one call meets: what the listings say,
      whether the saves succeed, what accounting says, and the clock. */
  datatype Circumstances<+E> = Circumstances(
    probe: Probe<E>, saved: bool, now: Instant,
    outcome: Result<JobOutcome, E>, savedAgain: bool, later: Instant)

  datatype CallError<+E> = Query(error: E) | SaveFailed

  /** The state after a call, what the call returned, and whether it asked sacct. */
  datatype CallResult<+E> = CallResult(after: Snapshot, returned: Result<Snapshot, CallError<E>>, askedSacct: bool)

  function RefreshCall<E>(snap: Snapshot, c: Circumstances<E>): CallResult<E> {
    if c.probe.Failing? then CallResult(snap, Err(Query(c.probe.error)), false)
    else
      var seen := Observe(snap, c.probe, c.now);
      if c.saved then CallResult(seen, Ok(seen), false) else CallResult(snap, Err(SaveFailed), false)
  }

  function RefreshWithSacctCall<E>(snap: Snapshot, c: Circumstances<E>): CallResult<E> {
    var first := RefreshCall(snap, c);
    if first.returned.Err? || !NeedsSacct(first.after) then first
    else SettleCall(first.after, c.outcome, c.savedAgain, c.later)
  }

  function SettleCall<E>(seen: Snapshot, found: Result<JobOutcome, E>, saved: bool, later: Instant): CallResult<E> {
    match found
    case Err(e) => CallResult(seen, Err(Query(e)), true)
    case Ok(outcome) =>
      match Settle(seen, outcome, later)
      case Unresolved => CallResult(seen, Ok(seen), true)
      case StillAlive(alive) => if saved then CallResult(alive, Ok(alive), true) else CallResult(seen, Err(SaveFailed), true)
      case Stamped(done) => if saved then CallResult(done, Ok(done), true) else CallResult(seen, Err(SaveFailed), true)
  }

  datatype Call<+E> = Call(withSacct: bool, circumstances: Circumstances<E>)

  function Perform<E>(snap: Snapshot, call: Call<E>): CallResult<E> {
    if call.withSacct then RefreshWithSacctCall(snap, call.circumstances) else RefreshCall(snap, call.circumstances)
  }

  function PerformAll<E>(snap: Snapshot, calls: seq<Call<E>>): Snapshot {
    if calls == [] then snap else Perform(PerformAll(snap, calls[..|calls| - 1]), calls[|calls| - 1]).after
  }

  // ---------------------------------------------------------------- sequences of calls

  /** Over any sequence of calls, one after the other: the identity of the job stays,
      a recorded finish is never a live state, and once recorded it stays. */
  lemma {:induction false} CallsKeepTheFinish<E>(snap: Snapshot, calls: seq<Call<E>>)
    requires GoodFinish(snap.lifecycle)
    ensures var end := PerformAll(snap, calls);
            && SameJob(snap, end)
            && GoodFinish(end.lifecycle)
            && (snap.lifecycle.finished.Some? ==> end.lifecycle.finished == snap.lifecycle.finished)
    decreases |calls|
  {
    if calls != [] {
      CallsKeepTheFinish(snap, calls[..|calls| - 1]);
    }
  }

  /** Accounting is not asked again once there is a finish. */
  lemma NoSacctAfterFinish<E>(snap: Snapshot, calls: seq<Call<E>>, next: Call<E>)
    requires GoodFinish(snap.lifecycle) && snap.lifecycle.finished.Some?
    ensures !Perform(PerformAll(snap, calls), next).askedSacct
  {
    CallsKeepTheFinish(snap, calls);
  }

  /** The call saw a clean squeue answer without the job, and saved it. */
  predicate Vanishes<E>(call: Call<E>) {
    call.circumstances.probe.NotListed? && call.circumstances.saved
  }

  /** The call learnt from accounting that the job is alive, and saved it. */
  predicate TakesBack<E>(snap: Snapshot, call: Call<E>) {
    var c := call.circumstances;
    && call.withSacct && c.savedAgain && c.outcome.Ok?
    && var first := RefreshCall(snap, c);
       first.returned.Ok? && NeedsSacct(first.after) && Settle(first.after, c.outcome.value, c.later).StillAlive?
  }

  predicate TakenBackAt<E>(snap: Snapshot, calls: seq<Call<E>>, i: nat)
    requires i < |calls|
  {
    TakesBack(PerformAll(snap, calls[..i]), calls[i])
  }

  predicate NotTakenBackFrom<E>(snap: Snapshot, calls: seq<Call<E>>, i: nat) {
    forall j :: i <= j < |calls| ==> !TakenBackAt(snap, calls, j)
  }

  lemma TakenBackInPrefix<E>(snap: Snapshot, calls: seq<Call<E>>, i: nat)
    requires i < |calls| - 1
    ensures TakenBackAt(snap, calls, i) <==> TakenBackAt(snap, calls[..|calls| - 1], i)
  {
    assert calls[..|calls| - 1][..i] == calls[..i];
  }

  /** The flag says exactly that some call saw the job vanish (or it was set to begin
      with) and no call since then was told that the job is alive. */
  lemma {:induction false} VanishFlagHistory<E>(snap: Snapshot, calls: seq<Call<E>>)
    ensures PerformAll(snap, calls).lifecycle.leftActiveListing <==>
            || (snap.lifecycle.leftActiveListing && NotTakenBackFrom(snap, calls, 0))
            || exists i :: 0 <= i < |calls| && Vanishes(calls[i]) && NotTakenBackFrom(snap, calls, i)
    decreases |calls|
  {
    if calls != [] {
      var n := |calls| - 1;
      var front := calls[..n];
      VanishFlagHistory(snap, front);
      var before := PerformAll(snap, front);
      forall j | 0 <= j < n
        ensures TakenBackAt(snap, calls, j) <==> TakenBackAt(snap, front, j)
      {
        TakenBackInPrefix(snap, calls, j);
      }
      forall i | 0 <= i <= n
        ensures NotTakenBackFrom(snap, calls, i) <==> NotTakenBackFrom(snap, front, i) && !TakenBackAt(snap, calls, n)
      {
        NotTakenBackInPrefix(snap, calls, i);
      }
      LastCallSetsFlag(before, calls[n]);
      if !TakenBackAt(snap, calls, n) && Vanishes(calls[n]) {
        assert NotTakenBackFrom(snap, calls, n);
      }
    }
  }

  lemma NotTakenBackInPrefix<E>(snap: Snapshot, calls: seq<Call<E>>, i: nat)
    requires i < |calls|
    ensures NotTakenBackFrom(snap, calls, i) <==>
            NotTakenBackFrom(snap, calls[..|calls| - 1], i) && !TakenBackAt(snap, calls, |calls| - 1)
  {
    var front := calls[..|calls| - 1];
    forall j: nat | j < |front|
      ensures TakenBackAt(snap, calls, j) <==> TakenBackAt(snap, front, j)
    {
      TakenBackInPrefix(snap, calls, j);
    }
  }

  lemma LastCallSetsFlag<E>(snap: Snapshot, call: Call<E>)
    ensures Perform(snap, call).after.lifecycle.leftActiveListing <==>
            !TakesBack(snap, call) && (Vanishes(call) || snap.lifecycle.leftActiveListing)
  {
  }

  // ---------------------------------------------------------------- failing calls

  /** The snapshot already shows what the refresh half sees, down to the moment. */
  predicate ShowsAlready<E>(l: Lifecycle, c: Circumstances<E>) {
    && l.lastObservedAt == Some(c.now)
    && match c.probe
       case Observed(status) => l.lastObservedState == Some(status)
       case NotListed => l.leftActiveListing
       case Failing(_) => false
  }

  /** A failed call changes nothing, unless its refresh half had succeeded and seen
      something new before its sacct half failed. */
  lemma FailedCallChanges<E>(snap: Snapshot, call: Call<E>)
    requires Perform(snap, call).returned.Err?
    ensures var c := call.circumstances;
            var refreshed := !c.probe.Failing? && c.saved;
            && (refreshed ==> call.withSacct && Perform(snap, call).after == Observe(snap, c.probe, c.now))
            && (Perform(snap, call).after == snap <==> !refreshed || ShowsAlready(snap.lifecycle, c))
  {
  }

  /** For instance: the job has left the listing, and accounting cannot be reached. */
  lemma FailedCallMayChangeTheSnapshot(snap: Snapshot)
    requires snap.lifecycle == NEW_LIFECYCLE
    ensures exists call: Call<string> ::
              Perform(snap, call).returned.Err? && Perform(snap, call).after != snap
  {
    var call := Call(true, Circumstances(NotListed, true, 0, Err("sacct: connection refused"), true, 0));
    assert Perform(snap, call).returned.Err?;
    assert Perform(snap, call).after.lifecycle.leftActiveListing;
  }
}
