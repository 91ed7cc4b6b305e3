/** Calls on clones of one sbatch handle, interleaved. A call takes the handle's lock
    once for its refresh half and, if it needs accounting, a second time for its
    sacct half, which goes on with the snapshot that the first half returned. */
module HandleOverlap {
  import opened Wrappers
  import opened JobStatuses
  import opened SbatchSnapshots

  type CallId = nat

  /** The stages of a call. While it holds the lock it either has queries or saves
      ahead of it, or has saved and not yet published to the watch. */
  datatype Stage =
    | WantsLock(withSacct: bool)
    | Probing(withSacct: bool, local: Snapshot)
    | PublishingProbe(withSacct: bool, next: Snapshot)
    | WantsLockAgain(local: Snapshot)
    | Settling(local: Snapshot)
    | PublishingSettlement(local: Snapshot, next: Snapshot)
    | Finished(ok: bool)

  datatype State = State(watch: Snapshot, stored: Snapshot, lock: Option<CallId>, calls: map<CallId, Stage>)

  function Start(snap: Snapshot): State {
    State(snap, snap, None, map[])
  }

  datatype Action =
    | Begin(id: CallId, withSacct: bool)
    | Lock(id: CallId)
    | ProbeEnds(id: CallId, probe: Probe<string>, saved: bool, now: Instant)
    | PublishProbe(id: CallId)
    | LockAgain(id: CallId)
    | SettleEnds(id: CallId, outcome: Result<JobOutcome, string>, saved: bool, now: Instant)
    | PublishSettlement(id: CallId)
    | Abandon(id: CallId)

  predicate At(s: State, id: CallId) {
    id in s.calls
  }

  predicate Enabled(s: State, a: Action) {
    match a
    case Begin(id, _) => id !in s.calls
    case Lock(id) => At(s, id) && s.calls[id].WantsLock? && s.lock.None?
    case ProbeEnds(id, _, _, _) => At(s, id) && s.calls[id].Probing?
    case PublishProbe(id) => At(s, id) && s.calls[id].PublishingProbe?
    case LockAgain(id) => At(s, id) && s.calls[id].WantsLockAgain? && s.lock.None?
    case SettleEnds(id, _, _, _) => At(s, id) && s.calls[id].Settling?
    case PublishSettlement(id) => At(s, id) && s.calls[id].PublishingSettlement?
    case Abandon(id) =>
      && At(s, id)
      && (s.calls[id].WantsLock? || s.calls[id].Probing? || s.calls[id].WantsLockAgain? || s.calls[id].Settling?)
  }

  function End(s: State, id: CallId, ok: bool): State {
    s.(lock := None, calls := s.calls[id := Finished(ok)])
  }

  function Apply(s: State, a: Action): State
    requires Enabled(s, a)
  {
    match a
    case Begin(id, withSacct) => s.(calls := s.calls[id := WantsLock(withSacct)])
    case Lock(id) => s.(lock := Some(id), calls := s.calls[id := Probing(s.calls[id].withSacct, s.watch)])
    case ProbeEnds(id, probe, saved, now) =>
      if probe.Failing? || !saved then End(s, id, false)
      else
        var next := Observe(s.calls[id].local, probe, now);
        s.(stored := next, calls := s.calls[id := PublishingProbe(s.calls[id].withSacct, next)])
    case PublishProbe(id) =>
      var stage := s.calls[id];
      var published := s.(watch := stage.next);
      if stage.withSacct && NeedsSacct(stage.next) then
        published.(lock := None, calls := s.calls[id := WantsLockAgain(stage.next)])
      else End(published, id, true)
    case LockAgain(id) => s.(lock := Some(id), calls := s.calls[id := Settling(s.calls[id].local)])
    case SettleEnds(id, outcome, saved, now) =>
      if outcome.Err? then End(s, id, false)
      else
        var settled := Settle(s.calls[id].local, outcome.value, now);
        if settled.Unresolved? then End(s, id, true)
        else if !saved then End(s, id, false)
        else s.(stored := settled.snap, calls := s.calls[id := PublishingSettlement(s.calls[id].local, settled.snap)])
    case PublishSettlement(id) => End(s.(watch := s.calls[id].next), id, true)
    case Abandon(id) =>
      if s.lock == Some(id) then End(s, id, false) else s.(calls := s.calls[id := Finished(false)])
  }

  predicate Run(s: State, actions: seq<Action>, end: State)
    decreases |actions|
  {
    if actions == [] then s == end
    else Enabled(s, actions[0]) && Run(Apply(s, actions[0]), actions[1..], end)
  }

  ghost predicate Reachable(first: Snapshot, s: State) {
    exists actions :: Run(Start(first), actions, s)
  }

  predicate HoldsLock(stage: Stage) {
    stage.Probing? || stage.PublishingProbe? || stage.Settling? || stage.PublishingSettlement?
  }

  predicate Good(first: Snapshot, snap: Snapshot) {
    SameJob(first, snap) && GoodFinish(snap.lifecycle)
  }

  predicate StageInv(first: Snapshot, s: State, id: CallId)
    requires id in s.calls
  {
    && (HoldsLock(s.calls[id]) <==> s.lock == Some(id))
    && match s.calls[id]
       case Probing(_, local) => local == s.watch
       case PublishingProbe(_, next) =>
         Good(first, next) && s.stored == next && next.lifecycle.finished == s.watch.lifecycle.finished
       case WantsLockAgain(local) => Good(first, local) && NeedsSacct(local)
       case Settling(local) => Good(first, local) && NeedsSacct(local)
       case PublishingSettlement(local, next) => Good(first, next) && NeedsSacct(local) && s.stored == next
       case _ => true
  }

  predicate Publishing(s: State) {
    && s.lock.Some? && s.lock.value in s.calls
    && (s.calls[s.lock.value].PublishingProbe? || s.calls[s.lock.value].PublishingSettlement?)
  }

  predicate Inv(first: Snapshot, s: State) {
    && Good(first, s.watch)
    && (s.lock.Some? ==> s.lock.value in s.calls)
    && (!Publishing(s) ==> s.stored == s.watch)
    && forall id :: id in s.calls ==> StageInv(first, s, id)
  }

  lemma {:induction false} StepPreserves(first: Snapshot, s: State, a: Action)
    requires Inv(first, s) && Enabled(s, a)
    ensures Inv(first, Apply(s, a))
  {
    var s' := Apply(s, a);
    assert a.Begin? || StageInv(first, s, a.id);
    forall id | id in s'.calls
      ensures StageInv(first, s', id)
    {
      if id != a.id {
        assert StageInv(first, s, id);
      }
    }
  }

  lemma {:induction false} RunPreserves(first: Snapshot, s: State, actions: seq<Action>, end: State)
    requires Inv(first, s) && Run(s, actions, end)
    ensures Inv(first, end)
    decreases |actions|
  {
    if actions != [] {
      StepPreserves(first, s, actions[0]);
      RunPreserves(first, Apply(s, actions[0]), actions[1..], end);
    }
  }

  /** However calls overlap: whenever no call holds the lock the store and the watch
      agree; the watched and the stored snapshot are always of the same job; and no
      recorded finish, watched or stored, is a live state. */
  lemma OverlappingCallsAreSafe(first: Snapshot, s: State)
    requires GoodFinish(first.lifecycle) && Reachable(first, s)
    ensures s.lock.None? ==> s.stored == s.watch
    ensures SameJob(first, s.watch) && GoodFinish(s.watch.lifecycle)
    ensures SameJob(first, s.stored) && GoodFinish(s.stored.lifecycle)
  {
    var actions :| Run(Start(first), actions, s);
    RunPreserves(first, Start(first), actions, s);
    if Publishing(s) {
      assert StageInv(first, s, s.lock.value);
    }
  }

  /** Two calls are never both past their queries: at most one holds the lock. */
  lemma OneSectionAtATime(first: Snapshot, s: State, a: CallId, b: CallId)
    requires GoodFinish(first.lifecycle) && Reachable(first, s)
    requires a in s.calls && HoldsLock(s.calls[a]) && b in s.calls && HoldsLock(s.calls[b])
    ensures a == b
  {
    var actions :| Run(Start(first), actions, s);
    RunPreserves(first, Start(first), actions, s);
    assert StageInv(first, s, a) && StageInv(first, s, b);
  }

  // ---------------------------------------------------------------- the finish under overlap

  /** One step changes a recorded finish exactly when a call publishes a settlement with
      another finish, and that is the settlement of a snapshot that had none: a refresh
      half, an abandoned call and a failed call all keep it. */
  lemma {:induction false} OnlyStaleSettlementsTouchAFinish(first: Snapshot, s: State, a: Action)
    requires GoodFinish(first.lifecycle) && Reachable(first, s) && Enabled(s, a)
    requires s.watch.lifecycle.finished.Some?
    ensures Apply(s, a).watch.lifecycle.finished != s.watch.lifecycle.finished <==> a.PublishSettlement? && Stale(s, a.id)
    ensures a.PublishSettlement? ==> s.calls[a.id].local.lifecycle.finished.None?
  {
    var actions :| Run(Start(first), actions, s);
    RunPreserves(first, Start(first), actions, s);
    assert a.Begin? || StageInv(first, s, a.id);
  }

  /** For instance: two finalizers have both seen the job vanish; the first stamps the
      finish; the second is then told by accounting that the job still runs, and
      writes back its older snapshot. */
  lemma {:induction false} OverlapMayEraseAFinish(first: Snapshot)
    requires first.lifecycle == NEW_LIFECYCLE
    ensures exists s, more, end :: Reachable(first, s) && Run(s, more, end)
              && s.watch.lifecycle.finished.Some? && end.watch.lifecycle.finished.None?
  {
    var s2 := TwoFinalizers(first);
    var settled, end := Settlement(s2, 1, JobOutcome(JobStatus(Running, NoReason), None));
    assert Reachable(first, s2) && Run(s2, settled, end);
  }

  /** Both calls have seen the job vanish, and the first has stamped the finish. */
  lemma TwoFinalizers(first: Snapshot) returns (s: State)
    requires first.lifecycle == NEW_LIFECYCLE
    ensures Reachable(first, s)
    ensures s.lock.None? && s.watch.lifecycle.finished.Some?
    ensures 1 in s.calls && s.calls[1].WantsLockAgain? && s.calls[1].local.lifecycle.finished.None?
  {
    var s0 := Start(first);
    var seen0, s1 := VanishingRefresh(s0, 0);
    var seen1, s2 := VanishingRefresh(s1, 1);
    var stamp;
    stamp, s := Settlement(s2, 0, JobOutcome(JobStatus(Completed, NoReason), Some(0)));
    RunThenRun(s0, seen0, s1, seen1, s2);
    RunThenRun(s0, seen0 + seen1, s2, stamp, s);
  }

  /** A refresh half, from its beginning, that sees the job vanish. */
  lemma {:induction false} VanishingRefresh(s: State, id: CallId) returns (actions: seq<Action>, end: State)
    requires id !in s.calls && s.lock.None? && s.watch.lifecycle.finished.None?
    ensures Run(s, actions, end)
    ensures var seen := Observe<string>(s.watch, NotListed, 0);
            end == State(seen, seen, None, s.calls[id := WantsLockAgain(seen)])
  {
    var b, c, d, e := Begin(id, true), Lock(id), ProbeEnds(id, NotListed, true, 0), PublishProbe(id);
    var s1 := Apply(s, b);
    var s2 := Apply(s1, c);
    var s3 := Apply(s2, d);
    end := Apply(s3, e);
    OneMoreStep(s3, e, [], end);
    OneMoreStep(s2, d, [e], end);
    OneMoreStep(s1, c, [d, e], end);
    OneMoreStep(s, b, [c, d, e], end);
    actions := [b] + ([c] + ([d] + ([e] + [])));
    assert [e] + [] == [e] && [d] + [e] == [d, e] && [c] + [d, e] == [c, d, e];
  }

  /** A sacct half that gets a usable outcome. */
  lemma Settlement(s: State, id: CallId, outcome: JobOutcome) returns (actions: seq<Action>, end: State)
    requires id in s.calls && s.calls[id].WantsLockAgain? && s.lock.None?
    requires !Settle(s.calls[id].local, outcome, 0).Unresolved?
    ensures Run(s, actions, end)
    ensures var settled := Settle(s.calls[id].local, outcome, 0).snap;
            end == State(settled, settled, None, s.calls[id := Finished(true)])
  {
    var b, c, d := LockAgain(id), SettleEnds(id, Ok(outcome), true, 0), PublishSettlement(id);
    var s1 := Apply(s, b);
    var s2 := Apply(s1, c);
    end := Apply(s2, d);
    OneMoreStep(s2, d, [], end);
    OneMoreStep(s1, c, [d], end);
    OneMoreStep(s, b, [c, d], end);
    actions := [b] + ([c] + ([d] + []));
    assert [d] + [] == [d] && [c] + [d] == [c, d];
  }

  lemma OneMoreStep(s: State, a: Action, actions: seq<Action>, end: State)
    requires Enabled(s, a) && Run(Apply(s, a), actions, end)
    ensures Run(s, [a] + actions, end)
  {
    assert ([a] + actions)[1..] == actions;
  }

  lemma {:induction false} RunThenRun(s: State, first: seq<Action>, m: State, second: seq<Action>, end: State)
    requires Run(s, first, m) && Run(m, second, end)
    ensures Run(s, first + second, end)
    decreases |first|
  {
    var all := first + second;
    if first != [] {
      assert all[1..] == first[1..] + second;
      RunThenRun(Apply(s, first[0]), first[1..], m, second, end);
    } else {
      assert all == second;
    }
  }

  // ---------------------------------------------------------------- when a finish can still change

  /** A call that will settle, or has settled, a snapshot older than the finish. */
  predicate Stale(s: State, id: CallId)
    requires id in s.calls
  {
    match s.calls[id]
    case WantsLockAgain(_) => true
    case Settling(_) => true
    case PublishingSettlement(_, next) => next.lifecycle.finished != s.watch.lifecycle.finished
    case _ => false
  }

  predicate ChangesTheFinish(s: State, actions: seq<Action>, end: State) {
    Run(s, actions, end) && end.watch.lifecycle.finished != s.watch.lifecycle.finished
  }

  predicate NoneStale(s: State) {
    forall id :: id in s.calls ==> !Stale(s, id)
  }

  lemma {:induction false} StepKeepsNoneStale(first: Snapshot, s: State, a: Action)
    requires Inv(first, s) && NoneStale(s) && s.watch.lifecycle.finished.Some? && Enabled(s, a)
    ensures NoneStale(Apply(s, a)) && Apply(s, a).watch.lifecycle.finished == s.watch.lifecycle.finished
  {
    assert a.Begin? || (StageInv(first, s, a.id) && !Stale(s, a.id));
    forall id | id in Apply(s, a).calls
      ensures !Stale(Apply(s, a), id)
    {
      if id != a.id {
        assert !Stale(s, id);
      }
    }
  }

  lemma {:induction false} NoneStaleKeepsTheFinish(first: Snapshot, s: State, actions: seq<Action>, end: State)
    requires Inv(first, s) && NoneStale(s) && s.watch.lifecycle.finished.Some? && Run(s, actions, end)
    ensures end.watch.lifecycle.finished == s.watch.lifecycle.finished
    decreases |actions|
  {
    if actions != [] {
      StepPreserves(first, s, actions[0]);
      StepKeepsNoneStale(first, s, actions[0]);
      NoneStaleKeepsTheFinish(first, Apply(s, actions[0]), actions[1..], end);
    }
  }

  /** Whoever holds the lock can let it go, by publishing what it saved or by being
      abandoned, without disturbing a call that waits for it. */
  lemma LockCanBeFreed(first: Snapshot, s: State, id: CallId) returns (actions: seq<Action>, end: State)
    requires Inv(first, s) && s.watch.lifecycle.finished.Some?
    requires id in s.calls && s.calls[id].WantsLockAgain?
    ensures Run(s, actions, end) && end.lock.None?
    ensures id in end.calls && end.calls[id] == s.calls[id]
  {
    if s.lock.None? {
      actions, end := [], s;
    } else {
      var holder := s.lock.value;
      assert StageInv(first, s, holder) && StageInv(first, s, id);
      var a := if s.calls[holder].PublishingProbe? then PublishProbe(holder)
               else if s.calls[holder].PublishingSettlement? then PublishSettlement(holder)
               else Abandon(holder);
      end := Apply(s, a);
      OneMoreStep(s, a, [], end);
      actions := [a] + [];
    }
  }

  const STILL_RUNNING := JobOutcome(JobStatus(Running, NoReason), None)

  /** A stale call at its settlement can be told that the job still runs. */
  lemma StaleCallLosesTheFinish(first: Snapshot, s: State, id: CallId) returns (actions: seq<Action>, end: State)
    requires Inv(first, s) && s.watch.lifecycle.finished.Some?
    requires id in s.calls && Stale(s, id)
    ensures Run(s, actions, end) && end.watch.lifecycle.finished != s.watch.lifecycle.finished
  {
    assert StageInv(first, s, id);
    match s.calls[id] {
      case WantsLockAgain(local) =>
        var free, s1 := LockCanBeFreed(first, s, id);
        var settle;
        settle, end := Settlement(s1, id, STILL_RUNNING);
        RunThenRun(s, free, s1, settle, end);
        actions := free + settle;
      case Settling(local) =>
        var a, b := SettleEnds(id, Ok(STILL_RUNNING), true, 0), PublishSettlement(id);
        var s1 := Apply(s, a);
        end := Apply(s1, b);
        OneMoreStep(s1, b, [], end);
        OneMoreStep(s, a, [b] + [], end);
        actions := [a] + ([b] + []);
      case PublishingSettlement(_, _) =>
        var a := PublishSettlement(id);
        end := Apply(s, a);
        OneMoreStep(s, a, [], end);
        actions := [a] + [];
    }
  }

  /** Exactly when a recorded finish can still change: while some call waits to settle,
      is settling, or has saved a settlement with another finish, of the snapshot its own
      refresh half returned. */
  lemma {:induction false} FinishCanChangeExactlyWhenStale(first: Snapshot, s: State)
    requires GoodFinish(first.lifecycle) && Reachable(first, s) && s.watch.lifecycle.finished.Some?
    ensures (exists actions, end :: ChangesTheFinish(s, actions, end)) <==> exists id :: id in s.calls && Stale(s, id)
  {
    var before :| Run(Start(first), before, s);
    RunPreserves(first, Start(first), before, s);
    if exists id :: id in s.calls && Stale(s, id) {
      var id :| id in s.calls && Stale(s, id);
      var actions, end := StaleCallLosesTheFinish(first, s, id);
      assert ChangesTheFinish(s, actions, end);
    } else {
      forall actions, end | Run(s, actions, end)
        ensures !ChangesTheFinish(s, actions, end)
      {
        NoneStaleKeepsTheFinish(first, s, actions, end);
      }
    }
  }

  // ---------------------------------------------------------------- without overlap

  /** A call begins only when every other call has ended. */
  predicate OneAfterTheOther(s: State, actions: seq<Action>)
    decreases |actions|
  {
    actions != [] && Enabled(s, actions[0]) ==>
      && (actions[0].Begin? ==> forall id :: id in s.calls ==> s.calls[id].Finished?)
      && OneAfterTheOther(Apply(s, actions[0]), actions[1..])
  }

  /** At most one call is under way, and it works on the watched snapshot. */
  predicate Current(s: State) {
    && (forall a, b :: a in s.calls && b in s.calls && !s.calls[a].Finished? && !s.calls[b].Finished? ==> a == b)
    && forall id :: id in s.calls ==>
         match s.calls[id]
         case WantsLockAgain(local) => local == s.watch
         case Settling(local) => local == s.watch
         case PublishingSettlement(local, _) => local == s.watch
         case _ => true
  }

  /** So without overlap the watched finish is written once. */
  lemma {:induction false} WithoutOverlapTheFinishIsWrittenOnce(first: Snapshot, s: State, actions: seq<Action>, end: State)
    requires Inv(first, s) && Current(s)
    requires Run(s, actions, end) && OneAfterTheOther(s, actions)
    ensures s.watch.lifecycle.finished.Some? ==> end.watch.lifecycle.finished == s.watch.lifecycle.finished
    decreases |actions|
  {
    if actions != [] {
      var a := actions[0];
      StepPreserves(first, s, a);
      StaysCurrent(first, s, a);
      WithoutOverlapTheFinishIsWrittenOnce(first, Apply(s, a), actions[1..], end);
    }
  }

  lemma {:induction false} StaysCurrent(first: Snapshot, s: State, a: Action)
    requires Inv(first, s) && Current(s) && Enabled(s, a)
    requires a.Begin? ==> forall id :: id in s.calls ==> s.calls[id].Finished?
    ensures Current(Apply(s, a))
    ensures s.watch.lifecycle.finished.Some? ==> Apply(s, a).watch.lifecycle.finished == s.watch.lifecycle.finished
  {
    assert a.Begin? || StageInv(first, s, a.id);
  }
}
