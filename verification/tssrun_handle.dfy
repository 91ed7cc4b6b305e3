/** The tasks behind a `tssrun` handle as a transition system: two tee tasks and a wait
    task change one watched snapshot and save clones of it, in any interleaving, while
    the owner may call `wait` and abandon the call.

    `held` is every value the watch ever held; `jobidLog` and `nodeLog` are the lines in
    the order in which the tasks looked for a job id and for a node in them; `saveFailed`
    remembers a failed save. They are history: no task reads them. */
module TssrunHandle {
  import opened Wrappers
  import opened Text
  import opened Sallocs

  datatype Finished = Finished(exitCode: Option<int>, at: int)

  datatype Snapshot = Snapshot(uuid: nat, pid: nat, jobid: Option<U64>, node: Option<string>, finished: Option<Finished>)

  datatype Stream = Stdout | Stderr

  datatype Line = Line(stream: Stream, text: string)

  /** One spawned child: its identity, what it prints, and whether there is a store. */
  datatype Job = Job(uuid: nat, pid: nat, stdout: seq<string>, stderr: seq<string>, hasStore: bool)

  function LinesOf(job: Job, stream: Stream): seq<string> {
    if stream == Stdout then job.stdout else job.stderr
  }

  /** A tee task inside one turn of its loop. `Ended` records whether the stream was
      read to its end or left at a read error. */
  datatype TeePhase =
    | AtRead
    | GotLine(line: string)
    | JobidDone(line: string, updated: bool)
    | Cloning
    | Saving(clone: Snapshot)
    | Ended(clean: bool)

  /** `read` counts the lines taken from the stream. */
  datatype Tee = Tee(read: nat, phase: TeePhase)

  datatype ExitPhase =
    | ChildRuns
    | Recorded(code: Option<int>)
    | SavingExit(code: Option<int>, clone: Snapshot)
    | Exited(code: Option<int>)
    | WaitFailed

  /** A call of `wait` in progress: which task it joins next. */
  datatype Waiter = Idle | JoiningStdout | JoiningStderr | JoiningExit

  datatype WaitResult = Code(code: Option<int>) | NotOwner | Other

  datatype State = State(
    current: Snapshot,
    held: seq<Snapshot>,
    saved: seq<Snapshot>,
    saveFailed: bool,
    out: Tee,
    err: Tee,
    exit: ExitPhase,
    owned: bool,
    waiter: Waiter,
    results: seq<WaitResult>,
    jobidLog: seq<Line>,
    nodeLog: seq<Line>)

  /** The handle as it is built: the first snapshot is saved before any task runs. */
  function Spawned(job: Job, firstSaveOk: bool): State {
    var init := Snapshot(job.uuid, job.pid, None, None, None);
    Persist(
      job,
      State(init, [init], [], false, Tee(0, AtRead), Tee(0, AtRead), ChildRuns, true, Idle, [], [], []),
      init,
      firstSaveOk)
  }

  datatype Action =
    | ReadLine(stream: Stream)
    | EndOfStream(stream: Stream)
    | ReadError(stream: Stream)
    | LookForJobid(stream: Stream)
    | LookForNode(stream: Stream)
    | Clone(stream: Stream)
    | Save(stream: Stream, ok: bool)
    | ChildExits(code: Option<int>, now: int)
    | ChildWaitFails
    | CloneExit
    | SaveExit(ok: bool)
    | CallWait
    | Join
    | Abandon

  // ---------------------------------------------------------------- the steps

  function TeeOf(s: State, stream: Stream): Tee {
    if stream == Stdout then s.out else s.err
  }

  function WithTee(s: State, stream: Stream, tee: Tee): State {
    if stream == Stdout then s.(out := tee) else s.(err := tee)
  }

  function WithPhase(s: State, stream: Stream, phase: TeePhase): State {
    WithTee(s, stream, TeeOf(s, stream).(phase := phase))
  }

  /** `send_modify` that changes the value. */
  function Modify(s: State, value: Snapshot): State {
    s.(current := value, held := s.held + [value])
  }

  /** `persist_warn`: without a store nothing happens, and a failure is only noted. */
  function Persist(job: Job, s: State, clone: Snapshot, ok: bool): State {
    if !job.hasStore then s
    else if ok then s.(saved := s.saved + [clone])
    else s.(saveFailed := true)
  }

  /** The task that the waiter joins next has ended. */
  predicate NextHasEnded(s: State) {
    match s.waiter
    case Idle => false
    case JoiningStdout => s.out.phase.Ended?
    case JoiningStderr => s.err.phase.Ended?
    case JoiningExit => s.exit.Exited? || s.exit.WaitFailed?
  }

  predicate Enabled(job: Job, s: State, a: Action) {
    match a
    case ReadLine(stream) => TeeOf(s, stream).phase == AtRead && TeeOf(s, stream).read < |LinesOf(job, stream)|
    case EndOfStream(stream) => TeeOf(s, stream).phase == AtRead && TeeOf(s, stream).read == |LinesOf(job, stream)|
    case ReadError(stream) => TeeOf(s, stream).phase == AtRead
    case LookForJobid(stream) => TeeOf(s, stream).phase.GotLine?
    case LookForNode(stream) => TeeOf(s, stream).phase.JobidDone?
    case Clone(stream) => TeeOf(s, stream).phase.Cloning?
    case Save(stream, _) => TeeOf(s, stream).phase.Saving?
    case ChildExits(_, _) => s.exit.ChildRuns?
    case ChildWaitFails => s.exit.ChildRuns?
    case CloneExit => s.exit.Recorded?
    case SaveExit(_) => s.exit.SavingExit?
    case CallWait => s.waiter.Idle?
    case Join => NextHasEnded(s)
    case Abandon => !s.waiter.Idle?
  }

  /** The line was found to name `jobid`, or none. */
  function AfterJobid(s: State, stream: Stream, jobid: Option<U64>): State
    requires TeeOf(s, stream).phase.GotLine?
  {
    var line := TeeOf(s, stream).phase.line;
    var update := jobid.Some? && s.current.jobid.None?;
    var looked := WithPhase(s, stream, JobidDone(line, update)).(jobidLog := s.jobidLog + [Line(stream, line)]);
    if update then Modify(looked, s.current.(jobid := jobid)) else looked
  }

  /** The line was found to name `node`, or none. */
  function AfterNode(job: Job, s: State, stream: Stream, node: Option<string>): State
    requires TeeOf(s, stream).phase.JobidDone?
  {
    var line := TeeOf(s, stream).phase.line;
    var update := node.Some? && s.current.node.None?;
    var next := if (update || TeeOf(s, stream).phase.updated) && job.hasStore then Cloning else AtRead;
    var looked := WithPhase(s, stream, next).(nodeLog := s.nodeLog + [Line(stream, line)]);
    if update then Modify(looked, s.current.(node := node)) else looked
  }

  function AfterJoin(s: State): State
    requires NextHasEnded(s)
  {
    match s.waiter
    case JoiningStdout => s.(waiter := JoiningStderr)
    case JoiningStderr => s.(waiter := JoiningExit)
    case _ => s.(waiter := Idle, results := s.results + [if s.exit.Exited? then Code(s.exit.code) else Other])
  }

  function Apply(job: Job, s: State, a: Action): State
    requires Enabled(job, s, a)
  {
    match a
    case ReadLine(stream) =>
      var n := TeeOf(s, stream).read;
      WithTee(s, stream, Tee(n + 1, GotLine(LinesOf(job, stream)[n])))
    case EndOfStream(stream) => WithPhase(s, stream, Ended(true))
    case ReadError(stream) => WithPhase(s, stream, Ended(false))
    case LookForJobid(stream) => AfterJobid(s, stream, ParseJobid(TeeOf(s, stream).phase.line))
    case LookForNode(stream) => AfterNode(job, s, stream, ParseNode(TeeOf(s, stream).phase.line))
    case Clone(stream) => WithPhase(s, stream, Saving(s.current))
    case Save(stream, ok) => WithPhase(Persist(job, s, TeeOf(s, stream).phase.clone, ok), stream, AtRead)
    case ChildExits(code, now) =>
      Modify(s.(exit := Recorded(code)), s.current.(finished := Some(Finished(code, now))))
    case ChildWaitFails => s.(exit := WaitFailed)
    case CloneExit => s.(exit := SavingExit(s.exit.code, s.current))
    case SaveExit(ok) => Persist(job, s, s.exit.clone, ok).(exit := Exited(s.exit.code))
    case CallWait =>
      if s.owned then s.(owned := false, waiter := JoiningStdout)
      else s.(results := s.results + [NotOwner])
    case Join => AfterJoin(s)
    case Abandon => s.(waiter := Idle)
  }

  predicate Possible(job: Job, s: State, actions: seq<Action>)
    decreases |actions|
  {
    actions == [] || (Enabled(job, s, actions[0]) && Possible(job, Apply(job, s, actions[0]), actions[1..]))
  }

  function Run(job: Job, s: State, actions: seq<Action>): State
    requires Possible(job, s, actions)
    decreases |actions|
  {
    if actions == [] then s else Run(job, Apply(job, s, actions[0]), actions[1..])
  }

  // ---------------------------------------------------------------- the invariant

  /** The texts of one stream in a log, in order. */
  function Of(log: seq<Line>, stream: Stream): seq<string> {
    if log == [] then []
    else
      var last := log[|log| - 1];
      Of(log[..|log| - 1], stream) + if last.stream == stream then [last.text] else []
  }

  /** The first value a log yields. */
  function First<T>(log: seq<Line>, parse: string -> Option<T>): Option<T> {
    if log == [] then None
    else
      var before := First(log[..|log| - 1], parse);
      if before.Some? then before else parse(log[|log| - 1].text)
  }

  function LookedForJobid(tee: Tee): int {
    if tee.phase.GotLine? then tee.read - 1 else tee.read
  }

  function LookedForNode(tee: Tee): int {
    if tee.phase.GotLine? || tee.phase.JobidDone? then tee.read - 1 else tee.read
  }

  /** A tee task has looked at the lines it read, in order, but for the current one. */
  predicate Follows(lines: seq<string>, tee: Tee, forJobid: seq<string>, forNode: seq<string>) {
    && tee.read <= |lines|
    && (tee.phase == Ended(true) ==> tee.read == |lines|)
    && (tee.phase.GotLine? || tee.phase.JobidDone? ==> 0 < tee.read && tee.phase.line == lines[tee.read - 1])
    && forJobid == lines[..LookedForJobid(tee)]
    && forNode == lines[..LookedForNode(tee)]
  }

  predicate TeeFollows(job: Job, s: State, stream: Stream) {
    Follows(LinesOf(job, stream), TeeOf(s, stream), Of(s.jobidLog, stream), Of(s.nodeLog, stream))
  }

  predicate ExitFollows(s: State) {
    match s.exit
    case ChildRuns => s.current.finished.None?
    case WaitFailed => s.current.finished.None?
    case Recorded(code) => s.current.finished.Some? && s.current.finished.value.exitCode == code
    case SavingExit(code, clone) =>
      s.current.finished.Some? && s.current.finished.value.exitCode == code && clone.finished == s.current.finished
    case Exited(code) => s.current.finished.Some? && s.current.finished.value.exitCode == code
  }

  /** Each result speaks of a task that has ended. */
  predicate ResultFollows(s: State, r: WaitResult) {
    && !s.owned
    && match r
       case NotOwner => true
       case Code(code) => s.exit == Exited(code) && s.out.phase.Ended? && s.err.phase.Ended?
       case Other => s.exit == WaitFailed && s.out.phase.Ended? && s.err.phase.Ended?
  }

  predicate WaiterFollows(s: State) {
    && (!s.waiter.Idle? ==> !s.owned)
    && (s.waiter.JoiningStderr? || s.waiter.JoiningExit? ==> s.out.phase.Ended?)
    && (s.waiter.JoiningExit? ==> s.err.phase.Ended?)
    && forall r :: r in s.results ==> ResultFollows(s, r)
  }

  /** One value to the next: one absent field was filled. */
  predicate FillsOne(x: Snapshot, y: Snapshot) {
    || (x.jobid.None? && y.jobid.Some? && y == x.(jobid := y.jobid))
    || (x.node.None? && y.node.Some? && y == x.(node := y.node))
    || (x.finished.None? && y.finished.Some? && y == x.(finished := y.finished))
  }

  predicate HeldFollows(job: Job, s: State) {
    && s.held != []
    && s.held[0] == Snapshot(job.uuid, job.pid, None, None, None)
    && s.held[|s.held| - 1] == s.current
    && forall i :: 0 < i < |s.held| ==> FillsOne(s.held[i - 1], s.held[i])
  }

  predicate ClonesWereHeld(s: State) {
    && (forall x :: x in s.saved ==> x in s.held)
    && (forall stream :: TeeOf(s, stream).phase.Saving? ==> TeeOf(s, stream).phase.clone in s.held)
    && (s.exit.SavingExit? ==> s.exit.clone in s.held)
  }

  predicate WillClone(s: State, stream: Stream) {
    var phase := TeeOf(s, stream).phase;
    (phase.JobidDone? && phase.updated) || phase.Cloning? || phase == Saving(s.current)
  }

  /** The current value is saved, or some task is yet to save it. */
  predicate Carried(job: Job, s: State) {
    job.hasStore && !s.saveFailed ==>
      || s.current in s.saved
      || (exists stream :: WillClone(s, stream))
      || s.exit.Recorded?
      || (s.exit.SavingExit? && s.exit.clone == s.current)
  }

  predicate Inv(job: Job, s: State) {
    && (forall stream :: TeeFollows(job, s, stream))
    && FirstsFollow(s, ParseJobid, ParseNode)
    && ExitFollows(s)
    && WaiterFollows(s)
    && HeldFollows(job, s)
    && ClonesWereHeld(s)
    && Carried(job, s)
  }

  // ---------------------------------------------------------------- every step keeps it

  lemma SpawnedSatisfiesInv(job: Job, ok: bool)
    ensures Inv(job, Spawned(job, ok))
  {
    forall stream
      ensures TeeFollows(job, Spawned(job, ok), stream)
    {
      assert LinesOf(job, stream)[..0] == [];
    }
  }

  lemma LogMore(log: seq<Line>, line: Line)
    ensures forall stream :: Of(log + [line], stream) == Of(log, stream) + if line.stream == stream then [line.text] else []
  {
    assert (log + [line])[..|log|] == log;
  }

  lemma FirstOfMore<T>(log: seq<Line>, line: Line, parse: string -> Option<T>)
    ensures First(log + [line], parse) == if First(log, parse).Some? then First(log, parse) else parse(line.text)
  {
    assert (log + [line])[..|log|] == log;
  }

  lemma JobidLookFollows(lines: seq<string>, tee: Tee, forJobid: seq<string>, forNode: seq<string>, updated: bool)
    requires Follows(lines, tee, forJobid, forNode) && tee.phase.GotLine?
    ensures Follows(lines, tee.(phase := JobidDone(tee.phase.line, updated)), forJobid + [tee.phase.line], forNode)
  {
    assert lines[..tee.read] == lines[..tee.read - 1] + [tee.phase.line];
  }

  lemma NodeLookFollows(lines: seq<string>, tee: Tee, forJobid: seq<string>, forNode: seq<string>, next: TeePhase)
    requires Follows(lines, tee, forJobid, forNode) && tee.phase.JobidDone?
    requires next == Cloning || next == AtRead
    ensures Follows(lines, tee.(phase := next), forJobid, forNode + [tee.phase.line])
  {
    assert lines[..tee.read] == lines[..tee.read - 1] + [tee.phase.line];
  }

  lemma {:induction false} LookingForJobidFollows(job: Job, s: State, other: Stream, jobid: Option<U64>, stream: Stream)
    requires TeeFollows(job, s, stream) && TeeOf(s, other).phase.GotLine?
    ensures TeeFollows(job, AfterJobid(s, other, jobid), stream)
  {
    var t := AfterJobid(s, other, jobid);
    var line := TeeOf(s, other).phase.line;
    LogMore(s.jobidLog, Line(other, line));
    assert t.nodeLog == s.nodeLog;
    if other == stream {
      JobidLookFollows(LinesOf(job, stream), TeeOf(s, stream), Of(s.jobidLog, stream), Of(s.nodeLog, stream), TeeOf(t, stream).phase.updated);
    } else {
      assert Of(t.jobidLog, stream) == Of(s.jobidLog, stream);
    }
  }

  lemma {:induction false} LookingForNodeFollows(job: Job, s: State, other: Stream, node: Option<string>, stream: Stream)
    requires TeeFollows(job, s, stream) && TeeOf(s, other).phase.JobidDone?
    ensures TeeFollows(job, AfterNode(job, s, other, node), stream)
  {
    var t := AfterNode(job, s, other, node);
    var line := TeeOf(s, other).phase.line;
    LogMore(s.nodeLog, Line(other, line));
    assert t.jobidLog == s.jobidLog;
    if other == stream {
      NodeLookFollows(LinesOf(job, stream), TeeOf(s, stream), Of(s.jobidLog, stream), Of(s.nodeLog, stream), TeeOf(t, stream).phase);
    } else {
      assert Of(t.nodeLog, stream) == Of(s.nodeLog, stream);
    }
  }

  predicate IsLook(a: Action) {
    a.LookForJobid? || a.LookForNode?
  }

  lemma ReadFollows(lines: seq<string>, tee: Tee, forJobid: seq<string>, forNode: seq<string>)
    requires Follows(lines, tee, forJobid, forNode) && tee.phase.AtRead? && tee.read < |lines|
    ensures Follows(lines, Tee(tee.read + 1, GotLine(lines[tee.read])), forJobid, forNode)
  {
  }

  /** Between lines: nothing is read and no line is looked at. */
  predicate Rests(lines: seq<string>, tee: Tee, next: Tee) {
    && !tee.phase.GotLine? && !tee.phase.JobidDone?
    && !next.phase.GotLine? && !next.phase.JobidDone?
    && next.read == tee.read
    && (next.phase == Ended(true) ==> tee.read == |lines|)
  }

  lemma RestFollows(lines: seq<string>, tee: Tee, next: Tee, forJobid: seq<string>, forNode: seq<string>)
    requires Follows(lines, tee, forJobid, forNode) && Rests(lines, tee, next)
    ensures Follows(lines, next, forJobid, forNode)
  {
  }

  lemma {:induction false} OtherStepsRest(job: Job, s: State, a: Action, stream: Stream)
    requires Enabled(job, s, a) && !IsLook(a) && a != ReadLine(stream)
    ensures TeeOf(Apply(job, s, a), stream) == TeeOf(s, stream) || Rests(LinesOf(job, stream), TeeOf(s, stream), TeeOf(Apply(job, s, a), stream))
    ensures Apply(job, s, a).jobidLog == s.jobidLog && Apply(job, s, a).nodeLog == s.nodeLog
  {
  }

  lemma OtherStepsFollow(job: Job, s: State, a: Action, stream: Stream)
    requires TeeFollows(job, s, stream) && Enabled(job, s, a) && !IsLook(a)
    ensures TeeFollows(job, Apply(job, s, a), stream)
  {
    var lines, tee := LinesOf(job, stream), TeeOf(s, stream);
    var forJobid, forNode := Of(s.jobidLog, stream), Of(s.nodeLog, stream);
    if a == ReadLine(stream) {
      ReadFollows(lines, tee, forJobid, forNode);
    } else {
      OtherStepsRest(job, s, a, stream);
      var next := TeeOf(Apply(job, s, a), stream);
      if next != tee {
        RestFollows(lines, tee, next, forJobid, forNode);
      }
    }
  }

  lemma TeesKeepFollowing(job: Job, s: State, a: Action, stream: Stream)
    requires TeeFollows(job, s, stream) && Enabled(job, s, a)
    ensures TeeFollows(job, Apply(job, s, a), stream)
  {
    match a {
      case LookForJobid(other) =>
        LookingForJobidFollows(job, s, other, ParseJobid(TeeOf(s, other).phase.line), stream);
      case LookForNode(other) =>
        LookingForNodeFollows(job, s, other, ParseNode(TeeOf(s, other).phase.line), stream);
      case _ =>
        OtherStepsFollow(job, s, a, stream);
    }
  }

  /** Job id and node are what the logs say first. */
  predicate FirstsFollow(s: State, forJobid: string -> Option<U64>, forNode: string -> Option<string>) {
    s.current.jobid == First(s.jobidLog, forJobid) && s.current.node == First(s.nodeLog, forNode)
  }

  lemma JobidLookKeepsFirsts(s: State, stream: Stream, forJobid: string -> Option<U64>, forNode: string -> Option<string>)
    requires FirstsFollow(s, forJobid, forNode) && TeeOf(s, stream).phase.GotLine?
    ensures FirstsFollow(AfterJobid(s, stream, forJobid(TeeOf(s, stream).phase.line)), forJobid, forNode)
  {
    FirstOfMore(s.jobidLog, Line(stream, TeeOf(s, stream).phase.line), forJobid);
  }

  lemma NodeLookKeepsFirsts(job: Job, s: State, stream: Stream, forJobid: string -> Option<U64>, forNode: string -> Option<string>)
    requires FirstsFollow(s, forJobid, forNode) && TeeOf(s, stream).phase.JobidDone?
    ensures FirstsFollow(AfterNode(job, s, stream, forNode(TeeOf(s, stream).phase.line)), forJobid, forNode)
  {
    FirstOfMore(s.nodeLog, Line(stream, TeeOf(s, stream).phase.line), forNode);
  }

  lemma FirstsAreKept(job: Job, s: State, a: Action)
    requires FirstsFollow(s, ParseJobid, ParseNode) && Enabled(job, s, a)
    ensures FirstsFollow(Apply(job, s, a), ParseJobid, ParseNode)
  {
    match a {
      case LookForJobid(stream) => JobidLookKeepsFirsts(s, stream, ParseJobid, ParseNode);
      case LookForNode(stream) => NodeLookKeepsFirsts(job, s, stream, ParseJobid, ParseNode);
      case _ =>
    }
  }

  lemma {:induction false} ExitKeepsFollowing(job: Job, s: State, a: Action)
    requires ExitFollows(s) && Enabled(job, s, a)
    ensures ExitFollows(Apply(job, s, a))
  {
  }

  lemma {:induction false} EndedTasksStay(job: Job, s: State, a: Action)
    requires Enabled(job, s, a)
    ensures var t := Apply(job, s, a);
            && (s.out.phase.Ended? ==> t.out == s.out)
            && (s.err.phase.Ended? ==> t.err == s.err)
            && (s.exit.Exited? || s.exit.WaitFailed? ==> t.exit == s.exit)
            && (!s.owned ==> !t.owned)
  {
  }

  lemma {:induction false} WaiterKeepsFollowing(job: Job, s: State, a: Action)
    requires WaiterFollows(s) && Enabled(job, s, a)
    ensures WaiterFollows(Apply(job, s, a))
  {
    var t := Apply(job, s, a);
    EndedTasksStay(job, s, a);
    if a != CallWait && a != Join {
      assert t.results == s.results;
    }
    forall r | r in t.results
      ensures ResultFollows(t, r)
    {
      if r in s.results {
        assert ResultFollows(s, r);
      }
    }
  }

  lemma {:induction false} HistoryIsKept(job: Job, s: State, a: Action)
    requires Inv(job, s) && Enabled(job, s, a)
    ensures HeldFollows(job, Apply(job, s, a))
    ensures s.held <= Apply(job, s, a).held
  {
    ChangesFillOne(job, s, a);
  }

  lemma ChangesFillOne(job: Job, s: State, a: Action)
    requires ExitFollows(s) && Enabled(job, s, a)
    ensures var t := Apply(job, s, a);
            || (t.held == s.held && t.current == s.current)
            || (t.held == s.held + [t.current] && FillsOne(s.current, t.current))
  {
  }

  lemma {:induction false} ClonesAreOfHeldValues(job: Job, s: State, a: Action, stream: Stream)
    requires Enabled(job, s, a) && TeeOf(Apply(job, s, a), stream).phase.Saving?
    ensures var clone := TeeOf(Apply(job, s, a), stream).phase.clone;
            TeeOf(s, stream).phase == Saving(clone) || clone == s.current
  {
  }

  lemma {:induction false} SavesAreOfClones(job: Job, s: State, a: Action)
    requires Enabled(job, s, a)
    ensures var t := Apply(job, s, a);
            || t.saved == s.saved
            || (a.Save? && t.saved == s.saved + [TeeOf(s, a.stream).phase.clone])
            || (a.SaveExit? && t.saved == s.saved + [s.exit.clone])
    ensures var t := Apply(job, s, a);
            t.exit.SavingExit? ==> t.exit == s.exit || t.exit.clone == s.current
  {
  }

  lemma ClonesStayHeld(job: Job, s: State, a: Action)
    requires HeldFollows(job, s) && ClonesWereHeld(s) && Enabled(job, s, a)
    requires s.held <= Apply(job, s, a).held
    ensures ClonesWereHeld(Apply(job, s, a))
  {
    var t := Apply(job, s, a);
    assert s.current in s.held;
    assert forall x :: x in s.held ==> x in t.held;
    SavesAreOfClones(job, s, a);
    forall stream | TeeOf(t, stream).phase.Saving?
      ensures TeeOf(t, stream).phase.clone in t.held
    {
      ClonesAreOfHeldValues(job, s, a, stream);
    }
  }

  /** A change leaves the task that made it with a clone to take. */
  lemma {:induction false} ChangesAreCarried(job: Job, s: State, a: Action)
    requires Enabled(job, s, a) && Apply(job, s, a).current != s.current
    ensures Carried(job, Apply(job, s, a))
  {
    match a {
      case LookForJobid(stream) => assert WillClone(Apply(job, s, a), stream);
      case LookForNode(stream) => assert job.hasStore ==> WillClone(Apply(job, s, a), stream);
      case _ =>
    }
  }

  /** A task with a clone to take takes it and saves it. */
  lemma {:induction false} WillCloneLast(job: Job, s: State, a: Action, stream: Stream)
    requires Enabled(job, s, a) && Apply(job, s, a).current == s.current
    requires job.hasStore && WillClone(s, stream)
    ensures var t := Apply(job, s, a);
            WillClone(t, stream) || s.current in t.saved || t.saveFailed
  {
  }

  lemma {:induction false} StaysCarried(job: Job, s: State, a: Action)
    requires Carried(job, s) && Enabled(job, s, a)
    ensures Carried(job, Apply(job, s, a))
  {
    var t := Apply(job, s, a);
    if t.current != s.current {
      ChangesAreCarried(job, s, a);
    } else if job.hasStore && !t.saveFailed {
      if stream :| WillClone(s, stream) {
        WillCloneLast(job, s, a, stream);
      }
    }
  }

  lemma {:induction false} StepPreserves(job: Job, s: State, a: Action)
    requires Inv(job, s) && Enabled(job, s, a)
    ensures Inv(job, Apply(job, s, a))
  {
    forall stream
      ensures TeeFollows(job, Apply(job, s, a), stream)
    {
      TeesKeepFollowing(job, s, a, stream);
    }
    FirstsAreKept(job, s, a);
    ExitKeepsFollowing(job, s, a);
    WaiterKeepsFollowing(job, s, a);
    HistoryIsKept(job, s, a);
    ClonesStayHeld(job, s, a);
    StaysCarried(job, s, a);
  }

  /** Every interleaving keeps the invariant, and the watch's past is never rewritten. */
  lemma {:induction false} RunPreserves(job: Job, s: State, actions: seq<Action>)
    requires Inv(job, s) && Possible(job, s, actions)
    ensures Inv(job, Run(job, s, actions))
    ensures s.held <= Run(job, s, actions).held
    decreases |actions|
  {
    if actions != [] {
      StepPreserves(job, s, actions[0]);
      HistoryIsKept(job, s, actions[0]);
      RunPreserves(job, Apply(job, s, actions[0]), actions[1..]);
    }
  }

  ghost predicate Reachable(job: Job, s: State) {
    exists ok, actions :: Possible(job, Spawned(job, ok), actions) && Run(job, Spawned(job, ok), actions) == s
  }

  lemma ReachableSatisfiesInv(job: Job, s: State)
    requires Reachable(job, s)
    ensures Inv(job, s)
  {
    var ok, actions :| Possible(job, Spawned(job, ok), actions) && Run(job, Spawned(job, ok), actions) == s;
    SpawnedSatisfiesInv(job, ok);
    RunPreserves(job, Spawned(job, ok), actions);
  }
}
