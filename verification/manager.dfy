/** The sbatch manager: it submits jobs, saves one snapshot per task, and attaches to
    stored ones. A handle is represented by the snapshot it starts from. */
module SbatchManagers {
  import opened Wrappers
  import opened Text
  import opened Dispatch
  import opened SbatchSnapshots
  import opened Stores
  import opened ArraySpecs
  import opened Submissions

  /** A configured command. `build` makes the argument vector for its array
      specification, and `scriptPath` is the absolute path of the script, if it has one. */
  datatype Command = Command(
    build: Option<ArraySpec> -> Option<Argv>,
    arraySpec: Option<ArraySpec>,
    scriptPath: Option<string>,
    env: map<string, string>,
    chdir: Option<string>,
    partition: Option<string>,
    jobName: Option<string>,
    output: Option<string>,
    error: Option<string>)

  function SubmissionOf(cmd: Command, argv: Argv, scriptPath: string): Submission {
    Submission(argv, cmd.env, scriptPath, cmd.chdir, cmd.partition, cmd.jobName, cmd.output, cmd.error)
  }

  /** What `sbatch` said, and the absolute script path: all that saving needs. */
  function SubmitThenLocate(cmd: Command, out: Capture): Result<(U64, string), SpawnError> {
    match SubmitOutcome(out)
    case Err(e) => Err(e)
    case Ok(jobid) =>
      match cmd.scriptPath
      case None => Err(BadScriptPath)
      case Some(path) => Ok((jobid, path))
  }

  /** The snapshot of a job just submitted by query `n`: the job id `sbatch` printed, the
      `m`-th uuid and clock reading, the command's own settings, and nothing seen yet. */
  ghost predicate IsNewJob(cmd: Command, arraySpec: Option<ArraySpec>, d: Dispatcher, n: nat, readings: Readings, m: nat, snap: Snapshot) {
    var argv := cmd.build(arraySpec);
    && argv.Some?
    && d.answer(n, argv.value).Ran? && d.answer(n, argv.value).exitCode == 0
    && SubmittedJobid(d.answer(n, argv.value).stdout) == Some(snap.jobid)
    && snap.uuid == readings.mint(m)
    && snap.submittedAt == readings.now(m)
    && snap.submission.argv == argv.value
    && cmd.scriptPath == Some(snap.submission.scriptPath)
    && snap.submission.sentEnv == cmd.env
    && snap.submission.chdir == cmd.chdir
    && snap.submission.partition == cmd.partition
    && snap.submission.jobName == cmd.jobName
    && snap.submission.outputTemplate == cmd.output
    && snap.submission.errorTemplate == cmd.error
    && snap.lifecycle.lastObservedState.None? && snap.lifecycle.lastObservedAt.None?
    && !snap.lifecycle.leftActiveListing && snap.lifecycle.finished.None?
  }

  class SbatchManager {
    const cmd: Command
    const store: SnapshotStore
    const dispatcher: Dispatcher
    const readings: Readings
    var minted: nat

    constructor (cmd: Command, store: SnapshotStore, dispatcher: Dispatcher, readings: Readings)
      ensures this.cmd == cmd && this.store == store && this.dispatcher == dispatcher && this.readings == readings
      ensures minted == 0
    {
      this.cmd, this.store, this.dispatcher, this.readings := cmd, store, dispatcher, readings;
      minted := 0;
    }

    /** One `sbatch` submission. */
    method Submit(argv: Argv) returns (r: Result<(U64, string), SpawnError>)
      modifies dispatcher`calls
      ensures dispatcher.calls == old(dispatcher.calls) + [argv]
      ensures r == SubmitThenLocate(cmd, dispatcher.answer(|old(dispatcher.calls)|, argv))
    {
      var out := dispatcher.Ask(argv);
      r := SubmitThenLocate(cmd, out);
    }

    /** Submits the array once and saves one snapshot per task, in declaration order.
        The first failing save ends the loop: exactly the tasks before it are stored. */
    method SpawnArray(spec: ArraySpec) returns (r: Result<seq<Snapshot>, SpawnError>)
      requires forall e :: e in spec.indices ==> Advances(e)
      modifies this`minted, store, dispatcher`calls
      ensures var indices := Expansion(spec.indices);
              var argv := cmd.build(Some(spec));
              if indices == [] then
                r == Err(NoIndices) && Untouched(old(dispatcher.calls), old(store.contents))
              else if argv.None? then
                r == Err(BuildFailed) && Untouched(old(dispatcher.calls), old(store.contents))
              else
                && dispatcher.calls == old(dispatcher.calls) + [argv.value]
                && match SubmitThenLocate(cmd, dispatcher.answer(|old(dispatcher.calls)|, argv.value))
                   case Err(e) => r == Err(e) && store.contents == old(store.contents)
                   case Ok(p) =>
                     var tasks := Tasks(p.0, indices, SubmissionOf(cmd, argv.value, p.1), readings, old(minted));
                     var k := AcceptedSaves(store.accepts, old(store.saves), |tasks|);
                     && store.contents == SaveAll(old(store.contents), tasks[..k])
                     && r == (if k == |tasks| then Ok(tasks) else Err(SubmittedButUnpersisted(p.0)))
      ensures r.Ok? ==>
                && |r.value| == |Expansion(spec.indices)|
                && forall k :: 0 <= k < |r.value| ==>
                     && r.value[k].arrayTaskId == Some(Expansion(spec.indices)[k])
                     && IsNewJob(cmd, Some(spec), dispatcher, |old(dispatcher.calls)|, readings, old(minted) + k, r.value[k])
    {
      var indices := ExpandArrayIndices(spec);
      if |indices| == 0 {
        return Err(NoIndices);
      }
      var argv := cmd.build(Some(spec));
      if argv.None? {
        return Err(BuildFailed);
      }
      var submitted := Submit(argv.value);
      if submitted.Err? {
        return Err(submitted.error);
      }
      var (master, path) := submitted.value;
      var submission := SubmissionOf(cmd, argv.value, path);
      r := SaveTasks(master, indices, submission);
    }

    predicate Untouched(calls: seq<Argv>, contents: Contents)
      reads dispatcher, store
    {
      dispatcher.calls == calls && store.contents == contents
    }

    method SaveTasks(master: U64, indices: seq<U32>, submission: Submission) returns (r: Result<seq<Snapshot>, SpawnError>)
      modifies this`minted, store
      ensures var tasks := Tasks(master, indices, submission, readings, old(minted));
              var k := AcceptedSaves(store.accepts, old(store.saves), |tasks|);
              && store.contents == SaveAll(old(store.contents), tasks[..k])
              && r == (if k == |tasks| then Ok(tasks) else Err(SubmittedButUnpersisted(master)))
    {
      ghost var tasks := Tasks(master, indices, submission, readings, minted);
      ghost var before, m, saves := store.contents, minted, store.saves;
      ghost var accepted := AcceptedSaves(store.accepts, saves, |tasks|);
      var handles: seq<Snapshot> := [];
      for n := 0 to |indices|
        invariant minted == m + n && store.saves == saves + n
        invariant n <= accepted && handles == tasks[..n]
        invariant store.contents == SaveAll(before, tasks[..n])
      {
        var snapshot, ok := SaveTask(master, indices[n], submission);
        assert snapshot == tasks[n];
        SaveAllMore(before, tasks, n);
        if !ok {
          assert n == accepted;
          return Err(SubmittedButUnpersisted(master));
        }
        assert tasks[..n + 1] == tasks[..n] + [tasks[n]];
        handles := handles + [snapshot];
      }
      assert tasks[..|tasks|] == tasks;
      r := Ok(handles);
    }

    method SaveTask(master: U64, index: U32, submission: Submission) returns (snapshot: Snapshot, ok: bool)
      modifies this`minted, store
      ensures minted == old(minted) + 1 && store.saves == old(store.saves) + 1
      ensures snapshot == Task(master, index, submission, readings, old(minted))
      ensures ok == store.accepts(old(store.saves))
      ensures store.contents == if ok then old(store.contents)[snapshot.uuid := snapshot] else old(store.contents)
    {
      snapshot := Task(master, index, submission, readings, minted);
      minted := minted + 1;
      ok := store.Save(snapshot);
    }

    /** Submits a single job and saves its snapshot. */
    method Spawn() returns (r: Result<Snapshot, SpawnError>)
      modifies this`minted, store, dispatcher`calls
      ensures var argv := cmd.build(cmd.arraySpec);
              if argv.None? then
                r == Err(BuildFailed) && Untouched(old(dispatcher.calls), old(store.contents))
              else
                && dispatcher.calls == old(dispatcher.calls) + [argv.value]
                && match SubmitThenLocate(cmd, dispatcher.answer(|old(dispatcher.calls)|, argv.value))
                   case Err(e) => r == Err(e) && store.contents == old(store.contents)
                   case Ok(p) =>
                     var snap := Task(p.0, 0, SubmissionOf(cmd, argv.value, p.1), readings, old(minted)).(arrayTaskId := None);
                     if store.accepts(old(store.saves))
                     then r == Ok(snap) && store.contents == old(store.contents)[snap.uuid := snap]
                     else r == Err(SubmittedButUnpersisted(p.0)) && store.contents == old(store.contents)
      ensures r.Ok? ==>
                && r.value.arrayTaskId == None
                && IsNewJob(cmd, cmd.arraySpec, dispatcher, |old(dispatcher.calls)|, readings, old(minted), r.value)
    {
      var argv := cmd.build(cmd.arraySpec);
      if argv.None? {
        return Err(BuildFailed);
      }
      var submitted := Submit(argv.value);
      if submitted.Err? {
        return Err(submitted.error);
      }
      var (jobid, path) := submitted.value;
      var snap := Snapshot(readings.mint(minted), jobid, None, readings.now(minted), SubmissionOf(cmd, argv.value, path), NEW_LIFECYCLE);
      minted := minted + 1;
      var ok := store.Save(snap);
      r := if ok then Ok(snap) else Err(SubmittedButUnpersisted(jobid));
    }

    /** Attaches by uuid; `readable` says whether the store can be read. */
    method AttachUuid(u: Uuid, readable: bool) returns (r: Result<Snapshot, AttachError>)
      ensures r == if readable then AttachedByUuid(store.contents, u) else Err(Io)
    {
      if !readable {
        return Err(Io);
      }
      r := if u in store.contents then Ok(store.contents[u]) else Err(NotFound);
    }

    /** Attaches by job id, which must name one snapshot. */
    method AttachJobid(jobid: U64, readable: bool) returns (r: Result<Snapshot, AttachError>)
      requires Keyed(store.contents)
      ensures if readable then exists listing :: IsListing(store.contents, listing) && r == AttachedByJobid(listing, jobid)
              else r == Err(Io)
    {
      if !readable {
        return Err(Io);
      }
      var listing := store.List();
      r := AttachedByJobid(listing, jobid);
    }

    /** Attaches to all tasks stored under a master job id, in the order of task ids. */
    method AttachArrayJobid(master: U64, readable: bool) returns (r: Result<seq<Snapshot>, AttachError>)
      requires Keyed(store.contents)
      ensures if readable then exists listing :: IsListing(store.contents, listing) && r == Ok(AttachedArray(listing, master))
              else r == Err(Io)
    {
      if !readable {
        return Err(Io);
      }
      var listing := store.List();
      r := Ok(AttachedArray(listing, master));
    }
  }

  /** A submission goes on exactly when `sbatch` ran, succeeded and printed a job id, and
      the script has an absolute path; otherwise the first of these that fails is named. */
  lemma SubmitGoesOnExactly(cmd: Command, out: Capture)
    ensures var r := SubmitThenLocate(cmd, out);
            && (out.Failed? ==> r == Err(DispatchFailed(out.message)))
            && (out.Ran? && out.exitCode != 0 ==> r == Err(SubmitFailed(out.exitCode)))
            && (out.Ran? && out.exitCode == 0 && SubmittedJobid(out.stdout).None? ==> r == Err(JobidParseError(out.stdout)))
            && (r == Err(BadScriptPath) <==> out.Ran? && out.exitCode == 0 && SubmittedJobid(out.stdout).Some? && cmd.scriptPath.None?)
            && (r.Ok? <==> out.Ran? && out.exitCode == 0 && SubmittedJobid(out.stdout).Some? && cmd.scriptPath.Some?)
            && (r.Ok? ==> Some(r.value.0) == SubmittedJobid(out.stdout) && Some(r.value.1) == cmd.scriptPath)
  {
  }
}
