/** The handle of one sbatch job: its watched snapshot, the store it saves to, and
    the dispatcher it asks. */
module SbatchHandle {
  import opened Wrappers
  import opened Text
  import opened JobKeys
  import opened Dispatch
  import opened JobStatuses
  import opened Listings
  import opened Runner
  import opened SbatchSnapshots
  import opened Stores
  import opened WaitTerminals

  /** How the rows of the listings are read. */
  datatype RowReaders = RowReaders(
    squeue: Reader, qgroup: Reader, sacct: Reader,
    squeueTask: string -> TaskReader, sacctTask: string -> TaskReader)

  const QGROUP_ARGV: Argv := ["qgroup", "-l"]
  const EXIT_COLUMNS: string := "JobID,State,Reason,ExitCode"

  function TaskKey(snap: Snapshot): string
    requires snap.arrayTaskId.Some?
  {
    PrintKey(ArrayTask(snap.jobid, snap.arrayTaskId.value))
  }

  function SqueueTaskArgv(snap: Snapshot): Argv
    requires snap.arrayTaskId.Some?
  {
    ["squeue", "-h", "-r", "-j", TaskKey(snap), "-o", "%i %T %r"]
  }

  /** The status `qgroup -l` lists for the job, if it can be asked at all. */
  function QgroupHit(readers: RowReaders, snap: Snapshot, qgroup: Capture): Option<JobOutcome> {
    match ListingOf("qgroup", qgroup)
    case Err(_) => None
    case Ok(lines) => LastRow(readers.qgroup, lines, snap.jobid)
  }

  function ProbeOf(found: Option<JobOutcome>): Probe<QueryError> {
    match found
    case Some(outcome) => Observed(outcome.status)
    case None => NotListed
  }

  /** What a refresh asks, and what it learns, given the answers it gets: an array
      task asks squeue for its own key; any other job asks qgroup, and squeue when
      qgroup fails or does not list it. */
  function RefreshQueries(readers: RowReaders, snap: Snapshot, first: Capture): seq<Argv> {
    if snap.arrayTaskId.Some? then [SqueueTaskArgv(snap)]
    else if QgroupHit(readers, snap, first).Some? then [QGROUP_ARGV]
    else [QGROUP_ARGV, SqueueArgv([snap.jobid])]
  }

  function RefreshProbe(readers: RowReaders, snap: Snapshot, first: Capture, second: Capture): Probe<QueryError> {
    if snap.arrayTaskId.Some? then
      match ListingOf("squeue", first)
      case Err(e) => Failing(e)
      case Ok(lines) => ProbeOf(FirstRow(readers.squeueTask(TaskKey(snap)), lines))
    else if QgroupHit(readers, snap, first).Some? then
      Observed(QgroupHit(readers, snap, first).value.status)
    else
      match ListingOf("squeue", second)
      case Err(e) => Failing(e)
      case Ok(lines) => ProbeOf(LastRow(readers.squeue, lines, snap.jobid))
  }

  /** The vanish observation needs a squeue answer that is clean, or the vanish exit
      itself, and has no row of the job; qgroup alone never makes a job vanish. */
  lemma VanishNeedsCleanSqueue(readers: RowReaders, snap: Snapshot, first: Capture, second: Capture)
    ensures var squeue := if snap.arrayTaskId.Some? then first else second;
            RefreshProbe(readers, snap, first, second) == NotListed <==>
            && (squeue.Ran? && (squeue.exitCode == 0 || ReportsVanished(squeue)))
            && (snap.arrayTaskId.None? ==> QgroupHit(readers, snap, first).None?)
            && var lines := if squeue.exitCode == 0 then Lines(squeue.stdout) else [];
               if snap.arrayTaskId.Some? then FirstRow(readers.squeueTask(TaskKey(snap)), lines).None?
               else forall line :: line in lines ==> !IsRowOf(readers.squeue, line, snap.jobid)
  {
  }

  predicate IsSacct(argv: Argv) {
    argv != [] && argv[0] == "sacct"
  }

  lemma RefreshNeverAsksSacct(readers: RowReaders, snap: Snapshot, first: Capture)
    ensures forall argv :: argv in RefreshQueries(readers, snap, first) ==> !IsSacct(argv)
  {
    assert "squeue"[1] != "sacct"[1] && "qgroup"[0] != "sacct"[0];
  }

  /** What was asked between the two is nothing of sacct. */
  predicate AskedNoSacct(before: seq<Argv>, after: seq<Argv>) {
    before <= after && forall i :: |before| <= i < |after| ==> !IsSacct(after[i])
  }

  function SacctTaskArgv(snap: Snapshot): Argv {
    SacctArgv(EXIT_COLUMNS, [snap.jobid])
  }

  /** What accounting is asked, and what it says, given the answers: an array task asks
      sacct for its master; any other job asks squeue again, and sacct when squeue does
      not list it. */
  function AccountingQueries(readers: RowReaders, snap: Snapshot, first: Capture): seq<Argv> {
    if snap.arrayTaskId.Some? then [SacctTaskArgv(snap)]
    else
      match ListingOf("squeue", first)
      case Err(_) => [SqueueArgv([snap.jobid])]
      case Ok(active) =>
        if LastRow(readers.squeue, active, snap.jobid).Some? then [SqueueArgv([snap.jobid])]
        else [SqueueArgv([snap.jobid]), SacctTaskArgv(snap)]
  }

  function OrUnknown(row: Option<JobOutcome>): JobOutcome {
    if row.Some? then row.value else NO_OUTCOME
  }

  function AccountingOutcome(readers: RowReaders, snap: Snapshot, first: Capture, second: Capture): Result<JobOutcome, QueryError> {
    if snap.arrayTaskId.Some? then
      match ListingOf("sacct", first)
      case Err(e) => Err(e)
      case Ok(lines) => Ok(OrUnknown(FirstRow(readers.sacctTask(TaskKey(snap)), lines)))
    else
      match ListingOf("squeue", first)
      case Err(e) => Err(e)
      case Ok(active) =>
        var row := LastRow(readers.squeue, active, snap.jobid);
        if row.Some? then Ok(row.value)
        else
          match ListingOf("sacct", second)
          case Err(e) => Err(e)
          case Ok(history) => Ok(OrUnknown(LastRow(readers.sacct, history, snap.jobid)))
  }

  // ---------------------------------------------------------------- what the listings tell, row by row

  /** The lifecycle `before` with the status of the deciding row, or with the vanish when
      there is no row: squeue's first row of the task for an array task; for any other
      job qgroup's last row, if qgroup answers and has one, and squeue's last row
      otherwise. */
  ghost predicate ShowsTheRow(readers: RowReaders, answer: (nat, Argv) -> Capture, n: nat, snap: Snapshot, now: Instant, after: Lifecycle) {
    var qgroup := ListingOf("qgroup", answer(n, QGROUP_ARGV));
    if snap.arrayTaskId.Some? then
      var squeue := ListingOf("squeue", answer(n, SqueueTaskArgv(snap)));
      squeue.Ok? && IsUpdate(snap.lifecycle, FirstRow(readers.squeueTask(TaskKey(snap)), squeue.value), now, after)
    else if qgroup.Ok? && LastRow(readers.qgroup, qgroup.value, snap.jobid).Some? then
      IsUpdate(snap.lifecycle, LastRow(readers.qgroup, qgroup.value, snap.jobid), now, after)
    else
      var squeue := ListingOf("squeue", answer(n + 1, SqueueArgv([snap.jobid])));
      squeue.Ok? && IsUpdate(snap.lifecycle, LastRow(readers.squeue, squeue.value, snap.jobid), now, after)
  }

  ghost predicate IsUpdate(before: Lifecycle, row: Option<JobOutcome>, now: Instant, after: Lifecycle) {
    && (forall outcome :: row == Some(outcome) ==>
          after == before.(lastObservedState := Some(outcome.status), lastObservedAt := Some(now)))
    && (row == None ==> after == before.(leftActiveListing := true, lastObservedAt := Some(now)))
  }

  /** `o` is what the row says that decides accounting: sacct's first row of the task for
      an array task; for any other job squeue's last row if there is one, and sacct's
      last row otherwise. Without a row it is Unknown, without an exit code. */
  ghost predicate AccountingSays(readers: RowReaders, answer: (nat, Argv) -> Capture, n: nat, snap: Snapshot, o: JobOutcome) {
    if snap.arrayTaskId.Some? then
      var sacct := ListingOf("sacct", answer(n, SacctTaskArgv(snap)));
      sacct.Ok? && RowSays(FirstRow(readers.sacctTask(TaskKey(snap)), sacct.value), o)
    else
      var squeue := ListingOf("squeue", answer(n, SqueueArgv([snap.jobid])));
      var sacct := ListingOf("sacct", answer(n + 1, SacctTaskArgv(snap)));
      && squeue.Ok?
      && var active := LastRow(readers.squeue, squeue.value, snap.jobid);
         if active.Some? then o == active.value
         else sacct.Ok? && RowSays(LastRow(readers.sacct, sacct.value, snap.jobid), o)
  }

  ghost predicate RowSays(row: Option<JobOutcome>, o: JobOutcome) {
    if row.Some? then o == row.value else o == JobOutcome(JobStatus(Unknown, NoReason), None)
  }

  /** The job is seen to be over, or gone, and has no finish yet. */
  predicate LooksDone(l: Lifecycle) {
    l.finished.None? && (l.leftActiveListing || (l.lastObservedState.Some? && l.lastObservedState.value.state.IsTerminal()))
  }

  /** What a call returns and leaves that asked accounting about `seen`: what accounting
      says is recorded, if it says anything and the save succeeds. */
  ghost predicate IsSettled(readers: RowReaders, answer: (nat, Argv) -> Capture, seen: Place, saved: bool, later: Instant,
      r: Result<Snapshot, CallError<QueryError>>, after: Snapshot)
  {
    var n, l := |seen.calls|, seen.snap.lifecycle;
    && (forall o :: AccountingSays(readers, answer, n, seen.snap, o) && saved ==>
          && r == Ok(after)
          && (o.status.state.IsTerminal() || (o.status.state == Unknown && o.exitCode.Some?) ==>
                after == seen.snap.(lifecycle := l.(
                  finished := Some(FinishedInfo(o.status.state, o.status.reason, o.exitCode, later)))))
          && (o.status.state != Unknown && !o.status.state.IsTerminal() ==>
                after == seen.snap.(lifecycle := l.(
                  leftActiveListing := false, lastObservedState := Some(o.status), lastObservedAt := Some(later))))
          && (o.status.state == Unknown && o.exitCode.None? ==> after == seen.snap))
    && (forall o :: AccountingSays(readers, answer, n, seen.snap, o) && !saved ==>
          after == seen.snap && r == if o.status.state == Unknown && o.exitCode.None? then Ok(after) else Err(SaveFailed))
    && ((forall o :: !AccountingSays(readers, answer, n, seen.snap, o)) ==> after == seen.snap && r.Err?)
  }

  /** The settlement of an outcome, spelled out. */
  lemma SettlementIsRecorded(readers: RowReaders, answer: (nat, Argv) -> Capture, seen: Place,
      found: Result<JobOutcome, QueryError>, saved: bool, later: Instant)
    requires forall o :: found == Ok(o) <==> AccountingSays(readers, answer, |seen.calls|, seen.snap, o)
    ensures var c := SettleCall(seen.snap, found, saved, later);
            IsSettled(readers, answer, seen, saved, later, c.returned, c.after)
  {
  }

  /** A refresh that succeeds records what the deciding row says. */
  lemma RefreshShowsTheRow(readers: RowReaders, answer: (nat, Argv) -> Capture, p: Place, saved: bool, now: Instant)
    ensures var c := Circumstances(Probing(readers, answer, p).found, saved, now, Ok(NO_OUTCOME), false, now);
            RefreshCall(p.snap, c).returned.Ok? ==>
              ShowsTheRow(readers, answer, |p.calls|, p.snap, now, RefreshCall(p.snap, c).after.lifecycle)
  {
  }

  lemma AccountingSaysTheRow(readers: RowReaders, answer: (nat, Argv) -> Capture, p: Place, o: JobOutcome)
    ensures Accounting(readers, answer, p).found == Ok(o) <==> AccountingSays(readers, answer, |p.calls|, p.snap, o)
  {
  }

  // ---------------------------------------------------------------- what a call meets

  /** Where a handle stands: its snapshot, the queries so far, and the number of saves. */
  datatype Place = Place(snap: Snapshot, calls: seq<Argv>, saves: nat)

  /** Some queries, and what their answers tell. */
  datatype Inquiry<+T> = Inquiry(asked: seq<Argv>, found: T)

  function Probing(readers: RowReaders, answer: (nat, Argv) -> Capture, p: Place): Inquiry<Probe<QueryError>> {
    var first := answer(|p.calls|, if p.snap.arrayTaskId.Some? then SqueueTaskArgv(p.snap) else QGROUP_ARGV);
    var second := answer(|p.calls| + 1, SqueueArgv([p.snap.jobid]));
    Inquiry(RefreshQueries(readers, p.snap, first), RefreshProbe(readers, p.snap, first, second))
  }

  function Accounting(readers: RowReaders, answer: (nat, Argv) -> Capture, p: Place): Inquiry<Result<JobOutcome, QueryError>> {
    var first := answer(|p.calls|, if p.snap.arrayTaskId.Some? then SacctTaskArgv(p.snap) else SqueueArgv([p.snap.jobid]));
    var second := answer(|p.calls| + 1, SacctTaskArgv(p.snap));
    Inquiry(AccountingQueries(readers, p.snap, first), AccountingOutcome(readers, p.snap, first, second))
  }

  /** What a handle works with: its two inquiries, and whether the n-th save succeeds. */
  datatype Around = Around(
    probing: Place -> Inquiry<Probe<QueryError>>,
    accounting: Place -> Inquiry<Result<JobOutcome, QueryError>>,
    accepts: nat -> bool)

  /** After the queries of a refresh and, unless they failed, its save. */
  function AfterProbe(a: Around, p: Place): Place {
    var probing := a.probing(p);
    Place(p.snap, p.calls + probing.asked, if probing.found.Failing? then p.saves else p.saves + 1)
  }

  /** What a refresh meets that begins at `p`. */
  function MetByRefresh(a: Around, p: Place, now: Instant): Circumstances<QueryError> {
    Circumstances(a.probing(p).found, a.accepts(p.saves), now, Ok(NO_OUTCOME), false, now)
  }

  function Refreshed(a: Around, p: Place, now: Instant): CallResult<QueryError> {
    RefreshCall(p.snap, MetByRefresh(a, p, now))
  }

  function AfterRefresh(a: Around, p: Place, now: Instant): Place {
    AfterProbe(a, p).(snap := Refreshed(a, p, now).after)
  }

  /** What a refresh with accounting meets: accounting is asked where the
      refresh ends. */
  function MetWithSacct(a: Around, p: Place, now: Instant, later: Instant): Circumstances<QueryError> {
    MetByRefresh(a, p, now).(outcome := a.accounting(AfterRefresh(a, p, now)).found, savedAgain := a.accepts(p.saves + 1), later := later)
  }

  /** One refresh as a turn of the polling loop. */
  function RefreshTurn(a: Around, p: Place, now: Instant): Turn<Place, CallError<QueryError>> {
    Turn(AfterRefresh(a, p, now), Refreshed(a, p, now).returned)
  }

  class SbatchJobHandle {
    const store: SnapshotStore
    const dispatcher: Dispatcher
    const readers: RowReaders
    ghost const outside: Around
    ghost const turn: (Place, Instant) -> Turn<Place, CallError<QueryError>>
    var watch: Snapshot

    /** `outside` is what the dispatcher answers, as the readers read it, and what the
        store accepts; `turn` is a refresh among that. */
    ghost predicate Valid() {
      && outside.accepts == store.accepts
      && (forall p: Place {:trigger Probing(readers, dispatcher.answer, p)} ::
            outside.probing(p) == Probing(readers, dispatcher.answer, p))
      && (forall p: Place {:trigger Accounting(readers, dispatcher.answer, p)} ::
            outside.accounting(p) == Accounting(readers, dispatcher.answer, p))
      && (forall p: Place, now: Instant {:trigger RefreshTurn(outside, p, now)} :: turn(p, now) == RefreshTurn(outside, p, now))
    }

    /** The store holds what the watch holds. */
    ghost predicate InStep()
      reads this, store
    {
      watch.uuid in store.contents && store.contents[watch.uuid] == watch
    }

    constructor (snap: Snapshot, store: SnapshotStore, dispatcher: Dispatcher, readers: RowReaders)
      ensures Valid()
      ensures watch == snap && this.store == store && this.dispatcher == dispatcher && this.readers == readers
    {
      watch, this.store, this.dispatcher, this.readers := snap, store, dispatcher, readers;
      var around := Around(
        p => Probing(readers, dispatcher.answer, p), p => Accounting(readers, dispatcher.answer, p), store.accepts);
      outside := around;
      turn := (p: Place, now: Instant) => RefreshTurn(around, p, now);
    }

    lemma ProbingNeverAsksSacct()
      requires Valid()
      ensures forall p, argv :: argv in outside.probing(p).asked ==> !IsSacct(argv)
    {
      forall p, argv | argv in outside.probing(p).asked
        ensures !IsSacct(argv)
      {
        assert outside.probing(p) == Probing(readers, dispatcher.answer, p);
        var first := dispatcher.answer(|p.calls|, if p.snap.arrayTaskId.Some? then SqueueTaskArgv(p.snap) else QGROUP_ARGV);
        RefreshNeverAsksSacct(readers, p.snap, first);
      }
    }

    lemma RefreshShows(p: Place, now: Instant)
      requires Valid()
      ensures Refreshed(outside, p, now).returned.Ok? ==>
                ShowsTheRow(readers, dispatcher.answer, |p.calls|, p.snap, now, AfterRefresh(outside, p, now).snap.lifecycle)
    {
      assert outside.probing(p) == Probing(readers, dispatcher.answer, p);
      RefreshShowsTheRow(readers, dispatcher.answer, p, store.accepts(p.saves), now);
    }

    lemma SettlementRecords(p: Place, now: Instant, later: Instant)
      requires Valid()
      ensures var result := RefreshWithSacctCall(p.snap, MetWithSacct(outside, p, now, later));
              var seen := AfterRefresh(outside, p, now);
              Refreshed(outside, p, now).returned.Ok? ==>
                if LooksDone(seen.snap.lifecycle)
                then IsSettled(readers, dispatcher.answer, seen, store.accepts(p.saves + 1), later, result.returned, result.after)
                else result.after == seen.snap && result.returned == Ok(result.after)
    {
      var seen := AfterRefresh(outside, p, now);
      forall o: JobOutcome
        ensures outside.accounting(seen).found == Ok(o) <==> AccountingSays(readers, dispatcher.answer, |seen.calls|, seen.snap, o)
      {
        AccountingTells(seen, o);
      }
      SettlementIsRecorded(readers, dispatcher.answer, seen, outside.accounting(seen).found, store.accepts(p.saves + 1), later);
    }

    /** What the answer of `AskAccounting` is. */
    lemma AccountingTells(p: Place, o: JobOutcome)
      requires Valid()
      ensures outside.accounting(p).found == Ok(o) <==> AccountingSays(readers, dispatcher.answer, |p.calls|, p.snap, o)
    {
      assert outside.accounting(p) == Accounting(readers, dispatcher.answer, p);
      AccountingSaysTheRow(readers, dispatcher.answer, p, o);
    }

    ghost function Here(): Place
      reads this, store, dispatcher
    {
      Place(watch, dispatcher.calls, store.saves)
    }

    /** Asks the active listings and saves what they say: the status in the row that
        decides, or the vanish when there is none. */
    method Refresh(now: Instant) returns (r: Result<Snapshot, CallError<QueryError>>)
      requires Valid()
      modifies this, store, dispatcher`calls
      ensures Here() == AfterRefresh(outside, old(Here()), now)
      ensures r == Refreshed(outside, old(Here()), now).returned
      ensures r.Ok? ==>
                && r.value == watch == old(watch).(lifecycle := watch.lifecycle)
                && ShowsTheRow(readers, dispatcher.answer, |old(dispatcher.calls)|, old(watch), now, watch.lifecycle)
      ensures r.Err? ==> watch == old(watch)
      ensures store.contents == if r.Ok? then old(store.contents)[watch.uuid := watch] else old(store.contents)
      ensures old(InStep()) ==> InStep()
    {
      RefreshShows(Here(), now);
      r := ObserveAndSave(now);
    }

    method ObserveAndSave(now: Instant) returns (r: Result<Snapshot, CallError<QueryError>>)
      requires Valid()
      modifies this, store, dispatcher`calls
      ensures Here() == AfterRefresh(outside, old(Here()), now)
      ensures r == Refreshed(outside, old(Here()), now).returned
      ensures store.contents == if r.Ok? then old(store.contents)[watch.uuid := watch] else old(store.contents)
      ensures old(InStep()) ==> InStep()
    {
      var snap := watch;
      var probe := this.Probe(snap);
      if probe.Failing? {
        return Err(Query(probe.error));
      }
      snap := Observe(snap, probe, now);
      var ok := store.Save(snap);
      if !ok {
        return Err(SaveFailed);
      }
      watch := snap;
      r := Ok(snap);
    }

    method Probe(snap: Snapshot) returns (probe: Probe<QueryError>)
      requires Valid()
      modifies dispatcher`calls
      ensures var p := Place(snap, old(dispatcher.calls), store.saves);
              && dispatcher.calls == old(dispatcher.calls) + outside.probing(p).asked
              && probe == outside.probing(p).found
    {
      ghost var p := Place(snap, dispatcher.calls, store.saves);
      assert outside.probing(p) == Probing(readers, dispatcher.answer, p);
      if snap.arrayTaskId.Some? {
        var out := dispatcher.Ask(SqueueTaskArgv(snap));
        match ListingOf("squeue", out) {
          case Err(e) => probe := Failing(e);
          case Ok(lines) =>
            var task := FindTask(readers.squeueTask(TaskKey(snap)), lines);
            probe := ProbeOf(task);
        }
        return;
      }
      var qgroup := dispatcher.Ask(QGROUP_ARGV);
      var rows := ListingOf("qgroup", qgroup);
      if rows.Ok? {
        var listed := ReadListing(readers.qgroup, rows.value);
        if snap.jobid in listed {
          return Observed(listed[snap.jobid].status);
        }
      }
      var squeue := dispatcher.Ask(SqueueArgv([snap.jobid]));
      match ListingOf("squeue", squeue) {
        case Err(e) => probe := Failing(e);
        case Ok(lines) =>
          var listed := ReadListing(readers.squeue, lines);
          probe := ProbeOf(Get(listed, snap.jobid));
      }
    }

    /** Refreshes, and lets accounting settle a job that looks done: a terminal state, or
        an unrecognised one with an exit code, is recorded as the finish; a live state
        takes the vanish back; and no usable row changes nothing. */
    method RefreshWithSacct(now: Instant, later: Instant) returns (r: Result<Snapshot, CallError<QueryError>>)
      requires Valid()
      modifies this, store, dispatcher`calls
      ensures var p := old(Here());
              var c := MetWithSacct(outside, p, now, later);
              var result := RefreshWithSacctCall(p.snap, c);
              && watch == result.after && r == result.returned
              && dispatcher.calls == old(dispatcher.calls) + outside.probing(p).asked
                                     + (if result.askedSacct then outside.accounting(AfterRefresh(outside, p, now)).asked else [])
              && store.contents == (if RefreshCall(p.snap, c).returned.Ok? then old(store.contents)[watch.uuid := watch]
                                    else old(store.contents))
      ensures old(InStep()) ==> InStep()
      ensures var p := old(Here());
              var seen := AfterRefresh(outside, p, now);
              Refreshed(outside, p, now).returned.Ok? ==>
                && ShowsTheRow(readers, dispatcher.answer, |p.calls|, p.snap, now, seen.snap.lifecycle)
                && if LooksDone(seen.snap.lifecycle)
                   then IsSettled(readers, dispatcher.answer, seen, store.accepts(p.saves + 1), later, r, watch)
                   else watch == seen.snap && r == Ok(watch)
    {
      RefreshShows(Here(), now);
      SettlementRecords(Here(), now, later);
      r := ObserveAndSettle(now, later);
    }

    method ObserveAndSettle(now: Instant, later: Instant) returns (r: Result<Snapshot, CallError<QueryError>>)
      requires Valid()
      modifies this, store, dispatcher`calls
      ensures var p := old(Here());
              var c := MetWithSacct(outside, p, now, later);
              var result := RefreshWithSacctCall(p.snap, c);
              && watch == result.after && r == result.returned
              && dispatcher.calls == old(dispatcher.calls) + outside.probing(p).asked
                                     + (if result.askedSacct then outside.accounting(AfterRefresh(outside, p, now)).asked else [])
              && store.contents == (if RefreshCall(p.snap, c).returned.Ok? then old(store.contents)[watch.uuid := watch]
                                    else old(store.contents))
      ensures old(InStep()) ==> InStep()
    {
      ghost var p := Here();
      r := ObserveAndSave(now);
      if r.Err? || !NeedsSacct(r.value) {
        return;
      }
      var snap := r.value;
      var outcome := AskAccounting(snap);
      if outcome.Err? {
        return Err(Query(outcome.error));
      }
      match Settle(snap, outcome.value, later) {
        case Unresolved =>
        case StillAlive(alive) =>
          var ok := store.Save(alive);
          if !ok {
            return Err(SaveFailed);
          }
          watch := alive;
          r := Ok(alive);
        case Stamped(done) =>
          var ok := store.Save(done);
          if !ok {
            return Err(SaveFailed);
          }
          watch := done;
          r := Ok(done);
      }
    }

    /** The outcome that accounting reports: the row of the task in the listing of its
        master, or the resolution of the job by the bulk query with exit codes. */
    method AskAccounting(snap: Snapshot) returns (r: Result<JobOutcome, QueryError>)
      requires Valid()
      modifies dispatcher`calls
      ensures var p := Place(snap, old(dispatcher.calls), store.saves);
              && dispatcher.calls == old(dispatcher.calls) + outside.accounting(p).asked
              && r == outside.accounting(p).found
    {
      ghost var p := Place(snap, dispatcher.calls, store.saves);
      assert outside.accounting(p) == Accounting(readers, dispatcher.answer, p);
      if snap.arrayTaskId.Some? {
        var out := dispatcher.Ask(SacctTaskArgv(snap));
        match ListingOf("sacct", out) {
          case Err(e) => r := Err(e);
          case Ok(lines) =>
            var task := FindTask(readers.sacctTask(TaskKey(snap)), lines);
            r := Ok(OrUnknown(task));
        }
        return;
      }
      var id := snap.jobid;
      var m := QueryStates(dispatcher, readers.squeue, readers.sacct, EXIT_COLUMNS, [id]);
      assert Dedupe([id]) == [id];
      r := if m.Err? then Err(m.error) else Ok(OrUnknown(Get(m.value, id)));
    }

    /** The handle stands where `k` refreshes from `p` lead. None of their queries was for
        sacct, and a store in step with the watch still is. */
    ghost predicate HasPolled(p: Place, times: nat -> Instant, k: nat, inStep: bool)
      reads this, store, dispatcher
    {
      && Here() == AfterPolls(turn, p, times, k)
      && AskedNoSacct(p.calls, dispatcher.calls)
      && (inStep ==> InStep())
    }

    lemma NothingPolled(times: nat -> Instant)
      ensures HasPolled(Here(), times, 0, InStep()) && GoesOn(turn, Here(), times, 0, 0)
    {
    }

    /** One refresh more. */
    method PollOnce(now: Instant, ghost p: Place, ghost times: nat -> Instant, ghost k: nat, ghost inStep: bool)
        returns (r: Poll<CallError<QueryError>>)
      requires Valid() && HasPolled(p, times, k, inStep) && now == times(k)
      modifies this, store, dispatcher`calls
      ensures HasPolled(p, times, k + 1, inStep) && r == PollAt(turn, p, times, k)
    {
      assert turn(Here(), now) == RefreshTurn(outside, Here(), now);
      r := ObserveAndSave(now);
      ProbingNeverAsksSacct();
    }

    /** One refresh more, and whether it decides. */
    method PollAndDecide(now: Instant, ghost p: Place, ghost times: nat -> Instant, ghost k: nat, ghost failures: nat,
        ghost horizon: nat, ghost inStep: bool)
        returns (r: Poll<CallError<QueryError>>)
      requires Valid() && HasPolled(p, times, k, inStep) && now == times(k)
      requires GoesOn(turn, p, times, k, failures) && k < horizon
      modifies this, store, dispatcher`calls
      ensures HasPolled(p, times, k + 1, inStep)
      ensures if Decides(r, failures) then Wait(PollsUpTo(turn, p, times, horizon)) == Returned(k, r)
              else GoesOn(turn, p, times, k + 1, if r.Ok? then 0 else failures + 1)
    {
      r := PollOnce(now, p, times, k, inStep);
      OneTurnMore(turn, p, times, k, failures, horizon);
    }

    /** Refreshes again and again, sleeping in between, for at most `horizon` polls:
        an unbounded loop seen up to any point. `times` are the clock readings. The
        verdict is that of the refreshes from here on, and no refresh is made after it. */
    method WaitTerminal(horizon: nat, times: nat -> Instant) returns (verdict: Verdict<CallError<QueryError>>)
      requires Valid()
      modifies this, store, dispatcher`calls
      ensures verdict == Wait(PollsUpTo(turn, old(Here()), times, horizon))
      ensures verdict.Returned? ==> verdict.poll < horizon
      ensures IsFirstEnd(PollsUpTo(turn, old(Here()), times, horizon), verdict)
      ensures HasPolled(old(Here()), times, if verdict.Returned? then verdict.poll + 1 else horizon, old(InStep()))
    {
      var failures := 0;
      ghost var p, inStep := Here(), InStep();
      NothingPolled(times);
      for i := 0 to horizon
        invariant p == old(Here()) && inStep == old(InStep())
        invariant HasPolled(p, times, i, inStep) && GoesOn(turn, p, times, i, failures)
      {
        var r := PollAndDecide(times(i), p, times, i, failures, horizon, inStep);
        if Decides(r, failures) {
          WaitIsFirstEnd(PollsUpTo(turn, p, times, horizon));
          return Returned(i, r);
        }
        failures := if r.Ok? then 0 else failures + 1;
      }
      verdict := StillPolling;
      EndsUndecided(turn, p, times, horizon, failures);
      WaitIsFirstEnd(PollsUpTo(turn, p, times, horizon));
    }
  }
}
