/** Submitting array jobs and finding their tasks again: what one submission leaves in
    the store, and what attaching by job id makes of any listing of it. */
module Submissions {
  import opened Wrappers
  import opened Text
  import opened Dispatch
  import opened SbatchSnapshots
  import opened Stores
  import opened ArraySpecs

  // ---------------------------------------------------------------- the submit answer

  const SUBMITTED: string := "Submitted batch job "

  function TakeDigits(s: string): (r: string)
    ensures AllDigits(r)
  {
    if s != "" && IsDigit(s[0]) then [s[0]] + TakeDigits(s[1..]) else ""
  }

  function LineJobid(line: string): Option<U64> {
    var trimmed := Trim(line);
    if IsPrefix(SUBMITTED, trimmed) then ParseU64(TakeDigits(trimmed[|SUBMITTED|..])) else None
  }

  /** The first line that names a job id. */
  function FirstJobid(lines: seq<string>): Option<U64> {
    if lines == [] then None
    else if LineJobid(lines[0]).Some? then LineJobid(lines[0])
    else FirstJobid(lines[1..])
  }

  function SubmittedJobid(stdout: string): Option<U64> {
    FirstJobid(Lines(stdout))
  }

  lemma {:induction false} TakeDigitsStops(digits: string, rest: string)
    requires AllDigits(digits) && (rest == "" || !IsDigit(rest[0]))
    ensures TakeDigits(digits + rest) == digits
    decreases |digits|
  {
    var s := digits + rest;
    if digits == "" {
      assert s == rest;
    } else {
      assert s[1..] == digits[1..] + rest;
      TakeDigitsStops(digits[1..], rest);
      assert [digits[0]] + digits[1..] == digits;
    }
  }

  lemma {:induction false} TrimEndStops(a: string, b: string)
    requires a != "" && !IsSpace(a[|a| - 1])
    ensures exists kept :: TrimEnd(a + b) == a + kept && kept <= b
    decreases |b|
  {
    var s := a + b;
    if b != "" && IsSpace(b[|b| - 1]) {
      var init := b[..|b| - 1];
      assert s[..|s| - 1] == a + init;
      TrimEndStops(a, init);
      var kept :| TrimEnd(a + init) == a + kept && kept <= init;
      assert TrimEnd(s) == a + kept && kept <= b;
    } else {
      assert TrimEnd(s) == s;
      assert TrimEnd(a + b) == a + b && b <= b;
    }
  }

  /** A line with trailing words, as a multi-cluster or array submission prints it. */
  lemma {:induction false} LineJobidIsRead(n: U64, rest: string)
    requires rest == "" || !IsDigit(rest[0])
    ensures LineJobid(SUBMITTED + Dec(n) + rest) == Some(n)
  {
    var head := SUBMITTED + Dec(n);
    TrimEndStops(head, rest);
    var kept :| TrimEnd(head + rest) == head + kept && kept <= rest;
    assert DropWhileSpace(head + rest) == head + rest;
    assert (head + kept)[|SUBMITTED|..] == Dec(n) + kept;
    assert (head + kept)[..|SUBMITTED|] == SUBMITTED;
    TakeDigitsStops(Dec(n), kept);
    ParseOfDec(n, U64_MAX);
  }

  lemma {:induction false} FirstJobidSkips(before: seq<string>, line: string, after: seq<string>)
    requires forall x :: x in before ==> LineJobid(x).None?
    requires LineJobid(line).Some?
    ensures FirstJobid(before + [line] + after) == LineJobid(line)
    decreases |before|
  {
    var lines := before + [line] + after;
    if before != [] {
      assert lines[1..] == before[1..] + [line] + after;
      FirstJobidSkips(before[1..], line, after);
    }
  }

  /** The job id is found behind any lines that name none. */
  lemma SubmittedJobidIsRead(before: seq<string>, n: U64, rest: string, after: seq<string>)
    requires forall line :: line in before ==> LineJobid(line).None?
    requires rest == "" || !IsDigit(rest[0])
    requires forall line :: line in before + [SUBMITTED + Dec(n) + rest] + after ==> PlainLine(line)
    ensures SubmittedJobid(Unlines(before + [SUBMITTED + Dec(n) + rest] + after)) == Some(n)
  {
    var line := SUBMITTED + Dec(n) + rest;
    LineJobidIsRead(n, rest);
    FirstJobidSkips(before, line, after);
    LinesOfUnlines(before + [line] + after);
  }

  datatype SpawnError =
    | NoIndices
    | BuildFailed
    | DispatchFailed(message: string)
    | SubmitFailed(exitCode: int)
    | JobidParseError(stdout: string)
    | BadScriptPath
    | SubmittedButUnpersisted(jobid: U64)

  function SubmitOutcome(out: Capture): Result<U64, SpawnError> {
    match out
    case Failed(message) => Err(DispatchFailed(message))
    case Ran(exitCode, stdout, _) =>
      if exitCode != 0 then Err(SubmitFailed(exitCode))
      else
        match SubmittedJobid(stdout)
        case None => Err(JobidParseError(stdout))
        case Some(jobid) => Ok(jobid)
  }

  // ---------------------------------------------------------------- the tasks of a submission

  /** Where fresh uuids and clock readings come from. */
  datatype Readings = Readings(mint: nat -> Uuid, now: nat -> Instant)

  function Task(master: U64, index: U32, submission: Submission, r: Readings, k: nat): Snapshot {
    Snapshot(r.mint(k), master, Some(index), r.now(k), submission, NEW_LIFECYCLE)
  }

  /** One new snapshot per index, in the order of the indices. */
  function Tasks(master: U64, indices: seq<U32>, submission: Submission, r: Readings, first: nat): (tasks: seq<Snapshot>)
    ensures |tasks| == |indices|
    ensures forall k :: 0 <= k < |tasks| ==> tasks[k] == Task(master, indices[k], submission, r, first + k)
  {
    seq(|indices|, k requires 0 <= k < |indices| => Task(master, indices[k], submission, r, first + k))
  }

  /** How many of the next `n` saves succeed before one fails. */
  function AcceptedSaves(accepts: nat -> bool, from: nat, n: nat): (k: nat)
    ensures k <= n
    ensures forall i :: from <= i < from + k ==> accepts(i)
    ensures k < n ==> !accepts(from + k)
    decreases n
  {
    if n == 0 || !accepts(from) then 0
    else AcceptedSaves(accepts, from + 1, n - 1) + 1
  }

  /** Uuids are never minted twice and are not yet in the store. */
  ghost predicate Fresh(r: Readings, first: nat, contents: Contents) {
    && (forall i, j :: first <= i < j ==> r.mint(i) != r.mint(j))
    && (forall i :: first <= i ==> r.mint(i) !in contents)
  }

  // ---------------------------------------------------------------- attaching

  datatype AttachError = NotFound | MultipleMatch(jobid: U64, count: nat) | Io

  /** What attaching by a job id makes of a listing. */
  function AttachedByJobid(listing: seq<Snapshot>, jobid: U64): Result<Snapshot, AttachError> {
    var found := FindAll(listing, jobid);
    if |found| > 1 then Err(MultipleMatch(jobid, |found|))
    else if found == [] then Err(NotFound)
    else Ok(found[0])
  }

  /** Attaching by uuid. */
  function AttachedByUuid(contents: Contents, u: Uuid): Result<Snapshot, AttachError> {
    if u in contents then Ok(contents[u]) else Err(NotFound)
  }

  /** Each task of a spawn is found by its uuid if it was saved, and only then; what was
      stored before is found as it was. */
  lemma SpawnedTasksAreFoundByUuid(contents: Contents, master: U64, indices: seq<U32>, submission: Submission, r: Readings, first: nat, k: nat)
    requires Fresh(r, first, contents) && k <= |indices|
    ensures var tasks := Tasks(master, indices, submission, r, first);
            var after := SaveAll(contents, tasks[..k]);
            && (forall n :: 0 <= n < |tasks| ==>
                  AttachedByUuid(after, tasks[n].uuid) == if n < k then Ok(tasks[n]) else Err(NotFound))
            && (forall u :: u in contents ==> AttachedByUuid(after, u) == Ok(contents[u]))
  {
    var tasks := Tasks(master, indices, submission, r, first);
    var saved := tasks[..k];
    UuidsAreNew(contents, master, indices, submission, r, first);
    SaveAllHolds(contents, saved);
    forall n | 0 <= n < |tasks|
      ensures AttachedByUuid(SaveAll(contents, saved), tasks[n].uuid) == if n < k then Ok(tasks[n]) else Err(NotFound)
    {
      if n < k {
        assert saved[n] in saved;
      } else {
        SaveAllKeepsTheRest(contents, saved, tasks[n].uuid);
      }
    }
    forall u | u in contents
      ensures AttachedByUuid(SaveAll(contents, saved), u) == Ok(contents[u])
    {
      SaveAllKeepsTheRest(contents, saved, u);
    }
  }

  lemma UuidsAreNew(contents: Contents, master: U64, indices: seq<U32>, submission: Submission, r: Readings, first: nat)
    requires Fresh(r, first, contents)
    ensures var tasks := Tasks(master, indices, submission, r, first);
            DistinctUuids(tasks) && forall n :: 0 <= n < |tasks| ==> tasks[n].uuid !in contents
  {
    var tasks := Tasks(master, indices, submission, r, first);
    forall n | 0 <= n < |tasks|
      ensures tasks[n].uuid == r.mint(first + n) && tasks[n].uuid !in contents
    {
    }
  }

  predicate IsTask(x: Snapshot) {
    x.arrayTaskId.Some?
  }

  predicate AllTasks(snaps: seq<Snapshot>) {
    forall x :: x in snaps ==> IsTask(x)
  }

  function OnlyTasks(snaps: seq<Snapshot>): (r: seq<Snapshot>)
    ensures AllTasks(r)
    ensures forall x :: x in r <==> x in snaps && IsTask(x)
    ensures AllTasks(snaps) ==> r == snaps
  {
    if snaps == [] then []
    else
      assert snaps == [snaps[0]] + snaps[1..];
      (if IsTask(snaps[0]) then [snaps[0]] else []) + OnlyTasks(snaps[1..])
  }

  /** The order of the sort key: no task id comes before every task id. */
  function Rank(x: Snapshot): nat {
    if x.arrayTaskId.Some? then x.arrayTaskId.value + 1 else 0
  }

  predicate SortedByTask(snaps: seq<Snapshot>) {
    forall i, j :: 0 <= i < j < |snaps| ==> Rank(snaps[i]) <= Rank(snaps[j])
  }

  /** Behind all entries with the same or a smaller key. */
  function InsertTask(sorted: seq<Snapshot>, x: Snapshot): (r: seq<Snapshot>)
    ensures multiset(r) == multiset(sorted) + multiset{x}
  {
    if sorted == [] then [x]
    else
      var n := |sorted| - 1;
      assert sorted == sorted[..n] + [sorted[n]];
      if Rank(sorted[n]) <= Rank(x) then sorted + [x] else InsertTask(sorted[..n], x) + [sorted[n]]
  }

  /** The stable `sort_by_key` on the task id. */
  function SortTasks(snaps: seq<Snapshot>): (r: seq<Snapshot>)
    ensures multiset(r) == multiset(snaps)
  {
    if snaps == [] then []
    else
      var n := |snaps| - 1;
      assert snaps == snaps[..n] + [snaps[n]];
      InsertTask(SortTasks(snaps[..n]), snaps[n])
  }

  lemma SortedWithLargest(front: seq<Snapshot>, last: Snapshot)
    requires SortedByTask(front) && forall y :: y in front ==> Rank(y) <= Rank(last)
    ensures SortedByTask(front + [last])
  {
  }

  lemma {:induction false} InsertTaskSorts(sorted: seq<Snapshot>, x: Snapshot)
    requires SortedByTask(sorted)
    ensures SortedByTask(InsertTask(sorted, x))
    decreases |sorted|
  {
    if sorted != [] {
      var n := |sorted| - 1;
      if Rank(sorted[n]) <= Rank(x) {
        SortedWithLargest(sorted, x);
      } else {
        var front := InsertTask(sorted[..n], x);
        InsertTaskSorts(sorted[..n], x);
        forall y | y in front
          ensures Rank(y) <= Rank(sorted[n])
        {
          assert y in multiset(front);
        }
        SortedWithLargest(front, sorted[n]);
      }
    }
  }

  lemma {:induction false} SortTasksSorts(snaps: seq<Snapshot>)
    ensures SortedByTask(SortTasks(snaps))
    decreases |snaps|
  {
    if snaps != [] {
      var n := |snaps| - 1;
      SortTasksSorts(snaps[..n]);
      InsertTaskSorts(SortTasks(snaps[..n]), snaps[n]);
    }
  }

  function AttachedArray(listing: seq<Snapshot>, master: U64): seq<Snapshot> {
    SortTasks(OnlyTasks(FindAll(listing, master)))
  }

  // ---------------------------------------------------------------- spawn, then attach

  /** Snapshots of one array that a store does not know yet. */
  predicate NewTasks(contents: Contents, tasks: seq<Snapshot>, master: U64) {
    && AllTasks(tasks) && DistinctUuids(tasks)
    && (forall x :: x in tasks ==> x.jobid == master && x.uuid !in contents)
    && (forall u :: u in contents ==> contents[u].jobid != master)
  }

  lemma SpawnedTasksAreNew(contents: Contents, master: U64, indices: seq<U32>, submission: Submission, r: Readings, first: nat, k: nat)
    requires Fresh(r, first, contents) && k <= |indices|
    requires forall u :: u in contents ==> contents[u].jobid != master
    ensures NewTasks(contents, Tasks(master, indices, submission, r, first)[..k], master)
  {
    var tasks := Tasks(master, indices, submission, r, first)[..k];
    forall i, j | 0 <= i < j < |tasks|
      ensures tasks[i].uuid != tasks[j].uuid
    {
      assert tasks[i].uuid == r.mint(first + i) && tasks[j].uuid == r.mint(first + j);
    }
    forall x | x in tasks
      ensures IsTask(x) && x.jobid == master && x.uuid !in contents
    {
      var i :| 0 <= i < |tasks| && tasks[i] == x;
      assert x.uuid == r.mint(first + i);
    }
  }

  lemma NewTasksAreFound(contents: Contents, tasks: seq<Snapshot>, master: U64, listing: seq<Snapshot>)
    requires NewTasks(contents, tasks, master) && IsListing(SaveAll(contents, tasks), listing)
    ensures multiset(FindAll(listing, master)) == multiset(tasks)
    ensures AllTasks(FindAll(listing, master))
  {
    var found := FindAll(listing, master);
    FindAllFinds(listing, master);
    SaveAllHolds(contents, tasks);
    forall x
      ensures x in found <==> x in tasks
    {
      if x in found && x !in tasks {
        assert x.uuid in SaveAll(contents, tasks);
        if forall y :: y in tasks ==> y.uuid != x.uuid {
          SaveAllKeepsTheRest(contents, tasks, x.uuid);
        }
      }
    }
    SameElementsArePermutations(found, tasks);
  }

  /** Whatever order the store lists in: attaching the array gives exactly the tasks that
      were saved, sorted by task id, and attaching by the job id alone fails exactly when
      there is not exactly one, naming the number. */
  lemma SpawnThenAttach(contents: Contents, tasks: seq<Snapshot>, master: U64, listing: seq<Snapshot>)
    requires NewTasks(contents, tasks, master) && IsListing(SaveAll(contents, tasks), listing)
    ensures multiset(AttachedArray(listing, master)) == multiset(tasks)
    ensures SortedByTask(AttachedArray(listing, master))
    ensures AttachedByJobid(listing, master) ==
            if |tasks| > 1 then Err(MultipleMatch(master, |tasks|)) else if |tasks| == 1 then Ok(tasks[0]) else Err(NotFound)
  {
    NewTasksAreFound(contents, tasks, master, listing);
    SortTasksSorts(OnlyTasks(FindAll(listing, master)));
    var found := FindAll(listing, master);
    assert |found| == |multiset(found)| == |multiset(tasks)| == |tasks|;
    if |tasks| == 1 {
      assert tasks[0] in multiset(found);
    }
  }

  predicate AscendingTasks(snaps: seq<Snapshot>) {
    forall i, j :: 0 <= i < j < |snaps| ==> Rank(snaps[i]) < Rank(snaps[j])
  }

  lemma LargestAgree(a: seq<Snapshot>, b: seq<Snapshot>)
    requires SortedByTask(a) && AscendingTasks(b) && a != [] && b != []
    requires forall x :: x in a <==> x in b
    ensures a[|a| - 1] == b[|b| - 1]
  {
    var x, y := a[|a| - 1], b[|b| - 1];
    assert y in a;
    assert x in b;
  }

  lemma SameMembers(a: seq<Snapshot>, b: seq<Snapshot>)
    requires multiset(a) == multiset(b)
    ensures |a| == |b| && forall x :: x in a <==> x in b
  {
    assert |a| == |multiset(a)| && |b| == |multiset(b)|;
    forall x
      ensures x in a <==> x in b
    {
      assert x in a <==> x in multiset(a);
    }
  }

  lemma WithoutLast(a: seq<Snapshot>)
    requires a != []
    ensures var n := |a| - 1;
            a == a[..n] + [a[n]] && multiset(a[..n]) == multiset(a) - multiset{a[n]}
  {
    assert a == a[..|a| - 1] + [a[|a| - 1]];
  }

  lemma {:induction false} SortedPermutationIsUnique(a: seq<Snapshot>, b: seq<Snapshot>)
    requires SortedByTask(a) && AscendingTasks(b) && multiset(a) == multiset(b)
    ensures a == b
    decreases |a|
  {
    SameMembers(a, b);
    if a != [] {
      var n := |a| - 1;
      LargestAgree(a, b);
      WithoutLast(a);
      WithoutLast(b);
      SortedPermutationIsUnique(a[..n], b[..n]);
    }
  }

  /** Indices declared in ascending order come back in the order of the spawn. */
  lemma AscendingSpawnComesBackInOrder(contents: Contents, tasks: seq<Snapshot>, master: U64, listing: seq<Snapshot>)
    requires NewTasks(contents, tasks, master) && IsListing(SaveAll(contents, tasks), listing)
    requires AscendingTasks(tasks)
    ensures AttachedArray(listing, master) == tasks
  {
    SpawnThenAttach(contents, tasks, master, listing);
    SortedPermutationIsUnique(AttachedArray(listing, master), tasks);
  }

  /** Spawning an array and attaching to it: whatever saves failed and in whatever order
      the store lists, the array handle has exactly the tasks saved before the first
      failure; and when none failed, attaching by the job id alone reports multiple
      matches exactly when the specification stands for more than one index. */
  lemma SpawnedArrayCanBeAttached(contents: Contents, spec: ArraySpec, master: U64, submission: Submission, r: Readings, first: nat, accepts: nat -> bool, from: nat, listing: seq<Snapshot>)
    requires Fresh(r, first, contents) && forall u :: u in contents ==> contents[u].jobid != master
    requires forall e :: e in spec.indices ==> Advances(e)
    requires var tasks := Tasks(master, Expansion(spec.indices), submission, r, first);
             IsListing(SaveAll(contents, tasks[..AcceptedSaves(accepts, from, |tasks|)]), listing)
    ensures var tasks := Tasks(master, Expansion(spec.indices), submission, r, first);
            var k := AcceptedSaves(accepts, from, |tasks|);
            && multiset(AttachedArray(listing, master)) == multiset(tasks[..k])
            && SortedByTask(AttachedArray(listing, master))
            && (AttachedByJobid(listing, master) == Err(MultipleMatch(master, k)) <==> k > 1)
            && (k == |tasks| ==> (AttachedByJobid(listing, master).Err? && AttachedByJobid(listing, master).error.MultipleMatch? <==> |Expansion(spec.indices)| > 1))
  {
    var tasks := Tasks(master, Expansion(spec.indices), submission, r, first);
    var k := AcceptedSaves(accepts, from, |tasks|);
    SpawnedTasksAreNew(contents, master, Expansion(spec.indices), submission, r, first, k);
    SpawnThenAttach(contents, tasks[..k], master, listing);
  }

  function TaskIds(snaps: seq<Snapshot>): (ids: seq<Option<U32>>)
    ensures |ids| == |snaps| && forall k :: 0 <= k < |ids| ==> ids[k] == snaps[k].arrayTaskId
  {
    seq(|snaps|, k requires 0 <= k < |snaps| => snaps[k].arrayTaskId)
  }

  lemma TaskIdsOfMore(u: seq<Snapshot>, x: Snapshot, v: seq<Snapshot>)
    ensures multiset(TaskIds(u + [x] + v)) == multiset(TaskIds(u + v)) + multiset{x.arrayTaskId}
  {
    assert TaskIds(u + [x] + v) == TaskIds(u) + [x.arrayTaskId] + TaskIds(v);
    assert TaskIds(u + v) == TaskIds(u) + TaskIds(v);
  }

  lemma TakenOut(u: seq<Snapshot>, x: Snapshot, v: seq<Snapshot>)
    ensures multiset(u + v) == multiset(u + [x] + v) - multiset{x}
  {
    assert multiset(u + [x]) == multiset(u) + multiset{x};
    assert multiset(u + [x] + v) == multiset(u + [x]) + multiset(v);
    assert multiset(u + v) == multiset(u) + multiset(v);
  }

  lemma {:induction false} TaskIdsOfPermutation(a: seq<Snapshot>, b: seq<Snapshot>)
    requires multiset(a) == multiset(b)
    ensures multiset(TaskIds(a)) == multiset(TaskIds(b))
    decreases |a|
  {
    SameMembers(a, b);
    if a != [] {
      var n := |a| - 1;
      var x := a[n];
      assert x in b;
      var k :| 0 <= k < |b| && b[k] == x;
      var u, v := b[..k], b[k + 1..];
      assert b == u + [x] + v;
      assert a == a[..n] + [x] + [] && a[..n] == a[..n] + [];
      TakenOut(u, x, v);
      TakenOut(a[..n], x, []);
      TaskIdsOfPermutation(a[..n], u + v);
      TaskIdsOfMore(u, x, v);
      TaskIdsOfMore(a[..n], x, []);
    }
  }

  lemma TaskIdsAre(tasks: seq<Snapshot>, ids: seq<U32>, id: U32)
    requires |tasks| == |ids| && forall k :: 0 <= k < |tasks| ==> tasks[k].arrayTaskId == Some(ids[k])
    ensures Some(id) in TaskIds(tasks) <==> id in ids
  {
    if id in ids {
      var k :| 0 <= k < |ids| && ids[k] == id;
      assert TaskIds(tasks)[k] == Some(id);
    }
  }

  /** What a spawn of a well-formed specification stored, and so of every parsed one, comes
      back with exactly the task ids it stands for, each as often as it is declared. */
  lemma SpawnedIdsComeBack(indices: seq<ArrayIndex>, contents: Contents, tasks: seq<Snapshot>, master: U64, listing: seq<Snapshot>)
    requires forall e :: e in indices ==> WellFormedIndex(e) && Advances(e)
    requires |tasks| == |Expansion(indices)|
    requires forall k :: 0 <= k < |tasks| ==> tasks[k].arrayTaskId == Some(Expansion(indices)[k])
    requires NewTasks(contents, tasks, master) && IsListing(SaveAll(contents, tasks), listing)
    ensures var attached := AttachedArray(listing, master);
            && SortedByTask(attached)
            && multiset(TaskIds(attached)) == multiset(TaskIds(tasks))
            && forall id: U32 :: Some(id) in TaskIds(attached) <==> exists e :: e in indices && InEntry(e, id)
  {
    var attached := AttachedArray(listing, master);
    SpawnThenAttach(contents, tasks, master, listing);
    TaskIdsOfPermutation(attached, tasks);
    forall id: U32
      ensures Some(id) in TaskIds(attached) <==> exists e :: e in indices && InEntry(e, id)
    {
      InExpansion(indices, id);
      TaskIdsAre(tasks, Expansion(indices), id);
      assert Some(id) in TaskIds(attached) <==> Some(id) in multiset(TaskIds(attached));
      assert Some(id) in TaskIds(tasks) <==> Some(id) in multiset(TaskIds(tasks));
    }
  }
}
