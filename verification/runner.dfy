/** The status queries: how an answer is classified, and the bulk resolution of job
    ids from the active queue, then history, then Unknown. */
module Runner {
  import opened Wrappers
  import opened Text
  import opened JobKeys
  import opened Dispatch
  import opened QueryShapes
  import opened JobStatuses
  import opened Listings

  datatype QueryError = SpawnFailure(message: string) | BadExit(tool: string, exitCode: int)

  /** Every queried id has left the queue. */
  predicate ReportsVanished(out: Capture) {
    out.Ran? && out.exitCode != 0 && Contains(out.stderr, "Invalid job id specified")
  }

  /** The listing an answer amounts to: a failed query has none, and the vanish
      exit of squeue is an empty one. */
  function ListingOf(tool: string, out: Capture): Result<seq<string>, QueryError> {
    if out.Failed? then Err(SpawnFailure(out.message))
    else if tool == "squeue" && ReportsVanished(out) then Ok([])
    else if out.exitCode != 0 then Err(BadExit(tool, out.exitCode))
    else Ok(Lines(out.stdout))
  }

  // ---------------------------------------------------------------- argument vectors

  function IdKeys(ids: seq<U64>): (keys: seq<JobKey>)
    ensures |keys| == |ids|
    ensures forall i :: 0 <= i < |ids| ==> keys[i] == Plain(ids[i])
  {
    Map((id: U64) => Plain(id), ids)
  }

  function SqueueArgv(ids: seq<U64>): Argv {
    Build(Squeue, IdKeys(ids))
  }

  function SacctArgv(columns: string, ids: seq<U64>): Argv {
    ["sacct", "-P", "-n", "-j", Csv(IdKeys(ids)), "-o", columns]
  }

  // ---------------------------------------------------------------- bulk queries

  /** The ids not seen before, in the order of first occurrence. */
  function DedupeFrom(ids: seq<U64>, seen: set<U64>): (r: seq<U64>)
    ensures forall id :: id in r <==> id in ids && id !in seen
    ensures forall i, j :: 0 <= i < j < |r| ==> r[i] != r[j]
  {
    if ids == [] then []
    else if ids[0] in seen then DedupeFrom(ids[1..], seen)
    else [ids[0]] + DedupeFrom(ids[1..], seen + {ids[0]})
  }

  function Dedupe(ids: seq<U64>): seq<U64> {
    DedupeFrom(ids, {})
  }

  function IndexOf(ids: seq<U64>, id: U64): (i: nat)
    requires id in ids
    ensures i < |ids| && ids[i] == id && id !in ids[..i]
  {
    if ids[0] == id then 0 else 1 + IndexOf(ids[1..], id)
  }

  lemma IndexOfRest(ids: seq<U64>, id: U64)
    requires id in ids && ids[0] != id
    ensures id in ids[1..] && IndexOf(ids, id) == 1 + IndexOf(ids[1..], id)
  {
  }

  /** Both are in the list, and the first one comes first. */
  predicate Before(ids: seq<U64>, a: U64, b: U64) {
    a in ids && b in ids && IndexOf(ids, a) < IndexOf(ids, b)
  }

  lemma BeforeInRest(ids: seq<U64>, a: U64, b: U64)
    requires ids != [] && a != ids[0] && b != ids[0] && Before(ids[1..], a, b)
    ensures Before(ids, a, b)
  {
    IndexOfRest(ids, a);
    IndexOfRest(ids, b);
  }

  lemma FirstIsBefore(ids: seq<U64>, b: U64)
    requires ids != [] && b != ids[0] && b in ids
    ensures Before(ids, ids[0], b)
  {
    IndexOfRest(ids, b);
  }

  lemma KeptIsListed(ids: seq<U64>, seen: set<U64>, k: nat)
    requires k < |DedupeFrom(ids, seen)|
    ensures DedupeFrom(ids, seen)[k] in ids && DedupeFrom(ids, seen)[k] !in seen
  {
    assert DedupeFrom(ids, seen)[k] in DedupeFrom(ids, seen);
  }

  lemma {:induction false} DedupeKeepsFirstOccurrences(ids: seq<U64>, seen: set<U64>, i: nat, j: nat)
    requires i < j < |DedupeFrom(ids, seen)|
    ensures Before(ids, DedupeFrom(ids, seen)[i], DedupeFrom(ids, seen)[j])
    decreases |ids|, 2
  {
    if ids[0] in seen {
      DedupeKeepsFirstOccurrences(ids[1..], seen, i, j);
      KeptIsListed(ids, seen, i);
      KeptIsListed(ids, seen, j);
      BeforeInRest(ids, DedupeFrom(ids, seen)[i], DedupeFrom(ids, seen)[j]);
    } else {
      NewIdGoesFirst(ids, seen, i, j);
    }
  }

  lemma {:induction false} NewIdGoesFirst(ids: seq<U64>, seen: set<U64>, i: nat, j: nat)
    requires ids != [] && ids[0] !in seen
    requires i < j < |DedupeFrom(ids, seen)|
    ensures Before(ids, DedupeFrom(ids, seen)[i], DedupeFrom(ids, seen)[j])
    decreases |ids|, 1
  {
    var rest := DedupeFrom(ids[1..], seen + {ids[0]});
    assert DedupeFrom(ids, seen) == [ids[0]] + rest;
    RestIsOrdered(ids[0], ids[1..], seen + {ids[0]}, i, j);
    OrderCarries(ids, [ids[0]] + rest, rest, i, j);
  }

  lemma {:induction false} RestIsOrdered(first: U64, tail: seq<U64>, more: set<U64>, i: nat, j: nat)
    requires first in more
    requires i < j <= |DedupeFrom(tail, more)|
    ensures var rest := DedupeFrom(tail, more);
            && rest[j - 1] in tail && rest[j - 1] != first
            && (i > 0 ==> rest[i - 1] != first && Before(tail, rest[i - 1], rest[j - 1]))
    decreases |tail|, 3
  {
    KeptIsListed(tail, more, j - 1);
    if i > 0 {
      KeptIsListed(tail, more, i - 1);
      DedupeKeepsFirstOccurrences(tail, more, i - 1, j - 1);
    }
  }

  lemma OrderCarries(ids: seq<U64>, r: seq<U64>, rest: seq<U64>, i: nat, j: nat)
    requires ids != [] && r == [ids[0]] + rest && i < j < |r|
    requires rest[j - 1] in ids[1..] && rest[j - 1] != ids[0]
    requires i > 0 ==> rest[i - 1] != ids[0] && Before(ids[1..], rest[i - 1], rest[j - 1])
    ensures Before(ids, r[i], r[j])
  {
    if i == 0 {
      FirstIsBefore(ids, rest[j - 1]);
    } else {
      BeforeInRest(ids, rest[i - 1], rest[j - 1]);
    }
  }

  function Missing(ids: seq<U64>, active: set<U64>): (r: seq<U64>)
    ensures forall id :: id in r <==> id in ids && id !in active
  {
    if ids == [] then []
    else if ids[0] in active then Missing(ids[1..], active)
    else [ids[0]] + Missing(ids[1..], active)
  }

  /** The ids listed as active, among those asked for. */
  function Active(squeueRow: Reader, listing: seq<string>, ids: seq<U64>): set<U64> {
    set id | id in ids && LastRow(squeueRow, listing, id).Some?
  }

  /** The result of a bulk query, given the two listings: exactly the input ids,
      each from its last active row, else its last accounting row, else Unknown. */
  ghost predicate Resolved(squeueRow: Reader, sacctRow: Reader, ids: seq<U64>, active: seq<string>, history: seq<string>,
      m: map<U64, JobOutcome>)
  {
    && m.Keys == (set id | id in ids)
    && forall id :: id in ids ==>
         match LastRow(squeueRow, active, id)
         case Some(outcome) => m[id] == outcome
         case None =>
           match LastRow(sacctRow, history, id)
           case Some(outcome) => m[id] == outcome
           case None => m[id] == JobOutcome(JobStatus(Unknown, NoReason), None)
  }

  /** Id by id, from the answers themselves: the last row of squeue's answer, else the
      last row of sacct's answer about the missing ids, else Unknown without a code. */
  ghost predicate EachIsResolved(answer: (nat, Argv) -> Capture, n: nat, squeueRow: Reader, sacctRow: Reader, columns: string,
      ids: seq<U64>, m: map<U64, JobOutcome>)
  {
    var squeue := ListingOf("squeue", answer(n, SqueueArgv(Dedupe(ids))));
    && squeue.Ok?
    && var sacct := ListingOf("sacct", answer(n + 1, SacctArgv(columns, Missing(Dedupe(ids), Active(squeueRow, squeue.value, ids)))));
       forall id :: id in ids ==>
         && id in m
         && match LastRow(squeueRow, squeue.value, id)
            case Some(active) => m[id] == active
            case None =>
              && sacct.Ok?
              && match LastRow(sacctRow, sacct.value, id)
                 case Some(history) => m[id] == history
                 case None => m[id] == JobOutcome(JobStatus(Unknown, NoReason), None)
  }

  lemma ResolvedMeansEach(answer: (nat, Argv) -> Capture, n: nat, squeueRow: Reader, sacctRow: Reader, columns: string,
      ids: seq<U64>, active: seq<string>, history: seq<string>, m: map<U64, JobOutcome>)
    requires ListingOf("squeue", answer(n, SqueueArgv(Dedupe(ids)))) == Ok(active)
    requires var missing := Missing(Dedupe(ids), Active(squeueRow, active, ids));
             missing == [] || ListingOf("sacct", answer(n + 1, SacctArgv(columns, missing))) == Ok(history)
    requires Resolved(squeueRow, sacctRow, ids, active, history, m)
    ensures EachIsResolved(answer, n, squeueRow, sacctRow, columns, ids, m)
  {
    var missing := Missing(Dedupe(ids), Active(squeueRow, active, ids));
    forall id | id in ids && LastRow(squeueRow, active, id).None?
      ensures missing != []
    {
      assert id in missing;
    }
  }

  /** `query_job_states_batch_with` and `query_job_states_with_exit_code_with`, which
      differ in the columns they ask sacct for and in how they read its rows. At
      most one squeue and one sacct query; sacct is asked exactly for the ids that
      squeue did not list, and only when there are any. */
  method QueryStates(d: Dispatcher, squeueRow: Reader, sacctRow: Reader, columns: string, ids: seq<U64>)
      returns (r: Result<map<U64, JobOutcome>, QueryError>)
    modifies d`calls
    ensures ids == [] ==> d.calls == old(d.calls) && r == Ok(map[])
    ensures ids != [] ==>
      var n := |old(d.calls)|;
      var argv := SqueueArgv(Dedupe(ids));
      match ListingOf("squeue", d.answer(n, argv))
      case Err(e) => d.calls == old(d.calls) + [argv] && r == Err(e)
      case Ok(active) =>
        var missing := Missing(Dedupe(ids), Active(squeueRow, active, ids));
        if missing == [] then
          d.calls == old(d.calls) + [argv] && r.Ok? && Resolved(squeueRow, sacctRow, ids, active, [], r.value)
        else
          var argv2 := SacctArgv(columns, missing);
          && d.calls == old(d.calls) + [argv, argv2]
          && match ListingOf("sacct", d.answer(n + 1, argv2))
             case Err(e) => r == Err(e)
             case Ok(history) => r.Ok? && Resolved(squeueRow, sacctRow, ids, active, history, r.value)
    ensures r.Ok? && ids != [] ==> EachIsResolved(d.answer, |old(d.calls)|, squeueRow, sacctRow, columns, ids, r.value)
  {
    if ids == [] {
      return Ok(map[]);
    }
    var unique := Dedupe(ids);
    var active := QueryListing(d, squeueRow, "squeue", SqueueArgv(unique));
    if active.Err? {
      return Err(active.error);
    }
    ghost var activeLines := ListingOf("squeue", d.answer(|old(d.calls)|, SqueueArgv(unique))).value;
    var missing := Missing(unique, active.value.Keys);
    MissingAreNotActive(squeueRow, activeLines, ids, active.value);
    if missing == [] {
      var out := Merge(ids, active.value, map[]);
      MergedIsResolved(squeueRow, sacctRow, ids, activeLines, [], active.value, map[], out);
      ResolvedMeansEach(d.answer, |old(d.calls)|, squeueRow, sacctRow, columns, ids, activeLines, [], out);
      return Ok(out);
    }
    var history := QueryListing(d, sacctRow, "sacct", SacctArgv(columns, missing));
    if history.Err? {
      return Err(history.error);
    }
    ghost var historyLines := ListingOf("sacct", d.answer(|old(d.calls)| + 1, SacctArgv(columns, missing))).value;
    var out := Merge(ids, active.value, history.value);
    MergedIsResolved(squeueRow, sacctRow, ids, activeLines, historyLines, active.value, history.value, out);
    ResolvedMeansEach(d.answer, |old(d.calls)|, squeueRow, sacctRow, columns, ids, activeLines, historyLines, out);
    r := Ok(out);
  }

  /** One query and the rows of its answer. */
  method QueryListing(d: Dispatcher, read: Reader, tool: string, argv: Argv) returns (r: Result<map<U64, JobOutcome>, QueryError>)
    modifies d`calls
    ensures d.calls == old(d.calls) + [argv]
    ensures match ListingOf(tool, d.answer(|old(d.calls)|, argv))
            case Err(e) => r == Err(e)
            case Ok(lines) => r.Ok? && Reads(read, lines, r.value)
  {
    var out := d.Ask(argv);
    match ListingOf(tool, out) {
      case Err(e) => r := Err(e);
      case Ok(lines) =>
        var listed := ReadListing(read, lines);
        r := Ok(listed);
    }
  }

  lemma MergedIsResolved(squeueRow: Reader, sacctRow: Reader, ids: seq<U64>, activeLines: seq<string>, historyLines: seq<string>,
      active: map<U64, JobOutcome>, history: map<U64, JobOutcome>, out: map<U64, JobOutcome>)
    requires Reads(squeueRow, activeLines, active) && Reads(sacctRow, historyLines, history)
    requires out.Keys == set id | id in ids
    requires forall id :: id in ids ==>
               out[id] == if id in active then active[id] else if id in history then history[id] else JobOutcome(JobStatus(Unknown, NoReason), None)
    ensures Resolved(squeueRow, sacctRow, ids, activeLines, historyLines, out)
  {
  }

  lemma MissingAreNotActive(squeueRow: Reader, listing: seq<string>, ids: seq<U64>, active: map<U64, JobOutcome>)
    requires Reads(squeueRow, listing, active)
    ensures Missing(Dedupe(ids), active.Keys) == Missing(Dedupe(ids), Active(squeueRow, listing, ids))
  {
    MissingDependsOnMembers(Dedupe(ids), active.Keys, Active(squeueRow, listing, ids));
  }

  lemma {:induction false} MissingDependsOnMembers(ids: seq<U64>, a: set<U64>, b: set<U64>)
    requires forall id :: id in ids ==> (id in a <==> id in b)
    ensures Missing(ids, a) == Missing(ids, b)
    decreases |ids|
  {
    if ids != [] {
      MissingDependsOnMembers(ids[1..], a, b);
    }
  }

  function Get(m: map<U64, JobOutcome>, id: U64): Option<JobOutcome> {
    if id in m then Some(m[id]) else None
  }

  method Merge(ids: seq<U64>, active: map<U64, JobOutcome>, history: map<U64, JobOutcome>)
      returns (out: map<U64, JobOutcome>)
    ensures out.Keys == set id | id in ids
    ensures forall id :: id in ids && id in active ==> out[id] == active[id]
    ensures forall id :: id in ids && id !in active && id in history ==> out[id] == history[id]
    ensures forall id :: id in ids && id !in active && id !in history ==> out[id] == JobOutcome(JobStatus(Unknown, NoReason), None)
  {
    out := map[];
    for i := 0 to |ids|
      invariant out.Keys == set id | id in ids[..i]
      invariant forall id :: id in ids[..i] && id in active ==> out[id] == active[id]
      invariant forall id :: id in ids[..i] && id !in active && id in history ==> out[id] == history[id]
      invariant forall id :: id in ids[..i] && id !in active && id !in history ==> out[id] == NO_OUTCOME
    {
      var id := ids[i];
      assert ids[..i + 1] == ids[..i] + [id];
      if id in active {
        out := out[id := active[id]];
      } else if id in history {
        out := out[id := history[id]];
      } else {
        out := out[id := NO_OUTCOME];
      }
    }
    assert ids[..|ids|] == ids;
  }
}
