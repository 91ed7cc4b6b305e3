/** Asking through the cache is asking directly: the lookup a handle makes in a
    cached or batched answer gives what the same lookup gives in the answer to a
    query of just its own key, at the moment the shared query was about. */
module CacheRefinement {
  import opened Wrappers
  import opened Text
  import opened JobKeys
  import opened Dispatch
  import opened QueryShapes
  import opened JobStatuses
  import opened Listings
  import opened Runner
  import opened Rows
  import opened CacheProtocol
  import opened CacheGuarantees

  // ---------------------------------------------------------------- the controller

  /** One row a status command may print: the job or array task it is about, the
      step suffix (empty for the row of the job itself), and its text. */
  datatype WorldRow = WorldRow(owner: JobKey, step: string, line: string)

  /** The controller over time: the rows it has, and whether it fails. */
  datatype World = World(rows: Time -> seq<WorldRow>, down: Time -> bool)

  /** The first column of a row is the key of its owner and, for a step, a suffix
      that begins with a dot. `qgroup` rows are not keyed. */
  predicate ValidRow(shape: Shape, r: WorldRow) {
    && PlainLine(r.line)
    && match shape
       case Squeue => r.step == "" && Words(r.line) != [] && Words(r.line)[0] == PrintKey(r.owner)
       case Sacct => (r.step != "" ==> r.step[0] == '.') && SplitN(r.line, '|', 4)[0] == PrintKey(r.owner) + r.step
       case Qgroup => true
  }

  ghost predicate ValidWorld(shape: Shape, w: World) {
    forall t: Time, r: WorldRow :: r in w.rows(t) ==> ValidRow(shape, r)
  }

  /** A query for a key covers the rows of that job or task; a master jobid covers
      the rows of its tasks; `qgroup -l` covers everything. */
  predicate Covers(shape: Shape, keys: set<JobKey>, owner: JobKey) {
    || shape.Qgroup?
    || owner in keys
    || (owner.ArrayTask? && Plain(owner.master) in keys)
  }

  function Covered(shape: Shape, keys: set<JobKey>, rows: seq<WorldRow>): seq<WorldRow> {
    if rows == [] then []
    else
      var n := |rows| - 1;
      Covered(shape, keys, rows[..n]) + (if Covers(shape, keys, rows[n].owner) then [rows[n]] else [])
  }

  function LinesOf(rows: seq<WorldRow>): (lines: seq<string>)
    ensures |lines| == |rows|
    ensures forall i :: 0 <= i < |rows| ==> lines[i] == rows[i].line
  {
    Map((r: WorldRow) => r.line, rows)
  }

  /** What the controller may answer at time `t` to a query for `keys`: a failure
      that depends on the time alone; or exactly the covered rows; or, for squeue
      and one key without rows, the vanish exit. */
  predicate MayAnswer(w: World, shape: Shape, t: Time, keys: set<JobKey>, out: Capture) {
    var rows := Covered(shape, keys, w.rows(t));
    if w.down(t) then
      out.Failed? || (out.exitCode != 0 && !ReportsVanished(out))
    else
      && out.Ran?
      && (|| (out.exitCode == 0 && out.stdout == Unlines(LinesOf(rows)))
          || (shape.Squeue? && (exists k :: k in keys && keys == {k}) && rows == [] && ReportsVanished(out)))
  }

  /** The wrapped dispatcher in front of that controller. */
  function CacheEnv(w: World, shape: Shape, ttl: nat): Env {
    Env(shape, ttl, (t: Time, argv: Argv, out: Capture) =>
      Parse(shape, argv).Some? ==> MayAnswer(w, shape, t, Elements(Parse(shape, argv).value), out))
  }

  // ---------------------------------------------------------------- the lookups of the handles

  datatype Lookup = ByJobId(id: U64) | ByTask(master: U64, index: U32)

  /** The keys the query behind a lookup names. Accounting is asked for a task by
      the master jobid. */
  function QueryKeys(shape: Shape, l: Lookup): set<JobKey> {
    match shape
    case Qgroup => {}
    case Squeue => if l.ByJobId? then {Plain(l.id)} else {ArrayTask(l.master, l.index)}
    case Sacct => if l.ByJobId? then {Plain(l.id)} else {Plain(l.master)}
  }

  function LookupKey(l: Lookup): JobKey {
    if l.ByJobId? then Plain(l.id) else ArrayTask(l.master, l.index)
  }

  /** There is no per-task lookup in `qgroup -l`. */
  predicate Supported(shape: Shape, l: Lookup) {
    shape.Qgroup? ==> l.ByJobId?
  }

  function ReaderOf(shape: Shape, states: StateTable): Reader {
    match shape
    case Squeue => SqueueReader(states)
    case Sacct => SacctExitReader(states)
    case Qgroup => QgroupReader(states)
  }

  function TaskReaderOf(shape: Shape, states: StateTable, key: string): TaskReader {
    if shape.Squeue? then SqueueTaskReader(states, key) else SacctTaskReader(states, key)
  }

  function Find(shape: Shape, states: StateTable, l: Lookup, lines: seq<string>): Option<JobOutcome> {
    if l.ByJobId? then LastRow(ReaderOf(shape, states), lines, l.id)
    else FirstRow(TaskReaderOf(shape, states, PrintKey(LookupKey(l))), lines)
  }

  datatype View = Failure | NoRow | Found(outcome: JobOutcome)

  function Tool(shape: Shape): string {
    match shape
    case Squeue => "squeue"
    case Sacct => "sacct"
    case Qgroup => "qgroup"
  }

  /** What a handle makes of an answer. */
  function ViewOf(shape: Shape, states: StateTable, l: Lookup, out: Capture): View {
    match ListingOf(Tool(shape), out)
    case Err(_) => Failure
    case Ok(lines) =>
      match Find(shape, states, l, lines)
      case None => NoRow
      case Some(outcome) => Found(outcome)
  }

  // ---------------------------------------------------------------- only the rows of the key matter

  lemma DigitsHaveNoDot(n: nat)
    ensures '.' !in Dec(n) && '_' !in Dec(n)
  {
  }

  /** The text of a task key, with or without a suffix, is no number. */
  lemma TaskTextIsNoNumber(text: string, max: nat)
    requires '_' in text
    ensures ParseUnsigned(text, max).None?
  {
    var digits := if text != "" && text[0] == '+' then text[1..] else text;
    assert '_' in digits;
  }

  lemma StepHasDot(key: string, step: string)
    requires step != "" ==> step[0] == '.'
    ensures if step == "" then key + step == key else '.' in key + step
  {
    if step != "" {
      assert (key + step)[|key|] == '.';
    } else {
      assert key + step == key;
    }
  }

  /** A row that is read as the row of a job belongs to that job. */
  lemma ReadRowIsOwn(shape: Shape, states: StateTable, r: WorldRow, id: U64)
    requires !shape.Qgroup? && ValidRow(shape, r)
    requires IsRowOf(ReaderOf(shape, states), r.line, id)
    ensures r.owner == Plain(id)
  {
    var text := if shape.Squeue? then Words(r.line)[0] else SplitN(r.line, '|', 4)[0];
    assert text == PrintKey(r.owner) + r.step;
    StepHasDot(PrintKey(r.owner), r.step);
    if r.owner.ArrayTask? {
      assert text[|Dec(r.owner.master)|] == '_';
      TaskTextIsNoNumber(text, U64_MAX);
    } else {
      ParseOfDec(r.owner.id, U64_MAX);
    }
  }

  lemma NoDotInKey(key: JobKey)
    ensures '.' !in PrintKey(key)
  {
    if key.Plain? {
      DigitsHaveNoDot(key.id);
    } else {
      DigitsHaveNoDot(key.master);
      DigitsHaveNoDot(key.index);
    }
  }

  lemma TaskRowIsOwn(shape: Shape, states: StateTable, r: WorldRow, key: JobKey)
    requires !shape.Qgroup? && ValidRow(shape, r)
    requires TaskReaderOf(shape, states, PrintKey(key))(r.line).Some?
    ensures r.owner == key
  {
    var text := PrintKey(key);
    assert text == PrintKey(r.owner) + r.step;
    NoDotInKey(key);
    StepHasDot(PrintKey(r.owner), r.step);
    PrintKeyIsInjective(r.owner, key);
  }

  /** Listings of the same rows for two key sets, both covering every row that is
      read as a row of the id, are read alike. */
  lemma {:induction false} SameLastRow(shape: Shape, read: Reader, rows: seq<WorldRow>, a: set<JobKey>, b: set<JobKey>, id: U64)
    requires forall r :: r in rows && IsRowOf(read, r.line, id) ==> Covers(shape, a, r.owner) && Covers(shape, b, r.owner)
    ensures LastRow(read, LinesOf(Covered(shape, a, rows)), id) == LastRow(read, LinesOf(Covered(shape, b, rows)), id)
    decreases |rows|
  {
    if rows != [] {
      SameLastRow(shape, read, rows[..|rows| - 1], a, b, id);
      LastRowOfCovered(shape, read, rows, a, id);
      LastRowOfCovered(shape, read, rows, b, id);
    }
  }

  lemma LastRowOfCovered(shape: Shape, read: Reader, rows: seq<WorldRow>, keys: set<JobKey>, id: U64)
    requires rows != []
    requires IsRowOf(read, rows[|rows| - 1].line, id) ==> Covers(shape, keys, rows[|rows| - 1].owner)
    ensures var n := |rows| - 1;
            LastRow(read, LinesOf(Covered(shape, keys, rows)), id) ==
            if IsRowOf(read, rows[n].line, id) then Some(read(rows[n].line).value.outcome)
            else LastRow(read, LinesOf(Covered(shape, keys, rows[..n])), id)
  {
    var r := rows[|rows| - 1];
    var rest := Covered(shape, keys, rows[..|rows| - 1]);
    if Covers(shape, keys, r.owner) {
      assert LinesOf(rest + [r]) == LinesOf(rest) + [r.line];
      LastRowOfAppend(read, LinesOf(rest), r.line, id);
    } else {
      assert Covered(shape, keys, rows) == rest;
    }
  }

  lemma {:induction false} SameFirstRow(shape: Shape, read: TaskReader, rows: seq<WorldRow>, a: set<JobKey>, b: set<JobKey>)
    requires forall r :: r in rows && read(r.line).Some? ==> Covers(shape, a, r.owner) && Covers(shape, b, r.owner)
    ensures FirstRow(read, LinesOf(Covered(shape, a, rows))) == FirstRow(read, LinesOf(Covered(shape, b, rows)))
    decreases |rows|
  {
    if rows != [] {
      SameFirstRow(shape, read, rows[..|rows| - 1], a, b);
      FirstRowOfCovered(shape, read, rows, a);
      FirstRowOfCovered(shape, read, rows, b);
    }
  }

  lemma FirstRowOfCovered(shape: Shape, read: TaskReader, rows: seq<WorldRow>, keys: set<JobKey>)
    requires rows != []
    requires read(rows[|rows| - 1].line).Some? ==> Covers(shape, keys, rows[|rows| - 1].owner)
    ensures var n := |rows| - 1;
            var rest := FirstRow(read, LinesOf(Covered(shape, keys, rows[..n])));
            FirstRow(read, LinesOf(Covered(shape, keys, rows))) ==
            if rest.Some? then rest else read(rows[n].line)
  {
    var r := rows[|rows| - 1];
    var rest := Covered(shape, keys, rows[..|rows| - 1]);
    if Covers(shape, keys, r.owner) {
      assert LinesOf(rest + [r]) == LinesOf(rest) + [r.line];
      FirstRowOfAppend(read, LinesOf(rest), r.line);
    } else {
      assert Covered(shape, keys, rows) == rest;
    }
  }

  lemma {:induction false} FirstRowOfAppend(read: TaskReader, lines: seq<string>, line: string)
    ensures FirstRow(read, lines + [line]) ==
            if FirstRow(read, lines).Some? then FirstRow(read, lines) else read(line)
    decreases |lines|
  {
    if lines != [] {
      assert (lines + [line])[1..] == lines[1..] + [line];
      FirstRowOfAppend(read, lines[1..], line);
    }
  }

  lemma {:induction false} QgroupCoversAll(keys: set<JobKey>, rows: seq<WorldRow>)
    ensures Covered(Qgroup, keys, rows) == rows
  {
    if rows != [] {
      QgroupCoversAll(keys, rows[..|rows| - 1]);
      assert rows == rows[..|rows| - 1] + [rows[|rows| - 1]];
    }
  }

  lemma SameFind(shape: Shape, states: StateTable, rows: seq<WorldRow>, a: set<JobKey>, b: set<JobKey>, l: Lookup)
    requires Supported(shape, l)
    requires forall r :: r in rows ==> ValidRow(shape, r)
    requires QueryKeys(shape, l) <= a && QueryKeys(shape, l) <= b
    ensures Find(shape, states, l, LinesOf(Covered(shape, a, rows))) ==
            Find(shape, states, l, LinesOf(Covered(shape, b, rows)))
  {
    if shape.Qgroup? {
      QgroupCoversAll(a, rows);
      QgroupCoversAll(b, rows);
    } else if l.ByJobId? {
      forall r | r in rows && IsRowOf(ReaderOf(shape, states), r.line, l.id)
        ensures r.owner == Plain(l.id)
      {
        ReadRowIsOwn(shape, states, r, l.id);
      }
      SameLastRow(shape, ReaderOf(shape, states), rows, a, b, l.id);
    } else {
      var key := LookupKey(l);
      forall r | r in rows && TaskReaderOf(shape, states, PrintKey(key))(r.line).Some?
        ensures r.owner == key
      {
        TaskRowIsOwn(shape, states, r, key);
      }
      SameFirstRow(shape, TaskReaderOf(shape, states, PrintKey(key)), rows, a, b);
    }
  }

  /** An answer that is not a failure shows the lookup the covered rows; the vanish
      exit shows none, and there is none. */
  lemma AnswerShowsCoveredRows(w: World, shape: Shape, states: StateTable, t: Time, keys: set<JobKey>, l: Lookup, out: Capture)
    requires ValidWorld(shape, w) && !w.down(t)
    requires MayAnswer(w, shape, t, keys, out)
    ensures ListingOf(Tool(shape), out) == Ok(LinesOf(Covered(shape, keys, w.rows(t))))
  {
    var rows := Covered(shape, keys, w.rows(t));
    if out.exitCode == 0 {
      CoveredAreRows(shape, keys, w.rows(t));
      forall i | 0 <= i < |rows|
        ensures PlainLine(LinesOf(rows)[i])
      {
        assert rows[i] in w.rows(t);
        assert ValidRow(shape, rows[i]);
      }
      LinesOfUnlines(LinesOf(rows));
    } else {
      assert LinesOf(rows) == [];
    }
  }

  lemma CoveredAreRows(shape: Shape, keys: set<JobKey>, rows: seq<WorldRow>)
    ensures forall r :: r in Covered(shape, keys, rows) ==> r in rows
  {
  }

  /** A batched answer and a direct answer, about the same moment, look the same to
      the lookup. */
  lemma BatchedLooksDirect(w: World, shape: Shape, states: StateTable, t: Time, batch: set<JobKey>, l: Lookup,
      batched: Capture, direct: Capture)
    requires ValidWorld(shape, w) && Supported(shape, l)
    requires QueryKeys(shape, l) <= batch
    requires MayAnswer(w, shape, t, batch, batched)
    requires MayAnswer(w, shape, t, QueryKeys(shape, l), direct)
    ensures ViewOf(shape, states, l, batched) == ViewOf(shape, states, l, direct)
  {
    if !w.down(t) {
      AnswerShowsCoveredRows(w, shape, states, t, batch, l, batched);
      AnswerShowsCoveredRows(w, shape, states, t, QueryKeys(shape, l), l, direct);
      SameFind(shape, states, w.rows(t), batch, QueryKeys(shape, l), l);
    }
  }

  // ---------------------------------------------------------------- the theorem

  /** The plainest direct answer, to show that there is one. */
  function DirectAnswer(w: World, shape: Shape, t: Time, keys: set<JobKey>): (out: Capture)
    ensures MayAnswer(w, shape, t, keys, out)
  {
    if w.down(t) then Capture.Failed("") else Ran(0, Unlines(LinesOf(Covered(shape, keys, w.rows(t)))), "")
  }

  /** The controller answers every query, so that pending requests make progress. */
  lemma ControllerAnswersEverything(w: World, shape: Shape, ttl: nat)
    ensures AnswersEverything(CacheEnv(w, shape, ttl))
  {
    var env := CacheEnv(w, shape, ttl);
    forall now: Time, argv: Argv
      ensures CanAnswer(env, now, argv)
    {
      var keys := if Parse(shape, argv).Some? then Elements(Parse(shape, argv).value) else {};
      assert env.inner(now, argv, DirectAnswer(w, shape, now, keys));
    }
  }

  lemma ReplayLooksTheSame(shape: Shape, states: StateTable, l: Lookup, out: Capture)
    ensures ViewOf(shape, states, l, Replay(shape, out)) == ViewOf(shape, states, l, out)
  {
  }

  /** In every run of the cache, what a lookup of a requested key makes of the answer
      is what it makes of any direct answer about the moment of one query: the
      caller's own, or one completed less than ttl before. */
  lemma {:induction false} CachedAnswerIsDirect(w: World, shape: Shape, ttl: nat, states: StateTable, s: State, t: TaskId, l: Lookup) returns (f: Fetch)
    requires ValidWorld(shape, w) && Supported(shape, l)
    requires Reachable(CacheEnv(w, shape, ttl), s)
    requires t in s.tasks && s.tasks[t].Answered?
    requires QueryKeys(shape, l) <= Elements(s.tasks[t].keys)
    ensures f in s.fetches && f.asOf <= f.at
    ensures f.task == t || f.at <= s.tasks[t].at < f.at + ttl
    ensures forall direct :: MayAnswer(w, shape, f.asOf, QueryKeys(shape, l), direct) ==>
              ViewOf(shape, states, l, s.tasks[t].answer) == ViewOf(shape, states, l, direct)
    ensures ViewOf(shape, states, l, s.tasks[t].answer) ==
            ViewOf(shape, states, l, DirectAnswer(w, shape, f.asOf, QueryKeys(shape, l)))
  {
    var env := CacheEnv(w, shape, ttl);
    ReachableSatisfiesInv(env, s);
    assert PhaseInv(env, s, t);
    var i := s.tasks[t].source;
    assert FetchInv(env, s, i);
    f := s.fetches[i];
    var batch := f.query.batch;
    if !shape.Qgroup? {
      var k :| k in QueryKeys(shape, l);
      assert k in Elements(batch);
      ParseOfBuild(shape, batch);
    }
    var asked := Elements(Parse(shape, Build(shape, batch)).value);
    assert MayAnswer(w, shape, f.asOf, asked, f.result);
    ReplayLooksTheSame(shape, states, l, f.result);
    forall direct | MayAnswer(w, shape, f.asOf, QueryKeys(shape, l), direct)
      ensures ViewOf(shape, states, l, s.tasks[t].answer) == ViewOf(shape, states, l, direct)
    {
      BatchedLooksDirect(w, shape, states, f.asOf, asked, l, f.result, direct);
    }
  }
}
