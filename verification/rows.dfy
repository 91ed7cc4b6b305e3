/** The rows of the four listings: `squeue -o "%i %T %r"`, `sacct -P` with three or
    four columns, and `qgroup -l`. */
module Rows {
  import opened Wrappers
  import opened Text
  import opened JobStatuses
  import opened Listings
  import opened Runner

  function Nth(parts: seq<string>, i: nat): string {
    if i < |parts| then parts[i] else ""
  }

  function SqueueRow(states: StateTable, line: string): Option<Row> {
    var words := Words(line);
    if |words| < 2 then None
    else
      match ParseU64(words[0])
      case None => None
      case Some(id) => Some(Row(id, JobOutcome(JobStatus(states(words[1]), ParseReason(Nth(words, 2))), None)))
  }

  /** Step rows (`<id>.batch`, `<id>.0`) are not rows of the job. */
  function SacctRow(states: StateTable, columns: nat, line: string): Option<Row>
    requires columns >= 3
  {
    var fields := SplitN(line, '|', columns);
    if |fields| < 2 || '.' in fields[0] then None
    else
      match ParseU64(fields[0])
      case None => None
      case Some(id) =>
        Some(Row(id, JobOutcome(JobStatus(states(fields[1]), ParseReason(Nth(fields, 2))),
                                if |fields| > 3 then ParseExitCode(fields[3]) else None)))
  }

  function WithoutBars(words: seq<string>): seq<string> {
    if words == [] then []
    else if words[0] == "|" then WithoutBars(words[1..])
    else [words[0]] + WithoutBars(words[1..])
  }

  /** A zero in the job id column is a count in a summary row. */
  function QgroupRow(states: StateTable, line: string): Option<Row> {
    var words := WithoutBars(Words(line));
    if |words| < 4 then None
    else
      match ParseU64(words[2])
      case None => None
      case Some(id) => if id == 0 then None else Some(Row(id, JobOutcome(JobStatus(states(words[3]), NoReason), None)))
  }

  function SqueueTaskRow(states: StateTable, key: string, line: string): Option<JobOutcome> {
    var words := Words(line);
    if |words| < 2 || words[0] != key then None
    else Some(JobOutcome(JobStatus(states(words[1]), ParseReason(Nth(words, 2))), None))
  }

  function SacctTaskRow(states: StateTable, key: string, line: string): Option<JobOutcome> {
    var fields := SplitN(line, '|', 4);
    if fields[0] != key || |fields| < 2 then None
    else
      Some(JobOutcome(JobStatus(states(fields[1]), ParseReason(Nth(fields, 2))),
                      if |fields| > 3 then ParseExitCode(fields[3]) else None))
  }

  function SqueueReader(states: StateTable): Reader {
    line => SqueueRow(states, line)
  }

  function SacctReader(states: StateTable): Reader {
    line => SacctRow(states, 3, line)
  }

  function SacctExitReader(states: StateTable): Reader {
    line => SacctRow(states, 4, line)
  }

  function QgroupReader(states: StateTable): Reader {
    line => QgroupRow(states, line)
  }

  function SqueueTaskReader(states: StateTable, key: string): TaskReader {
    line => SqueueTaskRow(states, key, line)
  }

  function SacctTaskReader(states: StateTable, key: string): TaskReader {
    line => SacctTaskRow(states, key, line)
  }

  // ---------------------------------------------------------------- the same records in both sacct forms

  /** One accounting record: its columns, and how the two queries print them. */
  datatype Record = Record(id: string, state: string, reason: string, exit: string)
  {
    predicate Valid() {
      '|' !in id && '|' !in state && '|' !in reason
    }

    function Line(withExit: bool): string {
      id + ['|'] + (state + ['|'] + (if withExit then reason + ['|'] + exit else reason))
    }
  }

  function RecordLines(records: seq<Record>, withExit: bool): seq<string> {
    if records == [] then []
    else
      var n := |records| - 1;
      RecordLines(records[..n], withExit) + [records[n].Line(withExit)]
  }

  lemma {:induction false} RecordFields(r: Record)
    requires r.Valid()
    ensures SplitN(r.Line(false), '|', 3) == [r.id, r.state, r.reason]
    ensures SplitN(r.Line(true), '|', 4) == [r.id, r.state, r.reason, r.exit]
  {
    ThreeFields(r.id, r.state, r.reason);
    FourFields(r.id, r.state, r.reason, r.exit);
  }

  lemma FourFields(a: string, b: string, c: string, d: string)
    requires '|' !in a && '|' !in b && '|' !in c
    ensures SplitN(a + ['|'] + (b + ['|'] + (c + ['|'] + d)), '|', 4) == [a, b, c, d]
  {
    var cd := c + ['|'] + d;
    SplitNAt(a, b + ['|'] + cd, '|', 4);
    SplitNAt(b, cd, '|', 3);
    SplitNAt(c, d, '|', 2);
    assert SplitN(d, '|', 1) == [d];
  }

  lemma ThreeFields(a: string, b: string, c: string)
    requires '|' !in a && '|' !in b
    ensures SplitN(a + ['|'] + (b + ['|'] + c), '|', 3) == [a, b, c]
  {
    SplitNAt(a, b + ['|'] + c, '|', 3);
    SplitNAt(b, c, '|', 2);
  }

  /** The columns of an accounting record are the state, the reason and the exit code, and
      its id names the job. A record of a step, or of an array task, names no job. */
  lemma RecordIsRead(states: StateTable, r: Record, id: U64)
    requires r.Valid()
    ensures r.id == Dec(id) ==>
              && SacctExitReader(states)(r.Line(true)) == Some(Row(id, JobOutcome(JobStatus(states(r.state), ParseReason(r.reason)), ParseExitCode(r.exit))))
              && SacctReader(states)(r.Line(false)) == Some(Row(id, JobOutcome(JobStatus(states(r.state), ParseReason(r.reason)), None)))
    ensures '.' in r.id ==> SacctExitReader(states)(r.Line(true)) == None && SacctReader(states)(r.Line(false)) == None
    ensures '_' in r.id ==> SacctExitReader(states)(r.Line(true)) == None && SacctReader(states)(r.Line(false)) == None
  {
    RecordFields(r);
    ParseOfDec(id, U64_MAX);
    NotInDec(id, '.');
    NoNumberHolds(r.id, '_', U64_MAX);
  }

  lemma NoNumberHolds(s: string, c: char, max: nat)
    requires !IsDigit(c) && c != '+'
    ensures c in s ==> ParseUnsigned(s, max) == None
  {
    if c in s {
      var i :| 0 <= i < |s| && s[i] == c;
      if s[0] == '+' {
        assert s[1..][i - 1] == c;
      }
    }
  }

  /** The row of an array task is the record with its key, read the same way. */
  lemma TaskRecordIsRead(states: StateTable, r: Record, key: string)
    requires r.Valid()
    ensures SacctTaskReader(states, key)(r.Line(true)) ==
            if r.id == key then Some(JobOutcome(JobStatus(states(r.state), ParseReason(r.reason)), ParseExitCode(r.exit))) else None
  {
    RecordFields(r);
  }

  predicate IsWord(s: string) {
    s != "" && forall i :: 0 <= i < |s| ==> !IsSpace(s[i])
  }

  lemma {:induction false} TakeWordStops(w: string, rest: string)
    requires forall i :: 0 <= i < |w| ==> !IsSpace(w[i])
    requires rest == "" || IsSpace(rest[0])
    ensures TakeWord(w + rest) == w
    decreases |w|
  {
    var s := w + rest;
    if w == "" {
      assert s == rest;
    } else {
      assert s[1..] == w[1..] + rest;
      TakeWordStops(w[1..], rest);
      assert [w[0]] + w[1..] == w;
    }
  }

  lemma OneWordMore(w: string, rest: string)
    requires IsWord(w) && (rest == "" || IsSpace(rest[0]))
    ensures Words(w + rest) == [w] + Words(rest)
  {
    TakeWordStops(w, rest);
    assert DropWhileSpace(w + rest) == w + rest;
    assert (w + rest)[|w|..] == rest;
  }

  lemma SpaceIsSkipped(s: string)
    ensures Words([' '] + s) == Words(s)
  {
    assert ([' '] + s)[1..] == s;
    assert DropWhileSpace([' '] + s) == DropWhileSpace(s);
  }

  /** A row of squeue as its format prints it: id, state and reason. */
  function SqueueLine(id: string, state: string, reason: string): string {
    id + ([' '] + (state + ([' '] + reason)))
  }

  lemma ThreeWords(a: string, b: string, c: string)
    requires IsWord(a) && IsWord(b) && IsWord(c)
    ensures Words(SqueueLine(a, b, c)) == [a, b, c]
  {
    OneWordMore(a, [' '] + (b + ([' '] + c)));
    SpaceIsSkipped(b + ([' '] + c));
    OneWordMore(b, [' '] + c);
    SpaceIsSkipped(c);
    OneWordMore(c, "");
    assert c + "" == c;
    assert Words("") == [];
  }

  /** The words of a squeue row are the id, the state and the reason; an array task's row
      is no row of a job, and found by its key. */
  lemma SqueueLineIsRead(states: StateTable, id: U64, key: string, state: string, reason: string)
    requires IsWord(key) && IsWord(state) && IsWord(reason)
    ensures SqueueReader(states)(SqueueLine(Dec(id), state, reason)) == Some(Row(id, JobOutcome(JobStatus(states(state), ParseReason(reason)), None)))
    ensures '_' in key ==> SqueueReader(states)(SqueueLine(key, state, reason)) == None
    ensures SqueueTaskReader(states, key)(SqueueLine(key, state, reason)) == Some(JobOutcome(JobStatus(states(state), ParseReason(reason)), None))
  {
    ParseOfDec(id, U64_MAX);
    ThreeWords(Dec(id), state, reason);
    ThreeWords(key, state, reason);
    NoNumberHolds(key, '_', U64_MAX);
  }

  /** A qgroup row names the job in its third column and the state in its fourth, column
      dividers aside; a zero there is a count of a summary row. */
  lemma QgroupLineIsRead(states: StateTable, line: string, queue: string, user: string, id: U64, state: string, rest: seq<string>)
    requires WithoutBars(Words(line)) == [queue, user, Dec(id), state] + rest
    ensures QgroupReader(states)(line) == if id == 0 then None else Some(Row(id, JobOutcome(JobStatus(states(state), NoReason), None)))
  {
    ParseOfDec(id, U64_MAX);
  }

  function StatusOf(r: Option<JobOutcome>): Option<JobStatus> {
    if r.Some? then Some(r.value.status) else None
  }

  /** The two sacct queries read the same statuses from the same records. */
  lemma {:induction false} SameStatusesInBothForms(states: StateTable, records: seq<Record>, id: U64)
    requires forall r :: r in records ==> r.Valid()
    ensures StatusOf(LastRow(SacctReader(states), RecordLines(records, false), id)) ==
            StatusOf(LastRow(SacctExitReader(states), RecordLines(records, true), id))
    decreases |records|
  {
    if records != [] {
      var n := |records| - 1;
      var r := records[n];
      SameStatusesInBothForms(states, records[..n], id);
      RecordFields(r);
      LastRowOfAppend(SacctReader(states), RecordLines(records[..n], false), r.Line(false), id);
      LastRowOfAppend(SacctExitReader(states), RecordLines(records[..n], true), r.Line(true), id);
    }
  }

  /** So the bulk query with exit codes resolves every id to the status that the one
      without resolves it to. */
  lemma ExitCodesDoNotChangeStatuses(states: StateTable, ids: seq<U64>, active: seq<string>, records: seq<Record>,
      plain: map<U64, JobOutcome>, withExit: map<U64, JobOutcome>)
    requires forall r :: r in records ==> r.Valid()
    requires Resolved(SqueueReader(states), SacctReader(states), ids, active, RecordLines(records, false), plain)
    requires Resolved(SqueueReader(states), SacctExitReader(states), ids, active, RecordLines(records, true), withExit)
    ensures plain.Keys == withExit.Keys
    ensures forall id :: id in plain ==> plain[id].status == withExit[id].status
  {
    forall id | id in plain
      ensures plain[id].status == withExit[id].status
    {
      SameStatusesInBothForms(states, records, id);
    }
  }
}
