/** Listings read by numeric job id. How a line is read is a parameter: what is
    said here holds for every listing format. */
module Listings {
  import opened Wrappers
  import opened Text
  import opened JobStatuses

  datatype Row = Row(id: U64, outcome: JobOutcome)

  /** A line as a row, or nothing when the line is not the row of a job. */
  type Reader = string -> Option<Row>

  predicate IsRowOf(read: Reader, line: string, id: U64) {
    read(line).Some? && read(line).value.id == id
  }

  /** What a listing says about one id: its last row. */
  function LastRow(read: Reader, lines: seq<string>, id: U64): (r: Option<JobOutcome>)
    ensures r.None? <==> forall line :: line in lines ==> !IsRowOf(read, line, id)
  {
    if lines == [] then None
    else
      var n := |lines| - 1;
      assert lines == lines[..n] + [lines[n]];
      if IsRowOf(read, lines[n], id) then Some(read(lines[n]).value.outcome)
      else LastRow(read, lines[..n], id)
  }

  /** A map holds exactly what a listing says. */
  ghost predicate Reads(read: Reader, lines: seq<string>, m: map<U64, JobOutcome>) {
    forall id: U64 :: LastRow(read, lines, id) == if id in m then Some(m[id]) else None
  }

  /** Reads a whole listing into a map, one line after the other. */
  method ReadListing(read: Reader, lines: seq<string>) returns (out: map<U64, JobOutcome>)
    ensures Reads(read, lines, out)
  {
    out := map[];
    for i := 0 to |lines|
      invariant Reads(read, lines[..i], out)
    {
      var row := read(lines[i]);
      ghost var before := out;
      if row.Some? {
        out := out[row.value.id := row.value.outcome];
      }
      assert lines[..i + 1][..i] == lines[..i];
      forall id: U64
        ensures LastRow(read, lines[..i + 1], id) == if id in out then Some(out[id]) else None
      {
        assert LastRow(read, lines[..i], id) == if id in before then Some(before[id]) else None;
      }
    }
    assert lines[..|lines|] == lines;
  }

  lemma LastRowOfAppend(read: Reader, lines: seq<string>, line: string, id: U64)
    ensures LastRow(read, lines + [line], id) ==
            if IsRowOf(read, line, id) then Some(read(line).value.outcome) else LastRow(read, lines, id)
  {
    assert (lines + [line])[..|lines|] == lines;
  }

  /** Rows of other jobs, steps and anything unreadable can stand anywhere in a
      listing without changing what it says about an id. */
  lemma {:induction false} OtherRowsDoNotInterfere(read: Reader, before: seq<string>, extra: seq<string>, after: seq<string>, id: U64)
    requires forall line :: line in extra ==> !IsRowOf(read, line, id)
    ensures LastRow(read, before + extra + after, id) == LastRow(read, before + after, id)
    decreases |extra| + |after|
  {
    if after != [] {
      var n := |after| - 1;
      var rest, last := after[..n], after[n];
      assert before + extra + after == (before + extra + rest) + [last];
      assert before + after == (before + rest) + [last];
      LastRowOfAppend(read, before + extra + rest, last, id);
      LastRowOfAppend(read, before + rest, last, id);
      OtherRowsDoNotInterfere(read, before, extra, rest, id);
    } else if extra != [] {
      var n := |extra| - 1;
      var rest, last := extra[..n], extra[n];
      assert before + extra + after == (before + rest) + [last];
      LastRowOfAppend(read, before + rest, last, id);
      assert before + rest == before + rest + after;
      OtherRowsDoNotInterfere(read, before, rest, after, id);
    } else {
      assert before + extra + after == before + after;
    }
  }

  /** A line as the row of one array task. */
  type TaskReader = string -> Option<JobOutcome>

  /** For an array task the first row decides. */
  function FirstRow(read: TaskReader, lines: seq<string>): Option<JobOutcome> {
    if lines == [] then None
    else if read(lines[0]).Some? then read(lines[0])
    else FirstRow(read, lines[1..])
  }

  /** `parse_squeue_array_task` and `parse_sacct_array_task_with_exit_code`. */
  method FindTask(read: TaskReader, lines: seq<string>) returns (r: Option<JobOutcome>)
    ensures r == FirstRow(read, lines)
    ensures r.None? <==> forall line :: line in lines ==> read(line).None?
  {
    for i := 0 to |lines|
      invariant FirstRow(read, lines) == FirstRow(read, lines[i..])
      invariant forall line :: line in lines[..i] ==> read(line).None?
    {
      assert lines[i..][1..] == lines[i + 1..];
      if read(lines[i]).Some? {
        return read(lines[i]);
      }
    }
    r := None;
  }

  lemma {:induction false} OtherTasksDoNotInterfere(read: TaskReader, before: seq<string>, extra: seq<string>, after: seq<string>)
    requires forall line :: line in extra ==> read(line).None?
    ensures FirstRow(read, before + extra + after) == FirstRow(read, before + after)
    decreases |before| + |extra|
  {
    var all := before + extra + after;
    if before != [] {
      assert all[1..] == before[1..] + extra + after;
      assert (before + after)[1..] == before[1..] + after;
      OtherTasksDoNotInterfere(read, before[1..], extra, after);
    } else if extra != [] {
      assert all[1..] == before + extra[1..] + after;
      OtherTasksDoNotInterfere(read, before, extra[1..], after);
    } else {
      assert all == before + after;
    }
  }
}
