/** The three argument vectors whose answers are cached. */
module QueryShapes {
  import opened Wrappers
  import opened JobKeys
  import opened Dispatch

  datatype Shape = Squeue | Sacct | Qgroup

  /** The requested keys when the argument vector is exactly the batchable query
      of the shape. `qgroup -l` is a global listing and asks for no keys. */
  function Parse(shape: Shape, argv: Argv): Option<seq<JobKey>> {
    match shape
    case Squeue =>
      if |argv| == 7 && argv[..4] == ["squeue", "-h", "-r", "-j"] && argv[5..] == ["-o", "%i %T %r"]
      then ParseCsv(argv[4])
      else None
    case Sacct =>
      if |argv| == 7 && argv[..4] == ["sacct", "-P", "-n", "-j"] && argv[5..] == ["-o", "JobID,State,Reason,ExitCode"]
      then ParseCsv(argv[4])
      else None
    case Qgroup =>
      if argv == ["qgroup", "-l"] then Some([]) else None
  }

  function Build(shape: Shape, batch: seq<JobKey>): Argv {
    match shape
    case Squeue => ["squeue", "-h", "-r", "-j", Csv(batch), "-o", "%i %T %r"]
    case Sacct => ["sacct", "-P", "-n", "-j", Csv(batch), "-o", "JobID,State,Reason,ExitCode"]
    case Qgroup => ["qgroup", "-l"]
  }

  function Marker(shape: Shape): string {
    match shape
    case Squeue => "(replayed from squeue batch cache)"
    case Sacct => "(replayed from sacct batch cache)"
    case Qgroup => "(replayed from qgroup cache)"
  }

  /** A cached answer as a later caller gets it: output as it was, a spawn failure
      with the marker that says it is a replay. */
  function Replay(shape: Shape, result: Capture): Capture {
    match result
    case Ran(_, _, _) => result
    case Failed(message) => Failed(message + " " + Marker(shape))
  }

  lemma ParseOfBuild(shape: Shape, batch: seq<JobKey>)
    requires shape.Qgroup? || batch != []
    ensures Parse(shape, Build(shape, batch)) == Some(if shape.Qgroup? then [] else batch)
  {
    var argv := Build(shape, batch);
    if !shape.Qgroup? {
      CsvRoundTrip(batch);
      assert argv[..4] == [argv[0], argv[1], argv[2], argv[3]];
      assert argv[5..] == [argv[5], argv[6]];
    }
  }

  lemma ShapesAreDisjoint(a: Shape, b: Shape, argv: Argv)
    requires a != b && Parse(a, argv).Some?
    ensures Parse(b, argv).None?
  {
    assert |argv| == 7 ==> argv[..4][0] == argv[0];
    assert "squeue"[1] != "sacct"[1];
  }
}
