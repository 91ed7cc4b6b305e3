/** `--dependency` specifications: their text form, and exactly which values survive
    being printed and parsed again. */
module Dependencies {
  import opened Wrappers
  import opened Text

  datatype DependencyType =
    | After
    | AfterAny
    | AfterBurstBuffer
    | AfterCorr
    | AfterNotOk
    | AfterOk
    | Singleton

  datatype JobRef = JobRef(jobId: U32, delay: Option<U32>)

  datatype Clause = Clause(kind: DependencyType, jobs: seq<JobRef>)

  datatype JoinKind = And | Or

  datatype Dependency = Dependency(clauses: seq<Clause>, join: JoinKind)

  function Keyword(kind: DependencyType): string {
    match kind
    case After => "after"
    case AfterAny => "afterany"
    case AfterBurstBuffer => "afterburstbuffer"
    case AfterCorr => "aftercorr"
    case AfterNotOk => "afternotok"
    case AfterOk => "afterok"
    case Singleton => "singleton"
  }

  function ParseKind(s: string): Option<DependencyType> {
    match s
    case "after" => Some(After)
    case "afterany" => Some(AfterAny)
    case "afterburstbuffer" => Some(AfterBurstBuffer)
    case "aftercorr" => Some(AfterCorr)
    case "afternotok" => Some(AfterNotOk)
    case "afterok" => Some(AfterOk)
    case "singleton" => Some(Singleton)
    case _ => None
  }

  function Separator(join: JoinKind): char {
    if join == And then ',' else '?'
  }

  // ---------------------------------------------------------------- printing

  function PrintJob(j: JobRef): string {
    match j.delay
    case None => Dec(j.jobId)
    case Some(m) => Dec(j.jobId) + ['+'] + Dec(m)
  }

  function PrintClause(c: Clause): string {
    Join([Keyword(c.kind)] + Map(PrintJob, c.jobs), ':')
  }

  function Print(d: Dependency): string {
    Join(Map(PrintClause, d.clauses), Separator(d.join))
  }

  /** `Display` of a clause, job by job. */
  method DisplayClause(c: Clause) returns (out: string)
    ensures out == PrintClause(c)
  {
    ghost var parts := [Keyword(c.kind)] + Map(PrintJob, c.jobs);
    out := Keyword(c.kind);
    for k := 0 to |c.jobs|
      invariant out == Join(parts[..k + 1], ':')
    {
      JoinPrefix(parts, k + 1, ':');
      out := out + ":" + PrintJob(c.jobs[k]);
    }
    assert parts[..|parts|] == parts;
  }

  /** `Display`, clause by clause. */
  method Display(d: Dependency) returns (out: string)
    ensures out == Print(d)
  {
    ghost var parts := Map(PrintClause, d.clauses);
    var sep := Separator(d.join);
    out := "";
    var first := true;
    for k := 0 to |d.clauses|
      invariant first <==> k == 0
      invariant out == Join(parts[..k], sep)
    {
      if !first {
        out := out + [sep];
      }
      first := false;
      JoinPrefix(parts, k, sep);
      var clause := DisplayClause(d.clauses[k]);
      out := out + clause;
    }
    assert parts[..|parts|] == parts;
  }

  // ---------------------------------------------------------------- parsing

  /** A number parses with one leading `+`, so `200++5` is a delay of 5. */
  function ParseJob(s: string, allowDelay: bool): Option<JobRef> {
    if s == "" then None
    else
      match SplitOnce(s, '+')
      case Some(p) =>
        if !allowDelay then None
        else
          (match (ParseU32(p.0), ParseU32(p.1))
           case (Some(id), Some(delay)) => Some(JobRef(id, Some(delay)))
           case _ => None)
      case None =>
        match ParseU32(s)
        case Some(id) => Some(JobRef(id, None))
        case None => None
  }

  function ParseJobs(raw: seq<string>, allowDelay: bool): Option<seq<JobRef>> {
    Traverse(s => ParseJob(s, allowDelay), raw)
  }

  function ParseClause(s: string): Option<Clause> {
    if s == "" then None
    else
      var parts := Split(s, ':');
      match ParseKind(parts[0])
      case None => None
      case Some(Singleton) => if parts[1..] != [] then None else Some(Clause(Singleton, []))
      case Some(kind) =>
        if parts[1..] == [] then None
        else
          match ParseJobs(parts[1..], kind == After)
          case None => None
          case Some(jobs) => Some(Clause(kind, jobs))
  }

  function Parse(s: string): Option<Dependency> {
    if s == "" || (',' in s && '?' in s) then None
    else
      var join := if '?' in s then Or else And;
      match Traverse(ParseClause, Split(s, Separator(join)))
      case None => None
      case Some(clauses) => if clauses == [] then None else Some(Dependency(clauses, join))
  }

  // ---------------------------------------------------------------- well-formed values

  predicate WellFormedClause(c: Clause) {
    && (c.kind == Singleton <==> c.jobs == [])
    && (c.kind != After ==> forall j :: j in c.jobs ==> j.delay.None?)
  }

  /** A single clause leaves no separator to tell `Or` from `And`. */
  predicate WellFormed(d: Dependency) {
    && d.clauses != []
    && (forall c :: c in d.clauses ==> WellFormedClause(c))
    && (|d.clauses| == 1 ==> d.join == And)
  }

  /** No character of these prints as a separator of an outer level. */
  predicate Inner(s: string) {
    ',' !in s && '?' !in s
  }

  lemma JobCharacters(j: JobRef)
    ensures ':' !in PrintJob(j) && Inner(PrintJob(j))
  {
  }

  lemma JobRoundTrip(j: JobRef, allowDelay: bool)
    requires j.delay.Some? ==> allowDelay
    ensures ParseJob(PrintJob(j), allowDelay) == Some(j)
  {
    ParseOfDec(j.jobId, U32_MAX);
    if j.delay.Some? {
      ParseOfDec(j.delay.value, U32_MAX);
      SplitOnceAt(Dec(j.jobId), Dec(j.delay.value), '+');
    } else {
      NotInDec(j.jobId, '+');
    }
  }

  lemma {:induction false} KindRoundTrip(kind: DependencyType)
    ensures ParseKind(Keyword(kind)) == Some(kind)
    ensures Keyword(kind) != "" && ':' !in Keyword(kind) && Inner(Keyword(kind))
  {
  }

  lemma JobsRoundTrip(jobs: seq<JobRef>, allowDelay: bool)
    requires allowDelay || forall j :: j in jobs ==> j.delay.None?
    ensures ParseJobs(Map(PrintJob, jobs), allowDelay) == Some(jobs)
    ensures forall p :: p in Map(PrintJob, jobs) ==> ':' !in p && Inner(p)
  {
    var parse := s => ParseJob(s, allowDelay);
    var parts := Map(PrintJob, jobs);
    forall j | j in jobs
      ensures parse(PrintJob(j)) == Some(j)
    {
      JobRoundTrip(j, allowDelay);
    }
    forall p | p in parts
      ensures ':' !in p && Inner(p)
    {
      var k :| 0 <= k < |parts| && parts[k] == p;
      assert jobs[k] in jobs;
      JobCharacters(jobs[k]);
    }
    TraverseOfMap(PrintJob, parse, jobs);
    var ps := Traverse(parse, parts);
    assert ParseJobs(parts, allowDelay).Some? && ParseJobs(parts, allowDelay).value == ps.value;
  }

  lemma {:induction false} ClauseRoundTrip(c: Clause)
    requires WellFormedClause(c)
    ensures ParseClause(PrintClause(c)) == Some(c)
    ensures Inner(PrintClause(c)) && PrintClause(c) != ""
  {
    var parts := [Keyword(c.kind)] + Map(PrintJob, c.jobs);
    KindRoundTrip(c.kind);
    JobsRoundTrip(c.jobs, c.kind == After);
    assert parts[1..] == Map(PrintJob, c.jobs);
    SplitOfJoin(parts, ':');
    NotInJoin(parts, ':', ',');
    NotInJoin(parts, ':', '?');
  }

  lemma {:induction false} WellFormedRoundTrips(d: Dependency)
    requires WellFormed(d)
    ensures Parse(Print(d)) == Some(d)
  {
    var sep := Separator(d.join);
    var other := if d.join == And then '?' else ',';
    var parts := Map(PrintClause, d.clauses);
    forall p | p in parts
      ensures Inner(p) && p != ""
    {
      var k :| 0 <= k < |parts| && parts[k] == p;
      assert d.clauses[k] in d.clauses;
      ClauseRoundTrip(d.clauses[k]);
    }
    forall c | c in d.clauses
      ensures ParseClause(PrintClause(c)) == Some(c)
    {
      ClauseRoundTrip(c);
    }
    SplitOfJoin(parts, sep);
    NotInJoin(parts, sep, other);
    TraverseOfMap(PrintClause, ParseClause, d.clauses);
    assert parts[0] in parts;
    if |parts| > 1 {
      assert Print(d)[|parts[0]|] == sep;
    }
  }

  // ---------------------------------------------------------------- accepted texts

  lemma ParsedJobsAreWellFormed(raw: seq<string>, allowDelay: bool)
    requires ParseJobs(raw, allowDelay).Some?
    ensures |ParseJobs(raw, allowDelay).value| == |raw|
    ensures !allowDelay ==> forall j :: j in ParseJobs(raw, allowDelay).value ==> j.delay.None?
  {
    var jobs := ParseJobs(raw, allowDelay).value;
    if !allowDelay {
      forall j | j in jobs
        ensures j.delay.None?
      {
        var k :| 0 <= k < |jobs| && jobs[k] == j;
        assert ParseJob(raw[k], allowDelay) == Some(j);
      }
    }
  }

  lemma ParsedClauseIsWellFormed(s: string)
    requires ParseClause(s).Some?
    ensures WellFormedClause(ParseClause(s).value)
  {
    var parts := Split(s, ':');
    var kind := ParseKind(parts[0]).value;
    if kind != Singleton {
      ParsedJobsAreWellFormed(parts[1..], kind == After);
    }
  }

  lemma {:induction false} SplitFindsSeparator(s: string, c: char)
    requires c in s
    ensures |Split(s, c)| >= 2
  {
    if s[0] != c {
      SplitFindsSeparator(s[1..], c);
    }
  }

  lemma AcceptedIsWellFormed(s: string)
    requires Parse(s).Some?
    ensures WellFormed(Parse(s).value)
  {
    var d := Parse(s).value;
    var parts := Split(s, Separator(d.join));
    assert Traverse(ParseClause, parts) == Some(d.clauses);
    forall c | c in d.clauses
      ensures WellFormedClause(c)
    {
      var k :| 0 <= k < |d.clauses| && d.clauses[k] == c;
      assert ParseClause(parts[k]) == Some(c);
      ParsedClauseIsWellFormed(parts[k]);
    }
    if d.join == Or {
      SplitFindsSeparator(s, '?');
    }
  }

  /** Exactly the well-formed values come back, and no others can be parsed. */
  lemma RoundTripExactly(d: Dependency)
    ensures Parse(Print(d)) == Some(d) <==> WellFormed(d)
    ensures WellFormed(d) <==> exists s :: Parse(s) == Some(d)
  {
    if WellFormed(d) {
      WellFormedRoundTrips(d);
    }
    forall s | Parse(s) == Some(d)
      ensures WellFormed(d)
    {
      AcceptedIsWellFormed(s);
    }
  }

  /** Printing what was accepted gives a canonical text: it is accepted with the same
      meaning, and printing again changes nothing. */
  lemma PrintOfParseIsCanonical(s: string)
    requires Parse(s).Some?
    ensures var canonical := Print(Parse(s).value);
            Parse(canonical) == Parse(s) && Print(Parse(canonical).value) == canonical
  {
    AcceptedIsWellFormed(s);
    WellFormedRoundTrips(Parse(s).value);
  }

  /** A clause on one job, of each kind that takes jobs. */
  function OneJob(kind: DependencyType, n: U32): Dependency {
    Dependency([Clause(kind, [JobRef(n, None)])], And)
  }

  lemma OneJobIsParsed(kind: DependencyType, n: U32)
    requires kind != Singleton
    ensures Parse(Keyword(kind) + [':'] + Dec(n)) == Some(OneJob(kind, n))
  {
    var d := OneJob(kind, n);
    var jobs := Map(PrintJob, [JobRef(n, None)]);
    assert jobs == [Dec(n)];
    assert [Keyword(kind), Dec(n)][1..] == [Dec(n)];
    assert Join([Dec(n)], ':') == Dec(n);
    assert PrintClause(d.clauses[0]) == Keyword(kind) + [':'] + Dec(n);
    assert Map(PrintClause, d.clauses) == [PrintClause(d.clauses[0])];
    WellFormedRoundTrips(d);
  }

  /** The keywords of the grammar. */
  predicate Stands(keyword: string, kind: DependencyType) {
    || (keyword == "after" && kind == After)
    || (keyword == "afterany" && kind == AfterAny)
    || (keyword == "afterburstbuffer" && kind == AfterBurstBuffer)
    || (keyword == "aftercorr" && kind == AfterCorr)
    || (keyword == "afternotok" && kind == AfterNotOk)
    || (keyword == "afterok" && kind == AfterOk)
  }

  /** What they mean in front of a job. */
  lemma KeywordsMean(keyword: string, kind: DependencyType, n: U32)
    requires Stands(keyword, kind)
    ensures Parse(keyword + [':'] + Dec(n)) == Some(OneJob(kind, n))
  {
    StandsForKeyword(keyword, kind);
    OneJobIsParsed(kind, n);
  }

  lemma StandsForKeyword(keyword: string, kind: DependencyType)
    requires Stands(keyword, kind)
    ensures keyword == Keyword(kind) && kind != Singleton
  {
  }
}
