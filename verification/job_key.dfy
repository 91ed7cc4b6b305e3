/** The unit of batching of `squeue` and `sacct` queries, its text form, and the
    strictly sorted batches of such keys. */
module JobKeys {
  import opened Wrappers
  import opened Text

  datatype JobKey =
    | Plain(id: U64)
    | ArrayTask(master: U64, index: U32)

  function ParseKey(token: string): (r: Option<JobKey>) {
    match SplitOnce(token, '_')
    case None =>
      (match ParseU64(token)
       case None => None
       case Some(id) => Some(Plain(id)))
    case Some(p) =>
      match (ParseU64(p.0), ParseU32(p.1))
      case (Some(m), Some(i)) => Some(ArrayTask(m, i))
      case _ => None
  }

  function PrintKey(key: JobKey): (s: string)
  {
    match key
    case Plain(id) => Dec(id)
    case ArrayTask(m, i) => Dec(m) + ['_'] + Dec(i)
  }

  function ParseCsv(csv: string): Option<seq<JobKey>> {
    Traverse(ParseKey, Split(csv, ','))
  }

  function Csv(batch: seq<JobKey>): string {
    Join(Map(PrintKey, batch), ',')
  }

  /** Joins a batch into the value of `-j`, one key at a time. */
  method BuildCsv(batch: seq<JobKey>) returns (out: string)
    ensures out == Csv(batch)
    ensures batch != [] ==> ParseCsv(out) == Some(batch)
  {
    out := "";
    ghost var parts := Map(PrintKey, batch);
    for i := 0 to |batch|
      invariant out == Join(parts[..i], ',')
    {
      if i > 0 {
        out := out + ",";
      }
      JoinPrefix(parts, i, ',');
      out := out + PrintKey(batch[i]);
    }
    assert parts[..|parts|] == parts;
    if batch != [] {
      CsvRoundTrip(batch);
    }
  }

  lemma {:induction false} KeyRoundTrip(key: JobKey)
    ensures ParseKey(PrintKey(key)) == Some(key)
    ensures ',' !in PrintKey(key)
  {
    match key
    case Plain(id) =>
      NotInDec(id, '_');
      ParseOfDec(id, U64_MAX);
    case ArrayTask(m, i) =>
      NotInDec(m, '_');
      SplitOnceAt(Dec(m), Dec(i), '_');
      ParseOfDec(m, U64_MAX);
      ParseOfDec(i, U32_MAX);
  }

  lemma PrintKeyIsInjective(a: JobKey, b: JobKey)
    requires PrintKey(a) == PrintKey(b)
    ensures a == b
  {
    KeyRoundTrip(a);
    KeyRoundTrip(b);
  }

  lemma CsvRoundTrip(batch: seq<JobKey>)
    requires batch != []
    ensures ParseCsv(Csv(batch)) == Some(batch)
  {
    var parts := Map(PrintKey, batch);
    forall p | p in parts
      ensures ',' !in p
    {
      var i :| 0 <= i < |parts| && parts[i] == p;
      KeyRoundTrip(batch[i]);
    }
    SplitOfJoin(parts, ',');
    forall k | k in batch
      ensures ParseKey(PrintKey(k)) == Some(k)
    {
      KeyRoundTrip(k);
    }
    TraverseOfMap(PrintKey, ParseKey, batch);
  }

  // ---------------------------------------------------------------- sorted batches

  /** The derived order: plain jobids before array tasks, then by number. */
  predicate Less(a: JobKey, b: JobKey) {
    match (a, b)
    case (Plain(x), Plain(y)) => x < y
    case (Plain(_), ArrayTask(_, _)) => true
    case (ArrayTask(_, _), Plain(_)) => false
    case (ArrayTask(m, i), ArrayTask(n, j)) => m < n || (m == n && i < j)
  }

  predicate StrictlySorted(batch: seq<JobKey>) {
    forall i, j :: 0 <= i < j < |batch| ==> Less(batch[i], batch[j])
  }

  predicate Sorted(batch: seq<JobKey>) {
    forall i, j :: 0 <= i < j < |batch| ==> !Less(batch[j], batch[i])
  }

  function Elements(batch: seq<JobKey>): set<JobKey> {
    set k | k in batch
  }

  function Insert(batch: seq<JobKey>, key: JobKey): (r: seq<JobKey>)
    requires Sorted(batch)
    ensures Sorted(r)
    ensures multiset(r) == multiset(batch) + multiset{key}
  {
    if batch == [] then [key]
    else if !Less(batch[0], key) then
      InsertFirst(batch, key);
      [key] + batch
    else
      var rest := Insert(batch[1..], key);
      assert batch == [batch[0]] + batch[1..];
      InsertLater(batch, key, rest);
      [batch[0]] + rest
  }

  lemma InsertFirst(batch: seq<JobKey>, key: JobKey)
    requires Sorted(batch) && batch != [] && !Less(batch[0], key)
    ensures Sorted([key] + batch)
  {
    forall i | 0 <= i < |batch|
      ensures !Less(batch[i], key)
    {
      NotLessIsTransitive(batch[i], batch[0], key);
    }
  }

  lemma InsertLater(batch: seq<JobKey>, key: JobKey, rest: seq<JobKey>)
    requires Sorted(batch) && batch != [] && Less(batch[0], key)
    requires Sorted(rest) && multiset(rest) == multiset(batch[1..]) + multiset{key}
    ensures Sorted([batch[0]] + rest)
  {
    forall i | 0 <= i < |rest|
      ensures !Less(rest[i], batch[0])
    {
      assert rest[i] in multiset(rest);
      assert rest[i] == key || rest[i] in batch[1..];
    }
  }

  lemma NotLessIsTransitive(a: JobKey, b: JobKey, c: JobKey)
    requires a == b || !Less(a, b)
    requires !Less(b, c)
    ensures !Less(a, c)
  {
  }

  /** `sort_unstable`. */
  function SortKeys(batch: seq<JobKey>): (r: seq<JobKey>)
    ensures Sorted(r)
    ensures multiset(r) == multiset(batch)
  {
    if batch == [] then []
    else
      assert batch == [batch[0]] + batch[1..];
      Insert(SortKeys(batch[1..]), batch[0])
  }

  /** `dedup`: drops every key equal to its left neighbour. */
  function DedupKeys(batch: seq<JobKey>): (r: seq<JobKey>)
    requires Sorted(batch)
    ensures StrictlySorted(r)
    ensures Elements(r) == Elements(batch)
    ensures batch != [] ==> r != [] && r[0] == batch[0]
  {
    if |batch| <= 1 then batch
    else
      var rest := DedupKeys(batch[1..]);
      assert Elements(batch) == {batch[0]} + Elements(batch[1..]);
      if batch[0] == batch[1] then rest
      else
        assert forall x :: x in rest ==> x in Elements(rest);
        assert Elements([batch[0]] + rest) == {batch[0]} + Elements(rest);
        [batch[0]] + rest
  }

  /** The batch of a live query: the registry keys that are kept and the
      requested keys, sorted and without repetition. */
  function BatchOf(kept: seq<JobKey>, requested: seq<JobKey>): (r: seq<JobKey>)
    ensures StrictlySorted(r)
    ensures Elements(r) == Elements(kept) + Elements(requested)
  {
    var sorted := SortKeys(kept + requested);
    assert forall x :: x in sorted <==> x in multiset(kept + requested);
    DedupKeys(sorted)
  }

  lemma NoElements(a: seq<JobKey>)
    ensures Elements(a) == {} <==> a == []
  {
    if a != [] {
      assert a[0] in Elements(a);
    }
  }

  /** A strictly sorted batch is determined by its set of keys. */
  lemma {:induction false} SortedBatchIsUnique(a: seq<JobKey>, b: seq<JobKey>)
    requires StrictlySorted(a) && StrictlySorted(b)
    requires Elements(a) == Elements(b)
    ensures a == b
    decreases |a|
  {
    NoElements(a);
    NoElements(b);
    if a != [] {
      assert a[0] in Elements(a);
      assert b[0] in Elements(b);
      assert a[0] == b[0];
      assert Elements(a[1..]) == Elements(a) - {a[0]};
      assert Elements(b[1..]) == Elements(b) - {b[0]};
      SortedBatchIsUnique(a[1..], b[1..]);
      assert a == [a[0]] + a[1..];
      assert b == [b[0]] + b[1..];
    }
  }
}
