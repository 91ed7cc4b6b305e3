/** `--array` specifications: their text form and the task indices they stand for. */
module ArraySpecs {
  import opened Wrappers
  import opened Text
  import opened Arithmetic

  datatype ArrayIndex =
    | Single(i: U32)
    | Range(start: U32, end: U32)
    | Stepped(start: U32, end: U32, step: U32)

  datatype ArraySpec = ArraySpec(indices: seq<ArrayIndex>, maxConcurrent: Option<U32>)

  // ---------------------------------------------------------------- printing

  function Bounds(a: U32, b: U32): string {
    Dec(a) + ['-'] + Dec(b)
  }

  function PrintIndex(e: ArrayIndex): string {
    match e
    case Single(i) => Dec(i)
    case Range(a, b) => Bounds(a, b)
    case Stepped(a, b, step) => Bounds(a, b) + [':'] + Dec(step)
  }

  function PrintSpec(spec: ArraySpec): string {
    var indices := Join(Map(PrintIndex, spec.indices), ',');
    match spec.maxConcurrent
    case None => indices
    case Some(n) => indices + ['%'] + Dec(n)
  }

  /** `Display`, entry by entry. */
  method Display(spec: ArraySpec) returns (out: string)
    ensures out == PrintSpec(spec)
  {
    out := "";
    var first := true;
    ghost var parts := Map(PrintIndex, spec.indices);
    for k := 0 to |spec.indices|
      invariant first <==> k == 0
      invariant out == Join(parts[..k], ',')
    {
      if !first {
        out := out + ",";
      }
      first := false;
      JoinPrefix(parts, k, ',');
      out := out + PrintIndex(spec.indices[k]);
    }
    assert parts[..|parts|] == parts;
    if spec.maxConcurrent.Some? {
      out := out + "%" + Dec(spec.maxConcurrent.value);
    }
  }

  // ---------------------------------------------------------------- parsing

  /** `<start>-<end>`, in ascending order. */
  function ParseBounds(s: string): (r: Option<(U32, U32)>)
    ensures r.Some? ==> r.value.0 <= r.value.1
  {
    match SplitOnce(s, '-')
    case None => None
    case Some(p) =>
      match (ParseU32(p.0), ParseU32(p.1))
      case (Some(a), Some(b)) => if a <= b then Some((a, b)) else None
      case _ => None
  }

  function ParseStepped(range: string, step: string): Option<ArrayIndex> {
    match (ParseBounds(range), ParseU32(step))
    case (Some(p), Some(d)) => if d == 0 then None else Some(Stepped(p.0, p.1, d))
    case _ => None
  }

  function ParseIndex(s: string): Option<ArrayIndex> {
    if s == "" then None
    else
      match SplitOnce(s, ':')
      case Some(p) => ParseStepped(p.0, p.1)
      case None =>
        if '-' in s then
          match ParseBounds(s)
          case Some(p) => Some(Range(p.0, p.1))
          case None => None
        else
          match ParseU32(s)
          case Some(i) => Some(Single(i))
          case None => None
  }

  function ParseIndices(s: string): Option<seq<ArrayIndex>> {
    if s == "" then None else Traverse(ParseIndex, Split(s, ','))
  }

  function ParseSpec(s: string): Option<ArraySpec> {
    if s == "" then None
    else
      match SplitOnce(s, '%')
      case None =>
        (match ParseIndices(s)
         case Some(indices) => Some(ArraySpec(indices, None))
         case None => None)
      case Some(p) =>
        match (ParseIndices(p.0), ParseU32(p.1))
        case (Some(indices), Some(n)) => if n == 0 then None else Some(ArraySpec(indices, Some(n)))
        case _ => None
  }

  // ---------------------------------------------------------------- round trip

  predicate WellFormedIndex(e: ArrayIndex) {
    match e
    case Single(_) => true
    case Range(a, b) => a <= b
    case Stepped(a, b, step) => a <= b && step > 0
  }

  predicate WellFormed(spec: ArraySpec) {
    && spec.indices != []
    && (forall e :: e in spec.indices ==> WellFormedIndex(e))
    && (spec.maxConcurrent.Some? ==> spec.maxConcurrent.value > 0)
  }

  lemma BoundsCharacters(a: U32, b: U32)
    ensures Bounds(a, b) != "" && '-' in Bounds(a, b)
    ensures ',' !in Bounds(a, b) && '%' !in Bounds(a, b) && ':' !in Bounds(a, b)
  {
    assert Bounds(a, b)[|Dec(a)|] == '-';
  }

  lemma BoundsRoundTrip(a: U32, b: U32)
    requires a <= b
    ensures ParseBounds(Bounds(a, b)) == Some((a, b))
  {
    SplitOnceAt(Dec(a), Dec(b), '-');
    ParseOfDec(a, U32_MAX);
    ParseOfDec(b, U32_MAX);
  }

  lemma SteppedRoundTrip(a: U32, b: U32, step: U32)
    requires a <= b && step > 0
    ensures var text := Bounds(a, b) + [':'] + Dec(step);
            && ParseIndex(text) == Some(Stepped(a, b, step))
            && ',' !in text && '%' !in text
  {
    BoundsCharacters(a, b);
    BoundsRoundTrip(a, b);
    ParseOfDec(step, U32_MAX);
    SplitOnceAt(Bounds(a, b), Dec(step), ':');
  }

  lemma SingleRoundTrip(i: U32)
    ensures ParseIndex(Dec(i)) == Some(Single(i))
    ensures ',' !in Dec(i) && '%' !in Dec(i)
  {
    ParseOfDec(i, U32_MAX);
  }

  lemma IndexRoundTrip(e: ArrayIndex)
    requires WellFormedIndex(e)
    ensures ParseIndex(PrintIndex(e)) == Some(e)
    ensures PrintIndex(e) != "" && ',' !in PrintIndex(e) && '%' !in PrintIndex(e)
  {
    match e {
      case Single(i) => SingleRoundTrip(i);
      case Range(a, b) =>
        BoundsCharacters(a, b);
        BoundsRoundTrip(a, b);
      case Stepped(a, b, step) => SteppedRoundTrip(a, b, step);
    }
  }

  lemma IndicesRoundTrip(indices: seq<ArrayIndex>)
    requires indices != [] && forall e :: e in indices ==> WellFormedIndex(e)
    ensures var text := Join(Map(PrintIndex, indices), ',');
            text != "" && '%' !in text && ParseIndices(text) == Some(indices)
  {
    var parts := Map(PrintIndex, indices);
    forall p | p in parts
      ensures ',' !in p && '%' !in p && p != ""
    {
      var k :| 0 <= k < |parts| && parts[k] == p;
      assert indices[k] in indices;
      IndexRoundTrip(indices[k]);
    }
    SplitOfJoin(parts, ',');
    NotInJoin(parts, ',', '%');
    assert Join(parts, ',') != "" by {
      assert parts[0] in parts;
    }
    forall e | e in indices
      ensures ParseIndex(PrintIndex(e)) == Some(e)
    {
      IndexRoundTrip(e);
    }
    TraverseOfMap(PrintIndex, ParseIndex, indices);
  }

  /** Printing and parsing gives a specification back exactly when it is well formed:
      a nonempty list of ascending ranges, with positive steps and a positive cap. */
  lemma RoundTripExactly(spec: ArraySpec)
    ensures ParseSpec(PrintSpec(spec)) == Some(spec) <==> WellFormed(spec)
  {
    if WellFormed(spec) {
      IndicesRoundTrip(spec.indices);
      var text := Join(Map(PrintIndex, spec.indices), ',');
      if spec.maxConcurrent.Some? {
        ParseOfDec(spec.maxConcurrent.value, U32_MAX);
        SplitOnceAt(text, Dec(spec.maxConcurrent.value), '%');
      }
    } else if ParseSpec(PrintSpec(spec)).Some? {
      AcceptedIsWellFormed(PrintSpec(spec));
    }
  }

  lemma ParsedIndexIsWellFormed(s: string)
    requires ParseIndex(s).Some?
    ensures WellFormedIndex(ParseIndex(s).value)
  {
  }

  lemma ParsedIndicesAreWellFormed(s: string)
    requires ParseIndices(s).Some?
    ensures var indices := ParseIndices(s).value;
            indices != [] && forall e :: e in indices ==> WellFormedIndex(e)
  {
    var indices := ParseIndices(s).value;
    var parts := Split(s, ',');
    forall e | e in indices
      ensures WellFormedIndex(e)
    {
      var k :| 0 <= k < |indices| && indices[k] == e;
      ParsedIndexIsWellFormed(parts[k]);
    }
  }

  lemma AcceptedIsWellFormed(s: string)
    requires ParseSpec(s).Some?
    ensures WellFormed(ParseSpec(s).value)
  {
    match SplitOnce(s, '%') {
      case None => ParsedIndicesAreWellFormed(s);
      case Some(p) => ParsedIndicesAreWellFormed(p.0);
    }
  }

  /** Every accepted text is printed back in a form that means the same. */
  lemma PrintOfAcceptedMeansTheSame(s: string)
    requires ParseSpec(s).Some?
    ensures ParseSpec(PrintSpec(ParseSpec(s).value)) == ParseSpec(s)
  {
    AcceptedIsWellFormed(s);
    RoundTripExactly(ParseSpec(s).value);
  }

  // ---------------------------------------------------------------- expansion

  /** start, start + step, ... up to end. */
  function Progression(start: nat, end: U32, step: nat): (r: seq<U32>)
    requires step > 0
    decreases if start <= end then end - start + 1 else 0
  {
    if start > end then [] else [start] + Progression(start + step, end, step)
  }

  /** The loop over the entry ends: its step is positive, as that of every parsed entry,
      or its range is empty. */
  predicate Advances(e: ArrayIndex) {
    e.Stepped? ==> e.step > 0 || e.start > e.end
  }

  function SteppedIndices(start: U32, end: U32, step: U32): seq<U32>
    requires step > 0 || start > end
  {
    if start > end then [] else Progression(start, end, step)
  }

  function IndicesOf(e: ArrayIndex): seq<U32>
    requires Advances(e)
  {
    match e
    case Single(i) => [i]
    case Range(a, b) => Progression(a, b, 1)
    case Stepped(a, b, step) => SteppedIndices(a, b, step)
  }

  function Expansion(indices: seq<ArrayIndex>): seq<U32>
    requires forall e :: e in indices ==> Advances(e)
  {
    if indices == [] then []
    else
      var n := |indices| - 1;
      Expansion(indices[..n]) + IndicesOf(indices[n])
  }

  lemma {:induction false} ProgressionIsArithmetic(start: nat, end: U32, step: nat)
    requires step > 0 && start <= end
    ensures var r := Progression(start, end, step);
            && |r| == (end - start) / step + 1
            && forall k :: 0 <= k < |r| ==> r[k] == start + k * step && r[k] <= end
    decreases end - start
  {
    var r := Progression(start, end, step);
    if start + step <= end {
      ProgressionIsArithmetic(start + step, end, step);
      var rest := Progression(start + step, end, step);
      QuotientStep(end - start, step);
      forall k | 0 <= k < |r|
        ensures r[k] == start + k * step && r[k] <= end
      {
        if k > 0 {
          assert r[k] == rest[k - 1];
          assert k * step == (k - 1) * step + step;
        }
      }
    } else {
      assert Progression(start + step, end, step) == [];
      QuotientZero(end - start, step);
    }
  }

  /** `checked_add` in `u32`. */
  function CheckedAdd(a: U32, b: U32): Option<U32> {
    if a + b <= U32_MAX then Some(a + b) else None
  }

  /** Enumerates the indices in declaration order. It ends on every specification but
      those with a nonempty range and a step of zero. */
  method ExpandArrayIndices(spec: ArraySpec) returns (out: seq<U32>)
    requires forall e :: e in spec.indices ==> Advances(e)
    ensures out == Expansion(spec.indices)
  {
    out := [];
    for n := 0 to |spec.indices|
      invariant out == Expansion(spec.indices[..n])
    {
      assert spec.indices[n] in spec.indices;
      assert spec.indices[..n + 1][..n] == spec.indices[..n];
      match spec.indices[n] {
        case Single(i) =>
          out := out + [i];
        case Range(start, end) =>
          out := AppendRange(out, start, end);
        case Stepped(start, end, step) =>
          out := AppendStepped(out, start, end, step);
      }
    }
    assert spec.indices[..|spec.indices|] == spec.indices;
  }

  lemma ProgressionTurn(out: seq<U32>, i: U32, end: U32, step: nat)
    requires step > 0 && i <= end
    ensures out + Progression(i, end, step) == out + [i] + Progression(i + step, end, step)
  {
  }

  method AppendRange(before: seq<U32>, start: U32, end: U32) returns (out: seq<U32>)
    ensures out == before + Progression(start, end, 1)
  {
    out := before;
    if start <= end {
      for i := start to end + 1
        invariant out + Progression(i, end, 1) == before + Progression(start, end, 1)
      {
        ProgressionTurn(out, i, end, 1);
        out := out + [i];
      }
      assert Progression(end + 1, end, 1) == [];
    }
  }

  method AppendStepped(before: seq<U32>, start: U32, end: U32, step: U32) returns (out: seq<U32>)
    requires step > 0 || start > end
    ensures out == before + SteppedIndices(start, end, step)
  {
    out := before;
    var i := start;
    while i <= end
      invariant step == 0 ==> i == start && out == before
      invariant step > 0 ==> out + Progression(i, end, step) == before + Progression(start, end, step)
      decreases if i <= end then end - i + 1 else 0
    {
      ProgressionTurn(out, i, end, step);
      out := out + [i];
      match CheckedAdd(i, step) {
        case Some(next) =>
          i := next;
        case None =>
          assert Progression(i + step, end, step) == [];
          return;
      }
    }
  }

  /** One turn of the stepped loop: the next index, unless the loop ends. */
  function NextIndex(i: U32, end: U32, step: U32): Option<U32> {
    if i > end then None else CheckedAdd(i, step)
  }

  /** The index after `n` turns, unless the loop ended before. */
  function IndexAfter(start: U32, end: U32, step: U32, n: nat): Option<U32> {
    if n == 0 then Some(start)
    else
      match IndexAfter(start, end, step, n - 1)
      case None => None
      case Some(i) => NextIndex(i, end, step)
  }

  lemma {:induction false} TurnsAdvance(start: U32, end: U32, step: U32, n: nat)
    ensures var i := IndexAfter(start, end, step, n);
            if step == 0 then i == (if start <= end || n == 0 then Some(start) else None)
            else i.Some? ==> i.value >= start + n
  {
    if n > 0 {
      TurnsAdvance(start, end, step, n - 1);
    }
  }

  /** The stepped loop runs forever exactly on a nonempty range with a step of zero,
      which the parser rejects and only a hand-made entry can have. */
  lemma LoopsForeverExactlyWhenStepIsZero(start: U32, end: U32, step: U32)
    ensures (forall n :: IndexAfter(start, end, step, n).Some?) <==> step == 0 && start <= end
  {
    if step == 0 && start <= end {
      forall n
        ensures IndexAfter(start, end, step, n).Some?
      {
        TurnsAdvance(start, end, step, n);
      }
    } else if step == 0 {
      TurnsAdvance(start, end, step, 1);
      assert IndexAfter(start, end, step, 1).None?;
    } else {
      TurnsAdvance(start, end, step, end + 1);
      assert IndexAfter(start, end, step, end + 2).None?;
    }
  }

  /** What one entry stands for: its arithmetic progression, up to its end. */
  predicate IsProgressionOf(e: ArrayIndex, r: seq<U32>) {
    match e
    case Single(i) => r == [i]
    case Range(a, b) => a <= b && |r| == b - a + 1 && forall k :: 0 <= k < |r| ==> r[k] == a + k
    case Stepped(a, b, step) =>
      && a <= b && step > 0
      && |r| == (b - a) / step + 1
      && forall k :: 0 <= k < |r| ==> r[k] == a + k * step <= b
  }

  lemma WellFormedIndexExpands(e: ArrayIndex)
    requires WellFormedIndex(e)
    ensures IsProgressionOf(e, IndicesOf(e))
  {
    match e {
      case Single(_) =>
      case Range(a, b) => ProgressionIsArithmetic(a, b, 1);
      case Stepped(a, b, step) => ProgressionIsArithmetic(a, b, step);
    }
  }

  /** Every parsed specification: each entry gives exactly its arithmetic progression,
      the entries one after the other, and at least one index in all. */
  lemma ParsedSpecExpands(s: string, n: nat)
    requires ParseSpec(s).Some? && n < |ParseSpec(s).value.indices|
    ensures var indices := ParseSpec(s).value.indices;
            && (forall e :: e in indices ==> Advances(e))
            && Expansion(indices[..n + 1]) == Expansion(indices[..n]) + IndicesOf(indices[n])
            && IsProgressionOf(indices[n], IndicesOf(indices[n]))
  {
    AcceptedIsWellFormed(s);
    var indices := ParseSpec(s).value.indices;
    assert indices[n] in indices;
    assert indices[..n + 1][..n] == indices[..n];
    WellFormedIndexExpands(indices[n]);
  }

  /** The indices an entry stands for, as a set: within its bounds and on its step. */
  predicate InEntry(e: ArrayIndex, id: U32) {
    match e
    case Single(i) => id == i
    case Range(a, b) => a <= id <= b
    case Stepped(a, b, step) => step > 0 && a <= id <= b && (id - a) % step == 0
  }

  lemma {:induction false} InProgression(start: nat, end: U32, step: nat, id: U32)
    requires step > 0
    ensures id in Progression(start, end, step) <==> start <= id <= end && (id - start) % step == 0
    decreases if start <= end then end - start + 1 else 0
  {
    if start <= end {
      InProgression(start + step, end, step, id);
      if id >= start + step {
        RemainderStep(id - start, step);
      }
    }
  }

  /** A well-formed specification stands for the indices of its entries and no others. */
  lemma {:induction false} InExpansion(indices: seq<ArrayIndex>, id: U32)
    requires forall e :: e in indices ==> WellFormedIndex(e) && Advances(e)
    ensures id in Expansion(indices) <==> exists e :: e in indices && InEntry(e, id)
    decreases |indices|
  {
    if indices != [] {
      var n := |indices| - 1;
      var front, last := indices[..n], indices[n];
      assert indices == front + [last];
      InExpansion(front, id);
      InIndices(last, id);
    }
  }

  lemma InIndices(e: ArrayIndex, id: U32)
    requires WellFormedIndex(e)
    ensures id in IndicesOf(e) <==> InEntry(e, id)
  {
    match e {
      case Single(_) =>
      case Range(a, b) => InProgression(a, b, 1, id);
      case Stepped(a, b, step) => InProgression(a, b, step, id);
    }
  }
}
