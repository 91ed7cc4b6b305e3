/** `--rsc` resource lists: a loop over tokens that fills five options, an order-free
    account of what it accepts, and the texts that survive a round trip. */
module ResourceSpecs {
  import opened Wrappers
  import opened Text

  type Positive = n: nat | 1 <= n <= U32_MAX witness 1

  datatype MemoryUnit = Kilo | Mega | Giga | Tera

  datatype Memory = Memory(value: Positive, unit: MemoryUnit)

  datatype ResourceSpec =
    | CPU(p: Option<Positive>, t: Option<Positive>, c: Option<Positive>, m: Option<Memory>)
    | GPU(g: Positive)

  const ALL_DEFAULT: ResourceSpec := CPU(None, None, None, None)

  // ---------------------------------------------------------------- values

  function UnitChar(unit: MemoryUnit): char {
    match unit
    case Kilo => 'K'
    case Mega => 'M'
    case Giga => 'G'
    case Tera => 'T'
  }

  function ParseUnit(c: char): Option<MemoryUnit> {
    match c
    case 'K' => Some(Kilo)
    case 'M' => Some(Mega)
    case 'G' => Some(Giga)
    case 'T' => Some(Tera)
    case _ => None
  }

  function ParseCount(s: string): (r: Option<Positive>)
    ensures r.Some? <==> ParseU32(s).Some? && ParseU32(s).value != 0
    ensures r.Some? ==> r.value == ParseU32(s).value
  {
    match ParseU32(s)
    case None => None
    case Some(n) => if n == 0 then None else Some(n)
  }

  function ParseMemoryOf(digits: string, unit: MemoryUnit): Option<Memory> {
    match ParseCount(digits)
    case None => None
    case Some(n) => Some(Memory(n, unit))
  }

  /** A number and a unit letter, or a number alone, in mebibytes. */
  function ParseMemory(s: string): Option<Memory> {
    if s == "" then None
    else
      var last := s[|s| - 1];
      if IsDigit(last) then ParseMemoryOf(s, Mega)
      else
        match ParseUnit(last)
        case None => None
        case Some(unit) => ParseMemoryOf(s[..|s| - 1], unit)
  }

  function PrintMemory(m: Memory): string {
    Dec(m.value) + [UnitChar(m.unit)]
  }

  lemma MemoryRoundTrip(m: Memory)
    ensures ParseMemory(PrintMemory(m)) == Some(m)
    ensures ':' !in PrintMemory(m)
  {
    var s := PrintMemory(m);
    ParseOfDec(m.value, U32_MAX);
    assert s[..|s| - 1] == Dec(m.value);
  }

  /** A number alone counts mebibytes. */
  lemma BareNumberIsMega(n: Positive)
    ensures ParseMemory(Dec(n)) == Some(Memory(n, Mega))
  {
    ParseOfDec(n, U32_MAX);
  }

  // ---------------------------------------------------------------- the token loop

  /** The five variables of the loop. */
  datatype Fields = Fields(p: Option<Positive>, t: Option<Positive>, c: Option<Positive>, m: Option<Memory>, g: Option<Positive>)

  const NO_FIELDS: Fields := Fields(None, None, None, None, None)

  predicate IsKey(key: string) {
    key == "p" || key == "t" || key == "c" || key == "m" || key == "g"
  }

  /** `key=value` with a known key and a value that is not empty. */
  function KeyValue(token: string): (r: Option<(string, string)>)
    ensures r.Some? ==> IsKey(r.value.0)
  {
    match SplitOnce(token, '=')
    case None => None
    case Some(kv) => if kv.1 != "" && IsKey(kv.0) then Some(kv) else None
  }

  function Put(f: Fields, key: string, value: string): Option<Fields>
    requires IsKey(key)
  {
    if key == "m" then
      var m := ParseMemory(value);
      if f.m.Some? || m.None? then None else Some(f.(m := m))
    else
      var n := ParseCount(value);
      if n.None? then None
      else if key == "p" then if f.p.Some? then None else Some(f.(p := n))
      else if key == "t" then if f.t.Some? then None else Some(f.(t := n))
      else if key == "c" then if f.c.Some? then None else Some(f.(c := n))
      else if f.g.Some? then None else Some(f.(g := n))
  }

  function PutToken(f: Option<Fields>, token: string): Option<Fields> {
    match (f, KeyValue(token))
    case (Some(fields), Some(kv)) => Put(fields, kv.0, kv.1)
    case _ => None
  }

  function Collect(tokens: seq<string>): Option<Fields> {
    if tokens == [] then Some(NO_FIELDS)
    else PutToken(Collect(tokens[..|tokens| - 1]), tokens[|tokens| - 1])
  }

  /** One flavour or the other, and never nothing at all. */
  function Flavour(f: Fields): Option<ResourceSpec> {
    if f.g.Some? then
      if f.p.None? && f.t.None? && f.c.None? && f.m.None? then Some(GPU(f.g.value)) else None
    else if f.p.Some? || f.t.Some? || f.c.Some? || f.m.Some? then Some(CPU(f.p, f.t, f.c, f.m))
    else None
  }

  function Parse(s: string): Option<ResourceSpec> {
    if s == "" then None
    else
      match Collect(Split(s, ':'))
      case None => None
      case Some(f) => Flavour(f)
  }

  lemma {:induction false} CollectStopsAtFailure(tokens: seq<string>, k: nat)
    requires k <= |tokens| && Collect(tokens[..k]).None?
    ensures Collect(tokens).None?
    decreases |tokens| - k
  {
    if k == |tokens| {
      assert tokens[..k] == tokens;
    } else {
      assert tokens[..k + 1][..k] == tokens[..k];
      CollectStopsAtFailure(tokens, k + 1);
    }
  }

  /** `FromStr`: one pass over the tokens, leaving at the first bad one. */
  method FromStr(s: string) returns (r: Option<ResourceSpec>)
    ensures r == Parse(s)
  {
    if s == "" {
      return None;
    }
    var p, t, c, g: Option<Positive> := None, None, None, None;
    var m: Option<Memory> := None;
    var tokens := Split(s, ':');
    for k := 0 to |tokens|
      invariant Collect(tokens[..k]) == Some(Fields(p, t, c, m, g))
    {
      assert tokens[..k + 1][..k] == tokens[..k];
      CheckFailure(tokens, k + 1);
      match KeyValue(tokens[k]) {
        case None =>
          return None;
        case Some(kv) =>
          var key, value := kv.0, kv.1;
          if key == "m" {
            var memory := ParseMemory(value);
            if m.Some? || memory.None? {
              return None;
            }
            m := memory;
          } else {
            var n := ParseCount(value);
            if n.None? {
              return None;
            }
            if key == "p" {
              if p.Some? {
                return None;
              }
              p := n;
            } else if key == "t" {
              if t.Some? {
                return None;
              }
              t := n;
            } else if key == "c" {
              if c.Some? {
                return None;
              }
              c := n;
            } else {
              if g.Some? {
                return None;
              }
              g := n;
            }
          }
      }
    }
    assert tokens[..|tokens|] == tokens;
    r := Flavour(Fields(p, t, c, m, g));
  }

  lemma CheckFailure(tokens: seq<string>, k: nat)
    requires k <= |tokens|
    ensures Collect(tokens[..k]).None? ==> Collect(tokens).None?
  {
    if Collect(tokens[..k]).None? {
      CollectStopsAtFailure(tokens, k);
    }
  }

  // ---------------------------------------------------------------- order does not matter

  lemma PutCommutes(f: Fields, k1: string, v1: string, k2: string, v2: string)
    requires IsKey(k1) && IsKey(k2)
    ensures var first := Put(f, k1, v1);
            var second := Put(f, k2, v2);
            (if first.None? then None else Put(first.value, k2, v2))
            == (if second.None? then None else Put(second.value, k1, v1))
  {
  }

  lemma TokensCommute(f: Option<Fields>, x: string, y: string)
    ensures PutToken(PutToken(f, x), y) == PutToken(PutToken(f, y), x)
  {
    if f.Some? && KeyValue(x).Some? && KeyValue(y).Some? {
      var a, b := KeyValue(x).value, KeyValue(y).value;
      PutCommutes(f.value, a.0, a.1, b.0, b.1);
    }
  }

  lemma CollectMore(tokens: seq<string>, x: string)
    ensures Collect(tokens + [x]) == PutToken(Collect(tokens), x)
  {
    var all := tokens + [x];
    assert all[..|all| - 1] == tokens;
  }

  /** A token can be moved to the end. */
  lemma {:induction false} MoveToEnd(u: seq<string>, x: string, v: seq<string>)
    ensures Collect(u + [x] + v) == Collect(u + v + [x])
    decreases |v|
  {
    if v == [] {
      assert u + [x] + v == u + v + [x];
    } else {
      var w, y := v[..|v| - 1], v[|v| - 1];
      MoveToEnd(u, x, w);
      assert u + [x] + v == (u + [x] + w) + [y];
      assert u + v == (u + w) + [y];
      CollectMore(u + [x] + w, y);
      CollectMore(u + w, x);
      CollectMore(u + w, y);
      CollectMore(u + v, x);
      TokensCommute(Collect(u + w), x, y);
    }
  }

  lemma TakenOut(u: seq<string>, x: string, v: seq<string>)
    ensures multiset(u + v) == multiset(u + [x] + v) - multiset{x}
  {
    assert multiset(u + [x]) == multiset(u) + multiset{x};
    assert multiset(u + [x] + v) == multiset(u + [x]) + multiset(v);
    assert multiset(u + v) == multiset(u) + multiset(v);
  }

  lemma {:induction false} CollectIgnoresOrder(a: seq<string>, b: seq<string>)
    requires multiset(a) == multiset(b)
    ensures Collect(a) == Collect(b)
    decreases |a|
  {
    assert |multiset(a)| == |a| && |multiset(b)| == |b|;
    if a != [] {
      var n := |a| - 1;
      var x := a[n];
      assert a == a[..n] + [x];
      assert x in multiset(b);
      var k :| 0 <= k < |b| && b[k] == x;
      var u, v := b[..k], b[k + 1..];
      assert b == u + [x] + v;
      TakenOut(u, x, v);
      TakenOut(a[..n], x, []);
      assert a[..n] + [x] + [] == a && a[..n] + [] == a[..n];
      CollectIgnoresOrder(a[..n], u + v);
      MoveToEnd(u, x, v);
      CollectMore(a[..n], x);
      CollectMore(u + v, x);
    }
  }

  /** Texts with the same tokens in any order are accepted alike, with the same result. */
  lemma TokenOrderIsImmaterial(s: string, t: string)
    requires multiset(Split(s, ':')) == multiset(Split(t, ':'))
    ensures Parse(s) == Parse(t)
  {
    CollectIgnoresOrder(Split(s, ':'), Split(t, ':'));
    EmptyTextHasNoFields();
  }

  lemma EmptyTextHasNoFields()
    ensures Collect(Split("", ':')) == None
  {
    assert Split("", ':') == [""];
    assert [""][..0] == [];
    assert KeyValue("") == None;
  }

  // ---------------------------------------------------------------- agreement with the typed constructor

  datatype SpecError = MixedCpuGpu | ZeroValue(key: string)

  /** Numbers as a caller would give them, zero included. */
  datatype Parts = Parts(p: Option<U32>, t: Option<U32>, c: Option<U32>, m: Option<Memory>, g: Option<U32>)

  function FromParts(x: Parts): Result<ResourceSpec, SpecError> {
    var anyCpu := x.p.Some? || x.t.Some? || x.c.Some? || x.m.Some?;
    if x.g.Some? && anyCpu then Err(MixedCpuGpu)
    else if x.g.Some? then if x.g.value == 0 then Err(ZeroValue("gpus")) else Ok(GPU(x.g.value))
    else if x.p == Some(0) then Err(ZeroValue("processes"))
    else if x.t == Some(0) then Err(ZeroValue("threads"))
    else if x.c == Some(0) then Err(ZeroValue("cores"))
    else Ok(CPU(NonZero(x.p), NonZero(x.t), NonZero(x.c), x.m))
  }

  function NonZero(n: Option<U32>): Option<Positive>
    requires n != Some(0)
  {
    match n
    case None => None
    case Some(v) => Some(v)
  }

  /** The constructor fails exactly on both flavours at once or on a zero, and names the
      first zero. */
  lemma FromPartsFailsExactly(x: Parts)
    ensures var cpu := x.p.Some? || x.t.Some? || x.c.Some? || x.m.Some?;
            && (FromParts(x) == Err(MixedCpuGpu) <==> cpu && x.g.Some?)
            && (FromParts(x) == Err(ZeroValue("gpus")) <==> !cpu && x.g == Some(0))
            && (FromParts(x) == Err(ZeroValue("processes")) <==> x.g.None? && x.p == Some(0))
            && (FromParts(x) == Err(ZeroValue("threads")) <==> x.g.None? && x.p != Some(0) && x.t == Some(0))
            && (FromParts(x) == Err(ZeroValue("cores")) <==> x.g.None? && x.p != Some(0) && x.t != Some(0) && x.c == Some(0))
            && (FromParts(x).Ok? <==> !(cpu && x.g.Some?) && x.p != Some(0) && x.t != Some(0) && x.c != Some(0) && x.g != Some(0))
  {
    assert "gpus"[0] == 'g' && "processes"[0] == 'p' && "threads"[0] == 't' && "cores"[0] == 'c';
  }

  /** The values given for a key, in order. */
  function Given(tokens: seq<string>, key: string): seq<string> {
    if tokens == [] then []
    else
      var kv := KeyValue(tokens[|tokens| - 1]);
      Given(tokens[..|tokens| - 1], key) + if kv.Some? && kv.value.0 == key then [kv.value.1] else []
  }

  /** The key is absent, or given once with a value that parses. */
  predicate Reading<T(==)>(values: seq<string>, parse: string -> Option<T>, part: Option<T>) {
    match part
    case None => values == []
    case Some(v) => |values| == 1 && parse(values[0]) == part
  }

  predicate AllPairs(tokens: seq<string>) {
    forall k :: 0 <= k < |tokens| ==> KeyValue(tokens[k]).Some?
  }

  /** What the tokens say, without regard to their order. */
  predicate Says(tokens: seq<string>, x: Parts) {
    && AllPairs(tokens)
    && Reading(Given(tokens, "p"), ParseU32, x.p)
    && Reading(Given(tokens, "t"), ParseU32, x.t)
    && Reading(Given(tokens, "c"), ParseU32, x.c)
    && Reading(Given(tokens, "m"), ParseMemory, x.m)
    && Reading(Given(tokens, "g"), ParseU32, x.g)
  }

  predicate SaysPositive(tokens: seq<string>, f: Fields) {
    && AllPairs(tokens)
    && Reading(Given(tokens, "p"), ParseCount, f.p)
    && Reading(Given(tokens, "t"), ParseCount, f.t)
    && Reading(Given(tokens, "c"), ParseCount, f.c)
    && Reading(Given(tokens, "m"), ParseMemory, f.m)
    && Reading(Given(tokens, "g"), ParseCount, f.g)
  }

  function Without(f: Fields, key: string): Fields {
    match key
    case "p" => f.(p := None)
    case "t" => f.(t := None)
    case "c" => f.(c := None)
    case "m" => f.(m := None)
    case _ => f.(g := None)
  }

  lemma PutDetermines(f: Fields, before: Fields, key: string, value: string)
    requires IsKey(key)
    ensures Put(before, key, value) == Some(f) ==> before == Without(f, key)
    ensures Put(Without(f, key), key, value) == Some(f) <==>
            match key
            case "p" => f.p.Some? && ParseCount(value) == f.p
            case "t" => f.t.Some? && ParseCount(value) == f.t
            case "c" => f.c.Some? && ParseCount(value) == f.c
            case "m" => f.m.Some? && ParseMemory(value) == f.m
            case _ => f.g.Some? && ParseCount(value) == f.g
  {
  }

  /** The loop's five variables hold exactly what the tokens say. */
  lemma {:induction false} CollectMeansSays(tokens: seq<string>, f: Fields)
    ensures Collect(tokens) == Some(f) <==> SaysPositive(tokens, f)
    decreases |tokens|
  {
    if tokens != [] {
      var init, last := tokens[..|tokens| - 1], tokens[|tokens| - 1];
      assert tokens == init + [last];
      var kv := KeyValue(last);
      if kv.Some? {
        var (key, value) := kv.value;
        var less := Without(f, key);
        CollectMeansSays(init, less);
        if Collect(init).Some? {
          PutDetermines(f, Collect(init).value, key, value);
        }
        PutDetermines(f, less, key, value);
        SaysMore(init, last, f);
      } else {
        assert !AllPairs(tokens);
      }
    }
  }

  lemma ReadingMore<T>(values: seq<string>, value: string, parse: string -> Option<T>, part: Option<T>)
    ensures Reading(values + [value], parse, part) <==> values == [] && part.Some? && parse(value) == part
  {
  }

  lemma SaysMore(init: seq<string>, last: string, f: Fields)
    requires KeyValue(last).Some?
    ensures var (key, value) := KeyValue(last).value;
            SaysPositive(init + [last], f) <==>
            SaysPositive(init, Without(f, key)) && Put(Without(f, key), key, value) == Some(f)
  {
    var (key, value) := KeyValue(last).value;
    var tokens := init + [last];
    assert AllPairs(tokens) <==> AllPairs(init) by {
      assert forall k :: 0 <= k < |init| ==> tokens[k] == init[k];
      assert tokens[|init|] == last;
    }
    PutDetermines(f, f, key, value);
    GivenMore(init, last, "p");
    GivenMore(init, last, "t");
    GivenMore(init, last, "c");
    GivenMore(init, last, "m");
    GivenMore(init, last, "g");
    match key {
      case "p" => ReadingMore(Given(init, key), value, ParseCount, f.p);
      case "t" => ReadingMore(Given(init, key), value, ParseCount, f.t);
      case "c" => ReadingMore(Given(init, key), value, ParseCount, f.c);
      case "m" => ReadingMore(Given(init, key), value, ParseMemory, f.m);
      case _ => ReadingMore(Given(init, key), value, ParseCount, f.g);
    }
  }

  lemma GivenMore(init: seq<string>, last: string, key: string)
    requires KeyValue(last).Some?
    ensures Given(init + [last], key) == if KeyValue(last).value.0 == key then Given(init, key) + [KeyValue(last).value.1] else Given(init, key)
  {
    var tokens := init + [last];
    assert tokens[..|tokens| - 1] == init;
  }

  function Widen(n: Option<Positive>): Option<U32> {
    match n
    case None => None
    case Some(v) => Some(v)
  }

  predicate NoZeros(x: Parts) {
    x.p != Some(0) && x.t != Some(0) && x.c != Some(0) && x.g != Some(0)
  }

  function FieldsOf(x: Parts): Fields
    requires NoZeros(x)
  {
    Fields(NonZero(x.p), NonZero(x.t), NonZero(x.c), x.m, NonZero(x.g))
  }

  lemma ReadingPositive(values: seq<string>, n: Option<U32>)
    requires n != Some(0)
    ensures Reading(values, ParseU32, n) <==> Reading(values, ParseCount, NonZero(n))
  {
  }

  lemma SaysIsSaysPositive(tokens: seq<string>, x: Parts)
    requires NoZeros(x)
    ensures Says(tokens, x) <==> Collect(tokens) == Some(FieldsOf(x))
  {
    ReadingPositive(Given(tokens, "p"), x.p);
    ReadingPositive(Given(tokens, "t"), x.t);
    ReadingPositive(Given(tokens, "c"), x.c);
    ReadingPositive(Given(tokens, "g"), x.g);
    CollectMeansSays(tokens, FieldsOf(x));
  }

  lemma FlavourIsFromParts(x: Parts, r: ResourceSpec)
    ensures FromParts(x) == Ok(r) && x != Parts(None, None, None, None, None) <==> NoZeros(x) && Flavour(FieldsOf(x)) == Some(r)
  {
  }

  lemma AcceptedTextGivesParts(s: string, r: ResourceSpec) returns (x: Parts)
    requires Parse(s) == Some(r)
    ensures Says(Split(s, ':'), x) && FromParts(x) == Ok(r)
  {
    var f := Collect(Split(s, ':')).value;
    x := Parts(Widen(f.p), Widen(f.t), Widen(f.c), f.m, Widen(f.g));
    assert FieldsOf(x) == f;
    SaysIsSaysPositive(Split(s, ':'), x);
    FlavourIsFromParts(x, r);
  }

  lemma PartsGiveAcceptedText(s: string, r: ResourceSpec, x: Parts)
    requires Says(Split(s, ':'), x) && FromParts(x) == Ok(r)
    ensures Parse(s) == Some(r)
  {
    EmptyTextHasNoFields();
    SomethingGiven(Split(s, ':'), x);
    FlavourIsFromParts(x, r);
    SaysIsSaysPositive(Split(s, ':'), x);
  }

  /** The text is accepted exactly when every token is a known `key=value`, no key is
      repeated, and the typed constructor accepts the numbers they give; and both then
      give the same specification. */
  lemma {:induction false} AgreesWithFromParts(s: string, r: ResourceSpec)
    ensures Parse(s) == Some(r) <==> exists x :: Says(Split(s, ':'), x) && FromParts(x) == Ok(r)
  {
    if Parse(s) == Some(r) {
      var x := AcceptedTextGivesParts(s, r);
    }
    forall x | Says(Split(s, ':'), x) && FromParts(x) == Ok(r)
      ensures Parse(s) == Some(r)
    {
      PartsGiveAcceptedText(s, r, x);
    }
  }

  lemma SomethingGiven(tokens: seq<string>, x: Parts)
    requires Says(tokens, x) && tokens != []
    ensures x != Parts(None, None, None, None, None)
  {
    var last := tokens[|tokens| - 1];
    assert KeyValue(last).Some?;
    var key := KeyValue(last).value.0;
    assert Given(tokens, key) != [];
  }

  // ---------------------------------------------------------------- printing

  function CountToken(key: string, n: Option<Positive>): seq<string> {
    match n
    case None => []
    case Some(v) => [key + ['='] + Dec(v)]
  }

  function MemoryToken(m: Option<Memory>): seq<string> {
    match m
    case None => []
    case Some(v) => ["m" + ['='] + PrintMemory(v)]
  }

  function Tokens(r: ResourceSpec): seq<string> {
    match r
    case CPU(p, t, c, m) => CountToken("p", p) + CountToken("t", t) + CountToken("c", c) + MemoryToken(m)
    case GPU(g) => CountToken("g", Some(g))
  }

  function Print(r: ResourceSpec): string {
    Join(Tokens(r), ':')
  }

  predicate IsCount(key: string) {
    key == "p" || key == "t" || key == "c" || key == "g"
  }

  function WithCount(f: Fields, key: string, n: Option<Positive>): Fields
    requires IsCount(key)
  {
    if key == "p" then f.(p := n)
    else if key == "t" then f.(t := n)
    else if key == "c" then f.(c := n)
    else f.(g := n)
  }

  lemma TokenIsKeyValue(key: string, value: string)
    requires IsKey(key) && value != "" && ':' !in value
    ensures KeyValue(key + ['='] + value) == Some((key, value))
    ensures ':' !in key + ['='] + value
  {
    SplitOnceAt(key, value, '=');
  }

  lemma PutCount(f: Fields, key: string, n: Positive)
    requires IsCount(key) && WithCount(f, key, None) == f
    ensures Put(f, key, Dec(n)) == Some(WithCount(f, key, Some(n)))
  {
    ParseOfDec(n, U32_MAX);
  }

  lemma {:induction false} CountTokenCollects(tokens: seq<string>, key: string, n: Option<Positive>)
    requires IsCount(key) && Collect(tokens).Some?
    requires WithCount(Collect(tokens).value, key, None) == Collect(tokens).value
    ensures Collect(tokens + CountToken(key, n)) == Some(WithCount(Collect(tokens).value, key, n))
    ensures forall token :: token in CountToken(key, n) ==> ':' !in token
  {
    if n.Some? {
      var token := key + ['='] + Dec(n.value);
      TokenIsKeyValue(key, Dec(n.value));
      PutCount(Collect(tokens).value, key, n.value);
      CollectMore(tokens, token);
    } else {
      assert tokens + CountToken(key, n) == tokens;
    }
  }

  lemma MemoryTokenCollects(tokens: seq<string>, m: Option<Memory>)
    requires Collect(tokens).Some? && Collect(tokens).value.m.None?
    ensures Collect(tokens + MemoryToken(m)) == Some(Collect(tokens).value.(m := m))
    ensures forall token :: token in MemoryToken(m) ==> ':' !in token
  {
    if m.Some? {
      var token := "m" + ['='] + PrintMemory(m.value);
      MemoryRoundTrip(m.value);
      TokenIsKeyValue("m", PrintMemory(m.value));
      CollectMore(tokens, token);
    } else {
      assert tokens + MemoryToken(m) == tokens;
    }
  }

  lemma TokensCollect(r: ResourceSpec)
    ensures Collect(Tokens(r)) == Some(match r case CPU(p, t, c, m) => Fields(p, t, c, m, None) case GPU(g) => Fields(None, None, None, None, Some(g)))
    ensures forall token :: token in Tokens(r) ==> ':' !in token
  {
    match r {
      case CPU(p, t, c, m) =>
        var a := CountToken("p", p);
        var b := a + CountToken("t", t);
        var d := b + CountToken("c", c);
        CountTokenCollects([], "p", p);
        assert [] + a == a;
        CountTokenCollects(a, "t", t);
        CountTokenCollects(b, "c", c);
        MemoryTokenCollects(d, m);
      case GPU(g) =>
        CountTokenCollects([], "g", Some(g));
        assert [] + CountToken("g", Some(g)) == Tokens(r);
    }
  }

  lemma PrintParses(r: ResourceSpec)
    requires r != ALL_DEFAULT
    ensures Parse(Print(r)) == Some(r)
  {
    TokensCollect(r);
    assert Tokens(r) != [];
    SplitOfJoin(Tokens(r), ':');
    EmptyTextHasNoFields();
  }

  /** Every specification comes back, except the one that asks for nothing: it prints
      as the empty text, which is not accepted. No text parses to it. */
  lemma RoundTripExactly(r: ResourceSpec)
    ensures Parse(Print(r)) == Some(r) <==> r != ALL_DEFAULT
    ensures r != ALL_DEFAULT <==> exists s :: Parse(s) == Some(r)
  {
    if r != ALL_DEFAULT {
      PrintParses(r);
    }
  }
}
