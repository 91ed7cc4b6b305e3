/** The string operations of Rust's standard library that the parsers and the
    printers are built from: decimal numbers, `split`, `split_once`, `lines` and
    `split_whitespace`. */
module Text {
  import opened Wrappers

  const U32_MAX: nat := 0xFFFF_FFFF
  const U64_MAX: nat := 0xFFFF_FFFF_FFFF_FFFF

  type U32 = n: nat | n <= U32_MAX
  type U64 = n: nat | n <= U64_MAX

  // ---------------------------------------------------------------- numbers

  predicate IsDigit(c: char) {
    '0' <= c <= '9'
  }

  predicate AllDigits(s: string) {
    forall i :: 0 <= i < |s| ==> IsDigit(s[i])
  }

  function DigitChar(d: nat): (c: char)
    requires d < 10
    ensures IsDigit(c) && c as int == '0' as int + d
  {
    ('0' as int + d) as char
  }

  /** The decimal digits of a number, without leading zeros. */
  function Dec(n: nat): (s: string)
    ensures s != "" && AllDigits(s)
  {
    if n < 10 then [DigitChar(n)] else Dec(n / 10) + [DigitChar(n % 10)]
  }

  function Value(s: string): nat
    requires AllDigits(s)
  {
    if s == "" then 0
    else Value(s[..|s| - 1]) * 10 + (s[|s| - 1] as int - '0' as int)
  }

  /** `str::parse` for an unsigned integer type with the given maximum: one
      optional leading `+`, then at least one digit, and no overflow. */
  function ParseUnsigned(s: string, max: nat): (r: Option<nat>)
    ensures r.Some? ==> r.value <= max
  {
    var digits := if s != "" && s[0] == '+' then s[1..] else s;
    if digits == "" || !AllDigits(digits) then None
    else if Value(digits) <= max then Some(Value(digits))
    else None
  }

  const I32_MAX: int := 0x7FFF_FFFF
  const I32_MIN: int := -0x8000_0000

  /** `str::parse::<i32>`: one optional sign, at least one digit, and no overflow. */
  function ParseI32(s: string): (r: Option<int>)
    ensures r.Some? ==> I32_MIN <= r.value <= I32_MAX
  {
    var negative := s != "" && s[0] == '-';
    var digits := if s != "" && (s[0] == '+' || s[0] == '-') then s[1..] else s;
    if digits == "" || !AllDigits(digits) then None
    else
      var v: int := Value(digits);
      var n := if negative then -v else v;
      if I32_MIN <= n <= I32_MAX then Some(n) else None
  }

  function ParseU32(s: string): (r: Option<U32>) {
    ParseUnsigned(s, U32_MAX)
  }

  function ParseU64(s: string): (r: Option<U64>) {
    ParseUnsigned(s, U64_MAX)
  }

  lemma {:induction false} ValueOfDec(n: nat)
    ensures Value(Dec(n)) == n
  {
    var s := Dec(n);
    if n >= 10 {
      ValueOfDec(n / 10);
      assert s[..|s| - 1] == Dec(n / 10);
    } else {
      assert s[..0] == "";
    }
  }

  lemma ParseOfDec(n: nat, max: nat)
    ensures ParseUnsigned(Dec(n), max) == if n <= max then Some(n) else None
  {
    ValueOfDec(n);
    assert Dec(n)[0] != '+';
  }

  lemma NotInDec(n: nat, c: char)
    requires !IsDigit(c)
    ensures c !in Dec(n)
  {
  }

  /** Leading zeros do not change a value. */
  lemma {:induction false} ValueOfPadded(s: string)
    requires AllDigits(s)
    ensures AllDigits("0" + s) && Value("0" + s) == Value(s)
  {
    var t := "0" + s;
    if s == "" {
      assert t[..0] == "";
    } else {
      assert t[..|t| - 1] == "0" + s[..|s| - 1];
      ValueOfPadded(s[..|s| - 1]);
    }
  }

  // ---------------------------------------------------------------- splitting

  /** `str::split` at one character: always at least one part. */
  function Split<T(==)>(s: seq<T>, c: T): (parts: seq<seq<T>>)
    ensures parts != []
    decreases |s|
  {
    if s == [] then [[]]
    else
      var rest := Split(s[1..], c);
      if s[0] == c then [[]] + rest else [[s[0]] + rest[0]] + rest[1..]
  }

  /** The parts with the separator between neighbours. */
  function Join(parts: seq<string>, c: char): string {
    if parts == [] then ""
    else if |parts| == 1 then parts[0]
    else parts[0] + [c] + Join(parts[1..], c)
  }

  /** `str::split_once`: around the first occurrence. */
  function SplitOnce(s: string, c: char): (r: Option<(string, string)>)
    ensures r.None? <==> c !in s
    ensures r.Some? ==> s == r.value.0 + [c] + r.value.1 && c !in r.value.0
  {
    if s == "" then None
    else if s[0] == c then Some(("", s[1..]))
    else
      match SplitOnce(s[1..], c)
      case None => None
      case Some(p) => Some(([s[0]] + p.0, p.1))
  }

  /** `str::splitn`: at most `n` parts, the last one unsplit. */
  function SplitN(s: string, c: char, n: nat): (parts: seq<string>)
    requires n >= 1
    ensures 1 <= |parts| <= n
    decreases n
  {
    match SplitOnce(s, c)
    case None => [s]
    case Some(p) => if n == 1 then [s] else [p.0] + SplitN(p.1, c, n - 1)
  }

  lemma {:induction false} SplitAppend(a: string, b: string, c: char)
    requires c !in a
    ensures Split(a + [c] + b, c) == [a] + Split(b, c)
    decreases |a|
  {
    var s := a + [c] + b;
    if a == "" {
      assert s[1..] == b;
    } else {
      assert s[1..] == a[1..] + [c] + b;
      SplitAppend(a[1..], b, c);
      assert [a[0]] + a[1..] == a;
    }
  }

  lemma {:induction false} SplitWhole(a: string, c: char)
    requires c !in a
    ensures Split(a, c) == [a]
    decreases |a|
  {
    if a != "" {
      SplitWhole(a[1..], c);
      assert [a[0]] + a[1..] == a;
    }
  }

  /** Splitting undoes joining when no part holds the separator. */
  lemma {:induction false} SplitOfJoin(parts: seq<string>, c: char)
    requires parts != []
    requires forall p :: p in parts ==> c !in p
    ensures Split(Join(parts, c), c) == parts
    decreases |parts|
  {
    if |parts| == 1 {
      SplitWhole(parts[0], c);
    } else {
      SplitOfJoin(parts[1..], c);
      SplitAppend(parts[0], Join(parts[1..], c), c);
      assert [parts[0]] + parts[1..] == parts;
    }
  }

  /** Joining undoes splitting, with no condition. */
  lemma {:induction false} JoinOfSplit(s: string, c: char)
    ensures Join(Split(s, c), c) == s
    decreases |s|
  {
    if s != "" {
      JoinOfSplit(s[1..], c);
      var rest := Split(s[1..], c);
      if s[0] == c {
        assert Split(s, c)[1..] == rest;
      } else {
        var parts := Split(s, c);
        assert parts[1..] == rest[1..];
        if |rest| > 1 {
          assert [s[0]] + (rest[0] + [c] + Join(rest[1..], c)) == parts[0] + [c] + Join(parts[1..], c);
        }
      }
    }
  }

  lemma {:induction false} SplitOnceAt(a: string, b: string, c: char)
    requires c !in a
    ensures SplitOnce(a + [c] + b, c) == Some((a, b))
    decreases |a|
  {
    var s := a + [c] + b;
    if a == "" {
      assert s[1..] == b;
    } else {
      assert s[1..] == a[1..] + [c] + b;
      SplitOnceAt(a[1..], b, c);
      assert [a[0]] + a[1..] == a;
    }
  }

  /** Joining one part more. */
  lemma {:induction false} JoinOfMore(parts: seq<string>, last: string, c: char)
    ensures Join(parts + [last], c) == if parts == [] then last else Join(parts, c) + [c] + last
    decreases |parts|
  {
    var all := parts + [last];
    if parts != [] {
      assert all[1..] == parts[1..] + [last];
      JoinOfMore(parts[1..], last, c);
    }
  }

  /** What a printing loop has after part `k`. */
  lemma {:induction false} JoinPrefix(parts: seq<string>, k: nat, c: char)
    requires k < |parts|
    ensures Join(parts[..k + 1], c) == if k == 0 then parts[0] else Join(parts[..k], c) + [c] + parts[k]
  {
    JoinOfMore(parts[..k], parts[k], c);
    assert parts[..k + 1] == parts[..k] + [parts[k]];
  }

  lemma SplitNAt(a: string, b: string, c: char, n: nat)
    requires c !in a && n >= 2
    ensures SplitN(a + [c] + b, c, n) == [a] + SplitN(b, c, n - 1)
  {
    SplitOnceAt(a, b, c);
  }

  lemma {:induction false} NotInJoin(parts: seq<string>, c: char, x: char)
    requires x != c
    requires forall p :: p in parts ==> x !in p
    ensures x !in Join(parts, c)
    decreases |parts|
  {
    if |parts| > 1 {
      NotInJoin(parts[1..], c, x);
    }
  }

  /** `iter().map(f).collect()` into an `Option`: all results, or the first failure. */
  function Traverse<A, B>(f: A -> Option<B>, xs: seq<A>): (r: Option<seq<B>>)
    ensures r.Some? <==> forall x :: x in xs ==> f(x).Some?
    ensures r.Some? ==> |r.value| == |xs|
    ensures r.Some? ==> forall i :: 0 <= i < |xs| ==> f(xs[i]) == Some(r.value[i])
    decreases |xs|
  {
    if xs == [] then Some([])
    else
      match f(xs[0])
      case None => None
      case Some(y) =>
        match Traverse(f, xs[1..])
        case None => None
        case Some(ys) => Some([y] + ys)
  }

  function Map<A, B>(f: A -> B, xs: seq<A>): (ys: seq<B>)
    ensures |ys| == |xs|
    ensures forall i :: 0 <= i < |xs| ==> ys[i] == f(xs[i])
  {
    if xs == [] then [] else [f(xs[0])] + Map(f, xs[1..])
  }

  /** Collecting the parses of printed values gives the values back. */
  lemma TraverseOfMap<A, B>(show: A -> B, parse: B -> Option<A>, xs: seq<A>)
    requires forall x :: x in xs ==> parse(show(x)) == Some(x)
    ensures Traverse(parse, Map(show, xs)) == Some(xs)
  {
    var ys := Map(show, xs);
    forall y | y in ys
      ensures parse(y).Some?
    {
      var i :| 0 <= i < |ys| && ys[i] == y;
      assert xs[i] in xs;
    }
    var zs := Traverse(parse, ys).value;
    forall i | 0 <= i < |xs|
      ensures zs[i] == xs[i]
    {
      assert xs[i] in xs;
    }
    assert zs == xs;
  }

  // ---------------------------------------------------------------- lines and words

  /** The Unicode `White_Space` property. */
  predicate IsSpace(c: char) {
    || '\U{0009}' <= c <= '\U{000D}'
    || c == ' ' || c == '\U{0085}' || c == '\U{00A0}' || c == '\U{1680}'
    || '\U{2000}' <= c <= '\U{200A}'
    || c == '\U{2028}' || c == '\U{2029}' || c == '\U{202F}' || c == '\U{205F}' || c == '\U{3000}'
  }

  function DropWhileSpace(s: string): (r: string)
    ensures |r| <= |s|
    ensures r != "" ==> !IsSpace(r[0])
  {
    if s != "" && IsSpace(s[0]) then DropWhileSpace(s[1..]) else s
  }

  function TakeWord(s: string): (w: string)
    ensures |w| <= |s| && s[..|w|] == w
    ensures s != "" && !IsSpace(s[0]) ==> w != ""
  {
    if s == "" || IsSpace(s[0]) then "" else [s[0]] + TakeWord(s[1..])
  }

  /** `str::split_whitespace`. */
  function Words(s: string): seq<string>
    decreases |s|
  {
    var t := DropWhileSpace(s);
    if t == "" then [] else [TakeWord(t)] + Words(t[|TakeWord(t)|..])
  }

  function TrimEnd(s: string): string {
    if s != "" && IsSpace(s[|s| - 1]) then TrimEnd(s[..|s| - 1]) else s
  }

  /** `str::trim`. */
  function Trim(s: string): string {
    TrimEnd(DropWhileSpace(s))
  }

  /** A line as `str::lines` yields it when a newline ended it. */
  function StripCr(s: string): string {
    if s != "" && s[|s| - 1] == '\r' then s[..|s| - 1] else s
  }

  /** `str::lines`: newlines end lines, a carriage return before a newline goes
      with it, and text after the last newline is a line of its own. */
  function Lines(s: string): seq<string>
    decreases |s|
  {
    match SplitOnce(s, '\n')
    case None => if s == "" then [] else [s]
    case Some(p) => [StripCr(p.0)] + Lines(p.1)
  }

  /** The text of a listing: every line ended by a newline. */
  function Unlines(lines: seq<string>): string {
    if lines == [] then "" else lines[0] + "\n" + Unlines(lines[1..])
  }

  predicate PlainLine(line: string) {
    '\n' !in line && '\r' !in line
  }

  lemma {:induction false} LinesOfUnlines(lines: seq<string>)
    requires forall l :: l in lines ==> PlainLine(l)
    ensures Lines(Unlines(lines)) == lines
    decreases |lines|
  {
    if lines != [] {
      var rest := Unlines(lines[1..]);
      assert lines[0] in lines;
      assert Unlines(lines) == lines[0] + ['\n'] + rest;
      SplitOnceAt(lines[0], rest, '\n');
      LinesOfUnlines(lines[1..]);
      assert StripCr(lines[0]) == lines[0];
    }
  }

  predicate IsPrefix(p: string, s: string) {
    |p| <= |s| && s[..|p|] == p
  }

  /** `str::contains` for a pattern string. */
  predicate Contains(s: string, pattern: string) {
    IsPrefix(pattern, s) || (s != "" && Contains(s[1..], pattern))
  }

  /** `str::split_once` for a pattern string. */
  function SplitOnceStr(s: string, pattern: string): Option<(string, string)> {
    if IsPrefix(pattern, s) then Some(("", s[|pattern|..]))
    else if s == "" then None
    else
      match SplitOnceStr(s[1..], pattern)
      case None => None
      case Some(p) => Some(([s[0]] + p.0, p.1))
  }
}
