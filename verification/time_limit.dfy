/** `--time` limits: six accepted forms, one printed form. */
module TimeLimits {
  import opened Wrappers
  import opened Text
  import opened Arithmetic

  /** A limit is its number of seconds. */
  type Limit = n: nat | 1 <= n <= U32_MAX witness 1

  function Hours(t: Limit): U32 {
    t / 3600
  }

  function Minutes(t: Limit): (r: U32)
    ensures r < 60
  {
    t % 3600 / 60
  }

  function SecondsPart(t: Limit): (r: U32)
    ensures r < 60
  {
    t % 60
  }

  /** `{:02}`. */
  function Pad2(n: nat): string {
    if |Dec(n)| < 2 then "0" + Dec(n) else Dec(n)
  }

  function Print(t: Limit): string {
    Pad2(Hours(t)) + [':'] + (Pad2(Minutes(t)) + [':'] + Pad2(SecondsPart(t)))
  }

  // ---------------------------------------------------------------- parsing

  /** A sum in `u64`: the weights times the components. */
  function Sum(d: U32, h: U32, m: U32, sec: U32): (total: U64) {
    d * 86_400 + h * 3_600 + m * 60 + sec
  }

  /** After a days component: hours, then minutes, then seconds. */
  function AfterDays(d: U32, ns: seq<U32>): Option<U64> {
    match |ns|
    case 1 => Some(Sum(d, ns[0], 0, 0))
    case 2 => Some(Sum(d, ns[0], ns[1], 0))
    case 3 => Some(Sum(d, ns[0], ns[1], ns[2]))
    case _ => None
  }

  /** Without days, a single component counts minutes and two are minutes and seconds. */
  function WithoutDays(ns: seq<U32>): Option<U64> {
    match |ns|
    case 1 => Some(Sum(0, 0, ns[0], 0))
    case 2 => Some(Sum(0, 0, ns[0], ns[1]))
    case 3 => Some(Sum(0, ns[0], ns[1], ns[2]))
    case _ => None
  }

  function ParseNumbers(s: string): Option<seq<U32>> {
    Traverse(ParseU32, Split(s, ':'))
  }

  function ParseTotal(s: string): Option<U64> {
    match SplitOnce(s, '-')
    case Some(p) =>
      if p.0 == "" || p.1 == "" then None
      else
        (match (ParseU32(p.0), ParseNumbers(p.1))
         case (Some(d), Some(ns)) => AfterDays(d, ns)
         case _ => None)
    case None =>
      match ParseNumbers(s)
      case Some(ns) => WithoutDays(ns)
      case None => None
  }

  function Parse(s: string): Option<Limit> {
    if s == "" then None
    else
      match ParseTotal(s)
      case None => None
      case Some(total) => if 1 <= total <= U32_MAX then Some(total) else None
  }

  // ---------------------------------------------------------------- the six forms

  /** A time as it can be written, component by component. */
  datatype Form =
    | M(m: string)
    | MS(m: string, s: string)
    | HMS(h: string, m: string, s: string)
    | DH(d: string, h: string)
    | DHM(d: string, h: string, m: string)
    | DHMS(d: string, h: string, m: string, s: string)

  function Components(f: Form): seq<string> {
    match f
    case M(m) => [m]
    case MS(m, s) => [m, s]
    case HMS(h, m, s) => [h, m, s]
    case DH(_, h) => [h]
    case DHM(_, h, m) => [h, m]
    case DHMS(_, h, m, s) => [h, m, s]
  }

  predicate HasDays(f: Form) {
    f.DH? || f.DHM? || f.DHMS?
  }

  function TextOf(f: Form): string {
    var clock := Join(Components(f), ':');
    if HasDays(f) then f.d + ['-'] + clock else clock
  }

  predicate IsNumber(s: string) {
    ParseU32(s).Some?
  }

  predicate WellFormed(f: Form) {
    (forall c :: c in Components(f) ==> IsNumber(c)) && (HasDays(f) ==> IsNumber(f.d))
  }

  function Number(s: string): U32
    requires IsNumber(s)
  {
    ParseU32(s).value
  }

  /** The duration in seconds, over the unbounded numbers. */
  function Duration(f: Form): nat
    requires WellFormed(f)
  {
    match f
    case M(m) => Number(m) * 60
    case MS(m, s) => Number(m) * 60 + Number(s)
    case HMS(h, m, s) => Number(h) * 3600 + Number(m) * 60 + Number(s)
    case DH(d, h) => Number(d) * 86400 + Number(h) * 3600
    case DHM(d, h, m) => Number(d) * 86400 + Number(h) * 3600 + Number(m) * 60
    case DHMS(d, h, m, s) => Number(d) * 86400 + Number(h) * 3600 + Number(m) * 60 + Number(s)
  }

  lemma NumbersHoldNoSeparator(s: string)
    requires IsNumber(s)
    ensures ':' !in s && '-' !in s && s != ""
  {
    var digits := if s != "" && s[0] == '+' then s[1..] else s;
    forall i | 0 <= i < |s|
      ensures s[i] != ':' && s[i] != '-'
    {
      if s[0] != '+' || i > 0 {
        assert IsDigit(digits[if s[0] == '+' then i - 1 else i]);
      }
    }
  }

  lemma ComponentsSplit(f: Form)
    requires WellFormed(f)
    ensures var clock := Join(Components(f), ':');
            Split(clock, ':') == Components(f) && '-' !in clock && clock != ""
  {
    forall c | c in Components(f)
      ensures ':' !in c && '-' !in c && c != ""
    {
      NumbersHoldNoSeparator(c);
    }
    SplitOfJoin(Components(f), ':');
    NotInJoin(Components(f), ':', '-');
    assert Components(f)[0] in Components(f);
  }

  function Numbers(f: Form): seq<U32>
    requires WellFormed(f)
  {
    match f
    case M(m) => [Number(m)]
    case MS(m, s) => [Number(m), Number(s)]
    case HMS(h, m, s) => [Number(h), Number(m), Number(s)]
    case DH(_, h) => [Number(h)]
    case DHM(_, h, m) => [Number(h), Number(m)]
    case DHMS(_, h, m, s) => [Number(h), Number(m), Number(s)]
  }

  lemma {:induction false} NumbersAreParsed(f: Form)
    requires WellFormed(f)
    ensures ParseNumbers(Join(Components(f), ':')) == Some(Numbers(f))
  {
    ComponentsSplit(f);
    var ns := Traverse(ParseU32, Components(f));
    forall k | 0 <= k < |Components(f)|
      ensures ns.value[k] == Numbers(f)[k]
    {
      assert Components(f)[k] in Components(f);
    }
    assert ns.value == Numbers(f);
  }

  lemma DaysThenClock(days: string, clock: string)
    requires IsNumber(days) && clock != ""
    ensures var numbers := ParseNumbers(clock);
            ParseTotal(days + ['-'] + clock) == if numbers.Some? then AfterDays(Number(days), numbers.value) else None
  {
    NumbersHoldNoSeparator(days);
    SplitOnceAt(days, clock, '-');
  }

  lemma {:induction false} SumsAreDurations(f: Form)
    requires WellFormed(f)
    ensures (if HasDays(f) then AfterDays(Number(f.d), Numbers(f)) else WithoutDays(Numbers(f))) == Some(Duration(f))
  {
  }

  /** What is written in one of the six forms is read as its duration, in `u64`. */
  lemma FormsAreRead(f: Form)
    requires WellFormed(f)
    ensures TextOf(f) != "" && ParseTotal(TextOf(f)) == Some(Duration(f))
  {
    var clock := Join(Components(f), ':');
    ComponentsSplit(f);
    NumbersAreParsed(f);
    SumsAreDurations(f);
    if HasDays(f) {
      DaysThenClock(f.d, clock);
    }
  }

  lemma {:induction false} ReadTextsAreForms(s: string) returns (f: Form)
    requires ParseTotal(s).Some?
    ensures WellFormed(f) && TextOf(f) == s
  {
    match SplitOnce(s, '-') {
      case Some(p) =>
        var parts := Split(p.1, ':');
        JoinOfSplit(p.1, ':');
        f := if |parts| == 1 then DH(p.0, parts[0])
             else if |parts| == 2 then DHM(p.0, parts[0], parts[1])
             else DHMS(p.0, parts[0], parts[1], parts[2]);
        assert Components(f) == parts;
      case None =>
        var parts := Split(s, ':');
        JoinOfSplit(s, ':');
        f := if |parts| == 1 then M(parts[0])
             else if |parts| == 2 then MS(parts[0], parts[1])
             else HMS(parts[0], parts[1], parts[2]);
        assert Components(f) == parts;
    }
  }

  /** A text is accepted with a limit exactly when it is one of the six forms, all its
      components are numbers, and its duration is that limit: neither zero nor beyond
      `u32`. */
  lemma AcceptedExactly(s: string, t: Limit)
    ensures Parse(s) == Some(t) <==> exists f :: WellFormed(f) && TextOf(f) == s && Duration(f) == t
  {
    if Parse(s) == Some(t) {
      var f := ReadTextsAreForms(s);
      FormsAreRead(f);
    }
    forall f | WellFormed(f) && TextOf(f) == s && Duration(f) == t
      ensures Parse(s) == Some(t)
    {
      FormsAreRead(f);
    }
  }

  /** Well-formed components are rejected exactly when they add up to nothing or to
      more than `u32` holds. */
  lemma RejectedExactly(f: Form)
    requires WellFormed(f)
    ensures Parse(TextOf(f)).None? <==> Duration(f) == 0 || Duration(f) > U32_MAX
  {
    FormsAreRead(f);
  }

  // ---------------------------------------------------------------- round trip

  lemma PaddedNumber(n: U32)
    ensures ParseU32(Pad2(n)) == Some(n)
  {
    ValueOfDec(n);
    ValueOfPadded(Dec(n));
    assert Dec(n)[0] != '+';
  }

  /** Every limit is read back from its printed form, whose hours are not bounded. */
  lemma {:induction false} RoundTrip(t: Limit)
    ensures Parse(Print(t)) == Some(t)
  {
    var f := HMS(Pad2(Hours(t)), Pad2(Minutes(t)), Pad2(SecondsPart(t)));
    PaddedNumber(Hours(t));
    PaddedNumber(Minutes(t));
    PaddedNumber(SecondsPart(t));
    ComponentsAddUp(t);
    ThreeComponents(f.h, f.m, f.s);
    ThreeNumbers(f.h, f.m, f.s);
    FormsAreRead(f);
  }

  lemma ThreeNumbers(h: string, m: string, s: string)
    requires IsNumber(h) && IsNumber(m) && IsNumber(s)
    ensures WellFormed(HMS(h, m, s))
    ensures Duration(HMS(h, m, s)) == Number(h) * 3600 + Number(m) * 60 + Number(s)
  {
  }

  lemma ComponentsAddUp(t: Limit)
    ensures Hours(t) * 3600 + Minutes(t) * 60 + SecondsPart(t) == t
  {
    var rest := t % 3600;
    assert t == 60 * (60 * Hours(t) + Minutes(t)) + rest % 60;
    QuotientIs(t, 60, 60 * Hours(t) + Minutes(t), rest % 60);
  }

  lemma ThreeComponents(h: string, m: string, s: string)
    ensures TextOf(HMS(h, m, s)) == h + [':'] + (m + [':'] + s)
  {
    assert [h, m, s][1..] == [m, s];
    assert [m, s][1..] == [s];
    assert Join([s], ':') == s;
    assert Join([m, s], ':') == m + [':'] + s;
  }

  lemma ShortNumbers(n: nat)
    ensures |Dec(n)| <= 2 <==> n < 100
  {
    if n >= 10 {
      assert n / 10 < 10 <==> n < 100;
      assert |Dec(n / 10)| == 1 <==> n / 10 < 10;
    }
  }

  /** Minutes and seconds are printed with two digits, and hours with two or more. */
  lemma PrintedWidths(t: Limit)
    ensures |Pad2(Minutes(t))| == 2 && |Pad2(SecondsPart(t))| == 2
    ensures |Pad2(Hours(t))| == if Hours(t) < 100 then 2 else |Dec(Hours(t))|
  {
    ShortNumbers(Minutes(t));
    ShortNumbers(SecondsPart(t));
    ShortNumbers(Hours(t));
  }

  /** All texts of one duration print alike: printing is canonical. */
  lemma PrintIsCanonical(f: Form, g: Form)
    requires WellFormed(f) && WellFormed(g)
    requires Parse(TextOf(f)).Some? && Parse(TextOf(g)).Some?
    ensures Print(Parse(TextOf(f)).value) == Print(Parse(TextOf(g)).value) <==> Duration(f) == Duration(g)
  {
    FormsAreRead(f);
    FormsAreRead(g);
    RoundTrip(Duration(f));
    RoundTrip(Duration(g));
  }
}
