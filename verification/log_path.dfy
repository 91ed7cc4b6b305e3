/** Log path templates: six substitution passes, one after the other, against one
    simultaneous left-to-right substitution. */
module LogPaths {
  import opened Wrappers
  import opened Text

  /** What the tokens stand for. A task id or a job name may be missing. */
  datatype Values = Values(jobid: U64, task: Option<U32>, name: Option<string>, user: string, host: string)

  function ValueOf(v: Values, c: char): Option<string> {
    if c == 'A' || c == 'j' then Some(Dec(v.jobid))
    else if c == 'a' then (if v.task.Some? then Some(Dec(v.task.value)) else None)
    else if c == 'x' then v.name
    else if c == 'u' then Some(v.user)
    else if c == 'N' then Some(v.host)
    else None
  }

  /** Job name and user, the free texts that a later pass goes over, hold no percent
      sign. The host goes in last. */
  predicate NoPercent(v: Values) {
    (v.name.Some? ==> '%' !in v.name.value) && '%' !in v.user
  }

  /** The order of the passes. */
  const PASSES: string := "AjaxuN"

  // ---------------------------------------------------------------- the two substitutions

  /** `str::replace` of the token `%c`. */
  function Replace(s: string, c: char, value: string): string {
    if |s| >= 2 && s[0] == '%' && s[1] == c then value + Replace(s[2..], c, value)
    else if s == "" then ""
    else [s[0]] + Replace(s[1..], c, value)
  }

  function PassOver(s: string, v: Values, passes: string): string
    decreases |passes|
  {
    if passes == "" then s
    else
      match ValueOf(v, passes[0])
      case None => PassOver(s, v, passes[1..])
      case Some(value) => PassOver(Replace(s, passes[0], value), v, passes[1..])
  }

  /** Every token replaced where it stands, nothing replaced inside a value. */
  function Simultaneous(s: string, v: Values): string {
    if |s| >= 2 && s[0] == '%' && ValueOf(v, s[1]).Some? then ValueOf(v, s[1]).value + Simultaneous(s[2..], v)
    else if s == "" then ""
    else [s[0]] + Simultaneous(s[1..], v)
  }

  /** `resolve_log_path_with`. */
  method ResolveLogPath(template: string, v: Values) returns (s: string)
    ensures s == PassOver(template, v, PASSES)
    ensures NoPercent(v) && !StrayBefore(template, 'u') && (v.name.Some? ==> !StrayBefore(template, 'x')) ==>
              s == Simultaneous(template, v)
  {
    var jobid := Dec(v.jobid);
    s := template;
    PassStep(s, v, 0);
    s := Replace(s, 'A', jobid);
    PassStep(s, v, 1);
    s := Replace(s, 'j', jobid);
    PassStep(s, v, 2);
    if v.task.Some? {
      s := Replace(s, 'a', Dec(v.task.value));
    }
    PassStep(s, v, 3);
    if v.name.Some? {
      s := Replace(s, 'x', v.name.value);
    }
    PassStep(s, v, 4);
    s := Replace(s, 'u', v.user);
    PassStep(s, v, 5);
    s := Replace(s, 'N', v.host);
    if NoPercent(v) && !StrayBefore(template, 'u') && (v.name.Some? ==> !StrayBefore(template, 'x')) {
      SafeTemplatesAgree(template, v);
    }
  }

  /** One pass, if the k-th token has a value. */
  function PassAt(s: string, v: Values, k: nat): string
    requires k < |PASSES|
  {
    match ValueOf(v, PASSES[k])
    case None => s
    case Some(value) => Replace(s, PASSES[k], value)
  }

  lemma PassStep(s: string, v: Values, k: nat)
    requires k < |PASSES|
    ensures PassOver(s, v, PASSES[k..]) == PassOver(PassAt(s, v, k), v, PASSES[k + 1..])
  {
    assert PASSES[k..][1..] == PASSES[k + 1..];
  }

  // ---------------------------------------------------------------- pieces

  /** A string on its way through the passes: characters that are no part of a token,
      tokens still to be replaced, and values already put in. */
  datatype Piece = Literal(c: char) | Token(c: char) | Put(value: string)

  function Show(p: Piece): string {
    match p
    case Literal(c) => [c]
    case Token(c) => ['%', c]
    case Put(value) => value
  }

  function Render(ps: seq<Piece>): string {
    if ps == [] then "" else Show(ps[0]) + Render(ps[1..])
  }

  function Pieces(s: string, v: Values): seq<Piece> {
    if |s| >= 2 && s[0] == '%' && ValueOf(v, s[1]).Some? then [Token(s[1])] + Pieces(s[2..], v)
    else if s == "" then []
    else [Literal(s[0])] + Pieces(s[1..], v)
  }

  function Fill(ps: seq<Piece>, c: char, value: string): (r: seq<Piece>)
    ensures |r| == |ps|
    ensures forall i :: 0 <= i < |ps| ==> r[i] == if ps[i] == Token(c) then Put(value) else ps[i]
  {
    if ps == [] then []
    else [if ps[0] == Token(c) then Put(value) else ps[0]] + Fill(ps[1..], c, value)
  }

  function FillOver(ps: seq<Piece>, v: Values, passes: string): seq<Piece>
    decreases |passes|
  {
    if passes == "" then ps
    else
      match ValueOf(v, passes[0])
      case None => FillOver(ps, v, passes[1..])
      case Some(value) => FillOver(Fill(ps, passes[0], value), v, passes[1..])
  }

  predicate IsStray(p: Piece) {
    p == Literal('%')
  }

  /** No stray percent sign is followed by the character c. */
  predicate Clean(ps: seq<Piece>, c: char) {
    forall i :: 0 <= i < |ps| - 1 && IsStray(ps[i]) ==>
      match ps[i + 1]
      case Literal(d) => d != c
      case Token(_) => true
      case Put(value) => value != "" && value[0] != c
  }

  /** Tokens are those of the passes, and values hold no percent sign. */
  predicate WellFormed(ps: seq<Piece>) {
    forall i :: 0 <= i < |ps| ==>
      match ps[i]
      case Literal(_) => true
      case Token(c) => c in PASSES
      case Put(value) => '%' !in value
  }

  lemma {:induction false} ReplaceCopies(prefix: string, rest: string, c: char, value: string)
    requires '%' !in prefix
    ensures Replace(prefix + rest, c, value) == prefix + Replace(rest, c, value)
  {
    if prefix == "" {
      assert prefix + rest == rest;
    } else {
      assert (prefix + rest)[1..] == prefix[1..] + rest;
      ReplaceCopies(prefix[1..], rest, c, value);
    }
  }

  lemma ReplaceMatches(rest: string, c: char, value: string)
    ensures Replace(['%', c] + rest, c, value) == value + Replace(rest, c, value)
  {
    assert (['%', c] + rest)[2..] == rest;
  }

  lemma ReplaceSkips(d: char, rest: string, c: char, value: string)
    requires d != '%' || rest == "" || rest[0] != c
    ensures Replace([d] + rest, c, value) == [d] + Replace(rest, c, value)
  {
    assert ([d] + rest)[1..] == rest;
  }

  lemma NextCharacter(ps: seq<Piece>, c: char)
    requires Clean(ps, c) && ps != [] && IsStray(ps[0]) && c != '%'
    ensures var rest := Render(ps[1..]); rest == "" || rest[0] != c
  {
    if |ps| > 1 {
      assert Render(ps[1..]) == Show(ps[1]) + Render(ps[1..][1..]);
    }
  }

  lemma PassOverPiece(p: Piece, rest: string, c: char, value: string)
    requires p.Literal? && p.c == '%' ==> rest == "" || rest[0] != c
    requires p.Token? ==> p.c != '%'
    requires p.Put? ==> '%' !in p.value
    ensures Replace(Show(p) + rest, c, value) == (if p == Token(c) then value else Show(p)) + Replace(rest, c, value)
  {
    match p {
      case Literal(d) =>
        ReplaceSkips(d, rest, c, value);
      case Token(d) =>
        if d == c {
          ReplaceMatches(rest, c, value);
        } else {
          assert ['%', d] + rest == ['%'] + ([d] + rest);
          ReplaceSkips('%', [d] + rest, c, value);
          ReplaceSkips(d, rest, c, value);
        }
      case Put(w) =>
        ReplaceCopies(w, rest, c, value);
    }
  }

  /** One pass over a clean string replaces exactly its tokens. */
  lemma {:induction false} PassFillsTokens(ps: seq<Piece>, c: char, value: string)
    requires Clean(ps, c) && WellFormed(ps) && c in PASSES
    ensures Replace(Render(ps), c, value) == Render(Fill(ps, c, value))
    decreases |ps|
  {
    if ps != [] {
      var rest := ps[1..];
      PassFillsTokens(rest, c, value);
      assert Fill(ps, c, value)[1..] == Fill(rest, c, value);
      assert ps[0].Token? ==> ps[0].c in PASSES;
      assert c != '%' && (ps[0].Token? ==> ps[0].c != '%') by {
        assert PASSES == ['A', 'j', 'a', 'x', 'u', 'N'];
      }
      if IsStray(ps[0]) {
        NextCharacter(ps, c);
      }
      PassOverPiece(ps[0], Render(rest), c, value);
    }
  }

  // ---------------------------------------------------------------- all passes

  /** A value behind a stray percent sign cannot form a token that a later pass takes. */
  predicate Hidden(value: string, later: string) {
    later == "" || (value != "" && value[0] !in later)
  }

  predicate HiddenNext(p: Piece, v: Values, passes: string) {
    match p
    case Literal(d) => ValueOf(v, d).None?
    case Token(d) => forall k :: 0 <= k < |passes| && passes[k] == d && ValueOf(v, d).Some? ==> Hidden(ValueOf(v, d).value, passes[k + 1..])
    case Put(w) => Hidden(w, passes)
  }

  predicate Good(ps: seq<Piece>, v: Values, passes: string) {
    forall i :: 0 <= i < |ps| - 1 && IsStray(ps[i]) ==> HiddenNext(ps[i + 1], v, passes)
  }

  lemma HiddenFromFewer(p: Piece, v: Values, passes: string)
    requires passes != "" && HiddenNext(p, v, passes)
    ensures HiddenNext(p, v, passes[1..])
    ensures ValueOf(v, passes[0]).Some? && p == Token(passes[0]) ==> HiddenNext(Put(ValueOf(v, passes[0]).value), v, passes[1..])
  {
    if p.Token? {
      forall k | 0 <= k < |passes[1..]| && passes[1..][k] == p.c && ValueOf(v, p.c).Some?
        ensures Hidden(ValueOf(v, p.c).value, passes[1..][k + 1..])
      {
        assert passes[k + 1] == p.c;
        assert passes[1..][k + 1..] == passes[k + 2..];
      }
      assert passes[0 + 1..] == passes[1..];
    }
  }

  lemma ValuesHaveNoPercent(v: Values, c: char)
    requires NoPercent(v) && ValueOf(v, c).Some? && c != 'N'
    ensures '%' !in ValueOf(v, c).value && c in PASSES
  {
    NotInDec(v.jobid, '%');
    if v.task.Some? {
      NotInDec(v.task.value, '%');
    }
    assert PASSES == ['A', 'j', 'a', 'x', 'u', 'N'];
  }

  /** Under that condition the passes replace exactly the tokens of the template. */
  lemma {:induction false} PassesFillTokens(ps: seq<Piece>, v: Values, passes: string)
    requires Good(ps, v, passes) && WellFormed(ps) && NoPercent(v)
    requires passes != "" ==> 'N' !in passes[..|passes| - 1]
    ensures PassOver(Render(ps), v, passes) == Render(FillOver(ps, v, passes))
    ensures 'N' !in passes ==> WellFormed(FillOver(ps, v, passes))
    decreases |passes|
  {
    if passes != "" {
      var c := passes[0];
      var filled := if ValueOf(v, c).Some? then Fill(ps, c, ValueOf(v, c).value) else ps;
      if ValueOf(v, c).Some? {
        PassFillsTokens(ps, c, ValueOf(v, c).value);
      }
      if |passes| > 1 || c != 'N' {
        assert |passes| > 1 ==> c == passes[..|passes| - 1][0];
        FilledIsGood(ps, v, passes);
        assert |passes| > 1 ==> passes[1..][..|passes| - 2] == passes[..|passes| - 1][1..];
        PassesFillTokens(filled, v, passes[1..]);
      }
    }
  }

  lemma FilledIsGood(ps: seq<Piece>, v: Values, passes: string)
    requires passes != "" && passes[0] != 'N'
    requires Good(ps, v, passes) && WellFormed(ps) && NoPercent(v)
    ensures var filled := if ValueOf(v, passes[0]).Some? then Fill(ps, passes[0], ValueOf(v, passes[0]).value) else ps;
            Good(filled, v, passes[1..]) && WellFormed(filled)
  {
    var c := passes[0];
    var filled := if ValueOf(v, c).Some? then Fill(ps, c, ValueOf(v, c).value) else ps;
    if ValueOf(v, c).Some? {
      ValuesHaveNoPercent(v, c);
    }
    forall i | 0 <= i < |filled| - 1 && IsStray(filled[i])
      ensures HiddenNext(filled[i + 1], v, passes[1..])
    {
      HiddenFromFewer(ps[i + 1], v, passes);
    }
  }

  lemma {:induction false} FillOverAt(ps: seq<Piece>, v: Values, passes: string)
    ensures var r := FillOver(ps, v, passes);
            && |r| == |ps|
            && forall i :: 0 <= i < |ps| ==>
                 r[i] == if ps[i].Token? && ps[i].c in passes && ValueOf(v, ps[i].c).Some?
                         then Put(ValueOf(v, ps[i].c).value) else ps[i]
    decreases |passes|
  {
    if passes != "" {
      var c := passes[0];
      assert passes == [c] + passes[1..];
      var filled := if ValueOf(v, c).Some? then Fill(ps, c, ValueOf(v, c).value) else ps;
      FillOverAt(filled, v, passes[1..]);
    }
  }

  // ---------------------------------------------------------------- the pieces of a template

  /** A stray percent sign stands right before the token %c. */
  predicate StrayBefore(s: string, c: char) {
    exists i :: 0 <= i && i + 2 < |s| && s[i] == '%' && s[i + 1] == '%' && s[i + 2] == c
  }

  lemma {:induction false} RenderOfPieces(s: string, v: Values)
    ensures Render(Pieces(s, v)) == s
    decreases |s|
  {
    if |s| >= 2 && s[0] == '%' && ValueOf(v, s[1]).Some? {
      RenderOfPieces(s[2..], v);
      assert s == ['%', s[1]] + s[2..];
    } else if s != "" {
      RenderOfPieces(s[1..], v);
      assert s == [s[0]] + s[1..];
    }
  }

  lemma {:induction false} PiecesAreWellFormed(s: string, v: Values)
    ensures WellFormed(Pieces(s, v))
    ensures forall i :: 0 <= i < |Pieces(s, v)| ==> !Pieces(s, v)[i].Put?
    ensures forall i :: 0 <= i < |Pieces(s, v)| && Pieces(s, v)[i].Token? ==> ValueOf(v, Pieces(s, v)[i].c).Some?
    decreases |s|
  {
    if |s| >= 2 && s[0] == '%' && ValueOf(v, s[1]).Some? {
      PiecesAreWellFormed(s[2..], v);
      assert PASSES == ['A', 'j', 'a', 'x', 'u', 'N'];
    } else if s != "" {
      PiecesAreWellFormed(s[1..], v);
    }
  }

  lemma StrayLater(s: string, c: char, n: nat)
    requires n <= |s| && StrayBefore(s[n..], c)
    ensures StrayBefore(s, c)
  {
    var t := s[n..];
    var i :| 0 <= i && i + 2 < |t| && t[i] == '%' && t[i + 1] == '%' && t[i + 2] == c;
    assert s[n + i] == '%' && s[n + i + 1] == '%' && s[n + i + 2] == c;
  }

  predicate MayFollowStray(p: Piece, s: string, v: Values) {
    match p
    case Literal(c) => ValueOf(v, c).None?
    case Token(c) => StrayBefore(s, c)
    case Put(_) => false
  }

  predicate StraysAreFollowed(ps: seq<Piece>, s: string, v: Values) {
    forall i, j :: 0 <= i && j == i + 1 < |ps| && IsStray(ps[i]) ==> MayFollowStray(ps[j], s, v)
  }

  /** What follows a stray percent sign in a template is a token, with another percent
      sign, or a character that names no token. */
  lemma {:induction false} AfterStray(s: string, v: Values)
    ensures StraysAreFollowed(Pieces(s, v), s, v)
    decreases |s|
  {
    var ps := Pieces(s, v);
    if s != "" {
      var n := if |s| >= 2 && s[0] == '%' && ValueOf(v, s[1]).Some? then 2 else 1;
      AfterStray(s[n..], v);
      var rest := Pieces(s[n..], v);
      assert ps[1..] == rest;
      forall i, j | 0 <= i && j == i + 1 < |ps| && IsStray(ps[i])
        ensures MayFollowStray(ps[j], s, v)
      {
        if i > 0 {
          assert ps[i] == rest[i - 1] && ps[j] == rest[i];
          assert MayFollowStray(rest[i], s[n..], v);
          if ps[j].Token? {
            StrayLater(s, ps[j].c, n);
          }
        } else if rest[0].Token? {
          assert s[0] == '%' && s[1] == '%' && s[2] == rest[0].c;
        }
      }
    }
  }

  lemma {:induction false} StrayIsAPiece(s: string, v: Values, c: char) returns (i: nat)
    requires StrayBefore(s, c) && ValueOf(v, c).Some?
    ensures var ps := Pieces(s, v);
            i + 1 < |ps| && IsStray(ps[i]) && ps[i + 1] == Token(c)
    decreases |s|
  {
    var n := if |s| >= 2 && s[0] == '%' && ValueOf(v, s[1]).Some? then 2 else 1;
    var rest := Pieces(s[n..], v);
    assert Pieces(s, v)[1..] == rest;
    if s[0] == '%' && s[1] == '%' && s[2] == c {
      assert s[1..][0] == '%' && s[1..][1] == c;
      i := 0;
    } else {
      var j :| 0 <= j && j + 2 < |s| && s[j] == '%' && s[j + 1] == '%' && s[j + 2] == c;
      assert j >= n;
      var t := s[n..];
      assert t[j - n] == '%' && t[j - n + 1] == '%' && t[j - n + 2] == c;
      var k := StrayIsAPiece(t, v, c);
      i := k + 1;
    }
  }

  lemma {:induction false} SimultaneousFillsTokens(s: string, v: Values)
    ensures Simultaneous(s, v) == Render(FillOver(Pieces(s, v), v, PASSES))
    decreases |s|
  {
    var ps := Pieces(s, v);
    PiecesAreWellFormed(s, v);
    FillOverAt(ps, v, PASSES);
    if s != "" {
      var n := if |s| >= 2 && s[0] == '%' && ValueOf(v, s[1]).Some? then 2 else 1;
      SimultaneousFillsTokens(s[n..], v);
      FillOverAt(Pieces(s[n..], v), v, PASSES);
      assert FillOver(ps, v, PASSES)[1..] == FillOver(Pieces(s[n..], v), v, PASSES);
    }
  }

  // ---------------------------------------------------------------- when the two agree

  /** Without a stray percent sign before a name or user token the six passes are the
      simultaneous substitution. */
  lemma SafeTemplatesAgree(template: string, v: Values)
    requires NoPercent(v) && !StrayBefore(template, 'u') && (v.name.Some? ==> !StrayBefore(template, 'x'))
    ensures PassOver(template, v, PASSES) == Simultaneous(template, v)
  {
    var ps := Pieces(template, v);
    RenderOfPieces(template, v);
    PiecesAreWellFormed(template, v);
    AfterStray(template, v);
    forall i | 0 <= i < |ps| - 1 && IsStray(ps[i])
      ensures HiddenNext(ps[i + 1], v, PASSES)
    {
      if ps[i + 1].Token? {
        NumbersAndHostAreHidden(ps[i + 1].c, v);
      }
    }
    PassesFillTokens(ps, v, PASSES);
    SimultaneousFillsTokens(template, v);
  }

  lemma NumbersAndHostAreHidden(c: char, v: Values)
    requires ValueOf(v, c).Some? && c != 'u' && c != 'x'
    ensures HiddenNext(Token(c), v, PASSES)
  {
    assert PASSES == ['A', 'j', 'a', 'x', 'u', 'N'];
    forall k | 0 <= k < |PASSES| && PASSES[k] == c
      ensures Hidden(ValueOf(v, c).value, PASSES[k + 1..])
    {
      if c == 'N' {
        assert PASSES[6..] == "";
      } else {
        var value := ValueOf(v, c).value;
        assert IsDigit(value[0]);
        assert forall i :: 0 <= i < |PASSES| ==> !IsDigit(PASSES[i]);
      }
    }
  }

  // ---------------------------------------------------------------- and when they do not

  function Percents(s: string): nat {
    if s == "" then 0 else (if s[0] == '%' then 1 else 0) + Percents(s[1..])
  }

  function Strays(ps: seq<Piece>): nat {
    if ps == [] then 0 else (if IsStray(ps[0]) then 1 else 0) + Strays(ps[1..])
  }

  lemma {:induction false} PercentsOfConcat(a: string, b: string)
    ensures Percents(a + b) == Percents(a) + Percents(b)
  {
    if a == "" {
      assert a + b == b;
    } else {
      assert (a + b)[1..] == a[1..] + b;
      PercentsOfConcat(a[1..], b);
    }
  }

  lemma NoPercents(s: string)
    requires '%' !in s
    ensures Percents(s) == 0
  {
  }

  predicate NoTokensBut(ps: seq<Piece>, c: char) {
    forall i :: 0 <= i < |ps| && ps[i].Token? ==> ps[i].c == c
  }

  lemma {:induction false} PercentsOfRender(ps: seq<Piece>)
    requires WellFormed(ps) && forall i :: 0 <= i < |ps| ==> !ps[i].Token?
    ensures Percents(Render(ps)) == Strays(ps)
    decreases |ps|
  {
    if ps != [] {
      PercentsOfRender(ps[1..]);
      PercentsOfConcat(Show(ps[0]), Render(ps[1..]));
      if ps[0].Put? {
        NoPercents(ps[0].value);
      }
    }
  }

  /** A value behind a stray percent sign begins with the character of a token. */
  predicate FormsTokenAt(ps: seq<Piece>, i: int, c: char) {
    && 0 <= i < |ps| - 1 && IsStray(ps[i])
    && ps[i + 1].Put? && ps[i + 1].value != "" && ps[i + 1].value[0] == c
  }

  ghost predicate FormsToken(ps: seq<Piece>, c: char) {
    exists i :: FormsTokenAt(ps, i, c)
  }

  /** The last pass, with an empty value, keeps at most the stray percent signs, and
      loses one that is followed by a value that begins with its character. */
  lemma {:induction false} LastPassLosesStrays(ps: seq<Piece>, c: char)
    requires WellFormed(ps) && NoTokensBut(ps, c) && c in PASSES
    ensures Percents(Replace(Render(ps), c, "")) <= Strays(ps)
    ensures FormsToken(ps, c) ==>
              Percents(Replace(Render(ps), c, "")) < Strays(ps)
    decreases |ps|
  {
    if ps != [] {
      var p, rest := ps[0], Render(ps[1..]);
      LastPassLosesStrays(ps[1..], c);
      assert c != '%' by {
        assert PASSES == ['A', 'j', 'a', 'x', 'u', 'N'];
      }
      if IsStray(p) && rest != "" && rest[0] == c {
        StrayIsTaken(rest, c);
      } else {
        assert p.Token? ==> p.c == c;
        PassOverPiece(p, rest, c, "");
        var shown := if p == Token(c) then "" else Show(p);
        PercentsOfConcat(shown, Replace(rest, c, ""));
        if p.Put? {
          NoPercents(p.value);
        }
      }
      FormsTokenLater(ps, c);
      if FormsTokenAt(ps, 0, c) {
        assert rest == ps[1].value + Render(ps[1..][1..]);
      }
    }
  }

  lemma FormsTokenLater(ps: seq<Piece>, c: char)
    requires ps != []
    ensures FormsToken(ps, c) ==> FormsTokenAt(ps, 0, c) || FormsToken(ps[1..], c)
  {
    if FormsToken(ps, c) {
      var i :| FormsTokenAt(ps, i, c);
      if i > 0 {
        assert FormsTokenAt(ps[1..], i - 1, c);
      }
    }
  }

  lemma StrayIsTaken(rest: string, c: char)
    requires rest != "" && rest[0] == c && c != '%'
    ensures Percents(Replace(['%'] + rest, c, "")) == Percents(Replace(rest, c, ""))
  {
    var s := ['%'] + rest;
    assert s[0] == '%' && s[1] == c && s[2..] == rest[1..];
    assert "" + Replace(rest[1..], c, "") == Replace(rest[1..], c, "");
    ReplaceSkips(c, rest[1..], c, "");
    assert rest == [c] + rest[1..];
    PercentsOfConcat([c], Replace(rest[1..], c, ""));
  }

  lemma PassesInTwo(s: string, v: Values)
    ensures PassOver(s, v, PASSES) == PassOver(PassOver(s, v, "Ajaxu"), v, "N")
  {
    assert PASSES == "Ajaxu" + "N";
    PassesConcat(s, v, "Ajaxu", "N");
  }

  lemma {:induction false} PassesConcat(s: string, v: Values, a: string, b: string)
    ensures PassOver(s, v, a + b) == PassOver(PassOver(s, v, a), v, b)
    decreases |a|
  {
    if a == "" {
      assert a + b == b;
    } else {
      assert (a + b)[1..] == a[1..] + b;
      var next := if ValueOf(v, a[0]).Some? then Replace(s, a[0], ValueOf(v, a[0]).value) else s;
      PassesConcat(next, v, a[1..], b);
    }
  }

  /** Values that betray a stray percent sign before the token %c: its value is "N",
      the value of %N is empty, and the other one is harmless. */
  function Betraying(hasTask: bool, hasName: bool, c: char): Values {
    Values(0, if hasTask then Some(0) else None, if !hasName then None else if c == 'x' then Some("N") else Some("_"),
           if c == 'u' then "N" else "_", "")
  }

  lemma FirstFivePasses(template: string, hasTask: bool, hasName: bool, c: char)
    requires c == 'u' || (c == 'x' && hasName)
    ensures var v := Betraying(hasTask, hasName, c);
            var filled := FillOver(Pieces(template, v), v, "Ajaxu");
            PassOver(template, v, "Ajaxu") == Render(filled) && WellFormed(filled)
  {
    var v := Betraying(hasTask, hasName, c);
    var ps := Pieces(template, v);
    RenderOfPieces(template, v);
    PiecesAreWellFormed(template, v);
    AfterStray(template, v);
    forall i | 0 <= i < |ps| - 1 && IsStray(ps[i])
      ensures HiddenNext(ps[i + 1], v, "Ajaxu")
    {
      if ps[i + 1].Token? {
        HiddenInFirstFive(ps[i + 1].c, hasTask, hasName, c);
      }
    }
    PassesFillTokens(ps, v, "Ajaxu");
  }

  lemma SimultaneousKeepsStrays(template: string, v: Values)
    requires NoPercent(v) && '%' !in v.host
    ensures Percents(Simultaneous(template, v)) == Strays(Pieces(template, v))
  {
    var ps := Pieces(template, v);
    var all := FillOver(ps, v, PASSES);
    PiecesAreWellFormed(template, v);
    FillOverAt(ps, v, PASSES);
    forall i | 0 <= i < |all|
      ensures !all[i].Token? && (all[i].Put? ==> '%' !in all[i].value)
    {
      if ps[i].Token? {
        if ps[i].c != 'N' {
          ValuesHaveNoPercent(v, ps[i].c);
        }
      }
    }
    SimultaneousFillsTokens(template, v);
    PercentsOfRender(all);
    SameStrays(ps, all);
  }

  /** After five passes the stray percent sign stands before a value "N". */
  lemma TokenIsFormed(template: string, hasTask: bool, hasName: bool, c: char)
    requires c == 'u' || (c == 'x' && hasName)
    requires StrayBefore(template, c)
    ensures var v := Betraying(hasTask, hasName, c);
            var filled := FillOver(Pieces(template, v), v, "Ajaxu");
            FormsToken(filled, 'N') && Strays(filled) == Strays(Pieces(template, v))
  {
    var v := Betraying(hasTask, hasName, c);
    var ps := Pieces(template, v);
    var filled := FillOver(ps, v, "Ajaxu");
    FillOverAt(ps, v, "Ajaxu");
    var i := StrayIsAPiece(template, v, c);
    assert FormsTokenAt(filled, i, 'N');
    SameStrays(ps, filled);
  }

  lemma StrayBreaksAgreement(template: string, hasTask: bool, hasName: bool, c: char)
    requires c == 'u' || (c == 'x' && hasName)
    requires StrayBefore(template, c)
    ensures var v := Betraying(hasTask, hasName, c);
            PassOver(template, v, PASSES) != Simultaneous(template, v)
  {
    var v := Betraying(hasTask, hasName, c);
    var filled := FillOver(Pieces(template, v), v, "Ajaxu");
    FirstFivePasses(template, hasTask, hasName, c);
    TokenIsFormed(template, hasTask, hasName, c);
    OnlyHostsAreLeft(template, v);
    LastPassLosesStrays(filled, 'N');
    StraysAreLost(template, v, filled);
  }

  lemma StraysAreLost(template: string, v: Values, filled: seq<Piece>)
    requires NoPercent(v) && v.host == "" && Strays(filled) == Strays(Pieces(template, v))
    requires PassOver(template, v, "Ajaxu") == Render(filled)
    requires Percents(Replace(Render(filled), 'N', "")) < Strays(filled)
    ensures PassOver(template, v, PASSES) != Simultaneous(template, v)
  {
    PassesInTwo(template, v);
    LastPass(Render(filled), v);
    SimultaneousKeepsStrays(template, v);
  }

  lemma OnlyHostsAreLeft(template: string, v: Values)
    ensures NoTokensBut(FillOver(Pieces(template, v), v, "Ajaxu"), 'N')
  {
    PiecesAreWellFormed(template, v);
    FillOverAt(Pieces(template, v), v, "Ajaxu");
    assert PASSES == "Ajaxu" + ['N'];
  }

  lemma LastPass(s: string, v: Values)
    ensures PassOver(s, v, "N") == Replace(s, 'N', v.host)
  {
    assert "N"[1..] == "";
  }

  lemma HiddenInFirstFive(d: char, hasTask: bool, hasName: bool, c: char)
    requires c == 'u' || (c == 'x' && hasName)
    ensures HiddenNext(Token(d), Betraying(hasTask, hasName, c), "Ajaxu")
  {
    var v := Betraying(hasTask, hasName, c);
    var passes := "Ajaxu";
    assert passes == ['A', 'j', 'a', 'x', 'u'];
    forall k | 0 <= k < |passes| && passes[k] == d && ValueOf(v, d).Some?
      ensures Hidden(ValueOf(v, d).value, passes[k + 1..])
    {
      var value := ValueOf(v, d).value;
      if k == 4 {
        assert passes[5..] == "";
      } else {
        assert value != "" && value[0] !in passes;
      }
    }
  }

  lemma {:induction false} SameStrays(a: seq<Piece>, b: seq<Piece>)
    requires |a| == |b| && forall i :: 0 <= i < |a| ==> (IsStray(a[i]) <==> IsStray(b[i]))
    ensures Strays(a) == Strays(b)
    decreases |a|
  {
    if a != [] {
      SameStrays(a[1..], b[1..]);
    }
  }

  /** Values without percent signs, of the kind the submission has. */
  predicate Plausible(v: Values, hasTask: bool, hasName: bool) {
    v.task.Some? == hasTask && v.name.Some? == hasName && NoPercent(v)
  }

  /** Exactly when the six passes are the simultaneous substitution, whatever the
      values: no stray percent sign stands before the user token, nor before the name
      token if there is a name. */
  lemma PassesAreSimultaneousExactlyWhen(template: string, hasTask: bool, hasName: bool)
    ensures (forall v :: Plausible(v, hasTask, hasName) ==> PassOver(template, v, PASSES) == Simultaneous(template, v)) <==>
            !StrayBefore(template, 'u') && (hasName ==> !StrayBefore(template, 'x'))
  {
    if StrayBefore(template, 'u') {
      StrayBreaksAgreement(template, hasTask, hasName, 'u');
      assert Plausible(Betraying(hasTask, hasName, 'u'), hasTask, hasName);
    } else if hasName && StrayBefore(template, 'x') {
      StrayBreaksAgreement(template, hasTask, hasName, 'x');
      assert Plausible(Betraying(hasTask, hasName, 'x'), hasTask, hasName);
    } else {
      forall v | Plausible(v, hasTask, hasName)
        ensures PassOver(template, v, PASSES) == Simultaneous(template, v)
      {
        SafeTemplatesAgree(template, v);
      }
    }
  }

  /** Each token by itself: what it stands for, or itself when it stands for nothing. */
  lemma TokensStandFor(v: Values)
    requires NoPercent(v)
    ensures PassOver("%A", v, PASSES) == PassOver("%j", v, PASSES) == Dec(v.jobid)
    ensures PassOver("%a", v, PASSES) == if v.task.Some? then Dec(v.task.value) else "%a"
    ensures PassOver("%x", v, PASSES) == if v.name.Some? then v.name.value else "%x"
    ensures PassOver("%u", v, PASSES) == v.user
    ensures PassOver("%N", v, PASSES) == v.host
  {
    OneToken(v, 'A');
    OneToken(v, 'j');
    OneToken(v, 'a');
    OneToken(v, 'x');
    OneToken(v, 'u');
    OneToken(v, 'N');
  }

  lemma OneToken(v: Values, c: char)
    requires NoPercent(v)
    ensures PassOver(['%', c], v, PASSES) == if ValueOf(v, c).Some? then ValueOf(v, c).value else ['%', c]
  {
    SafeTemplatesAgree(['%', c], v);
    assert Simultaneous("", v) == "";
    if ValueOf(v, c).Some? {
      assert ['%', c][2..] == "";
      assert ValueOf(v, c).value + "" == ValueOf(v, c).value;
    } else {
      assert ['%', c][1..] == [c] && [c][1..] == "";
    }
  }

  /** A value with a percent sign is substituted a second time. */
  lemma {:induction false} PercentInAValueIsSubstitutedAgain(v: Values)
    requires v.name == Some("%u") && v.user != "%u" && '%' !in v.user
    ensures PassOver("%x", v, PASSES) == v.user && Simultaneous("%x", v) == "%u"
  {
    var x, u := ['%', 'x'], ['%', 'u'];
    assert x[2..] == "" && u + Simultaneous("", v) == u;
    OtherTokenStays('x', 'A', Dec(v.jobid));
    PassStep(x, v, 0);
    OtherTokenStays('x', 'j', Dec(v.jobid));
    PassStep(x, v, 1);
    OtherTokenStays('x', 'a', if v.task.Some? then Dec(v.task.value) else "");
    PassStep(x, v, 2);
    TokenGoes('x', u);
    PassStep(x, v, 3);
    UserTokenGoes(v);
  }

  lemma UserTokenGoes(v: Values)
    requires '%' !in v.user
    ensures PassOver(['%', 'u'], v, PASSES[4..]) == v.user
  {
    TokenGoes('u', v.user);
    PassStep(['%', 'u'], v, 4);
    ReplaceCopies(v.user, "", 'N', v.host);
    assert v.user + "" == v.user;
    PassStep(v.user, v, 5);
  }

  lemma OtherTokenStays(d: char, c: char, value: string)
    requires d != c && d != '%'
    ensures Replace(['%', d], c, value) == ['%', d]
  {
    assert ['%', d] == ['%'] + [d] && [d] == [d] + "";
    ReplaceSkips('%', [d], c, value);
    ReplaceSkips(d, "", c, value);
  }

  lemma TokenGoes(c: char, value: string)
    ensures Replace(['%', c], c, value) == value
  {
    assert ['%', c][2..] == "" && value + "" == value;
  }
}
