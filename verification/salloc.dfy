/** The two banner lines a `tssrun` child prints about its allocation. */
module Sallocs {
  import opened Wrappers
  import opened Text

  const GRANTED: string := "salloc: Granted job allocation "
  const NODES: string := "salloc: Nodes "
  const READY: string := " are ready for job"

  function StripPrefix(prefix: string, s: string): Option<string> {
    if IsPrefix(prefix, s) then Some(s[|prefix|..]) else None
  }

  function ParseJobid(line: string): Option<U64> {
    match StripPrefix(GRANTED, line)
    case None => None
    case Some(rest) => ParseU64(Trim(rest))
  }

  function ParseNode(line: string): Option<string> {
    match StripPrefix(NODES, line)
    case None => None
    case Some(rest) =>
      match SplitOnceStr(rest, READY)
      case None => None
      case Some(p) => Some(p.0)
  }

  /** No line is read as both banners. */
  lemma {:induction false} BannersAreDisjoint(line: string)
    ensures ParseJobid(line).None? || ParseNode(line).None?
  {
    PrefixesDiffer(GRANTED, NODES, line, 8);
  }

  lemma PrefixesDiffer(p: string, q: string, s: string, i: nat)
    requires i < |p| && i < |q| && p[i] != q[i]
    ensures !IsPrefix(p, s) || !IsPrefix(q, s)
  {
    assert IsPrefix(p, s) ==> s[i] == p[i];
    assert IsPrefix(q, s) ==> s[i] == q[i];
  }

  lemma {:induction false} TrimKeepsDigits(s: string)
    requires AllDigits(s)
    ensures Trim(s) == s
  {
  }

  /** Every job id is read back from its banner. */
  lemma JobidOfBanner(n: U64)
    ensures ParseJobid(GRANTED + Dec(n)) == Some(n)
  {
    var line := GRANTED + Dec(n);
    assert line[|GRANTED|..] == Dec(n);
    TrimKeepsDigits(Dec(n));
    ParseOfDec(n, U64_MAX);
  }

  /** The node of a banner is the text before the first marker. */
  lemma {:induction false} NodeOfBanner(node: string, job: string)
    requires !Contains(node + READY[..|READY| - 1], READY)
    ensures ParseNode(NODES + node + READY + job) == Some(node)
  {
    var line := NODES + node + READY + job;
    assert line[|NODES|..] == node + READY + job;
    SplitOnceStrAt(node, READY, job);
  }

  lemma {:induction false} SplitOnceStrAt(a: string, pattern: string, b: string)
    requires pattern != "" && !Contains(a + pattern[..|pattern| - 1], pattern)
    ensures SplitOnceStr(a + pattern + b, pattern) == Some((a, b))
    decreases |a|
  {
    var s := a + pattern + b;
    if a == "" {
      assert s[..|pattern|] == pattern;
      assert s[|pattern|..] == b;
    } else {
      var t := a + pattern[..|pattern| - 1];
      assert |t| >= |pattern| && t[..|pattern|] == s[..|pattern|];
      assert s[1..] == a[1..] + pattern + b;
      assert t[1..] == a[1..] + pattern[..|pattern| - 1];
      SplitOnceStrAt(a[1..], pattern, b);
      assert [a[0]] + a[1..] == a;
    }
  }
}
