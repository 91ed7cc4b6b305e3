/** Reading the last lines of a log backwards, chunk by chunk. Lines are sequences of
    bytes; decoding them is a map over each line by itself and is not modelled. */
module TailReader {
  import opened Arithmetic
  import opened Text

  type Byte = b: int | 0 <= b < 256

  const NEWLINE: Byte := 10

  /** Newlines end lines; bytes after the last newline are a line of their own. */
  function AllLines(s: seq<Byte>): seq<seq<Byte>> {
    WithoutEmptyEnd(Split(s, NEWLINE))
  }

  function WithoutEmptyEnd(parts: seq<seq<Byte>>): seq<seq<Byte>> {
    if parts != [] && parts[|parts| - 1] == [] then parts[..|parts| - 1] else parts
  }

  function LastLines(lines: seq<seq<Byte>>, n: nat): seq<seq<Byte>> {
    if |lines| > n then lines[|lines| - n..] else lines
  }

  /** How many newlines there are. */
  function Newlines(s: seq<Byte>): nat {
    if s == [] then 0 else (if s[0] == NEWLINE then 1 else 0) + Newlines(s[1..])
  }

  lemma NewlinesSeparateParts(s: seq<Byte>)
    ensures Newlines(s) == |Split(s, NEWLINE)| - 1
  {
  }

  /** The length of the longest line. */
  function Longest(parts: seq<seq<Byte>>): (l: nat)
    ensures forall i :: 0 <= i < |parts| ==> |parts[i]| <= l
  {
    if parts == [] then 0
    else
      var rest := Longest(parts[1..]);
      if |parts[0]| > rest then |parts[0]| else rest
  }

  /** n + 1 lines of the length of the longest line, newlines included. */
  function Budget(content: seq<Byte>, n: nat): nat {
    (n + 1) * (Longest(Split(content, NEWLINE)) + 1)
  }

  // ---------------------------------------------------------------- what a suffix shows

  /** The last part of the first list and the first part of the second are one. */
  function Glue(p: seq<seq<Byte>>, q: seq<seq<Byte>>): seq<seq<Byte>>
    requires p != [] && q != []
  {
    p[..|p| - 1] + [p[|p| - 1] + q[0]] + q[1..]
  }

  lemma GlueAfterNewline(p: seq<seq<Byte>>, q: seq<seq<Byte>>)
    requires p != [] && q != []
    ensures Glue([[]] + p, q) == [[]] + Glue(p, q)
  {
    var e: seq<seq<Byte>> := [[]];
    assert (e + p)[..|p|] == e + p[..|p| - 1];
  }

  lemma GlueAfterByte(x: Byte, p: seq<seq<Byte>>, q: seq<seq<Byte>>)
    requires p != [] && q != []
    ensures Glue([[x] + p[0]] + p[1..], q) == [[x] + Glue(p, q)[0]] + Glue(p, q)[1..]
  {
    var g := Glue(p, q);
    var longer := [[x] + p[0]] + p[1..];
    if |p| == 1 {
      assert g == [p[0] + q[0]] + q[1..];
      assert ([x] + p[0]) + q[0] == [x] + g[0];
    } else {
      assert longer[..|p| - 1] == [[x] + p[0]] + p[1..|p| - 1];
      assert g == [p[0]] + (p[1..|p| - 1] + [p[|p| - 1] + q[0]] + q[1..]);
    }
  }

  lemma {:induction false} SplitOfConcat(a: seq<Byte>, b: seq<Byte>)
    ensures Split(a + b, NEWLINE) == Glue(Split(a, NEWLINE), Split(b, NEWLINE))
    decreases |a|
  {
    var q := Split(b, NEWLINE);
    if a == [] {
      assert a + b == b;
      assert [] + q[0] == q[0];
      assert Glue([[]], q) == q;
    } else {
      SplitOfConcat(a[1..], b);
      assert (a + b)[1..] == a[1..] + b;
      var rest := Split(a[1..], NEWLINE);
      if a[0] == NEWLINE {
        GlueAfterNewline(rest, q);
      } else {
        GlueAfterByte(a[0], rest, q);
      }
    }
  }

  /** A suffix with more than n newlines shows the last n lines of the content. */
  lemma EnoughIsShown(before: seq<Byte>, suffix: seq<Byte>, n: nat)
    requires Newlines(suffix) > n
    ensures LastLines(AllLines(before + suffix), n) == LastLines(AllLines(suffix), n)
  {
    SplitOfConcat(before, suffix);
    NewlinesSeparateParts(suffix);
    var p, q := Split(before, NEWLINE), Split(suffix, NEWLINE);
    LastOfWithoutEmptyEnd(p[..|p| - 1] + [p[|p| - 1] + q[0]], q[1..], n);
    LastOfWithoutEmptyEnd([q[0]], q[1..], n);
    assert [q[0]] + q[1..] == q;
  }

  lemma LastOfWithoutEmptyEnd(front: seq<seq<Byte>>, tail: seq<seq<Byte>>, n: nat)
    requires |tail| > n && front != []
    ensures LastLines(WithoutEmptyEnd(front + tail), n) == LastLines(WithoutEmptyEnd(tail), n)
  {
    var all := front + tail;
    assert all[|all| - 1] == tail[|tail| - 1];
    var lines, last := WithoutEmptyEnd(all), WithoutEmptyEnd(tail);
    assert lines == front + last;
  }

  // ---------------------------------------------------------------- memory

  function Total(parts: seq<seq<Byte>>): nat {
    if parts == [] then 0 else |parts[0]| + Total(parts[1..])
  }

  lemma {:induction false} PartsCoverAll(s: seq<Byte>)
    ensures var p := Split(s, NEWLINE); Total(p) + |p| == |s| + 1
    decreases |s|
  {
    if s != [] {
      PartsCoverAll(s[1..]);
      var p, rest := Split(s, NEWLINE), Split(s[1..], NEWLINE);
      if s[0] == NEWLINE {
        assert p[1..] == rest;
      } else {
        assert p[1..] == rest[1..];
      }
    } else {
      assert Total([[]]) == 0;
    }
  }

  lemma {:induction false} TotalIsBounded(parts: seq<seq<Byte>>, longest: nat)
    requires forall i :: 0 <= i < |parts| ==> |parts[i]| <= longest
    ensures Total(parts) + |parts| <= |parts| * (longest + 1)
    decreases |parts|
  {
    if parts != [] {
      TotalIsBounded(parts[1..], longest);
      assert |parts| * (longest + 1) == (|parts| - 1) * (longest + 1) + (longest + 1);
    }
  }

  lemma GlueKeepsLengths(p: seq<seq<Byte>>, q: seq<seq<Byte>>, longest: nat)
    requires p != [] && q != []
    requires forall i :: 0 <= i < |Glue(p, q)| ==> |Glue(p, q)[i]| <= longest
    ensures forall i :: 0 <= i < |q| ==> |q[i]| <= longest
  {
    forall i | 0 <= i < |q|
      ensures |q[i]| <= longest
    {
      assert |q[i]| <= |Glue(p, q)[|p| - 1 + i]|;
    }
  }

  lemma FewPartsFit(parts: seq<seq<Byte>>, n: nat, longest: nat)
    requires |parts| <= n
    requires forall i :: 0 <= i < |parts| ==> |parts[i]| <= longest
    ensures Total(parts) + |parts| <= n * (longest + 1)
  {
    TotalIsBounded(parts, longest);
    ProductGrows(|parts|, n, longest + 1);
  }

  lemma {:induction false} GluedFits(p: seq<seq<Byte>>, q: seq<seq<Byte>>, n: nat)
    requires p != [] && q != [] && |q| <= n + 1
    ensures Total(q) + |q| <= (n + 1) * (Longest(Glue(p, q)) + 1)
  {
    var longest := Longest(Glue(p, q));
    GlueKeepsLengths(p, q, longest);
    FewPartsFit(q, n + 1, longest);
  }

  lemma {:induction false} BufferBound(before: seq<Byte>, buf: seq<Byte>, n: nat)
    requires Newlines(buf) <= n
    ensures |buf| < Budget(before + buf, n)
  {
    var p, q := Split(before, NEWLINE), Split(buf, NEWLINE);
    assert |q| <= n + 1 by {
      NewlinesSeparateParts(buf);
    }
    assert Total(q) + |q| == |buf| + 1 by {
      PartsCoverAll(buf);
    }
    assert Split(before + buf, NEWLINE) == Glue(p, q) by {
      SplitOfConcat(before, buf);
    }
    GluedFits(p, q, n);
  }

  // ---------------------------------------------------------------- the reader

  /** Reads backwards until the buffer shows the last `n` lines. `peak` is the most
      bytes the buffer ever held. */
  method ReadLastLines(content: seq<Byte>, n: nat, chunk: nat) returns (lines: seq<seq<Byte>>, peak: nat)
    requires chunk >= 1
    ensures lines == LastLines(AllLines(content), n)
    ensures peak <= Budget(content, n) + chunk
  {
    peak := 0;
    if n == 0 {
      return [], 0;
    }
    var pos := |content|;
    var buf: seq<Byte> := [];
    while pos > 0
      invariant 0 <= pos <= |content| && buf == content[pos..]
      invariant Newlines(buf) <= n
      invariant peak <= Budget(content, n) + chunk
      decreases pos
    {
      assert content[..pos] + buf == content;
      BufferBound(content[..pos], buf, n);
      var readLen := if chunk < pos then chunk else pos;
      pos := pos - readLen;
      buf := content[pos..pos + readLen] + buf;
      peak := if |buf| > peak then |buf| else peak;
      if Newlines(buf) > n {
        assert content[..pos] + buf == content;
        EnoughIsShown(content[..pos], buf, n);
        break;
      }
    }
    lines := LastLines(AllLines(buf), n);
    assert pos == 0 ==> buf == content;
  }
}
