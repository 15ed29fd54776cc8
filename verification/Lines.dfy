/** Streams of newline-terminated lines. */
module Lines {
  import Utf8

  type byte = Utf8.byte

  const LF: byte := 10

  /** Bytes up to and including the first line feed. */
  predicate IsLine(line: seq<byte>) {
    line != [] && line[|line| - 1] == LF && LF !in line[..|line| - 1]
  }

  predicate AllLines(lines: seq<seq<byte>>) {
    forall i :: 0 <= i < |lines| ==> IsLine(lines[i])
  }

  function Joined(lines: seq<seq<byte>>): seq<byte> {
    if lines == [] then [] else lines[0] + Joined(lines[1..])
  }

  /** Where the first line feed stands, or the length when there is none. */
  function FirstLine(b: seq<byte>): (n: nat)
    ensures n <= |b| && LF !in b[..n]
    ensures n < |b| ==> b[n] == LF
    ensures n == |b| <==> LF !in b
  {
    if b == [] || b[0] == LF then 0 else 1 + FirstLine(b[1..])
  }

  lemma HeadIsLine(b: seq<byte>, n: nat)
    requires n < |b| && n == FirstLine(b)
    ensures IsLine(b[..n + 1])
  {
    assert b[..n + 1][..n] == b[..n];
  }

  lemma {:induction false} JoinedMore(lines: seq<seq<byte>>, line: seq<byte>)
    ensures Joined(lines + [line]) == Joined(lines) + line
  {
    if lines == [] {
      assert [line][1..] == [];
    } else {
      assert (lines + [line])[1..] == lines[1..] + [line];
      JoinedMore(lines[1..], line);
    }
  }

  /** Two lines that start the same bytes are the same. */
  lemma SameLine(a: seq<byte>, b: seq<byte>, all: seq<byte>)
    requires IsLine(a) && IsLine(b) && a <= all && b <= all
    ensures a == b
  {
    assert a == all[..|a|] && b == all[..|b|];
    assert forall i :: 0 <= i < |a| - 1 ==> a[i] == a[..|a| - 1][i];
    assert forall i :: 0 <= i < |b| - 1 ==> b[i] == b[..|b| - 1][i];
    assert all[|a| - 1] == LF && all[|b| - 1] == LF;
  }

  lemma DropLine(line: seq<byte>, a: seq<byte>, b: seq<byte>)
    requires line + a <= line + b
    ensures a <= b
  {
    assert (line + a)[|line|..] == a && (line + b)[|line|..] == b;
    assert line + a == (line + b)[..|line| + |a|];
  }

  lemma Associate(a: seq<byte>, b: seq<byte>, c: seq<byte>)
    ensures a + b + c == a + (b + c)
  {
  }

  lemma NoLineIn(line: seq<byte>, a: seq<byte>, b: seq<byte>)
    requires IsLine(line) && line + a <= b
    ensures LF in b
  {
    assert b[|line| - 1] == (line + a)[|line| - 1] == LF;
  }

  /** Whole lines at the front of a stream are its first lines, however it was cut. */
  lemma {:induction false} FirstLines(a: seq<seq<byte>>, rest: seq<byte>, b: seq<seq<byte>>, tail: seq<byte>)
    requires AllLines(a) && AllLines(b) && LF !in tail
    requires Joined(a) + rest <= Joined(b) + tail
    ensures a <= b
    decreases |a|
  {
    if a != [] {
      Associate(a[0], Joined(a[1..]), rest);
      if b == [] {
        NoLineIn(a[0], Joined(a[1..]) + rest, tail);
      } else {
        Associate(b[0], Joined(b[1..]), tail);
        SameLine(a[0], b[0], Joined(b) + tail);
        DropLine(a[0], Joined(a[1..]) + rest, Joined(b[1..]) + tail);
        FirstLines(a[1..], rest, b[1..], tail);
        assert a == [a[0]] + a[1..] && b == [b[0]] + b[1..];
      }
    }
  }

  /** A stream has one reading as lines and a leftover without a line feed. */
  lemma OneReading(a: seq<seq<byte>>, rest: seq<byte>, b: seq<seq<byte>>, tail: seq<byte>)
    requires AllLines(a) && AllLines(b) && LF !in rest && LF !in tail
    requires Joined(a) + rest == Joined(b) + tail
    ensures a == b && rest == tail
  {
    FirstLines(a, rest, b, tail);
    FirstLines(b, tail, a, rest);
    assert a == b[..|a|] && b[..|b|] == b;
    DropLine(Joined(a), rest, tail);
  }
}
