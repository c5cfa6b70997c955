/** Line framing of the receive buffer: the inner loop of the per-connection thread cuts the
    buffer at its first `\n` until none is left, strips each cut line and skips blank ones. */
module Framing {
  import opened PyStr

  const NL: char := '\n'

  /** Position of the first line terminator. */
  function FirstNewline(buf: string): (i: nat)
    requires NL in buf
    ensures i < |buf| && buf[i] == NL && NL !in buf[..i]
  {
    if buf[0] == NL then 0 else 1 + FirstNewline(buf[1..])
  }

  /** The complete lines of `buf`, in arrival order, without their terminators. */
  function Lines(buf: string): (ls: seq<string>)
    ensures forall k :: 0 <= k < |ls| ==> NL !in ls[k]
    decreases |buf|
  {
    if NL !in buf then [] else
      var i := FirstNewline(buf);
      [buf[..i]] + Lines(buf[i + 1..])
  }

  /** What stays buffered once every complete line has been taken out. */
  function Leftover(buf: string): (rest: string)
    ensures NL !in rest
    ensures |rest| <= |buf|
    decreases |buf|
  {
    if NL !in buf then buf else Leftover(buf[FirstNewline(buf) + 1..])
  }

  /** Each line followed by its terminator, concatenated. */
  function Join(ls: seq<string>): string {
    if ls == [] then [] else ls[0] + [NL] + Join(ls[1..])
  }

  /** The stripped, non-blank lines: exactly what the dispatcher is handed. */
  function Cleaned(ls: seq<string>): (cs: seq<string>)
    ensures |cs| <= |ls|
    ensures forall k :: 0 <= k < |cs| ==> cs[k] != [] && IsStripped(cs[k])
  {
    if ls == [] then []
    else
      var line := Strip(ls[0]);
      (if line == [] then [] else [line]) + Cleaned(ls[1..])
  }

  function Commands(buf: string): seq<string> {
    Cleaned(Lines(buf))
  }

  // ---------------------------------------------------------------------------

  /** One turn of the inner loop leaves the same leftover as the whole loop. */
  lemma LeftoverStep(buf: string, rest: string, left: string)
    requires NL in buf && rest == buf[FirstNewline(buf) + 1..]
    requires left == Leftover(rest)
    ensures left == Leftover(buf)
  {
  }

  /** Cutting at the first terminator loses nothing. */
  lemma CutAtFirst(buf: string)
    requires NL in buf
    ensures buf == buf[..FirstNewline(buf)] + [NL] + buf[FirstNewline(buf) + 1..]
  {
  }

  /** The lines taken out, each followed by `\n`, and then the leftover, give back the
      buffer as it was before the loop. */
  lemma {:induction false} Reassemble(buf: string)
    ensures Join(Lines(buf)) + Leftover(buf) == buf
    decreases |buf|
  {
    if NL in buf {
      var i := FirstNewline(buf);
      var rest := buf[i + 1..];
      Reassemble(rest);
      CutStep(buf);
      CutAtFirst(buf);
      Regroup(buf[..i] + [NL], Join(Lines(rest)), Leftover(rest));
    }
  }

  /** One cut: the first line goes out with its terminator, the rest is framed alone. */
  lemma CutStep(buf: string)
    requires NL in buf
    ensures var i := FirstNewline(buf);
      && Join(Lines(buf)) == buf[..i] + [NL] + Join(Lines(buf[i + 1..]))
      && Leftover(buf) == Leftover(buf[i + 1..])
  {
    var i := FirstNewline(buf);
    var ls := [buf[..i]] + Lines(buf[i + 1..]);
    assert ls[0] == buf[..i] && ls[1..] == Lines(buf[i + 1..]);
  }

  lemma Regroup(p: string, q: string, r: string)
    ensures p + q + r == p + (q + r)
  {
  }

  lemma {:induction false} JoinAppend(a: seq<string>, b: seq<string>)
    ensures Join(a + b) == Join(a) + Join(b)
  {
    if a != [] {
      assert (a + b)[0] == a[0];
      assert (a + b)[1..] == a[1..] + b;
      JoinAppend(a[1..], b);
      calc {
        Join(a + b);
        a[0] + [NL] + Join(a[1..] + b);
        a[0] + [NL] + (Join(a[1..]) + Join(b));
        (a[0] + [NL] + Join(a[1..])) + Join(b);
      }
    } else {
      assert a + b == b;
    }
  }

  /** Framing is the inverse of joining: terminator-free lines and a terminator-free tail are
      recovered exactly. */
  lemma {:induction false} FrameJoin(ls: seq<string>, rest: string)
    requires forall k :: 0 <= k < |ls| ==> NL !in ls[k]
    requires NL !in rest
    ensures Lines(Join(ls) + rest) == ls
    ensures Leftover(Join(ls) + rest) == rest
  {
    if ls != [] {
      var tail := Join(ls[1..]) + rest;
      Regroup(ls[0] + [NL], Join(ls[1..]), rest);
      CutAfter(ls[0], tail);
      FrameJoin(ls[1..], rest);
      assert ls == [ls[0]] + ls[1..];
    }
  }

  /** A line without a terminator, then `\n`: the first cut falls right after that line. */
  lemma CutAfter(line: string, tail: string)
    requires NL !in line
    ensures var buf := line + [NL] + tail;
      && NL in buf && FirstNewline(buf) == |line|
      && buf[..|line|] == line && buf[|line| + 1..] == tail
  {
    var buf := line + [NL] + tail;
    assert buf[|line|] == NL;
    assert buf[..|line|] == line;
    assert buf[|line| + 1..] == tail;
  }

  lemma Reglue(a: string, b: string, la: seq<string>, lb: seq<string>, mid: string, r: string)
    requires Join(la) + mid == a && Join(lb) + r == mid + b
    ensures a + b == Join(la + lb) + r
  {
    JoinAppend(la, lb);
    assert a + b == Join(la) + (mid + b);
  }

  lemma NoTerminatorsConcat(la: seq<string>, lb: seq<string>)
    requires forall k :: 0 <= k < |la| ==> NL !in la[k]
    requires forall k :: 0 <= k < |lb| ==> NL !in lb[k]
    ensures forall k :: 0 <= k < |la + lb| ==> NL !in (la + lb)[k]
  {
    forall k | 0 <= k < |la + lb| ensures NL !in (la + lb)[k] {
      if k < |la| { assert (la + lb)[k] == la[k]; } else { assert (la + lb)[k] == lb[k - |la|]; }
    }
  }

  /** Data that arrives in two reads is framed as if it had arrived in one: the lines of the
      first read, then those of the leftover plus the second read, are the lines of the whole
      stream, and the final leftover is the same. */
  lemma {:induction false} ChunkedFraming(a: string, b: string)
    ensures Lines(a) + Lines(Leftover(a) + b) == Lines(a + b)
    ensures Leftover(Leftover(a) + b) == Leftover(a + b)
  {
    var la := Lines(a);
    var lb := Lines(Leftover(a) + b);
    var r := Leftover(Leftover(a) + b);
    Reassemble(a);
    Reassemble(Leftover(a) + b);
    Reglue(a, b, la, lb, Leftover(a), r);
    NoTerminatorsConcat(la, lb);
    FrameJoin(la + lb, r);
  }

  lemma {:induction false} CleanedAppend(a: seq<string>, b: seq<string>)
    ensures Cleaned(a + b) == Cleaned(a) + Cleaned(b)
  {
    if a != [] {
      assert (a + b)[0] == a[0];
      assert (a + b)[1..] == a[1..] + b;
      CleanedAppend(a[1..], b);
      var head := if Strip(a[0]) == [] then [] else [Strip(a[0])];
      assert Cleaned(a + b) == head + Cleaned(a[1..] + b);
      assert Cleaned(a) == head + Cleaned(a[1..]);
    } else {
      assert a + b == b;
    }
  }

  /** The commands of a buffer are those of its first line, then those of the rest. */
  lemma CommandsStep(buf: string)
    requires NL in buf
    ensures var i := FirstNewline(buf);
      Commands(buf) == (if Strip(buf[..i]) == [] then [] else [Strip(buf[..i])]) + Commands(buf[i + 1..])
  {
    var i := FirstNewline(buf);
    CleanedAppend([buf[..i]], Lines(buf[i + 1..]));
    assert [buf[..i]][1..] == [];
  }

  /** The commands of a buffer are those of its first line, followed by those of the rest. */
  lemma CommandsJoin(buf: string, rest: string, first: seq<string>, later: seq<string>)
    requires NL in buf && rest == buf[FirstNewline(buf) + 1..]
    requires first == (if Strip(buf[..FirstNewline(buf)]) == [] then [] else [Strip(buf[..FirstNewline(buf)])])
    requires later == Commands(rest)
    ensures first + later == Commands(buf)
  {
    CommandsStep(buf);
  }

  /** The same holds for the commands dispatched: chunking does not change them. */
  lemma ChunkedCommands(a: string, b: string)
    ensures Commands(a) + Commands(Leftover(a) + b) == Commands(a + b)
  {
    ChunkedFraming(a, b);
    CleanedAppend(Lines(a), Lines(Leftover(a) + b));
  }
}
