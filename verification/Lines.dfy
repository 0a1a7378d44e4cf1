/**
 Cutting a byte stream into lines, and the line writer of `internal/linewriter`.
 */
module Lines {
  import opened Prelude
  import opened Text

  const NL := '\n'
  const MARK := "\U{2026}"

  /** The newline-terminated lines of a stream, without their newlines. */
  function LinesOf(w: string): (r: seq<string>)
  {
    if w == [] then []
    else
      var n := |w| - 1;
      if w[n] == NL then LinesOf(w[..n]) + [TailOf(w[..n])] else LinesOf(w[..n])
  }

  /** What follows the last newline. */
  function TailOf(w: string): string
  {
    if w == [] || w[|w| - 1] == NL then [] else TailOf(w[..|w| - 1]) + [w[|w| - 1]]
  }

  function Terminated(lines: seq<string>): string
  {
    if lines == [] then [] else Terminated(lines[..|lines| - 1]) + lines[|lines| - 1] + [NL]
  }

  /** Nothing is lost, moved or invented, and no line holds a newline: this fixes the lines. */
  lemma {:induction false} LinesRebuild(w: string)
    ensures Terminated(LinesOf(w)) + TailOf(w) == w
    ensures NL !in TailOf(w) && forall i :: 0 <= i < |LinesOf(w)| ==> NL !in LinesOf(w)[i]
  {
    if w != [] {
      var n := |w| - 1;
      LinesRebuild(w[..n]);
      RebuildByte(w[..n], w[n]);
      assert w == w[..n] + [w[n]];
    }
  }

  lemma RebuildByte(w: string, b: char)
    requires Terminated(LinesOf(w)) + TailOf(w) == w
    requires NL !in TailOf(w) && forall i :: 0 <= i < |LinesOf(w)| ==> NL !in LinesOf(w)[i]
    ensures Terminated(LinesOf(w + [b])) + TailOf(w + [b]) == w + [b]
    ensures NL !in TailOf(w + [b]) && forall i :: 0 <= i < |LinesOf(w + [b])| ==> NL !in LinesOf(w + [b])[i]
  {
    LinesOfByte(w, b);
    if b == NL {
      TerminatedMore(LinesOf(w), TailOf(w));
      NothingAfter(w + [NL]);
    } else {
      Regroup(Terminated(LinesOf(w)), TailOf(w), [b]);
    }
  }

  lemma TerminatedMore(lines: seq<string>, line: string)
    ensures Terminated(lines + [line]) == Terminated(lines) + line + [NL]
  {
    assert (lines + [line])[..|lines|] == lines;
  }

  /** More bytes only extend the open line, then add lines. */
  lemma {:induction false} LinesOfSum(w: string, p: string)
    ensures LinesOf(w + p) == LinesOf(w) + LinesOf(TailOf(w) + p)
    ensures TailOf(w + p) == TailOf(TailOf(w) + p)
  {
    if p == [] {
      LinesRebuild(w);
      OneOpenLine(TailOf(w));
      assert w + p == w && TailOf(w) + p == TailOf(w);
    } else {
      var q, b := p[..|p| - 1], p[|p| - 1];
      LinesOfSum(w, q);
      assert p == q + [b];
      LinesOfSumByte(LinesOf(w), w + q, TailOf(w) + q, b);
      Regroup(w, q, [b]);
      Regroup(TailOf(w), q, [b]);
    }
  }

  lemma LinesOfSumByte(before: seq<string>, w: string, open: string, b: char)
    requires LinesOf(w) == before + LinesOf(open) && TailOf(w) == TailOf(open)
    ensures LinesOf(w + [b]) == before + LinesOf(open + [b]) && TailOf(w + [b]) == TailOf(open + [b])
  {
    LinesOfByte(w, b);
    LinesOfByte(open, b);
  }

  lemma LinesOfByte(w: string, b: char)
    ensures LinesOf(w + [b]) == if b == NL then LinesOf(w) + [TailOf(w)] else LinesOf(w)
    ensures TailOf(w + [b]) == if b == NL then [] else TailOf(w) + [b]
  {
    assert (w + [b])[..|w|] == w;
  }

  lemma {:induction false} OneOpenLine(p: string)
    requires NL !in p
    ensures LinesOf(p) == [] && TailOf(p) == p
  {
    if p != [] {
      var q := p[..|p| - 1];
      OneOpenLine(q);
      assert p == q + [p[|p| - 1]];
      LinesOfByte(q, p[|p| - 1]);
    }
  }

  /** A line and its newline at the front of a stream. */
  lemma LineFirst(line: string, rest: string)
    requires NL !in line
    ensures LinesOf(line + [NL] + rest) == [line] + LinesOf(rest)
    ensures TailOf(line + [NL] + rest) == TailOf(rest)
  {
    OneOpenLine(line);
    LinesOfByte(line, NL);
    LinesOfSum(line + [NL], rest);
    assert [] + rest == rest;
    assert [] + [line] == [line];
  }

  /** The lines and the open line are the only ones that spell the stream. */
  lemma {:induction false} LinesUnique(lines: seq<string>, tail: string)
    requires NL !in tail && forall i :: 0 <= i < |lines| ==> NL !in lines[i]
    ensures LinesOf(Terminated(lines) + tail) == lines && TailOf(Terminated(lines) + tail) == tail
  {
    OneOpenLine(tail);
    if lines == [] {
      assert Terminated(lines) + tail == tail;
    } else {
      var front, last := lines[..|lines| - 1], lines[|lines| - 1];
      LinesUnique(front, "");
      var w := Terminated(front);
      assert w + "" == w;
      OneMoreLine(w, last, tail);
      OneMoreTerminated(front, last, tail);
      assert lines == front + [last];
    }
  }

  lemma OneMoreTerminated(front: seq<string>, last: string, tail: string)
    ensures Terminated(front + [last]) + tail == Terminated(front) + (last + [NL] + tail)
  {
    assert (front + [last])[..|front|] == front;
  }

  lemma OneMoreLine(w: string, last: string, tail: string)
    requires TailOf(w) == "" && NL !in last && NL !in tail
    ensures LinesOf(w + (last + [NL] + tail)) == LinesOf(w) + [last] && TailOf(w + (last + [NL] + tail)) == tail
  {
    var p := last + [NL] + tail;
    LinesOfSum(w, p);
    LineFirst(last, tail);
    OneOpenLine(tail);
    assert "" + p == p;
  }

  /** A piece without newline extends the open line. */
  lemma LinesOfPiece(w: string, piece: string)
    requires NL !in piece
    ensures LinesOf(w + piece) == LinesOf(w) && TailOf(w + piece) == TailOf(w) + piece
  {
    LinesOfSum(w, piece);
    LinesRebuild(w);
    OneOpenLine(TailOf(w) + piece);
  }

  // ----- The line writer

  const MAX_LINE: nat := 16 * 1024 * 1024

  function Capped(line: string): string { if |line| > MAX_LINE then line[..MAX_LINE] else line }

  /** A line as it is handed on: cut at the cap, and marked once if it was cut. */
  function Handed(line: string): string { Capped(line) + if |line| > MAX_LINE then MARK else "" }

  function HandedAll(lines: seq<string>): seq<string>
  {
    seq(|lines|, i requires 0 <= i < |lines| => Handed(lines[i]))
  }

  /** A line is handed on whole up to 16 MiB, and beyond that cut there and marked. */
  ghost predicate HandsOn(line: string, s: string)
  {
    if |line| <= 16_777_216 then s == line else s == line[..16_777_216] + "\U{2026}"
  }

  /** However a stream is written as lines and a last piece without newlines, those are handed on. */
  lemma HandedMeans(lines: seq<string>, tail: string)
    requires NL !in tail && forall i :: 0 <= i < |lines| ==> NL !in lines[i]
    ensures var w := Terminated(lines) + tail; var out := HandedAll(LinesOf(w));
            && TailOf(w) == tail && HandsOn(tail, Handed(tail))
            && |out| == |lines| && forall i :: 0 <= i < |lines| ==> HandsOn(lines[i], out[i])
  {
    LinesUnique(lines, tail);
    WholeOrCut(tail);
    forall i | 0 <= i < |lines| ensures HandsOn(lines[i], Handed(lines[i])) { WholeOrCut(lines[i]); }
  }

  lemma WholeOrCut(line: string)
    ensures HandsOn(line, Handed(line))
  {
    NothingAfter(line);
  }

  /** Midway through a write of `whole`: `lines` are handed on, `open` is read, `rest` is not. */
  ghost predicate Midway(whole: string, lines: seq<string>, open: string, rest: string)
  {
    TailOf(whole) == TailOf(open + rest) && HandedAll(LinesOf(whole)) == lines + HandedAll(LinesOf(open + rest))
  }

  lemma HandedFirst(handed: seq<string>, line: string, more: seq<string>)
    ensures handed + HandedAll([line] + more) == handed + [Handed(line)] + HandedAll(more)
  {
    assert HandedAll([line] + more) == [Handed(line)] + HandedAll(more);
  }

  lemma MidwayNewline(whole: string, lines: seq<string>, open: string, rest: string, i: nat)
    requires NL !in open && Midway(whole, lines, open, rest) && i < |rest| && i == IndexOf(rest, NL)
    ensures NL !in rest[..i] && Midway(whole, lines + [Handed(open + rest[..i])], [], rest[i + 1..])
  {
    var piece, after := rest[..i], rest[i + 1..];
    assert rest == piece + [NL] + after;
    assert open + rest == open + piece + [NL] + after;
    LineFirst(open + piece, after);
    NothingBefore(after);
    HandedFirst(lines, open + piece, LinesOf(after));
  }

  lemma MidwayEnd(whole: string, lines: seq<string>, open: string, rest: string)
    requires NL !in open && NL !in rest && Midway(whole, lines, open, rest)
    ensures TailOf(whole) == open + rest && HandedAll(LinesOf(whole)) == lines
    ensures Midway(whole, lines, open + rest, [])
  {
    OneOpenLine(open + rest);
    NothingAfter(open + rest);
  }

  class Writer {
    var buf: string
    var dropped: bool
    var out: seq<string>

    /** The bytes since the last newline or flush. */
    ghost var open: string

    ghost predicate Valid()
      reads this
    {
      NL !in open && buf == Capped(open) && dropped == (|open| > MAX_LINE)
    }

    constructor ()
      ensures Valid() && out == [] && open == []
    {
      buf, dropped, out, open := [], false, [], [];
    }

    method Accumulate(b: string)
      requires Valid() && NL !in b
      modifies this`buf, this`dropped, this`open
      ensures Valid() && open == old(open) + b
    {
      open := open + b;
      if dropped { return; }
      if |buf| + |b| > MAX_LINE {
        assert old(open) + b[..MAX_LINE - |buf|] == open[..MAX_LINE];
        buf := buf + b[..MAX_LINE - |buf|];
        dropped := true;
        return;
      }
      buf := buf + b;
    }

    method Take() returns (s: string)
      requires Valid()
      modifies this`buf, this`dropped, this`open
      ensures Valid() && open == [] && s == Handed(old(open))
    {
      s := buf;
      if dropped { s := s + MARK; }
      buf, dropped, open := [], false, [];
    }

    method Write(p: string)
      requires Valid()
      modifies this
      ensures Valid() && |buf| <= MAX_LINE
      ensures open == TailOf(old(open) + p)
      ensures out == old(out) + HandedAll(LinesOf(old(open) + p))
    {
      var lines: seq<string> := [];
      var rest := p;
      ghost var whole := old(open) + p;
      NothingAfter(HandedAll(LinesOf(whole)));
      while |rest| > 0
        invariant Valid() && out == old(out)
        invariant Midway(whole, lines, open, rest)
        decreases |rest|
      {
        var i := IndexOf(rest, NL);
        if i == |rest| {
          MidwayEnd(whole, lines, open, rest);
          Accumulate(rest);
          rest := [];
          break;
        }
        MidwayNewline(whole, lines, open, rest, i);
        Accumulate(rest[..i]);
        var line := Take();
        lines := lines + [line];
        rest := rest[i + 1..];
      }
      MidwayEnd(whole, lines, open, []);
      NothingAfter(open);
      out := out + lines;
    }

    /** Hands on an open line without its newline. */
    method Flush()
      requires Valid()
      modifies this
      ensures Valid() && open == []
      ensures out == old(out) + if old(open) != [] then [Handed(old(open))] else []
    {
      var has := |buf| > 0;
      if has {
        var line := Take();
        out := out + [line];
      }
    }
  }

  function Bytes(chunks: seq<string>): string
  {
    if chunks == [] then [] else Bytes(chunks[..|chunks| - 1]) + chunks[|chunks| - 1]
  }

  /** However the stream is cut into chunks, the lines are those of the whole stream. */
  method WriteAll(w: Writer, chunks: seq<string>)
    requires w.Valid() && w.open == [] && w.out == []
    modifies w
    ensures w.out == HandedAll(LinesOf(Bytes(chunks))) +
                     if TailOf(Bytes(chunks)) != [] then [Handed(TailOf(Bytes(chunks)))] else []
  {
    for i := 0 to |chunks|
      invariant w.Valid()
      invariant w.open == TailOf(Bytes(chunks[..i]))
      invariant w.out == HandedAll(LinesOf(Bytes(chunks[..i])))
    {
      ghost var was := Bytes(chunks[..i]);
      assert chunks[..i + 1][..i] == chunks[..i];
      LinesOfSum(was, chunks[i]);
      w.Write(chunks[i]);
    }
    assert chunks[..|chunks|] == chunks;
    w.Flush();
  }
}
