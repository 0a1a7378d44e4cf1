/**
 The log pump: a container's output, chunk by chunk, through the framer and the coalescer, with
 timers firing and calling back at any moment.
 */
module LogPump {
  import opened Prelude
  import opened LogFramer
  import opened Coalescer

  const BATCH := 500

  datatype Chunk = Chunk(stderr: bool, bytes: string)

  function StreamOf(c: Chunk): string { if c.stderr then "stderr" else "stdout" }

  function BytesOf(chunks: seq<Chunk>, stream: string): string
  {
    if chunks == [] then ""
    else
      var last := chunks[|chunks| - 1];
      BytesOf(chunks[..|chunks| - 1], stream) + if StreamOf(last) == stream then last.bytes else ""
  }

  datatype Alarm = Fires(timer: nat) | CallsBack(timer: nat)

  /** What the coalescer has taken in, sent or not. */
  ghost function Taken(co: Coalescer<LogLine, string>): seq<LogLine>
    reads co
  {
    Sent(co.out) + co.pending
  }

  /** Timers firing and callbacks running between two calls; after the end they send nothing. */
  method Alarms(co: Coalescer<LogLine, string>, alarms: seq<Alarm>)
    requires co.Valid()
    modifies co
    ensures co.Valid() && co.done == old(co.done) && Taken(co) == old(Taken(co))
    ensures old(co.done) ==> co.out == old(co.out)
  {
    for i := 0 to |alarms|
      invariant co.Valid() && co.done == old(co.done) && Taken(co) == old(Taken(co))
      invariant old(co.done) ==> co.out == old(co.out)
    {
      match alarms[i]
      case Fires(t) => co.Fire(t);
      case CallsBack(t) =>
        if t in co.due {
          co.OnTimer(t);
          assert Sent(co.out) + [] == Sent(co.out);
        }
    }
  }

  /**
   Pushes `lines`; `world` says which alarms come before the push of the n-th line, or before the
   end after the last.
   */
  method PushAll(co: Coalescer<LogLine, string>, lines: seq<LogLine>, world: nat -> seq<Alarm>, n: nat)
    requires co.Valid() && !co.done
    modifies co
    ensures co.Valid() && !co.done && Taken(co) == old(Taken(co)) + lines
  {
    for i := 0 to |lines|
      invariant co.Valid() && !co.done && Taken(co) == old(Taken(co)) + lines[..i]
    {
      Alarms(co, world(n + i));
      co.Push(lines[i]);
      assert lines[..i + 1] == lines[..i] + [lines[i]];
    }
    assert lines[..|lines|] == lines;
  }

  /** Every stream's lines among `lines` are those due after its bytes. */
  ghost predicate AllDue(r: Reader, chunks: seq<Chunk>, lines: seq<LogLine>)
  {
    forall s {:trigger Of(lines, s)} :: Of(lines, s) == Due(r, s, BytesOf(chunks, s))
  }

  /** What a stream has more to give is its own. */
  lemma MoreIsOwn(r: Reader, own: string, w: string, all: seq<LogLine>, before: seq<LogLine>, more: seq<LogLine>)
    requires all == Due(r, own, w) && all == before + more
    ensures forall i :: 0 <= i < |more| ==> more[i].stream == own
  {
    DueOwn(r, own, w);
    forall i | 0 <= i < |more| ensures more[i].stream == own { assert more[i] == all[|before| + i]; }
  }

  lemma DueMore(r: Reader, c: Chunk, was: string, lines: seq<LogLine>, more: seq<LogLine>, s: string)
    requires Of(lines, s) == Due(r, s, was)
    requires forall i :: 0 <= i < |more| ==> more[i].stream == StreamOf(c)
    requires s == StreamOf(c) ==> Due(r, s, was + c.bytes) == Due(r, s, was) + more
    ensures Of(lines + more, s) == Due(r, s, if s == StreamOf(c) then was + c.bytes else was)
  {
    OfSum(lines, more, s);
    OfOwn(more, StreamOf(c), s);
    NothingAfter(Of(lines, s));
  }

  lemma AllDueStep(r: Reader, chunks: seq<Chunk>, c: Chunk, lines: seq<LogLine>, more: seq<LogLine>)
    requires AllDue(r, chunks, lines)
    requires var s := StreamOf(c); Due(r, s, BytesOf(chunks, s) + c.bytes) == Due(r, s, BytesOf(chunks, s)) + more
    ensures AllDue(r, chunks + [c], lines + more)
  {
    var own := StreamOf(c);
    var w := BytesOf(chunks, own);
    MoreIsOwn(r, own, w + c.bytes, Due(r, own, w + c.bytes), Due(r, own, w), more);
    forall s ensures Of(lines + more, s) == Due(r, s, BytesOf(chunks + [c], s)) {
      assert Of(lines, s) == Due(r, s, BytesOf(chunks, s));
      DueMore(r, c, BytesOf(chunks, s), lines, more, s);
      BytesOfOneMore(chunks, c, s);
    }
  }

  lemma BytesOfOneMore(chunks: seq<Chunk>, c: Chunk, s: string)
    ensures BytesOf(chunks + [c], s) == if s == StreamOf(c) then BytesOf(chunks, s) + c.bytes else BytesOf(chunks, s)
  {
    assert (chunks + [c])[..|chunks|] == chunks;
    NothingAfter(BytesOf(chunks, s));
  }

  /** A stream's bytes are those of its own chunks in order: error output is "stderr", the rest "stdout". */
  lemma BytesMean(a: seq<Chunk>, b: seq<Chunk>, s: string, c: Chunk)
    ensures BytesOf(a + b, s) == BytesOf(a, s) + BytesOf(b, s)
    ensures BytesOf([c], "stderr") == if c.stderr then c.bytes else ""
    ensures BytesOf([c], "stdout") == if c.stderr then "" else c.bytes
  {
    OneChunk(c);
    BytesOfSum(a, b, s);
  }

  lemma {:induction false} BytesOfSum(a: seq<Chunk>, b: seq<Chunk>, s: string)
    ensures BytesOf(a + b, s) == BytesOf(a, s) + BytesOf(b, s)
  {
    if b == [] {
      NothingAfter(a);
      NothingAfter(BytesOf(a, s));
    } else {
      BytesOfSum(a, b[..|b| - 1], s);
      BytesSumStep(a, b[..|b| - 1], b[|b| - 1], s);
      assert b == b[..|b| - 1] + [b[|b| - 1]];
    }
  }

  lemma BytesSumStep(a: seq<Chunk>, b: seq<Chunk>, c: Chunk, s: string)
    requires BytesOf(a + b, s) == BytesOf(a, s) + BytesOf(b, s)
    ensures BytesOf(a + (b + [c]), s) == BytesOf(a, s) + BytesOf(b + [c], s)
  {
    Regroup(a, b, [c]);
    BytesOfOneMore(a + b, c, s);
    BytesOfOneMore(b, c, s);
    Regroup(BytesOf(a, s), BytesOf(b, s), c.bytes);
  }

  lemma OneChunk(c: Chunk)
    ensures BytesOf([c], "stderr") == if c.stderr then c.bytes else ""
    ensures BytesOf([c], "stdout") == if c.stderr then "" else c.bytes
  {
    assert [c][..0] == [];
    assert "stderr"[3] != "stdout"[3];
    NothingBefore(c.bytes);
  }

  lemma LeftOwn(r: Reader, stream: string, w: string, s: string)
    ensures Of(Left(r, stream, w), s) == if s == stream then Left(r, stream, w) else []
  {
    OfOwn(Left(r, stream, w), stream, s);
  }

  /** What the final flush gives: the open lines of both streams. */
  ghost function LeftOfBoth(r: Reader, chunks: seq<Chunk>): seq<LogLine>
  {
    Left(r, "stdout", BytesOf(chunks, "stdout")) + Left(r, "stderr", BytesOf(chunks, "stderr"))
  }

  lemma LeftOfOne(r: Reader, chunks: seq<Chunk>, s: string)
    requires s == "stdout" || s == "stderr"
    ensures Of(LeftOfBoth(r, chunks), s) == Left(r, s, BytesOf(chunks, s))
  {
    assert "stdout"[3] != "stderr"[3];
    var out, err := Left(r, "stdout", BytesOf(chunks, "stdout")), Left(r, "stderr", BytesOf(chunks, "stderr"));
    LeftOwn(r, "stdout", BytesOf(chunks, "stdout"), s);
    LeftOwn(r, "stderr", BytesOf(chunks, "stderr"), s);
    OfSum(out, err, s);
  }

  /** Once the open lines follow, each stream has given all its lines. */
  lemma AllDueThenLeft(r: Reader, chunks: seq<Chunk>, lines: seq<LogLine>, s: string)
    requires AllDue(r, chunks, lines) && (s == "stdout" || s == "stderr")
    ensures Of(lines + LeftOfBoth(r, chunks), s) == AllLines(r, s, BytesOf(chunks, s))
  {
    OfSum(lines, LeftOfBoth(r, chunks), s);
    LeftOfOne(r, chunks, s);
    DueThenLeft(r, s, BytesOf(chunks, s));
  }

  ghost predicate Heard(framer: LineFramer, chunks: seq<Chunk>)
    reads framer
  {
    forall s {:trigger framer.Heard(s)} :: framer.Heard(s) == BytesOf(chunks, s)
  }

  lemma {:induction false} CountedLines(one: LogLine -> int, items: seq<LogLine>)
    requires forall l :: one(l) == 1
    ensures Total(one, items) == |items|
  {
    if items != [] { CountedLines(one, items[..|items| - 1]); }
  }

  /**
   Whatever the chunks, their interleaving and the timers, which may fire and call back before any
   push, between the last push and the end, and after the end (`late`): the batches together hold,
   for each stream, exactly the lines of its bytes in order, no batch is larger than 500 lines, only
   the last batch ends the stream, and it carries the error.
   */
  method PumpLogs(r: Reader, chunks: seq<Chunk>, world: nat -> seq<Alarm>, late: seq<Alarm>, err: string)
    returns (sent: seq<Batch<LogLine, string>>)
    ensures Of(Sent(sent), "stdout") == AllLines(r, "stdout", BytesOf(chunks, "stdout"))
    ensures Of(Sent(sent), "stderr") == AllLines(r, "stderr", BytesOf(chunks, "stderr"))
    ensures sent != [] && sent[|sent| - 1].done && sent[|sent| - 1].final == err
    ensures forall i :: 0 <= i < |sent| - 1 ==> !sent[i].done && sent[i].final == "" && sent[i].items != []
    ensures forall i :: 0 <= i < |sent| ==> |sent[i].items| <= BATCH
  {
    var one := (l: LogLine) => 1;
    var framer, co, start := Begin(r, one);
    assert chunks[..0] == [];
    ghost var lines := PumpChunks(framer, co, chunks, world, start);
    AllDueThenLeft(r, chunks, lines, "stdout");
    AllDueThenLeft(r, chunks, lines, "stderr");
    co.Finish(err);
    Alarms(co, late);
    sent := co.out;
    co.AllFit();
    BatchesSmall(one, sent);
  }

  /** Before the first chunk nothing has been heard, sent or left pending. */
  method Begin(r: Reader, one: LogLine -> int)
    returns (framer: LineFramer, co: Coalescer<LogLine, string>, ghost start: seq<LogLine>)
    ensures fresh(framer) && fresh(co) && Pumped(framer, co, [], start)
    ensures framer.r == r && co.sizeOf == one && co.maxSize == BATCH && co.zero == ""
  {
    co := new Coalescer<LogLine, string>(BATCH, one, "");
    framer := new LineFramer(r);
    forall s ensures Due(r, s, "") == [] { NothingDue(r, s); }
    start := [];
  }

  lemma BatchesSmall(one: LogLine -> int, sent: seq<Batch<LogLine, string>>)
    requires forall l :: one(l) == 1
    requires forall i :: 0 <= i < |sent| ==> NotOverdue(one, BATCH, sent[i].items)
    ensures forall i :: 0 <= i < |sent| ==> |sent[i].items| <= BATCH
  {
    forall i | 0 <= i < |sent| ensures |sent[i].items| <= BATCH {
      var items := sent[i].items;
      assert NotOverdue(one, BATCH, items);
      if |items| > 1 { CountedLines(one, items[..|items| - 1]); }
    }
  }

  /** After some chunks: the framer has heard them and the coalescer has taken the lines due. */
  ghost predicate Pumped(framer: LineFramer, co: Coalescer<LogLine, string>, chunks: seq<Chunk>, lines: seq<LogLine>)
    reads framer, co
  {
    && framer.Valid() && Heard(framer, chunks)
    && co.Valid() && !co.done && Taken(co) == lines
    && AllDue(framer.r, chunks, lines)
  }

  lemma HeardMore(said: seq<Chunk>, c: Chunk, s: string, now: string)
    requires now == BytesOf(said, s) + if s == StreamOf(c) then c.bytes else ""
    ensures now == BytesOf(said + [c], s)
  {
    BytesOfOneMore(said, c, s);
    NothingAfter(BytesOf(said, s));
  }

  method PumpChunk(framer: LineFramer, co: Coalescer<LogLine, string>, c: Chunk, world: nat -> seq<Alarm>, n: nat,
                   ghost said: seq<Chunk>, ghost lines: seq<LogLine>)
    returns (m: nat, ghost more: seq<LogLine>)
    requires Pumped(framer, co, said, lines)
    modifies framer, co
    ensures Pumped(framer, co, said + [c], more)
  {
    var out := framer.Write(StreamOf(c), c.bytes);
    assert co.Valid() && Taken(co) == lines;
    forall s ensures framer.Heard(s) == BytesOf(said + [c], s) {
      assert old(framer.Heard(s)) == BytesOf(said, s);
      HeardMore(said, c, s, framer.Heard(s));
    }
    assert old(framer.Heard(StreamOf(c))) == BytesOf(said, StreamOf(c));
    AllDueStep(framer.r, said, c, lines, out);
    PushAll(co, out, world, n);
    assert framer.Valid() && Heard(framer, said + [c]);
    m, more := n + |out|, lines + out;
  }

  method PumpChunks(framer: LineFramer, co: Coalescer<LogLine, string>, chunks: seq<Chunk>, world: nat -> seq<Alarm>,
                    ghost start: seq<LogLine>)
    returns (ghost lines: seq<LogLine>)
    requires Pumped(framer, co, chunks[..0], start)
    modifies framer, co
    ensures co.Valid() && !co.done
    ensures AllDue(framer.r, chunks, lines) && Taken(co) == lines + LeftOfBoth(framer.r, chunks)
  {
    lines := start;
    var n: nat := 0;
    for i := 0 to |chunks|
      invariant Pumped(framer, co, chunks[..i], lines)
    {
      assert chunks[..i + 1] == chunks[..i] + [chunks[i]];
      n, lines := PumpChunk(framer, co, chunks[i], world, n, chunks[..i], lines);
    }
    assert chunks[..|chunks|] == chunks;
    PumpLeft(framer, co, world, n, chunks, lines);
  }

  method PumpLeft(framer: LineFramer, co: Coalescer<LogLine, string>, world: nat -> seq<Alarm>, n: nat,
                  ghost chunks: seq<Chunk>, ghost lines: seq<LogLine>)
    requires Pumped(framer, co, chunks, lines)
    modifies framer, co
    ensures co.Valid() && !co.done && Taken(co) == lines + LeftOfBoth(framer.r, chunks)
  {
    var left := framer.Flush();
    assert co.Valid() && Taken(co) == lines;
    PushAll(co, left, world, n);
    Alarms(co, world(n + |left|));
  }
}
