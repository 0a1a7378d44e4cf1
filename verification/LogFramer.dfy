/**
 The log framer of `internal/docker/logs.go`: interleaved chunks of the container's streams become
 capped log lines, which the coalescer then sends in batches.
 */
module LogFramer {
  import opened Prelude
  import opened Text
  import opened Lines

  const MAX_LOG_LINE: nat := 64 * 1024

  datatype LogLine = LogLine(stream: string, ts: string, text: string)

  /** A stream's open line, or the note that the rest of an over-long one is being dropped. */
  datatype Partial = Partial(buf: string, skipping: bool)

  /** How raw bytes become text: the timestamp test and the UTF-8 repair are the library's. */
  datatype Reader = Reader(timestamps: bool, isTime: string -> bool, repair: string -> string)

  function WithoutCr(raw: string): string { if |raw| > 0 && raw[|raw| - 1] == '\r' then raw[..|raw| - 1] else raw }

  /** The text begins with a timestamp of `k` bytes and a space. */
  predicate StampedAt(r: Reader, text: string, k: nat)
  {
    && r.timestamps && 0 < k < |text| && text[k] == ' ' && (forall i :: 0 <= i < k ==> text[i] != ' ')
    && r.isTime(text[..k])
  }

  /** Up to the first space when that is a timestamp; the rest is the text. */
  function Line(r: Reader, stream: string, raw: string, truncated: bool): (l: LogLine)
    ensures l.stream == stream
    ensures l.ts != "" ==> r.timestamps && r.isTime(l.ts) && ' ' !in l.ts
    ensures exists rest: string ::
              && WithoutCr(raw) == (if l.ts == "" then rest else l.ts + " " + rest)
              && l.text == r.repair(rest) + if truncated then MARK else ""
  {
    var line := WithoutCr(raw);
    var sp := IndexOf(line, ' ');
    var stamped := r.timestamps && 0 < sp < |line| && r.isTime(line[..sp]);
    assert stamped ==> line == line[..sp] + " " + line[sp + 1..];
    var ts, rest := if stamped then line[..sp] else "", if stamped then line[sp + 1..] else line;
    LogLine(stream, ts, r.repair(rest) + if truncated then MARK else "")
  }

  /** A text, with or without a CR behind it, gives its timestamp and what follows, or all of it. */
  lemma LineMeans(r: Reader, stream: string, text: string, cr: bool, truncated: bool)
    requires cr || text == "" || text[|text| - 1] != '\r'
    ensures var l := Line(r, stream, if cr then text + "\r" else text, truncated);
            && l.stream == stream
            && (forall k: nat :: StampedAt(r, text, k) ==>
                  l.ts == text[..k] && l.text == r.repair(text[k + 1..]) + if truncated then "\U{2026}" else "")
            && ((forall k: nat :: !StampedAt(r, text, k)) ==>
                  l.ts == "" && l.text == r.repair(text) + if truncated then "\U{2026}" else "")
  {
    var raw := if cr then text + "\r" else text;
    assert WithoutCr(raw) == text;
    var sp := IndexOf(text, ' ');
    forall k: nat | StampedAt(r, text, k) ensures k == sp { IndexOfIs(text, ' ', k); }
    if r.timestamps && 0 < sp < |text| && r.isTime(text[..sp]) { assert StampedAt(r, text, sp); }
  }

  // ----- What a stream's bytes should give

  /** A line, cut at the cap and marked when it is longer. */
  function Framed(r: Reader, stream: string, line: string): LogLine
  {
    if |line| > MAX_LOG_LINE then Line(r, stream, line[..MAX_LOG_LINE], true) else Line(r, stream, line, false)
  }

  function FramedAll(r: Reader, stream: string, lines: seq<string>): seq<LogLine>
  {
    seq(|lines|, i requires 0 <= i < |lines| => Framed(r, stream, lines[i]))
  }

  /** All lines of a finished stream, its open line included. */
  function AllLines(r: Reader, stream: string, w: string): seq<LogLine>
  {
    FramedAll(r, stream, LinesOf(w)) + if TailOf(w) != "" then [Framed(r, stream, TailOf(w))] else []
  }

  /** A line as a stream has it is handed out whole up to 64 KiB, and cut there and marked beyond. */
  ghost predicate HandsOut(r: Reader, stream: string, line: string, l: LogLine)
  {
    if |line| <= 65536 then l == Line(r, stream, line, false) else l == Line(r, stream, line[..65536], true)
  }

  /**
   The lines of a stream are those between its newlines and the rest, if there is one: however the
   bytes are written as lines and a last piece without newlines.
   */
  lemma AllLinesMean(r: Reader, stream: string, lines: seq<string>, tail: string)
    requires NL !in tail && forall i :: 0 <= i < |lines| ==> NL !in lines[i]
    ensures var all := AllLines(r, stream, Terminated(lines) + tail);
            && |all| == |lines| + (if tail == "" then 0 else 1)
            && (forall i :: 0 <= i < |lines| ==> HandsOut(r, stream, lines[i], all[i]))
            && (tail != "" ==> HandsOut(r, stream, tail, all[|lines|]))
  {
    LinesUnique(lines, tail);
  }

  /** The lines due after the bytes `w`: an open line over the cap does not wait for its newline. */
  function Due(r: Reader, stream: string, w: string): seq<LogLine>
  {
    FramedAll(r, stream, LinesOf(w)) + if |TailOf(w)| > MAX_LOG_LINE then [Framed(r, stream, TailOf(w))] else []
  }

  function PartialOf(w: string): Partial
  {
    if |TailOf(w)| > MAX_LOG_LINE then Partial("", true) else Partial(TailOf(w), false)
  }

  /** The open line that a flush adds. */
  function Left(r: Reader, stream: string, w: string): seq<LogLine>
  {
    if 0 < |TailOf(w)| <= MAX_LOG_LINE then [Framed(r, stream, TailOf(w))] else []
  }

  lemma DueThenLeft(r: Reader, stream: string, w: string)
    ensures Due(r, stream, w) + Left(r, stream, w) == AllLines(r, stream, w)
  {
  }

  lemma PieceDue(r: Reader, stream: string, w: string, piece: string)
    requires NL !in piece
    ensures PartialOf(w).skipping ==>
              PartialOf(w + piece) == PartialOf(w) && Due(r, stream, w + piece) == Due(r, stream, w)
    ensures !PartialOf(w).skipping ==>
              var buf := PartialOf(w).buf + piece;
              if |buf| > MAX_LOG_LINE then
                PartialOf(w + piece) == Partial("", true) &&
                Due(r, stream, w + piece) == Due(r, stream, w) + [Line(r, stream, buf[..MAX_LOG_LINE], true)]
              else
                PartialOf(w + piece) == Partial(buf, false) && Due(r, stream, w + piece) == Due(r, stream, w)
  {
    LinesOfPiece(w, piece);
    if PartialOf(w).skipping {
      assert (TailOf(w) + piece)[..MAX_LOG_LINE] == TailOf(w)[..MAX_LOG_LINE];
    }
  }

  lemma NewlineDue(r: Reader, stream: string, w: string)
    ensures PartialOf(w + [NL]) == Partial("", false)
    ensures Due(r, stream, w + [NL]) ==
              Due(r, stream, w) + if PartialOf(w).skipping then [] else [Line(r, stream, PartialOf(w).buf, false)]
  {
    LinesOfByte(w, NL);
  }

  /** Midway through a chunk: `w` is what the stream has said so far, `p` the bytes to come. */
  ghost predicate Framing(r: Reader, stream: string, was: string, bytes: string, w: string, p: string, s: Partial,
                          out: seq<LogLine>)
  {
    && w + p == was + bytes
    && s == PartialOf(w)
    && Due(r, stream, w) == Due(r, stream, was) + out
  }

  lemma FramingPiece(r: Reader, stream: string, was: string, bytes: string, w: string, piece: string, p: string,
                     s: Partial, out: seq<LogLine>)
    requires NL !in piece && Framing(r, stream, was, bytes, w, piece + p, s, out)
    ensures var buf := s.buf + piece;
            if s.skipping then Framing(r, stream, was, bytes, w + piece, p, s, out)
            else if |buf| > MAX_LOG_LINE then
              Framing(r, stream, was, bytes, w + piece, p, Partial("", true),
                      out + [Line(r, stream, buf[..MAX_LOG_LINE], true)])
            else Framing(r, stream, was, bytes, w + piece, p, Partial(buf, false), out)
  {
    PieceDue(r, stream, w, piece);
    assert w + (piece + p) == w + piece + p;
  }

  lemma FramingNewline(r: Reader, stream: string, was: string, bytes: string, w: string, p: string, s: Partial,
                       out: seq<LogLine>)
    requires Framing(r, stream, was, bytes, w, [NL] + p, s, out)
    ensures Framing(r, stream, was, bytes, w + [NL], p, Partial("", false),
                    if s.skipping then out else out + [Line(r, stream, s.buf, false)])
  {
    NewlineDue(r, stream, w);
    assert w + ([NL] + p) == w + [NL] + p;
  }

  lemma CutAtNewline(p: string, nl: nat)
    requires nl == IndexOf(p, NL)
    ensures p == p[..nl] + p[nl..] && NL !in p[..nl] && (nl < |p| ==> p[nl..] == [NL] + p[nl + 1..])
  {
  }

  ghost function HeardIn(heard: map<string, string>, stream: string): string
  {
    if stream in heard then heard[stream] else ""
  }

  lemma HeardMore(heard: map<string, string>, stream: string, bytes: string, s: string)
    ensures HeardIn(heard[stream := HeardIn(heard, stream) + bytes], s) ==
            HeardIn(heard, s) + if s == stream then bytes else ""
  {
    NothingAfter(HeardIn(heard, s));
  }

  class LineFramer {
    const r: Reader
    var streams: map<string, Partial>

    /** The bytes of each stream so far. */
    ghost var heard: map<string, string>

    ghost function Heard(stream: string): string
      reads this
    {
      HeardIn(heard, stream)
    }

    ghost predicate Valid()
      reads this
    {
      && (forall s :: s in heard ==> s in streams)
      && (forall s :: s in streams ==> streams[s] == PartialOf(Heard(s)))
    }

    lemma Bounded()
      requires Valid()
      ensures forall s :: s in streams ==> |streams[s].buf| <= MAX_LOG_LINE
    {
    }

    constructor (r: Reader)
      ensures Valid() && this.r == r && heard == map[]
    {
      this.r := r;
      streams, heard := map[], map[];
    }

    method State(stream: string) returns (s: Partial)
      requires Valid()
      modifies this`streams
      ensures Valid() && s == PartialOf(Heard(stream))
    {
      if stream !in streams { streams := streams[stream := Partial("", false)]; }
      s := streams[stream];
    }

    /** Hands out the lines that these bytes make due on their stream; other streams are untouched. */
    method Write(stream: string, bytes: string) returns (out: seq<LogLine>)
      requires Valid()
      modifies this
      ensures Valid() && heard == old(heard)[stream := old(Heard(stream)) + bytes]
      ensures Due(r, stream, Heard(stream)) == Due(r, stream, old(Heard(stream))) + out
      ensures forall s {:trigger Heard(s)} :: Heard(s) == old(Heard(s)) + if s == stream then bytes else ""
      ensures forall s :: s in streams ==> |streams[s].buf| <= MAX_LOG_LINE
    {
      var s := State(stream);
      ghost var w := Heard(stream);
      s, out := Frame(stream, s, bytes, w);
      streams, heard := streams[stream := s], heard[stream := w + bytes];
      forall s ensures Heard(s) == old(Heard(s)) + if s == stream then bytes else "" {
        HeardMore(old(heard), stream, bytes, s);
      }
      Bounded();
    }

    /** The loop over one chunk; `was` is what the stream had said before it. */
    method Frame(stream: string, start: Partial, bytes: string, ghost was: string)
      returns (s: Partial, out: seq<LogLine>)
      requires start == PartialOf(was)
      ensures s == PartialOf(was + bytes)
      ensures Due(r, stream, was + bytes) == Due(r, stream, was) + out
    {
      s, out := start, [];
      var p := bytes;
      ghost var w := was;
      NothingAfter(Due(r, stream, was));
      while |p| > 0
        invariant Framing(r, stream, was, bytes, w, p, s, out)
        decreases |p|
      {
        var nl := IndexOf(p, NL);
        var chunk := p[..nl];
        CutAtNewline(p, nl);
        FramingPiece(r, stream, was, bytes, w, chunk, p[nl..], s, out);
        if !s.skipping {
          s := s.(buf := s.buf + chunk);
          if |s.buf| > MAX_LOG_LINE {
            out := out + [Line(r, stream, s.buf[..MAX_LOG_LINE], true)];
            s := Partial("", true);
          }
        }
        w := w + chunk;
        if nl == |p| {
          p := p[nl..];
          break;
        }
        FramingNewline(r, stream, was, bytes, w, p[nl + 1..], s, out);
        if s.skipping {
          s := s.(skipping := false);
        } else {
          out := out + [Line(r, stream, s.buf, false)];
          s := s.(buf := "");
        }
        p := p[nl + 1..];
        w := w + [NL];
      }
      NothingAfter(w);
    }

    method FlushStream(stream: string) returns (out: seq<LogLine>)
      requires Valid()
      modifies this
      ensures Valid() && out == Left(r, stream, old(Heard(stream)))
      ensures forall s :: s != stream ==> Heard(s) == old(Heard(s))
    {
      out := [];
      if stream in streams && |streams[stream].buf| > 0 {
        out := [Line(r, stream, streams[stream].buf, false)];
        streams, heard := streams[stream := streams[stream].(buf := "")], heard[stream := ""];
      }
    }

    /** Hands out each stream's open line at the end. */
    method Flush() returns (out: seq<LogLine>)
      requires Valid()
      modifies this
      ensures Valid()
      ensures out == Left(r, "stdout", old(Heard("stdout"))) + Left(r, "stderr", old(Heard("stderr")))
    {
      var stdout := FlushStream("stdout");
      var stderr := FlushStream("stderr");
      out := stdout + stderr;
    }
  }

  // ----- The lines of one stream among the lines of all

  function Of(lines: seq<LogLine>, stream: string): seq<LogLine>
  {
    if lines == [] then []
    else Of(lines[..|lines| - 1], stream) + if lines[|lines| - 1].stream == stream then [lines[|lines| - 1]] else []
  }

  lemma {:induction false} OfSum(a: seq<LogLine>, b: seq<LogLine>, stream: string)
    ensures Of(a + b, stream) == Of(a, stream) + Of(b, stream)
  {
    if b == [] {
      assert a + b == a;
    } else {
      var front, last := b[..|b| - 1], b[|b| - 1];
      OfSum(a, front, stream);
      assert (a + b)[..|a + b| - 1] == a + front && (a + b)[|a + b| - 1] == last;
    }
  }

  lemma {:induction false} OfOwn(lines: seq<LogLine>, own: string, stream: string)
    requires forall i :: 0 <= i < |lines| ==> lines[i].stream == own
    ensures Of(lines, stream) == if stream == own then lines else []
  {
    if lines != [] {
      OfOwn(lines[..|lines| - 1], own, stream);
      assert lines == lines[..|lines| - 1] + [lines[|lines| - 1]];
    }
  }

  lemma DueOwn(r: Reader, stream: string, w: string)
    ensures forall i :: 0 <= i < |Due(r, stream, w)| ==> Due(r, stream, w)[i].stream == stream
  {
  }

  lemma NothingDue(r: Reader, stream: string)
    ensures Due(r, stream, "") == []
  {
  }
}
