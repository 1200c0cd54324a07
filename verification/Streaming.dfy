/**
 Chunking a file line by line, and handing chunks out in batches.

 Callback and I/O errors are not modelled: every byte can be read and every batch is
 accepted.
 */
module Streaming {
  import opened Options
  import opened ByteLines
  import opened LineWindow

  // --- batches --------------------------------------------------------------------------

  /** A chunk with the ordinal its document id is made from. */
  datatype Stored = Stored(chunk: Chunk, ordinal: nat)

  function Flat(batches: seq<seq<Stored>>): seq<Stored> {
    if batches == [] then [] else Flat(batches[..|batches| - 1]) + batches[|batches| - 1]
  }

  /** The chunks of a file in order, numbered from one. */
  ghost predicate Numbered(s: seq<Stored>, chunks: seq<Chunk>) {
    |s| == |chunks| && forall i | 0 <= i < |s| :: s[i] == Stored(chunks[i], i + 1)
  }

  /** Ids are hashes that include the ordinal, so they never repeat within a file. */
  lemma NumberedIsDistinct(s: seq<Stored>, chunks: seq<Chunk>)
    requires Numbered(s, chunks)
    ensures forall i, j | 0 <= i < j < |s| :: s[i] != s[j]
  {
    forall i, j | 0 <= i < j < |s| ensures s[i] != s[j] {
      assert s[i].ordinal != s[j].ordinal;
    }
  }

  const DEFAULT_BATCH := 32

  /** Every batch is full, except that the last may be smaller; none is empty. */
  predicate FullButLast(batches: seq<seq<Stored>>, size: nat) {
    && (forall i | 0 <= i < |batches| - 1 :: |batches[i]| == size)
    && (batches != [] ==> 0 < |batches[|batches| - 1]| <= size)
  }

  class BatchCollector {
    const size: nat
    var acc: seq<Stored>
    var batches: seq<seq<Stored>>
    var total: nat
    var ordinal: nat
    var docIDs: seq<Stored>

    /** The chunks added so far, in order. */
    ghost var chunks: seq<Chunk>

    /** What has been handed over and what is kept are all the chunks, numbered. */
    ghost predicate Counted()
      reads this
    {
      && total == |Flat(batches)| && ordinal == |chunks|
      && Numbered(Flat(batches) + acc, chunks) && docIDs == Flat(batches) + acc
    }

    ghost predicate Valid()
      reads this
    {
      Counted() && 0 < size && |acc| < size && forall b | b in batches :: |b| == size
    }

    constructor (batchSize: int)
      ensures Valid() && chunks == [] && batches == []
      ensures size == if batchSize <= 0 then DEFAULT_BATCH else batchSize
    {
      size := if batchSize <= 0 then DEFAULT_BATCH else batchSize;
      acc, batches, total, ordinal, docIDs, chunks := [], [], 0, 0, [], [];
    }

    method Add(ch: Chunk)
      requires Valid()
      modifies this
      ensures Valid() && chunks == old(chunks) + [ch]
    {
      ordinal := ordinal + 1;
      var stored := Stored(ch, ordinal);
      docIDs := docIDs + [stored];
      acc := acc + [stored];
      chunks := chunks + [ch];
      assert Flat(batches) + acc == old(Flat(batches) + acc) + [stored];
      if |acc| >= size {
        Hand();
      }
    }

    /** The batch is handed to the callback. */
    method Hand()
      requires 0 < |acc| <= size
      modifies this`acc, this`batches, this`total
      ensures acc == [] && batches == old(batches) + [old(acc)]
      ensures total == old(total) + |old(acc)|
      ensures Flat(batches) == old(Flat(batches) + acc)
    {
      total := total + |acc|;
      batches := batches + [acc];
      acc := [];
      assert batches[..|batches| - 1] == old(batches);
    }

    method Flush()
      requires Valid()
      modifies this
      ensures Counted() && chunks == old(chunks) && acc == [] && Numbered(Flat(batches), chunks)
      ensures FullButLast(batches, size)
    {
      if |acc| > 0 {
        Hand();
      }
      assert Flat(batches) + acc == Flat(batches);
      forall i | 0 <= i < |batches| - 1 ensures |batches[i]| == size {
        assert batches[i] in old(batches);
      }
    }

    method TotalChunks() returns (n: nat)
      requires Counted()
      ensures n == |chunks|
    {
      n := total + |acc|;
    }
  }

  // --- reading lines ----------------------------------------------------------------------

  datatype ReadResult = Line(text: Bytes) | Eof | TooLong

  /** A line and its terminator are within the limit; `last` lines have no terminator. */
  predicate WithinLimit(line: Bytes, last: bool, maxLine: int) { |line| + (if last then 0 else 1) <= maxLine }

  predicate AllWithinLimit(lines: seq<Bytes>, maxLine: int) {
    forall i | 0 <= i < |lines| :: WithinLimit(lines[i], i == |lines| - 1, maxLine)
  }

  class LineReader {
    const input: Bytes
    const maxLine: int
    var pos: nat
    var pendingEmpty: bool
    /** The lines from each position on. */
    ghost const unread: nat -> seq<Bytes>

    ghost predicate Unread(at: nat) { at <= |input| ==> unread(at) == RawLines(input[at..]) }

    ghost predicate Valid()
      reads this
    {
      pos <= |input| && 0 < maxLine && (pendingEmpty ==> pos == |input|) && forall at: nat :: Unread(at)
    }

    /** The lines that have not been read yet. */
    ghost function Rest(): seq<Bytes>
      requires Valid()
      reads this
    {
      if pendingEmpty then [[]] else unread(pos)
    }

    /** `rest` are the lines that have not been read yet. */
    ghost predicate Holds(rest: seq<Bytes>)
      reads this
    {
      Valid() && Rest() == rest
    }

    constructor (input: Bytes, maxLine: int)
      requires 0 < maxLine
      ensures this.input == input && this.maxLine == maxLine
      ensures Holds(RawLines(StripBOM(input)))
    {
      this.input, this.maxLine, pendingEmpty := input, maxLine, false;
      pos := if |input| >= 3 && input[..3] == BOM then 3 else 0;
      unread := (at: nat) => if at <= |input| then RawLines(input[at..]) else [];
      new;
      assert input[0..] == input && Unread(pos);
    }

    method ReadLine(ghost rest: seq<Bytes>) returns (r: ReadResult)
      requires Holds(rest)
      modifies this
      ensures rest == [] ==> r == Eof && Holds([])
      ensures rest != [] ==>
        if WithinLimit(rest[0], |rest| == 1, maxLine) then r == Line(rest[0]) && Holds(rest[1..]) else r == TooLong
    {
      if pendingEmpty {
        pendingEmpty := false;
        assert input[pos..] == [] && Unread(pos);
        return Line([]);
      }
      assert Unread(pos);
      if input[pos..] != [] {
        FirstRawLine(input[pos..]);
      }
      r := ReadRaw(input[pos..]);
    }

    method ReadRaw(ghost from: Bytes) returns (r: ReadResult)
      requires Valid() && !pendingEmpty && from == input[pos..]
      modifies this
      ensures Valid()
      ensures from == [] ==> r == Eof && Rest() == []
      ensures from != [] ==>
        if !WithinLimit(from[..FirstBreak(from)], FirstBreak(from) == |from|, maxLine) then r == TooLong
        else r == Line(from[..FirstBreak(from)]) && Rest() == RawLines(from)[1..]
    {
      ghost var k := FirstBreak(from);
      ghost var p := pos;
      var line: Bytes := [];
      var size := 0;
      while true
        invariant Valid() && !pendingEmpty && size == |line| <= maxLine && size <= k
        invariant pos == p + size && line == from[..size]
        decreases |input| - pos
      {
        if pos == |input| {
          RestAtEnd(input, p, from);
          assert Unread(pos);
          return if |line| == 0 then Eof else Line(line);
        }
        var b := input[pos];
        pos := pos + 1;
        size := size + 1;
        assert b == from[size - 1];
        if size > maxLine {
          return TooLong;
        }
        if b == LF || b == CR {
          BreakIsFirst(from, size - 1);
          EndLine(b, from, p);
          return Line(line);
        }
        assert from[..size] == line + [b];
        line := line + [b];
      }
    }

    /** A line break `b` has been read: skips the second half of a CRLF pair and notes
        whether the input ends here. */
    method EndLine(b: Byte, ghost from: Bytes, ghost p: nat)
      requires Valid() && !pendingEmpty && p <= |input| && from == input[p..] && FirstBreak(from) < |from|
      requires pos == p + FirstBreak(from) + 1 && b == from[FirstBreak(from)]
      modifies this
      ensures Valid() && Rest() == RawLines(from)[1..]
    {
      if b == CR && pos < |input| && input[pos] == LF {
        pos := pos + 1;
      }
      RestAfter(input, p, from, pos);
      assert Unread(pos);
      MarkTrailingEmpty();
    }

    method MarkTrailingEmpty()
      modifies this`pendingEmpty
      ensures pendingEmpty == (old(pendingEmpty) || pos == |input|)
    {
      if pos == |input| {
        pendingEmpty := true;
      }
    }
  }

  lemma RestAtEnd(input: Bytes, p: nat, from: Bytes)
    requires p <= |input| && from == input[p..] && FirstBreak(from) == |from|
    ensures from != [] ==> RawLines(from)[1..] == RawLines(input[|input|..])
  {
    if from != [] {
      FirstRawLine(from);
    }
  }

  lemma RestAfter(input: Bytes, p: nat, from: Bytes, next: nat)
    requires p <= |input| && from == input[p..] && FirstBreak(from) < |from|
    requires next == p + FirstBreak(from) + BreakLength(from, FirstBreak(from))
    ensures next <= |input|
    ensures RawLines(from)[1..] == if next == |input| then [[]] else RawLines(input[next..])
  {
    var tail := input[next..];
    DropOfDrop(input, p, next - p);
    LinesAfterFirst(from, tail);
  }

  lemma DropOfDrop(s: Bytes, a: nat, b: nat)
    requires a + b <= |s|
    ensures s[a..][b..] == s[a + b..]
  {
  }

  // --- streaming and in-memory chunking ------------------------------------------------------

  const DEFAULT_MAX_LINE := 1024 * 1024

  datatype FileOptions = FileOptions(windowLines: int, overlapLines: int, maxLineBytes: int) {
    function MaxLine(): int { if maxLineBytes <= 0 then DEFAULT_MAX_LINE else maxLineBytes }

    function WindowMeta(): Meta {
      var (w, o) := NormalizeWindow(windowLines, overlapLines);
      Meta(w, o, 0, 0, None)
    }
  }

  /** Adds the chunk of a window, unless the window is blank. */
  method AddWindow(coll: BatchCollector, ch: Option<Chunk>)
    requires coll.Valid()
    modifies coll
    ensures coll.Valid()
    ensures coll.chunks == if ch.None? then old(coll.chunks) else old(coll.chunks) + [ch.value]
  {
    if ch.Some? {
      coll.Add(ch.value);
    }
  }

  /** `buf` holds the lines of `all` from `start` on and `rest` those not read yet. */
  ghost predicate Buffered(all: seq<Bytes>, start: nat, buf: seq<Bytes>, rest: seq<Bytes>, bytePos: int, maxLine: int) {
    && start + |buf| <= |all| && buf == all[start..start + |buf|] && rest == all[start + |buf|..]
    && bytePos == Offset(all, start) && (start > 0 ==> buf != [])
    && forall i | 0 <= i < start + |buf| :: WithinLimit(all[i], i == |all| - 1, maxLine)
  }

  /** One more line is read, or the lines are used up, or the next one is too long. */
  method ReadMore(reader: LineReader, ghost all: seq<Bytes>, ghost start: nat, ghost buf: seq<Bytes>, ghost rest: seq<Bytes>,
                  ghost bytePos: int)
    returns (r: ReadResult, ghost rest': seq<Bytes>)
    requires reader.Holds(rest) && Buffered(all, start, buf, rest, bytePos, reader.maxLine)
    modifies reader
    ensures r.Eof? ==> start + |buf| == |all| && AllWithinLimit(all, reader.maxLine)
    ensures r.TooLong? ==> !AllWithinLimit(all, reader.maxLine)
    ensures r.Line? ==> reader.Holds(rest') && |rest'| < |rest|
    ensures r.Line? ==> Buffered(all, start, buf + [r.text], rest', bytePos, reader.maxLine)
  {
    ghost var n := start + |buf|;
    assert rest != [] ==> rest[0] == all[n] && rest[1..] == all[n + 1..];
    r := reader.ReadLine(rest);
    rest' := if rest == [] then [] else rest[1..];
  }

  lemma Moved(all: seq<Bytes>, start: nat, buf: seq<Bytes>, text: Bytes, rest: seq<Bytes>, bytePos: int, maxLine: int, step: nat,
              start': nat, buf': seq<Bytes>, bytePos': int)
    requires Buffered(all, start, buf + [text], rest, bytePos, maxLine) && step <= |buf|
    requires start' == start + step && buf' == buf[step..] + [text] && bytePos' == Offset(all, start')
    ensures Buffered(all, start', buf', rest, bytePos', maxLine)
  {
    var b := buf + [text];
    assert buf' == b[step..];
    assert all[start..start + |b|][step..] == all[start'..start + |b|];
  }

  lemma BufferedLine(all: seq<Bytes>, start: nat, buf: seq<Bytes>, rest: seq<Bytes>, bytePos: int, maxLine: int)
    requires Buffered(all, start, buf, rest, bytePos, maxLine)
    ensures forall i | 0 <= i < |buf| :: buf[i] == all[start + i]
  {
  }

  /** Drops `step` lines from the front of the buffer and adds one at its end. */
  method Move(ghost all: seq<Bytes>, start: nat, buf: seq<Bytes>, text: Bytes, ghost rest: seq<Bytes>, bytePos: int,
              ghost maxLine: int, step: nat, ghost next: nat)
    returns (buf': seq<Bytes>, bytePos': int)
    requires Buffered(all, start, buf + [text], rest, bytePos, maxLine) && step <= |buf| && next == start + step
    ensures |buf'| == |buf| - step + 1
    ensures Buffered(all, next, buf', rest, bytePos', maxLine)
  {
    BufferedLine(all, start, buf + [text], rest, bytePos, maxLine);
    bytePos' := bytePos;
    for i := 0 to step
      invariant bytePos' == Offset(all, start + i)
    {
      assert (buf + [text])[i] == buf[i];
      bytePos' := bytePos' + |buf[i]| + 1;
    }
    buf' := buf[step..] + [text];
    Moved(all, start, buf, text, rest, bytePos, maxLine, step, next, buf', bytePos');
  }

  /** The plan is the one for these lines. */
  ghost predicate Follows(p: Plan, all: seq<Bytes>, m: Meta, blank: Blankness) {
    && 0 <= m.overlap < m.window && m.counter.None? && p.count == |all| && p.overlap == m.overlap
    && forall s: nat | s < |all| :: Planned(p, all, 1, 0, m, blank, s)
  }

  /** The buffer is a window: a full one, or the shorter one at the end. */
  predicate IsWindow(n: nat, start: nat, window: int, total: nat) {
    n == window || (0 < n < window && start + n == total)
  }

  /** Emits the buffered window. */
  method EmitWindow(ghost all: seq<Bytes>, start: nat, buf: seq<Bytes>, ghost rest: seq<Bytes>, bytePos: int, ghost maxLine: int,
                    ghost m: Meta, blank: Blankness, ghost p: Plan, coll: BatchCollector, ghost next: nat)
    requires Follows(p, all, m, blank) && Buffered(all, start, buf, rest, bytePos, maxLine)
    requires IsWindow(|buf|, start, m.window, |all|) && next == start + m.window - m.overlap
    requires coll.Valid() && Emitting(p, start, coll.chunks)
    modifies coll
    ensures coll.Valid()
    ensures start + |buf| == |all| ==> coll.chunks == Slide(p, 0)
    ensures start + |buf| < |all| ==> Emitting(p, next, coll.chunks)
  {
    var ch := ChunkFromLineWindow(buf, start + 1, bytePos, blank);
    PlannedPlain(p, all, m, blank, start, buf, rest, bytePos, maxLine);
    ghost var out := coll.chunks;
    AddWindow(coll, ch);
    PlainWindow(p, all, m, blank, start, start + |buf|, out, ch, coll.chunks, next);
  }

  /** Without a counter the window is as long as it can be. */
  lemma PlannedPlain(p: Plan, all: seq<Bytes>, m: Meta, blank: Blankness, start: nat, buf: seq<Bytes>, rest: seq<Bytes>,
                     bytePos: int, maxLine: int)
    requires Follows(p, all, m, blank) && Buffered(all, start, buf, rest, bytePos, maxLine)
    requires IsWindow(|buf|, start, m.window, |all|)
    ensures p.end(start) == start + |buf| && !p.dropped(start)
    ensures p.chunk(start) == ChunkFromLineWindow(buf, start + 1, bytePos, blank)
  {
    assert Planned(p, all, 1, 0, m, blank, start);
  }

  lemma PlainWindow(p: Plan, all: seq<Bytes>, m: Meta, blank: Blankness, start: nat, e: nat, out: seq<Chunk>, ch: Option<Chunk>,
                    more: seq<Chunk>, next: nat)
    requires Follows(p, all, m, blank) && Emitting(p, start, out) && start < |all| && next == start + m.window - m.overlap
    requires e == p.end(start) && !p.dropped(start) && ch == p.chunk(start)
    requires e == start + m.window || e == |all|
    requires more == if ch.None? then out else out + [ch.value]
    ensures if e == |all| then more == Slide(p, 0) else Emitting(p, next, more)
  {
    WindowDone(p, start, out, ch, e, false, more, if e == |all| && e - m.overlap <= start then start + 1 else e - m.overlap);
  }

  /** Reads the line after a full window and moves the buffer on. */
  method Advance(reader: LineReader, ghost all: seq<Bytes>, start: nat, buf: seq<Bytes>, ghost rest: seq<Bytes>, bytePos: int,
                 window: int, overlap: int, ghost next: nat)
    returns (r: ReadResult, buf': seq<Bytes>, bytePos': int, ghost rest': seq<Bytes>)
    requires 0 <= overlap < window == |buf| && next == start + window - overlap
    requires reader.Holds(rest) && Buffered(all, start, buf, rest, bytePos, reader.maxLine)
    modifies reader
    ensures r.Eof? ==> start + |buf| == |all| && AllWithinLimit(all, reader.maxLine)
    ensures r.TooLong? ==> !AllWithinLimit(all, reader.maxLine)
    ensures r.Line? ==> start + |buf| < |all| && |buf'| <= window
    ensures r.Line? ==> reader.Holds(rest') && |rest'| < |rest|
    ensures r.Line? ==> Buffered(all, next, buf', rest', bytePos', reader.maxLine)
  {
    buf', bytePos' := buf, bytePos;
    r, rest' := ReadMore(reader, all, start, buf, rest, bytePos);
    if r.Line? {
      buf', bytePos' := Move(all, start, buf, r.text, rest', bytePos, reader.maxLine, window - overlap, next);
    }
  }

  method StreamChunkBatched(content: Bytes, opts: FileOptions, coll: BatchCollector, blank: Blankness) returns (tooLong: bool)
    requires coll.Valid() && coll.chunks == []
    modifies coll
    ensures coll.Valid() && 0 <= opts.WindowMeta().overlap < opts.WindowMeta().window
    ensures tooLong <==> !AllWithinLimit(RawLines(StripBOM(content)), opts.MaxLine())
    ensures !tooLong ==> coll.chunks == Windows(RawLines(StripBOM(content)), 1, 0, opts.WindowMeta(), blank)
  {
    NormalizeIsIdempotent(opts.windowLines, opts.overlapLines);
    var m := opts.WindowMeta();
    var reader := new LineReader(content, opts.MaxLine());
    ghost var all := RawLines(StripBOM(content));
    ghost var p := PlanOf(all, 1, 0, m, blank);
    assert forall s: nat | s < |all| :: Planned(p, all, 1, 0, m, blank, s);
    tooLong := StreamWindows(reader, all, m, blank, p, coll);
  }

  /** The lines are used up: emits what is buffered, if anything. */
  method EmitTail(ghost all: seq<Bytes>, start: nat, buf: seq<Bytes>, ghost rest: seq<Bytes>, bytePos: int, ghost maxLine: int,
                  ghost m: Meta, blank: Blankness, ghost p: Plan, coll: BatchCollector)
    requires Follows(p, all, m, blank) && Buffered(all, start, buf, rest, bytePos, maxLine)
    requires |buf| < m.window && start + |buf| == |all|
    requires coll.Valid() && Emitting(p, start, coll.chunks)
    modifies coll
    ensures coll.Valid() && coll.chunks == Slide(p, 0)
  {
    if |buf| == 0 {
      assert coll.chunks + [] == coll.chunks;
      return;
    }
    EmitWindow(all, start, buf, rest, bytePos, maxLine, m, blank, p, coll, start + m.window - m.overlap);
  }

  method StreamWindows(reader: LineReader, ghost all: seq<Bytes>, m: Meta, blank: Blankness, ghost p: Plan, coll: BatchCollector)
    returns (tooLong: bool)
    requires Follows(p, all, m, blank)
    requires reader.Holds(all) && coll.Valid() && coll.chunks == []
    modifies reader, coll
    ensures coll.Valid() && (tooLong <==> !AllWithinLimit(all, reader.maxLine))
    ensures !tooLong ==> coll.chunks == Slide(p, 0)
  {
    var window := m.window;
    var buf: seq<Bytes> := [];
    var start: nat := 0;
    var bytePos := 0;
    ghost var rest := all;
    while true
      invariant coll.Valid() && reader.Holds(rest) && |buf| <= window
      invariant Buffered(all, start, buf, rest, bytePos, reader.maxLine)
      invariant Emitting(p, start, coll.chunks)
      decreases |rest|
    {
      var line: ReadResult;
      if |buf| < window {
        ghost var more;
        line, more := ReadMore(reader, all, start, buf, rest, bytePos);
        if line.Eof? {
          EmitTail(all, start, buf, rest, bytePos, reader.maxLine, m, blank, p, coll);
          return false;
        }
        if line.TooLong? {
          return true;
        }
        buf := buf + [line.text];
        rest := more;
        continue;
      }
      var next := start + window - m.overlap;
      EmitWindow(all, start, buf, rest, bytePos, reader.maxLine, m, blank, p, coll, next);
      line, buf, bytePos, rest := Advance(reader, all, start, buf, rest, bytePos, window, m.overlap, next);
      if line.Eof? {
        return false;
      }
      if line.TooLong? {
        return true;
      }
      start := next;
    }
  }
}
