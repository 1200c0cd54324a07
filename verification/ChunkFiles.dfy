/**
 The two ways a file that has no structure is chunked: in memory, and streamed when it
 is larger than the threshold. The first must not be told from the second by its chunks.
 */
module ChunkFiles {
  import opened Options
  import opened ByteLines
  import opened LineWindow
  import opened Streaming

  // --- the in-memory line limit -----------------------------------------------------------

  /** The running check: `n` bytes of the current line have been seen. */
  predicate LongFrom(s: Bytes, n: nat, maxLine: int) {
    s != [] &&
    if s[0] == LF || s[0] == CR then LongFrom(s[1..], 0, maxLine)
    else n + 1 > maxLine || LongFrom(s[1..], n + 1, maxLine)
  }

  ghost predicate AnyLong(lines: seq<Bytes>, maxLine: int) { exists l :: l in lines && |l| > maxLine }

  lemma {:induction false} LongPrefix(p: Bytes, t: Bytes, n: nat, maxLine: int)
    requires NoBreak(p) && n <= maxLine
    ensures LongFrom(p + t, n, maxLine) <==> n + |p| > maxLine || LongFrom(t, n + |p|, maxLine)
  {
    if p == [] {
      assert p + t == t;
    } else {
      assert (p + t)[1..] == p[1..] + t;
      if n + 1 <= maxLine {
        LongPrefix(p[1..], t, n + 1, maxLine);
      }
    }
  }

  lemma LongBreak(t: Bytes, n: nat, k: nat, maxLine: int)
    requires t != [] && (t[0] == LF || t[0] == CR) && k == BreakLength(t, 0)
    ensures LongFrom(t, n, maxLine) <==> LongFrom(t[k..], 0, maxLine)
  {
    if k == 2 {
      assert t[1..][1..] == t[2..];
    }
  }

  lemma AnyLongCons(l: Bytes, lines: seq<Bytes>, maxLine: int)
    ensures AnyLong([l] + lines, maxLine) <==> |l| > maxLine || AnyLong(lines, maxLine)
  {
    var all := [l] + lines;
    assert l in all && forall x :: x in all <==> x == l || x in lines;
  }

  lemma LongFirstLine(s: Bytes, k: nat, maxLine: int)
    requires 0 < maxLine && k <= |s| && NoBreak(s[..k]) && (k < |s| ==> s[k] == LF || s[k] == CR)
    ensures LongFrom(s, 0, maxLine) <==>
            k > maxLine || (k < |s| && LongFrom(s[k + BreakLength(s, k)..], 0, maxLine))
  {
    assert s == s[..k] + s[k..];
    LongPrefix(s[..k], s[k..], 0, maxLine);
    if k < |s| {
      var n := BreakLength(s, k);
      LongBreak(s[k..], k, n, maxLine);
      assert s[k..][n..] == s[k + n..];
    }
  }

  lemma AnyLongFirstLine(s: Bytes, maxLine: int)
    requires s != []
    ensures var k := FirstBreak(s);
            AnyLong(RawLines(s), maxLine) <==>
            k > maxLine || (k < |s| && AnyLong(AfterBreak(s[k + BreakLength(s, k)..]), maxLine))
  {
    FirstRawLine(s);
    var k := FirstBreak(s);
    assert RawLines(s) == [s[..k]] + RawLines(s)[1..];
    AnyLongCons(s[..k], RawLines(s)[1..], maxLine);
  }

  /** The running check finds exactly the files that have a line over the limit. */
  lemma {:induction false} LongFromFindsLines(s: Bytes, maxLine: int)
    requires 0 < maxLine
    ensures LongFrom(s, 0, maxLine) <==> AnyLong(AfterBreak(s), maxLine)
    ensures AnyLong(AfterBreak(s), maxLine) <==> AnyLong(RawLines(s), maxLine)
  {
    if s != [] {
      var k := FirstBreak(s);
      LongFirstLine(s, k, maxLine);
      AnyLongFirstLine(s, maxLine);
      if k < |s| {
        LongFromFindsLines(s[k + BreakLength(s, k)..], maxLine);
      }
    }
  }

  method CheckMaxLineBytes(content: Bytes, maxLine: int) returns (tooLong: bool)
    ensures tooLong <==> 0 < maxLine && AnyLong(RawLines(content), maxLine)
  {
    if maxLine <= 0 {
      return false;
    }
    LongFromFindsLines(content, maxLine);
    var lineLen := 0;
    var i := 0;
    while i < |content|
      invariant i <= |content| && 0 <= lineLen
      invariant LongFrom(content[i..], lineLen, maxLine) <==> LongFrom(content, 0, maxLine)
    {
      var b := content[i];
      assert content[i..][1..] == content[i + 1..];
      i := i + 1;
      if b == LF || b == CR {
        lineLen := 0;
        continue;
      }
      lineLen := lineLen + 1;
      if lineLen > maxLine {
        return true;
      }
    }
    return false;
  }

  // --- when each path accepts a file ----------------------------------------------------------

  ghost predicate StreamAccepts(content: Bytes, maxLine: int) { AllWithinLimit(RawLines(StripBOM(content)), maxLine) }
  ghost predicate MemoryAccepts(content: Bytes, maxLine: int) { !AnyLong(RawLines(content), maxLine) }

  /** A byte order mark is part of the first line for the in-memory check only. */
  lemma LinesAfterBOM(content: Bytes)
    requires StripBOM(content) != content && StripBOM(content) != []
    ensures var (raw, text) := (RawLines(content), RawLines(StripBOM(content)));
            |raw| == |text| > 0 && raw[0] == BOM + text[0] && raw[1..] == text[1..]
  {
    var s := StripBOM(content);
    var k := FirstBreak(s);
    FirstRawLine(s);
    FirstRawLine(content);
    assert content == BOM + s;
    BOMBreak(s);
    assert content[..k + 3] == BOM + s[..k];
    if k < |s| {
      var n := BreakLength(s, k);
      assert n == BreakLength(content, k + 3);
      assert content[k + 3 + n..] == s[k + n..];
    }
  }

  lemma BOMBreak(s: Bytes)
    ensures FirstBreak(BOM + s) == FirstBreak(s) + 3
  {
    var c := BOM + s;
    assert c[1..] == [0xBB, 0xBF] + s && c[1..][1..] == [0xBF] + s && c[1..][1..][1..] == s;
    assert FirstBreak(c) == 1 + FirstBreak(c[1..]);
    assert FirstBreak(c[1..]) == 1 + FirstBreak(c[1..][1..]);
    assert FirstBreak(c[1..][1..]) == 1 + FirstBreak(c[1..][1..][1..]);
  }

  /** No line but the last has exactly the limit. */
  ghost predicate NoneAtLimit(lines: seq<Bytes>, maxLine: int) {
    forall i | 0 <= i < |lines| - 1 :: |lines[i]| != maxLine
  }

  /** The lines of a file behind its byte order mark. */
  function TextLines(content: Bytes): seq<Bytes> { RawLines(StripBOM(content)) }

  /** A byte order mark and the first line together are within the limit. */
  predicate MarkFits(content: Bytes, maxLine: int) {
    StripBOM(content) == content || (if TextLines(content) == [] then 0 else |TextLines(content)[0]|) + |BOM| <= maxLine
  }

  lemma StreamAcceptsIff(content: Bytes, maxLine: int)
    ensures StreamAccepts(content, maxLine) <==>
            !AnyLong(TextLines(content), maxLine) && NoneAtLimit(TextLines(content), maxLine)
  {
    LimitsCompare(TextLines(content), maxLine);
  }

  lemma MemoryAcceptsIff(content: Bytes, maxLine: int)
    ensures MemoryAccepts(content, maxLine) <==> !AnyLong(TextLines(content), maxLine) && MarkFits(content, maxLine)
  {
    var raw, text := RawLines(content), TextLines(content);
    if StripBOM(content) != content {
      if StripBOM(content) == [] {
        OnlyMark(content);
      } else {
        LinesAfterBOM(content);
        assert raw == [raw[0]] + raw[1..] && text == [text[0]] + text[1..];
        AnyLongCons(raw[0], raw[1..], maxLine);
        AnyLongCons(text[0], text[1..], maxLine);
      }
    }
  }

  lemma OnlyMark(content: Bytes)
    requires StripBOM(content) != content && StripBOM(content) == []
    ensures RawLines(content) == [content] && |content| == |BOM| && content in RawLines(content) && TextLines(content) == []
  {
    assert content == BOM + [];
    BOMBreak([]);
    assert RawLines(content) == [content];
  }

  /** For every file: the two paths agree on it if and only if some line is too long anyway, or
      no terminated line has just the limit exactly when the mark fits. */
  lemma LimitsAgreeIff(content: Bytes, maxLine: int)
    ensures (StreamAccepts(content, maxLine) <==> MemoryAccepts(content, maxLine)) <==>
            AnyLong(TextLines(content), maxLine) || (NoneAtLimit(TextLines(content), maxLine) <==> MarkFits(content, maxLine))
  {
    StreamAcceptsIff(content, maxLine);
    MemoryAcceptsIff(content, maxLine);
  }

  lemma LimitsCompare(lines: seq<Bytes>, maxLine: int)
    ensures AllWithinLimit(lines, maxLine) <==> !AnyLong(lines, maxLine) && NoneAtLimit(lines, maxLine)
  {
    if AllWithinLimit(lines, maxLine) {
      forall l | l in lines ensures |l| <= maxLine {
        var i :| 0 <= i < |lines| && lines[i] == l;
        assert WithinLimit(lines[i], i == |lines| - 1, maxLine);
      }
    }
    if !AnyLong(lines, maxLine) {
      assert forall i | 0 <= i < |lines| :: lines[i] in lines && |lines[i]| <= maxLine;
    }
  }

  /** The two limits do differ: a terminated line of the limit, and a byte order mark. */
  lemma LimitsDiffer()
    ensures MemoryAccepts([97, LF], 1) && !StreamAccepts([97, LF], 1)
    ensures StreamAccepts(BOM + [97], 3) && !MemoryAccepts(BOM + [97], 3)
  {
    var a: Bytes := [97, LF];
    assert a[1..] == [LF] && a[..1] == [97] && a[2..] == [];
    assert FirstBreak(a) == 1 && RawLines(a) == [[97], []];
    assert StripBOM(a) == a && !WithinLimit(RawLines(a)[0], false, 1);
    var t: Bytes := [97];
    assert t[1..] == [] && FirstBreak(t) == 1 && RawLines(t) == [t];
    var b := BOM + t;
    assert b[3..] == t && StripBOM(b) == t;
    BOMBreak(t);
    assert RawLines(b) == [b] && b in RawLines(b);
  }

  /** Lines shorter than the limit, the mark included, pass both checks. */
  lemma ShortLinesPassBoth(content: Bytes, maxLine: int)
    requires 0 < maxLine && forall l | l in RawLines(content) :: |l| < maxLine
    ensures StreamAccepts(content, maxLine) && MemoryAccepts(content, maxLine)
  {
    var text := RawLines(StripBOM(content));
    forall i | 0 <= i < |text| ensures |text[i]| < maxLine {
      if StripBOM(content) != content {
        if StripBOM(content) != [] {
          LinesAfterBOM(content);
          var raw := RawLines(content);
          assert raw[i] in raw;
          assert i > 0 ==> raw[1..][i - 1] == text[1..][i - 1];
        }
      } else {
        assert text[i] in text;
      }
    }
  }

  // --- the two paths -----------------------------------------------------------------------------

  function LinesInMemory(content: Bytes): seq<Bytes> { SplitLF(NormalizeLineEndings(StripBOM(content))) }

  method FileChunks(content: Bytes, opts: FileOptions, blank: Blankness) returns (chunks: seq<Chunk>)
    ensures 0 <= opts.WindowMeta().overlap < opts.WindowMeta().window
    ensures chunks == Windows(LinesInMemory(content), 1, 0, opts.WindowMeta(), blank)
  {
    NormalizeIsIdempotent(opts.windowLines, opts.overlapLines);
    var m := opts.WindowMeta();
    chunks := SlideWindowEmit(LinesInMemory(content), 1, m, 0, blank);
    assert m.(window := m.window, overlap := m.overlap) == m;
  }

  method AddAll(coll: BatchCollector, chunks: seq<Chunk>)
    requires coll.Valid() && coll.chunks == []
    modifies coll
    ensures coll.Valid() && coll.chunks == chunks
  {
    for i := 0 to |chunks|
      invariant coll.Valid() && coll.chunks == chunks[..i]
    {
      coll.Add(chunks[i]);
    }
  }

  method ProcessInMemory(content: Bytes, opts: FileOptions, batchSize: int, blank: Blankness)
    returns (tooLong: bool, batches: seq<seq<Stored>>)
    ensures 0 <= opts.WindowMeta().overlap < opts.WindowMeta().window
    ensures tooLong <==> !MemoryAccepts(content, opts.MaxLine())
    ensures !tooLong ==> Numbered(Flat(batches), Windows(LinesInMemory(content), 1, 0, opts.WindowMeta(), blank))
    ensures FullButLast(batches, if batchSize <= 0 then DEFAULT_BATCH else batchSize)
  {
    NormalizeIsIdempotent(opts.windowLines, opts.overlapLines);
    tooLong := CheckMaxLineBytes(content, opts.MaxLine());
    if tooLong {
      return true, [];
    }
    var chunks := FileChunks(content, opts, blank);
    batches := InBatches(chunks, batchSize);
  }

  method InBatches(chunks: seq<Chunk>, batchSize: int) returns (batches: seq<seq<Stored>>)
    ensures Numbered(Flat(batches), chunks)
    ensures FullButLast(batches, if batchSize <= 0 then DEFAULT_BATCH else batchSize)
  {
    var coll := new BatchCollector(batchSize);
    AddAll(coll, chunks);
    coll.Flush();
    batches := coll.batches;
  }

  /** An empty file has no line when streamed and one empty line in memory; either way
      nothing is emitted. */
  lemma SameWindows(content: Bytes, m: Meta, blank: Blankness)
    requires m.window > 0 && m.counter.None? && blank([])
    ensures Windows(RawLines(StripBOM(content)), 1, 0, m, blank) == Windows(LinesInMemory(content), 1, 0, m, blank)
  {
    var s := StripBOM(content);
    RawLinesAreSplitLines(s);
    if s == [] {
      var one: seq<Bytes> := [[]];
      var p := PlanOf(one, 1, 0, m, blank);
      assert one[0..1] == one;
      assert Window(one, 1, 0, 0, 1, blank).None?;
      assert Slide(p, 0) == [];
    }
  }

  method StreamInBatches(content: Bytes, opts: FileOptions, batchSize: int, blank: Blankness)
    returns (tooLong: bool, batches: seq<seq<Stored>>, ghost chunks: seq<Chunk>)
    ensures 0 <= opts.WindowMeta().overlap < opts.WindowMeta().window
    ensures tooLong <==> !StreamAccepts(content, opts.MaxLine())
    ensures !tooLong ==> Numbered(Flat(batches), chunks)
    ensures !tooLong ==> chunks == Windows(RawLines(StripBOM(content)), 1, 0, opts.WindowMeta(), blank)
    ensures FullButLast(batches, if batchSize <= 0 then DEFAULT_BATCH else batchSize)
  {
    var coll := new BatchCollector(batchSize);
    tooLong := StreamChunkBatched(content, opts, coll, blank);
    chunks := coll.chunks;
    if !tooLong {
      coll.Flush();
    }
    batches := coll.batches;
    if batches != [] {
      assert batches[|batches| - 1] in batches;
    }
  }

  /** Streaming refines in-memory chunking: where the file is accepted, the batches
      concatenate to the chunks of the in-memory path, in order and with its ordinals. */
  method ProcessStreaming(content: Bytes, opts: FileOptions, batchSize: int, blank: Blankness)
    returns (tooLong: bool, batches: seq<seq<Stored>>)
    ensures 0 <= opts.WindowMeta().overlap < opts.WindowMeta().window
    ensures tooLong <==> !StreamAccepts(content, opts.MaxLine())
    ensures !tooLong && blank([]) ==>
      Numbered(Flat(batches), Windows(LinesInMemory(content), 1, 0, opts.WindowMeta(), blank))
    ensures FullButLast(batches, if batchSize <= 0 then DEFAULT_BATCH else batchSize)
  {
    ghost var chunks;
    tooLong, batches, chunks := StreamInBatches(content, opts, batchSize, blank);
    if blank([]) {
      SameWindows(content, opts.WindowMeta(), blank);
    }
  }

  /** Chunks and their ordinals determine what is stored... */
  lemma NumberedUnique(a: seq<Stored>, b: seq<Stored>, chunks: seq<Chunk>)
    requires Numbered(a, chunks) && Numbered(b, chunks)
    ensures a == b
  {
  }

  lemma {:induction false} FlatHead(a: seq<seq<Stored>>)
    requires a != []
    ensures Flat(a) == a[0] + Flat(a[1..])
  {
    var n := |a| - 1;
    if n > 0 {
      assert a[..n][0] == a[0] && a[..n][1..] == a[1..][..n - 1] && a[1..][n - 1] == a[n];
      FlatHead(a[..n]);
    }
  }

  /** One batch is all there is, or it is full and more follows. */
  lemma FirstBatch(a: seq<seq<Stored>>, size: nat)
    requires a != [] && FullButLast(a, size) && 0 < size
    ensures Flat(a) == a[0] + Flat(a[1..]) && a[0] != [] && FullButLast(a[1..], size)
    ensures if |a| == 1 then |Flat(a)| <= size else |a[0]| == size < |Flat(a)|
  {
    FlatHead(a);
    if |a| > 1 {
      FlatHead(a[1..]);
      assert a[1..][0] == a[1] && |a[1]| > 0;
      forall i | 0 <= i < |a[1..]| - 1 ensures |a[1..][i]| == size {
        assert a[1..][i] == a[i + 1];
      }
    }
  }

  /** ... in the same batches. */
  lemma {:induction false} SameBatches(a: seq<seq<Stored>>, b: seq<seq<Stored>>, size: nat)
    requires Flat(a) == Flat(b) && FullButLast(a, size) && FullButLast(b, size) && 0 < size
    ensures a == b
    decreases |a|
  {
    if a != [] {
      FirstBatch(a, size);
    }
    if b != [] {
      FirstBatch(b, size);
    }
    if a != [] && b != [] {
      assert |a[0]| == |b[0]| by {
        if |a| == 1 {
          assert a[1..] == [] && b[1..] == [];
        }
      }
      assert a[0] == Flat(a)[..|a[0]|] && Flat(a[1..]) == Flat(a)[|a[0]|..];
      assert b[0] == Flat(b)[..|b[0]|] && Flat(b[1..]) == Flat(b)[|b[0]|..];
      SameBatches(a[1..], b[1..], size);
      assert a == [a[0]] + a[1..] && b == [b[0]] + b[1..];
    }
  }

  /** So a file that both paths accept is stored in the same batches, whichever the run
      takes for its size. */
  method BothPaths(content: Bytes, opts: FileOptions, batchSize: int, blank: Blankness)
    returns (inMemory: Option<seq<seq<Stored>>>, streamed: Option<seq<seq<Stored>>>)
    ensures inMemory.Some? <==> MemoryAccepts(content, opts.MaxLine())
    ensures streamed.Some? <==> StreamAccepts(content, opts.MaxLine())
    ensures inMemory.Some? && streamed.Some? && blank([]) ==> inMemory == streamed
  {
    var long, batches := ProcessInMemory(content, opts, batchSize, blank);
    var long', batches' := ProcessStreaming(content, opts, batchSize, blank);
    inMemory := if long then None else Some(batches);
    streamed := if long' then None else Some(batches');
    if !long && !long' && blank([]) {
      NumberedUnique(Flat(batches), Flat(batches'), Windows(LinesInMemory(content), 1, 0, opts.WindowMeta(), blank));
      SameBatches(batches, batches', if batchSize <= 0 then DEFAULT_BATCH else batchSize);
    }
  }
}
