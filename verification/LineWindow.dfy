/**
 Sliding line windows over a file's lines.

 `blank` says whether a text is only whitespace (Unicode trimming is not modelled);
 the token counter is an arbitrary function.
 */
module LineWindow {
  import opened Options
  import opened ByteLines

  type Counter = Bytes -> nat
  type Blankness = Bytes -> bool

  datatype Chunk = Chunk(startLine: int, endLine: int, startByte: int, endByte: int, snippet: Bytes)

  /** The part of the window metadata that decides what is emitted. */
  datatype Meta = Meta(window: int, overlap: int, maxTokens: int, minTokens: int, counter: Option<Counter>) {
    predicate Limited() { counter.Some? && maxTokens > 0 }
    predicate Filtered() { counter.Some? && minTokens > 0 }
  }

  const DEFAULT_WINDOW := 40
  const DEFAULT_OVERLAP := 8

  // --- window sizes --------------------------------------------------------------------

  function NormalizeWindow(windowLines: int, overlapLines: int): (int, int) {
    var window := if windowLines <= 0 then DEFAULT_WINDOW else windowLines;
    var overlap := if overlapLines <= 0 then DEFAULT_OVERLAP else overlapLines;
    (window, if overlap >= window then window / 4 else overlap)
  }

  /** Normalising twice changes nothing, and a window always moves forward. An overlap that is
      too large becomes a quarter of the window. */
  lemma NormalizeIsIdempotent(windowLines: int, overlapLines: int)
    ensures var (w, o) := NormalizeWindow(windowLines, overlapLines);
            0 <= o < w && NormalizeWindow(w, o) == (w, o)
    ensures var (w, o) := NormalizeWindow(windowLines, overlapLines);
            var wanted := if overlapLines <= 0 then 8 else overlapLines;
            && (w == if windowLines <= 0 then 40 else windowLines)
            && (if wanted < w then o == wanted else 4 * o <= w < 4 * o + 4)
  {
    var (w, o) := NormalizeWindow(windowLines, overlapLines);
    if o == 0 {
      assert w < 4;
    }
  }

  // --- one window ------------------------------------------------------------------------

  function ChunkFromLineWindow(lines: seq<Bytes>, startLine: int, startByte: int, blank: Blankness): Option<Chunk> {
    if lines == [] then None else
      var snippet := Join(lines);
      if blank(snippet) then None
      else Some(Chunk(startLine, startLine + |lines| - 1, startByte, startByte + |snippet|, snippet))
  }

  /** Lines `s` up to `e` are blank or within the token limit. */
  predicate Fits(lines: seq<Bytes>, s: nat, e: nat, m: Meta, blank: Blankness) {
    s <= e <= |lines| && m.counter.Some? &&
    (blank(Join(lines[s..e])) || m.counter.value(Join(lines[s..e])) <= m.maxTokens)
  }

  function FitsFrom(lines: seq<Bytes>, s: nat, m: Meta, blank: Blankness): nat -> bool {
    (e: nat) => Fits(lines, s, e, m, blank)
  }

  function Middle(lo: nat, hi: nat): (mid: nat)
    requires lo < hi
    ensures lo < mid <= hi
  {
    lo + (hi - lo + 1) / 2
  }

  /** The binary search for the largest end in `lo..hi` that is accepted. */
  function Search(ok: nat -> bool, lo: nat, hi: nat): (e: nat)
    requires lo <= hi
    ensures lo <= e <= hi
    decreases hi - lo
  {
    if lo == hi then lo else
      var mid := Middle(lo, hi);
      if ok(mid) then Search(ok, mid, hi) else Search(ok, lo, mid - 1)
  }

  function Full(lines: seq<Bytes>, s: nat, m: Meta): nat
    requires s < |lines| && m.window > 0
  {
    if s + m.window > |lines| then |lines| else s + m.window
  }

  function WindowEnd(lines: seq<Bytes>, s: nat, m: Meta, blank: Blankness): (e: nat)
    requires s < |lines| && m.window > 0
    ensures s < e <= |lines|
  {
    if m.Limited() then Search(FitsFrom(lines, s, m, blank), s + 1, Full(lines, s, m)) else Full(lines, s, m)
  }

  /** The search ends at its lower bound or at an accepted end. */
  lemma {:induction false} SearchAccepts(ok: nat -> bool, low: nat, lo: nat, hi: nat)
    requires lo <= hi && (lo == low || ok(lo))
    ensures Search(ok, lo, hi) == low || ok(Search(ok, lo, hi))
    decreases hi - lo
  {
    if lo < hi {
      var mid := Middle(lo, hi);
      if ok(mid) {
        SearchAccepts(ok, low, mid, hi);
      } else {
        SearchAccepts(ok, low, lo, mid - 1);
      }
    }
  }

  /** When every end before an accepted one is accepted, the search finds the largest. */
  lemma {:induction false} SearchFindsLargest(ok: nat -> bool, lo: nat, hi: nat, full: nat)
    requires lo <= hi <= full && forall e | hi < e <= full :: !ok(e)
    requires forall e, e' | lo <= e <= e' <= full && ok(e') :: ok(e)
    ensures forall e | Search(ok, lo, hi) < e <= full :: !ok(e)
    decreases hi - lo
  {
    if lo < hi {
      var mid := Middle(lo, hi);
      if ok(mid) {
        SearchFindsLargest(ok, mid, hi, full);
      } else {
        SearchFindsLargest(ok, lo, mid - 1, full);
      }
    }
  }

  /** A window is one line or fits, and is never longer than the configured window. */
  lemma WindowEndFits(lines: seq<Bytes>, s: nat, m: Meta, blank: Blankness)
    requires s < |lines| && m.window > 0
    ensures var e := WindowEnd(lines, s, m, blank);
            e <= s + m.window && (m.Limited() ==> e == s + 1 || Fits(lines, s, e, m, blank))
  {
    if m.Limited() {
      SearchAccepts(FitsFrom(lines, s, m, blank), s + 1, s + 1, Full(lines, s, m));
    }
  }

  /** Token counts do not shrink when text is added at the end. */
  ghost predicate GrowsWithText(count: Counter) { forall a: Bytes, b: Bytes :: count(a) <= count(a + b) }

  /** Text is blank when its lines are. */
  ghost predicate LineWise(blank: Blankness) {
    blank([]) && forall a: Bytes, b: Bytes :: blank(a + [LF] + b) <==> blank(a) && blank(b)
  }

  lemma ShorterFits(lines: seq<Bytes>, s: nat, e: nat, e': nat, m: Meta, blank: Blankness)
    requires m.counter.Some? && GrowsWithText(m.counter.value) && LineWise(blank)
    requires s < e <= e' && Fits(lines, s, e', m, blank)
    ensures Fits(lines, s, e, m, blank)
  {
    if e < e' {
      var a, b := lines[s..e], lines[e..e'];
      assert a + b == lines[s..e'];
      JoinStartsWith(a, b);
      var longer := Join(a) + ([LF] + Join(b));
      assert Join(lines[s..e']) == longer;
      assert m.counter.value(Join(a)) <= m.counter.value(longer);
      assert blank(Join(a) + [LF] + Join(b)) ==> blank(Join(a));
    }
  }

  /** When counts grow with text the window is the longest that fits. */
  lemma WindowEndLongest(lines: seq<Bytes>, s: nat, m: Meta, blank: Blankness)
    requires s < |lines| && m.window > 0 && m.Limited() && GrowsWithText(m.counter.value) && LineWise(blank)
    ensures forall e | WindowEnd(lines, s, m, blank) < e <= Full(lines, s, m) :: !Fits(lines, s, e, m, blank)
  {
    var ok := FitsFrom(lines, s, m, blank);
    forall e: nat, e': nat | s + 1 <= e <= e' <= Full(lines, s, m) && ok(e') ensures ok(e) {
      ShorterFits(lines, s, e, e', m, blank);
    }
    SearchFindsLargest(ok, s + 1, Full(lines, s, m), Full(lines, s, m));
    forall e: nat | WindowEnd(lines, s, m, blank) < e <= Full(lines, s, m) ensures !Fits(lines, s, e, m, blank) {
      assert !ok(e);
    }
  }

  // --- all windows ------------------------------------------------------------------------

  function Window(lines: seq<Bytes>, off: int, base: int, s: nat, e: nat, blank: Blankness): Option<Chunk>
    requires s < e <= |lines|
  {
    ChunkFromLineWindow(lines[s..e], off + s, base + Offset(lines, s), blank)
  }

  predicate TooSmall(c: Option<Chunk>, m: Meta) {
    c.Some? && m.Filtered() && m.counter.value(c.value.snippet) < m.minTokens
  }

  /** The window that starts at each line: where it ends, its chunk unless it is blank,
      and whether the chunk is dropped for having too few tokens. */
  datatype Plan = Plan(count: nat, overlap: int, end: nat -> nat, chunk: nat -> Option<Chunk>, dropped: nat -> bool)

  function PlanOf(lines: seq<Bytes>, off: int, base: int, m: Meta, blank: Blankness): Plan
    requires m.window > 0
  {
    Plan(|lines|, m.overlap,
         (s: nat) => if s < |lines| then WindowEnd(lines, s, m, blank) else s,
         (s: nat) => if s < |lines| then Window(lines, off, base, s, WindowEnd(lines, s, m, blank), blank) else None,
         (s: nat) => s < |lines| && TooSmall(Window(lines, off, base, s, WindowEnd(lines, s, m, blank), blank), m))
  }

  function Emitted(c: Option<Chunk>): seq<Chunk> { if c.Some? then [c.value] else [] }

  /** The next start is behind the end by the overlap, but always further on. */
  function NextStart(p: Plan, s: nat): nat {
    if p.dropped(s) || p.end(s) - p.overlap <= s then s + 1 else p.end(s) - p.overlap
  }

  function Taken(p: Plan, s: nat): seq<Chunk> { if p.dropped(s) then [] else Emitted(p.chunk(s)) }

  /** The chunks emitted from line `s` on. */
  function Slide(p: Plan, s: nat): seq<Chunk>
    decreases p.count - s
  {
    if s >= p.count then [] else Taken(p, s) + (if p.end(s) == p.count then [] else Slide(p, NextStart(p, s)))
  }

  /** All chunks of a list of lines. */
  function Windows(lines: seq<Bytes>, off: int, base: int, m: Meta, blank: Blankness): seq<Chunk>
    requires m.window > 0
  {
    Slide(PlanOf(lines, off, base, m, blank), 0)
  }

  /** The chunks emitted so far and those still to come are all the chunks. */
  ghost predicate Emitting(p: Plan, s: nat, out: seq<Chunk>) { out + Slide(p, s) == Slide(p, 0) }

  /** One window has been dealt with. */
  lemma WindowDone(p: Plan, s: nat, out: seq<Chunk>, c: Option<Chunk>, e: nat, skip: bool, more: seq<Chunk>, next: nat)
    requires s < p.count && Emitting(p, s, out)
    requires e == p.end(s) && c == p.chunk(s) && skip == p.dropped(s)
    requires more == if skip || c.None? then out else out + [c.value]
    requires next == if skip || e - p.overlap <= s then s + 1 else e - p.overlap
    ensures if e == p.count then more == Slide(p, 0) else Emitting(p, next, more)
  {
    assert next == NextStart(p, s);
    assert more == out + Taken(p, s);
    Splice(out, Taken(p, s), if e == p.count then [] else Slide(p, next), Slide(p, s), Slide(p, 0));
  }

  lemma Splice(out: seq<Chunk>, taken: seq<Chunk>, rest: seq<Chunk>, all: seq<Chunk>, whole: seq<Chunk>)
    requires all == taken + rest && out + all == whole
    ensures (out + taken) + rest == whole
    ensures rest == [] ==> out + taken == whole
  {
  }

  /** At line `s` the plan is the one for these lines. */
  ghost predicate Planned(p: Plan, lines: seq<Bytes>, off: int, base: int, m: Meta, blank: Blankness, s: nat) {
    && m.window > 0 && s < |lines|
    && p.end(s) == WindowEnd(lines, s, m, blank)
    && p.chunk(s) == Window(lines, off, base, s, p.end(s), blank)
    && p.dropped(s) == TooSmall(p.chunk(s), m)
  }

  method SlideWindowEmit(lines: seq<Bytes>, off: int, meta: Meta, base: int, blank: Blankness) returns (out: seq<Chunk>)
    ensures var (w, o) := NormalizeWindow(meta.window, meta.overlap);
            0 <= o < w && out == Windows(lines, off, base, meta.(window := w, overlap := o), blank)
  {
    NormalizeIsIdempotent(meta.window, meta.overlap);
    var (w, o) := NormalizeWindow(meta.window, meta.overlap);
    ghost var p := PlanOf(lines, off, base, meta.(window := w, overlap := o), blank);
    out := SlideNormalized(lines, off, meta.(window := w, overlap := o), base, blank, p);
  }

  method SlideNormalized(lines: seq<Bytes>, off: int, m: Meta, base: int, blank: Blankness, ghost p: Plan)
    returns (out: seq<Chunk>)
    requires m.window > 0 && p.count == |lines| && p.overlap == m.overlap
    requires forall s: nat | s < |lines| :: Planned(p, lines, off, base, m, blank, s)
    ensures out == Slide(p, 0)
  {
    out := [];
    if |lines| == 0 {
      return;
    }
    var lineOffsets := LineOffsets(lines, base);
    var start := 0;
    while start < |lines|
      invariant Emitting(p, start, out)
    {
      var ch, end, skip := WindowAt(lines, off, base, lineOffsets, start, m, blank, p);
      ghost var before := out;
      if !skip && ch.Some? {
        out := out + [ch.value];
      }
      var next := if skip || end - m.overlap <= start then start + 1 else end - m.overlap;
      WindowDone(p, start, before, ch, end, skip, out, next);
      if end == |lines| {
        return;
      }
      start := next;
    }
  }

  /** One window: its chunk, where it ends, and whether the chunk has too few tokens. */
  method WindowAt(lines: seq<Bytes>, off: int, ghost base: int, lineOffsets: seq<int>, start: nat, m: Meta, blank: Blankness,
                  ghost p: Plan)
    returns (ch: Option<Chunk>, end: nat, skip: bool)
    requires Planned(p, lines, off, base, m, blank, start)
    requires |lineOffsets| == |lines| && lineOffsets[start] == base + Offset(lines, start)
    ensures end == p.end(start) && ch == p.chunk(start) && skip == p.dropped(start)
  {
    end := EndOfWindow(lines, off, lineOffsets[start], start, m, blank);
    ch := ChunkFromLineWindow(lines[start..end], off + start, lineOffsets[start], blank);
    skip := ch.Some? && m.Filtered() && m.counter.value(ch.value.snippet) < m.minTokens;
  }

  method EndOfWindow(lines: seq<Bytes>, off: int, startByte: int, start: nat, m: Meta, blank: Blankness) returns (end: nat)
    requires m.window > 0 && start < |lines|
    ensures end == WindowEnd(lines, start, m, blank)
  {
    end := start + m.window;
    if end > |lines| {
      end := |lines|;
    }
    if m.Limited() {
      end := BinarySearch(lines, off, startByte, start, end, m, blank, FitsFrom(lines, start, m, blank));
    }
  }

  method LineOffsets(lines: seq<Bytes>, base: int) returns (offsets: seq<int>)
    ensures |offsets| == |lines| && forall i | 0 <= i < |lines| :: offsets[i] == base + Offset(lines, i)
  {
    offsets := [];
    var off := base;
    for i := 0 to |lines|
      invariant |offsets| == i && (i < |lines| ==> off == base + Offset(lines, i))
      invariant forall k | 0 <= k < i :: offsets[k] == base + Offset(lines, k)
    {
      offsets := offsets + [off];
      off := off + |lines[i]|;
      if i < |lines| - 1 {
        off := off + 1;
      }
    }
  }

  method BinarySearch(lines: seq<Bytes>, off: int, startByte: int, start: nat, end: nat, m: Meta, blank: Blankness,
                      ghost ok: nat -> bool)
    returns (r: nat)
    requires m.counter.Some? && start < end <= |lines|
    requires forall e: nat | start < e <= end :: ok(e) == Fits(lines, start, e, m, blank)
    ensures r == Search(ok, start + 1, end)
  {
    var lo, hi := start + 1, end;
    while lo < hi
      invariant start < lo <= hi <= end
      invariant Search(ok, lo, hi) == Search(ok, start + 1, end)
      decreases hi - lo
    {
      lo, hi := Narrow(lines, off, startByte, start, lo, hi, m, blank, ok);
    }
    r := lo;
  }

  /** One comparison of the search. */
  method Narrow(lines: seq<Bytes>, off: int, startByte: int, start: nat, lo: nat, hi: nat, m: Meta, blank: Blankness,
                ghost ok: nat -> bool)
    returns (lo': nat, hi': nat)
    requires m.counter.Some? && start < lo < hi <= |lines| && ok(Middle(lo, hi)) == Fits(lines, start, Middle(lo, hi), m, blank)
    ensures lo <= lo' <= hi' <= hi && hi' - lo' < hi - lo && Search(ok, lo', hi') == Search(ok, lo, hi)
  {
    var mid := Middle(lo, hi);
    var tooLong := WindowTooLong(lines, off, startByte, start, mid, m, blank);
    return if tooLong then lo else mid, if tooLong then mid - 1 else hi;
  }

  method WindowTooLong(lines: seq<Bytes>, off: int, startByte: int, start: nat, mid: nat, m: Meta, blank: Blankness)
    returns (r: bool)
    requires m.counter.Some? && start < mid <= |lines|
    ensures r == !Fits(lines, start, mid, m, blank)
  {
    var ch := ChunkFromLineWindow(lines[start..mid], off + start, startByte, blank);
    return ch.Some? && m.counter.value(ch.value.snippet) > m.maxTokens;
  }

  // --- what the emitted chunks are ----------------------------------------------------------

  /** The chunk is the window its line numbers name, its snippet is the joined text
      between its byte offsets, it is within the limits and it is not blank. */
  ghost predicate Good(c: Chunk, lines: seq<Bytes>, off: int, base: int, m: Meta, blank: Blankness)
    requires m.window > 0
  {
    var s := c.startLine - off;
    var e := c.endLine - off + 1;
    && 0 <= s < e <= |lines| && e == WindowEnd(lines, s, m, blank) && e - s <= m.window
    && c.snippet == Join(lines[s..e]) && !blank(c.snippet)
    && 0 <= c.startByte - base <= c.endByte - base <= |Join(lines)|
    && c.snippet == Join(lines)[c.startByte - base..c.endByte - base]
    && (m.Limited() ==> c.startLine == c.endLine || m.counter.value(c.snippet) <= m.maxTokens)
    && (m.Filtered() ==> m.counter.value(c.snippet) >= m.minTokens)
  }

  lemma WindowIsGood(lines: seq<Bytes>, off: int, base: int, s: nat, m: Meta, blank: Blankness)
    requires s < |lines| && m.window > 0 && WindowEnd(lines, s, m, blank) <= |lines| && s < WindowEnd(lines, s, m, blank)
    requires var c := Window(lines, off, base, s, WindowEnd(lines, s, m, blank), blank); c.Some? && !TooSmall(c, m)
    ensures Good(Window(lines, off, base, s, WindowEnd(lines, s, m, blank), blank).value, lines, off, base, m, blank)
  {
    WindowEndFits(lines, s, m, blank);
    JoinSlice(lines, s, WindowEnd(lines, s, m, blank));
  }

  lemma {:induction false} SlideIsGood(lines: seq<Bytes>, off: int, base: int, s: nat, m: Meta, blank: Blankness)
    requires m.window > 0
    ensures forall c | c in Slide(PlanOf(lines, off, base, m, blank), s) :: Good(c, lines, off, base, m, blank)
    decreases |lines| - s
  {
    var p := PlanOf(lines, off, base, m, blank);
    if s < |lines| {
      if p.end(s) < |lines| {
        SlideIsGood(lines, off, base, NextStart(p, s), m, blank);
      }
      if p.chunk(s).Some? && !p.dropped(s) {
        WindowIsGood(lines, off, base, s, m, blank);
      }
    }
  }

  /** Every emitted chunk is a window of the lines within the limits. */
  lemma WindowsAreGood(lines: seq<Bytes>, off: int, base: int, m: Meta, blank: Blankness)
    requires m.window > 0
    ensures forall c | c in Windows(lines, off, base, m, blank) :: Good(c, lines, off, base, m, blank)
  {
    SlideIsGood(lines, off, base, 0, m, blank);
  }

  lemma {:induction false} BlankWindow(lines: seq<Bytes>, s: nat, e: nat, i: nat, blank: Blankness)
    requires LineWise(blank) && s <= i < e <= |lines| && blank(Join(lines[s..e]))
    ensures blank(lines[i])
    decreases e - s
  {
    var ls := lines[s..e];
    if |ls| > 1 {
      assert Join(ls) == ls[0] + [LF] + Join(ls[1..]);
      assert ls[1..] == lines[s + 1..e];
      if i > s {
        BlankWindow(lines, s + 1, e, i, blank);
      }
    }
  }

  ghost predicate Holds(c: Chunk, off: int, i: nat, j: nat) { c.startLine <= off + i && off + j - 1 <= c.endLine }

  /** The window at `s` reaches the end of a short stretch that starts there. */
  lemma StretchFits(lines: seq<Bytes>, s: nat, j: nat, m: Meta, blank: Blankness)
    requires s < j <= |lines| && j - s <= m.window && LineWise(blank)
    requires m.Limited() ==> GrowsWithText(m.counter.value) && Fits(lines, s, j, m, blank)
    ensures j <= WindowEnd(lines, s, m, blank)
  {
    if m.Limited() {
      WindowEndLongest(lines, s, m, blank);
    }
  }

  lemma {:induction false} SlideHolds(lines: seq<Bytes>, off: int, base: int, s: nat, m: Meta, blank: Blankness, i: nat, j: nat, k: nat)
    requires 0 <= m.overlap < m.window && !m.Filtered() && LineWise(blank)
    requires s <= i <= k < j <= |lines| && j - i <= m.overlap + 1 && !blank(lines[k])
    requires m.Limited() && j > i + 1 ==> GrowsWithText(m.counter.value) && Fits(lines, i, j, m, blank)
    ensures exists c :: c in Slide(PlanOf(lines, off, base, m, blank), s) && Holds(c, off, i, j)
    decreases |lines| - s
  {
    var p := PlanOf(lines, off, base, m, blank);
    var e := p.end(s);
    if i == s && j > i + 1 {
      StretchFits(lines, s, j, m, blank);
    }
    if j <= e {
      if blank(Join(lines[s..e])) {
        BlankWindow(lines, s, e, k, blank);
      }
      var c := p.chunk(s).value;
      assert c in Taken(p, s) && Holds(c, off, i, j);
    } else {
      SlideHolds(lines, off, base, NextStart(p, s), m, blank, i, j, k);
    }
  }

  /** Neighbouring lines stay together: without a minimum-token filter any stretch of at
      most one line more than the overlap, unless it is blank, lies whole in one emitted
      chunk; under a token limit, if the stretch itself is within it. */
  lemma StretchStaysTogether(lines: seq<Bytes>, off: int, base: int, m: Meta, blank: Blankness, i: nat, j: nat, k: nat)
    requires 0 <= m.overlap < m.window && !m.Filtered() && LineWise(blank)
    requires i <= k < j <= |lines| && j - i <= m.overlap + 1 && !blank(lines[k])
    requires m.Limited() && j > i + 1 ==> GrowsWithText(m.counter.value) && Fits(lines, i, j, m, blank)
    ensures exists c :: c in Windows(lines, off, base, m, blank) && Holds(c, off, i, j)
  {
    SlideHolds(lines, off, base, 0, m, blank, i, j, k);
  }

  /** In particular no line that is not blank is lost. */
  lemma NoLineIsLost(lines: seq<Bytes>, off: int, base: int, m: Meta, blank: Blankness, i: nat)
    requires 0 <= m.overlap < m.window && !m.Filtered() && LineWise(blank)
    requires i < |lines| && !blank(lines[i])
    ensures exists c :: c in Windows(lines, off, base, m, blank) && c.startLine <= off + i <= c.endLine
  {
    StretchStaysTogether(lines, off, base, m, blank, i, i + 1, i);
    var c :| c in Windows(lines, off, base, m, blank) && Holds(c, off, i, i + 1);
  }

  ghost predicate InSome(cs: seq<Chunk>, line: int) { exists c :: c in cs && c.startLine <= line <= c.endLine }

  lemma LaterIsTaken(p: Plan, s: nat, line: int)
    requires s < p.count && p.end(s) != p.count && InSome(Slide(p, NextStart(p, s)), line)
    ensures InSome(Slide(p, s), line)
  {
    var c :| c in Slide(p, NextStart(p, s)) && c.startLine <= line <= c.endLine;
    assert c in Slide(p, s);
  }

  predicate Small(lines: seq<Bytes>, s: nat, m: Meta, blank: Blankness)
    requires s < |lines| && m.window > 0 && m.counter.Some?
  {
    m.counter.value(Join(lines[s..WindowEnd(lines, s, m, blank)])) < m.minTokens
  }

  /** The window that begins with the line has too few tokens, or one that contains it and ends
      with the last line has. */
  ghost predicate InSmall(lines: seq<Bytes>, m: Meta, blank: Blankness, i: nat)
    requires i < |lines| && m.window > 0 && m.counter.Some?
  {
    exists s: nat :: s <= i && (s == i || WindowEnd(lines, s, m, blank) == |lines|) && Small(lines, s, m, blank)
  }

  lemma {:induction false} SlideKeeps(lines: seq<Bytes>, off: int, base: int, s: nat, m: Meta, blank: Blankness, i: nat)
    requires 0 <= m.overlap < m.window && m.Filtered() && LineWise(blank)
    requires s <= i < |lines| && !blank(lines[i])
    ensures InSome(Slide(PlanOf(lines, off, base, m, blank), s), off + i) || InSmall(lines, m, blank, i)
    decreases |lines| - s
  {
    var p := PlanOf(lines, off, base, m, blank);
    if i < p.end(s) {
      TakenOrSmall(lines, off, base, s, m, blank, i);
    }
    if (i >= p.end(s) || (p.dropped(s) && s < i)) && p.end(s) < |lines| {
      var next := NextStart(p, s);
      SlideKeeps(lines, off, base, next, m, blank, i);
      if InSome(Slide(p, next), off + i) {
        LaterIsTaken(p, s, off + i);
      }
    }
  }

  lemma TakenOrSmall(lines: seq<Bytes>, off: int, base: int, s: nat, m: Meta, blank: Blankness, i: nat)
    requires 0 <= m.overlap < m.window && m.Filtered() && LineWise(blank)
    requires s <= i < |lines| && !blank(lines[i]) && i < WindowEnd(lines, s, m, blank)
    ensures var p := PlanOf(lines, off, base, m, blank);
            if p.dropped(s) then Small(lines, s, m, blank) else InSome(Slide(p, s), off + i)
  {
    var p := PlanOf(lines, off, base, m, blank);
    if blank(Join(lines[s..p.end(s)])) {
      BlankWindow(lines, s, p.end(s), i, blank);
    }
    var c := p.chunk(s).value;
    if !p.dropped(s) {
      assert c in Slide(p, s) && c.startLine <= off + i <= c.endLine;
    }
  }

  /** With a minimum-token filter a line is only lost to a window with too few tokens. */
  lemma LostLinesAreSmall(lines: seq<Bytes>, off: int, base: int, m: Meta, blank: Blankness, i: nat)
    requires 0 <= m.overlap < m.window && m.Filtered() && LineWise(blank)
    requires i < |lines| && !blank(lines[i])
    ensures InSome(Windows(lines, off, base, m, blank), off + i) || InSmall(lines, m, blank, i)
  {
    SlideKeeps(lines, off, base, 0, m, blank, i);
  }

  /** The first chunk begins with line `first` and the last ends with line `last`; each but the
      last is followed by one that begins `overlap` lines before its end, or one line on. */
  ghost predicate Overlapping(cs: seq<Chunk>, off: int, first: int, last: int, overlap: int)
    decreases |cs|
  {
    && cs != [] && cs[0].startLine == off + first
    && if |cs| == 1 then cs[0].endLine == off + last else
         var next := cs[0].endLine + 1 - overlap - off;
         cs[0].endLine < off + last && Overlapping(cs[1..], off, if next <= first then first + 1 else next, last, overlap)
  }

  lemma {:induction false} SlideOverlaps(lines: seq<Bytes>, off: int, base: int, s: nat, m: Meta, blank: Blankness)
    requires 0 <= m.overlap < m.window && !m.Filtered() && LineWise(blank) && forall l | l in lines :: !blank(l)
    requires s < |lines|
    ensures Overlapping(Slide(PlanOf(lines, off, base, m, blank), s), off, s, |lines| - 1, m.overlap)
    decreases |lines| - s
  {
    var p := PlanOf(lines, off, base, m, blank);
    var e := p.end(s);
    if blank(Join(lines[s..e])) {
      BlankWindow(lines, s, e, s, blank);
    }
    var c := p.chunk(s).value;
    if e < |lines| {
      var rest := Slide(p, NextStart(p, s));
      SlideOverlaps(lines, off, base, NextStart(p, s), m, blank);
      assert Slide(p, s) == [c] + rest && ([c] + rest)[1..] == rest;
    } else {
      assert Slide(p, s) == [c];
    }
  }

  /** Without a filter and without blank lines the chunks overlap by exactly what is configured. */
  lemma ChunksOverlap(lines: seq<Bytes>, off: int, base: int, m: Meta, blank: Blankness)
    requires 0 <= m.overlap < m.window && !m.Filtered() && LineWise(blank) && forall l | l in lines :: !blank(l)
    requires lines != []
    ensures Overlapping(Windows(lines, off, base, m, blank), off, 0, |lines| - 1, m.overlap)
  {
    SlideOverlaps(lines, off, base, 0, m, blank);
  }
}
