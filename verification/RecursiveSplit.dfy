/**
 Splitting prose under a token budget by a hierarchy of delimiters.

 The token counter is an arbitrary function. Texts are ASCII (see ProseText). The
 ghost parameter `src` is the source the offsets refer to.
 */
module RecursiveSplit {
  import opened ProseText

  type Counter = string -> nat

  datatype Level = Paragraph | Line | Sentence | Clause | Word | Chars {
    function Rank(): nat {
      match this
      case Paragraph => 5 case Line => 4 case Sentence => 3 case Clause => 2 case Word => 1 case Chars => 0
    }

    function Next(): Level {
      match this
      case Paragraph => Line case Line => Sentence case Sentence => Clause case Clause => Word case _ => Chars
    }

    function Separator(): string {
      match this
      case Paragraph => "\n\n"
      case Line => "\n"
      case Chars => ""
      case _ => " "
    }
  }

  predicate IsSentenceEnd(c: char) { c == '.' || c == '!' || c == '?' }
  predicate StartsSentence(c: char) { 'A' <= c <= 'Z' || '0' <= c <= '9' }
  predicate IsClauseEnd(c: char) { c == ';' || c == ':' }

  predicate Fits(p: Piece, budget: int, count: Counter) { count(p.text) <= budget || |p.text| == 1 }
  ghost predicate AllFit(ps: seq<Piece>, budget: int, count: Counter) { forall p | p in ps :: Fits(p, budget, count) }

  /** `text` is the source from offset `base` on. */
  ghost predicate Located(src: string, base: nat, text: string) {
    base + |text| <= |src| && forall i | 0 <= i < |text| :: text[i] == src[base + i]
  }

  lemma LocatedSlice(src: string, base: nat, text: string, a: nat, b: nat)
    requires Located(src, base, text) && a <= b <= |text|
    ensures text[a..b] == src[base + a..base + b]
  {
  }

  lemma LocatedBlank(src: string, base: nat, text: string, a: nat, b: nat)
    requires Located(src, base, text) && a <= b <= |text| && BlankIn(text, a, b)
    ensures BlankIn(src, base + a, base + b)
  {
    forall i | base <= i < base + |text| ensures src[i] == text[i - base] {
      var n := i - base;
      assert text[n] == src[base + n];
    }
  }

  lemma LocatedBlankAt(src: string, base: nat, text: string, a: nat, b: nat, lo: nat, hi: nat)
    requires Located(src, base, text) && a <= b <= |text| && BlankIn(text, a, b) && lo == base + a && hi == base + b
    ensures hi <= |src| && BlankIn(src, lo, hi)
  {
    LocatedBlank(src, base, text, a, b);
  }

  lemma SliceOfSlice(s: string, lo: nat, hi: nat, a: nat, b: nat)
    requires lo <= hi <= |s| && a <= b <= hi - lo
    ensures s[lo..hi][a..b] == s[lo + a..lo + b]
  {
    var part := s[lo..hi];
    forall i | 0 <= i < b - a ensures part[a..b][i] == s[lo + a..lo + b][i] {
      assert part[a + i] == s[lo + a + i];
    }
  }

  // --- what a delimiter is -------------------------------------------------------------

  /** `src[k..j+1]` is a place where the level cuts. */
  ghost predicate Delimiter(level: Level, src: string, k: nat, j: nat)
    requires k <= j < |src|
  {
    match level
    case Paragraph => j == k + 1 && src[k] == '\n' && src[j] == '\n'
    case Line => j == k && src[k] == '\n'
    case Sentence => k < j && IsSentenceEnd(src[k]) && StartsSentence(src[j]) && BlankIn(src, k + 1, j)
    case Clause => j == k + 1 && IsClauseEnd(src[k]) && IsSpace(src[j])
    case Word => j == k && IsSpace(src[k])
    case Chars => false
  }

  /** No delimiter of the level lies inside the piece. */
  ghost predicate Whole(level: Level, src: string, p: Piece) {
    p.end <= |src| && forall k: nat, j: nat | p.start <= k <= j < p.end :: !Delimiter(level, src, k, j)
  }

  /** A delimiter of the level lies across the gap between two neighbours. */
  ghost predicate Divided(level: Level, src: string, p: Piece, q: Piece) { DividedAt(level, src, p.end, q.start) }

  ghost predicate DividedAt(level: Level, src: string, e: nat, s: nat) {
    exists k: nat, j: nat :: k <= j < |src| && e <= k + 1 && j <= s && Delimiter(level, src, k, j)
  }

  /** The pieces are the parts between delimiters: cut at every one and nowhere else. */
  ghost predicate CutAt(level: Level, src: string, ps: seq<Piece>) {
    && (forall p | p in ps :: Whole(level, src, p))
    && (forall i, n | 0 <= i < n < |ps| && n == i + 1 :: Divided(level, src, ps[i], ps[n]))
  }

  // --- when a cut is needed -----------------------------------------------------------------

  /** No delimiter of a coarser level lies inside `src[lo..hi]`. */
  ghost predicate Coarse(level: Level, src: string, lo: nat, hi: nat) {
    hi <= |src| && forall l: Level | l.Rank() > level.Rank() :: Whole(l, src, Piece("", lo, hi))
  }

  /** One piece ends at `e`, the next starts at `s`: both lie in a stretch over the budget
      that has no coarser delimiter, and a delimiter of the level lies between them. */
  ghost predicate NeededIn(level: Level, lo: nat, hi: nat, src: string, e: nat, s: nat, budget: int, count: Counter) {
    && lo <= e <= s <= hi <= |src| && count(src[lo..hi]) > budget && Coarse(level, src, lo, hi)
    && (level.Chars? || DividedAt(level, src, e, s))
  }

  ghost predicate Needed(src: string, e: nat, s: nat, budget: int, count: Counter) {
    exists level: Level, lo: nat, hi: nat :: NeededIn(level, lo, hi, src, e, s, budget, count)
  }

  ghost predicate NeededFrom(src: string, e: nat, ps: seq<Piece>, budget: int, count: Counter)
    decreases |ps|
  {
    ps != [] ==> Needed(src, e, ps[0].start, budget, count) && NeededFrom(src, ps[0].end, ps[1..], budget, count)
  }

  /** Every cut is needed. */
  ghost predicate AllNeeded(src: string, ps: seq<Piece>, budget: int, count: Counter) {
    ps != [] ==> NeededFrom(src, ps[0].end, ps[1..], budget, count)
  }

  lemma NeededCons(src: string, p: Piece, m: seq<Piece>, budget: int, count: Counter)
    requires m != [] && Needed(src, p.end, m[0].start, budget, count) && AllNeeded(src, m, budget, count)
    ensures AllNeeded(src, [p] + m, budget, count)
  {
    assert ([p] + m)[1..] == m;
  }

  lemma {:induction false} NeededAppend(src: string, a: seq<Piece>, b: seq<Piece>, budget: int, count: Counter)
    requires a != [] && b != [] && AllNeeded(src, a, budget, count) && AllNeeded(src, b, budget, count)
    requires Needed(src, a[|a| - 1].end, b[0].start, budget, count)
    ensures AllNeeded(src, a + b, budget, count)
    decreases |a|
  {
    if |a| == 1 {
      assert a + b == [a[0]] + b;
      NeededCons(src, a[0], b, budget, count);
    } else {
      assert a[1..] + b == (a + b)[1..] && (a[1..] + b)[0] == a[1];
      NeededAppend(src, a[1..], b, budget, count);
      assert a + b == [a[0]] + (a[1..] + b);
      NeededCons(src, a[0], a[1..] + b, budget, count);
    }
  }

  lemma {:induction false} EachCutIsNeeded(src: string, ps: seq<Piece>, budget: int, count: Counter)
    requires AllNeeded(src, ps, budget, count)
    ensures forall i, n | 0 <= i < n < |ps| && n == i + 1 :: Needed(src, ps[i].end, ps[n].start, budget, count)
    decreases |ps|
  {
    if ps != [] {
      EachCutIsNeeded(src, ps[1..], budget, count);
      forall i, n | 0 <= i < n < |ps| && n == i + 1 ensures Needed(src, ps[i].end, ps[n].start, budget, count) {
        if i > 0 {
          assert ps[i] == ps[1..][i - 1] && ps[n] == ps[1..][n - 1];
        }
      }
    }
  }

  lemma CoarseInside(level: Level, src: string, lo: nat, hi: nat, a: nat, b: nat)
    requires Coarse(level, src, lo, hi) && lo <= a <= b <= hi
    ensures Coarse(level, src, a, b)
  {
    forall l: Level | l.Rank() > level.Rank() ensures Whole(l, src, Piece("", a, b)) {
      assert Whole(l, src, Piece("", lo, hi));
    }
  }

  /** What one level leaves whole is handed to the next. */
  lemma CoarseNext(level: Level, src: string, lo: nat, hi: nat, p: Piece)
    requires Coarse(level, src, lo, hi) && lo <= p.start <= p.end <= hi && Whole(level, src, p) && !level.Chars?
    ensures Coarse(level.Next(), src, p.start, p.end)
  {
    CoarseInside(level, src, lo, hi, p.start, p.end);
    forall l: Level | l.Rank() > level.Next().Rank() ensures Whole(l, src, Piece("", p.start, p.end)) {
      if l.Rank() > level.Rank() {
      } else {
        assert l == level;
      }
    }
  }

  // --- one raw span -----------------------------------------------------------------------

  /** The trimmed part of `raw`, which starts at offset `at`; no text when `raw` is blank. */
  ghost predicate TrimmedPart(raw: string, at: nat, p: Piece) {
    if p.text == "" then Blank(raw) else
      && at <= p.start < p.end <= at + |raw| && p.text == raw[p.start - at..p.end - at]
      && BlankIn(raw, 0, p.start - at) && BlankIn(raw, p.end - at, |raw|) && !IsSpace(p.text[|p.text| - 1])
  }

  /** A piece from a raw span, or nothing when the span is blank. */
  ghost predicate Trimmed(src: string, lo: nat, hi: nat, p: Piece) {
    && lo <= hi <= |src|
    && if p.text == "" then BlankIn(src, lo, hi) else
         && lo <= p.start < p.end <= hi && p.text == src[p.start..p.end]
         && BlankIn(src, lo, p.start) && BlankIn(src, p.end, hi) && !IsSpace(src[p.end - 1])
  }

  lemma RawSpan(src: string, lo: nat, hi: nat, raw: string, p: Piece)
    requires lo <= hi <= |src| && raw == src[lo..hi] && TrimmedPart(raw, lo, p)
    ensures Trimmed(src, lo, hi, p)
  {
    assert forall i | lo <= i < hi :: src[i] == raw[i - lo];
    if p.text != "" {
      SliceOfSlice(src, lo, hi, p.start - lo, p.end - lo);
    }
  }

  method PieceFromRawSpan(ghost src: string, text: string, base: nat, rawStart: nat, rawEnd: nat) returns (p: Piece)
    requires Located(src, base, text) && rawStart <= rawEnd <= |text|
    ensures Trimmed(src, base + rawStart, base + rawEnd, p)
  {
    var raw, at := text[rawStart..rawEnd], base + rawStart;
    p := PieceFromRaw(at, raw);
    LocatedSlice(src, base, text, rawStart, rawEnd);
    RawSpan(src, at, base + rawEnd, raw, p);
  }

  method PieceFromRaw(start: nat, raw: string) returns (p: Piece)
    ensures TrimmedPart(raw, start, p)
  {
    var trimmed, lead, _ := TrimSpaceBounds(raw);
    if trimmed == "" {
      return Piece("", 0, 0);
    }
    return Piece(trimmed, start + lead, start + lead + |trimmed|);
  }

  lemma CoversSnoc(src: string, lo: nat, at: nat, to: nat, parts: seq<Piece>, p: Piece)
    requires Covers(src, lo, at, parts) && Trimmed(src, at, to, p) && p.text != ""
    ensures Covers(src, lo, to, parts + [p])
  {
    CoversOne(src, at, p, to);
    CoversAppend(src, lo, at, to, parts, [p]);
  }

  lemma CoversSkip(src: string, lo: nat, at: nat, to: nat, parts: seq<Piece>)
    requires Covers(src, lo, at, parts) && at <= to <= |src| && BlankIn(src, at, to)
    ensures Covers(src, lo, to, parts)
  {
    CoversAppend(src, lo, at, to, parts, []);
    assert parts + [] == parts;
  }

  /** Progress of a splitter: what lies before `src[at]` is cut into `parts`, the last
      of which ends at or before `src[last]`. */
  ghost predicate CutUpTo(level: Level, src: string, base: nat, at: nat, parts: seq<Piece>, last: nat) {
    && Covers(src, base, at, parts) && Exact(src, parts) && CutAt(level, src, parts)
    && (parts != [] ==> parts[|parts| - 1].end <= last)
  }

  /** A delimiter at `src[k..j+1]` follows the last part, if there is one. */
  ghost predicate Pending(level: Level, src: string, parts: seq<Piece>, at: nat, k: nat, j: nat) {
    parts != [] ==> k <= j < |src| && j <= at && Delimiter(level, src, k, j)
  }

  lemma CutAtSnoc(level: Level, src: string, at: nat, to: nat, parts: seq<Piece>, p: Piece, k: nat, j: nat)
    requires at <= p.start <= p.end <= to && Whole(level, src, Piece("", at, to))
    requires CutAt(level, src, parts) && Pending(level, src, parts, at, k, j)
    requires parts != [] ==> parts[|parts| - 1].end <= k + 1
    ensures CutAt(level, src, parts + [p])
  {
    var all := parts + [p];
    forall q | q in all ensures Whole(level, src, q) {
      if q == p {
        forall k': nat, j': nat | p.start <= k' <= j' < p.end ensures !Delimiter(level, src, k', j') {}
      }
    }
    forall i, n | 0 <= i < n < |all| && n == i + 1 ensures Divided(level, src, all[i], all[n]) {
      if n < |parts| {
        assert Divided(level, src, parts[i], parts[n]);
      }
    }
  }

  lemma PutPart(level: Level, src: string, lo: nat, at: nat, to: nat, re: nat, next: nat, parts: seq<Piece>, p: Piece,
                k: nat, j: nat)
    requires at <= to <= re <= next <= |src| && BlankIn(src, to, next)
    requires Trimmed(src, at, re, p) && p.text != ""
    requires CutUpTo(level, src, lo, at, parts, k + 1) && Mark(level, src, lo, at, k, j)
    requires Whole(level, src, Piece("", at, to))
    ensures CutUpTo(level, src, lo, next, parts + [p], to)
  {
    PutCovers(src, lo, at, to, re, next, parts, p);
    PutCut(level, src, lo, at, to, parts, p, k, j);
  }

  lemma PutCovers(src: string, lo: nat, at: nat, to: nat, re: nat, next: nat, parts: seq<Piece>, p: Piece)
    requires at <= to <= re <= next <= |src| && BlankIn(src, to, next) && Trimmed(src, at, re, p) && p.text != ""
    requires Covers(src, lo, at, parts) && Exact(src, parts)
    ensures Covers(src, lo, next, parts + [p]) && Exact(src, parts + [p]) && p.end <= to
  {
    PartEnds(src, at, to, re, next, p);
    CoversSnoc(src, lo, at, re, parts, p);
    CoversSkip(src, lo, re, next, parts + [p]);
    ExactSnoc(src, parts, p);
  }

  lemma PartEnds(src: string, at: nat, to: nat, re: nat, next: nat, p: Piece)
    requires at <= to <= re <= next <= |src| && BlankIn(src, to, next) && Trimmed(src, at, re, p) && p.text != ""
    ensures p.end <= to
  {
    var last := p.end - 1;
    assert !IsSpace(src[last]);
  }

  lemma ExactSnoc(src: string, parts: seq<Piece>, p: Piece)
    requires Exact(src, parts) && p.start < p.end <= |src| && p.text == src[p.start..p.end] && !IsSpace(src[p.end - 1])
    ensures Exact(src, parts + [p])
  {
  }

  lemma PutCut(level: Level, src: string, lo: nat, at: nat, to: nat, parts: seq<Piece>, p: Piece, k: nat, j: nat)
    requires CutAt(level, src, parts) && Mark(level, src, lo, at, k, j) && Covers(src, lo, at, parts)
    requires parts != [] ==> parts[|parts| - 1].end <= k + 1
    requires at <= p.start <= p.end <= to && Whole(level, src, Piece("", at, to))
    ensures CutAt(level, src, parts + [p])
  {
    CutAtSnoc(level, src, at, to, parts, p, k, j);
  }

  lemma SkipPart(level: Level, src: string, lo: nat, at: nat, to: nat, re: nat, next: nat, parts: seq<Piece>, last: nat)
    requires at <= to <= re <= next <= |src| && BlankIn(src, at, re) && BlankIn(src, to, next)
    requires CutUpTo(level, src, lo, at, parts, last)
    ensures CutUpTo(level, src, lo, next, parts, to)
  {
    LastEnds(src, lo, at, parts);
    CoversSkip(src, lo, at, next, parts);
  }

  /** Either nothing has been cut yet or `src[k..j+1]` is the last delimiter met. */
  ghost predicate Mark(level: Level, src: string, base: nat, at: nat, k: nat, j: nat) {
    at == base || (k <= j < |src| && j <= at && Delimiter(level, src, k, j))
  }

  lemma Appended(level: Level, src: string, lo: nat, at: nat, to: nat, re: nat, next: nat, parts: seq<Piece>, p: Piece,
                 k: nat, j: nat, last: nat)
    requires at <= to <= re <= next <= |src| && to <= last && BlankIn(src, to, next) && Trimmed(src, at, re, p)
    requires CutUpTo(level, src, lo, at, parts, k + 1) && Mark(level, src, lo, at, k, j)
    requires Whole(level, src, Piece("", at, to))
    ensures CutUpTo(level, src, lo, next, if p.text != "" then parts + [p] else parts, last)
  {
    if p.text != "" {
      PutPart(level, src, lo, at, to, re, next, parts, p, k, j);
    } else {
      SkipPart(level, src, lo, at, to, re, next, parts, k + 1);
    }
  }

  /** Appends the trimmed span `text[rawStart..rawEnd]` unless it is blank. `at` is where
      the span starts in the source; the part ends at or before `src[to]`, and only
      whitespace follows up to `next`. */
  method AppendRaw(ghost level: Level, ghost src: string, base: nat, text: string, parts: seq<Piece>, rawStart: nat,
                   rawEnd: nat, ghost at: nat, ghost to: nat, ghost next: nat, ghost k: nat, ghost j: nat, ghost last: nat)
    returns (r: seq<Piece>)
    requires Located(src, base, text) && rawStart <= rawEnd <= |text|
    requires base + rawStart == at <= to <= base + rawEnd <= next <= |src| && to <= last && BlankIn(src, to, next)
    requires CutUpTo(level, src, base, at, parts, k + 1) && Mark(level, src, base, at, k, j)
    requires Whole(level, src, Piece("", at, to))
    ensures CutUpTo(level, src, base, next, r, last)
  {
    var p := PieceFromRawSpan(src, text, base, rawStart, rawEnd);
    Appended(level, src, base, at, to, base + rawEnd, next, parts, p, k, j, last);
    r := parts;
    if p.text != "" {
      r := r + [p];
    }
  }

  lemma {:induction false} LastEnds(src: string, lo: nat, hi: nat, parts: seq<Piece>)
    requires Covers(src, lo, hi, parts)
    ensures parts != [] ==> parts[|parts| - 1].end <= hi
    decreases |parts|
  {
    if parts != [] {
      LastEnds(src, parts[0].end, hi, parts[1..]);
      assert |parts| > 1 ==> parts[|parts| - 1] == parts[1..][|parts| - 2];
    }
  }

  /** The result of every splitter: the parts, or one empty piece for a blank text. */
  ghost predicate SplitInto(level: Level, src: string, base: nat, text: string, parts: seq<Piece>) {
    if Blank(text) then parts == [Piece("", base, base + |text|)]
    else parts != [] && Covers(src, base, base + |text|, parts) && Exact(src, parts) && CutAt(level, src, parts)
  }

  method OrWholeText(ghost level: Level, ghost src: string, base: nat, text: string, ghost hi: nat, parts: seq<Piece>, ghost last: nat)
    returns (r: seq<Piece>)
    requires Located(src, base, text) && hi == base + |text| && CutUpTo(level, src, base, hi, parts, last)
    ensures SplitInto(level, src, base, text, r)
  {
    if |parts| == 0 {
      LocatedNotBlank(src, base, text);
      TrimBlank(text);
      return [Piece(TrimSpace(text), base, base + |text|)];
    }
    assert !Blank(text) by {
      PieceNotBlank(src, base, text, parts);
    }
    return parts;
  }

  lemma LocatedNotBlank(src: string, base: nat, text: string)
    requires Located(src, base, text)
    ensures Blank(text) <==> BlankIn(src, base, base + |text|)
  {
    forall i | base <= i < base + |text| ensures src[i] == text[i - base] {
      var n := i - base;
      assert text[n] == src[base + n];
    }
  }

  lemma PieceNotBlank(src: string, base: nat, text: string, parts: seq<Piece>)
    requires Located(src, base, text) && parts != [] && Covers(src, base, base + |text|, parts) && Exact(src, parts)
    ensures !Blank(text)
  {
    LocatedNotBlank(src, base, text);
    assert parts[0] in parts;
  }

  // --- the splitters ----------------------------------------------------------------------

  /** No delimiter of the level starts in `src[at..pos]` and ends before `hi`. */
  ghost predicate Uncut(level: Level, src: string, at: nat, pos: nat, hi: nat) {
    hi <= |src| && forall k: nat, j: nat | at <= k < pos && k <= j < hi :: !Delimiter(level, src, k, j)
  }

  lemma UncutWhole(level: Level, src: string, at: nat, pos: nat, hi: nat)
    requires at <= pos <= hi && Uncut(level, src, at, pos, hi)
    ensures Whole(level, src, Piece("", at, pos))
    ensures (level.Sentence? || level.Clause?) && pos < hi ==> Whole(level, src, Piece("", at, pos + 1))
  {
  }

  lemma UncutStep(level: Level, src: string, at: nat, pos: nat, hi: nat)
    requires at <= pos < hi && Uncut(level, src, at, pos, hi)
    requires forall j: nat | pos <= j < hi :: !Delimiter(level, src, pos, j)
    ensures Uncut(level, src, at, pos + 1, hi)
  {
  }

  lemma NoParagraphHere(src: string, at: nat, pos: nat, hi: nat)
    requires at <= pos < hi && Uncut(Paragraph, src, at, pos, hi)
    requires pos + 1 < hi ==> src[pos] != '\n' || src[pos + 1] != '\n'
    ensures Uncut(Paragraph, src, at, pos + 1, hi)
  {
    UncutStep(Paragraph, src, at, pos, hi);
  }

  method SplitParagraphs(ghost src: string, text: string, base: nat) returns (r: seq<Piece>)
    requires Located(src, base, text)
    ensures SplitInto(Paragraph, src, base, text, r)
  {
    var parts := [];
    var start, i := 0, 0;
    ghost var at: nat, k: nat, j: nat := base, base, 0;
    ghost var pos, hi := base, base + |text|;
    while i < |text|
      invariant start <= i <= |text| && at == base + start && pos == base + i
      invariant CutUpTo(Paragraph, src, base, at, parts, k + 1) && Mark(Paragraph, src, base, at, k, j)
      invariant Uncut(Paragraph, src, at, pos, hi)
    {
      assert text[i] == src[pos];
      if i + 1 < |text| && text[i] == '\n' {
        var n := i + 1;
        while n < |text| && text[n] == '\n'
          invariant i < n <= |text|
          invariant forall x | i <= x < n :: text[x] == '\n'
        {
          n := n + 1;
        }
        assert text[i + 1] == src[pos + 1];
        if n > i + 1 {
          ghost var next := base + n;
          LocatedBlankAt(src, base, text, i, n, pos, next);
          UncutWhole(Paragraph, src, at, pos, hi);
          parts := AppendRaw(Paragraph, src, base, text, parts, start, i, at, pos, next, k, j, pos + 1);
          at, k, j := next, pos, pos + 1;
          start, i, pos := n, n, next;
          continue;
        }
      }
      NoParagraphHere(src, at, pos, hi);
      i, pos := i + 1, pos + 1;
    }
    UncutWhole(Paragraph, src, at, pos, hi);
    parts := AppendRaw(Paragraph, src, base, text, parts, start, |text|, at, hi, hi, k, j, hi);
    r := OrWholeText(Paragraph, src, base, text, hi, parts, hi);
  }

  lemma NoLineHere(src: string, at: nat, pos: nat, hi: nat)
    requires at <= pos < hi && Uncut(Line, src, at, pos, hi) && src[pos] != '\n'
    ensures Uncut(Line, src, at, pos + 1, hi)
  {
    UncutStep(Line, src, at, pos, hi);
  }

  method SplitLines(ghost src: string, text: string, base: nat) returns (r: seq<Piece>)
    requires Located(src, base, text)
    ensures SplitInto(Line, src, base, text, r)
  {
    var parts := [];
    var lineStart, i := 0, 0;
    ghost var at: nat, k: nat, j: nat := base, base, 0;
    ghost var pos, hi := base, base + |text|;
    while i <= |text|
      invariant lineStart <= i <= |text| + 1 && pos == base + i
      invariant at == (if i <= |text| then base + lineStart else hi)
      invariant CutUpTo(Line, src, base, at, parts, k + 1)
      invariant i <= |text| ==> Uncut(Line, src, at, pos, hi) && Mark(Line, src, base, at, k, j)
    {
      assert i < |text| ==> text[i] == src[pos];
      if i < |text| && text[i] != '\n' {
        NoLineHere(src, at, pos, hi);
        i, pos := i + 1, pos + 1;
        continue;
      }
      ghost var next := if i < |text| then pos + 1 else pos;
      UncutWhole(Line, src, at, pos, hi);
      parts := AppendRaw(Line, src, base, text, parts, lineStart, i, at, pos, next, k, j, pos + 1);
      at, k, j := next, pos, pos;
      lineStart := i + 1;
      i, pos := i + 1, pos + 1;
    }
    r := OrWholeText(Line, src, base, text, at, parts, k + 1);
  }

  lemma NoSentenceHere(src: string, at: nat, pos: nat, next: nat, hi: nat)
    requires at <= pos < hi && Uncut(Sentence, src, at, pos, hi)
    requires !IsSentenceEnd(src[pos]) ||
             (pos < next < hi && BlankIn(src, pos + 1, next) && !IsSpace(src[next]) && !StartsSentence(src[next]))
    ensures Uncut(Sentence, src, at, pos + 1, hi)
  {
    UncutStep(Sentence, src, at, pos, hi);
  }

  lemma NotBlankSplit(level: Level, src: string, base: nat, text: string, hi: nat, parts: seq<Piece>, last: nat, i: nat)
    requires Located(src, base, text) && hi == base + |text| && CutUpTo(level, src, base, hi, parts, last)
    requires i < |text| && !IsSpace(text[i])
    ensures SplitInto(level, src, base, text, parts)
  {
    LocatedNotBlank(src, base, text);
  }

  method SplitSentences(ghost src: string, text: string, base: nat) returns (r: seq<Piece>)
    requires Located(src, base, text)
    ensures SplitInto(Sentence, src, base, text, r)
  {
    var parts := [];
    var start, i := 0, 0;
    ghost var at: nat, k: nat, j: nat := base, base, 0;
    ghost var pos, hi := base, base + |text|;
    while i < |text|
      invariant start <= i <= |text| && at == base + start && pos == base + i
      invariant CutUpTo(Sentence, src, base, at, parts, k + 1) && Mark(Sentence, src, base, at, k, j)
      invariant Uncut(Sentence, src, at, pos, hi)
    {
      assert text[i] == src[pos];
      if !IsSentenceEnd(text[i]) {
        NoSentenceHere(src, at, pos, pos, hi);
        i, pos := i + 1, pos + 1;
        continue;
      }
      var n := AfterSpaces(text, i + 1);
      ghost var next := base + n;
      LocatedBlankAt(src, base, text, i + 1, n, pos + 1, next);
      UncutWhole(Sentence, src, at, pos, hi);
      if n >= |text| {
        r := LastSentence(src, text, base, parts, start, i, at, pos + 1, hi, k, j);
        return;
      }
      assert text[n] == src[next];
      if StartsSentence(text[n]) {
        parts := AppendRaw(Sentence, src, base, text, parts, start, n, at, pos + 1, next, k, j, pos + 1);
        at, k, j := next, pos, next;
        start, i, pos := n, n, next;
      } else {
        NoSentenceHere(src, at, pos, next, hi);
        i, pos := i + 1, pos + 1;
      }
    }
    UncutWhole(Sentence, src, at, pos, hi);
    parts := AppendRaw(Sentence, src, base, text, parts, start, |text|, at, hi, hi, k, j, hi);
    r := OrWholeText(Sentence, src, base, text, hi, parts, hi);
  }

  /** A sentence that ends the text at `i`. */
  method LastSentence(ghost src: string, text: string, base: nat, parts: seq<Piece>, start: nat, i: nat, ghost at: nat, ghost to: nat,
                      ghost hi: nat, ghost k: nat, ghost j: nat)
    returns (r: seq<Piece>)
    requires Located(src, base, text) && start <= i < |text| && !IsSpace(text[i]) && hi == base + |text|
    requires base + start == at <= to <= hi <= |src| && BlankIn(src, to, hi)
    requires CutUpTo(Sentence, src, base, at, parts, k + 1) && Mark(Sentence, src, base, at, k, j)
    requires Whole(Sentence, src, Piece("", at, to))
    ensures SplitInto(Sentence, src, base, text, r)
  {
    r := AppendRaw(Sentence, src, base, text, parts, start, |text|, at, to, hi, k, j, to);
    NotBlankSplit(Sentence, src, base, text, hi, r, to, i);
  }

  /** The loop that skips whitespace from `i` on. */
  method AfterSpaces(text: string, i: nat) returns (n: nat)
    requires i <= |text|
    ensures i <= n <= |text| && BlankIn(text, i, n) && (n < |text| ==> !IsSpace(text[n]))
  {
    n := i;
    while n < |text| && IsSpace(text[n])
      invariant i <= n <= |text| && BlankIn(text, i, n)
    {
      n := n + 1;
    }
  }

  lemma NoClauseHere(src: string, at: nat, pos: nat, hi: nat)
    requires at <= pos < hi && Uncut(Clause, src, at, pos, hi)
    requires !IsClauseEnd(src[pos]) || pos + 1 == hi || !IsSpace(src[pos + 1])
    ensures Uncut(Clause, src, at, pos + 1, hi)
  {
    UncutStep(Clause, src, at, pos, hi);
  }

  method SplitClauses(ghost src: string, text: string, base: nat) returns (r: seq<Piece>)
    requires Located(src, base, text)
    ensures SplitInto(Clause, src, base, text, r)
  {
    var parts := [];
    var start, i := 0, 0;
    ghost var at: nat, k: nat, j: nat := base, base, 0;
    ghost var pos, hi := base, base + |text|;
    while i < |text|
      invariant start <= i <= |text| && at == base + start && pos == base + i
      invariant CutUpTo(Clause, src, base, at, parts, k + 1) && Mark(Clause, src, base, at, k, j)
      invariant Uncut(Clause, src, at, pos, hi)
    {
      assert text[i] == src[pos];
      assert i + 1 < |text| ==> text[i + 1] == src[pos + 1];
      if !IsClauseEnd(text[i]) || i + 1 >= |text| || !IsSpace(text[i + 1]) {
        NoClauseHere(src, at, pos, hi);
        i, pos := i + 1, pos + 1;
        continue;
      }
      var n := AfterSpaces(text, i + 1);
      ghost var next := base + n;
      LocatedBlankAt(src, base, text, i + 1, n, pos + 1, next);
      UncutWhole(Clause, src, at, pos, hi);
      parts := AppendRaw(Clause, src, base, text, parts, start, n, at, pos + 1, next, k, j, pos + 1);
      at, k, j := next, pos, pos + 1;
      start, i, pos := n, n, next;
    }
    UncutWhole(Clause, src, at, pos, hi);
    parts := AppendRaw(Clause, src, base, text, parts, start, |text|, at, hi, hi, k, j, hi);
    r := OrWholeText(Clause, src, base, text, hi, parts, hi);
  }

  method SplitWords(ghost src: string, text: string, base: nat) returns (r: seq<Piece>)
    requires Located(src, base, text)
    ensures SplitInto(Word, src, base, text, r)
  {
    var parts := [];
    var i := 0;
    ghost var at, hi := base, base + |text|;
    while i < |text|
      invariant i <= |text| && at == base + i && CutUpTo(Word, src, base, at, parts, at)
      invariant i == 0 || i == |text| || IsSpace(text[i])
    {
      var wordStart := AfterSpaces(text, i);
      ghost var wordAt := base + wordStart;
      LocatedBlankAt(src, base, text, i, wordStart, at, wordAt);
      if wordStart >= |text| {
        SkipPart(Word, src, base, at, hi, hi, hi, parts, at);
        i := wordStart;
        break;
      }
      parts, i, at := OneWord(src, text, base, parts, wordStart, at, wordAt);
    }
    r := OrWholeText(Word, src, base, text, hi, parts, hi);
  }

  /** The word that starts at `start` becomes a part. */
  method OneWord(ghost src: string, text: string, base: nat, parts: seq<Piece>, start: nat, ghost at: nat, ghost wordAt: nat)
    returns (r: seq<Piece>, n: nat, ghost to: nat)
    requires Located(src, base, text) && start < |text| && !IsSpace(text[start]) && wordAt == base + start
    requires at <= wordAt <= |src| && BlankIn(src, at, wordAt) && CutUpTo(Word, src, base, at, parts, at) && (at == base || at < wordAt)
    ensures start < n <= |text| && (n < |text| ==> IsSpace(text[n])) && to == base + n
    ensures CutUpTo(Word, src, base, to, r, to)
  {
    n := AfterWord(text, start);
    to := base + n;
    var p := Piece(text[start..n], base + start, base + n);
    LocatedWord(src, base, text, start, n, wordAt, to);
    PutWord(src, base, at, parts, p, wordAt, to);
    r := parts + [p];
  }

  method AfterWord(text: string, i: nat) returns (n: nat)
    requires i < |text| && !IsSpace(text[i])
    ensures i < n <= |text| && (n < |text| ==> IsSpace(text[n]))
    ensures forall x | i <= x < n :: !IsSpace(text[x])
  {
    n := i;
    while n < |text| && !IsSpace(text[n])
      invariant i <= n <= |text| && forall x | i <= x < n :: !IsSpace(text[x])
    {
      n := n + 1;
    }
  }

  lemma LocatedWord(src: string, base: nat, text: string, a: nat, b: nat, lo: nat, hi: nat)
    requires Located(src, base, text) && a < b <= |text| && forall x | a <= x < b :: !IsSpace(text[x])
    requires lo == base + a && hi == base + b
    ensures lo < hi <= |src| && text[a..b] == src[lo..hi] && forall x | lo <= x < hi :: !IsSpace(src[x])
  {
    forall x | lo <= x < hi ensures !IsSpace(src[x]) {
      var n := x - base;
      assert text[n] == src[base + n];
    }
  }

  lemma PutWord(src: string, lo: nat, at: nat, parts: seq<Piece>, p: Piece, from: nat, to: nat)
    requires CutUpTo(Word, src, lo, at, parts, at)
    requires at <= from < to <= |src| && p == Piece(src[from..to], from, to) && BlankIn(src, at, from)
    requires forall x | from <= x < to :: !IsSpace(src[x])
    requires at == lo || at < from
    ensures CutUpTo(Word, src, lo, to, parts + [p], to)
  {
    CoversSnoc(src, lo, at, to, parts, p);
    CutAtSnoc(Word, src, from, to, parts, p, at, at);
  }

  /** The parts of the text at one level. */
  method SplitByLevel(ghost src: string, text: string, base: nat, level: Level) returns (r: seq<Piece>)
    requires Located(src, base, text) && !level.Chars?
    ensures SplitInto(level, src, base, text, r)
  {
    match level {
      case Paragraph => r := SplitParagraphs(src, text, base);
      case Line => r := SplitLines(src, text, base);
      case Sentence => r := SplitSentences(src, text, base);
      case Clause => r := SplitClauses(src, text, base);
      case Word => r := SplitWords(src, text, base);
    }
  }

  // --- characters ---------------------------------------------------------------------------

  /** A piece within the budget that ends before `hi` cannot take one more character. */
  ghost predicate Maximal(src: string, hi: nat, ps: seq<Piece>, budget: int, count: Counter)
    requires hi <= |src|
  {
    forall p | p in ps && p.start < p.end < hi && count(p.text) <= budget :: count(src[p.start..p.end + 1]) > budget
  }

  /** What the character splitter has produced up to `src[at]`. */
  ghost predicate CharsUpTo(src: string, base: nat, at: nat, hi: nat, out: seq<Piece>, budget: int, count: Counter) {
    && hi <= |src| && Covers(src, base, at, out) && AllFit(out, budget, count) && Maximal(src, hi, out, budget, count)
    && Glued(src, at, out)
  }

  /** The pieces are their slices and nothing lies between them. */
  ghost predicate Glued(src: string, at: nat, ps: seq<Piece>) {
    && (forall p | p in ps :: p.start < p.end <= |src| && p.text == src[p.start..p.end])
    && (forall i, n | 0 <= i < n < |ps| && n == i + 1 :: ps[i].end == ps[n].start)
    && (ps != [] ==> ps[|ps| - 1].end == at)
  }

  lemma PutChars(src: string, base: nat, text: string, at: nat, hi: nat, out: seq<Piece>, p: Piece, a: nat, b: nat,
                 budget: int, count: Counter)
    requires Located(src, base, text) && a < b <= |text| && at == base + a && hi == base + |text|
    requires CharsUpTo(src, base, at, hi, out, budget, count) && p == Piece(text[a..b], at, base + b)
    requires count(text[a..b]) <= budget || b == a + 1
    requires count(text[a..b]) <= budget && b < |text| ==> count(text[a..b + 1]) > budget
    ensures CharsUpTo(src, base, p.end, hi, out + [p], budget, count)
  {
    CharsCover(src, base, text, at, out, p, a, b);
    assert p.end < hi && count(p.text) <= budget ==> p.end < |src| && count(src[p.start..p.end + 1]) > budget by {
      if b < |text| {
        OneMore(src, base, text, p, a, b, b + 1);
      }
    }
    LocatedSlice(src, base, text, a, b);
    CharsSnoc(src, base, at, hi, out, p, budget, count);
  }

  lemma CharsCover(src: string, base: nat, text: string, at: nat, out: seq<Piece>, p: Piece, a: nat, b: nat)
    requires Located(src, base, text) && a < b <= |text| && at == base + a
    requires Covers(src, base, at, out) && p == Piece(text[a..b], at, base + b)
    ensures Covers(src, base, p.end, out + [p])
  {
    LocatedSlice(src, base, text, a, b);
    CoversOne(src, at, p, p.end);
    CoversAppend(src, base, at, p.end, out, [p]);
  }

  lemma OneMore(src: string, base: nat, text: string, p: Piece, a: nat, b: nat, more: nat)
    requires Located(src, base, text) && a < b < more == b + 1 <= |text| && p.start == base + a && p.end == base + b
    ensures p.end < |src| && src[p.start..p.end + 1] == text[a..more]
  {
    LocatedSlice(src, base, text, a, more);
  }

  lemma CharsSnoc(src: string, base: nat, at: nat, hi: nat, out: seq<Piece>, p: Piece, budget: int, count: Counter)
    requires CharsUpTo(src, base, at, hi, out, budget, count) && Covers(src, base, p.end, out + [p])
    requires Fits(p, budget, count)
    requires at == p.start < p.end <= |src| && p.text == src[p.start..p.end]
    requires p.end < hi && count(p.text) <= budget ==> p.end < |src| && count(src[p.start..p.end + 1]) > budget
    ensures CharsUpTo(src, base, p.end, hi, out + [p], budget, count)
  {
    GluedSnoc(src, at, out, p);
    MaximalSnoc(src, hi, out, p, budget, count);
  }

  lemma GluedSnoc(src: string, at: nat, out: seq<Piece>, p: Piece)
    requires Glued(src, at, out) && at == p.start < p.end <= |src| && p.text == src[p.start..p.end]
    ensures Glued(src, p.end, out + [p])
  {
  }

  lemma MaximalSnoc(src: string, hi: nat, out: seq<Piece>, p: Piece, budget: int, count: Counter)
    requires hi <= |src| && Maximal(src, hi, out, budget, count) && AllFit(out, budget, count) && Fits(p, budget, count)
    requires p.start < p.end < hi && count(p.text) <= budget ==> p.end < |src| && count(src[p.start..p.end + 1]) > budget
    ensures Maximal(src, hi, out + [p], budget, count) && AllFit(out + [p], budget, count)
  {
  }

  /** Where the piece that starts at `start` ends. */
  method PieceEnd(text: string, start: nat, budget: int, count: Counter) returns (r: nat)
    requires start < |text|
    ensures start < r <= |text|
    ensures count(text[start..r]) <= budget || r == start + 1
    ensures count(text[start..r]) <= budget && r < |text| ==> count(text[start..r + 1]) > budget
  {
    var end := start + 1;
    while end <= |text| && count(text[start..end]) <= budget
      invariant start < end <= |text| + 1
      invariant end > start + 1 ==> count(text[start..end - 1]) <= budget
    {
      end := end + 1;
    }
    if end - 1 == start {
      return end;
    }
    return end - 1;
  }

  method SplitByChars(ghost src: string, text: string, base: nat, budget: int, count: Counter) returns (out: seq<Piece>)
    requires Located(src, base, text)
    ensures CharsUpTo(src, base, base + |text|, base + |text|, out, budget, count)
    ensures out == [] <==> text == ""
  {
    if |text| == 0 {
      return [];
    }
    out := [];
    var start := 0;
    ghost var at, hi := base, base + |text|;
    while start < |text|
      invariant start <= |text| && at == base + start && (out == [] <==> start == 0)
      invariant CharsUpTo(src, base, at, hi, out, budget, count)
    {
      var end := PieceEnd(text, start, budget, count);
      var p := Piece(text[start..end], base + start, base + end);
      PutChars(src, base, text, at, hi, out, p, start, end, budget, count);
      out := out + [p];
      start := end;
      at := p.end;
    }
  }

  /** Characters of a stretch that is over the budget and cannot be cut otherwise. */
  lemma {:induction false} CharsNeeded(src: string, lo: nat, hi: nat, e: nat, ps: seq<Piece>, budget: int, count: Counter)
    requires Coarse(Chars, src, lo, hi) && lo <= e && Covers(src, e, hi, ps) && count(src[lo..hi]) > budget
    ensures NeededFrom(src, e, ps, budget, count)
    decreases |ps|
  {
    if ps != [] {
      assert NeededIn(Chars, lo, hi, src, e, ps[0].start, budget, count);
      CharsNeeded(src, lo, hi, ps[0].end, ps[1..], budget, count);
    }
  }

  // --- merging --------------------------------------------------------------------------------

  /** The text cannot be joined to `left` whole, nor can what starts it. */
  ghost predicate CannotJoin(left: string, right: string, sep: string, budget: int, count: Counter) {
    exists t: string :: t <= right && count(left + sep + t) > budget
  }

  /** No piece has room for what its successor starts with. */
  ghost predicate Packed(ps: seq<Piece>, sep: string, budget: int, count: Counter) {
    forall i, n | 0 <= i < n < |ps| && n == i + 1 :: CannotJoin(ps[i].text, ps[n].text, sep, budget, count)
  }

  ghost predicate PackedFor(level: Level, ps: seq<Piece>, budget: int, count: Counter) {
    Packed(ps, level.Separator(), budget, count)
  }

  /** Packed for the separator of some level. */
  ghost predicate SomePacked(ps: seq<Piece>, budget: int, count: Counter) {
    exists level: Level :: PackedFor(level, ps, budget, count)
  }

  lemma FewArePacked(ps: seq<Piece>, budget: int, count: Counter)
    requires |ps| <= 1
    ensures SomePacked(ps, budget, count)
  {
    assert PackedFor(Chars, ps, budget, count);
  }

  lemma CharsPacked(src: string, base: nat, hi: nat, ps: seq<Piece>, budget: int, count: Counter)
    requires CharsUpTo(src, base, hi, hi, ps, budget, count)
    ensures PackedFor(Chars, ps, budget, count)
  {
    CoversOrdered(src, base, hi, ps);
    forall i, n | 0 <= i < n < |ps| && n == i + 1 ensures CannotJoin(ps[i].text, ps[n].text, Chars.Separator(), budget, count) {
      assert ps[i] in ps && ps[n] in ps;
      CharsApart(src, ps[i], ps[n], budget, count);
    }
  }

  lemma CharsApart(src: string, p: Piece, q: Piece, budget: int, count: Counter)
    requires p.start < p.end == q.start < q.end <= |src| && p.text == src[p.start..p.end] && q.text == src[q.start..q.end]
    requires count(p.text) <= budget ==> count(src[p.start..p.end + 1]) > budget
    ensures CannotJoin(p.text, q.text, Chars.Separator(), budget, count)
  {
    if count(p.text) > budget {
      assert p.text + Chars.Separator() + "" == p.text;
      assert "" <= q.text;
    } else {
      assert p.text + Chars.Separator() + q.text[..1] == src[p.start..p.end + 1];
      assert q.text[..1] <= q.text;
    }
  }

  /** What greedy merging makes of the open piece `cur` and the pieces after it. */
  function Merged(cur: Piece, rest: seq<Piece>, sep: string, budget: int, count: Counter): seq<Piece>
    decreases |rest|
  {
    if rest == [] then [cur] else
      var candidate := cur.text + sep + rest[0].text;
      if count(candidate) <= budget then Merged(Piece(candidate, cur.start, rest[0].end), rest[1..], sep, budget, count)
      else [cur] + Merged(rest[0], rest[1..], sep, budget, count)
  }

  method MergeGreedyPieces(parts: seq<Piece>, sep: string, budget: int, count: Counter) returns (merged: seq<Piece>)
    ensures merged == if parts == [] then [] else Merged(parts[0], parts[1..], sep, budget, count)
  {
    if |parts| == 0 {
      return [];
    }
    merged := [];
    var cur := parts[0];
    var i := 1;
    ghost var rest := parts[1..];
    ghost var whole := Merged(cur, rest, sep, budget, count);
    while i < |parts|
      invariant 1 <= i <= |parts| && rest == parts[i..]
      invariant merged + Merged(cur, rest, sep, budget, count) == whole
    {
      assert rest[0] == parts[i] && rest[1..] == parts[i + 1..];
      var candidate := cur.text + sep + parts[i].text;
      if count(candidate) <= budget {
        cur := Piece(candidate, cur.start, parts[i].end);
      } else {
        Regroup(merged, cur, Merged(rest[0], rest[1..], sep, budget, count));
        merged := merged + [cur];
        cur := parts[i];
      }
      rest := rest[1..];
      i := i + 1;
    }
    merged := merged + [cur];
  }

  lemma Regroup(a: seq<Piece>, p: Piece, b: seq<Piece>)
    ensures a + ([p] + b) == (a + [p]) + b
  {
  }

  /** Merging keeps the tiling. */
  lemma {:induction false} MergedCovers(src: string, lo: nat, hi: nat, cur: Piece, rest: seq<Piece>, sep: string, budget: int, count: Counter)
    requires Covers(src, lo, hi, [cur] + rest) && Blank(sep) && sep != ""
    ensures Covers(src, lo, hi, Merged(cur, rest, sep, budget, count))
    decreases |rest|
  {
    if rest != [] {
      var next := rest[0];
      assert ([cur] + rest)[1..] == rest && [next] + rest[1..] == rest;
      var candidate := cur.text + sep + next.text;
      if count(candidate) <= budget {
        var joined := Piece(candidate, cur.start, next.end);
        JoinedContent(src, cur, next, sep);
        assert ([joined] + rest[1..])[1..] == rest[1..];
        MergedCovers(src, lo, hi, joined, rest[1..], sep, budget, count);
      } else {
        MergedCovers(src, cur.end, hi, next, rest[1..], sep, budget, count);
        var tail := Merged(next, rest[1..], sep, budget, count);
        assert ([cur] + tail)[1..] == tail;
      }
    }
  }

  lemma JoinedContent(src: string, p: Piece, q: Piece, sep: string)
    requires p.start < p.end <= q.start < q.end <= |src| && BlankIn(src, p.end, q.start) && Blank(sep) && sep != ""
    requires NonSpace(p.text) == NonSpace(src[p.start..p.end]) && NonSpace(q.text) == NonSpace(src[q.start..q.end])
    requires KeepsApart(p.text, src[p.start..p.end]) && KeepsApart(q.text, src[q.start..q.end])
    ensures NonSpace(p.text + sep + q.text) == NonSpace(src[p.start..q.end])
    ensures KeepsApart(p.text + sep + q.text, src[p.start..q.end])
  {
    NonSpaceConcat(p.text + sep, q.text);
    BlankAfter(p.text, sep);
    NonSpaceSplit(src, p.start, p.end, q.end);
    BlankBefore(src, p.end, q.start, q.end);
    assert src[p.start..q.end] == src[p.start..p.end] + src[p.end..q.start] + src[q.start..q.end];
    JoinKeepsApart(p.text, sep, q.text, src[p.start..p.end], src[p.end..q.start], src[q.start..q.end]);
  }

  /** Merging never makes a piece that does not fit. */
  lemma {:induction false} MergedFits(cur: Piece, rest: seq<Piece>, sep: string, budget: int, count: Counter)
    requires Fits(cur, budget, count) && AllFit(rest, budget, count)
    ensures AllFit(Merged(cur, rest, sep, budget, count), budget, count)
    decreases |rest|
  {
    if rest != [] {
      var candidate := cur.text + sep + rest[0].text;
      if count(candidate) <= budget {
        MergedFits(Piece(candidate, cur.start, rest[0].end), rest[1..], sep, budget, count);
      } else {
        MergedFits(rest[0], rest[1..], sep, budget, count);
      }
    }
  }

  /** Merging only removes cuts. */
  lemma {:induction false} MergedNeeded(src: string, cur: Piece, rest: seq<Piece>, sep: string, budget: int, count: Counter)
    requires NeededFrom(src, cur.end, rest, budget, count)
    ensures var m := Merged(cur, rest, sep, budget, count);
            m != [] && m[0].start == cur.start && AllNeeded(src, m, budget, count)
    decreases |rest|
  {
    if rest != [] {
      var candidate := cur.text + sep + rest[0].text;
      if count(candidate) <= budget {
        MergedNeeded(src, Piece(candidate, cur.start, rest[0].end), rest[1..], sep, budget, count);
      } else {
        MergedNeeded(src, rest[0], rest[1..], sep, budget, count);
        NeededCons(src, cur, Merged(rest[0], rest[1..], sep, budget, count), budget, count);
      }
    }
  }

  /** `right` starts with a part that would break the budget if joined to `left`. */
  ghost predicate Barred(left: Piece, right: Piece, parts: seq<Piece>, sep: string, budget: int, count: Counter) {
    exists p :: p in parts && p.text <= right.text && count(left.text + sep + p.text) > budget
  }

  /** Merging stops only where the next part would break the budget. */
  ghost predicate Forced(m: seq<Piece>, parts: seq<Piece>, sep: string, budget: int, count: Counter) {
    forall i, n | 0 <= i < n < |m| && n == i + 1 :: Barred(m[i], m[n], parts, sep, budget, count)
  }

  lemma BarredTail(left: Piece, right: Piece, rest: seq<Piece>, sep: string, budget: int, count: Counter)
    requires rest != [] && Barred(left, right, rest[1..], sep, budget, count)
    ensures Barred(left, right, rest, sep, budget, count)
  {
    var p :| p in rest[1..] && p.text <= right.text && count(left.text + sep + p.text) > budget;
    assert p in rest;
  }

  lemma ForcedTail(m: seq<Piece>, rest: seq<Piece>, sep: string, budget: int, count: Counter)
    requires rest != [] && Forced(m, rest[1..], sep, budget, count)
    ensures Forced(m, rest, sep, budget, count)
  {
    forall i, n | 0 <= i < n < |m| && n == i + 1 ensures Barred(m[i], m[n], rest, sep, budget, count) {
      BarredTail(m[i], m[n], rest, sep, budget, count);
    }
  }

  lemma ForcedCons(cur: Piece, m: seq<Piece>, rest: seq<Piece>, sep: string, budget: int, count: Counter)
    requires m != [] && Barred(cur, m[0], rest, sep, budget, count) && Forced(m, rest, sep, budget, count)
    ensures Forced([cur] + m, rest, sep, budget, count)
  {
    var all := [cur] + m;
    forall i, n | 0 <= i < n < |all| && n == i + 1 ensures Barred(all[i], all[n], rest, sep, budget, count) {
      if i > 0 {
        assert all[i] == m[i - 1] && all[n] == m[n - 1];
      }
    }
  }

  lemma {:induction false} MergedIsForced(cur: Piece, rest: seq<Piece>, sep: string, budget: int, count: Counter)
    ensures var m := Merged(cur, rest, sep, budget, count);
            m != [] && cur.text <= m[0].text && Forced(m, rest, sep, budget, count)
    decreases |rest|
  {
    if rest != [] {
      var next := rest[0];
      var candidate := cur.text + sep + next.text;
      if count(candidate) <= budget {
        var joined := Piece(candidate, cur.start, next.end);
        MergedIsForced(joined, rest[1..], sep, budget, count);
        ForcedTail(Merged(joined, rest[1..], sep, budget, count), rest, sep, budget, count);
      } else {
        MergedIsForced(next, rest[1..], sep, budget, count);
        var m := Merged(next, rest[1..], sep, budget, count);
        ForcedTail(m, rest, sep, budget, count);
        assert next in rest;
        ForcedCons(cur, m, rest, sep, budget, count);
      }
    }
  }

  lemma ForcedIsPacked(m: seq<Piece>, parts: seq<Piece>, sep: string, budget: int, count: Counter)
    requires Forced(m, parts, sep, budget, count)
    ensures Packed(m, sep, budget, count)
  {
    forall i, n | 0 <= i < n < |m| && n == i + 1 ensures CannotJoin(m[i].text, m[n].text, sep, budget, count) {
      assert Barred(m[i], m[n], parts, sep, budget, count);
      var p :| p in parts && p.text <= m[n].text && count(m[i].text + sep + p.text) > budget;
    }
  }

  // --- the recursion ----------------------------------------------------------------------------

  /** Pieces that tile `src[lo..hi]`, fit, and are cut only where needed. */
  ghost predicate Fitting(src: string, lo: nat, hi: nat, ps: seq<Piece>, budget: int, count: Counter) {
    Covers(src, lo, hi, ps) && AllFit(ps, budget, count) && AllNeeded(src, ps, budget, count)
  }

  method MergeFitting(ghost src: string, ghost lo: nat, ghost hi: nat, ps: seq<Piece>, level: Level, budget: int, count: Counter)
    returns (r: seq<Piece>)
    requires Fitting(src, lo, hi, ps, budget, count) && !level.Chars?
    ensures Fitting(src, lo, hi, r, budget, count) && (r == [] <==> ps == [])
    ensures PackedFor(level, r, budget, count)
  {
    r := MergeGreedyPieces(ps, level.Separator(), budget, count);
    if ps != [] {
      assert [ps[0]] + ps[1..] == ps;
      MergedCovers(src, lo, hi, ps[0], ps[1..], level.Separator(), budget, count);
      MergedFits(ps[0], ps[1..], level.Separator(), budget, count);
      MergedNeeded(src, ps[0], ps[1..], level.Separator(), budget, count);
      MergedIsForced(ps[0], ps[1..], level.Separator(), budget, count);
      ForcedIsPacked(r, ps[1..], level.Separator(), budget, count);
    }
  }

  lemma FittingAppend(src: string, lo: nat, at: nat, a: seq<Piece>, p: Piece, b: seq<Piece>, budget: int, count: Counter)
    requires Fitting(src, lo, at, a, budget, count) && at <= p.start <= |src| && BlankIn(src, at, p.start)
    requires Fitting(src, p.start, p.end, b, budget, count)
    requires a != [] && b != [] ==> Needed(src, a[|a| - 1].end, b[0].start, budget, count)
    ensures Fitting(src, lo, p.end, a + b, budget, count)
  {
    CoversAfterBlank(src, at, p.start, p.end, b);
    CoversAppend(src, lo, at, p.end, a, b);
    if a == [] {
      assert a + b == b;
    } else if b == [] {
      assert a + b == a;
    } else {
      NeededAppend(src, a, b, budget, count);
    }
  }

  /** Pieces for the trimmed text are pieces for all of it. */
  lemma FittingTrimmed(src: string, lo: nat, at: nat, to: nat, hi: nat, ps: seq<Piece>, budget: int, count: Counter)
    requires lo <= at <= to <= hi <= |src| && BlankIn(src, lo, at) && BlankIn(src, to, hi)
    requires Fitting(src, at, to, ps, budget, count)
    ensures Fitting(src, lo, hi, ps, budget, count)
  {
    CoversAfterBlank(src, lo, at, to, ps);
    CoversSkip(src, lo, to, hi, ps);
  }

  /** The text has no whitespace at its ends. */
  predicate IsTrimmed(text: string) { text != "" && !IsSpace(text[0]) && !IsSpace(text[|text| - 1]) }

  lemma LocatedTrim(src: string, base: nat, text: string, trimmed: string, lead: nat, trail: nat)
    requires Located(src, base, text) && TrimsTo(text, trimmed, lead, trail)
    ensures Located(src, base + lead, trimmed) && (trimmed != "" ==> IsTrimmed(trimmed) && !Blank(trimmed))
    ensures trimmed == "" ==> BlankIn(src, base, base + |text|)
  {
    forall i | 0 <= i < |trimmed| ensures trimmed[i] == src[base + lead + i] {
      assert trimmed[i] == text[lead..lead + |trimmed|][i] == text[lead + i];
    }
    LocatedNotBlank(src, base, text);
  }

  /** The trimmed text and where it lies in the source. */
  method TrimLocated(ghost src: string, text0: string, base0: nat, ghost hi0: nat) returns (text: string, base: nat, ghost hi: nat)
    requires Located(src, base0, text0) && hi0 == base0 + |text0|
    ensures text == TrimSpace(text0) && Located(src, base, text) && hi == base + |text|
    ensures base0 <= base <= hi <= hi0 <= |src| && BlankIn(src, base0, base) && BlankIn(src, hi, hi0)
    ensures if text == "" then Blank(text0) else IsTrimmed(text) && !Blank(text0)
  {
    var lead, trail;
    text, lead, trail := TrimSpaceBounds(text0);
    base := base0 + lead;
    hi := base + |text|;
    LocatedTrim(src, base0, text0, text, lead, trail);
    LocatedBlankAt(src, base0, text0, 0, lead, base0, base);
    LocatedBlankAt(src, base0, text0, lead + |text|, |text0|, hi, hi0);
  }

  lemma WholeFits(src: string, base: nat, text: string, budget: int, count: Counter)
    requires Located(src, base, text) && text != "" && count(text) <= budget
    ensures Fitting(src, base, base + |text|, [Piece(text, base, base + |text|)], budget, count)
  {
    LocatedSlice(src, base, text, 0, |text|);
    assert text[0..|text|] == text;
    CoversOne(src, base, Piece(text, base, base + |text|), base + |text|);
  }

  method Split(ghost src: string, text0: string, base0: nat, ghost hi0: nat, budget: int, count: Counter, level: Level)
    returns (r: seq<Piece>)
    requires Located(src, base0, text0) && hi0 == base0 + |text0| && Coarse(level, src, base0, hi0)
    ensures Fitting(src, base0, hi0, r, budget, count) && SomePacked(r, budget, count)
    ensures r == [] <==> Blank(text0)
    decreases level.Rank(), 3
  {
    var text, base;
    ghost var hi;
    text, base, hi := TrimLocated(src, text0, base0, hi0);
    if text == "" {
      r := [];
      FewArePacked(r, budget, count);
    } else {
      CoarseInside(level, src, base0, hi0, base, hi);
      r := SplitTrimmed(src, text, base, hi, budget, count, level);
    }
    FittingTrimmed(src, base0, base, hi, hi0, r, budget, count);
  }

  method SplitTrimmed(ghost src: string, text: string, base: nat, ghost hi: nat, budget: int, count: Counter, level: Level)
    returns (r: seq<Piece>)
    requires Located(src, base, text) && hi == base + |text| && IsTrimmed(text) && Coarse(level, src, base, hi)
    ensures Fitting(src, base, hi, r, budget, count) && SomePacked(r, budget, count) && r != []
    decreases level.Rank(), 2
  {
    if count(text) <= budget {
      WholeFits(src, base, text, budget, count);
      r := [Piece(text, base, base + |text|)];
      FewArePacked(r, budget, count);
    } else if level.Chars? {
      r := SplitByChars(src, text, base, budget, count);
      LocatedAll(src, base, text);
      CharsFitting(src, base, hi, r, budget, count);
    } else {
      var parts := SplitByLevel(src, text, base, level);
      if |parts| <= 1 {
        OnePart(level, src, base, text, parts);
        r := Split(src, text, base, hi, budget, count, level.Next());
      } else {
        LocatedAll(src, base, text);
        var out := SplitParts(src, base, hi, parts, budget, count, level);
        r := MergeFitting(src, base, hi, out, level, budget, count);
      }
    }
  }

  lemma LocatedAll(src: string, base: nat, text: string)
    requires Located(src, base, text)
    ensures src[base..base + |text|] == text
  {
    LocatedSlice(src, base, text, 0, |text|);
    assert text[0..|text|] == text;
  }

  lemma CharsFitting(src: string, base: nat, hi: nat, ps: seq<Piece>, budget: int, count: Counter)
    requires CharsUpTo(src, base, hi, hi, ps, budget, count) && base <= hi
    requires Coarse(Chars, src, base, hi) && count(src[base..hi]) > budget
    ensures Fitting(src, base, hi, ps, budget, count) && SomePacked(ps, budget, count)
  {
    CharsPacked(src, base, hi, ps, budget, count);
    if ps != [] {
      CharsNeeded(src, base, hi, ps[0].end, ps[1..], budget, count);
    }
  }

  /** A text that a level does not divide holds no delimiter of that level. */
  lemma OnePart(level: Level, src: string, base: nat, text: string, parts: seq<Piece>)
    requires Located(src, base, text) && IsTrimmed(text) && Coarse(level, src, base, base + |text|) && !level.Chars?
    requires SplitInto(level, src, base, text, parts) && |parts| <= 1
    ensures Coarse(level.Next(), src, base, base + |text|)
  {
    var p := parts[0];
    var last := base + |text| - 1;
    assert p in parts && parts[1..] == [];
    assert src[base] == text[0] && src[last] == text[|text| - 1];
    assert Covers(src, p.end, last + 1, []);
    assert BlankIn(src, p.end, last + 1);
    assert p.start == base && p.end == base + |text|;
    CoarseNext(level, src, base, base + |text|, p);
  }

  /** The loop over the parts: each is split at the next level and merged. */
  method SplitParts(ghost src: string, ghost lo: nat, ghost hi: nat, parts: seq<Piece>, budget: int, count: Counter, level: Level)
    returns (out: seq<Piece>)
    requires Covers(src, lo, hi, parts) && Exact(src, parts) && CutAt(level, src, parts) && parts != [] && !level.Chars?
    requires Coarse(level, src, lo, hi) && count(src[lo..hi]) > budget
    ensures Fitting(src, lo, hi, out, budget, count) && out != []
    decreases level.Rank(), 1
  {
    out := [];
    ghost var at := lo;
    var i := 0;
    while i < |parts|
      invariant PartsUpTo(src, lo, at, hi, parts, i, out, budget, count)
    {
      var p := parts[i];
      PartLocated(src, parts, i);
      PartCoarse(level, src, lo, at, hi, parts, i);
      var merged := SplitPart(src, p, budget, count, level);
      PartDone(level, src, lo, at, hi, parts, i, i + 1, out, merged, budget, count);
      out := out + merged;
      at := p.end;
      i := i + 1;
    }
    CoversSkip(src, lo, at, hi, out);
  }

  /** The first `i` parts, which end at `src[at]`, have become `out`. */
  ghost predicate PartsUpTo(src: string, lo: nat, at: nat, hi: nat, parts: seq<Piece>, i: nat, out: seq<Piece>, budget: int,
                            count: Counter) {
    && i <= |parts| && (i == 0 <==> out == []) && (i > 0 ==> at == parts[i - 1].end)
    && lo <= at && Fitting(src, lo, at, out, budget, count) && Covers(src, at, hi, parts[i..])
  }

  lemma PartDone(level: Level, src: string, lo: nat, at: nat, hi: nat, parts: seq<Piece>, i: nat, next: nat, out: seq<Piece>,
                 merged: seq<Piece>, budget: int, count: Counter)
    requires next == i + 1 <= |parts| && PartsUpTo(src, lo, at, hi, parts, i, out, budget, count)
    requires CutAt(level, src, parts) && Coarse(level, src, lo, hi) && lo <= hi && count(src[lo..hi]) > budget
    requires Fitting(src, parts[i].start, parts[i].end, merged, budget, count) && merged != []
    ensures PartsUpTo(src, lo, parts[i].end, hi, parts, next, out + merged, budget, count)
  {
    if i > 0 {
      assert parts[i..][0] == parts[i] && Covers(src, parts[i].end, hi, parts[i..][1..]);
      BetweenParts(level, src, lo, hi, parts, i - 1, i, out, merged, budget, count);
    }
    NextPart(src, lo, at, hi, parts, i, next, out, merged, budget, count);
  }

  method SplitPart(ghost src: string, p: Piece, budget: int, count: Counter, level: Level) returns (merged: seq<Piece>)
    requires Located(src, p.start, p.text) && p.end == p.start + |p.text| && !Blank(p.text) && !level.Chars?
    requires Coarse(level.Next(), src, p.start, p.end)
    ensures Fitting(src, p.start, p.end, merged, budget, count) && merged != []
    decreases level.Rank(), 0
  {
    var sub := Split(src, p.text, p.start, p.end, budget, count, level.Next());
    merged := MergeFitting(src, p.start, p.end, sub, level, budget, count);
  }

  lemma PartLocated(src: string, parts: seq<Piece>, i: nat)
    requires Exact(src, parts) && i < |parts|
    ensures var p := parts[i];
      Located(src, p.start, p.text) && p.end == p.start + |p.text| && !Blank(p.text)
  {
    assert parts[i] in parts;
  }

  lemma PartCoarse(level: Level, src: string, lo: nat, at: nat, hi: nat, parts: seq<Piece>, i: nat)
    requires Coarse(level, src, lo, hi) && CutAt(level, src, parts) && i < |parts| && !level.Chars?
    requires lo <= at && Covers(src, at, hi, parts[i..])
    ensures Coarse(level.Next(), src, parts[i].start, parts[i].end)
  {
    assert parts[i..][0] == parts[i] && parts[i] in parts;
    assert Covers(src, parts[i].end, hi, parts[i..][1..]);
    CoarseNext(level, src, lo, hi, parts[i]);
  }

  /** The delimiter between two parts is a reason for the cut between their pieces. */
  lemma BetweenParts(level: Level, src: string, lo: nat, hi: nat, parts: seq<Piece>, i: nat, n: nat, a: seq<Piece>, b: seq<Piece>,
                     budget: int, count: Counter)
    requires n == i + 1 < |parts| && CutAt(level, src, parts) && Coarse(level, src, lo, hi) && lo <= hi && count(src[lo..hi]) > budget
    requires a != [] && Covers(src, lo, parts[i].end, a) && b != [] && Covers(src, parts[n].start, parts[n].end, b)
    requires parts[i].end <= parts[n].start && parts[n].end <= hi
    ensures Needed(src, a[|a| - 1].end, b[0].start, budget, count)
  {
    CoversOrdered(src, lo, parts[i].end, a);
    CoversOrdered(src, parts[n].start, parts[n].end, b);
    assert Divided(level, src, parts[i], parts[n]);
    assert NeededIn(level, lo, hi, src, a[|a| - 1].end, b[0].start, budget, count);
  }

  lemma NextPart(src: string, lo: nat, at: nat, hi: nat, parts: seq<Piece>, i: nat, next: nat, out: seq<Piece>,
                 merged: seq<Piece>, budget: int, count: Counter)
    requires next == i + 1 <= |parts| && Covers(src, at, hi, parts[i..]) && Fitting(src, lo, at, out, budget, count)
    requires Fitting(src, parts[i].start, parts[i].end, merged, budget, count)
    requires out != [] && merged != [] ==> Needed(src, out[|out| - 1].end, merged[0].start, budget, count)
    ensures Fitting(src, lo, parts[i].end, out + merged, budget, count) && Covers(src, parts[i].end, hi, parts[next..])
  {
    assert parts[i..][0] == parts[i] && parts[i..][1..] == parts[next..];
    FittingAppend(src, lo, at, out, parts[i], merged, budget, count);
  }

  /** Each cut lies at a delimiter (or at a character) inside a stretch over the budget
      that has no coarser delimiter. */
  ghost predicate CutsNeeded(src: string, ps: seq<Piece>, budget: int, count: Counter) {
    forall i, n | 0 <= i < n < |ps| && n == i + 1 :: Needed(src, ps[i].end, ps[n].start, budget, count)
  }

  /** Breaks text into pieces within the budget. */
  method RecursiveSplit(text: string, budget: int, count: Counter) returns (r: seq<Piece>)
    ensures OrderedSpans(0, |text|, r) && SlicesMatch(text, r)
    ensures NonSpaceAll(r) == NonSpace(text)
    ensures AllFit(r, budget, count)
    ensures CutsNeeded(text, r, budget, count)
    ensures SomePacked(r, budget, count)
    ensures r == [] <==> Blank(text)
    ensures !Blank(text) && count(TrimSpace(text)) <= budget ==> |r| == 1 && r[0].text == TrimSpace(text)
  {
    var trimmed, lead;
    ghost var hi, length := 0, |text|;
    trimmed, lead, hi := TrimLocated(text, text, 0, length);
    if trimmed == "" {
      r := [];
      FewArePacked(r, budget, count);
    } else if count(trimmed) <= budget {
      WholeFits(text, lead, trimmed, budget, count);
      r := [Piece(trimmed, lead, lead + |trimmed|)];
      FewArePacked(r, budget, count);
    } else {
      r := Split(text, trimmed, lead, hi, budget, count, Paragraph);
    }
    FittingTrimmed(text, 0, lead, hi, length, r, budget, count);
    Conclusion(text, r, budget, count);
  }

  lemma Conclusion(text: string, r: seq<Piece>, budget: int, count: Counter)
    requires Fitting(text, 0, |text|, r, budget, count)
    ensures OrderedSpans(0, |text|, r) && SlicesMatch(text, r) && NonSpaceAll(r) == NonSpace(text)
    ensures CutsNeeded(text, r, budget, count)
  {
    CoversConserves(text, 0, |text|, r);
    CoversOrdered(text, 0, |text|, r);
    EachCutIsNeeded(text, r, budget, count);
    assert text[0..|text|] == text;
  }
}
