/**
 The Markdown parser conserves its input.
 */
module Markdown {
  import opened ProseText
  import opened MarkdownModel
  import opened MarkdownRoles

  // --- where the segments lie ---------------------------------------------------------------

  predicate BlankLines(x: Syntax, input: seq<string>, lo: nat, hi: nat)
    requires lo <= hi <= |input|
  {
    forall i | lo <= i < hi :: x.blank(input[i])
  }

  /** The segments are the input lines from the indices `at` on: disjoint, in order, and
      only blank lines lie between them. */
  ghost predicate Tiles(x: Syntax, input: seq<string>, lo: nat, hi: nat, segs: seq<Segment>, at: seq<nat>)
    decreases |segs|
  {
    && lo <= hi <= |input| && |segs| == |at|
    && if segs == [] then BlankLines(x, input, lo, hi) else
         var end := at[0] + |segs[0].lines|;
         && lo <= at[0] < end <= hi && segs[0].lines == input[at[0]..end]
         && BlankLines(x, input, lo, at[0]) && Tiles(x, input, end, hi, segs[1..], at[1..])
  }

  lemma {:induction false} TilesAppend(x: Syntax, input: seq<string>, lo: nat, mid: nat, hi: nat, a: seq<Segment>, aAt: seq<nat>,
                                       b: seq<Segment>, bAt: seq<nat>)
    requires Tiles(x, input, lo, mid, a, aAt) && Tiles(x, input, mid, hi, b, bAt)
    ensures Tiles(x, input, lo, hi, a + b, aAt + bAt)
    decreases |a|
  {
    if a == [] {
      assert a + b == b && aAt + bAt == bAt;
    } else {
      TilesAppend(x, input, aAt[0] + |a[0].lines|, mid, hi, a[1..], aAt[1..], b, bAt);
      assert (a + b)[1..] == a[1..] + b && (aAt + bAt)[1..] == aAt[1..] + bAt;
    }
  }

  lemma TilesSnoc(x: Syntax, input: seq<string>, lo: nat, mid: nat, hi: nat, a: seq<Segment>, aAt: seq<nat>, s: Segment)
    requires Tiles(x, input, lo, mid, a, aAt) && mid < hi <= |input| && s.lines == input[mid..hi]
    ensures Tiles(x, input, lo, hi, a + [s], aAt + [mid])
  {
    assert [s][1..] == [] && [mid][1..] == [];
    TilesAppend(x, input, lo, mid, hi, a, aAt, [s], [mid]);
  }

  lemma TilesSkip(x: Syntax, input: seq<string>, lo: nat, mid: nat, hi: nat, a: seq<Segment>, aAt: seq<nat>)
    requires Tiles(x, input, lo, mid, a, aAt) && mid <= hi <= |input| && BlankLines(x, input, mid, hi)
    ensures Tiles(x, input, lo, hi, a, aAt)
  {
    TilesAppend(x, input, lo, mid, hi, a, aAt, [], []);
    assert a + [] == a && aAt + [] == aAt;
  }

  function NonBlankLines(x: Syntax, lines: seq<string>): seq<string> {
    if lines == [] then [] else (if x.blank(lines[0]) then [] else [lines[0]]) + NonBlankLines(x, lines[1..])
  }

  function NonBlankOfAll(x: Syntax, segs: seq<Segment>): seq<string> {
    if segs == [] then [] else NonBlankLines(x, segs[0].lines) + NonBlankOfAll(x, segs[1..])
  }

  lemma {:induction false} NonBlankConcat(x: Syntax, a: seq<string>, b: seq<string>)
    ensures NonBlankLines(x, a + b) == NonBlankLines(x, a) + NonBlankLines(x, b)
  {
    if a == [] {
      assert a + b == b;
    } else {
      NonBlankConcat(x, a[1..], b);
      NonBlankHead(x, a[0], a[1..] + b, a + b);
      NonBlankHead(x, a[0], a[1..], a);
    }
  }

  lemma NonBlankHead(x: Syntax, first: string, rest: seq<string>, all: seq<string>)
    requires all == [first] + rest
    ensures NonBlankLines(x, all) == (if x.blank(first) then [] else [first]) + NonBlankLines(x, rest)
  {
    assert all[1..] == rest;
  }

  lemma {:induction false} NothingInBlank(x: Syntax, input: seq<string>, lo: nat, hi: nat)
    requires lo <= hi <= |input| && BlankLines(x, input, lo, hi)
    ensures NonBlankLines(x, input[lo..hi]) == []
    decreases hi - lo
  {
    if lo < hi {
      assert input[lo..hi][1..] == input[lo + 1..hi];
      NothingInBlank(x, input, lo + 1, hi);
    }
  }

  lemma NonBlankSplit(x: Syntax, input: seq<string>, lo: nat, mid: nat, hi: nat)
    requires lo <= mid <= hi <= |input|
    ensures NonBlankLines(x, input[lo..hi]) == NonBlankLines(x, input[lo..mid]) + NonBlankLines(x, input[mid..hi])
  {
    assert input[lo..hi] == input[lo..mid] + input[mid..hi];
    NonBlankConcat(x, input[lo..mid], input[mid..hi]);
  }

  lemma {:induction false} TilesConserve(x: Syntax, input: seq<string>, lo: nat, hi: nat, segs: seq<Segment>, at: seq<nat>)
    requires Tiles(x, input, lo, hi, segs, at)
    ensures NonBlankOfAll(x, segs) == NonBlankLines(x, input[lo..hi])
    decreases |segs|
  {
    if segs == [] {
      NothingInBlank(x, input, lo, hi);
    } else {
      var end := at[0] + |segs[0].lines|;
      TilesConserve(x, input, end, hi, segs[1..], at[1..]);
      OneConserves(x, input, lo, at[0], end, hi);
    }
  }

  lemma OneConserves(x: Syntax, input: seq<string>, lo: nat, from: nat, end: nat, hi: nat)
    requires lo <= from <= end <= hi <= |input| && BlankLines(x, input, lo, from)
    ensures NonBlankLines(x, input[lo..hi]) == NonBlankLines(x, input[from..end]) + NonBlankLines(x, input[end..hi])
  {
    SkipBlank(x, input, lo, from, hi);
    NonBlankSplit(x, input, from, end, hi);
  }

  lemma SkipBlank(x: Syntax, input: seq<string>, lo: nat, mid: nat, hi: nat)
    requires lo <= mid <= hi <= |input| && BlankLines(x, input, lo, mid)
    ensures NonBlankLines(x, input[lo..hi]) == NonBlankLines(x, input[mid..hi])
  {
    NothingInBlank(x, input, lo, mid);
    NonBlankSplit(x, input, lo, mid, hi);
  }

  // --- the invariant ---------------------------------------------------------------------------

  ghost predicate StartsRight(segs: seq<Segment>, at: seq<nat>) {
    |segs| == |at| && forall i | 0 <= i < |segs| :: segs[i].startLine == at[i] + 1
  }

  /** The parser has read `n` lines and holds those from `open` on as `cur`, recorded under
      line number `start`; the segments tile the lines before. All start lines are right
      if and only if `right`; lines held under a wrong one are not all blank, so they will
      not be dropped. */
  ghost predicate Holds(x: Syntax, input: seq<string>, open: nat, n: nat, cur: seq<string>, start: nat, segs: seq<Segment>, at: seq<nat>,
                        right: bool) {
    && open <= n <= |input| && cur == input[open..n] && Tiles(x, input, 0, open, segs, at)
    && (right <==> StartsRight(segs, at) && (cur == [] || start == open + 1))
    && (cur == [] || start == open + 1 || !AllBlank(x, cur))
  }

  ghost predicate HoldsIn(x: Syntax, input: seq<string>, open: nat, n: nat, st: Md, segs: seq<Segment>, at: seq<nat>, right: bool) {
    Holds(x, input, open, n, st.currentLines, st.currentStart, segs, at, right)
  }

  lemma StartsRightSnoc(segs: seq<Segment>, at: seq<nat>, s: Segment, k: nat)
    requires |segs| == |at|
    ensures StartsRight(segs + [s], at + [k]) <==> StartsRight(segs, at) && s.startLine == k + 1
  {
    var all, allAt := segs + [s], at + [k];
    if StartsRight(all, allAt) {
      assert all[|segs|] == s;
      forall i | 0 <= i < |segs| ensures segs[i].startLine == at[i] + 1 {
        assert all[i] == segs[i] && allAt[i] == at[i];
      }
    }
  }

  /** Everything held is emitted or, being blank, dropped. */
  lemma EmitKeeps(x: Syntax, input: seq<string>, open: nat, n: nat, st: Md, segs: seq<Segment>, at: seq<nat>, right: bool, kind: Kind,
                  symbolName: string, symbolKind: string, noOverlapNext: bool)
    returns (at': seq<nat>)
    requires HoldsIn(x, input, open, n, st, segs, at, right)
    ensures var (st1, out) := EmitCurrent(x, st, kind, symbolName, symbolKind, noOverlapNext);
            HoldsIn(x, input, n, n, st1, segs + out, at', right) && st1.currentLines == []
  {
    var (st1, out) := EmitCurrent(x, st, kind, symbolName, symbolKind, noOverlapNext);
    if out == [] {
      at' := at;
      forall i | open <= i < n ensures x.blank(input[i]) {
        assert input[i] == st.currentLines[i - open];
      }
      TilesSkip(x, input, 0, open, n, segs, at);
      assert segs + out == segs;
    } else {
      at' := at + [open];
      TilesSnoc(x, input, 0, open, n, segs, at, out[0]);
      StartsRightSnoc(segs, at, out[0], open);
      assert out == [out[0]];
    }
  }

  lemma FlushKeeps(x: Syntax, input: seq<string>, open: nat, n: nat, st: Md, segs: seq<Segment>, at: seq<nat>, right: bool, noOverlapNext: bool)
    returns (at': seq<nat>)
    requires HoldsIn(x, input, open, n, st, segs, at, right)
    ensures var (st1, out) := FlushProse(x, st, noOverlapNext);
            HoldsIn(x, input, n, n, st1, segs + out, at', right) && st1.currentLines == [] && st1.lineNum == st.lineNum
  {
    if st.currentLines == [] {
      at' := EmitKeeps(x, input, open, n, st, segs, at, right, Prose, "", "paragraph", noOverlapNext);
    } else {
      var t := Titled(x, st);
      at' := EmitKeeps(x, input, open, n, t.0, segs, at, right, Prose, t.1, t.2, noOverlapNext);
    }
  }

  lemma AppendKeeps(x: Syntax, input: seq<string>, open: nat, n: nat, cur: seq<string>, start: nat, segs: seq<Segment>, at: seq<nat>, right: bool)
    requires Holds(x, input, open, n, cur, start, segs, at, right) && n < |input| && cur != []
    ensures Holds(x, input, open, n + 1, cur + [input[n]], start, segs, at, right)
  {
    assert input[open..n + 1] == input[open..n] + [input[n]];
    if !AllBlank(x, cur) {
      var i :| 0 <= i < |cur| && !x.blank(cur[i]);
      assert (cur + [input[n]])[i] == cur[i];
    }
  }

  lemma StartKeeps(x: Syntax, input: seq<string>, open: nat, n: nat, start: nat, segs: seq<Segment>, at: seq<nat>, right: bool)
    requires Holds(x, input, open, n, [], start, segs, at, right) && n < |input|
    ensures Holds(x, input, n, n + 1, [input[n]], n + 1, segs, at, right)
  {
    assert input[n..n + 1] == [input[n]];
  }

  // --- one line -------------------------------------------------------------------------------

  /** What is known besides: line numbers, and that front matter and code are held. */
  ghost predicate Counted(n: nat, st: Md) {
    && st.lineNum == n && st.currentStart <= n && (st.inFrontMatter || st.inCodeBlock ==> st.currentLines != [])
    && !(st.inFrontMatter && st.inCodeBlock)
  }

  /** A table row that arrives, as line `st.lineNum`, while the table flag is still up
      although the table has been emitted already: it is held under an old start line. */
  predicate StaleRow(x: Syntax, st: Md, line: string) { !st.inFrontMatter && StaleOutside(x, st, line) }

  predicate StaleOutside(x: Syntax, st: Md, line: string) {
    (st.frontMatterDone || st.lineNum != 1 || !x.dashes(line)) && !st.inCodeBlock && IsStale(x, st, line)
  }

  predicate IsStale(x: Syntax, st: Md, line: string) {
    !x.fence(line).ok && !x.heading(line).ok && x.row(line) && st.inTable && st.currentLines == []
  }

  /** What reading line `n` does: `r` is the new state and the segments emitted. */
  ghost predicate Fed(x: Syntax, input: seq<string>, n: nat, segs: seq<Segment>, r: (Md, seq<Segment>), open: nat, at: seq<nat>, right: bool) {
    HoldsIn(x, input, open, n + 1, r.0, segs + r.1, at, right) && Counted(n + 1, r.0)
  }

  lemma NoOutput(segs: seq<Segment>)
    ensures segs + [] == segs
  {
  }

  lemma FeedTextKeeps(x: Syntax, input: seq<string>, open: nat, n: nat, st: Md, segs: seq<Segment>, at: seq<nat>, right: bool)
    returns (open': nat, at': seq<nat>)
    requires HoldsIn(x, input, open, n, st, segs, at, right) && n < |input| && st.lineNum == n + 1 && st.currentStart <= n
    requires !st.inFrontMatter && !st.inCodeBlock
    ensures Fed(x, input, n, segs, FeedText(x, st, input[n]), open', at', right)
  {
    if st.inTable {
      at' := EmitKeeps(x, input, open, n, st, segs, at, right, Table, "", "paragraph", false);
      var (st1, out) := EmitCurrent(x, st, Table, "", "paragraph", false);
      open' := TextLineKeeps(x, input, n, n, st1.(inTable := false), segs + out, at', right);
    } else {
      NoOutput(segs);
      at' := at;
      open' := TextLineKeeps(x, input, open, n, st.(inTable := false), segs, at, right);
    }
  }

  lemma TextLineKeeps(x: Syntax, input: seq<string>, open: nat, n: nat, st: Md, segs: seq<Segment>, at: seq<nat>, right: bool)
    returns (open': nat)
    requires HoldsIn(x, input, open, n, st, segs, at, right) && n < |input| && st.lineNum == n + 1
    ensures HoldsIn(x, input, open', n + 1, TextLine(x, st, input[n]), segs, at, right)
  {
    if st.currentLines != [] {
      open' := open;
      AppendKeeps(x, input, open, n, st.currentLines, st.currentStart, segs, at, right);
    } else if x.blank(input[n]) {
      open' := n + 1;
      TilesSkip(x, input, 0, open, n + 1, segs, at);
    } else {
      open' := n;
      StartKeeps(x, input, open, n, st.currentStart, segs, at, right);
    }
  }

  /** The line is held and everything held is emitted. */
  lemma AppendEmitKeeps(x: Syntax, input: seq<string>, open: nat, n: nat, st: Md, segs: seq<Segment>, at: seq<nat>, right: bool, kind: Kind,
                        symbolKind: string)
    returns (at': seq<nat>)
    requires HoldsIn(x, input, open, n, st, segs, at, right) && n < |input| && st.currentLines != []
    ensures var (st1, out) := EmitCurrent(x, Append(st, input[n]), kind, "", symbolKind, false);
            HoldsIn(x, input, n + 1, n + 1, st1, segs + out, at', right) && st1.currentLines == []
  {
    AppendKeeps(x, input, open, n, st.currentLines, st.currentStart, segs, at, right);
    at' := EmitKeeps(x, input, open, n + 1, Append(st, input[n]), segs, at, right, kind, "", symbolKind, false);
  }

  lemma FeedCodeKeeps(x: Syntax, input: seq<string>, open: nat, n: nat, st: Md, segs: seq<Segment>, at: seq<nat>, right: bool)
    returns (open': nat, at': seq<nat>)
    requires HoldsIn(x, input, open, n, st, segs, at, right) && n < |input| && st.lineNum == n + 1 && st.currentStart <= n
    requires st.inCodeBlock && !st.inFrontMatter && st.currentLines != []
    ensures Fed(x, input, n, segs, FeedCode(x, st, input[n]), open', at', right)
  {
    if x.closes(input[n], st.fenceMarker, st.fenceLen) {
      open' := n + 1;
      at' := AppendEmitKeeps(x, input, open, n, st, segs, at, right, CodeBlock, "code_block");
    } else {
      open', at' := open, at;
      NoOutput(segs);
      AppendKeeps(x, input, open, n, st.currentLines, st.currentStart, segs, at, right);
    }
  }

  lemma FeedFrontMatterKeeps(x: Syntax, input: seq<string>, open: nat, n: nat, st: Md, segs: seq<Segment>, at: seq<nat>, right: bool)
    returns (open': nat, at': seq<nat>)
    requires HoldsIn(x, input, open, n, st, segs, at, right) && n < |input| && st.lineNum == n + 1 && st.currentStart <= n
    requires st.inFrontMatter && !st.inCodeBlock && st.currentLines != []
    ensures Fed(x, input, n, segs, FeedFrontMatter(x, st, input[n]), open', at', right)
  {
    if x.dashes(input[n]) {
      open' := n + 1;
      at' := AppendEmitKeeps(x, input, open, n, st, segs, at, right, FrontMatter, "section");
    } else {
      open', at' := open, at;
      NoOutput(segs);
      AppendKeeps(x, input, open, n, st.currentLines, st.currentStart, segs, at, right);
    }
  }

  lemma FeedFenceKeeps(x: Syntax, input: seq<string>, open: nat, n: nat, st: Md, segs: seq<Segment>, at: seq<nat>, right: bool)
    returns (at': seq<nat>)
    requires HoldsIn(x, input, open, n, st, segs, at, right) && n < |input| && st.lineNum == n + 1
    requires !st.inFrontMatter
    ensures Fed(x, input, n, segs, FeedFence(x, st, input[n]), n, at', right)
  {
    at' := FlushKeeps(x, input, open, n, st, segs, at, right, false);
    var (st1, out) := FlushProse(x, st, false);
    StartKeeps(x, input, n, n, st1.currentStart, segs + out, at', right);
  }

  lemma FeedHeadingKeeps(x: Syntax, input: seq<string>, open: nat, n: nat, st: Md, segs: seq<Segment>, at: seq<nat>, right: bool)
    returns (at': seq<nat>)
    requires HoldsIn(x, input, open, n, st, segs, at, right) && n < |input| && st.lineNum == n + 1
    requires !st.inFrontMatter && !st.inCodeBlock
    ensures Fed(x, input, n, segs, FeedHeading(x, st, input[n]), n, at', right)
  {
    at' := FlushKeeps(x, input, open, n, st, segs, at, right, true);
    var (st1, out) := FlushProse(x, st, true);
    StartKeeps(x, input, n, n, st1.currentStart, segs + out, at', right);
  }

  lemma FeedNewTableKeeps(x: Syntax, input: seq<string>, open: nat, n: nat, st: Md, segs: seq<Segment>, at: seq<nat>, right: bool)
    returns (at': seq<nat>)
    requires HoldsIn(x, input, open, n, st, segs, at, right) && n < |input| && st.lineNum == n + 1
    requires !st.inFrontMatter && !st.inCodeBlock && !st.inTable
    ensures Fed(x, input, n, segs, FeedTableRow(x, st, input[n]), n, at', right)
  {
    at' := FlushKeeps(x, input, open, n, st, segs, at, right, false);
    var (st1, out) := FlushProse(x, st, false);
    StartKeeps(x, input, n, n, st1.currentStart, segs + out, at', right);
  }

  lemma FeedTableRowKeeps(x: Syntax, input: seq<string>, open: nat, n: nat, st: Md, segs: seq<Segment>, at: seq<nat>, right: bool)
    requires HoldsIn(x, input, open, n, st, segs, at, right) && n < |input| && st.lineNum == n + 1 && st.currentStart <= n
    requires !st.inFrontMatter && !st.inCodeBlock && st.inTable && st.currentLines != []
    ensures Fed(x, input, n, segs, FeedTableRow(x, st, input[n]), open, at, right)
  {
    NoOutput(segs);
    AppendKeeps(x, input, open, n, st.currentLines, st.currentStart, segs, at, right);
  }

  lemma FeedStaleRow(x: Syntax, input: seq<string>, open: nat, n: nat, st: Md, segs: seq<Segment>, at: seq<nat>, right: bool)
    requires HoldsIn(x, input, open, n, st, segs, at, right) && n < |input| && st.lineNum == n + 1 && st.currentStart <= n
    requires !st.inFrontMatter && !st.inCodeBlock && st.inTable && st.currentLines == [] && !x.blank(input[n])
    ensures Fed(x, input, n, segs, FeedTableRow(x, st, input[n]), open, at, false)
  {
    NoOutput(segs);
    assert input[open..n + 1] == [input[n]];
    assert Append(st, input[n]).currentLines[0] == input[n];
  }

  lemma FirstMarkerKeeps(x: Syntax, input: seq<string>, open: nat, n: nat, st: Md, segs: seq<Segment>, at: seq<nat>, right: bool)
    requires HoldsIn(x, input, open, n, st, segs, at, right) && n < |input| && st.lineNum == n + 1 && st.currentLines == []
    requires !st.inCodeBlock
    ensures Fed(x, input, n, segs, (Start(st.(inFrontMatter := true), input[n]), []), n, at, right)
  {
    NoOutput(segs);
    StartKeeps(x, input, open, n, st.currentStart, segs, at, right);
  }

  lemma FeedBlockKeeps(x: Syntax, input: seq<string>, open: nat, n: nat, st: Md, segs: seq<Segment>, at: seq<nat>, right: bool)
    returns (r: (Md, seq<Segment>), open': nat, at': seq<nat>, right': bool)
    requires RowsShow(x)
    requires HoldsIn(x, input, open, n, st, segs, at, right) && n < |input| && st.lineNum == n + 1 && st.currentStart <= n
    requires !st.inFrontMatter && !st.inCodeBlock
    ensures r == FeedBlock(x, st, input[n]) && Fed(x, input, n, segs, r, open', at', right')
    ensures right' == (right && !IsStale(x, st, input[n]))
  {
    var line := input[n];
    open', at', right' := n, at, right;
    if x.fence(line).ok {
      r := FeedFence(x, st, line);
      at' := FeedFenceKeeps(x, input, open, n, st, segs, at, right);
    } else if x.heading(line).ok {
      r := FeedHeading(x, st, line);
      at' := FeedHeadingKeeps(x, input, open, n, st, segs, at, right);
    } else if !x.row(line) {
      r := FeedText(x, st, line);
      open', at' := FeedTextKeeps(x, input, open, n, st, segs, at, right);
    } else {
      r := FeedTableRow(x, st, line);
      if !st.inTable {
        at' := FeedNewTableKeeps(x, input, open, n, st, segs, at, right);
      } else if st.currentLines != [] {
        open' := open;
        FeedTableRowKeeps(x, input, open, n, st, segs, at, right);
      } else {
        open', right' := open, false;
        FeedStaleRow(x, input, open, n, st, segs, at, right);
      }
    }
  }

  lemma FeedOutsideKeeps(x: Syntax, input: seq<string>, open: nat, n: nat, st: Md, segs: seq<Segment>, at: seq<nat>, right: bool)
    returns (r: (Md, seq<Segment>), open': nat, at': seq<nat>, right': bool)
    requires RowsShow(x)
    requires HoldsIn(x, input, open, n, st, segs, at, right) && n < |input| && st.lineNum == n + 1 && st.currentStart <= n
    requires (st.inCodeBlock ==> st.currentLines != []) && !st.inFrontMatter && (n == 0 ==> st.currentLines == [])
    ensures r == FeedOutside(x, st, input[n]) && Fed(x, input, n, segs, r, open', at', right')
    ensures right' == (right && !StaleOutside(x, st, input[n]))
  {
    var line := input[n];
    open', at', right' := n, at, right;
    if !st.frontMatterDone && st.lineNum == 1 && x.dashes(line) {
      r := (Start(st.(inFrontMatter := true), line), []);
      FirstMarkerKeeps(x, input, open, n, st, segs, at, right);
    } else if st.inCodeBlock {
      r := FeedCode(x, st, line);
      open', at' := FeedCodeKeeps(x, input, open, n, st, segs, at, right);
    } else {
      r, open', at', right' := FeedBlockKeeps(x, input, open, n, st, segs, at, right);
    }
  }

  lemma FeedCountedKeeps(x: Syntax, input: seq<string>, open: nat, n: nat, st: Md, segs: seq<Segment>, at: seq<nat>, right: bool)
    returns (r: (Md, seq<Segment>), open': nat, at': seq<nat>, right': bool)
    requires RowsShow(x)
    requires HoldsIn(x, input, open, n, st, segs, at, right) && n < |input| && st.lineNum == n + 1 && st.currentStart <= n
    requires (st.inFrontMatter || st.inCodeBlock ==> st.currentLines != []) && !(st.inFrontMatter && st.inCodeBlock)
    requires n == 0 ==> st.currentLines == []
    ensures r == FeedCounted(x, st, input[n]) && Fed(x, input, n, segs, r, open', at', right')
    ensures right' == (right && !StaleRow(x, st, input[n]))
  {
    if st.inFrontMatter {
      right' := right;
      r := FeedFrontMatter(x, st, input[n]);
      open', at' := FeedFrontMatterKeeps(x, input, open, n, st, segs, at, right);
    } else {
      r, open', at', right' := FeedOutsideKeeps(x, input, open, n, st, segs, at, right);
    }
  }

  /** Reading a line keeps the tiling, and keeps all start lines right unless the line is
      a stale row. */
  lemma FeedKeeps(x: Syntax, input: seq<string>, open: nat, n: nat, st: Md, segs: seq<Segment>, at: seq<nat>, right: bool)
    returns (r: (Md, seq<Segment>), open': nat, at': seq<nat>, right': bool)
    requires RowsShow(x)
    requires HoldsIn(x, input, open, n, st, segs, at, right) && Counted(n, st) && n < |input| && (n == 0 ==> st.currentLines == [])
    ensures r == Feed(x, st, input[n]) && Fed(x, input, n, segs, r, open', at', right')
    ensures right' == (right && !StaleRow(x, st.(lineNum := st.lineNum + 1), input[n]))
  {
    r, open', at', right' := FeedCountedKeeps(x, input, open, n, st.(lineNum := st.lineNum + 1), segs, at, right);
  }

  // --- a whole document --------------------------------------------------------------------------

  /** Line `k` is a stale row when it is read. */
  predicate StaleAt(x: Syntax, lines: seq<string>, k: nat)
    requires k < |lines|
  {
    var st := After(x, lines, k).0;
    StaleRow(x, st.(lineNum := st.lineNum + 1), lines[k])
  }

  predicate NoStaleRow(x: Syntax, lines: seq<string>, n: nat)
    requires n <= |lines|
  {
    forall k: nat | k < n :: !StaleAt(x, lines, k)
  }

  lemma {:induction false} AfterHolds(x: Syntax, lines: seq<string>, n: nat)
    returns (st: Md, segs: seq<Segment>, open: nat, at: seq<nat>, right: bool)
    requires RowsShow(x)
    requires n <= |lines|
    ensures (st, segs) == After(x, lines, n) && right == NoStaleRow(x, lines, n)
    ensures HoldsIn(x, lines, open, n, st, segs, at, right)
    ensures Counted(n, st) && (n == 0 ==> st.currentLines == [])
  {
    if n == 0 {
      st, segs, open, at, right := NewMd(), [], 0, [], true;
      NothingRead(x, lines);
    } else {
      var m := n - 1;
      st, segs, open, at, right := AfterHolds(x, lines, m);
      st, segs, open, at, right := AfterStep(x, lines, m, n, open, st, segs, at, right);
    }
  }

  lemma NothingRead(x: Syntax, lines: seq<string>)
    ensures (NewMd(), []) == After(x, lines, 0) && NoStaleRow(x, lines, 0)
    ensures HoldsIn(x, lines, 0, 0, NewMd(), [], [], true) && Counted(0, NewMd())
  {
  }

  lemma AfterStep(x: Syntax, lines: seq<string>, n: nat, n': nat, open: nat, st: Md, segs: seq<Segment>, at: seq<nat>, right: bool)
    returns (st': Md, segs': seq<Segment>, open': nat, at': seq<nat>, right': bool)
    requires RowsShow(x)
    requires n' == n + 1 <= |lines| && (st, segs) == After(x, lines, n) && right == NoStaleRow(x, lines, n)
    requires HoldsIn(x, lines, open, n, st, segs, at, right) && Counted(n, st) && (n == 0 ==> st.currentLines == [])
    ensures (st', segs') == After(x, lines, n') && right' == NoStaleRow(x, lines, n')
    ensures HoldsIn(x, lines, open', n', st', segs', at', right') && Counted(n', st')
  {
    var r;
    r, open', at', right' := FeedKeeps(x, lines, open, n, st, segs, at, right);
    st', segs' := r.0, segs + r.1;
    AfterNext(x, lines, n, n', r.0, r.1);
    FedHolds(x, lines, n, n', segs, r, open', at', right', segs');
    NoStaleStep(x, lines, n, n', st, segs);
  }

  lemma FedHolds(x: Syntax, input: seq<string>, n: nat, n': nat, segs: seq<Segment>, r: (Md, seq<Segment>), open: nat, at: seq<nat>,
                 right: bool, segs': seq<Segment>)
    requires Fed(x, input, n, segs, r, open, at, right) && n' == n + 1 && segs' == segs + r.1
    ensures HoldsIn(x, input, open, n', r.0, segs', at, right) && Counted(n', r.0)
  {
  }

  lemma NoStaleStep(x: Syntax, lines: seq<string>, n: nat, n': nat, st: Md, segs: seq<Segment>)
    requires n' == n + 1 <= |lines| && (st, segs) == After(x, lines, n)
    ensures NoStaleRow(x, lines, n') == (NoStaleRow(x, lines, n) && !StaleRow(x, st.(lineNum := st.lineNum + 1), lines[n]))
  {
    StaleAtIs(x, lines, n, st, segs);
    NoneUpTo(k requires 0 <= k < |lines| => StaleAt(x, lines, k), n, n');
  }

  lemma NoneUpTo(bad: nat --> bool, n: nat, n': nat)
    requires n' == n + 1 && forall k: nat | k < n' :: bad.requires(k)
    ensures (forall k: nat | k < n' :: !bad(k)) <==> (forall k: nat | k < n :: !bad(k)) && !bad(n)
  {
    if (forall k: nat | k < n :: !bad(k)) && !bad(n) {
      forall k: nat | k < n' ensures !bad(k) {
        assert k < n || k == n;
      }
    }
  }

  lemma StaleAtIs(x: Syntax, lines: seq<string>, n: nat, st: Md, segs: seq<Segment>)
    requires n < |lines| && (st, segs) == After(x, lines, n)
    ensures StaleAt(x, lines, n) == StaleRow(x, st.(lineNum := st.lineNum + 1), lines[n])
  {
  }

  lemma FlushAllKeeps(x: Syntax, input: seq<string>, open: nat, n: nat, st: Md, segs: seq<Segment>, at: seq<nat>, right: bool)
    returns (at': seq<nat>)
    requires HoldsIn(x, input, open, n, st, segs, at, right)
    ensures Tiles(x, input, 0, n, segs + FlushAll(x, st).1, at') && (StartsRight(segs + FlushAll(x, st).1, at') <==> right)
  {
    if st.inCodeBlock {
      at' := EmitKeeps(x, input, open, n, st, segs, at, right, CodeBlock, "", "code_block", false);
    } else if st.inFrontMatter {
      at' := EmitKeeps(x, input, open, n, st, segs, at, right, FrontMatter, "", "section", false);
    } else if st.inTable {
      at' := EmitKeeps(x, input, open, n, st, segs, at, right, Table, "", "paragraph", false);
    } else {
      at' := FlushKeeps(x, input, open, n, st, segs, at, right, false);
    }
  }

  /** A line is stale when it is read exactly if it is a row right after a code block, with
      only code, fences and headings between it and an earlier row. */
  lemma StaleIffOrphan(x: Syntax, lines: seq<string>, k: nat)
    requires k < |lines|
    ensures StaleAt(x, lines, k) <==> OrphanRow(x, lines, k)
  {
    ModeIsParser(x, lines, k);
    StaleByMode(x, After(x, lines, k).0, k, ModeAfter(x, lines, k), lines[k]);
  }

  lemma StaleByMode(x: Syntax, st: Md, n: nat, m: Mode, line: string)
    requires Agrees(st, n, m)
    ensures StaleRow(x, st.(lineNum := st.lineNum + 1), line) <==>
            RoleOf(x, m, n == 0, line).RowLine? && st.inTable && st.currentLines == []
  {
  }

  lemma NoStaleIff(x: Syntax, lines: seq<string>, n: nat)
    requires n <= |lines|
    ensures NoStaleRow(x, lines, n) <==> NoOrphanRow(x, lines, n)
  {
    forall k: nat | k < n ensures StaleAt(x, lines, k) <==> OrphanRow(x, lines, k) {
      StaleIffOrphan(x, lines, k);
    }
  }

  /** The segments are slices of the input in order, with only blank lines between them;
      each records its true start line if and only if no row follows right after a code block
      with only code, fences and headings between it and an earlier row. */
  lemma SegmentsTileTheInput(x: Syntax, lines: seq<string>) returns (at: seq<nat>)
    requires RowsShow(x)
    ensures Tiles(x, lines, 0, |lines|, Parse(x, lines), at)
    ensures StartsRight(Parse(x, lines), at) <==> NoOrphanRow(x, lines, |lines|)
  {
    var st, segs, open, right;
    st, segs, open, at, right := AfterHolds(x, lines, |lines|);
    at := FlushAllKeeps(x, lines, open, |lines|, st, segs, at, right);
    NoStaleIff(x, lines, |lines|);
  }

  /** The lines of all segments that are not blank are exactly those of the input. */
  lemma ParseConserves(x: Syntax, lines: seq<string>)
    requires RowsShow(x)
    ensures NonBlankOfAll(x, Parse(x, lines)) == NonBlankLines(x, lines)
  {
    var at := SegmentsTileTheInput(x, lines);
    TilesConserve(x, lines, 0, |lines|, Parse(x, lines), at);
    assert lines[0..|lines|] == lines;
  }

  // --- two things the table flag does --------------------------------------------------------------

  /** A heading right after a table: the table rows come out as prose, and the heading
      line itself as a table once text follows. */
  lemma HeadingAfterTable(x: Syntax, st: Md, heading: string, text: string)
    requires st.inTable && st.currentLines != [] && !AllBlank(x, st.currentLines) && !st.inFrontMatter && !st.inCodeBlock
    requires st.lineNum > 0 && x.heading(heading).ok && !x.fence(heading).ok && !x.blank(heading)
    requires !x.fence(text).ok && !x.heading(text).ok && !x.row(text)
    ensures var (st1, out1) := Feed(x, st, heading);
            var (_, out2) := Feed(x, st1, text);
            && |out1| == |out2| == 1
            && out1[0].kind == Prose && out1[0].lines == st.currentLines
            && out2[0].kind == Table && out2[0].lines == [heading]
  {
    var (st1, out1) := Feed(x, st, heading);
    assert st1.currentLines == [heading] && st1.currentLines[0] == heading && st1.inTable;
  }

  /** A code block after a table, closed at once and followed by a table row; also with a
      heading before the code block. */
  lemma OrphanRowHappens(x: Syntax, row: string, heading: string, fence: string, close: string, row': string)
    requires x.row(row) && !x.fence(row).ok && !x.heading(row).ok && !x.dashes(row)
    requires x.heading(heading).ok && !x.fence(heading).ok
    requires x.fence(fence).ok && x.closes(close, x.fence(fence).marker, x.fence(fence).len)
    requires x.row(row') && !x.fence(row').ok && !x.heading(row').ok
    ensures OrphanRow(x, [row, fence, close, row'], 3)
    ensures OrphanRow(x, [row, heading, fence, close, row'], 4)
  {
    var code := Code(x.fence(fence).marker, x.fence(fence).len);
    var lines := [row, fence, close, row'];
    assert ModeAfter(x, lines, 1) == Open && RoleAt(x, lines, 0) == RowLine;
    assert ModeAfter(x, lines, 2) == code && RoleAt(x, lines, 1) == FenceLine;
    assert ModeAfter(x, lines, 3) == Open && RoleAt(x, lines, 2) == CodeLine;
    assert RowsPending(x, lines, 1) && RowsPending(x, lines, 2);
    var more := [row, heading, fence, close, row'];
    assert ModeAfter(x, more, 1) == Open && RoleAt(x, more, 0) == RowLine;
    assert ModeAfter(x, more, 2) == Open && RoleAt(x, more, 1) == HeadingLine;
    assert ModeAfter(x, more, 3) == code && RoleAt(x, more, 2) == FenceLine;
    assert ModeAfter(x, more, 4) == Open && RoleAt(x, more, 3) == CodeLine;
    assert RowsPending(x, more, 1) && RowsPending(x, more, 2) && RowsPending(x, more, 3);
  }

  lemma PlainRow(s: string)
    requires |s| == 3 && s[0] == '|' && s[2] == '|'
    ensures IsTableRow(s) && !ParseFenceOpen(s).ok && !ParseHeading(s).ok && TrimSpace(s) != "---"
  {
    TrimNothing(s);
    assert RunOf(s, '#') == 0 && '|' in s;
  }

  lemma PlainFence(s: string)
    requires s == "```"
    ensures ParseFenceOpen(s) == Fence('`', 3, true) && IsFenceClose(s, '`', 3)
  {
    TrimNothing(s);
    assert RunOf(s, s[0]) == 3;
  }

  lemma PlainHeading(s: string)
    requires s == "# H"
    ensures ParseHeading(s) == Heading(1, "H", true) && !ParseFenceOpen(s).ok
  {
    TrimNothing(s);
    assert s[1..] == " H" && RunOf(s[1..], '#') == 0 && RunOf(s, '#') == 1;
    assert s[2..] == "H";
    TrimNothing("H");
  }

  /** Concrete documents in which a segment records a wrong start line. */
  lemma AsciiOrphanRows()
    ensures OrphanRow(Ascii(), ["|a|", "```", "```", "|b|"], 3)
    ensures OrphanRow(Ascii(), ["|a|", "# H", "```", "```", "|b|"], 4)
  {
    PlainRow("|a|");
    PlainRow("|b|");
    PlainFence("```");
    PlainHeading("# H");
    OrphanRowHappens(Ascii(), "|a|", "# H", "```", "```", "|b|");
  }
}
