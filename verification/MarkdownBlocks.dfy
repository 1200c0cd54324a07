/**
 What the Markdown parser keeps together: a fenced block, front matter, a table and the
 text under a heading each come out as one segment, wherever they stand in a document.
 */
module MarkdownBlocks {
  import opened ProseText
  import opened MarkdownModel

  // --- reading several lines ---------------------------------------------------------------

  type Step = (Md, string) -> (Md, seq<Segment>)

  function Feeding(x: Syntax): Step { (st: Md, line: string) => Feed(x, st, line) }

  function Reads(step: Step, st: Md, lines: seq<string>): (Md, seq<Segment>)
    decreases |lines|
  {
    if lines == [] then (st, []) else
      var (st1, out) := step(st, lines[0]);
      var (st2, more) := Reads(step, st1, lines[1..]);
      (st2, out + more)
  }

  lemma {:induction false} ReadsConcat(step: Step, st: Md, a: seq<string>, b: seq<string>)
    ensures var (st1, out) := Reads(step, st, a);
            var (st2, more) := Reads(step, st1, b);
            Reads(step, st, a + b) == (st2, out + more)
    decreases |a|
  {
    if a == [] {
      assert a + b == b;
      assert [] + Reads(step, st, b).1 == Reads(step, st, b).1;
    } else {
      assert (a + b)[1..] == a[1..] + b && (a + b)[0] == a[0];
      var (s1, first) := step(st, a[0]);
      ReadsConcat(step, s1, a[1..], b);
      var (s2, more) := Reads(step, s1, a[1..]);
      assert (first + more) + Reads(step, s2, b).1 == first + (more + Reads(step, s2, b).1);
    }
  }

  lemma ReadsRest(step: Step, st: Md, lines: seq<string>, st1: Md)
    requires lines != [] && step(st, lines[0]) == (st1, [])
    ensures Reads(step, st, lines) == Reads(step, st1, lines[1..])
  {
    assert [] + Reads(step, st1, lines[1..]).1 == Reads(step, st1, lines[1..]).1;
  }

  lemma ReadsOne(step: Step, st: Md, line: string)
    ensures Reads(step, st, [line]) == step(st, line)
  {
    assert [line][1..] == [];
    assert step(st, line).1 + [] == step(st, line).1;
  }

  /** A first line, lines that bring nothing out, and a last one. */
  lemma ReadsThree(step: Step, st: Md, first: string, body: seq<string>, last: string, st1: Md, out1: seq<Segment>, st2: Md)
    requires step(st, first) == (st1, out1) && Reads(step, st1, body) == (st2, [])
    ensures Reads(step, st, [first] + body + [last]) == (step(st2, last).0, out1 + step(st2, last).1)
  {
    var all := [first] + body + [last];
    assert all[0] == first && all[1..] == body + [last];
    ReadsConcat(step, st1, body, [last]);
    ReadsOne(step, st2, last);
    assert [] + step(st2, last).1 == step(st2, last).1;
  }

  /** One more line has been read at each index. */
  ghost predicate Follows(step: Step, lines: seq<string>, after: nat -> (Md, seq<Segment>)) {
    forall i: nat, k: nat | k == i + 1 <= |lines| ::
      after(k) == (step(after(i).0, lines[i]).0, after(i).1 + step(after(i).0, lines[i]).1)
  }

  lemma {:induction false} FollowsReads(step: Step, lines: seq<string>, after: nat -> (Md, seq<Segment>), n: nat, k: nat)
    requires Follows(step, lines, after) && n <= k <= |lines|
    ensures var (st1, out) := Reads(step, after(n).0, lines[n..k]);
            after(k) == (st1, after(n).1 + out)
    decreases k - n
  {
    if n == k {
      assert after(n).1 + [] == after(n).1;
    } else {
      FollowsReads(step, lines, after, n, k - 1);
      ReadsLast(step, after(n).0, after(n).1, lines, n, k - 1, k);
    }
  }

  /** In a document, the lines from `n` on are read from the state reached there. */
  lemma AfterReads(x: Syntax, lines: seq<string>, n: nat, k: nat)
    requires n <= k <= |lines|
    ensures var (st, segs) := After(x, lines, n);
            var (st1, out) := Reads(Feeding(x), st, lines[n..k]);
            After(x, lines, k) == (st1, segs + out)
  {
    var after := (i: nat) => if i <= |lines| then After(x, lines, i) else (NewMd(), []);
    forall i: nat, next: nat | next == i + 1 <= |lines|
      ensures after(next) == (Feeding(x)(after(i).0, lines[i]).0, after(i).1 + Feeding(x)(after(i).0, lines[i]).1) {
      var (st, out) := Feed(x, After(x, lines, i).0, lines[i]);
      AfterNext(x, lines, i, next, st, out);
    }
    FollowsReads(Feeding(x), lines, after, n, k);
  }

  lemma ReadsLast(step: Step, st: Md, segs: seq<Segment>, lines: seq<string>, n: nat, i: nat, k: nat)
    requires n <= i && k == i + 1 <= |lines|
    ensures var (st1, out) := Reads(step, st, lines[n..i]);
            var (st2, more) := step(st1, lines[i]);
            Reads(step, st, lines[n..k]).0 == st2 && segs + Reads(step, st, lines[n..k]).1 == (segs + out) + more
  {
    var (st1, out) := Reads(step, st, lines[n..i]);
    assert lines[n..k] == lines[n..i] + [lines[i]];
    ReadsConcat(step, st, lines[n..i], [lines[i]]);
    ReadsOne(step, st1, lines[i]);
    var more := step(st1, lines[i]).1;
    assert (segs + out) + more == segs + (out + more);
  }

  // --- lines that are kept -------------------------------------------------------------------

  /** The parser is outside front matter and code, past the place for front matter. */
  predicate Outside(st: Md) { !st.inFrontMatter && !st.inCodeBlock && (st.frontMatterDone || st.lineNum > 0) }

  /** The line opens no block and is no part of a table. */
  predicate IsText(x: Syntax, line: string) { !x.fence(line).ok && !x.heading(line).ok && !x.row(line) }

  predicate IsRow(x: Syntax, line: string) { x.row(line) && !x.fence(line).ok && !x.heading(line).ok }

  /** In this state the line is only appended to those held. */
  predicate Keeps(x: Syntax, st: Md, l: string) {
    if st.inFrontMatter then !x.dashes(l)
    else if st.inCodeBlock then (st.frontMatterDone || st.lineNum > 0) && !x.closes(l, st.fenceMarker, st.fenceLen)
    else if st.inTable then Outside(st) && IsRow(x, l)
    else Outside(st) && IsText(x, l)
  }

  function Keeping(st: Md, lines: seq<string>): Md {
    st.(currentLines := st.currentLines + lines, lineNum := st.lineNum + |lines|)
  }

  lemma OneKept(x: Syntax, st: Md, l: string)
    requires st.currentLines != [] && Keeps(x, st, l)
    ensures Feeding(x)(st, l) == (Keeping(st, [l]), [])
  {
  }

  lemma StillKept(x: Syntax, st: Md, l: string, rest: seq<string>)
    requires forall k | k in rest :: Keeps(x, st, k)
    ensures forall k | k in rest :: Keeps(x, Keeping(st, [l]), k)
  {
  }

  lemma {:induction false} Kept(x: Syntax, step: Step, st: Md, lines: seq<string>)
    requires step == Feeding(x) && st.currentLines != [] && forall l | l in lines :: Keeps(x, st, l)
    ensures Reads(step, st, lines) == (Keeping(st, lines), [])
    decreases |lines|
  {
    if lines == [] {
      assert st.currentLines + [] == st.currentLines;
    } else {
      var first, rest := lines[0], lines[1..];
      OneKept(x, st, first);
      forall l | l in rest ensures Keeps(x, st, l) {
        assert l in lines;
      }
      StillKept(x, st, first, rest);
      var st1 := Keeping(st, [first]);
      Kept(x, step, st1, rest);
      ReadsRest(step, st, lines, st1);
      assert (st.currentLines + [first]) + rest == st.currentLines + lines;
      assert Keeping(st1, rest) == Keeping(st, lines);
    }
  }

  // --- blocks ----------------------------------------------------------------------------------

  /** A fenced block is one segment, fences included, whatever its lines look like. */
  lemma CodeBlockStaysWhole(x: Syntax, st: Md, open: string, body: seq<string>, close: string)
    requires Outside(st) && x.fence(open).ok && !x.blank(open)
    requires forall l | l in body :: !x.closes(l, x.fence(open).marker, x.fence(open).len)
    requires x.closes(close, x.fence(open).marker, x.fence(open).len)
    ensures var all := [open] + body + [close];
            var (st1, out) := Reads(Feeding(x), st, all);
            && out == FlushProse(x, st.(lineNum := st.lineNum + 1), false).1
                    + [Segment(CodeBlock, all, st.lineNum + 1, "", "code_block", ParentScope(st), false)]
            && Outside(st1) && st1.currentLines == []
  {
    var st1 := InCode(x, st, open);
    CodeBegins(x, st, open);
    Kept(x, Feeding(x), st1, body);
    ReadsThree(Feeding(x), st, open, body, close, st1, Feed(x, st, open).1, Keeping(st1, body));
    CodeEnds(x, Keeping(st1, body), open, body, close);
  }

  /** The state after an opening fence. */
  function InCode(x: Syntax, st: Md, open: string): Md {
    FlushProse(x, st.(lineNum := st.lineNum + 1), false).0.(inCodeBlock := true, fenceMarker := x.fence(open).marker,
      fenceLen := x.fence(open).len, currentLines := [open], currentStart := st.lineNum + 1)
  }

  lemma CodeBegins(x: Syntax, st: Md, open: string)
    requires Outside(st) && x.fence(open).ok
    ensures Feed(x, st, open) == (InCode(x, st, open), FlushProse(x, st.(lineNum := st.lineNum + 1), false).1)
    ensures var st1 := InCode(x, st, open);
            st1.inCodeBlock && !st1.inFrontMatter && st1.lineNum > 0 && st1.headingStack == st.headingStack
  {
  }

  lemma CodeEnds(x: Syntax, st: Md, open: string, body: seq<string>, close: string)
    requires st.inCodeBlock && !st.inFrontMatter && st.lineNum > 0 && st.currentLines == [open] + body && !x.blank(open)
    requires x.closes(close, st.fenceMarker, st.fenceLen)
    ensures var (st1, out) := Feed(x, st, close);
            && out == [Segment(CodeBlock, [open] + body + [close], st.currentStart, "", "code_block", ParentScope(st), false)]
            && Outside(st1) && st1.currentLines == []
  {
    assert ([open] + body + [close])[0] == open;
  }

  /** Front matter at the start of a document is one segment. */
  lemma FrontMatterStaysWhole(x: Syntax, open: string, body: seq<string>, close: string)
    requires x.dashes(open) && x.dashes(close) && !x.blank(open) && forall l | l in body :: !x.dashes(l)
    ensures var all := [open] + body + [close];
            var (st, out) := Reads(Feeding(x), NewMd(), all);
            out == [Segment(FrontMatter, all, 1, "", "section", "", false)] && Outside(st) && st.currentLines == []
  {
    var (st1, out1) := Feed(x, NewMd(), open);
    Kept(x, Feeding(x), st1, body);
    ReadsThree(Feeding(x), NewMd(), open, body, close, st1, out1, Keeping(st1, body));
    assert ([open] + body + [close])[0] == open;
  }

  /** The rows of a table are one segment when a line of text follows. */
  lemma TableStaysWhole(x: Syntax, st: Md, first: string, rows: seq<string>, text: string)
    requires Outside(st) && !st.inTable && IsRow(x, first) && !x.blank(first) && IsText(x, text)
    requires forall l | l in rows :: IsRow(x, l)
    ensures var (st1, out) := Reads(Feeding(x), st, [first] + rows + [text]);
            && out == FlushProse(x, st.(lineNum := st.lineNum + 1), false).1
                    + [Segment(Table, [first] + rows, st.lineNum + 1, "", "paragraph", ParentScope(st), false)]
            && Outside(st1) && !st1.inTable
  {
    var st1 := InTable(x, st, first);
    TableBegins(x, st, first);
    Kept(x, Feeding(x), st1, rows);
    ReadsThree(Feeding(x), st, first, rows, text, st1, Feed(x, st, first).1, Keeping(st1, rows));
    TableEnds(x, Keeping(st1, rows), first, rows, text);
  }

  /** So are the rows of a table that ends the document. */
  lemma LastTableStaysWhole(x: Syntax, st: Md, first: string, rows: seq<string>)
    requires Outside(st) && !st.inTable && IsRow(x, first) && !x.blank(first)
    requires forall l | l in rows :: IsRow(x, l)
    ensures var (st1, out) := Reads(Feeding(x), st, [first] + rows);
            && out == FlushProse(x, st.(lineNum := st.lineNum + 1), false).1
            && FlushAll(x, st1).1 == [Segment(Table, [first] + rows, st.lineNum + 1, "", "paragraph", ParentScope(st), false)]
  {
    var st1 := InTable(x, st, first);
    TableBegins(x, st, first);
    Kept(x, Feeding(x), st1, rows);
    ReadsConcat(Feeding(x), st, [first], rows);
    ReadsOne(Feeding(x), st, first);
    assert Feed(x, st, first).1 + [] == Feed(x, st, first).1;
    LastRows(x, Keeping(st1, rows), first, rows);
  }

  lemma LastRows(x: Syntax, st: Md, first: string, rows: seq<string>)
    requires Outside(st) && st.inTable && st.currentLines == [first] + rows && !x.blank(first)
    ensures FlushAll(x, st).1 == [Segment(Table, [first] + rows, st.currentStart, "", "paragraph", ParentScope(st), false)]
  {
    assert ([first] + rows)[0] == first;
  }

  /** A first line and lines that bring nothing out, at the end of a document. */
  lemma ReadsTwo(step: Step, st: Md, first: string, body: seq<string>, st1: Md, out1: seq<Segment>, st2: Md)
    requires step(st, first) == (st1, out1) && Reads(step, st1, body) == (st2, [])
    ensures Reads(step, st, [first] + body) == (st2, out1)
  {
    assert ([first] + body)[1..] == body;
    assert out1 + [] == out1;
  }

  /** A fenced block that is never closed is one segment, too. */
  lemma OpenCodeBlockStaysWhole(x: Syntax, st: Md, open: string, body: seq<string>)
    requires Outside(st) && x.fence(open).ok && !x.blank(open)
    requires forall l | l in body :: !x.closes(l, x.fence(open).marker, x.fence(open).len)
    ensures var (st1, out) := Reads(Feeding(x), st, [open] + body);
            && out == FlushProse(x, st.(lineNum := st.lineNum + 1), false).1
            && FlushAll(x, st1).1 == [Segment(CodeBlock, [open] + body, st.lineNum + 1, "", "code_block", ParentScope(st), false)]
  {
    var st1 := InCode(x, st, open);
    CodeBegins(x, st, open);
    Kept(x, Feeding(x), st1, body);
    ReadsTwo(Feeding(x), st, open, body, st1, Feed(x, st, open).1, Keeping(st1, body));
    assert ([open] + body)[0] == open;
  }

  /** So is front matter that is never closed. */
  lemma OpenFrontMatterStaysWhole(x: Syntax, open: string, body: seq<string>)
    requires x.dashes(open) && !x.blank(open) && forall l | l in body :: !x.dashes(l)
    ensures var (st, out) := Reads(Feeding(x), NewMd(), [open] + body);
            out == [] && FlushAll(x, st).1 == [Segment(FrontMatter, [open] + body, 1, "", "section", "", false)]
  {
    var (st1, out1) := Feed(x, NewMd(), open);
    Kept(x, Feeding(x), st1, body);
    ReadsTwo(Feeding(x), NewMd(), open, body, st1, out1, Keeping(st1, body));
    assert ([open] + body)[0] == open;
  }

  /** The text under the last heading is one segment titled by it. */
  lemma LastSectionStaysWhole(x: Syntax, st: Md, heading: string, text: seq<string>)
    requires Outside(st) && !st.inTable && OpensSection(x, heading)
    requires forall l | l in text :: IsText(x, l)
    ensures var h := x.heading(heading);
            var (st1, out) := Reads(Feeding(x), st, [heading] + text);
            && out == FlushProse(x, st.(lineNum := st.lineNum + 1), true).1
            && FlushAll(x, st1).1 == [Segment(Prose, [heading] + text, st.lineNum + 1, h.title, "section",
                 "section " + JoinScopes(UpdateHeadingStack(st.headingStack, h.level, h.title)), false)]
  {
    var st1 := InSection(x, st, heading);
    SectionBegins(x, st, heading);
    Kept(x, Feeding(x), st1, text);
    ReadsTwo(Feeding(x), st, heading, text, st1, Feed(x, st, heading).1, Keeping(st1, text));
    LastSection(x, Keeping(st1, text), heading, text);
  }

  lemma LastSection(x: Syntax, st: Md, heading: string, text: seq<string>)
    requires Outside(st) && !st.inTable && st.currentLines == [heading] + text && st.headingLevel > 0 && st.headingStack != []
    requires OpensSection(x, heading)
    ensures FlushAll(x, st).1 == [Segment(Prose, [heading] + text, st.currentStart, x.heading(heading).title, "section",
              "section " + JoinScopes(st.headingStack), false)]
  {
    assert ([heading] + text)[0] == heading;
  }

  /** Text that follows neither a heading nor anything held is a paragraph of its own. */
  lemma TextStaysWhole(x: Syntax, st: Md, first: string, text: seq<string>)
    requires Outside(st) && !st.inTable && st.currentLines == [] && st.pendingHeading == "" && st.headingLevel == 0
    requires IsText(x, first) && !x.blank(first) && forall l | l in text :: IsText(x, l)
    ensures var (st1, out) := Reads(Feeding(x), st, [first] + text);
            && out == []
            && FlushAll(x, st1).1 == [Segment(Prose, [first] + text, st.lineNum + 1, "", "paragraph", ParentScope(st), false)]
  {
    var st1 := st.(lineNum := st.lineNum + 1, currentLines := [first], currentStart := st.lineNum + 1);
    TextBegins(x, st, first);
    Kept(x, Feeding(x), st1, text);
    ReadsTwo(Feeding(x), st, first, text, st1, [], Keeping(st1, text));
    LastText(x, Keeping(st1, text), first, text);
  }

  lemma TextBegins(x: Syntax, st: Md, first: string)
    requires Outside(st) && !st.inTable && st.currentLines == [] && IsText(x, first) && !x.blank(first)
    ensures Feed(x, st, first) == (st.(lineNum := st.lineNum + 1, currentLines := [first], currentStart := st.lineNum + 1), [])
  {
  }

  lemma LastText(x: Syntax, st: Md, first: string, text: seq<string>)
    requires Outside(st) && !st.inTable && st.currentLines == [first] + text && !x.blank(first)
    requires st.pendingHeading == "" && st.headingLevel == 0
    ensures FlushAll(x, st).1 == [Segment(Prose, [first] + text, st.currentStart, "", "paragraph", ParentScope(st), false)]
  {
    assert ([first] + text)[0] == first;
  }

  /** The state after the first row of a table. */
  function InTable(x: Syntax, st: Md, row: string): Md {
    FlushProse(x, st.(lineNum := st.lineNum + 1), false).0.(inTable := true, currentLines := [row], currentStart := st.lineNum + 1)
  }

  lemma TableBegins(x: Syntax, st: Md, row: string)
    requires Outside(st) && !st.inTable && IsRow(x, row)
    ensures Feed(x, st, row) == (InTable(x, st, row), FlushProse(x, st.(lineNum := st.lineNum + 1), false).1)
    ensures Outside(InTable(x, st, row)) && InTable(x, st, row).headingStack == st.headingStack
  {
  }

  lemma TableEnds(x: Syntax, st: Md, first: string, rows: seq<string>, text: string)
    requires Outside(st) && st.inTable && st.currentLines == [first] + rows && !x.blank(first) && IsText(x, text)
    ensures var (st1, out) := Feed(x, st, text);
            && out == [Segment(Table, [first] + rows, st.currentStart, "", "paragraph", ParentScope(st), false)]
            && Outside(st1) && !st1.inTable
  {
    assert ([first] + rows)[0] == first;
  }

  /** The text under a heading, up to the next one, is one segment titled by the heading
      and placed under it. */
  lemma SectionStaysWhole(x: Syntax, st: Md, heading: string, text: seq<string>, next: string)
    requires Outside(st) && !st.inTable && OpensSection(x, heading)
    requires forall l | l in text :: IsText(x, l)
    requires x.heading(next).ok && !x.fence(next).ok
    ensures var h := x.heading(heading);
            var (st1, out) := Reads(Feeding(x), st, [heading] + text + [next]);
            && out == FlushProse(x, st.(lineNum := st.lineNum + 1), true).1
                    + [Segment(Prose, [heading] + text, st.lineNum + 1, h.title, "section",
                               "section " + JoinScopes(UpdateHeadingStack(st.headingStack, h.level, h.title)), true)]
            && Outside(st1) && st1.currentLines == [next]
  {
    var st1 := InSection(x, st, heading);
    SectionBegins(x, st, heading);
    Kept(x, Feeding(x), st1, text);
    ReadsThree(Feeding(x), st, heading, text, next, st1, Feed(x, st, heading).1, Keeping(st1, text));
    SectionEnds(x, Keeping(st1, text), heading, text, next);
  }

  predicate OpensSection(x: Syntax, line: string) {
    var h := x.heading(line);
    h.ok && h.level > 0 && h.title != "" && x.hash(line) && !x.fence(line).ok && !x.blank(line)
  }

  /** The state after a heading. */
  function InSection(x: Syntax, st: Md, heading: string): Md {
    var h := x.heading(heading);
    st.(lineNum := st.lineNum + 1, headingLevel := h.level, headingStack := UpdateHeadingStack(st.headingStack, h.level, h.title),
        pendingHeading := h.title, currentLines := [heading], currentStart := st.lineNum + 1)
  }

  lemma SectionBegins(x: Syntax, st: Md, heading: string)
    requires Outside(st) && OpensSection(x, heading)
    ensures Feed(x, st, heading) == (InSection(x, st, heading), FlushProse(x, st.(lineNum := st.lineNum + 1), true).1)
  {
  }

  lemma SectionEnds(x: Syntax, st: Md, heading: string, text: seq<string>, next: string)
    requires Outside(st) && st.currentLines == [heading] + text && st.headingLevel > 0 && st.headingStack != []
    requires OpensSection(x, heading) && x.heading(next).ok && !x.fence(next).ok
    ensures var (st1, out) := Feed(x, st, next);
            && out == [Segment(Prose, [heading] + text, st.currentStart, x.heading(heading).title, "section",
                               "section " + JoinScopes(st.headingStack), true)]
            && Outside(st1) && st1.currentLines == [next]
  {
    assert ([heading] + text)[0] == heading;
  }

  /** The scope of a heading is its own title below the enclosing ones: those of smaller
      level stay, those of its level or deeper go. */
  lemma ScopeIsPath(stack: seq<string>, level: nat, title: string)
    requires 0 < level
    ensures var r := UpdateHeadingStack(stack, level, title);
            && r != [] && r[|r| - 1] == title
            && |r| == (if level <= |stack| then level else |stack| + 1)
            && r[..|r| - 1] == stack[..|r| - 1]
  {
  }

  /** Where a title stands in a path of titles. */
  function TitleAt(titles: seq<string>, i: nat): nat
    requires i <= |titles|
  {
    if i == 0 then 0 else TitleAt(titles, i - 1) + |titles[i - 1]| + 3
  }

  predicate HasAt(s: string, k: nat, t: string) { k + |t| <= |s| && s[k..k + |t|] == t }

  lemma HasAtBehind(front: string, s: string, k: nat, t: string, whole: string, at: nat)
    requires HasAt(s, k, t) && whole == front + s && at == |front| + k
    ensures HasAt(whole, at, t)
  {
    assert whole[at..at + |t|] == s[k..k + |t|];
  }

  /** Every title, in order, with " > " between one and the next, and nothing else. */
  ghost predicate IsPath(s: string, titles: seq<string>) { PathWith(s, titles, " > ") }

  ghost predicate PathWith(s: string, titles: seq<string>, sep: string) {
    && (if titles == [] then s == "" else |s| + 3 == TitleAt(titles, |titles|))
    && (forall i: nat | i < |titles| :: HasAt(s, TitleAt(titles, i), titles[i]))
    && (forall i: nat | 0 < i < |titles| :: 3 <= TitleAt(titles, i) && HasAt(s, TitleAt(titles, i) - 3, sep))
  }

  /** The scope names exactly these titles. */
  ghost predicate Under(scope: string, titles: seq<string>) {
    |scope| >= 8 && scope[..8] == "section " && IsPath(scope[8..], titles)
  }

  lemma {:induction false} TitlesShift(titles: seq<string>, i: nat)
    requires titles != [] && i < |titles|
    ensures TitleAt(titles, i + 1) == |titles[0]| + 3 + TitleAt(titles[1..], i)
  {
    if i > 0 {
      TitlesShift(titles, i - 1);
    }
  }

  lemma {:induction false} ScopesJoin(titles: seq<string>)
    ensures IsPath(JoinScopes(titles), titles)
  {
    if |titles| > 1 {
      ScopesJoin(titles[1..]);
      var sep := " > ";
      assert |sep| == 3 && JoinScopes(titles) == titles[0] + sep + JoinScopes(titles[1..]);
      PathGrows(titles, sep, JoinScopes(titles[1..]));
    } else if |titles| == 1 {
      assert TitleAt(titles, 1) == TitleAt(titles, 0) + |titles[0]| + 3;
    }
  }

  lemma PathGrows(titles: seq<string>, sep: string, tail: string)
    requires |titles| > 1 && |sep| == 3 && PathWith(tail, titles[1..], sep)
    ensures PathWith(titles[0] + sep + tail, titles, sep)
  {
    var whole := titles[0] + sep + tail;
    TitlesShift(titles, |titles| - 1);
    forall i: nat | i < |titles|
      ensures HasAt(whole, TitleAt(titles, i), titles[i])
      ensures i > 0 ==> 3 <= TitleAt(titles, i) && HasAt(whole, TitleAt(titles, i) - 3, sep)
    {
      if i > 0 {
        TitleInRest(titles, titles[1..], titles[0] + sep, sep, tail, whole, i, i - 1);
      } else {
        assert whole[0..|titles[0]|] == titles[0];
      }
    }
  }

  lemma HasAtEdge(a: string, sep: string, front: string, tail: string, whole: string, at: nat)
    requires front == a + sep && whole == front + tail && at == |a|
    ensures HasAt(whole, at, sep)
  {
    assert whole[at..at + |sep|] == sep;
  }

  lemma TitleInRest(titles: seq<string>, rest: seq<string>, front: string, sep: string, tail: string, whole: string, i: nat, k: nat)
    requires 0 < i < |titles| && k == i - 1 && rest == titles[1..] && |sep| == 3 && PathWith(tail, rest, sep)
    requires front == titles[0] + sep && whole == front + tail
    ensures HasAt(whole, TitleAt(titles, i), titles[i])
    ensures 3 <= TitleAt(titles, i) && HasAt(whole, TitleAt(titles, i) - 3, sep)
  {
    TitlesShift(titles, k);
    var at := TitleAt(titles, i);
    assert rest[k] == titles[i] && at == |front| + TitleAt(rest, k);
    HasAtBehind(front, tail, TitleAt(rest, k), titles[i], whole, at);
    if k > 0 {
      HasAtBehind(front, tail, TitleAt(rest, k) - 3, sep, whole, at - 3);
    } else {
      HasAtEdge(titles[0], sep, front, tail, whole, at - 3);
    }
  }

  /** The segment of a section names the titles it is under, its own last. */
  lemma SectionIsPlaced(titles: seq<string>)
    requires titles != []
    ensures Under("section " + JoinScopes(titles), titles)
  {
    ScopesJoin(titles);
    var scope := "section " + JoinScopes(titles);
    assert scope[8..] == JoinScopes(titles);
  }

  lemma BlankIsNothing(line: string)
    requires Blank(line)
    ensures !ParseHeading(line).ok && !ParseFenceOpen(line).ok && TrimSpace(line) != "---" && !IsTableRow(line)
  {
    TrimBlank(line);
  }

  lemma HeadingStartsWithHash(line: string)
    requires ParseHeading(line).ok
    ensures HasPrefix(TrimSpace(line), '#') && ParseHeading(line).level > 0 && ParseHeading(line).title != ""
  {
  }

  lemma HashIsNoFence(line: string)
    requires HasPrefix(TrimSpace(line), '#')
    ensures !ParseFenceOpen(line).ok
  {
  }

  /** The lines recognised in ASCII text meet what the statements above ask for. */
  lemma AsciiMeetsThem(line: string)
    ensures ParseHeading(line).ok ==> OpensSection(Ascii(), line)
    ensures ParseFenceOpen(line).ok || TrimSpace(line) == "---" || IsTableRow(line) ==> !Ascii().blank(line)
  {
    if Blank(line) {
      BlankIsNothing(line);
    } else if ParseHeading(line).ok {
      HeadingStartsWithHash(line);
      HashIsNoFence(line);
    }
  }
}
