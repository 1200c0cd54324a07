/**
 The Markdown line state machine as functions.

 The machine is given for any way of recognising lines (`Syntax`); `Ascii` is the one
 in use, on ASCII lines (see ProseText). A segment's text is given by the lines that it
 joins with line feeds; its end line is not modelled.
 */
module MarkdownModel {
  import opened ProseText

  datatype Kind = Prose | CodeBlock | FrontMatter | Table

  datatype Segment = Segment(kind: Kind, lines: seq<string>, startLine: nat, symbolName: string, symbolKind: string,
                             parentScope: string, noOverlapNext: bool)

  datatype Md = Md(
    inCodeBlock: bool,
    fenceMarker: char,
    fenceLen: nat,
    inTable: bool,
    inFrontMatter: bool,
    frontMatterDone: bool,
    headingLevel: nat,
    headingStack: seq<string>,
    currentLines: seq<string>,
    currentStart: nat,
    lineNum: nat,
    pendingHeading: string)

  function NewMd(): Md { Md(false, '\0', 0, false, false, false, 0, [], [], 0, 0, "") }

  // --- recognising lines --------------------------------------------------------------

  function HasPrefix(s: string, c: char): bool { s != "" && s[0] == c }
  function HasSuffix(s: string, c: char): bool { s != "" && s[|s| - 1] == c }

  /** How often `c` repeats at the start of `s`. */
  function RunOf(s: string, c: char): (n: nat)
    ensures n <= |s| && (forall i | 0 <= i < n :: s[i] == c) && (n < |s| ==> s[n] != c)
  {
    if s != "" && s[0] == c then RunOf(s[1..], c) + 1 else 0
  }

  datatype Heading = Heading(level: nat, title: string, ok: bool)

  function ParseHeading(line: string): Heading {
    var trimmed := TrimSpace(line);
    var i := RunOf(trimmed, '#');
    if i == 0 || i > 6 || i >= |trimmed| || trimmed[i] != ' ' then Heading(0, "", false)
    else
      var title := TrimSpace(trimmed[i + 1..]);
      Heading(i, title, title != "")
  }

  /** The new heading replaces its level and drops the deeper ones. */
  function UpdateHeadingStack(stack: seq<string>, level: nat, title: string): seq<string> {
    if level == 0 then stack
    else if level > |stack| then stack + [title]
    else stack[..level - 1] + [title]
  }

  datatype Fence = Fence(marker: char, len: nat, ok: bool)

  function ParseFenceOpen(line: string): Fence {
    var trimmed := TrimSpace(line);
    if |trimmed| < 3 || (trimmed[0] != '`' && trimmed[0] != '~') then Fence('\0', 0, false)
    else
      var n := RunOf(trimmed, trimmed[0]);
      if n < 3 then Fence('\0', 0, false) else Fence(trimmed[0], n, true)
  }

  predicate IsFenceClose(line: string, marker: char, len: nat) {
    marker != '\0' && len >= 3 &&
    var trimmed := TrimSpace(line);
    |trimmed| >= len && forall i | 0 <= i < |trimmed| :: trimmed[i] == marker
  }

  predicate IsTableRow(line: string) {
    var trimmed := TrimSpace(line);
    '|' in trimmed && (HasPrefix(trimmed, '|') || HasSuffix(trimmed, '|'))
  }

  /** A closing fence is at least as long as the one it closes and made of its marker. */
  lemma FenceCloses(line: string, open: string)
    requires ParseFenceOpen(open).ok && IsFenceClose(line, ParseFenceOpen(open).marker, ParseFenceOpen(open).len)
    ensures ParseFenceOpen(line).ok && ParseFenceOpen(line).marker == ParseFenceOpen(open).marker
    ensures ParseFenceOpen(line).len >= ParseFenceOpen(open).len
  {
    var t := TrimSpace(line);
    var n := RunOf(t, t[0]);
    assert n == |t|;
  }

  /** How lines are recognised. */
  datatype Syntax = Syntax(
    blank: string -> bool,
    dashes: string -> bool,
    fence: string -> Fence,
    closes: (string, char, nat) -> bool,
    hash: string -> bool,
    heading: string -> Heading,
    row: string -> bool)

  function Ascii(): Syntax {
    Syntax(s => Blank(s), s => TrimSpace(s) == "---", s => ParseFenceOpen(s), (s: string, m: char, n: nat) => IsFenceClose(s, m, n),
           s => HasPrefix(TrimSpace(s), '#'), s => ParseHeading(s), s => IsTableRow(s))
  }

  /** A table row is never blank. */
  ghost predicate RowsShow(x: Syntax) { forall s: string :: x.row(s) ==> !x.blank(s) }

  lemma RowNotBlank(line: string)
    requires IsTableRow(line)
    ensures !Blank(line)
  {
    TrimSpaceAt(line);
    var t := TrimSpace(line);
    var i :| 0 <= i < |t| && t[i] == '|';
    assert t[i] == line[LeadingSpaces(line) + i];
  }

  lemma AsciiRowsShow()
    ensures RowsShow(Ascii())
  {
    forall s: string | Ascii().row(s) ensures !Ascii().blank(s) {
      RowNotBlank(s);
    }
  }

  // --- emitting -----------------------------------------------------------------------

  function JoinScopes(stack: seq<string>): string {
    if stack == [] then "" else if |stack| == 1 then stack[0] else stack[0] + " > " + JoinScopes(stack[1..])
  }

  function ParentScope(st: Md): string {
    if st.headingStack == [] then "" else "section " + JoinScopes(st.headingStack)
  }

  predicate AllBlank(x: Syntax, lines: seq<string>) { forall i | 0 <= i < |lines| :: x.blank(lines[i]) }

  /** What emitting leaves alone. */
  predicate SameMode(st: Md, st': Md) {
    && st'.inTable == st.inTable && st'.inCodeBlock == st.inCodeBlock && st'.inFrontMatter == st.inFrontMatter
    && st'.fenceMarker == st.fenceMarker && st'.fenceLen == st.fenceLen
    && st'.lineNum == st.lineNum && st'.frontMatterDone == st.frontMatterDone
  }

  function EmitCurrent(x: Syntax, st: Md, kind: Kind, symbolName: string, symbolKind: string, noOverlapNext: bool): (r: (Md, seq<Segment>))
    ensures SameMode(st, r.0) && r.0.currentLines == []
  {
    if st.currentLines == [] then (st, [])
    else if AllBlank(x, st.currentLines) then (st.(currentLines := [], headingLevel := 0), [])
    else
      var takes := symbolName == "" && st.pendingHeading != "" && kind == Prose;
      var name := if takes then st.pendingHeading else symbolName;
      (st.(currentLines := [],
           pendingHeading := if takes then "" else st.pendingHeading,
           headingLevel := if kind == Prose && symbolKind == "section" then 0 else st.headingLevel),
       [Segment(kind, st.currentLines, st.currentStart, name, symbolKind, ParentScope(st), noOverlapNext)])
  }

  /** What prose is named after: its own heading line, a pending one, or nothing. */
  function Titled(x: Syntax, st: Md): (r: (Md, string, string))
    requires st.currentLines != []
    ensures r.0 == st.(pendingHeading := r.0.pendingHeading)
  {
    if st.headingLevel > 0 && x.hash(st.currentLines[0]) then
      (st.(pendingHeading := ""), x.heading(st.currentLines[0]).title, "section")
    else if st.pendingHeading != "" then (st.(pendingHeading := ""), st.pendingHeading, "section")
    else (st, "", "paragraph")
  }

  function FlushProse(x: Syntax, st: Md, noOverlapNext: bool): (r: (Md, seq<Segment>))
    ensures SameMode(st, r.0) && r.0.currentLines == []
  {
    if st.currentLines == [] then (st, [])
    else EmitCurrent(x, Titled(x, st).0, Prose, Titled(x, st).1, Titled(x, st).2, noOverlapNext)
  }

  // --- one line -----------------------------------------------------------------------

  function Append(st: Md, line: string): Md { st.(currentLines := st.currentLines + [line]) }
  function Start(st: Md, line: string): Md { st.(currentLines := [line], currentStart := st.lineNum) }

  function FeedFrontMatter(x: Syntax, st: Md, line: string): (Md, seq<Segment>) {
    var st1 := Append(st, line);
    if x.dashes(line) && |st1.currentLines| > 1 then
      var (st2, out) := EmitCurrent(x, st1, FrontMatter, "", "section", false);
      (st2.(inFrontMatter := false, frontMatterDone := true), out)
    else (st1, [])
  }

  function FeedCode(x: Syntax, st: Md, line: string): (Md, seq<Segment>) {
    if x.closes(line, st.fenceMarker, st.fenceLen) then
      var (st1, out) := EmitCurrent(x, Append(st, line), CodeBlock, "", "code_block", false);
      (st1.(inCodeBlock := false, fenceMarker := '\0', fenceLen := 0), out)
    else (Append(st, line), [])
  }

  function FeedFence(x: Syntax, st: Md, line: string): (Md, seq<Segment>) {
    var fence := x.fence(line);
    var (st1, out) := FlushProse(x, st, false);
    (Start(st1.(inCodeBlock := true, fenceMarker := fence.marker, fenceLen := fence.len), line), out)
  }

  function FeedHeading(x: Syntax, st: Md, line: string): (Md, seq<Segment>) {
    var h := x.heading(line);
    var (st1, out) := FlushProse(x, st, true);
    (Start(st1.(headingLevel := h.level, headingStack := UpdateHeadingStack(st1.headingStack, h.level, h.title),
                pendingHeading := h.title), line), out)
  }

  function FeedTableRow(x: Syntax, st: Md, line: string): (Md, seq<Segment>) {
    if st.inTable then (Append(st, line), []) else
      var (st1, out) := FlushProse(x, st, false);
      (Start(st1.(inTable := true), line), out)
  }

  function TextLine(x: Syntax, st: Md, line: string): Md {
    if st.currentLines != [] then Append(st, line)
    else if x.blank(line) then st.(currentStart := st.lineNum)
    else Start(st, line)
  }

  function FeedText(x: Syntax, st: Md, line: string): (Md, seq<Segment>) {
    var (st1, out) := if st.inTable then EmitCurrent(x, st, Table, "", "paragraph", false) else (st, []);
    (TextLine(x, st1.(inTable := false), line), out)
  }

  function FeedBlock(x: Syntax, st: Md, line: string): (Md, seq<Segment>) {
    if x.fence(line).ok then FeedFence(x, st, line)
    else if x.heading(line).ok then FeedHeading(x, st, line)
    else if x.row(line) then FeedTableRow(x, st, line)
    else FeedText(x, st, line)
  }

  /** The dispatch, once the line has been counted. */
  function FeedCounted(x: Syntax, st: Md, line: string): (Md, seq<Segment>) {
    if st.inFrontMatter then FeedFrontMatter(x, st, line) else FeedOutside(x, st, line)
  }

  function FeedOutside(x: Syntax, st: Md, line: string): (Md, seq<Segment>) {
    if !st.frontMatterDone && st.lineNum == 1 && x.dashes(line) then (Start(st.(inFrontMatter := true), line), [])
    else if st.inCodeBlock then FeedCode(x, st, line)
    else FeedBlock(x, st, line)
  }

  function Feed(x: Syntax, st: Md, line: string): (Md, seq<Segment>) { FeedCounted(x, st.(lineNum := st.lineNum + 1), line) }

  function FlushAll(x: Syntax, st: Md): (Md, seq<Segment>) {
    if st.inCodeBlock then
      var (st1, out) := EmitCurrent(x, st, CodeBlock, "", "code_block", false);
      (st1.(inCodeBlock := false), out)
    else if st.inFrontMatter then
      var (st1, out) := EmitCurrent(x, st, FrontMatter, "", "section", false);
      (st1.(inFrontMatter := false), out)
    else if st.inTable then
      var (st1, out) := EmitCurrent(x, st, Table, "", "paragraph", false);
      (st1.(inTable := false), out)
    else FlushProse(x, st, false)
  }

  // --- a whole document ------------------------------------------------------------------

  /** The state and the segments after the first `n` lines. */
  function After(x: Syntax, lines: seq<string>, n: nat): (Md, seq<Segment>)
    requires n <= |lines|
  {
    if n == 0 then (NewMd(), []) else
      var (st, segs) := After(x, lines, n - 1);
      var (st1, out) := Feed(x, st, lines[n - 1]);
      (st1, segs + out)
  }

  lemma AfterNext(x: Syntax, lines: seq<string>, i: nat, next: nat, st: Md, out: seq<Segment>)
    requires next == i + 1 <= |lines| && (st, out) == Feed(x, After(x, lines, i).0, lines[i])
    ensures After(x, lines, next) == (st, After(x, lines, i).1 + out)
  {
  }

  function Parse(x: Syntax, lines: seq<string>): seq<Segment> {
    var (st, segs) := After(x, lines, |lines|);
    segs + FlushAll(x, st).1
  }
}
