/**
 When the rows of a Markdown document come out as tables and its headings as prose: exactly
 when no row is followed directly by a heading or a fence.
 */
module MarkdownTables {
  import opened ProseText
  import opened MarkdownModel
  import opened MarkdownRoles
  import opened MarkdownBlocks
  import opened Markdown

  predicate AfterRow(x: Syntax, lines: seq<string>, k: nat)
    requires k <= |lines|
  {
    k > 0 && RoleAt(x, lines, k - 1).RowLine?
  }

  /** A row is followed directly by a heading or a fence. */
  predicate BrokenAt(x: Syntax, lines: seq<string>, k: nat)
    requires k < |lines|
  {
    AfterRow(x, lines, k) && (RoleAt(x, lines, k).HeadingLine? || RoleAt(x, lines, k).FenceLine?)
  }

  predicate Unbroken(x: Syntax, lines: seq<string>, n: nat)
    requires n <= |lines|
  {
    forall k: nat | k < n :: !BrokenAt(x, lines, k)
  }

  /** The first `n` lines that play this part, in order. */
  function LinesOf(x: Syntax, lines: seq<string>, n: nat, role: Role): seq<string>
    requires n <= |lines|
  {
    Pick((k: nat) => if k < |lines| then RoleAt(x, lines, k) else OtherLine, lines, n, role)
  }

  function Pick(roles: nat -> Role, lines: seq<string>, n: nat, role: Role): seq<string>
    requires n <= |lines|
  {
    if n == 0 then [] else Pick(roles, lines, n - 1, role) + (if roles(n - 1) == role then [lines[n - 1]] else [])
  }

  // --- what comes out ---------------------------------------------------------------------------

  predicate IsHeading(x: Syntax, line: string) { x.heading(line).ok && !x.fence(line).ok }

  function Filter(keep: string -> bool, lines: seq<string>): (r: seq<string>)
    ensures forall l | l in r :: keep(l)
  {
    if lines == [] then []
    else Filter(keep, lines[..|lines| - 1]) + (if keep(lines[|lines| - 1]) then [lines[|lines| - 1]] else [])
  }

  function Rows(x: Syntax, lines: seq<string>): seq<string> { Filter(l => IsRow(x, l), lines) }
  function Headings(x: Syntax, lines: seq<string>): seq<string> { Filter(l => IsHeading(x, l), lines) }

  /** The lines of all tables, in order. */
  function TableLines(segs: seq<Segment>): seq<string> {
    if segs == [] then []
    else TableLines(segs[..|segs| - 1]) + (if segs[|segs| - 1].kind == Table then segs[|segs| - 1].lines else [])
  }

  /** The heading lines in all prose, in order. */
  function ProseHeadings(x: Syntax, segs: seq<Segment>): seq<string> {
    if segs == [] then []
    else ProseHeadings(x, segs[..|segs| - 1]) + (if segs[|segs| - 1].kind == Prose then Headings(x, segs[|segs| - 1].lines) else [])
  }

  lemma FilterSnoc(keep: string -> bool, lines: seq<string>, l: string)
    ensures Filter(keep, lines + [l]) == Filter(keep, lines) + (if keep(l) then [l] else [])
  {
    assert (lines + [l])[..|lines|] == lines;
  }

  lemma FilterOne(keep: string -> bool, l: string)
    ensures Filter(keep, [l]) == if keep(l) then [l] else []
  {
    assert [] + [l] == [l];
    FilterSnoc(keep, [], l);
  }

  lemma {:induction false} FilterAll(keep: string -> bool, lines: seq<string>)
    requires forall l | l in lines :: keep(l)
    ensures Filter(keep, lines) == lines
  {
    if lines != [] {
      var n := |lines| - 1;
      assert lines == lines[..n] + [lines[n]] && keep(lines[n]);
      FilterAll(keep, lines[..n]);
    }
  }

  lemma {:induction false} FilterNone(keep: string -> bool, lines: seq<string>)
    requires forall l | l in lines :: !keep(l)
    ensures Filter(keep, lines) == []
  {
    if lines != [] {
      FilterNone(keep, lines[..|lines| - 1]);
    }
  }

  lemma {:induction false} FilterConcat(keep: string -> bool, a: seq<string>, b: seq<string>)
    ensures Filter(keep, a + b) == Filter(keep, a) + Filter(keep, b)
    decreases |b|
  {
    if b == [] {
      assert a + b == a;
    } else {
      var n := |b| - 1;
      assert a + b == (a + b[..n]) + [b[n]] && b == b[..n] + [b[n]];
      FilterConcat(keep, a, b[..n]);
      FilterSnoc(keep, a + b[..n], b[n]);
      FilterSnoc(keep, b[..n], b[n]);
    }
  }

  /** Blank lines are neither rows nor headings. */
  ghost predicate LinesShow(x: Syntax) {
    RowsShow(x) && forall s: string :: x.heading(s).ok ==> !x.blank(s)
  }

  lemma BlankHoldsNothing(x: Syntax, lines: seq<string>)
    requires LinesShow(x) && AllBlank(x, lines)
    ensures Rows(x, lines) == [] && Headings(x, lines) == []
  {
    forall l | l in lines ensures !IsRow(x, l) && !IsHeading(x, l) {
      assert x.blank(l);
    }
    FilterNone(l => IsRow(x, l), lines);
    FilterNone(l => IsHeading(x, l), lines);
  }

  // --- the count ------------------------------------------------------------------------------------

  /** `cur` is held; `open` means not as code or front matter. `table` and `heads` have come
      out, `rows` and `headings` have been read. Rows are never gained, and one is lost for
      good when the document is broken. */
  ghost predicate Tally(x: Syntax, cur: seq<string>, inTable: bool, open: bool, table: seq<string>, heads: seq<string>,
                        rows: seq<string>, headings: seq<string>, afterRow: bool, unbroken: bool) {
    && |Rows(x, table)| + (if open then |Rows(x, cur)| else 0) <= |rows|
    && (!unbroken ==> |Rows(x, table)| + (if open then |Rows(x, cur)| else 0) < |rows|)
    && (afterRow ==> open && inTable && Rows(x, cur) != [])
    && (unbroken && inTable ==> open && afterRow && forall l | l in cur :: IsRow(x, l))
    && (unbroken ==> table + (if inTable then cur else []) == rows)
    && (unbroken ==> heads + (if open && !inTable then Headings(x, cur) else []) == headings)
  }

  /** A line inside code or front matter; `open` afterwards only with nothing held. */
  lemma TallyInside(x: Syntax, cur: seq<string>, inTable: bool, table: seq<string>, heads: seq<string>, rows: seq<string>,
                    headings: seq<string>, unbroken: bool, cur': seq<string>, open: bool)
    requires Tally(x, cur, inTable, false, table, heads, rows, headings, false, unbroken) && (open ==> cur' == [])
    ensures Tally(x, cur', inTable, open, table, heads, rows, headings, false, unbroken)
  {
  }

  /** What is held is flushed as prose, and a fence is held as code. */
  lemma TallyFence(x: Syntax, cur: seq<string>, inTable: bool, table: seq<string>, heads: seq<string>, rows: seq<string>,
                   headings: seq<string>, afterRow: bool, unbroken: bool, line: string)
    requires Tally(x, cur, inTable, true, table, heads, rows, headings, afterRow, unbroken)
    ensures Tally(x, [line], inTable, false, table, heads + Headings(x, cur), rows, headings, false, unbroken && !afterRow)
  {
    var heads' := heads + Headings(x, cur);
    assert heads' + [] == heads';
    assert table + [] == table;
  }

  /** What is held is flushed as prose, and a heading is held. */
  lemma TallyHeading(x: Syntax, cur: seq<string>, inTable: bool, table: seq<string>, heads: seq<string>, rows: seq<string>,
                     headings: seq<string>, afterRow: bool, unbroken: bool, line: string)
    requires Tally(x, cur, inTable, true, table, heads, rows, headings, afterRow, unbroken) && IsHeading(x, line)
    ensures Tally(x, [line], inTable, true, table, heads + Headings(x, cur), rows, headings + [line], false, unbroken && !afterRow)
  {
    OneLine(x, line);
    assert table + [] == table;
  }

  lemma OneLine(x: Syntax, line: string)
    ensures Rows(x, [line]) == if IsRow(x, line) then [line] else []
    ensures Headings(x, [line]) == if IsHeading(x, line) then [line] else []
  {
    FilterOne(l => IsRow(x, l), line);
    FilterOne(l => IsHeading(x, l), line);
  }

  lemma TallyRow(x: Syntax, cur: seq<string>, inTable: bool, table: seq<string>, heads: seq<string>, rows: seq<string>,
                 headings: seq<string>, afterRow: bool, unbroken: bool, line: string)
    requires Tally(x, cur, inTable, true, table, heads, rows, headings, afterRow, unbroken) && IsRow(x, line)
    ensures inTable ==> Tally(x, cur + [line], true, true, table, heads, rows + [line], headings, true, unbroken)
    ensures !inTable ==> Tally(x, [line], true, true, table, heads + Headings(x, cur), rows + [line], headings, true, unbroken)
  {
    OneLine(x, line);
    FilterSnoc(l => IsRow(x, l), cur, line);
    assert table + (cur + [line]) == (table + cur) + [line];
    assert unbroken && !inTable ==> table + [] == table;
    assert unbroken && inTable ==> heads + [] == heads;
  }

  lemma TallyText(x: Syntax, cur: seq<string>, inTable: bool, table: seq<string>, heads: seq<string>, rows: seq<string>,
                  headings: seq<string>, afterRow: bool, unbroken: bool)
    requires Tally(x, cur, inTable, true, table, heads, rows, headings, afterRow, unbroken)
    ensures inTable ==> Tally(x, [], false, true, table + cur, heads, rows, headings, false, unbroken)
    ensures !inTable ==> Tally(x, cur, false, true, table, heads, rows, headings, false, unbroken)
  {
    FilterConcat(l => IsRow(x, l), table, cur);
    assert unbroken && inTable ==> (table + cur) + [] == rows && heads + [] == headings;
  }

  lemma TallyAppend(x: Syntax, cur: seq<string>, table: seq<string>, heads: seq<string>, rows: seq<string>, headings: seq<string>,
                    unbroken: bool, line: string)
    requires Tally(x, cur, false, true, table, heads, rows, headings, false, unbroken) && IsText(x, line)
    ensures Tally(x, cur + [line], false, true, table, heads, rows, headings, false, unbroken)
  {
    FilterSnoc(l => IsRow(x, l), cur, line);
    FilterSnoc(l => IsHeading(x, l), cur, line);
  }

  // --- what emitting does ------------------------------------------------------------------------------

  lemma EmitCounts(x: Syntax, st: Md, segs: seq<Segment>, kind: Kind, symbolName: string, symbolKind: string, noOverlapNext: bool)
    requires LinesShow(x)
    ensures var (st', out) := EmitCurrent(x, st, kind, symbolName, symbolKind, noOverlapNext);
      && SameMode(st, st') && st'.currentLines == []
      && (kind != Table ==> TableLines(segs + out) == TableLines(segs))
      && (kind != Prose ==> ProseHeadings(x, segs + out) == ProseHeadings(x, segs))
      && (kind == Prose ==> ProseHeadings(x, segs + out) == ProseHeadings(x, segs) + Headings(x, st.currentLines))
      && (kind == Table ==>
            TableLines(segs + out) == TableLines(segs) + st.currentLines
            || (TableLines(segs + out) == TableLines(segs) && AllBlank(x, st.currentLines)))
  {
    var (st', out) := EmitCurrent(x, st, kind, symbolName, symbolKind, noOverlapNext);
    if out == [] {
      assert segs + out == segs;
      BlankHoldsNothing(x, st.currentLines);
    } else {
      assert (segs + out)[..|segs|] == segs;
    }
  }

  lemma FlushCounts(x: Syntax, st: Md, segs: seq<Segment>, noOverlapNext: bool)
    requires LinesShow(x)
    ensures var (st', out) := FlushProse(x, st, noOverlapNext);
      && SameMode(st, st') && st'.currentLines == []
      && TableLines(segs + out) == TableLines(segs)
      && ProseHeadings(x, segs + out) == ProseHeadings(x, segs) + Headings(x, st.currentLines)
  {
    if st.currentLines == [] {
      assert segs + [] == segs;
    } else {
      var (st1, name, kind) := Titled(x, st);
      EmitCounts(x, st1, segs, Prose, name, kind, noOverlapNext);
    }
  }

  // --- one line ----------------------------------------------------------------------------------------------

  predicate IsOpen(st: Md) { !st.inCodeBlock && !st.inFrontMatter }

  ghost predicate Counts(x: Syntax, st: Md, segs: seq<Segment>, rows: seq<string>, headings: seq<string>, afterRow: bool, unbroken: bool) {
    Tally(x, st.currentLines, st.inTable, IsOpen(st), TableLines(segs), ProseHeadings(x, segs), rows, headings, afterRow, unbroken)
  }

  lemma CountFence(x: Syntax, st: Md, segs: seq<Segment>, rows: seq<string>, headings: seq<string>, afterRow: bool, unbroken: bool,
                   line: string)
    requires LinesShow(x) && Counts(x, st, segs, rows, headings, afterRow, unbroken) && IsOpen(st) && x.fence(line).ok
    ensures var (st', out) := FeedFence(x, st, line); Counts(x, st', segs + out, rows, headings, false, unbroken && !afterRow)
  {
    FlushCounts(x, st, segs, false);
    TallyFence(x, st.currentLines, st.inTable, TableLines(segs), ProseHeadings(x, segs), rows, headings, afterRow, unbroken, line);
  }

  lemma CountHeading(x: Syntax, st: Md, segs: seq<Segment>, rows: seq<string>, headings: seq<string>, afterRow: bool, unbroken: bool,
                     line: string)
    requires LinesShow(x) && Counts(x, st, segs, rows, headings, afterRow, unbroken) && IsOpen(st) && IsHeading(x, line)
    ensures var (st', out) := FeedHeading(x, st, line);
            Counts(x, st', segs + out, rows, headings + [line], false, unbroken && !afterRow)
  {
    FlushCounts(x, st, segs, true);
    TallyHeading(x, st.currentLines, st.inTable, TableLines(segs), ProseHeadings(x, segs), rows, headings, afterRow, unbroken, line);
  }

  lemma CountRow(x: Syntax, st: Md, segs: seq<Segment>, rows: seq<string>, headings: seq<string>, afterRow: bool, unbroken: bool,
                 line: string)
    requires LinesShow(x) && Counts(x, st, segs, rows, headings, afterRow, unbroken) && IsOpen(st) && IsRow(x, line)
    ensures var (st', out) := FeedTableRow(x, st, line); Counts(x, st', segs + out, rows + [line], headings, true, unbroken)
  {
    FlushCounts(x, st, segs, false);
    TallyRow(x, st.currentLines, st.inTable, TableLines(segs), ProseHeadings(x, segs), rows, headings, afterRow, unbroken, line);
    assert segs + [] == segs;
  }

  lemma CountText(x: Syntax, st: Md, segs: seq<Segment>, rows: seq<string>, headings: seq<string>, afterRow: bool, unbroken: bool,
                  line: string)
    requires LinesShow(x) && Counts(x, st, segs, rows, headings, afterRow, unbroken) && IsOpen(st) && IsText(x, line)
    ensures var (st', out) := FeedText(x, st, line); Counts(x, st', segs + out, rows, headings, false, unbroken)
  {
    TallyText(x, st.currentLines, st.inTable, TableLines(segs), ProseHeadings(x, segs), rows, headings, afterRow, unbroken);
    assert segs + [] == segs;
    if st.inTable {
      EmitTable(x, st, segs, rows, headings, afterRow, unbroken);
      var (st1, out) := EmitCurrent(x, st, Table, "", "paragraph", false);
      CountTextLine(x, st1.(inTable := false), segs + out, rows, headings, unbroken, line);
    } else {
      assert st.(inTable := false) == st;
      CountTextLine(x, st, segs, rows, headings, unbroken, line);
    }
  }

  /** A table that ends: its rows come out. */
  lemma EmitTable(x: Syntax, st: Md, segs: seq<Segment>, rows: seq<string>, headings: seq<string>, afterRow: bool, unbroken: bool)
    requires LinesShow(x) && Counts(x, st, segs, rows, headings, afterRow, unbroken) && IsOpen(st) && st.inTable
    ensures var (st', out) := EmitCurrent(x, st, Table, "", "paragraph", false);
            Counts(x, st'.(inTable := false), segs + out, rows, headings, false, unbroken)
  {
    var cur, table, heads := st.currentLines, TableLines(segs), ProseHeadings(x, segs);
    EmitCounts(x, st, segs, Table, "", "paragraph", false);
    TallyText(x, cur, true, table, heads, rows, headings, afterRow, unbroken);
    FilterConcat(l => IsRow(x, l), table, cur);
    assert cur == [] ==> table + cur == table;
    if unbroken {
      FilterAll(l => IsRow(x, l), cur);
    }
    if AllBlank(x, cur) {
      BlankHoldsNothing(x, cur);
    }
  }

  lemma CountTextLine(x: Syntax, st: Md, segs: seq<Segment>, rows: seq<string>, headings: seq<string>, unbroken: bool, line: string)
    requires Counts(x, st, segs, rows, headings, false, unbroken) && IsOpen(st) && !st.inTable && IsText(x, line)
    ensures Counts(x, TextLine(x, st, line), segs, rows, headings, false, unbroken)
  {
    TallyAppend(x, st.currentLines, TableLines(segs), ProseHeadings(x, segs), rows, headings, unbroken, line);
    assert st.currentLines == [] ==> st.currentLines + [line] == [line];
  }

  lemma CountInside(x: Syntax, st: Md, segs: seq<Segment>, rows: seq<string>, headings: seq<string>, afterRow: bool, unbroken: bool,
                    line: string)
    requires LinesShow(x) && Counts(x, st, segs, rows, headings, afterRow, unbroken) && !IsOpen(st)
    ensures st.inFrontMatter ==>
      var (st', out) := FeedFrontMatter(x, st, line); Counts(x, st', segs + out, rows, headings, false, unbroken)
    ensures !st.inFrontMatter ==>
      var (st', out) := FeedCode(x, st, line); Counts(x, st', segs + out, rows, headings, false, unbroken)
  {
    var held := Append(st, line);
    assert segs + [] == segs;
    EmitCounts(x, held, segs, FrontMatter, "", "section", false);
    EmitCounts(x, held, segs, CodeBlock, "", "code_block", false);
    var table, heads := TableLines(segs), ProseHeadings(x, segs);
    TallyInside(x, st.currentLines, st.inTable, table, heads, rows, headings, unbroken, held.currentLines, false);
    TallyInside(x, st.currentLines, st.inTable, table, heads, rows, headings, unbroken, [], IsOpen(st.(inCodeBlock := false)));
    TallyInside(x, st.currentLines, st.inTable, table, heads, rows, headings, unbroken, [], IsOpen(st.(inFrontMatter := false)));
  }

  /** What one line does to the count, by the part it plays. */
  lemma CountAs(x: Syntax, st: Md, segs: seq<Segment>, rows: seq<string>, headings: seq<string>, afterRow: bool, unbroken: bool,
                line: string, role: Role)
    requires LinesShow(x) && Counts(x, st, segs, rows, headings, afterRow, unbroken)
    requires match role
      case FrontLine => st.inFrontMatter || st.currentLines == []
      case CodeLine => st.inCodeBlock && !st.inFrontMatter
      case FenceLine => IsOpen(st) && x.fence(line).ok
      case HeadingLine => IsOpen(st) && IsHeading(x, line)
      case RowLine => IsOpen(st) && IsRow(x, line)
      case OtherLine => IsOpen(st) && IsText(x, line)
    ensures var (st', out) := FeedAs(x, st, line, role);
            Counts(x, st', segs + out, if role.RowLine? then rows + [line] else rows,
                   if role.HeadingLine? then headings + [line] else headings,
                   role.RowLine?, unbroken && !(afterRow && (role.HeadingLine? || role.FenceLine?)))
  {
    match role
    case FrontLine =>
      if st.inFrontMatter {
        CountInside(x, st, segs, rows, headings, afterRow, unbroken, line);
      } else {
        FrontBegins(x, st, segs, rows, headings, afterRow, unbroken, line);
      }
    case CodeLine => CountInside(x, st, segs, rows, headings, afterRow, unbroken, line);
    case FenceLine => CountFence(x, st, segs, rows, headings, afterRow, unbroken, line);
    case HeadingLine => CountHeading(x, st, segs, rows, headings, afterRow, unbroken, line);
    case RowLine => CountRow(x, st, segs, rows, headings, afterRow, unbroken, line);
    case OtherLine => CountText(x, st, segs, rows, headings, afterRow, unbroken, line);
  }

  lemma FrontBegins(x: Syntax, st: Md, segs: seq<Segment>, rows: seq<string>, headings: seq<string>, afterRow: bool, unbroken: bool,
                    line: string)
    requires Counts(x, st, segs, rows, headings, afterRow, unbroken) && st.currentLines == []
    ensures Counts(x, Start(st.(inFrontMatter := true), line), segs + [], rows, headings, false, unbroken)
  {
    assert segs + [] == segs;
    assert Rows(x, []) == [] && Headings(x, []) == [];
    assert unbroken && st.inTable ==> false;
  }

  // --- a whole document -----------------------------------------------------------------------------------------

  /** The state after the first `n` lines, with its count. */
  lemma {:induction false} CountDocument(x: Syntax, lines: seq<string>, n: nat) returns (st: Md, segs: seq<Segment>)
    requires LinesShow(x) && n <= |lines|
    ensures (st, segs) == After(x, lines, n)
    ensures Counts(x, st, segs, LinesOf(x, lines, n, RowLine), LinesOf(x, lines, n, HeadingLine), AfterRow(x, lines, n),
                   Unbroken(x, lines, n))
  {
    if n == 0 {
      st, segs := NewMd(), [];
    } else {
      st, segs := CountDocument(x, lines, n - 1);
      st, segs := CountNext(x, lines, n - 1, n, st, segs);
    }
  }

  lemma CountNext(x: Syntax, lines: seq<string>, n: nat, next: nat, st: Md, segs: seq<Segment>) returns (st': Md, segs': seq<Segment>)
    requires LinesShow(x) && next == n + 1 <= |lines|
    requires (st, segs) == After(x, lines, n)
    requires Counts(x, st, segs, LinesOf(x, lines, n, RowLine), LinesOf(x, lines, n, HeadingLine), AfterRow(x, lines, n),
                    Unbroken(x, lines, n))
    ensures (st', segs') == After(x, lines, next)
    ensures Counts(x, st', segs', LinesOf(x, lines, next, RowLine), LinesOf(x, lines, next, HeadingLine), AfterRow(x, lines, next),
                   Unbroken(x, lines, next))
  {
    var rows, headings := LinesOf(x, lines, n, RowLine), LinesOf(x, lines, n, HeadingLine);
    var role, m := RoleAt(x, lines, n), ModeAfter(x, lines, n);
    var out;
    ModeIsParser(x, lines, n);
    st', out := OneMoreCounted(x, st, segs, rows, headings, AfterRow(x, lines, n), Unbroken(x, lines, n), lines[n], role, n, m);
    AfterNext(x, lines, n, next, st', out);
    UnbrokenStep(x, lines, n, next);
    LinesNext(x, lines, n, next, role, RowLine);
    LinesNext(x, lines, n, next, role, HeadingLine);
    segs' := segs + out;
  }

  lemma PickNext(roles: nat -> Role, lines: seq<string>, n: nat, next: nat, role: Role)
    requires next == n + 1 <= |lines|
    ensures Pick(roles, lines, next, role) ==
            if roles(n) == role then Pick(roles, lines, n, role) + [lines[n]] else Pick(roles, lines, n, role)
  {
    assert Pick(roles, lines, n, role) + [] == Pick(roles, lines, n, role);
  }

  lemma LinesNext(x: Syntax, lines: seq<string>, n: nat, next: nat, part: Role, role: Role)
    requires next == n + 1 <= |lines| && part == RoleAt(x, lines, n)
    ensures LinesOf(x, lines, next, role) ==
            if part == role then LinesOf(x, lines, n, role) + [lines[n]] else LinesOf(x, lines, n, role)
  {
    PickNext((k: nat) => if k < |lines| then RoleAt(x, lines, k) else OtherLine, lines, n, next, role);
  }

  lemma OneMoreCounted(x: Syntax, st: Md, segs: seq<Segment>, rows: seq<string>, headings: seq<string>, afterRow: bool, unbroken: bool,
                       line: string, role: Role, n: nat, m: Mode)
    returns (st': Md, out: seq<Segment>)
    requires LinesShow(x) && Counts(x, st, segs, rows, headings, afterRow, unbroken)
    requires Agrees(st, n, m) && role == RoleOf(x, m, n == 0, line)
    ensures (st', out) == Feed(x, st, line)
    ensures Counts(x, st', segs + out, if role.RowLine? then rows + [line] else rows,
                   if role.HeadingLine? then headings + [line] else headings,
                   role.RowLine?, unbroken && !(afterRow && (role.HeadingLine? || role.FenceLine?)))
  {
    FeedByRole(x, st, n, m, line);
    CountAs(x, st.(lineNum := n + 1), segs, rows, headings, afterRow, unbroken, line, role);
    st', out := Feed(x, st, line).0, Feed(x, st, line).1;
  }

  lemma UnbrokenStep(x: Syntax, lines: seq<string>, n: nat, next: nat)
    requires next == n + 1 <= |lines|
    ensures Unbroken(x, lines, next) <==> Unbroken(x, lines, n) && !BrokenAt(x, lines, n)
    ensures AfterRow(x, lines, next) == RoleAt(x, lines, n).RowLine?
  {
  }

  /** The end of the document. */
  lemma CountEnd(x: Syntax, st: Md, segs: seq<Segment>, rows: seq<string>, headings: seq<string>, afterRow: bool, unbroken: bool)
    requires LinesShow(x) && Counts(x, st, segs, rows, headings, afterRow, unbroken)
    ensures var out := segs + FlushAll(x, st).1;
      && |Rows(x, TableLines(out))| <= |rows|
      && (!unbroken ==> |Rows(x, TableLines(out))| < |rows|)
      && (unbroken ==> TableLines(out) == rows && ProseHeadings(x, out) == headings)
  {
    if st.inCodeBlock {
      EmitCounts(x, st, segs, CodeBlock, "", "code_block", false);
    } else if st.inFrontMatter {
      EmitCounts(x, st, segs, FrontMatter, "", "section", false);
    } else if st.inTable {
      EmitTable(x, st, segs, rows, headings, afterRow, unbroken);
    } else {
      FlushCounts(x, st, segs, false);
    }
  }

  lemma {:induction false} RowsAreRows(x: Syntax, lines: seq<string>, n: nat)
    requires n <= |lines|
    ensures forall l | l in LinesOf(x, lines, n, RowLine) :: IsRow(x, l)
  {
    if n > 0 {
      RowsAreRows(x, lines, n - 1);
    }
  }

  /** The tables of a document are exactly its rows if and only if no row is followed directly
      by a heading or a fence; and then its headings are exactly those in prose. */
  lemma TablesSurviveIff(x: Syntax, lines: seq<string>)
    requires LinesShow(x)
    ensures TableLines(Parse(x, lines)) == LinesOf(x, lines, |lines|, RowLine) <==> Unbroken(x, lines, |lines|)
    ensures Unbroken(x, lines, |lines|) ==> ProseHeadings(x, Parse(x, lines)) == LinesOf(x, lines, |lines|, HeadingLine)
  {
    var rows := LinesOf(x, lines, |lines|, RowLine);
    var st, segs := CountDocument(x, lines, |lines|);
    CountEnd(x, st, segs, rows, LinesOf(x, lines, |lines|, HeadingLine), AfterRow(x, lines, |lines|), Unbroken(x, lines, |lines|));
    RowsAreRows(x, lines, |lines|);
    FilterAll(l => IsRow(x, l), rows);
  }

  lemma AsciiLinesShow()
    ensures LinesShow(Ascii())
  {
    AsciiRowsShow();
    forall s: string | ParseHeading(s).ok ensures !Blank(s) {
      if Blank(s) {
        BlankIsNothing(s);
      }
    }
  }

  // --- documents that show it -----------------------------------------------------------------------------------

  /** A row, then a heading, then text: the table that comes out is the heading. */
  lemma HeadingBecomesTable(x: Syntax, row: string, heading: string, text: string)
    requires LinesShow(x) && IsRow(x, row) && !x.dashes(row) && IsHeading(x, heading) && IsText(x, text)
    ensures BrokenAt(x, [row, heading, text], 1)
    ensures TableLines(Parse(x, [row, heading, text])) == [heading]
  {
    var lines := [row, heading, text];
    var st1, out1 := FirstRow(x, row);
    AfterNext(x, lines, 0, 1, st1, out1);
    var st2, st3, prose, table := HeadingThenText(x, st1, row, heading, text);
    AfterNext(x, lines, 1, 2, st2, [prose]);
    AfterNext(x, lines, 2, 3, st3, [table]);
    var segs := After(x, lines, 3).1;
    assert segs == [prose, table];
    assert segs[..1] == [prose] && [prose][..0] == [];
    assert TableLines([prose]) == [];
    FlushCounts(x, st3, segs, false);
    assert ModeAfter(x, lines, 0) == Open && RoleAt(x, lines, 0) == RowLine;
    assert ModeAfter(x, lines, 1) == Open && RoleAt(x, lines, 1) == HeadingLine;
  }

  lemma FirstRow(x: Syntax, row: string) returns (st: Md, out: seq<Segment>)
    requires IsRow(x, row) && !x.dashes(row)
    ensures (st, out) == Feed(x, NewMd(), row) && out == []
    ensures st.inTable && st.currentLines == [row] && IsOpen(st) && st.lineNum == 1
  {
    st, out := Feed(x, NewMd(), row).0, Feed(x, NewMd(), row).1;
  }

  lemma HeadingThenText(x: Syntax, st: Md, row: string, heading: string, text: string)
    returns (st1: Md, st2: Md, prose: Segment, table: Segment)
    requires LinesShow(x) && IsRow(x, row) && IsHeading(x, heading) && IsText(x, text)
    requires st.inTable && st.currentLines == [row] && IsOpen(st) && st.lineNum == 1
    ensures (st1, [prose]) == Feed(x, st, heading) && (st2, [table]) == Feed(x, st1, text)
    ensures prose.kind == Prose && table.kind == Table && table.lines == [heading]
    ensures IsOpen(st2) && !st2.inTable
  {
    assert st.currentLines[0] == row && !x.blank(row);
    HeadingAfterTable(x, st, heading, text);
    st1 := Feed(x, st, heading).0;
    st2 := Feed(x, st1, text).0;
    prose, table := Feed(x, st, heading).1[0], Feed(x, st1, text).1[0];
  }

  lemma PlainText(s: string)
    requires s == "text"
    ensures !ParseHeading(s).ok && !ParseFenceOpen(s).ok && !IsTableRow(s)
  {
    TrimNothing(s);
    assert RunOf(s, '#') == 0;
  }

  lemma AsciiHeadingBecomesTable()
    ensures TableLines(Parse(Ascii(), ["|a|", "# H", "text"])) == ["# H"]
  {
    AsciiLinesShow();
    PlainRow("|a|");
    PlainHeading("# H");
    PlainText("text");
    HeadingBecomesTable(Ascii(), "|a|", "# H", "text");
  }
}
