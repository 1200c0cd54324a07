/**
 The part each line of a Markdown document plays, read off the lines alone: only front
 matter and fences decide how later lines are read.
 */
module MarkdownRoles {
  import opened MarkdownModel

  datatype Role = FrontLine | CodeLine | FenceLine | HeadingLine | RowLine | OtherLine

  /** Where the next line stands: outside, in front matter, or in a block that a fence opened. */
  datatype Mode = Open | Front | Code(marker: char, len: nat)

  function RoleOf(x: Syntax, m: Mode, first: bool, line: string): Role {
    match m
    case Front => FrontLine
    case Code(_, _) => CodeLine
    case Open =>
      if first && x.dashes(line) then FrontLine
      else if x.fence(line).ok then FenceLine
      else if x.heading(line).ok then HeadingLine
      else if x.row(line) then RowLine
      else OtherLine
  }

  function NextMode(x: Syntax, m: Mode, first: bool, line: string): Mode {
    match m
    case Front => if x.dashes(line) then Open else Front
    case Code(marker, len) => if x.closes(line, marker, len) then Open else m
    case Open =>
      if first && x.dashes(line) then Front
      else if x.fence(line).ok then Code(x.fence(line).marker, x.fence(line).len)
      else Open
  }

  function ModeAfter(x: Syntax, lines: seq<string>, n: nat): Mode
    requires n <= |lines|
  {
    if n == 0 then Open else NextMode(x, ModeAfter(x, lines, n - 1), n == 1, lines[n - 1])
  }

  function RoleAt(x: Syntax, lines: seq<string>, k: nat): Role
    requires k < |lines|
  {
    RoleOf(x, ModeAfter(x, lines, k), k == 0, lines[k])
  }

  predicate Interrupts(role: Role) { role.FenceLine? || role.CodeLine? || role.HeadingLine? }

  /** The nearest of the first `n` lines that is no fence, code or heading is a row. */
  predicate RowsPending(x: Syntax, lines: seq<string>, n: nat)
    requires n <= |lines|
  {
    n > 0 && (RoleAt(x, lines, n - 1).RowLine? || (Interrupts(RoleAt(x, lines, n - 1)) && RowsPending(x, lines, n - 1)))
  }

  lemma {:induction false} RowsPendingIff(x: Syntax, lines: seq<string>, n: nat)
    requires n <= |lines|
    ensures RowsPending(x, lines, n) <==>
            exists j: nat :: j < n && RoleAt(x, lines, j).RowLine? && forall i | j < i < n :: Interrupts(RoleAt(x, lines, i))
  {
    if n > 0 {
      RowsPendingIff(x, lines, n - 1);
      if RowsPending(x, lines, n - 1) && Interrupts(RoleAt(x, lines, n - 1)) {
        var j: nat :| j < n - 1 && RoleAt(x, lines, j).RowLine? && forall i | j < i < n - 1 :: Interrupts(RoleAt(x, lines, i));
        assert forall i | j < i < n :: Interrupts(RoleAt(x, lines, i));
      }
      if j: nat :| j < n && RoleAt(x, lines, j).RowLine? && forall i | j < i < n :: Interrupts(RoleAt(x, lines, i)) {
        if j < n - 1 {
          assert Interrupts(RoleAt(x, lines, n - 1));
          assert forall i | j < i < n - 1 :: Interrupts(RoleAt(x, lines, i));
        }
      }
    }
  }

  /** A row right after a code block, with only code, fences and headings between it and a row. */
  predicate OrphanRow(x: Syntax, lines: seq<string>, k: nat)
    requires k < |lines|
  {
    && RoleAt(x, lines, k).RowLine? && k > 0 && RoleAt(x, lines, k - 1).CodeLine?
    && RowsPending(x, lines, k)
  }

  predicate NoOrphanRow(x: Syntax, lines: seq<string>, n: nat)
    requires n <= |lines|
  {
    forall k: nat | k < n :: !OrphanRow(x, lines, k)
  }

  // --- the parser keeps to it ------------------------------------------------------------------

  /** The parser's flags say what the mode says. */
  predicate Agrees(st: Md, n: nat, m: Mode) {
    && st.lineNum == n && (n == 0 ==> st == NewMd())
    && match m
       case Open => !st.inFrontMatter && !st.inCodeBlock
       case Front => n > 0 && st.inFrontMatter && !st.inCodeBlock && st.currentLines != []
       case Code(marker, len) => n > 0 && !st.inFrontMatter && st.inCodeBlock && st.fenceMarker == marker && st.fenceLen == len
  }

  /** What the parser holds: a table flag that is up exactly when rows are pending, nothing
      right after a code block, and something right after a row or a heading. */
  predicate Carries(st: Md, m: Mode, last: Role, pending: bool) {
    && st.inTable == pending
    && (m.Open? && last.CodeLine? ==> st.currentLines == [])
    && (m.Open? && (last.RowLine? || last.HeadingLine?) ==> st.currentLines != [])
    && (m.Open? ==> !last.FenceLine?) && (m.Front? ==> last.FrontLine?)
    && (last.OtherLine? || last.FrontLine? ==> !pending)
  }

  function FeedAs(x: Syntax, st: Md, line: string, role: Role): (Md, seq<Segment>) {
    match role
    case FrontLine => if st.inFrontMatter then FeedFrontMatter(x, st, line) else (Start(st.(inFrontMatter := true), line), [])
    case CodeLine => FeedCode(x, st, line)
    case FenceLine => FeedFence(x, st, line)
    case HeadingLine => FeedHeading(x, st, line)
    case RowLine => FeedTableRow(x, st, line)
    case OtherLine => FeedText(x, st, line)
  }

  /** The dispatch follows the part a line plays. */
  lemma FeedByRole(x: Syntax, st: Md, n: nat, m: Mode, line: string)
    requires Agrees(st, n, m)
    ensures Feed(x, st, line) == FeedAs(x, st.(lineNum := n + 1), line, RoleOf(x, m, n == 0, line))
  {
  }

  lemma FeedAgrees(x: Syntax, st: Md, n: nat, m: Mode, line: string, last: Role, pending: bool)
    requires Agrees(st, n, m) && (if n == 0 then !pending else Carries(st, m, last, pending))
    ensures var role := RoleOf(x, m, n == 0, line);
            var m' := NextMode(x, m, n == 0, line);
            var st' := FeedAs(x, st.(lineNum := n + 1), line, role).0;
            Agrees(st', n + 1, m') && Carries(st', m', role, role.RowLine? || (Interrupts(role) && pending))
  {
    match RoleOf(x, m, n == 0, line)
    case FrontLine =>
    case CodeLine =>
    case FenceLine =>
    case HeadingLine =>
    case RowLine =>
    case OtherLine =>
  }

  /** In every document the parser's flags are what the lines read so far say. */
  lemma {:induction false} ModeIsParser(x: Syntax, lines: seq<string>, n: nat)
    requires n <= |lines|
    ensures var st := After(x, lines, n).0;
            && Agrees(st, n, ModeAfter(x, lines, n))
            && (if n == 0 then !RowsPending(x, lines, n)
                else Carries(st, ModeAfter(x, lines, n), RoleAt(x, lines, n - 1), RowsPending(x, lines, n)))
  {
    if n == 0 {
      assert After(x, lines, 0) == (NewMd(), []);
    } else {
      ModeIsParser(x, lines, n - 1);
      var st, m := After(x, lines, n - 1).0, ModeAfter(x, lines, n - 1);
      var last := if n == 1 then OtherLine else RoleAt(x, lines, n - 2);
      FeedByRole(x, st, n - 1, m, lines[n - 1]);
      FeedAgrees(x, st, n - 1, m, lines[n - 1], last, RowsPending(x, lines, n - 1));
      var r := FeedAs(x, st.(lineNum := n), lines[n - 1], RoleAt(x, lines, n - 1));
      AfterNext(x, lines, n - 1, n, r.0, r.1);
    }
  }
}
