/**
 The Markdown parser object, and chunking a document with it: whole, or as it is read.
 */
module MarkdownParser {
  import opened MarkdownModel

  class MdState {
    var inCodeBlock: bool
    var fenceMarker: char
    var fenceLen: nat
    var inTable: bool
    var inFrontMatter: bool
    var frontMatterDone: bool
    var headingLevel: nat
    var headingStack: seq<string>
    var currentLines: seq<string>
    var currentStart: nat
    var lineNum: nat
    var pendingHeading: string

    ghost function View(): Md
      reads this
    {
      Md(inCodeBlock, fenceMarker, fenceLen, inTable, inFrontMatter, frontMatterDone, headingLevel, headingStack, currentLines,
         currentStart, lineNum, pendingHeading)
    }

    constructor ()
      ensures View() == NewMd()
    {
      inCodeBlock, fenceMarker, fenceLen, inTable := false, '\0', 0, false;
      inFrontMatter, frontMatterDone, headingLevel, headingStack := false, false, 0, [];
      currentLines, currentStart, lineNum, pendingHeading := [], 0, 0, "";
    }

    method Scope() returns (r: string)
      ensures r == ParentScope(View())
    {
      if |headingStack| == 0 {
        return "";
      }
      return "section " + JoinScopes(headingStack);
    }

    method Emit(x: Syntax, kind: Kind, symbolName: string, symbolKind: string, noOverlapNext: bool) returns (out: seq<Segment>)
      modifies this
      ensures (View(), out) == EmitCurrent(x, old(View()), kind, symbolName, symbolKind, noOverlapNext)
    {
      if |currentLines| == 0 {
        return [];
      }
      if AllBlank(x, currentLines) {
        currentLines := [];
        headingLevel := 0;
        return [];
      }
      var name := symbolName;
      if symbolName == "" && pendingHeading != "" && kind == Prose {
        name := pendingHeading;
        pendingHeading := "";
      }
      var scope := Scope();
      var seg := Segment(kind, currentLines, currentStart, name, symbolKind, scope, noOverlapNext);
      currentLines := [];
      if kind == Prose && symbolKind == "section" {
        headingLevel := 0;
      }
      return [seg];
    }

    method Flush(x: Syntax, noOverlapNext: bool) returns (out: seq<Segment>)
      modifies this
      ensures (View(), out) == FlushProse(x, old(View()), noOverlapNext)
    {
      if |currentLines| == 0 {
        return [];
      }
      var symbolName := "";
      var symbolKind := "paragraph";
      if headingLevel > 0 && x.hash(currentLines[0]) {
        symbolName := x.heading(currentLines[0]).title;
        symbolKind := "section";
        pendingHeading := "";
      } else if pendingHeading != "" {
        symbolName := pendingHeading;
        symbolKind := "section";
        pendingHeading := "";
      }
      out := Emit(x, Prose, symbolName, symbolKind, noOverlapNext);
    }

    method FeedLine(x: Syntax, line: string) returns (out: seq<Segment>)
      modifies this
      ensures (View(), out) == Feed(x, old(View()), line)
    {
      lineNum := lineNum + 1;
      if inFrontMatter {
        currentLines := currentLines + [line];
        if x.dashes(line) && |currentLines| > 1 {
          out := Emit(x, FrontMatter, "", "section", false);
          inFrontMatter := false;
          frontMatterDone := true;
          return;
        }
        return [];
      }
      if !frontMatterDone && lineNum == 1 && x.dashes(line) {
        inFrontMatter := true;
        currentStart := lineNum;
        currentLines := [line];
        return [];
      }
      if inCodeBlock {
        out := FeedCodeLine(x, line);
        return;
      }
      out := FeedBlockLine(x, line);
    }

    method FeedCodeLine(x: Syntax, line: string) returns (out: seq<Segment>)
      modifies this
      ensures (View(), out) == FeedCode(x, old(View()), line)
    {
      if x.closes(line, fenceMarker, fenceLen) {
        currentLines := currentLines + [line];
        out := Emit(x, CodeBlock, "", "code_block", false);
        inCodeBlock := false;
        fenceMarker := '\0';
        fenceLen := 0;
        return;
      }
      currentLines := currentLines + [line];
      return [];
    }

    method FeedBlockLine(x: Syntax, line: string) returns (out: seq<Segment>)
      modifies this
      ensures (View(), out) == FeedBlock(x, old(View()), line)
    {
      var fence := x.fence(line);
      if fence.ok {
        out := Flush(x, false);
        inCodeBlock := true;
        fenceMarker := fence.marker;
        fenceLen := fence.len;
        currentStart := lineNum;
        currentLines := [line];
        return;
      }
      var heading := x.heading(line);
      if heading.ok {
        out := Flush(x, true);
        headingLevel := heading.level;
        headingStack := UpdateHeadingStack(headingStack, heading.level, heading.title);
        currentStart := lineNum;
        currentLines := [line];
        pendingHeading := heading.title;
        return;
      }
      out := FeedTextLine(x, line);
    }

    method FeedTextLine(x: Syntax, line: string) returns (out: seq<Segment>)
      modifies this
      ensures (View(), out) == if x.row(line) then FeedTableRow(x, old(View()), line) else FeedText(x, old(View()), line)
    {
      if x.row(line) {
        if !inTable {
          out := Flush(x, false);
          inTable := true;
          currentStart := lineNum;
          currentLines := [line];
          return;
        }
        currentLines := currentLines + [line];
        return [];
      }
      out := [];
      if inTable {
        out := Emit(x, Table, "", "paragraph", false);
        inTable := false;
      }
      if |currentLines| == 0 {
        currentStart := lineNum;
      }
      if x.blank(line) && |currentLines| == 0 {
        return;
      }
      assert currentLines == [] ==> currentLines + [line] == [line];
      currentLines := currentLines + [line];
    }

    method Finish(x: Syntax) returns (out: seq<Segment>)
      modifies this
      ensures (View(), out) == FlushAll(x, old(View()))
    {
      if inCodeBlock {
        out := Emit(x, CodeBlock, "", "code_block", false);
        inCodeBlock := false;
      } else if inFrontMatter {
        out := Emit(x, FrontMatter, "", "section", false);
        inFrontMatter := false;
      } else if inTable {
        out := Emit(x, Table, "", "paragraph", false);
        inTable := false;
      } else {
        out := Flush(x, false);
      }
    }
  }

  // --- emitting chunks --------------------------------------------------------------------

  /** An emitter's state, the chunks it has handed out, and whether the callback failed. */
  datatype Emission<S, C> = Emission(state: S, chunks: seq<C>, failed: bool)

  /** One segment's effect: the emitter is an arbitrary state machine. */
  type Emitter<!S, !C> = (S, Segment) -> Emission<S, C>

  /** Emits segments one by one until the callback fails. */
  function EmitAll<S, C>(em: Emitter<S, C>, e: Emission<S, C>, segs: seq<Segment>): Emission<S, C>
    decreases |segs|
  {
    if segs == [] || e.failed then e else
      var one := em(e.state, segs[0]);
      EmitAll(em, Emission(one.state, e.chunks + one.chunks, one.failed), segs[1..])
  }

  lemma {:induction false} EmitAllConcat<S, C>(em: Emitter<S, C>, e: Emission<S, C>, a: seq<Segment>, b: seq<Segment>)
    ensures EmitAll(em, e, a + b) == EmitAll(em, EmitAll(em, e, a), b)
    decreases |a|
  {
    if a == [] {
      assert a + b == b;
    } else if !e.failed {
      var one := em(e.state, a[0]);
      EmitAllConcat(em, Emission(one.state, e.chunks + one.chunks, one.failed), a[1..], b);
      assert (a + b)[1..] == a[1..] + b;
    }
  }

  method EmitSegments<S, C>(em: Emitter<S, C>, e: Emission<S, C>, segs: seq<Segment>) returns (r: Emission<S, C>)
    ensures r == EmitAll(em, e, segs)
  {
    r := e;
    var i := 0;
    while i < |segs| && !r.failed
      invariant i <= |segs| && EmitAll(em, r, segs[i..]) == EmitAll(em, e, segs)
    {
      assert segs[i..][1..] == segs[i + 1..];
      var one := em(r.state, segs[i]);
      r := Emission(one.state, r.chunks + one.chunks, one.failed);
      i := i + 1;
    }
  }

  /** Parses the whole document, then emits. */
  method ChunkMarkdown<S, C>(x: Syntax, lines: seq<string>, em: Emitter<S, C>, e: Emission<S, C>) returns (r: Emission<S, C>)
    requires !e.failed
    ensures r == EmitAll(em, e, Parse(x, lines))
  {
    var st := new MdState();
    var segments: seq<Segment> := [];
    for i := 0 to |lines|
      invariant (st.View(), segments) == After(x, lines, i)
    {
      var segs := st.FeedLine(x, lines[i]);
      segments := segments + segs;
    }
    var segs := st.Finish(x);
    segments := segments + segs;
    r := EmitSegments(em, e, segments);
  }

  /** One line: its segments are emitted at once. */
  method StreamLine<S, C>(x: Syntax, st: MdState, ghost lines: seq<string>, ghost i: nat, ghost next: nat, line: string,
                          em: Emitter<S, C>, ghost e: Emission<S, C>, r: Emission<S, C>)
    returns (r': Emission<S, C>)
    requires next == i + 1 <= |lines| && line == lines[i]
    requires st.View() == After(x, lines, i).0 && r == EmitAll(em, e, After(x, lines, i).1)
    modifies st
    ensures st.View() == After(x, lines, next).0 && r' == EmitAll(em, e, After(x, lines, next).1)
  {
    var segs := st.FeedLine(x, line);
    AfterNext(x, lines, i, next, st.View(), segs);
    EmitAllConcat(em, e, After(x, lines, i).1, segs);
    r' := EmitSegments(em, r, segs);
  }

  /** Emits what each line completes before reading the next one; stops at a failure. */
  method StreamMarkdown<S, C>(x: Syntax, lines: seq<string>, em: Emitter<S, C>, e: Emission<S, C>) returns (r: Emission<S, C>)
    requires !e.failed
    ensures r == EmitAll(em, e, Parse(x, lines))
  {
    var st := new MdState();
    r := e;
    var i := 0;
    while i < |lines|
      invariant i <= |lines| && st.View() == After(x, lines, i).0 && !r.failed
      invariant r == EmitAll(em, e, After(x, lines, i).1)
    {
      var next := i + 1;
      r := StreamLine(x, st, lines, i, next, lines[i], em, e, r);
      i := next;
      if r.failed {
        StillFailed(x, lines, i, em, e);
        return;
      }
    }
    r := StreamFinish(x, st, lines, em, e, r);
  }

  method StreamFinish<S, C>(x: Syntax, st: MdState, ghost lines: seq<string>, em: Emitter<S, C>, ghost e: Emission<S, C>,
                            r: Emission<S, C>)
    returns (r': Emission<S, C>)
    requires st.View() == After(x, lines, |lines|).0 && r == EmitAll(em, e, After(x, lines, |lines|).1)
    modifies st
    ensures r' == EmitAll(em, e, Parse(x, lines))
  {
    var segs := st.Finish(x);
    EmitAllConcat(em, e, After(x, lines, |lines|).1, segs);
    r' := EmitSegments(em, r, segs);
  }

  /** The segments of a whole document begin with those of its first lines. */
  lemma {:induction false} ParseExtends(x: Syntax, lines: seq<string>, i: nat) returns (tail: seq<Segment>)
    requires i <= |lines|
    ensures Parse(x, lines) == After(x, lines, i).1 + tail
    decreases |lines| - i
  {
    if i == |lines| {
      tail := FlushAll(x, After(x, lines, i).0).1;
    } else {
      var next := i + 1;
      var more := ParseExtends(x, lines, next);
      tail := ExtendsStep(x, lines, i, next, more);
    }
  }

  lemma ExtendsStep(x: Syntax, lines: seq<string>, i: nat, next: nat, more: seq<Segment>) returns (tail: seq<Segment>)
    requires next == i + 1 <= |lines|
    ensures After(x, lines, next).1 + more == After(x, lines, i).1 + tail
  {
    var r := Feed(x, After(x, lines, i).0, lines[i]);
    AfterNext(x, lines, i, next, r.0, r.1);
    tail := r.1 + more;
  }

  /** What has failed on part of a document stays as it is on all of it. */
  lemma StillFailed<S, C>(x: Syntax, lines: seq<string>, i: nat, em: Emitter<S, C>, e: Emission<S, C>)
    requires i <= |lines| && EmitAll(em, e, After(x, lines, i).1).failed
    ensures EmitAll(em, e, Parse(x, lines)) == EmitAll(em, e, After(x, lines, i).1)
  {
    var tail := ParseExtends(x, lines, i);
    EmitAllConcat(em, e, After(x, lines, i).1, tail);
  }

  /** A file without any line and one with a single empty line have no segment. */
  lemma EmptyDocument(x: Syntax)
    requires x.blank("") && !x.dashes("") && !x.fence("").ok && !x.heading("").ok && !x.row("")
    ensures Parse(x, []) == [] && Parse(x, [""]) == []
  {
    var r := Feed(x, NewMd(), "");
    assert r.1 == [] && r.0.currentLines == [] && !r.0.inTable && !r.0.inCodeBlock && !r.0.inFrontMatter;
    assert After(x, [""], 0) == (NewMd(), []);
    assert After(x, [""], 1) == (r.0, [] + r.1);
  }
}
