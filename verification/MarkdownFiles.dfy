/**
 A Markdown file from its bytes to its chunks: read as a whole, or line by line.

 `decode` turns the bytes of a line into the text the parser sees.
 */
module MarkdownFiles {
  import opened ByteLines
  import opened Streaming
  import opened ChunkFiles
  import opened MarkdownModel
  import opened MarkdownParser
  import opened MarkdownBlocks

  type Decoder = Bytes -> string

  function Texts(decode: Decoder, lines: seq<Bytes>): (r: seq<string>)
    ensures |r| == |lines| && forall i | 0 <= i < |lines| :: r[i] == decode(lines[i])
  {
    seq(|lines|, i requires 0 <= i < |lines| => decode(lines[i]))
  }

  /** The document of a file's bytes. */
  function Document(decode: Decoder, content: Bytes): seq<string> { Texts(decode, LinesInMemory(content)) }

  /** An empty line is nothing in particular. */
  predicate EmptyIsNothing(x: Syntax, decode: Decoder) {
    decode([]) == "" && x.blank("") && !x.dashes("") && !x.fence("").ok && !x.heading("").ok && !x.row("")
  }

  lemma AsciiEmptyIsNothing(decode: Decoder)
    requires decode([]) == ""
    ensures EmptyIsNothing(Ascii(), decode)
  {
    BlankIsNothing("");
  }

  lemma SameDocument(x: Syntax, decode: Decoder, content: Bytes)
    requires EmptyIsNothing(x, decode)
    ensures Parse(x, Texts(decode, RawLines(StripBOM(content)))) == Parse(x, Document(decode, content))
  {
    var s := StripBOM(content);
    RawLinesAreSplitLines(s);
    if s == [] {
      EmptyDocument(x);
      assert Texts(decode, []) == [] && Texts(decode, [[]]) == [""];
    }
  }

  method ChunkMarkdownFile<S, C>(content: Bytes, decode: Decoder, x: Syntax, em: Emitter<S, C>, e: Emission<S, C>)
    returns (r: Emission<S, C>)
    requires !e.failed
    ensures r == EmitAll(em, e, Parse(x, Document(decode, content)))
  {
    r := ChunkMarkdown(x, Document(decode, content), em, e);
  }

  /** Streaming a file refines chunking it as a whole: unless a line is too long, the same
      chunks come out in the same order, with the same failure at the same place. */
  method StreamMarkdownFile<S, C>(content: Bytes, decode: Decoder, x: Syntax, em: Emitter<S, C>, e: Emission<S, C>)
    returns (tooLong: bool, r: Emission<S, C>)
    requires !e.failed && EmptyIsNothing(x, decode)
    ensures tooLong ==> !StreamAccepts(content, DEFAULT_MAX_LINE) && !r.failed
    ensures !tooLong ==> r == EmitAll(em, e, Parse(x, Document(decode, content)))
    ensures !tooLong && !r.failed ==> StreamAccepts(content, DEFAULT_MAX_LINE)
  {
    var reader := new LineReader(content, DEFAULT_MAX_LINE);
    ghost var all := RawLines(StripBOM(content));
    SameDocument(x, decode, content);
    tooLong, r := StreamLines(reader, all, decode, x, em, e);
  }

  /** The lines of `all` up to the `i`-th are within the limit, and `rest` are the others. */
  ghost predicate ReadUpTo(all: seq<Bytes>, i: nat, rest: seq<Bytes>, maxLine: int) {
    i <= |all| && rest == all[i..] && forall j | 0 <= j < i :: WithinLimit(all[j], j == |all| - 1, maxLine)
  }

  method StreamLines<S, C>(reader: LineReader, ghost all: seq<Bytes>, decode: Decoder, x: Syntax, em: Emitter<S, C>, e: Emission<S, C>)
    returns (tooLong: bool, r: Emission<S, C>)
    requires reader.Holds(all) && !e.failed
    modifies reader
    ensures tooLong ==> !AllWithinLimit(all, reader.maxLine) && !r.failed
    ensures !tooLong ==> r == EmitAll(em, e, Parse(x, Texts(decode, all)))
    ensures !tooLong && !r.failed ==> AllWithinLimit(all, reader.maxLine)
  {
    ghost var lines := Texts(decode, all);
    var st := new MdState();
    ghost var i, rest := 0, all;
    r := e;
    while true
      invariant reader.Holds(rest) && ReadUpTo(all, i, rest, reader.maxLine) && !r.failed
      invariant st.View() == After(x, lines, i).0 && r == EmitAll(em, e, After(x, lines, i).1)
      decreases |all| - i
    {
      var line := reader.ReadLine(rest);
      NextToRead(all, i, rest, reader.maxLine);
      if line.Eof? {
        r := StreamFinish(x, st, lines, em, e, r);
        return false, r;
      }
      if line.TooLong? {
        return true, r;
      }
      ghost var next := i + 1;
      r := StreamLine(x, st, lines, i, next, decode(line.text), em, e, r);
      if r.failed {
        StillFailed(x, lines, next, em, e);
        return false, r;
      }
      i, rest := next, rest[1..];
    }
  }

  /** Either everything has been read, or the next line is the first of the rest. */
  lemma NextToRead(all: seq<Bytes>, i: nat, rest: seq<Bytes>, maxLine: int)
    requires ReadUpTo(all, i, rest, maxLine)
    ensures rest == [] ==> i == |all| && AllWithinLimit(all, maxLine)
    ensures rest != [] ==> i < |all| && rest[0] == all[i] && (|rest| == 1 <==> i == |all| - 1) && rest[1..] == all[i + 1..]
  {
  }
}
