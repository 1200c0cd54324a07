/** Bytes, lines and line endings. */
module ByteLines {
  newtype Byte = b: int | 0 <= b < 256
  type Bytes = seq<Byte>

  const LF: Byte := 10
  const CR: Byte := 13
  const BOM: Bytes := [0xEF, 0xBB, 0xBF]

  // --- joining ----------------------------------------------------------------------

  /** The lines joined by line feeds. */
  function Join(lines: seq<Bytes>): Bytes {
    if lines == [] then [] else if |lines| == 1 then lines[0] else lines[0] + [LF] + Join(lines[1..])
  }

  /** Byte offset of line `i` in the joined text. */
  function Offset(lines: seq<Bytes>, i: nat): nat
    requires i <= |lines|
  {
    if i == 0 then 0 else Offset(lines, i - 1) + |lines[i - 1]| + 1
  }

  lemma {:induction false} OffsetTail(lines: seq<Bytes>, i: nat)
    requires 0 < i <= |lines|
    ensures Offset(lines, i) == |lines[0]| + 1 + Offset(lines[1..], i - 1)
  {
    if i > 1 {
      OffsetTail(lines, i - 1);
    }
  }

  lemma {:induction false} JoinStartsWith(a: seq<Bytes>, b: seq<Bytes>)
    requires a != [] && b != []
    ensures Join(a + b) == Join(a) + [LF] + Join(b)
  {
    assert (a + b)[0] == a[0] && (a + b)[1..] == a[1..] + b;
    if |a| == 1 {
      assert a[1..] + b == b;
    } else {
      JoinStartsWith(a[1..], b);
      assert a[0] + [LF] + (Join(a[1..]) + [LF] + Join(b)) == a[0] + [LF] + Join(a[1..]) + [LF] + Join(b);
    }
  }

  lemma {:induction false} JoinLength(lines: seq<Bytes>)
    requires lines != []
    ensures |Join(lines)| + 1 == Offset(lines, |lines|)
  {
    OffsetTail(lines, |lines|);
    if |lines| > 1 {
      JoinLength(lines[1..]);
    }
  }

  lemma {:induction false} OffsetPrefix(lines: seq<Bytes>, n: nat, i: nat)
    requires i <= n <= |lines|
    ensures Offset(lines[..n], i) == Offset(lines, i)
  {
    if i > 0 {
      OffsetPrefix(lines, n, i - 1);
    }
  }

  lemma JoinDrop(lines: seq<Bytes>, s: nat)
    requires s < |lines|
    ensures Offset(lines, s) <= |Join(lines)| && Join(lines)[Offset(lines, s)..] == Join(lines[s..])
  {
    var head, from := lines[..s], lines[s..];
    assert head + from == lines;
    if s > 0 {
      JoinStartsWith(head, from);
      JoinLength(head);
      OffsetPrefix(lines, s, s);
      assert Join(lines) == (Join(head) + [LF]) + Join(from);
    } else {
      assert from == lines;
    }
  }

  /** Lines `s` up to `e` joined are the joined text from `s`'s offset on. */
  lemma JoinSlice(lines: seq<Bytes>, s: nat, e: nat)
    requires s < e <= |lines|
    ensures Offset(lines, s) + |Join(lines[s..e])| <= |Join(lines)|
    ensures Join(lines)[Offset(lines, s)..Offset(lines, s) + |Join(lines[s..e])|] == Join(lines[s..e])
  {
    JoinDrop(lines, s);
    PrefixOfJoin(lines[s..], e - s);
    assert lines[s..][..e - s] == lines[s..e];
    TakeOfDrop(Join(lines), Offset(lines, s), Join(lines[s..e]));
  }

  lemma TakeOfDrop(text: Bytes, at: nat, part: Bytes)
    requires at <= |text| && part <= text[at..]
    ensures at + |part| <= |text| && text[at..at + |part|] == part
  {
  }

  lemma PrefixOfJoin(lines: seq<Bytes>, n: nat)
    requires 0 < n <= |lines|
    ensures Join(lines[..n]) <= Join(lines)
  {
    var a, b := lines[..n], lines[n..];
    assert a + b == lines;
    JoinOfTwo(a, b, lines);
  }

  lemma JoinOfTwo(a: seq<Bytes>, b: seq<Bytes>, lines: seq<Bytes>)
    requires a != [] && lines == a + b
    ensures Join(a) <= Join(lines)
  {
    if b == [] {
      assert a + b == a;
    } else {
      JoinStartsWith(a, b);
      PrefixOfSum(Join(a), Join(b));
    }
  }

  lemma PrefixOfSum(a: Bytes, b: Bytes)
    ensures a <= a + [LF] + b
  {
  }

  // --- line endings ------------------------------------------------------------------

  function StripBOM(s: Bytes): Bytes {
    if |s| >= 3 && s[..3] == BOM then s[3..] else s
  }

  function ReplaceCRLF(s: Bytes): Bytes {
    if s == [] then []
    else if |s| >= 2 && s[0] == CR && s[1] == LF then [LF] + ReplaceCRLF(s[2..])
    else [s[0]] + ReplaceCRLF(s[1..])
  }

  function ReplaceCR(s: Bytes): Bytes {
    if s == [] then [] else [if s[0] == CR then LF else s[0]] + ReplaceCR(s[1..])
  }

  function NormalizeLineEndings(s: Bytes): Bytes { ReplaceCR(ReplaceCRLF(s)) }

  /** Splitting at line feeds: always at least one line. */
  function SplitLF(s: Bytes): (lines: seq<Bytes>)
    ensures lines != []
  {
    if s == [] then [[]]
    else
      var rest := SplitLF(s[1..]);
      if s[0] == LF then [[]] + rest else [[s[0]] + rest[0]] + rest[1..]
  }

  predicate NoBreak(s: Bytes) { forall i | 0 <= i < |s| :: s[i] != LF && s[i] != CR }

  lemma {:induction false} SplitOneLine(p: Bytes, s: Bytes)
    requires NoBreak(p)
    ensures SplitLF(p) == [p] && SplitLF(p + [LF] + s) == [p] + SplitLF(s)
  {
    if p == [] {
      assert p + [LF] + s == [LF] + s;
    } else {
      SplitOneLine(p[1..], s);
      assert (p + [LF] + s)[1..] == p[1..] + [LF] + s;
      assert [p[0]] + p[1..] == p;
    }
  }

  lemma NormalizeStep(s: Bytes)
    ensures s != [] && s[0] != CR ==> NormalizeLineEndings(s) == [s[0]] + NormalizeLineEndings(s[1..])
    ensures s != [] && s[0] == CR ==>
      NormalizeLineEndings(s) == [LF] + NormalizeLineEndings(s[if |s| >= 2 && s[1] == LF then 2 else 1..])
  {
    if s != [] {
      var n := if |s| >= 2 && s[0] == CR && s[1] == LF then 2 else 1;
      var first := if n == 2 then LF else s[0];
      assert ReplaceCRLF(s) == [first] + ReplaceCRLF(s[n..]);
      assert ([first] + ReplaceCRLF(s[n..]))[1..] == ReplaceCRLF(s[n..]);
    }
  }

  lemma {:induction false} NormalizePrefix(p: Bytes, s: Bytes)
    requires NoBreak(p)
    ensures NormalizeLineEndings(p + s) == p + NormalizeLineEndings(s)
  {
    if p == [] {
      assert p + s == s;
    } else {
      NormalizePrefix(p[1..], s);
      NormalizeStep(p + s);
      assert (p + s)[1..] == p[1..] + s;
      assert [p[0]] + (p[1..] + NormalizeLineEndings(s)) == p + NormalizeLineEndings(s);
    }
  }

  // --- the lines a reader meets ---------------------------------------------------------

  /** Index of the first line break, or the length. */
  function FirstBreak(s: Bytes): (k: nat)
    ensures k <= |s| && NoBreak(s[..k]) && (k < |s| ==> s[k] == LF || s[k] == CR)
  {
    if s == [] || s[0] == LF || s[0] == CR then 0
    else
      var k := FirstBreak(s[1..]);
      assert s[..k + 1] == [s[0]] + s[1..][..k];
      k + 1
  }

  /** Length of the line break at `k`. */
  function BreakLength(s: Bytes, k: nat): (n: nat)
    requires k < |s|
    ensures 1 <= n <= |s| - k
  {
    if s[k] == CR && k + 1 < |s| && s[k + 1] == LF then 2 else 1
  }

  /** The lines of the raw bytes: none when empty, and an empty one after a final break. */
  function RawLines(s: Bytes): seq<Bytes>
    decreases |s|, 0
  {
    if s == [] then []
    else
      var k := FirstBreak(s);
      if k == |s| then [s] else [s[..k]] + AfterBreak(s[k + BreakLength(s, k)..])
  }

  function AfterBreak(s: Bytes): seq<Bytes>
    decreases |s|, 1
  {
    if s == [] then [[]] else RawLines(s)
  }

  lemma BreakIsFirst(s: Bytes, i: nat)
    requires i < |s| && i <= FirstBreak(s) && (s[i] == LF || s[i] == CR)
    ensures FirstBreak(s) == i
  {
    var k := FirstBreak(s);
    assert forall j | 0 <= j < k :: s[j] == s[..k][j];
  }

  /** The first of the raw lines and those after it. */
  lemma FirstRawLine(s: Bytes)
    requires s != []
    ensures var k := FirstBreak(s);
            && RawLines(s) != [] && RawLines(s)[0] == s[..k] && (|RawLines(s)| == 1 <==> k == |s|)
            && RawLines(s)[1..] == if k == |s| then [] else AfterBreak(s[k + BreakLength(s, k)..])
  {
    var k := FirstBreak(s);
    if k < |s| {
      RawLinesAreSplitLines(s[k + BreakLength(s, k)..]);
    }
  }

  lemma LinesAfterFirst(s: Bytes, tail: Bytes)
    requires FirstBreak(s) < |s| && tail == s[FirstBreak(s) + BreakLength(s, FirstBreak(s))..]
    ensures RawLines(s)[1..] == if tail == [] then [[]] else RawLines(tail)
  {
    FirstRawLine(s);
  }

  /** The first line of a text and what the rest normalises to. */
  lemma SplitAtBreak(p: Bytes, rest: Bytes, tail: Bytes)
    requires NoBreak(p) && NormalizeLineEndings(rest) == [LF] + NormalizeLineEndings(tail)
    ensures SplitLF(NormalizeLineEndings(p + rest)) == [p] + SplitLF(NormalizeLineEndings(tail))
  {
    var after := NormalizeLineEndings(tail);
    NormalizePrefix(p, rest);
    SplitOneLine(p, after);
    assert p + ([LF] + after) == p + [LF] + after;
  }

  lemma BreakNormalises(rest: Bytes, n: nat, tail: Bytes)
    requires rest != [] && (rest[0] == LF || rest[0] == CR) && n == BreakLength(rest, 0) && tail == rest[n..]
    ensures NormalizeLineEndings(rest) == [LF] + NormalizeLineEndings(tail)
  {
    NormalizeStep(rest);
  }

  /** Reading raw bytes line by line gives the lines of the normalised text. */
  lemma {:induction false} RawLinesAreSplitLines(s: Bytes)
    ensures s != [] ==> RawLines(s) == SplitLF(NormalizeLineEndings(s))
    ensures AfterBreak(s) == SplitLF(NormalizeLineEndings(s))
  {
    if s != [] {
      var k := FirstBreak(s);
      if k == |s| {
        assert s[..k] == s && s + [] == s;
        NormalizePrefix(s, []);
        SplitOneLine(s, []);
      } else {
        var n := BreakLength(s, k);
        assert s == s[..k] + s[k..] && s[k..][n..] == s[k + n..];
        BreakNormalises(s[k..], n, s[k + n..]);
        SplitAtBreak(s[..k], s[k..], s[k + n..]);
        RawLinesAreSplitLines(s[k + n..]);
      }
    }
  }
}
