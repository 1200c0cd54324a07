/**
 What the recognisers of Markdown lines recognise, told by how such a line is written.
 */
module MarkdownLines {
  import opened ProseText
  import opened MarkdownModel

  function Rep(c: char, n: nat): (s: string)
    ensures |s| == n && forall i | 0 <= i < n :: s[i] == c
  {
    seq(n, _ => c)
  }

  predicate NoSpaceAround(s: string) { s != "" && !IsSpace(s[0]) && !IsSpace(s[|s| - 1]) }

  // --- trimming what was written around a text -----------------------------------------------

  lemma {:induction false} LeadingIs(lead: string, rest: string)
    requires Blank(lead) && (rest != "" ==> !IsSpace(rest[0]))
    ensures LeadingSpaces(lead + rest) == |lead|
  {
    if lead == "" {
      assert lead + rest == rest;
    } else {
      assert (lead + rest)[1..] == lead[1..] + rest && IsSpace(lead[0]);
      forall i | 0 <= i < |lead[1..]| ensures IsSpace(lead[1..][i]) {
        assert lead[1..][i] == lead[i + 1];
      }
      LeadingIs(lead[1..], rest);
    }
  }

  lemma {:induction false} ContentIs(text: string, trail: string)
    requires Blank(trail) && (text != "" ==> !IsSpace(text[|text| - 1]))
    ensures ContentEnd(text + trail) == |text|
  {
    if trail == "" {
      assert text + trail == text;
    } else {
      var n := |trail| - 1;
      assert (text + trail)[..|text| + n] == text + trail[..n] && IsSpace(trail[n]);
      ContentIs(text, trail[..n]);
    }
  }

  lemma TrimIs(lead: string, text: string, trail: string)
    requires Blank(lead) && Blank(trail) && NoSpaceAround(text)
    ensures TrimSpace(lead + text + trail) == text
  {
    var s := lead + text + trail;
    assert s == lead + (text + trail);
    assert (text + trail)[0] == text[0];
    LeadingIs(lead, text + trail);
    assert s[|lead|..] == text + trail;
    ContentIs(text, trail);
    assert (text + trail)[..|text|] == text;
  }

  /** A line is what was trimmed off, the trimmed text, and what was trimmed off behind. */
  lemma TrimSplits(s: string) returns (lead: string, trail: string)
    ensures s == lead + TrimSpace(s) + trail && Blank(lead) && Blank(trail)
    ensures TrimSpace(s) != "" ==> NoSpaceAround(TrimSpace(s))
  {
    TrimSpaceAt(s);
    var n := LeadingSpaces(s);
    var m := n + |TrimSpace(s)|;
    lead, trail := s[..n], s[m..];
    assert s == s[..n] + s[n..m] + s[m..];
  }

  lemma {:induction false} RunIs(s: string, c: char, n: nat)
    requires n <= |s| && (forall i | 0 <= i < n :: s[i] == c) && (n < |s| ==> s[n] != c)
    ensures RunOf(s, c) == n
  {
    if n > 0 {
      forall i | 0 <= i < n - 1 ensures s[1..][i] == c {
        assert s[1..][i] == s[i + 1];
      }
      RunIs(s[1..], c, n - 1);
    }
  }

  // --- headings ----------------------------------------------------------------------------------

  /** One to six hashes, a space, and a title, with more space around them or none. */
  ghost predicate WrittenHeading(line: string, level: nat, title: string) {
    && 1 <= level <= 6 && NoSpaceAround(title)
    && exists lead: string, gap: string, trail: string :: Spaced(line, lead, Rep('#', level) + " ", gap, title, trail)
  }

  ghost predicate Spaced(line: string, lead: string, mark: string, gap: string, title: string, trail: string) {
    line == lead + (mark + gap + title) + trail && Blank(lead) && Blank(gap) && Blank(trail)
  }

  lemma HeadingIff(line: string, level: nat, title: string)
    ensures ParseHeading(line) == Heading(level, title, true) <==> WrittenHeading(line, level, title)
  {
    if WrittenHeading(line, level, title) {
      var lead, gap, trail :| Spaced(line, lead, Rep('#', level) + " ", gap, title, trail);
      HeadingParses(line, level, title, lead, gap, trail);
    }
    if ParseHeading(line) == Heading(level, title, true) {
      HeadingIsWritten(line, level, title);
    }
  }

  lemma HeadingParses(line: string, level: nat, title: string, lead: string, gap: string, trail: string)
    requires 1 <= level <= 6 && NoSpaceAround(title) && Spaced(line, lead, Rep('#', level) + " ", gap, title, trail)
    ensures ParseHeading(line) == Heading(level, title, true)
  {
    var mark := Rep('#', level) + " ";
    var core := mark + gap + title;
    CoreIsTight(mark, gap, title);
    TrimIs(lead, core, trail);
    CoreRuns(level, gap, title);
    assert gap + title + "" == gap + title;
    TrimIs(gap, title, "");
  }

  lemma CoreIsTight(mark: string, gap: string, title: string)
    requires mark != "" && mark[0] == '#' && NoSpaceAround(title)
    ensures NoSpaceAround(mark + gap + title)
  {
    var core := mark + gap + title;
    assert core[0] == mark[0] && core[|core| - 1] == title[|title| - 1];
  }

  lemma CoreRuns(level: nat, gap: string, title: string)
    requires 1 <= level
    ensures var core := Rep('#', level) + " " + gap + title;
            level < |core| && RunOf(core, '#') == level && core[level] == ' ' && core[level + 1..] == gap + title
  {
    var core := Rep('#', level) + " " + gap + title;
    assert core[level] == ' ' && forall i | 0 <= i < level :: core[i] == '#';
    RunIs(core, '#', level);
  }

  lemma HeadingIsWritten(line: string, level: nat, title: string)
    requires ParseHeading(line) == Heading(level, title, true)
    ensures WrittenHeading(line, level, title)
  {
    var lead, trail := TrimSplits(line);
    var gap := HeadingSplits(TrimSpace(line), level, title);
    assert Spaced(line, lead, Rep('#', level) + " ", gap, title, trail);
  }

  lemma HeadingSplits(trimmed: string, level: nat, title: string) returns (gap: string)
    requires NoSpaceAround(trimmed) && level + 1 < |trimmed| && RunOf(trimmed, '#') == level && trimmed[level] == ' '
    requires title == TrimSpace(trimmed[level + 1..])
    ensures trimmed == Rep('#', level) + " " + gap + title && Blank(gap) && NoSpaceAround(title)
  {
    var mark, rest := trimmed[..level + 1], trimmed[level + 1..];
    assert trimmed == mark + rest && rest[|rest| - 1] == trimmed[|trimmed| - 1];
    gap := TitleBehind(rest);
    MarkIs(trimmed, level);
    Regroup(mark, gap, title);
  }

  lemma Regroup(mark: string, gap: string, title: string)
    ensures mark + (gap + title) == mark + gap + title
  {
  }

  lemma MarkIs(trimmed: string, level: nat)
    requires level < |trimmed| && RunOf(trimmed, '#') == level && trimmed[level] == ' '
    ensures trimmed[..level + 1] == Rep('#', level) + " "
  {
  }

  /** A text that ends without space is space and its trimmed text. */
  lemma TitleBehind(rest: string) returns (gap: string)
    requires rest != "" && !IsSpace(rest[|rest| - 1])
    ensures rest == gap + TrimSpace(rest) && Blank(gap) && NoSpaceAround(TrimSpace(rest))
  {
    var tail;
    gap, tail := TrimSplits(rest);
    assert tail == "";
  }

  // --- fences ------------------------------------------------------------------------------------

  /** Three or more of a fence character, with space before them or none, and anything behind
      that does not begin with it. */
  ghost predicate WrittenFence(line: string, marker: char, len: nat) {
    && (marker == '`' || marker == '~') && len >= 3
    && exists lead: string, info: string :: Fenced(line, lead, marker, len, info)
  }

  ghost predicate Fenced(line: string, lead: string, marker: char, len: nat, info: string) {
    line == lead + Rep(marker, len) + info && Blank(lead) && (info != "" ==> info[0] != marker)
  }

  lemma FenceIff(line: string, marker: char, len: nat)
    ensures ParseFenceOpen(line) == Fence(marker, len, true) <==> WrittenFence(line, marker, len)
  {
    if WrittenFence(line, marker, len) {
      var lead, info :| Fenced(line, lead, marker, len, info);
      FenceParses(line, lead, marker, len, info);
    }
    if ParseFenceOpen(line) == Fence(marker, len, true) {
      FenceIsWritten(line, marker, len);
    }
  }

  lemma FenceParses(line: string, lead: string, marker: char, len: nat, info: string)
    requires (marker == '`' || marker == '~') && len >= 3 && Fenced(line, lead, marker, len, info)
    ensures ParseFenceOpen(line) == Fence(marker, len, true)
  {
    var n := ContentEnd(info);
    var core := Rep(marker, len) + info[..n];
    assert line == lead + core + info[n..];
    assert core[0] == marker && core[|core| - 1] == if n > 0 then info[n - 1] else marker;
    TrimIs(lead, core, info[n..]);
    RunIs(core, marker, len);
  }

  lemma FenceIsWritten(line: string, marker: char, len: nat)
    requires ParseFenceOpen(line) == Fence(marker, len, true)
    ensures WrittenFence(line, marker, len)
  {
    var lead, trail := TrimSplits(line);
    var trimmed := TrimSpace(line);
    assert trimmed[..len] == Rep(marker, len);
    var info := trimmed[len..] + trail;
    assert line == lead + Rep(marker, len) + info;
    assert info != "" && len == |trimmed| ==> IsSpace(info[0]);
    assert Fenced(line, lead, marker, len, info);
  }

  /** At least as many of the marker as the fence it closes, and space around them or none. */
  ghost predicate WrittenClose(line: string, marker: char, len: nat) {
    exists lead: string, n: nat, trail: string :: n >= len && Closing(line, lead, marker, n, trail)
  }

  ghost predicate Closing(line: string, lead: string, marker: char, n: nat, trail: string) {
    line == lead + Rep(marker, n) + trail && Blank(lead) && Blank(trail)
  }

  lemma CloseIff(line: string, marker: char, len: nat)
    requires (marker == '`' || marker == '~') && len >= 3
    ensures IsFenceClose(line, marker, len) <==> WrittenClose(line, marker, len)
  {
    if WrittenClose(line, marker, len) {
      var lead, n, trail :| n >= len && Closing(line, lead, marker, n, trail);
      TrimIs(lead, Rep(marker, n), trail);
    }
    if IsFenceClose(line, marker, len) {
      var lead, trail := TrimSplits(line);
      assert TrimSpace(line) == Rep(marker, |TrimSpace(line)|);
      assert Closing(line, lead, marker, |TrimSpace(line)|, trail);
    }
  }

  // --- table rows ----------------------------------------------------------------------------------

  /** Some text that begins or ends with a bar, with space around it or none. */
  ghost predicate WrittenRow(line: string) {
    exists lead: string, text: string, trail: string :: Barred(text) && Around(line, lead, text, trail)
  }

  predicate Barred(text: string) { NoSpaceAround(text) && (text[0] == '|' || text[|text| - 1] == '|') }

  ghost predicate Around(line: string, lead: string, text: string, trail: string) {
    line == lead + text + trail && Blank(lead) && Blank(trail)
  }

  lemma RowIff(line: string)
    ensures IsTableRow(line) <==> WrittenRow(line)
  {
    if WrittenRow(line) {
      var lead, text, trail :| Barred(text) && Around(line, lead, text, trail);
      TrimIs(lead, text, trail);
    }
    if IsTableRow(line) {
      var lead, trail := TrimSplits(line);
      assert Barred(TrimSpace(line)) && Around(line, lead, TrimSpace(line), trail);
    }
  }
}
