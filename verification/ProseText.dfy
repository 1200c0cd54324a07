/**
 ASCII text, its whitespace, and source pieces.

 On ASCII text a byte is a character, so byte offsets, rune offsets and indices
 into a Dafny string agree.
 */
module ProseText {

  /** A text fragment and the span of the source it stands for. */
  datatype Piece = Piece(text: string, start: nat, end: nat)

  /** Whitespace: tab, line feed, vertical tab, form feed, carriage return, space. */
  predicate IsSpace(c: char) { c == ' ' || '\t' <= c <= '\r' }

  /** Only whitespace from index `lo` up to `hi`. */
  predicate BlankIn(s: string, lo: nat, hi: nat)
    requires lo <= hi <= |s|
  {
    forall i | lo <= i < hi :: IsSpace(s[i])
  }

  predicate Blank(s: string) { BlankIn(s, 0, |s|) }

  /** The characters of `s` that are not whitespace, in order. */
  function NonSpace(s: string): string {
    if s == "" then "" else (if IsSpace(s[0]) then "" else [s[0]]) + NonSpace(s[1..])
  }

  function NonSpaceAll(ps: seq<Piece>): string {
    if ps == [] then "" else NonSpace(ps[0].text) + NonSpaceAll(ps[1..])
  }

  lemma {:induction false} NonSpaceConcat(a: string, b: string)
    ensures NonSpace(a + b) == NonSpace(a) + NonSpace(b)
  {
    if a == "" {
      assert a + b == b;
    } else {
      NonSpaceConcat(a[1..], b);
      assert (a + b)[0] == a[0] && (a + b)[1..] == a[1..] + b;
      var first := if IsSpace(a[0]) then "" else [a[0]];
      assert NonSpace(a + b) == first + NonSpace(a[1..] + b);
      assert first + (NonSpace(a[1..]) + NonSpace(b)) == (first + NonSpace(a[1..])) + NonSpace(b);
    }
  }

  lemma NonSpaceSplit(s: string, lo: nat, mid: nat, hi: nat)
    requires lo <= mid <= hi <= |s|
    ensures NonSpace(s[lo..hi]) == NonSpace(s[lo..mid]) + NonSpace(s[mid..hi])
  {
    NonSpaceConcat(s[lo..mid], s[mid..hi]);
    assert s[lo..hi] == s[lo..mid] + s[mid..hi];
  }

  lemma {:induction false} BlankHasNoContent(s: string)
    ensures Blank(s) <==> NonSpace(s) == ""
  {
    if s != "" {
      BlankHasNoContent(s[1..]);
      assert forall i | 0 < i < |s| :: s[i] == s[1..][i - 1];
    }
  }

  lemma BlankInHasNoContent(s: string, lo: nat, hi: nat)
    requires lo <= hi <= |s|
    ensures BlankIn(s, lo, hi) <==> NonSpace(s[lo..hi]) == ""
  {
    BlankHasNoContent(s[lo..hi]);
    assert forall i | lo <= i < hi :: s[i] == s[lo..hi][i - lo];
  }

  lemma BlankAfter(a: string, b: string)
    requires Blank(b)
    ensures NonSpace(a + b) == NonSpace(a)
  {
    NonSpaceConcat(a, b);
    BlankHasNoContent(b);
  }

  lemma BlankBefore(s: string, lo: nat, mid: nat, hi: nat)
    requires lo <= mid <= hi <= |s| && BlankIn(s, lo, mid)
    ensures NonSpace(s[lo..hi]) == NonSpace(s[mid..hi])
  {
    NonSpaceSplit(s, lo, mid, hi);
    BlankInHasNoContent(s, lo, mid);
  }

  // --- trimming -----------------------------------------------------------------

  function LeadingSpaces(s: string): (n: nat)
    ensures n <= |s| && BlankIn(s, 0, n) && (n < |s| ==> !IsSpace(s[n]))
  {
    if s != "" && IsSpace(s[0]) then
      assert forall i | 0 < i < |s| :: s[i] == s[1..][i - 1];
      LeadingSpaces(s[1..]) + 1
    else 0
  }

  function ContentEnd(s: string): (n: nat)
    ensures n <= |s| && BlankIn(s, n, |s|) && (n > 0 ==> !IsSpace(s[n - 1]))
  {
    if s != "" && IsSpace(s[|s| - 1]) then ContentEnd(s[..|s| - 1]) else |s|
  }

  function TrimSpace(s: string): string {
    var rest := s[LeadingSpaces(s)..];
    rest[..ContentEnd(rest)]
  }

  /** Offset of the first occurrence of `sub` at or after `i`, or -1. */
  function IndexFrom(s: string, sub: string, i: nat): int
    requires i <= |s|
    decreases |s| - i
  {
    if i + |sub| > |s| then -1
    else if s[i..i + |sub|] == sub then i
    else if i == |s| then -1
    else IndexFrom(s, sub, i + 1)
  }

  lemma {:induction false} IndexSkipsBlank(s: string, sub: string, i: nat, at: nat)
    requires i <= at && at + |sub| <= |s| && s[at..at + |sub|] == sub
    requires sub != "" && !IsSpace(sub[0]) && BlankIn(s, 0, at)
    ensures IndexFrom(s, sub, i) == at
    decreases at - i
  {
    if i < at {
      assert s[i..i + |sub|][0] == s[i];
      IndexSkipsBlank(s, sub, i + 1, at);
    }
  }

  /** Where the trimmed text lies in `s`. */
  lemma TrimSpaceAt(s: string)
    ensures LeadingSpaces(s) + |TrimSpace(s)| <= |s|
    ensures s[LeadingSpaces(s)..LeadingSpaces(s) + |TrimSpace(s)|] == TrimSpace(s)
    ensures BlankIn(s, 0, LeadingSpaces(s)) && BlankIn(s, LeadingSpaces(s) + |TrimSpace(s)|, |s|)
    ensures TrimSpace(s) != "" ==> !IsSpace(TrimSpace(s)[0]) && !IsSpace(TrimSpace(s)[|TrimSpace(s)| - 1])
  {
    var lead := LeadingSpaces(s);
    var rest := s[lead..];
    var n := ContentEnd(rest);
    assert s[lead..lead + n] == rest[..n];
    forall i | lead + n <= i < |s| ensures IsSpace(s[i]) {
      assert s[i] == rest[i - lead];
    }
    assert n > 0 ==> rest[0] == s[lead];
  }

  lemma TrimSpaceIndex(s: string, trimmed: string, lead: nat)
    requires lead + |trimmed| <= |s| && s[lead..lead + |trimmed|] == trimmed && BlankIn(s, 0, lead)
    requires trimmed != "" && !IsSpace(trimmed[0])
    ensures IndexFrom(s, trimmed, 0) == lead
  {
    IndexSkipsBlank(s, trimmed, 0, lead);
  }

  lemma TrimBlank(s: string)
    requires Blank(s)
    ensures TrimSpace(s) == ""
  {
    TrimSpaceAt(s);
  }

  lemma TrimNothing(s: string)
    requires s != "" && !IsSpace(s[0]) && !IsSpace(s[|s| - 1])
    ensures TrimSpace(s) == s
  {
    assert LeadingSpaces(s) == 0 && s[0..] == s && ContentEnd(s) == |s| && s[..|s|] == s;
  }

  /** `s` is `lead` whitespace characters, the trimmed text, `trail` whitespace characters. */
  ghost predicate TrimsTo(s: string, trimmed: string, lead: nat, trail: nat) {
    && lead + |trimmed| + trail == |s| && s[lead..lead + |trimmed|] == trimmed
    && BlankIn(s, 0, lead) && BlankIn(s, lead + |trimmed|, |s|)
    && (trimmed == "" <==> Blank(s))
    && (trimmed != "" ==> !IsSpace(trimmed[0]) && !IsSpace(trimmed[|trimmed| - 1]))
  }

  /** The trimmed text and the number of characters before and after it. */
  method TrimSpaceBounds(s: string) returns (trimmed: string, lead: nat, trail: nat)
    ensures TrimsTo(s, trimmed, lead, trail) && trimmed == TrimSpace(s)
  {
    TrimSpaceAt(s);
    trimmed := TrimSpace(s);
    if trimmed == "" {
      return "", 0, |s|;
    }
    TrimSpaceIndex(s, trimmed, LeadingSpaces(s));
    lead := IndexFrom(s, trimmed, 0);
    trail := |s| - lead - |trimmed|;
  }

  // --- where words end ------------------------------------------------------------------

  /** The number of other characters before each whitespace character. */
  ghost function Breaks(s: string): set<nat> { set i: nat | i < |s| && IsSpace(s[i]) :: |NonSpace(s[..i])| }

  /** Characters that whitespace keeps apart in `slice` are kept apart in `text`. */
  ghost predicate KeepsApart(text: string, slice: string) { Breaks(slice) <= Breaks(text) }

  lemma BreakAt(s: string, i: nat)
    requires i < |s| && IsSpace(s[i])
    ensures |NonSpace(s[..i])| in Breaks(s)
  {
  }

  lemma PrefixOfConcat(a: string, b: string, i: nat)
    requires i <= |a + b|
    ensures (a + b)[..i] == if i <= |a| then a[..i] else a + b[..i - |a|]
  {
  }

  lemma BreakInFront(a: string, b: string, i: nat)
    requires i < |a| && IsSpace(a[i])
    ensures |NonSpace(a[..i])| in Breaks(a + b)
  {
    PrefixOfConcat(a, b, i);
    BreakAt(a + b, i);
  }

  lemma BreakBehind(a: string, b: string, i: nat)
    requires i < |b| && IsSpace(b[i])
    ensures |NonSpace(a)| + |NonSpace(b[..i])| in Breaks(a + b)
  {
    PrefixOfConcat(a, b, |a| + i);
    NonSpaceConcat(a, b[..i]);
    BreakAt(a + b, |a| + i);
    assert i == 0 ==> b[..i] == "" && a[..|a|] == a;
  }

  lemma BreakFrom(a: string, b: string, i: nat)
    requires i < |a + b| && IsSpace((a + b)[i])
    ensures var k := |NonSpace((a + b)[..i])|;
            k in Breaks(a) || (k >= |NonSpace(a)| && k - |NonSpace(a)| in Breaks(b))
  {
    PrefixOfConcat(a, b, i);
    if i < |a| {
      BreakAt(a, i);
    } else {
      var n := i - |a|;
      NonSpaceConcat(a, b[..n]);
      assert n == 0 ==> b[..n] == "" && a[..|a|] == a;
      BreakAt(b, n);
    }
  }

  lemma BreaksOfConcat(a: string, b: string, k: nat)
    ensures k in Breaks(a + b) <==> k in Breaks(a) || (k >= |NonSpace(a)| && k - |NonSpace(a)| in Breaks(b))
  {
    if k in Breaks(a + b) {
      var i: nat :| i < |a + b| && IsSpace((a + b)[i]) && k == |NonSpace((a + b)[..i])|;
      BreakFrom(a, b, i);
    }
    if k in Breaks(a) {
      var i: nat :| i < |a| && IsSpace(a[i]) && k == |NonSpace(a[..i])|;
      BreakInFront(a, b, i);
    }
    if k >= |NonSpace(a)| && k - |NonSpace(a)| in Breaks(b) {
      var i: nat :| i < |b| && IsSpace(b[i]) && k - |NonSpace(a)| == |NonSpace(b[..i])|;
      BreakBehind(a, b, i);
    }
  }

  /** Joined with whitespace between them, two texts keep apart what their slices do. */
  lemma JoinKeepsApart(a: string, sep: string, b: string, sa: string, gap: string, sb: string)
    requires KeepsApart(a, sa) && KeepsApart(b, sb) && NonSpace(a) == NonSpace(sa)
    requires sep != "" && Blank(sep) && Blank(gap)
    ensures KeepsApart(a + sep + b, sa + gap + sb)
  {
    BlankAfter(a, sep);
    BlankAfter(sa, gap);
    forall k | k in Breaks(sa + gap + sb) ensures k in Breaks(a + sep + b) {
      BreaksOfConcat(sa + gap, sb, k);
      BreaksOfConcat(sa, gap, k);
      BreaksOfConcat(a + sep, b, k);
      BreaksOfConcat(a, sep, k);
      if k >= |NonSpace(sa)| && k - |NonSpace(sa)| in Breaks(gap) {
        BlankBreaks(gap, k - |NonSpace(sa)|);
        BreakAt(sep, 0);
      }
    }
  }

  lemma BlankBreaks(s: string, k: nat)
    requires Blank(s) && k in Breaks(s)
    ensures k == 0
  {
    var i: nat :| i < |s| && IsSpace(s[i]) && k == |NonSpace(s[..i])|;
    BlankInHasNoContent(s, 0, i);
    assert s[0..i] == s[..i];
  }

  // --- pieces over a source --------------------------------------------------------

  /** The pieces tile `src[lo..hi]` from left to right: spans are disjoint and in
      order, what lies between them is whitespace, and each piece has the
      non-whitespace characters of its span, kept apart where they were. */
  ghost predicate Covers(src: string, lo: nat, hi: nat, ps: seq<Piece>)
    decreases |ps|
  {
    && lo <= hi <= |src|
    && if ps == [] then BlankIn(src, lo, hi) else
         && lo <= ps[0].start < ps[0].end <= hi
         && BlankIn(src, lo, ps[0].start)
         && NonSpace(ps[0].text) == NonSpace(src[ps[0].start..ps[0].end])
         && KeepsApart(ps[0].text, src[ps[0].start..ps[0].end])
         && Covers(src, ps[0].end, hi, ps[1..])
  }

  /** Each piece is exactly its source slice and does not end in whitespace. */
  ghost predicate Exact(src: string, ps: seq<Piece>) {
    forall p | p in ps :: p.start < p.end <= |src| && p.text == src[p.start..p.end] && !IsSpace(src[p.end - 1])
  }

  /** Blank text before the first piece. */
  lemma CoversAfterBlank(src: string, lo: nat, mid: nat, hi: nat, b: seq<Piece>)
    requires lo <= mid && Covers(src, mid, hi, b) && BlankIn(src, lo, mid)
    ensures Covers(src, lo, hi, b)
  {
  }

  lemma CoversStep(src: string, lo: nat, hi: nat, ps: seq<Piece>)
    requires ps != [] && lo <= ps[0].start < ps[0].end <= hi <= |src| && BlankIn(src, lo, ps[0].start)
    requires NonSpace(ps[0].text) == NonSpace(src[ps[0].start..ps[0].end])
    requires KeepsApart(ps[0].text, src[ps[0].start..ps[0].end])
    requires Covers(src, ps[0].end, hi, ps[1..])
    ensures Covers(src, lo, hi, ps)
  {
  }

  lemma {:induction false} CoversAppend(src: string, lo: nat, mid: nat, hi: nat, a: seq<Piece>, b: seq<Piece>)
    requires Covers(src, lo, mid, a) && Covers(src, mid, hi, b)
    ensures Covers(src, lo, hi, a + b)
    decreases |a|
  {
    if a == [] {
      assert a + b == b;
      CoversAfterBlank(src, lo, mid, hi, b);
    } else {
      var ab := a + b;
      CoversAppend(src, a[0].end, mid, hi, a[1..], b);
      assert ab[0] == a[0] && ab[1..] == a[1..] + b;
      CoversStep(src, lo, hi, ab);
    }
  }

  /** One more piece whose text is its slice. */
  lemma CoversOne(src: string, lo: nat, p: Piece, hi: nat)
    requires lo <= p.start < p.end <= hi <= |src| && p.text == src[p.start..p.end]
    requires BlankIn(src, lo, p.start) && BlankIn(src, p.end, hi)
    ensures Covers(src, lo, hi, [p])
  {
  }

  /** Conservation: the pieces hold exactly the non-whitespace of what they cover. */
  lemma {:induction false} CoversConserves(src: string, lo: nat, hi: nat, ps: seq<Piece>)
    requires Covers(src, lo, hi, ps)
    ensures NonSpaceAll(ps) == NonSpace(src[lo..hi])
    decreases |ps|
  {
    if ps == [] {
      BlankInHasNoContent(src, lo, hi);
    } else {
      var p := ps[0];
      CoversConserves(src, p.end, hi, ps[1..]);
      BlankInHasNoContent(src, lo, p.start);
      NonSpaceSplit(src, lo, p.start, hi);
      NonSpaceSplit(src, p.start, p.end, hi);
    }
  }

  ghost predicate OrderedSpans(lo: nat, hi: nat, ps: seq<Piece>) {
    && (forall i | 0 <= i < |ps| :: lo <= ps[i].start < ps[i].end <= hi)
    && (forall i, j | 0 <= i < j < |ps| :: ps[i].end <= ps[j].start)
  }

  ghost predicate SlicesMatch(src: string, ps: seq<Piece>) {
    forall p | p in ps ::
      && p.start <= p.end <= |src| && NonSpace(p.text) == NonSpace(src[p.start..p.end])
      && KeepsApart(p.text, src[p.start..p.end])
  }

  lemma {:induction false} CoversOrdered(src: string, lo: nat, hi: nat, ps: seq<Piece>)
    requires Covers(src, lo, hi, ps)
    ensures OrderedSpans(lo, hi, ps) && SlicesMatch(src, ps)
    decreases |ps|
  {
    if ps != [] {
      CoversOrdered(src, ps[0].end, hi, ps[1..]);
      assert forall i | 0 < i < |ps| :: ps[i] == ps[1..][i - 1];
    }
  }
}
