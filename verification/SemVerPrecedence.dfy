/**
 Section 11 of Semantic Versioning 2.0.0, defined on version values, and that the
 comparison of their texts is that precedence.
 */
module SemVerPrecedence {
  import opened ProseText
  import opened SemVer

  datatype Identifier = Numeric(n: nat) | Alphanumeric(s: string)
  datatype Version = Version(major: nat, minor: nat, patch: nat, prerelease: seq<Identifier>, build: seq<string>)

  predicate IsIdentifierChar(c: char) { IsDigit(c) || 'A' <= c <= 'Z' || 'a' <= c <= 'z' || c == '-' }

  predicate IsIdentifierText(s: string) { s != "" && forall i | 0 <= i < |s| :: IsIdentifierChar(s[i]) }

  predicate WellFormedIdentifier(x: Identifier) {
    x.Alphanumeric? ==> IsIdentifierText(x.s) && !AllDigits(x.s)
  }

  predicate WellFormed(v: Version) {
    && (forall x | x in v.prerelease :: WellFormedIdentifier(x))
    && (forall s | s in v.build :: IsIdentifierText(s))
  }

  /** Every number can be held by a 64-bit integer. */
  predicate NumbersFit(v: Version) {
    && v.major <= MAX_INT64 && v.minor <= MAX_INT64 && v.patch <= MAX_INT64
    && forall x | x in v.prerelease && x.Numeric? :: x.n <= MAX_INT64
  }

  // --- precedence -----------------------------------------------------------------------

  /** Rules 4.1 to 4.3: numbers numerically, texts in ASCII order, numbers below texts. */
  function IdentifierPrecedence(a: Identifier, b: Identifier): int {
    match (a, b)
    case (Numeric(m), Numeric(n)) => Sign(m - n)
    case (Numeric(_), Alphanumeric(_)) => -1
    case (Alphanumeric(_), Numeric(_)) => 1
    case (Alphanumeric(s), Alphanumeric(t)) => StrCmp(s, t)
  }

  /** Rule 4.4: a longer list is higher when all preceding identifiers are equal. */
  function ListPrecedence(a: seq<Identifier>, b: seq<Identifier>): int {
    if a == [] then (if b == [] then 0 else -1)
    else if b == [] then 1
    else if IdentifierPrecedence(a[0], b[0]) != 0 then IdentifierPrecedence(a[0], b[0])
    else ListPrecedence(a[1..], b[1..])
  }

  /** Rules 2 and 3: major, minor, patch; then a release is above its prereleases. Build
      metadata does not figure (rule 1). */
  function Precedence(v: Version, w: Version): int {
    if v.major != w.major then Sign(v.major - w.major)
    else if v.minor != w.minor then Sign(v.minor - w.minor)
    else if v.patch != w.patch then Sign(v.patch - w.patch)
    else if v.prerelease == [] then (if w.prerelease == [] then 0 else 1)
    else if w.prerelease == [] then -1
    else ListPrecedence(v.prerelease, w.prerelease)
  }

  // --- text --------------------------------------------------------------------------------

  function Digits(n: nat): string {
    if n < 10 then [n as char + '0'] else Digits(n / 10) + [(n % 10) as char + '0']
  }

  function IdentifierText(x: Identifier): string { if x.Numeric? then Digits(x.n) else x.s }

  function Texts(ids: seq<Identifier>): seq<string> {
    if ids == [] then [] else [IdentifierText(ids[0])] + Texts(ids[1..])
  }

  function Dotted(parts: seq<string>): string {
    if parts == [] then "" else if |parts| == 1 then parts[0] else parts[0] + "." + Dotted(parts[1..])
  }

  function CoreText(v: Version): string { Digits(v.major) + "." + (Digits(v.minor) + "." + Digits(v.patch)) }

  function Render(v: Version): string {
    CoreText(v) + (if v.prerelease == [] then "" else "-" + Dotted(Texts(v.prerelease)))
    + (if v.build == [] then "" else "+" + Dotted(v.build))
  }

  // --- reading the text back ------------------------------------------------------------------

  lemma {:induction false} DigitsRead(n: nat)
    ensures IsNumericIdentifier(Digits(n)) && Value(Digits(n)) == n
  {
    if n >= 10 {
      DigitsRead(n / 10);
      var s := Digits(n);
      assert s[..|s| - 1] == Digits(n / 10);
    } else {
      assert Digits(n)[..0] == "";
    }
  }

  lemma DigitsAtoi(n: nat)
    requires n <= MAX_INT64
    ensures Atoi(TrimSpace(Digits(n))) == n
  {
    DigitsRead(n);
    TrimNothing(Digits(n));
  }

  predicate Lacks(s: string, c: char) { forall i | 0 <= i < |s| :: s[i] != c }

  lemma {:induction false} CutAt(p: string, q: string, c: char)
    requires Lacks(p, c)
    ensures Before(p + [c] + q, c) == p && After(p + [c] + q, c) == q
    ensures Before(p, c) == p && After(p, c) == ""
  {
    var s := p + [c] + q;
    if p == "" {
      assert s[1..] == q;
    } else {
      CutAt(p[1..], q, c);
      assert s[0] == p[0] && s[1..] == p[1..] + [c] + q;
      assert [p[0]] + p[1..] == p;
    }
  }

  lemma {:induction false} SplitOne(p: string, q: string, c: char)
    requires Lacks(p, c)
    ensures Split(p, c) == [p] && Split(p + [c] + q, c) == [p] + Split(q, c)
  {
    var s := p + [c] + q;
    if p == "" {
      assert s[0] == c && s[1..] == q;
    } else {
      SplitOne(p[1..], q, c);
      assert s[0] == p[0] && s[1..] == p[1..] + [c] + q;
      assert [p[0]] + p[1..] == p;
    }
  }

  lemma {:induction false} SplitDotted(parts: seq<string>)
    requires parts != [] && forall s | s in parts :: Lacks(s, '.')
    ensures Split(Dotted(parts), '.') == parts
  {
    if |parts| == 1 {
      SplitOne(parts[0], "", '.');
    } else {
      SplitDotted(parts[1..]);
      SplitOne(parts[0], Dotted(parts[1..]), '.');
      assert [parts[0]] + parts[1..] == parts;
    }
  }

  /** Every character is that of an identifier or a dot. */
  predicate Plain(s: string) { forall i | 0 <= i < |s| :: IsIdentifierChar(s[i]) || s[i] == '.' }

  lemma {:induction false} DottedIsPlain(parts: seq<string>)
    requires forall s | s in parts :: IsIdentifierText(s)
    ensures Plain(Dotted(parts)) && (parts != [] ==> Dotted(parts) != "")
  {
    if parts != [] {
      assert IsIdentifierText(parts[0]);
      DottedIsPlain(parts[1..]);
    }
  }

  lemma TextIsIdentifier(x: Identifier)
    requires WellFormedIdentifier(x)
    ensures IsIdentifierText(IdentifierText(x)) && Lacks(IdentifierText(x), '.')
  {
    if x.Numeric? {
      DigitsRead(x.n);
    }
  }

  lemma {:induction false} TextsAreIdentifiers(ids: seq<Identifier>)
    requires forall x | x in ids :: WellFormedIdentifier(x)
    ensures |Texts(ids)| == |ids| && forall s | s in Texts(ids) :: IsIdentifierText(s) && Lacks(s, '.')
  {
    if ids != [] {
      TextsAreIdentifiers(ids[1..]);
      TextIsIdentifier(ids[0]);
    }
  }

  lemma SplitOfThree(a: string, b: string, c: string)
    requires Lacks(a, '.') && Lacks(b, '.') && Lacks(c, '.')
    ensures Split(a + "." + (b + "." + c), '.') == [a, b, c]
  {
    SplitOne(a, b + "." + c, '.');
    SplitOne(b, c, '.');
    SplitOne(c, "", '.');
  }

  lemma NumbersCons(p: string, rest: seq<string>)
    ensures Numbers([p] + rest) == [Atoi(TrimSpace(p))] + Numbers(rest)
  {
    assert ([p] + rest)[1..] == rest;
  }

  lemma NumbersOfThree(a: string, b: string, c: string, x: nat, y: nat, z: nat)
    requires Atoi(TrimSpace(a)) == x && Atoi(TrimSpace(b)) == y && Atoi(TrimSpace(c)) == z
    ensures Numbers([a, b, c]) == [x, y, z]
  {
    NumbersCons(a, [b, c]);
    NumbersCons(b, [c]);
    NumbersCons(c, []);
    assert [a, b, c] == [a] + [b, c] && [b, c] == [b] + [c] && [c] == [c] + [];
  }

  lemma CoreReads(v: Version)
    requires v.major <= MAX_INT64 && v.minor <= MAX_INT64 && v.patch <= MAX_INT64
    ensures Numbers(Split(CoreText(v), '.')) == [v.major, v.minor, v.patch]
  {
    DigitsRead(v.major);
    DigitsRead(v.minor);
    DigitsRead(v.patch);
    DigitsAtoi(v.major);
    DigitsAtoi(v.minor);
    DigitsAtoi(v.patch);
    SplitOfThree(Digits(v.major), Digits(v.minor), Digits(v.patch));
    NumbersOfThree(Digits(v.major), Digits(v.minor), Digits(v.patch), v.major, v.minor, v.patch);
  }

  lemma CoreIsPlain(v: Version)
    ensures CoreText(v) != "" && IsDigit(CoreText(v)[0])
    ensures Plain(CoreText(v)) && Lacks(CoreText(v), '+') && Lacks(CoreText(v), '-')
  {
    DigitsRead(v.major);
    DigitsRead(v.minor);
    DigitsRead(v.patch);
  }

  lemma {:induction false} PlainLacksPlus(s: string)
    requires Plain(s)
    ensures Lacks(s, '+') && forall i | 0 <= i < |s| :: !IsSpace(s[i])
  {
  }

  /** The parts of the text: core, prerelease and build metadata. */
  lemma SplitText(core: string, pre: string, build: string, hasBuild: bool)
    requires Lacks(core, '+') && Lacks(core, '-') && Lacks(pre, '+')
    ensures var text := core + (if pre == "" then "" else "-" + pre) + (if hasBuild then "+" + build else "");
            SplitSemver(text) == Parsed(Numbers(Split(core, '.')), if pre == "" then [] else Split(pre, '.'))
  {
    var head := core + (if pre == "" then "" else "-" + pre);
    var text := head + (if hasBuild then "+" + build else "");
    CutAt(head, build, '+');
    if hasBuild {
      assert text == head + ['+'] + build;
    } else {
      assert text == head;
    }
    CutAt(core, pre, '-');
    if pre != "" {
      assert head == core + ['-'] + pre;
    } else {
      assert head == core;
    }
  }

  /** Reading a rendered version back gives its numbers and its prerelease identifiers. */
  lemma RenderReads(v: Version)
    requires WellFormed(v) && v.major <= MAX_INT64 && v.minor <= MAX_INT64 && v.patch <= MAX_INT64
    ensures SplitSemver(Render(v)) == Parsed([v.major, v.minor, v.patch], Texts(v.prerelease))
  {
    var ids := Texts(v.prerelease);
    TextsAreIdentifiers(v.prerelease);
    CoreReads(v);
    CoreIsPlain(v);
    DottedIsPlain(ids);
    PlainLacksPlus(Dotted(ids));
    if ids != [] {
      SplitDotted(ids);
    }
    SplitText(CoreText(v), Dotted(ids), Dotted(v.build), v.build != []);
  }

  /** A rendered version starts with a digit and holds no whitespace. */
  lemma RenderIsNormal(v: Version)
    requires WellFormed(v)
    ensures NormalizeVersion(Render(v)) == Render(v)
  {
    TextsAreIdentifiers(v.prerelease);
    CoreIsPlain(v);
    DottedIsPlain(Texts(v.prerelease));
    DottedIsPlain(v.build);
    var s := Render(v);
    assert s[0] == CoreText(v)[0];
    assert !IsSpace(s[|s| - 1]);
    TrimNothing(s);
  }

  lemma IdentifierTextOrder(a: Identifier, b: Identifier)
    requires WellFormedIdentifier(a) && WellFormedIdentifier(b)
    requires (a.Numeric? ==> a.n <= MAX_INT64) && (b.Numeric? ==> b.n <= MAX_INT64)
    ensures ComparePrereleaseIdentifier(IdentifierText(a), IdentifierText(b)) == IdentifierPrecedence(a, b)
    ensures Fits(IdentifierText(a))
  {
    if a.Numeric? {
      DigitsRead(a.n);
    }
    if b.Numeric? {
      DigitsRead(b.n);
    }
  }

  lemma {:induction false} ListTextOrder(a: seq<Identifier>, b: seq<Identifier>)
    requires forall x | x in a + b :: WellFormedIdentifier(x) && (x.Numeric? ==> x.n <= MAX_INT64)
    ensures CompareIdentifiers(Texts(a), Texts(b)) == ListPrecedence(a, b)
  {
    if a != [] && b != [] {
      assert a[0] in a + b && b[0] in a + b;
      IdentifierTextOrder(a[0], b[0]);
      assert forall x | x in a[1..] + b[1..] :: x in a + b;
      ListTextOrder(a[1..], b[1..]);
    }
  }

  lemma {:induction false} TextsFit(ids: seq<Identifier>)
    requires forall x | x in ids :: WellFormedIdentifier(x) && (x.Numeric? ==> x.n <= MAX_INT64)
    ensures AllFit(Texts(ids))
  {
    if ids != [] {
      IdentifierTextOrder(ids[0], ids[0]);
      TextsFit(ids[1..]);
    }
  }

  lemma CoreTextOrder(a: int, b: int, c: int, x: int, y: int, z: int)
    ensures CompareCore([a, b, c], [x, y, z]) ==
            if a != x then Sign(a - x) else if b != y then Sign(b - y) else if c != z then Sign(c - z) else 0
  {
    assert [a, b, c][1..] == [b, c] && [b, c][1..] == [c] && [c][1..] == [];
    assert [x, y, z][1..] == [y, z] && [y, z][1..] == [z] && [z][1..] == [];
    Headed([a, b, c], [x, y, z]);
    Headed([b, c], [y, z]);
    Headed([c], [z]);
  }

  lemma TextOrder(v: Version, w: Version)
    requires WellFormed(v) && WellFormed(w) && NumbersFit(v) && NumbersFit(w)
    ensures ParsedOrder(SplitSemver(Render(v)), SplitSemver(Render(w))) == Precedence(v, w)
  {
    RenderReads(v);
    RenderReads(w);
    CoreTextOrder(v.major, v.minor, v.patch, w.major, w.minor, w.patch);
    TextsAreIdentifiers(v.prerelease);
    TextsAreIdentifiers(w.prerelease);
    ListTextOrder(v.prerelease, w.prerelease);
  }

  /** On well-formed versions whose numbers fit 64 bits the comparison of the texts is the
      precedence of section 11. */
  lemma GreaterIsPrecedence(v: Version, w: Version)
    requires WellFormed(v) && WellFormed(w) && NumbersFit(v) && NumbersFit(w)
    ensures Greater(Render(v), Render(w)) <==> Precedence(v, w) > 0
  {
    RenderIsNormal(v);
    RenderIsNormal(w);
    TextOrder(v, w);
    RenderReads(v);
    RenderReads(w);
    TextsFit(v.prerelease);
    TextsFit(w.prerelease);
    GreaterIsOrder(Render(v), Render(w));
  }

  /** A leading v changes nothing. */
  lemma LeadingVIgnored(v: Version)
    requires WellFormed(v)
    ensures NormalizeVersion("v" + Render(v)) == Render(v)
  {
    RenderIsNormal(v);
    var s := "v" + Render(v);
    TrimNothing(Render(v));
    TrimNothing(s);
    assert s[1..] == Render(v);
  }

  // --- overflow in versions -----------------------------------------------------------------------

  lemma SplitOneIdentifier(text: string, core: string, x: string)
    requires Lacks(core, '+') && Lacks(core, '-') && Lacks(x, '+') && Lacks(x, '.') && x != ""
    requires text == core + ['-'] + x
    ensures SplitSemver(text) == Parsed(Numbers(Split(core, '.')), [x])
  {
    CutAt(text, "", '+');
    CutAt(core, x, '-');
    SplitOne(x, "", '.');
  }

  lemma SameCore(core: seq<int>, x: string, y: string)
    ensures ParsedOrder(Parsed(core, [x]), Parsed(core, [y])) == ComparePrereleaseIdentifier(x, y)
  {
    CoreOrder(core, core, core);
    assert [x][1..] == [] && [y][1..] == [] && CompareIdentifiers([], []) == 0;
    assert CompareIdentifiers([x], [y]) == ComparePrereleaseIdentifier(x, y);
  }

  /** Three versions of one release, each below the next, in a circle: when a number
      overflows the comparison is no order. */
  lemma OverflowCycleOfVersions(core: string, two: string, ten: string, huge: string)
    requires Lacks(core, '+') && Lacks(core, '-')
    requires two == core + ['-'] + "2" && ten == core + ['-'] + "10" && huge == core + ['-'] + HUGE
    ensures ParsedOrder(SplitSemver(two), SplitSemver(ten)) < 0
    ensures ParsedOrder(SplitSemver(ten), SplitSemver(huge)) < 0
    ensures ParsedOrder(SplitSemver(huge), SplitSemver(two)) < 0
  {
    OverflowCycle();
    SplitOneIdentifier(two, core, "2");
    SplitOneIdentifier(ten, core, "10");
    HugeDoesNotFit();
    SplitOneIdentifier(huge, core, HUGE);
    var numbers := Numbers(Split(core, '.'));
    SameCore(numbers, "2", "10");
    SameCore(numbers, "10", HUGE);
    SameCore(numbers, HUGE, "2");
  }
}
