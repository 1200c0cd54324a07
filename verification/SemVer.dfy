/**
 Comparing release versions, and the precedence of section 11 of Semantic Versioning
 2.0.0. Versions are ASCII.
 */
module SemVer {
  import opened ProseText

  const MAX_INT64 := 0x7fff_ffff_ffff_ffff

  // --- the order on strings -------------------------------------------------------------

  /** Byte-wise comparison: -1, 0 or 1. */
  function StrCmp(a: string, b: string): int {
    if a == "" then (if b == "" then 0 else -1)
    else if b == "" then 1
    else if a[0] < b[0] then -1
    else if a[0] > b[0] then 1
    else StrCmp(a[1..], b[1..])
  }

  lemma {:induction false} StrCmpFlips(a: string, b: string)
    ensures StrCmp(a, b) == -StrCmp(b, a) && (StrCmp(a, b) == 0 <==> a == b)
  {
    if a != "" && b != "" {
      StrCmpFlips(a[1..], b[1..]);
      assert a == [a[0]] + a[1..] && b == [b[0]] + b[1..];
    }
  }

  /** What makes a comparison an order: `p` compares a to b, `q` b to c and `r` a to c. */
  predicate Chain(p: int, q: int, r: int) {
    p <= 0 && q <= 0 ==> r <= 0 && (p < 0 || q < 0 ==> r < 0)
  }

  lemma {:induction false} StrCmpChain(a: string, b: string, c: string)
    ensures Chain(StrCmp(a, b), StrCmp(b, c), StrCmp(a, c))
  {
    if a != "" && b != "" && c != "" {
      StrCmpChain(a[1..], b[1..], c[1..]);
    }
  }

  // --- numbers ----------------------------------------------------------------------------

  predicate IsDigit(c: char) { '0' <= c <= '9' }
  predicate AllDigits(s: string) { forall i | 0 <= i < |s| :: IsDigit(s[i]) }
  predicate IsNumericIdentifier(s: string) { s != "" && AllDigits(s) }

  function Value(s: string): nat
    requires AllDigits(s)
  {
    if s == "" then 0 else Value(s[..|s| - 1]) * 10 + (s[|s| - 1] as int - '0' as int)
  }

  /** Decimal integers with an optional sign; anything else, or out of range, is zero. */
  function Atoi(s: string): int {
    var digits := if s != "" && (s[0] == '+' || s[0] == '-') then s[1..] else s;
    if !IsNumericIdentifier(digits) then 0
    else
      var n: int := if s[0] == '-' then 0 - Value(digits) else Value(digits);
      if -MAX_INT64 - 1 <= n <= MAX_INT64 then n else 0
  }

  // --- identifiers ------------------------------------------------------------------------

  function Sign(x: int): int { if x > 0 then 1 else if x < 0 then -1 else 0 }

  /** A numeric identifier that a 64-bit integer can hold; any other identifier. */
  predicate Fits(s: string) { IsNumericIdentifier(s) ==> Value(s) <= MAX_INT64 }

  function ComparePrereleaseIdentifier(a: string, b: string): int {
    if IsNumericIdentifier(a) && IsNumericIdentifier(b) then
      if Value(a) > MAX_INT64 || Value(b) > MAX_INT64 then StrCmp(a, b) else Sign(Value(a) - Value(b))
    else if IsNumericIdentifier(a) then -1
    else if IsNumericIdentifier(b) then 1
    else StrCmp(a, b)
  }

  lemma IdentifierOrder(a: string, b: string, c: string)
    requires Fits(a) && Fits(b) && Fits(c)
    ensures ComparePrereleaseIdentifier(a, b) == -ComparePrereleaseIdentifier(b, a)
    ensures Chain(ComparePrereleaseIdentifier(a, b), ComparePrereleaseIdentifier(b, c), ComparePrereleaseIdentifier(a, c))
  {
    StrCmpFlips(a, b);
    StrCmpChain(a, b, c);
  }

  // --- lists --------------------------------------------------------------------------------

  function CompareIdentifiers(a: seq<string>, b: seq<string>): int {
    if a == [] then (if b == [] then 0 else -1)
    else if b == [] then 1
    else if ComparePrereleaseIdentifier(a[0], b[0]) != 0 then ComparePrereleaseIdentifier(a[0], b[0])
    else CompareIdentifiers(a[1..], b[1..])
  }

  /** No prerelease is above every prerelease. */
  function PrereleaseOrder(a: seq<string>, b: seq<string>): int {
    if a == [] && b == [] then 0
    else if a == [] then 1
    else if b == [] then -1
    else CompareIdentifiers(a, b)
  }

  method ComparePrerelease(a: seq<string>, b: seq<string>) returns (r: int)
    ensures r == PrereleaseOrder(a, b)
  {
    if |a| == 0 && |b| == 0 {
      return 0;
    }
    if |a| == 0 {
      return 1;
    }
    if |b| == 0 {
      return -1;
    }
    var min := if |b| < |a| then |b| else |a|;
    var i := 0;
    while i < min
      invariant i <= min && CompareIdentifiers(a[i..], b[i..]) == CompareIdentifiers(a, b)
    {
      var c := ComparePrereleaseIdentifier(a[i], b[i]);
      assert a[i..][1..] == a[i + 1..] && b[i..][1..] == b[i + 1..];
      if c != 0 {
        return c;
      }
      i := i + 1;
    }
    if |a| > |b| {
      return 1;
    }
    if |a| < |b| {
      return -1;
    }
    return 0;
  }

  ghost predicate AllFit(ids: seq<string>) { forall s | s in ids :: Fits(s) }

  lemma {:induction false} IdentifiersOrder(a: seq<string>, b: seq<string>, c: seq<string>)
    requires AllFit(a) && AllFit(b) && AllFit(c)
    ensures CompareIdentifiers(a, b) == -CompareIdentifiers(b, a)
    ensures Chain(CompareIdentifiers(a, b), CompareIdentifiers(b, c), CompareIdentifiers(a, c))
  {
    if a != [] && b != [] {
      if c != [] {
        IdentifierOrder(a[0], b[0], c[0]);
        IdentifiersOrder(a[1..], b[1..], c[1..]);
      } else {
        IdentifierOrder(a[0], b[0], b[0]);
        IdentifiersOrder(a[1..], b[1..], []);
      }
    }
  }

  /** Missing numbers count as zero. */
  function CompareCore(a: seq<int>, b: seq<int>): int
    decreases |a| + |b|
  {
    if a == [] && b == [] then 0
    else
      var x := if a == [] then 0 else a[0];
      var y := if b == [] then 0 else b[0];
      if x != y then Sign(x - y) else CompareCore(if a == [] then [] else a[1..], if b == [] then [] else b[1..])
  }

  /** A number that is missing counts as zero, and one that is not decides as it is. */
  lemma {:induction false} MissingIsZero(a: seq<int>, b: seq<int>)
    ensures CompareCore(a + [0], b) == CompareCore(a, b) && CompareCore(a, b + [0]) == CompareCore(a, b)
    decreases |a| + |b|
  {
    Headed(a, b);
    Headed(a + [0], b);
    Headed(a, b + [0]);
    if a != [] || b != [] {
      var a', b' := if a == [] then [] else a[1..], if b == [] then [] else b[1..];
      MissingIsZero(a', b');
      if a != [] {
        assert (a + [0])[1..] == a[1..] + [0];
      } else {
        assert (a + [0])[1..] == [];
      }
      if b != [] {
        assert (b + [0])[1..] == b[1..] + [0];
      } else {
        assert (b + [0])[1..] == [];
      }
    }
  }

  lemma {:induction false} CoreOrder(a: seq<int>, b: seq<int>, c: seq<int>)
    ensures CompareCore(a, b) == -CompareCore(b, a)
    ensures Chain(CompareCore(a, b), CompareCore(b, c), CompareCore(a, c))
    decreases |a| + |b| + |c|
  {
    if a != [] || b != [] || c != [] {
      var a', b', c' := if a == [] then [] else a[1..], if b == [] then [] else b[1..], if c == [] then [] else c[1..];
      CoreOrder(a', b', c');
      Headed(a, b);
      Headed(b, a);
      Headed(b, c);
      Headed(a, c);
    }
  }

  /** The comparison by first numbers, also when both lists are empty. */
  lemma Headed(a: seq<int>, b: seq<int>)
    ensures var x := if a == [] then 0 else a[0];
            var y := if b == [] then 0 else b[0];
            CompareCore(a, b) ==
              if x != y then Sign(x - y) else CompareCore(if a == [] then [] else a[1..], if b == [] then [] else b[1..])
  {
  }

  // --- versions -------------------------------------------------------------------------------

  /** The text before the first `c`, or all of it. */
  function Before(s: string, c: char): string { if s == "" || s[0] == c then "" else [s[0]] + Before(s[1..], c) }

  /** The text after the first `c`, or none. */
  function After(s: string, c: char): string { if s == "" then "" else if s[0] == c then s[1..] else After(s[1..], c) }

  /** The parts between occurrences of `c`: always at least one. */
  function Split(s: string, c: char): (parts: seq<string>)
    ensures parts != []
  {
    if s == "" then [""]
    else
      var rest := Split(s[1..], c);
      if s[0] == c then [""] + rest else [[s[0]] + rest[0]] + rest[1..]
  }

  function Numbers(parts: seq<string>): seq<int> {
    if parts == [] then [] else [Atoi(TrimSpace(parts[0]))] + Numbers(parts[1..])
  }

  datatype Parsed = Parsed(core: seq<int>, prerelease: seq<string>)

  function SplitSemver(v: string): Parsed {
    var text := Before(v, '+');
    var pre := After(text, '-');
    Parsed(Numbers(Split(Before(text, '-'), '.')), if pre != "" then Split(pre, '.') else [])
  }

  function NormalizeVersion(v: string): string {
    var t := TrimSpace(v);
    if t != "" && t[0] == 'v' then t[1..] else t
  }

  function ParsedOrder(a: Parsed, b: Parsed): int {
    if CompareCore(a.core, b.core) != 0 then CompareCore(a.core, b.core) else PrereleaseOrder(a.prerelease, b.prerelease)
  }

  predicate Greater(a: string, b: string) {
    NormalizeVersion(a) != NormalizeVersion(b) &&
    ParsedOrder(SplitSemver(NormalizeVersion(a)), SplitSemver(NormalizeVersion(b))) > 0
  }

  method CompareNumbers(pa: seq<int>, pb: seq<int>) returns (r: int)
    ensures r == CompareCore(pa, pb)
  {
    var maxLen := if |pb| > |pa| then |pb| else |pa|;
    var i := 0;
    ghost var ra, rb := pa, pb;
    while i < maxLen
      invariant i <= maxLen && ra == (if i < |pa| then pa[i..] else []) && rb == (if i < |pb| then pb[i..] else [])
      invariant CompareCore(ra, rb) == CompareCore(pa, pb)
    {
      var ai, bi := 0, 0;
      if i < |pa| {
        ai := pa[i];
      }
      if i < |pb| {
        bi := pb[i];
      }
      Headed(ra, rb);
      if ai != bi {
        return if ai > bi then 1 else -1;
      }
      ra, rb := if ra == [] then [] else ra[1..], if rb == [] then [] else rb[1..];
      i := i + 1;
    }
    return 0;
  }

  method VersionGreater(a: string, b: string) returns (r: bool)
    ensures r == Greater(a, b)
  {
    var x, y := NormalizeVersion(a), NormalizeVersion(b);
    if x == y {
      return false;
    }
    var va, vb := SplitSemver(x), SplitSemver(y);
    var core := CompareNumbers(va.core, vb.core);
    if core != 0 {
      return core > 0;
    }
    var pre := ComparePrerelease(va.prerelease, vb.prerelease);
    return pre > 0;
  }

  // --- a strict weak order ------------------------------------------------------------------------

  lemma PrereleaseChain(a: seq<string>, b: seq<string>, c: seq<string>)
    requires AllFit(a) && AllFit(b) && AllFit(c)
    ensures PrereleaseOrder(a, b) == -PrereleaseOrder(b, a)
    ensures Chain(PrereleaseOrder(a, b), PrereleaseOrder(b, c), PrereleaseOrder(a, c))
  {
    IdentifiersOrder(a, b, c);
  }

  lemma ParsedChain(a: Parsed, b: Parsed, c: Parsed)
    requires AllFit(a.prerelease) && AllFit(b.prerelease) && AllFit(c.prerelease)
    ensures ParsedOrder(a, b) == -ParsedOrder(b, a)
    ensures Chain(ParsedOrder(a, b), ParsedOrder(b, c), ParsedOrder(a, c))
  {
    CoreOrder(a.core, b.core, c.core);
    PrereleaseChain(a.prerelease, b.prerelease, c.prerelease);
  }

  /** No numeric prerelease identifier overflows 64 bits. */
  ghost predicate InRange(v: string) { AllFit(SplitSemver(NormalizeVersion(v)).prerelease) }

  /** The comparison of two version strings as a number. */
  function Order(a: string, b: string): int {
    ParsedOrder(SplitSemver(NormalizeVersion(a)), SplitSemver(NormalizeVersion(b)))
  }

  lemma OrderChain(a: string, b: string, c: string)
    requires InRange(a) && InRange(b) && InRange(c)
    ensures Order(a, b) == -Order(b, a) && Chain(Order(a, b), Order(b, c), Order(a, c))
  {
    ParsedChain(SplitSemver(NormalizeVersion(a)), SplitSemver(NormalizeVersion(b)), SplitSemver(NormalizeVersion(c)));
  }

  lemma GreaterIsOrder(a: string, b: string)
    requires InRange(a) && InRange(b)
    ensures Greater(a, b) <==> Order(a, b) > 0
  {
    OrderChain(a, a, a);
  }

  // On versions in range the comparison is a strict weak order.

  lemma Asymmetric(a: string, b: string)
    requires InRange(a) && InRange(b)
    ensures !(Greater(a, b) && Greater(b, a))
  {
    OrderChain(a, b, b);
    GreaterIsOrder(a, b);
    GreaterIsOrder(b, a);
  }

  lemma Transitive(a: string, b: string, c: string)
    requires InRange(a) && InRange(b) && InRange(c) && Greater(a, b) && Greater(b, c)
    ensures Greater(a, c)
  {
    GreaterIsOrder(a, b);
    GreaterIsOrder(b, c);
    GreaterIsOrder(a, c);
    OrderTransitive(a, b, c);
  }

  lemma NotGreaterTransitive(a: string, b: string, c: string)
    requires InRange(a) && InRange(b) && InRange(c) && !Greater(a, b) && !Greater(b, c)
    ensures !Greater(a, c)
  {
    GreaterIsOrder(a, b);
    GreaterIsOrder(b, c);
    GreaterIsOrder(a, c);
    OrderChain(a, b, c);
  }

  lemma OrderTransitive(a: string, b: string, c: string)
    requires InRange(a) && InRange(b) && InRange(c) && Order(a, b) > 0 && Order(b, c) > 0
    ensures Order(a, c) > 0
  {
    OrderChain(c, b, a);
    OrderChain(b, c, c);
    OrderChain(a, b, b);
    OrderChain(a, c, c);
  }

  // --- what overflow does -------------------------------------------------------------------------

  function Pow10(n: nat): nat { if n == 0 then 1 else 10 * Pow10(n - 1) }

  /** A number written without leading zeros. */
  predicate IsCanonical(s: string) { IsNumericIdentifier(s) && (s == "0" || s[0] != '0') }

  lemma {:induction false} ValueBelow(s: string)
    requires AllDigits(s)
    ensures Value(s) < Pow10(|s|)
  {
    if s != "" {
      ValueBelow(s[..|s| - 1]);
    }
  }

  lemma {:induction false} ValueAtLeast(s: string)
    requires IsNumericIdentifier(s) && s[0] != '0'
    ensures Pow10(|s| - 1) <= Value(s)
  {
    if |s| > 1 {
      ValueAtLeast(s[..|s| - 1]);
    }
  }

  lemma {:induction false} ValueByFirst(s: string)
    requires IsNumericIdentifier(s)
    ensures Value(s) == (s[0] as int - '0' as int) * Pow10(|s| - 1) + Value(s[1..])
  {
    if |s| > 1 {
      var init := s[..|s| - 1];
      ValueByFirst(init);
      assert init[1..] == s[1..][..|s| - 2];
      var d := s[0] as int - '0' as int;
      assert (d * Pow10(|s| - 2)) * 10 == d * (10 * Pow10(|s| - 2));
    }
  }

  lemma {:induction false} FirstDecides(x: int, y: int, p: nat, u: nat, v: nat)
    requires x < y && u < p
    ensures x * p + u < y * p + v
    decreases y - x
  {
    assert y * p == (y - 1) * p + p;
    if x < y - 1 {
      FirstDecides(x, y - 1, p, u, v);
    }
  }

  lemma {:induction false} SameLengthOrder(a: string, b: string)
    requires AllDigits(a) && AllDigits(b) && |a| == |b|
    ensures StrCmp(a, b) == Sign(Value(a) - Value(b))
  {
    if a != "" {
      ValueByFirst(a);
      ValueByFirst(b);
      ValueBelow(a[1..]);
      ValueBelow(b[1..]);
      var p := Pow10(|a| - 1);
      var x, y := a[0] as int - '0' as int, b[0] as int - '0' as int;
      if x < y {
        FirstDecides(x, y, p, Value(a[1..]), Value(b[1..]));
      } else if y < x {
        FirstDecides(y, x, p, Value(b[1..]), Value(a[1..]));
      } else {
        SameLengthOrder(a[1..], b[1..]);
      }
    }
  }

  lemma {:induction false} Pow10Grows(m: nat, n: nat)
    requires m <= n
    ensures Pow10(m) <= Pow10(n)
  {
    if m < n {
      Pow10Grows(m, n - 1);
    }
  }

  lemma ShorterIsSmaller(a: string, b: string)
    requires IsCanonical(a) && IsCanonical(b) && |a| < |b|
    ensures Value(a) < Value(b)
  {
    ValueBelow(a);
    ValueAtLeast(b);
    Pow10Grows(|a|, |b| - 1);
  }

  /** The digits behind leading zeros. */
  function Stripped(s: string): string { if |s| > 1 && s[0] == '0' then Stripped(s[1..]) else s }

  lemma {:induction false} StrippedIsCanonical(s: string)
    requires IsNumericIdentifier(s)
    ensures IsCanonical(Stripped(s)) && Value(Stripped(s)) == Value(s)
    ensures IsCanonical(s) ==> Stripped(s) == s
    decreases |s|
  {
    if |s| > 1 && s[0] == '0' {
      ValueByFirst(s);
      StrippedIsCanonical(s[1..]);
    }
  }

  lemma CanonicalDecide(x: string, y: string)
    requires IsCanonical(x) && IsCanonical(y)
    ensures Sign(Value(x) - Value(y)) == if |x| == |y| then StrCmp(x, y) else Sign(|x| - |y|)
  {
    if |x| == |y| {
      SameLengthOrder(x, y);
    } else if |x| < |y| {
      ShorterIsSmaller(x, y);
    } else {
      ShorterIsSmaller(y, x);
    }
  }

  /** Numbers compare by the length of their digits, and by the digits at equal length. */
  lemma DigitsDecide(a: string, b: string)
    requires IsNumericIdentifier(a) && IsNumericIdentifier(b)
    ensures var (x, y) := (Stripped(a), Stripped(b));
            Sign(Value(a) - Value(b)) == if |x| == |y| then StrCmp(x, y) else Sign(|x| - |y|)
  {
    var x, y := Stripped(a), Stripped(b);
    StrippedIsCanonical(a);
    StrippedIsCanonical(b);
    CanonicalDecide(x, y);
  }

  /** With a number that does not fit, the comparison is right exactly when byte order happens
      to agree with the digits; without leading zeros, with their number. */
  lemma OverflowIsRightIff(a: string, b: string)
    requires IsNumericIdentifier(a) && IsNumericIdentifier(b) && !(Fits(a) && Fits(b))
    ensures var (x, y) := (Stripped(a), Stripped(b));
            ComparePrereleaseIdentifier(a, b) == Sign(Value(a) - Value(b)) <==>
            StrCmp(a, b) == if |x| == |y| then StrCmp(x, y) else Sign(|x| - |y|)
    ensures IsCanonical(a) && IsCanonical(b) ==>
            (ComparePrereleaseIdentifier(a, b) == Sign(Value(a) - Value(b)) <==> |a| == |b| || StrCmp(a, b) == Sign(|a| - |b|))
  {
    DigitsDecide(a, b);
    StrippedIsCanonical(a);
    StrippedIsCanonical(b);
  }

  const HUGE := "100000000000000000000"

  lemma HugeDoesNotFit()
    ensures IsNumericIdentifier(HUGE) && Value(HUGE) > MAX_INT64
  {
    ValueAtLeast(HUGE);
    Pow10Grows(19, 20);
    LargePower();
  }

  lemma TwoBelowTen()
    ensures IsNumericIdentifier("2") && IsNumericIdentifier("10") && ComparePrereleaseIdentifier("2", "10") < 0
  {
    var two, ten := "2", "10";
    assert two[..0] == "" && Value(two) == 2;
    assert ten[..1] == "1" && Value("1") == 1 && Value(ten) == 10;
  }

  lemma TenBeforeHuge()
    ensures StrCmp("10", HUGE) < 0
  {
    var ten := "10";
    assert ten[1..] == "0" && ten[1..][1..] == "" && HUGE[1..][0] == '0';
    assert StrCmp(ten[1..], HUGE[1..]) == StrCmp(ten[1..][1..], HUGE[1..][1..]);
  }

  /** Three identifiers that are compared in a circle: 2 < 10 < 10^20 < 2. */
  lemma OverflowCycle()
    ensures ComparePrereleaseIdentifier("2", "10") < 0
    ensures ComparePrereleaseIdentifier("10", HUGE) < 0
    ensures ComparePrereleaseIdentifier(HUGE, "2") < 0
  {
    TwoBelowTen();
    TenBeforeHuge();
    HugeDoesNotFit();
  }

  lemma LargePower()
    ensures Pow10(19) > MAX_INT64
  {
    assert Pow10(4) == 10000 by {
      assert Pow10(2) == 100;
    }
    PowerSum(4, 4);
    PowerSum(8, 8);
    PowerSum(16, 3);
    assert Pow10(3) == 1000 by {
      assert Pow10(1) == 10;
    }
  }

  lemma {:induction false} PowerSum(m: nat, n: nat)
    ensures Pow10(m + n) == Pow10(m) * Pow10(n)
  {
    if n > 0 {
      PowerSum(m, n - 1);
      assert 10 * (Pow10(m) * Pow10(n - 1)) == Pow10(m) * (10 * Pow10(n - 1));
    }
  }
}
