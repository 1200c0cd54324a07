/**
 Path-glob search by widening the query window.

 The index answers a query for k with the first k documents of one fixed ranking, of
 which some may be missing; `fails` says which queries return an error instead.
 */
module GlobSearch {
  import opened Options

  const MAX_INT := 0x7fff_ffff_ffff_ffff
  const TWO_64 := 0x1_0000_0000_0000_0000

  /** Doubling in 64-bit two's complement. */
  function Double(n: int): int { if 2 * n > MAX_INT then 2 * n - TWO_64 else 2 * n }

  function GlobTopKStart(topK: int, docCount: int): int {
    if docCount <= 0 then 0
    else if topK < 1 then 1
    else if topK > docCount then docCount
    else topK
  }

  function NextGlobTopK(current: int, docCount: int): int {
    if docCount <= 0 then 0
    else if current >= docCount then docCount
    else if Double(current) <= current || Double(current) > docCount then docCount
    else Double(current)
  }

  /** The window doubles until it is the whole collection, and overflow never shows. */
  lemma WindowDoubles(current: int, docCount: int)
    requires 0 < current < docCount <= MAX_INT
    ensures NextGlobTopK(current, docCount) == if 2 * current > docCount then docCount else 2 * current
    ensures current < NextGlobTopK(current, docCount) <= docCount
  {
  }

  // --- filtering -----------------------------------------------------------------------

  /** The documents of a ranking that exist and match, in order. */
  function Matches<D>(ranking: seq<Option<D>>, keep: D -> bool): seq<D> {
    if ranking == [] then []
    else
      var last := ranking[|ranking| - 1];
      Matches(ranking[..|ranking| - 1], keep) + (if last.Some? && keep(last.value) then [last.value] else [])
  }

  function FirstOf<D>(hits: seq<D>, topK: int): seq<D> {
    if topK <= 0 then [] else if |hits| <= topK then hits else hits[..topK]
  }

  predicate Kept<D>(ranking: seq<Option<D>>, keep: D -> bool, i: nat)
    requires i < |ranking|
  {
    ranking[i].Some? && keep(ranking[i].value)
  }

  /** Every document that exists and matches is found, at the place that counts those before it. */
  lemma {:induction false} MatchesInOrder<D>(ranking: seq<Option<D>>, keep: D -> bool, i: nat)
    requires i < |ranking| && Kept(ranking, keep, i)
    ensures |Matches(ranking[..i], keep)| < |Matches(ranking, keep)|
    ensures Matches(ranking, keep)[|Matches(ranking[..i], keep)|] == ranking[i].value
  {
    var n := |ranking| - 1;
    if i < n {
      assert ranking[..n][..i] == ranking[..i] && ranking[..n][i] == ranking[i];
      MatchesInOrder(ranking[..n], keep, i);
    }
  }

  /** And nothing else is found. */
  lemma {:induction false} MatchesCount<D>(ranking: seq<Option<D>>, keep: D -> bool)
    ensures |Matches(ranking, keep)| == |set i: nat | i < |ranking| && Kept(ranking, keep, i)|
  {
    var all := set i: nat | i < |ranking| && Kept(ranking, keep, i);
    if ranking != [] {
      var n := |ranking| - 1;
      var shorter := ranking[..n];
      MatchesCount(shorter, keep);
      var before := set i: nat | i < n && Kept(shorter, keep, i);
      assert forall i: nat | i < n :: Kept(shorter, keep, i) == Kept(ranking, keep, i);
      if Kept(ranking, keep, n) {
        assert all == before + {n} && n !in before;
      } else {
        assert all == before;
      }
    } else {
      assert all == {};
    }
  }

  lemma FirstOfIs<D>(hits: seq<D>, topK: int)
    ensures FirstOf(hits, topK) <= hits
    ensures |FirstOf(hits, topK)| == if topK < 0 then 0 else if topK < |hits| then topK else |hits|
  {
  }

  lemma {:induction false} MatchesPrefix<D>(ranking: seq<Option<D>>, k: nat, keep: D -> bool)
    requires k <= |ranking|
    ensures Matches(ranking[..k], keep) <= Matches(ranking, keep)
    decreases |ranking| - k
  {
    if k < |ranking| {
      MatchesPrefix(ranking, k + 1, keep);
      assert ranking[..k + 1][..k] == ranking[..k];
    } else {
      assert ranking[..k] == ranking;
    }
  }

  /** Enough hits in a window are the hits of the whole ranking. */
  lemma EnoughInWindow<D>(ranking: seq<Option<D>>, k: nat, keep: D -> bool, topK: int)
    requires k <= |ranking| && |Matches(ranking[..k], keep)| >= topK
    ensures FirstOf(Matches(ranking[..k], keep), topK) == FirstOf(Matches(ranking, keep), topK)
  {
    MatchesPrefix(ranking, k, keep);
  }

  method FilterHits<D>(results: seq<Option<D>>, keep: D -> bool, topK: int) returns (hits: seq<D>)
    requires topK > 0
    ensures hits == FirstOf(Matches(results, keep), topK)
  {
    hits := [];
    for i := 0 to |results|
      invariant hits == Matches(results[..i], keep) && |hits| < topK
    {
      assert results[..i + 1][..i] == results[..i];
      var doc := results[i];
      if doc.None? || !keep(doc.value) {
        continue;
      }
      hits := hits + [doc.value];
      if |hits| >= topK {
        EnoughInWindow(results, i + 1, keep, topK);
        return;
      }
    }
    assert results[..|results|] == results;
  }

  // --- the search ------------------------------------------------------------------------

  datatype Reply<D> = Hits(hits: seq<D>) | Failed

  /** The collection as the search finds it. */
  datatype Access = Missing | NoCount | Counted

  /** The windows asked for: doubled up to the collection size, each but the last without
      enough matches. */
  ghost predicate Widening<D>(windows: seq<nat>, ranking: seq<Option<D>>, keep: D -> bool, topK: int) {
    && (windows != [] ==> windows[0] == if topK < 1 then 1 else if topK < |ranking| then topK else |ranking|)
    && (forall i | 0 <= i < |windows| :: 0 < windows[i] <= |ranking|)
    && (forall i, j | 0 <= i < j < |windows| && j == i + 1 ::
          windows[j] == (if 2 * windows[i] > |ranking| then |ranking| else 2 * windows[i]) && windows[i] < windows[j])
    && (forall i | 0 <= i < |windows| - 1 :: |Matches(ranking[..windows[i]], keep)| < topK)
  }

  /** Where the loop stands: `next` is the window to ask for, and the last one asked for
      did not hold enough. */
  ghost predicate Wanting<D>(windows: seq<nat>, next: int, ranking: seq<Option<D>>, keep: D -> bool, topK: int) {
    && Widening(windows, ranking, keep, topK) && 0 < next <= |ranking|
    && if windows == [] then next == GlobTopKStart(topK, |ranking|) else
         var last := windows[|windows| - 1];
         last < |ranking| && next == NextGlobTopK(last, |ranking|) && |Matches(ranking[..last], keep)| < topK
  }

  lemma Asked<D>(windows: seq<nat>, next: nat, ranking: seq<Option<D>>, keep: D -> bool, topK: int)
    requires Wanting(windows, next, ranking, keep, topK) && |ranking| <= MAX_INT
    ensures Widening(windows + [next], ranking, keep, topK)
  {
    if windows != [] {
      WindowDoubles(windows[|windows| - 1], |ranking|);
    }
  }

  lemma AskMore<D>(windows: seq<nat>, last: nat, ranking: seq<Option<D>>, keep: D -> bool, topK: int)
    requires Widening(windows, ranking, keep, topK) && windows != [] && windows[|windows| - 1] == last
    requires last < |ranking| <= MAX_INT && |Matches(ranking[..last], keep)| < topK
    ensures Wanting(windows, NextGlobTopK(last, |ranking|), ranking, keep, topK)
    ensures last < NextGlobTopK(last, |ranking|)
  {
    WindowDoubles(last, |ranking|);
  }

  /** One query and its filter: `enough` when nothing more is to be asked. */
  method AskAndFilter<D>(ranking: seq<Option<D>>, keep: D -> bool, topK: int, queryTopK: nat)
    returns (hits: seq<D>, enough: bool)
    requires topK > 0 && queryTopK <= |ranking|
    ensures enough ==> hits == FirstOf(Matches(ranking, keep), topK)
    ensures !enough ==> queryTopK < |ranking| && |Matches(ranking[..queryTopK], keep)| < topK && |hits| < topK
  {
    hits := FilterHits(ranking[..queryTopK], keep, topK);
    enough := |hits| >= topK || queryTopK >= |ranking|;
    if |hits| >= topK {
      EnoughInWindow(ranking, queryTopK, keep, topK);
    } else if queryTopK >= |ranking| {
      assert ranking[..queryTopK] == ranking;
    }
  }

  /** The hits are exactly the first `topK` of the fully filtered ranking. `windows` are
      the queries made. */
  method SearchWithGlobExpansion<D>(access: Access, ranking: seq<Option<D>>, keep: D -> bool, fails: nat -> bool, topK: int)
    returns (r: Reply<D>, windows: seq<nat>)
    requires |ranking| <= MAX_INT
    ensures Widening(windows, ranking, keep, topK)
    ensures r.Hits? ==> r.hits == FirstOf(Matches(ranking, keep), topK)
    ensures r.Failed? <==> !access.Counted? || exists k :: k in windows && fails(k)
    ensures !access.Counted? ==> windows == []
  {
    windows := [];
    if !access.Counted? {
      return Failed, windows;
    }
    var docCount := |ranking|;
    if docCount == 0 {
      return Hits([]), windows;
    }
    var queryTopK := GlobTopKStart(topK, docCount);
    var hits: seq<D> := [];
    while |hits| < topK && 0 < queryTopK <= docCount
      invariant Wanting(windows, queryTopK, ranking, keep, topK)
      invariant forall k | k in windows :: !fails(k)
      invariant hits == [] || |hits| < topK
      decreases docCount - queryTopK
    {
      Asked(windows, queryTopK, ranking, keep, topK);
      windows := windows + [queryTopK];
      if fails(queryTopK) {
        assert queryTopK in windows;
        return Failed, windows;
      }
      var enough;
      hits, enough := AskAndFilter(ranking, keep, topK, queryTopK);
      if enough {
        return Hits(hits), windows;
      }
      AskMore(windows, queryTopK, ranking, keep, topK);
      queryTopK := NextGlobTopK(queryTopK, docCount);
    }
    return Hits(hits), windows;
  }
}
