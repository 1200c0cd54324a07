/**
 The check that decides whether an incremental run can trust the index.
 */
module Desync {
  import opened IndexProtocol
  import opened IndexStores
  import opened Indexing

  const FETCH_BATCH := 128

  /** How the vector store answers when it is opened for the check. */
  datatype Access = Opens | LockedOrMissing | Broken

  /** Each row of the manifest exactly once. */
  ghost predicate IsListing(rows: map<Path, Row>, paths: seq<Path>) {
    && (forall p :: p in paths <==> p in rows)
    && (forall i, j | 0 <= i < j < |paths| :: paths[i] != paths[j])
  }

  function ChunkTotal(rows: map<Path, Row>, paths: seq<Path>): nat
    requires forall p | p in paths :: p in rows
  {
    if paths == [] then 0
    else ChunkTotal(rows, paths[..|paths| - 1]) + rows[paths[|paths| - 1]].chunkCount
  }

  ghost function IdsUnder(rows: map<Path, Row>, paths: seq<Path>): set<DocId>
    requires forall p | p in paths :: p in rows
  {
    set p, d | p in paths && d in rows[p].docIds :: d
  }

  /** No id is recorded twice in one row. */
  ghost predicate NoRepeats(ids: seq<DocId>) {
    forall i, j | 0 <= i < j < |ids| :: ids[i] != ids[j]
  }

  ghost predicate CountsMatch(rows: map<Path, Row>) {
    forall p | p in rows :: rows[p].chunkCount == |rows[p].docIds| && NoRepeats(rows[p].docIds)
  }

  /** The rows the indexer writes count their ids, each once. */
  lemma WrittenRowsCount(rows: map<Path, Row>)
    requires AllWritten(rows)
    ensures CountsMatch(rows)
  {
    forall p | p in rows ensures rows[p].chunkCount == |rows[p].docIds| && NoRepeats(rows[p].docIds) {
      assert Written(p, rows[p]);
    }
  }

  /** So at every crash point of every sequence of incremental runs on a new index
      directory. */
  lemma ManifestsCount(t: Trace, at: Trace)
    requires Fresh(Origin(t)) && Legal(t) && CrashPoint(at, t)
    ensures CountsMatch(Now(at).disk.rows) && RowsOwn(Now(at).disk.rows)
  {
    RowsAreWritten(t, at);
    WrittenRowsCount(Now(at).disk.rows);
    EveryCrashPointKeepsInv(t, at);
  }

  /** A manifest without chunks has no rows. */
  lemma {:induction false} ChunksMeanRows(rows: map<Path, Row>, paths: seq<Path>)
    requires AllWritten(rows) && forall p | p in paths :: p in rows
    ensures ChunkTotal(rows, paths) >= |paths|
  {
    if paths != [] {
      assert Written(paths[|paths| - 1], rows[paths[|paths| - 1]]);
      ChunksMeanRows(rows, paths[..|paths| - 1]);
    }
  }

  lemma {:induction false} SizeOfDistinct(ids: seq<DocId>)
    requires NoRepeats(ids)
    ensures |SetOf(ids)| == |ids|
  {
    if ids != [] {
      var n := |ids| - 1;
      SizeOfDistinct(ids[..n]);
      assert ids == ids[..n] + [ids[n]];
      SetOfConcat(ids[..n], [ids[n]]);
      assert SetOf(ids) == SetOf(ids[..n]) + {ids[n]};
    }
  }

  lemma {:induction false} TotalIsUnionSize(rows: map<Path, Row>, paths: seq<Path>)
    requires RowsOwn(rows) && CountsMatch(rows)
    requires forall p | p in paths :: p in rows
    requires forall i, j | 0 <= i < j < |paths| :: paths[i] != paths[j]
    ensures ChunkTotal(rows, paths) == |IdsUnder(rows, paths)|
  {
    if paths != [] {
      var n := |paths| - 1;
      var p := paths[n];
      TotalIsUnionSize(rows, paths[..n]);
      assert paths == paths[..n] + [p];
      assert IdsUnder(rows, paths) == IdsUnder(rows, paths[..n]) + SetOf(rows[p].docIds);
      assert IdsUnder(rows, paths[..n]) !! SetOf(rows[p].docIds);
      SizeOfDistinct(rows[p].docIds);
    }
  }

  lemma SubsetOfSameSize(a: set<DocId>, b: set<DocId>)
    requires a <= b && |a| == |b|
    ensures a == b
  {
    assert b == a + (b - a);
    assert |b| == |a| + |b - a|;
  }

  lemma FoundAllIffPresent(batch: seq<DocId>, vecs: set<DocId>)
    requires NoRepeats(batch)
    ensures |SetOf(batch) * vecs| < |batch| <==> !(SetOf(batch) <= vecs)
  {
    SizeOfDistinct(batch);
    var both := SetOf(batch) * vecs;
    if SetOf(batch) <= vecs {
      assert both == SetOf(batch);
    } else if |both| >= |batch| {
      assert SetOf(batch) == both + (SetOf(batch) - vecs);
      SubsetOfSameSize(both, SetOf(batch));
    }
  }

  /** The distinct ids recorded by the rows, in listing order. */
  method AllDocIDs(ix: Index, paths: seq<Path>) returns (ids: seq<DocId>)
    requires forall p | p in paths :: p in ix.rows
    ensures SetOf(ids) == IdsUnder(ix.rows, paths) && |ids| == |SetOf(ids)|
    ensures NoRepeats(ids)
  {
    ids := [];
    for i := 0 to |paths|
      invariant SetOf(ids) == IdsUnder(ix.rows, paths[..i]) && NoRepeats(ids)
    {
      var row := ix.rows[paths[i]];
      ghost var before := SetOf(ids);
      assert paths[..i + 1] == paths[..i] + [paths[i]];
      for j := 0 to |row.docIds|
        invariant SetOf(ids) == before + SetOf(row.docIds[..j]) && NoRepeats(ids)
      {
        assert row.docIds[..j + 1] == row.docIds[..j] + [row.docIds[j]];
        SetOfConcat(row.docIds[..j], [row.docIds[j]]);
        if row.docIds[j] !in ids {
          SetOfConcat(ids, [row.docIds[j]]);
          ids := ids + [row.docIds[j]];
        } else {
          assert row.docIds[j] in SetOf(ids);
        }
      }
      assert row.docIds[..|row.docIds|] == row.docIds;
    }
    assert paths[..|paths|] == paths;
    SizeOfDistinct(ids);
  }

  /** Fetches in batches and compares the number found with the number asked for. */
  method DocIDsPresent(ix: Index, ids: seq<DocId>) returns (present: bool)
    requires NoRepeats(ids)
    ensures present <==> SetOf(ids) <= ix.vecs
  {
    var i := 0;
    while i < |ids|
      invariant 0 <= i <= |ids|
      invariant SetOf(ids[..i]) <= ix.vecs
    {
      var end := if i + FETCH_BATCH <= |ids| then i + FETCH_BATCH else |ids|;
      var batch := ids[i..end];
      NextBatch(ids, i, end);
      FoundAllIffPresent(batch, ix.vecs);
      var found := |SetOf(batch) * ix.vecs|;
      if found < |batch| {
        return false;
      }
      i := end;
    }
    assert ids[..|ids|] == ids;
    present := true;
  }

  method Stats(ix: Index, paths: seq<Path>) returns (chunks: nat)
    requires forall p | p in paths :: p in ix.rows
    ensures chunks == ChunkTotal(ix.rows, paths)
  {
    chunks := 0;
    for i := 0 to |paths|
      invariant chunks == ChunkTotal(ix.rows, paths[..i])
    {
      assert paths[..i + 1][..i] == paths[..i];
      chunks := chunks + ix.rows[paths[i]].chunkCount;
    }
    assert paths[..|paths|] == paths;
  }

  /** The rows record as many different ids as they count chunks. */
  ghost predicate Counted(rows: map<Path, Row>, paths: seq<Path>)
    requires forall p | p in paths :: p in rows
  {
    |IdsUnder(rows, paths)| == ChunkTotal(rows, paths)
  }

  /** True when the manifest and the store disagree; `paths` is the table's listing. */
  method ManifestZvecDesync(ix: Index, paths: seq<Path>, access: Access) returns (need: bool, failed: bool)
    requires IsListing(ix.rows, paths)
    ensures failed <==> access.Broken? && ChunkTotal(ix.rows, paths) > 0 && Counted(ix.rows, paths)
    ensures need <==>
      && !failed && ChunkTotal(ix.rows, paths) > 0
      && (!Counted(ix.rows, paths) || access.LockedOrMissing? || ix.vecs != IdsUnder(ix.rows, paths))
  {
    var chunks := Stats(ix, paths);
    if chunks == 0 {
      return false, false;
    }
    var ids := AllDocIDs(ix, paths);
    var uniqueIds := |ids|;
    if uniqueIds != chunks {
      return true, false;
    }
    if access.LockedOrMissing? {
      return true, false;
    }
    if access.Broken? {
      return false, true;
    }
    var docCount := |ix.vecs|;
    if docCount == 0 || uniqueIds != docCount {
      return true, false;
    }
    var present := DocIDsPresent(ix, ids);
    if present {
      SubsetOfSameSize(SetOf(ids), ix.vecs);
    }
    return !present, false;
  }

  /** For the manifests the indexer writes, a readable store and at least one chunk,
      the check asks for a rebuild exactly when the store is not the union of the
      rows: its silence is what `Indexing.Run` needs to match a rebuild. */
  method DesyncIffNotExact(ix: Index, paths: seq<Path>) returns (need: bool)
    requires IsListing(ix.rows, paths) && RowsOwn(ix.rows) && CountsMatch(ix.rows)
    requires ChunkTotal(ix.rows, paths) > 0
    ensures !need <==> Exact(ix.rows, ix.vecs)
  {
    var failed;
    need, failed := ManifestZvecDesync(ix, paths, Opens);
    TotalIsUnionSize(ix.rows, paths);
    ExactIsUnion(ix.rows, ix.vecs, paths);
  }

  lemma ExactIsUnion(rows: map<Path, Row>, vecs: set<DocId>, paths: seq<Path>)
    requires IsListing(rows, paths) && RowsOwn(rows)
    ensures Exact(rows, vecs) <==> vecs == IdsUnder(rows, paths)
  {
    forall d: DocId ensures d in IdsUnder(rows, paths) <==> d in RowIds(rows, d.path) {
    }
    if vecs == IdsUnder(rows, paths) {
      assert Exact(rows, vecs);
    }
    if Exact(rows, vecs) {
      forall d ensures d in vecs <==> d in IdsUnder(rows, paths) {
        assert d in vecs <==> d in RowIds(rows, d.path);
      }
    }
  }
}
